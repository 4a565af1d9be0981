/** ApplyPushChanges as the program runs it: statements on an open transaction, then a commit. */
module PushChangeStores {
  import opened Wrappers
  import opened SyncModel
  import opened PushApply

  /** The tables as an open transaction sees them. */
  class Transaction {
    var collection: Option<Collection>
    var rows: map<Key, Row>
    var units: map<EntityId, SyncUnit>

    function Contents(): Database
      reads this
    {
      Database(collection, rows, units)
    }

    constructor (db: Database)
      ensures Contents() == db
    {
      collection, rows, units := db.collection, db.rows, db.units;
    }

    /** The upsert_*.sql statement of one of the six tables keyed by (user, id). */
    method ExecUpsert(kind: int, id: EntityId, usn: int, p: Payload)
      requires kind != COLLECTION
      modifies this`rows
      ensures rows == old(rows)[Key(kind, id) := Row(usn, p.updatedAt, false, p.body)]
    {
      rows := rows[Key(kind, id) := Row(usn, p.updatedAt, false, p.body)];
    }

    /** upsert_collection.sql: on a duplicate user the row is overwritten, id included, but not its cursor. */
    method ExecUpsertCollection(id: EntityId, usn: int, p: Payload)
      modifies this`rows, this`collection
      ensures old(collection).Some? ==>
                && collection == Some(old(collection).value.(id := id))
                && rows == (old(rows) - {Key(COLLECTION, old(collection).value.id)})[Key(COLLECTION, id) := Row(usn, p.updatedAt, false, p.body)]
      ensures old(collection).None? ==>
                && collection == Some(Collection(id, 0, 0))
                && rows == old(rows)[Key(COLLECTION, id) := Row(usn, p.updatedAt, false, p.body)]
    {
      if collection.Some? {
        rows := rows - {Key(COLLECTION, collection.value.id)};
        collection := Some(collection.value.(id := id));
      } else {
        collection := Some(Collection(id, 0, 0));
      }
      rows := rows[Key(COLLECTION, id) := Row(usn, p.updatedAt, false, p.body)];
    }

    /** The delete_*.sql statement: marks a live row, and reports how many rows it marked. */
    method ExecSoftDelete(kind: int, id: EntityId, usn: int, deletedAt: int) returns (rowsAffected: nat)
      modifies this`rows
      ensures rowsAffected == if old(IsLive(Contents(), Key(kind, id))) then 1 else 0
      ensures rows == if rowsAffected == 1
                      then old(rows)[Key(kind, id) := Tombstone(usn, deletedAt, old(rows)[Key(kind, id)])]
                      else old(rows)
    {
      var key := Key(kind, id);
      if key in rows && !rows[key].deleted {
        rows := rows[key := Row(usn, deletedAt, true, rows[key].body)];
        rowsAffected := 1;
      } else {
        rowsAffected := 0;
      }
    }

    /** upsert_sync_unit.sql */
    method ApplySyncUnit(c: SyncChange, usn: int, updatedAt: int)
      requires c.SyncChange?
      modifies this`units
      ensures units == old(units)[c.id := SyncUnit(c.kind, if c.op == OpDelete then UnitDelete else UnitUpsert, usn, updatedAt)]
    {
      units := units[c.id := SyncUnit(c.kind, if c.op == OpDelete then UnitDelete else UnitUpsert, usn, updatedAt)];
    }

    method ApplyUpsert(c: SyncChange, usn: int) returns (ok: bool)
      requires c.SyncChange? && c.usn == -1 && c.op == OpUpsert
      modifies this
      ensures ok == ValidUpsert(c)
      ensures ok ==> Contents() == Upsert(old(Contents()), usn, c)
    {
      if !IsKind(c.kind) {
        return false;
      }
      if c.payload.None? || c.payload.value.kind != c.kind {
        return false;
      }
      if c.kind == COLLECTION {
        ExecUpsertCollection(c.id, usn, c.payload.value);
      } else {
        ExecUpsert(c.kind, c.id, usn, c.payload.value);
      }
      ApplySyncUnit(c, usn, c.payload.value.updatedAt);
      ok := true;
    }

    method ApplyDelete(c: SyncChange, usn: int) returns (ok: bool)
      requires c.SyncChange? && c.usn == -1 && c.op == OpDelete
      modifies this
      ensures ok == ValidDelete(c)
      ensures ok ==> Contents() == SoftDelete(old(Contents()), usn, c)
    {
      if c.kind == REVIEW_LOG || c.kind == COLLECTION || !IsKind(c.kind) {
        return false;
      }
      if c.deletedAt.None? || c.payload.Some? {
        return false;
      }
      var rowsAffected := ExecSoftDelete(c.kind, c.id, usn, c.deletedAt.value);
      if rowsAffected > 0 {
        ApplySyncUnit(c, usn, c.deletedAt.value);
      }
      ok := true;
    }

    method ApplyOne(c: SyncChange, usn: int) returns (ok: bool)
      modifies this
      ensures ok <==> ApplyChange(old(Contents()), usn, c).Some?
      ensures ok ==> Contents() == ApplyChange(old(Contents()), usn, c).value
    {
      if c.NilChange? || c.usn != -1 {
        return false;
      }
      match c.op
      case OpUpsert => ok := ApplyUpsert(c, usn);
      case OpDelete => ok := ApplyDelete(c, usn);
      case _ => ok := false;
    }

    /** update_collection_sync_cursor.sql */
    method ExecUpdateCursor(next: int) returns (rowsAffected: nat)
      modifies this`collection
      ensures rowsAffected > 0 <==> CursorUpdateAffectsRow(old(Contents()), next)
      ensures rowsAffected > 0 ==> Contents() == WithCursor(old(Contents()), next)
      ensures rowsAffected == 0 ==> collection == old(collection)
    {
      if collection.Some? && collection.value.syncCursor != next {
        collection := Some(collection.value.(syncCursor := next));
        rowsAffected := 1;
      } else {
        rowsAffected := 0;
      }
    }
  }

  /** The server's database, which the stores share. */
  class MySql {
    var tables: Database

    constructor (initial: Database)
      ensures tables == initial
    {
      tables := initial;
    }
  }

  class PushChangeStore {
    const db: MySql

    constructor (db: MySql)
      ensures this.db == db
    {
      this.db := db;
    }

    /** Every change in order on one transaction, then the cursor, then the commit. A failing commit,
        like any failing statement, leaves the tables as they were. */
    method ApplyPushChanges(start: int, changes: seq<SyncChange>, commitFails: bool) returns (outcome: PushOutcome)
      modifies db
      ensures var (after, expected) := PushTransaction(old(db.tables), start, changes);
              (db.tables, outcome) ==
              if commitFails && expected.Committed? then (old(db.tables), DatabaseFailure) else (after, expected)
    {
      var tx := new Transaction(db.tables);
      var reply: seq<SyncChange> := [];
      for i := 0 to |changes|
        invariant db.tables == old(db.tables)
        invariant ApplyAll(db.tables, start, changes[..i]) == Some(tx.Contents())
        invariant forall c <- changes[..i] :: c.SyncChange?
        invariant reply == Assigned(start, changes[..i])
      {
        assert changes[..i + 1][..i] == changes[..i];
        var ok := tx.ApplyOne(changes[i], start + i);
        if !ok {
          AcceptedAreChanges(db.tables, start, changes);
          AcceptedAreChanges(db.tables, start, changes[..i + 1]);
          return InvalidChange;
        }
        reply := reply + [SyncChange(changes[i].id, changes[i].kind, OpAssignUsn, start + i, None, None)];
      }
      assert changes[..|changes|] == changes;
      var rowsAffected := tx.ExecUpdateCursor(start + |changes|);
      if rowsAffected == 0 {
        return CursorNotMoved;
      }
      if commitFails {
        return DatabaseFailure;
      }
      db.tables := tx.Contents();
      outcome := Committed(reply);
    }
  }
}
