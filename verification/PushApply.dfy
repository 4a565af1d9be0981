/** What a push batch does to the tables, as functions on database values. */
module PushApply {
  import opened Wrappers
  import opened SyncModel

  predicate ValidUpsert(c: SyncChange) {
    && c.SyncChange? && c.usn == -1 && c.op == OpUpsert && IsKind(c.kind)
    && c.payload.Some? && c.payload.value.kind == c.kind
  }

  predicate ValidDelete(c: SyncChange) {
    && c.SyncChange? && c.usn == -1 && c.op == OpDelete && IsDeletable(c.kind)
    && c.deletedAt.Some? && c.payload.None?
  }

  predicate ValidChange(c: SyncChange) {
    ValidUpsert(c) || ValidDelete(c)
  }

  function UpsertedRow(usn: int, c: SyncChange): Row
    requires ValidUpsert(c)
  {
    Row(usn, c.payload.value.updatedAt, false, c.payload.value.body)
  }

  function Tombstone(usn: int, deletedAt: int, row: Row): Row {
    row.(usn := usn, updatedAt := deletedAt, deleted := true)
  }

  /** Insert or overwrite. The collections table is keyed by user, so a collection upsert replaces
      whatever collection row there is; a new one starts with cursor 0. */
  function Upsert(db: Database, usn: int, c: SyncChange): Database
    requires ValidUpsert(c)
  {
    var key := Key(c.kind, c.id);
    var units := db.units[c.id := SyncUnit(c.kind, UnitUpsert, usn, c.payload.value.updatedAt)];
    if c.kind == COLLECTION then
      var kept := if db.collection.Some? then db.rows - {Key(COLLECTION, db.collection.value.id)} else db.rows;
      var collection := if db.collection.Some? then db.collection.value.(id := c.id) else Collection(c.id, 0, 0);
      Database(Some(collection), kept[key := UpsertedRow(usn, c)], units)
    else
      Database(db.collection, db.rows[key := UpsertedRow(usn, c)], units)
  }

  predicate IsLive(db: Database, key: Key) {
    key in db.rows && !db.rows[key].deleted
  }

  /** Only a live row is marked; deleting an absent or already deleted entity changes nothing. */
  function SoftDelete(db: Database, usn: int, c: SyncChange): Database
    requires ValidDelete(c)
  {
    var key := Key(c.kind, c.id);
    if IsLive(db, key) then
      Database(db.collection,
               db.rows[key := Tombstone(usn, c.deletedAt.value, db.rows[key])],
               db.units[c.id := SyncUnit(c.kind, UnitDelete, usn, c.deletedAt.value)])
    else
      db
  }

  /** None stands for errInvalidPushChange. */
  function ApplyChange(db: Database, usn: int, c: SyncChange): Option<Database> {
    if ValidUpsert(c) then Some(Upsert(db, usn, c))
    else if ValidDelete(c) then Some(SoftDelete(db, usn, c))
    else None
  }

  /** Change i is applied with USN start + i; the first invalid change rejects the batch. */
  function ApplyAll(db: Database, start: int, cs: seq<SyncChange>): Option<Database> {
    if cs == [] then Some(db)
    else
      var n := |cs| - 1;
      var before := ApplyAll(db, start, cs[..n]);
      if before.None? then None else ApplyChange(before.value, start + n, cs[n])
  }

  /** A change together with the USN it is applied under. */
  datatype Numbered = Numbered(usn: int, change: SyncChange)

  /** The changes of a batch under their USNs start, start + 1, ... */
  function Number(start: int, cs: seq<SyncChange>): (h: seq<Numbered>)
    ensures |h| == |cs|
  {
    seq(|cs|, i requires 0 <= i < |cs| => Numbered(start + i, cs[i]))
  }

  datatype PushOutcome = Committed(reply: seq<SyncChange>) | InvalidChange | CursorNotMoved | DatabaseFailure

  function Assigned(start: int, cs: seq<SyncChange>): seq<SyncChange>
    requires forall c <- cs :: c.SyncChange?
  {
    seq(|cs|, i requires 0 <= i < |cs| => SyncChange(cs[i].id, cs[i].kind, OpAssignUsn, start + i, None, None))
  }

  /** MySQL counts a row as affected only when the UPDATE changes it. */
  predicate CursorUpdateAffectsRow(db: Database, next: int) {
    db.collection.Some? && db.collection.value.syncCursor != next
  }

  function WithCursor(db: Database, next: int): Database
    requires db.collection.Some?
  {
    db.(collection := Some(db.collection.value.(syncCursor := next)))
  }

  /** The whole transaction: apply every change, move the cursor past the batch, or roll back. */
  function PushTransaction(db: Database, start: int, cs: seq<SyncChange>): (Database, PushOutcome) {
    match ApplyAll(db, start, cs)
    case None => (db, InvalidChange)
    case Some(applied) =>
      if CursorUpdateAffectsRow(applied, start + |cs|) then
        AcceptedAreChanges(db, start, cs);
        (WithCursor(applied, start + |cs|), Committed(Assigned(start, cs)))
      else (db, CursorNotMoved)
  }

  lemma {:induction false} AcceptedAreChanges(db: Database, start: int, cs: seq<SyncChange>)
    ensures ApplyAll(db, start, cs).Some? <==> forall c <- cs :: ValidChange(c)
    ensures ApplyAll(db, start, cs).Some? ==> forall c <- cs :: c.SyncChange?
  {
    if cs != [] {
      var n := |cs| - 1;
      AcceptedAreChanges(db, start, cs[..n]);
      assert cs[n] in cs && forall c :: c in cs <==> c in cs[..n] || c == cs[n];
    }
  }
}
