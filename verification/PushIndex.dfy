/** When sync_units agrees with the tables after a batch, or after a whole history of changes. */
module PushIndex {
  import opened Wrappers
  import opened SyncModel
  import opened PushApply
  import opened PushProofs
  import opened Histories

  // ----- what a history leaves, read off the history -----

  /** The last upsert of the collection with this very id, or -1. */
  function LastCollectionUpsert(h: seq<Numbered>, id: EntityId): (u: int)
    ensures -1 <= u < |h|
    ensures u >= 0 ==> UpsertsCollection(h[u].change, id)
    ensures forall j :: u < j < |h| ==> !UpsertsCollection(h[j].change, id)
  {
    if h == [] then -1
    else if UpsertsCollection(h[|h| - 1].change, id) then |h| - 1
    else LastCollectionUpsert(h[..|h| - 1], id)
  }

  predicate UpsertsCollection(c: SyncChange, id: EntityId) {
    ValidUpsert(c) && c.kind == COLLECTION && c.id == id
  }

  /** The last change that takes effect on the row with this kind and id, or -1. */
  function LastWrite(db: Database, h: seq<Numbered>, key: Key): (i: int)
    requires WellFormed(db)
    ensures -1 <= i < |h|
  {
    if key.kind == COLLECTION then LastCollectionUpsert(h, key.id) else LastEffective(Holder(db, key), h, key)
  }

  /** The id the user's collection ends with. */
  function FinalCollection(db: Database, h: seq<Numbered>): Option<EntityId> {
    var u := LastUpsert(h, Key(COLLECTION, 0));
    if u >= 0 then Some(h[u].change.id)
    else if db.collection.Some? then Some(db.collection.value.id)
    else None
  }

  /** The kind and id have a row in the end. */
  predicate Present(db: Database, h: seq<Numbered>, key: Key) {
    if key.kind == COLLECTION then FinalCollection(db, h) == Some(key.id)
    else key in db.rows || LastUpsert(h, key) >= 0
  }

  /** The user's collection had this id at some moment, and has another in the end. */
  predicate Displaced(db: Database, h: seq<Numbered>, id: EntityId) {
    && FinalCollection(db, h) != Some(id)
    && ((db.collection.Some? && db.collection.value.id == id) || LastCollectionUpsert(h, id) >= 0)
  }

  /** No id ends with rows of two kinds, and every id that a collection has lost was afterwards given
      to another entity: some change of that entity takes effect after the last upsert of the id as
      a collection. */
  ghost predicate Unambiguous(db: Database, h: seq<Numbered>)
    requires WellFormed(db)
  {
    && (forall j, k :: Present(db, h, j) && Present(db, h, k) && j.id == k.id ==> j == k)
    && (forall id :: Displaced(db, h, id) ==>
          exists k: Key :: k.id == id && k.kind != COLLECTION && LastWrite(db, h, k) > LastWrite(db, h, Key(COLLECTION, id)))
  }

  // ----- rows -----

  lemma PresentIsRow(db: Database, h: seq<Numbered>, key: Key)
    requires WellFormed(db) && AllValid(h)
    ensures Present(db, h, key) <==> key in Replay(db, h).rows
    ensures LastWrite(db, h, key) >= 0 && key.kind != COLLECTION ==> Present(db, h, key)
  {
    hide Replay;
    LastEffectiveWriterWins(db, h, key);
    LastEffectiveWriterWins(db, h, Key(COLLECTION, 0));
  }

  // ----- index entries -----

  /** The change writes the row of this kind and id, and with it the index entry of the id. */
  predicate Writes(db: Database, c: SyncChange, key: Key) {
    c.SyncChange? && Key(c.kind, c.id) == key && (ValidUpsert(c) || (ValidDelete(c) && IsLive(db, key)))
  }

  lemma LastWriteStep(db: Database, h: seq<Numbered>, key: Key)
    requires WellFormed(db) && AllValid(h) && h != [] && AllValid(h[..|h| - 1])
    ensures var n := |h| - 1;
            LastWrite(db, h, key) == if Writes(Replay(db, h[..n]), h[n].change, key) then n else LastWrite(db, h[..n], key)
  {
    hide Replay, FinalEntry, LastEffective;
    var n := |h| - 1;
    assert h[n] in h;
    LastEffectiveWriterWins(db, h[..n], key);
    OneMoreChange(Holder(db, key), h, key);
  }

  lemma UnitAfterChange(db: Database, usn: int, c: SyncChange, id: EntityId)
    requires WellFormed(db) && ValidChange(c)
    ensures var after := ApplyChange(db, usn, c).value;
            if c.id == id && Writes(db, c, Key(c.kind, id)) then id in after.units && after.units[id].kind == c.kind
            else (id in after.units <==> id in db.units) && (id in db.units ==> after.units[id] == db.units[id])
  {
  }

  /** No change takes effect on any row with this id. */
  ghost predicate Unwritten(db: Database, h: seq<Numbered>, id: EntityId)
    requires WellFormed(db)
  {
    forall k: Key :: k.id == id ==> LastWrite(db, h, k) == -1
  }

  /** Of all rows with this id, this one is written last. */
  ghost predicate WrittenLast(db: Database, h: seq<Numbered>, key: Key)
    requires WellFormed(db)
  {
    LastWrite(db, h, key) >= 0 && forall k: Key :: k.id == key.id && k != key ==> LastWrite(db, h, k) < LastWrite(db, h, key)
  }

  /** The index entry of an id is that of the row written last, or as it was. */
  lemma {:induction false} UnitIsLastWritten(db: Database, h: seq<Numbered>, id: EntityId)
    requires WellFormed(db) && AllValid(h)
    ensures var after := Replay(db, h).units;
            || (Unwritten(db, h, id) && (id in after <==> id in db.units) && (id in db.units ==> after[id] == db.units[id]))
            || (id in after && WrittenLast(db, h, Key(after[id].kind, id)))
  {
    hide WellFormed, LastWrite, ApplyChange, Writes;
    if h == [] {
      NothingWritten(db, id);
    } else {
      var n := |h| - 1;
      var before, c := Replay(db, h[..n]), h[n].change;
      assert h[n] in h && forall x <- h[..n] :: x in h;
      UnitIsLastWritten(db, h[..n], id);
      ReplayKeepsWellFormed(db, h[..n]);
      UnitAfterChange(before, h[n].usn, c, id);
      forall k: Key | k.id == id
        ensures LastWrite(db, h, k) == if Writes(before, c, k) then n else LastWrite(db, h[..n], k)
        ensures Writes(before, c, k) ==> k == Key(c.kind, c.id)
      {
        LastWriteStep(db, h, k);
        WritesOne(before, c, k);
      }
    }
  }

  lemma WritesOne(db: Database, c: SyncChange, key: Key)
    ensures Writes(db, c, key) ==> c.SyncChange? && key == Key(c.kind, c.id)
  {
  }

  lemma NothingWritten(db: Database, id: EntityId)
    requires WellFormed(db)
    ensures Unwritten(db, [], id)
  {
  }

  /** Where an index entry names the kind of a row, it says the same as the row. */
  ghost predicate EntriesMatch(db: Database) {
    forall k <- db.rows :: k.id in db.units && (db.units[k.id].kind == k.kind ==> db.units[k.id] == UnitOf(k.kind, db.rows[k]))
  }

  lemma ChangeKeepsMatch(db: Database, usn: int, c: SyncChange)
    requires WellFormed(db) && EntriesMatch(db) && ValidChange(c)
    ensures EntriesMatch(ApplyChange(db, usn, c).value)
  {
  }

  lemma {:induction false} ReplayKeepsMatch(db: Database, h: seq<Numbered>)
    requires WellFormed(db) && EntriesMatch(db) && AllValid(h)
    ensures EntriesMatch(Replay(db, h))
  {
    hide WellFormed, EntriesMatch, ApplyChange;
    if h != [] {
      var n := |h| - 1;
      assert h[n] in h && forall x <- h[..n] :: x in h;
      ReplayKeepsMatch(db, h[..n]);
      ReplayKeepsWellFormed(db, h[..n]);
      ChangeKeepsMatch(Replay(db, h[..n]), h[n].usn, h[n].change);
    }
  }

  // ----- agreement -----

  /** Exactly when the index agrees with the tables after a history of changes. */
  lemma ReplayKeepsIndexIff(db: Database, h: seq<Numbered>)
    requires WellFormed(db) && IndexAgrees(db) && AllValid(h)
    ensures IndexAgrees(Replay(db, h)) <==> Unambiguous(db, h)
  {
    hide Replay, LastWrite, Present, Displaced;
    if IndexAgrees(Replay(db, h)) {
      AgreeingIsUnambiguous(db, h);
    }
    if Unambiguous(db, h) {
      UnambiguousAgrees(db, h);
    }
  }

  lemma AgreeingIsUnambiguous(db: Database, h: seq<Numbered>)
    requires WellFormed(db) && IndexAgrees(db) && AllValid(h) && IndexAgrees(Replay(db, h))
    ensures Unambiguous(db, h)
  {
    hide Replay, LastWrite, Present, FinalCollection;
    var after := Replay(db, h);
    forall j, k | Present(db, h, j) && Present(db, h, k) && j.id == k.id ensures j == k {
      PresentIsRow(db, h, j);
      PresentIsRow(db, h, k);
      assert after.units[j.id].kind == j.kind && after.units[k.id].kind == k.kind;
    }
    forall id | Displaced(db, h, id)
      ensures exists k: Key :: k.id == id && k.kind != COLLECTION && LastWrite(db, h, k) > LastWrite(db, h, Key(COLLECTION, id))
    {
      DisplacedHasNoRow(db, h, id);
      UnitIsLastWritten(db, h, id);
      var k := Key(after.units[id].kind, id);
      assert LastWrite(db, h, k) > LastWrite(db, h, Key(COLLECTION, id));
    }
  }

  lemma DisplacedHasNoRow(db: Database, h: seq<Numbered>, id: EntityId)
    requires WellFormed(db) && IndexAgrees(db) && AllValid(h) && Displaced(db, h, id)
    ensures Key(COLLECTION, id) !in Replay(db, h).rows
    ensures Unwritten(db, h, id) ==> id in db.units && db.units[id].kind == COLLECTION
  {
    hide Replay;
    PresentIsRow(db, h, Key(COLLECTION, id));
    if Unwritten(db, h, id) {
      assert LastWrite(db, h, Key(COLLECTION, id)) == -1;
      assert Key(COLLECTION, id) in db.rows;
    }
  }

  /** A collection whose id is not displaced ends under that id if it ever had it. */
  lemma KeptCollection(db: Database, h: seq<Numbered>, id: EntityId)
    requires WellFormed(db) && AllValid(h) && !Displaced(db, h, id)
    requires (db.collection.Some? && db.collection.value.id == id) || LastWrite(db, h, Key(COLLECTION, id)) >= 0
    ensures Present(db, h, Key(COLLECTION, id))
  {
  }

  /** If the collection ends under this id and no upsert gave it the id, it had it before. */
  lemma OldCollection(db: Database, h: seq<Numbered>, id: EntityId)
    requires WellFormed(db) && Present(db, h, Key(COLLECTION, id)) && LastWrite(db, h, Key(COLLECTION, id)) == -1
    ensures Key(COLLECTION, id) in db.rows
  {
  }

  lemma UnambiguousAgrees(db: Database, h: seq<Numbered>)
    requires WellFormed(db) && IndexAgrees(db) && AllValid(h) && Unambiguous(db, h)
    ensures IndexAgrees(Replay(db, h))
  {
    hide Replay, Unambiguous, Unwritten, WrittenLast;
    var after := Replay(db, h);
    ReplayKeepsMatch(db, h);
    forall k | k in after.rows ensures after.units[k.id].kind == k.kind {
      RowNamesItsUnit(db, h, k);
    }
    forall id | id in after.units ensures Key(after.units[id].kind, id) in after.rows {
      UnitHasItsRow(db, h, id);
    }
  }

  lemma RowNamesItsUnit(db: Database, h: seq<Numbered>, key: Key)
    requires WellFormed(db) && IndexAgrees(db) && AllValid(h) && Unambiguous(db, h)
    requires key in Replay(db, h).rows && key.id in Replay(db, h).units
    ensures Replay(db, h).units[key.id].kind == key.kind
  {
    hide Replay, LastWrite, Present, Displaced;
    var unit := Replay(db, h).units[key.id];
    var own := Key(unit.kind, key.id);
    PresentIsRow(db, h, key);
    UnitIsLastWritten(db, h, key.id);
    if Unwritten(db, h, key.id) {
      UnwrittenRowIsOld(db, h, key);
    } else if own.kind == COLLECTION {
      if !Displaced(db, h, key.id) {
        KeptCollection(db, h, key.id);
      }
    } else {
      PresentIsRow(db, h, own);
    }
  }

  lemma UnwrittenRowIsOld(db: Database, h: seq<Numbered>, key: Key)
    requires WellFormed(db) && AllValid(h) && Present(db, h, key) && LastWrite(db, h, key) == -1
    ensures key in db.rows
  {
    if key.kind == COLLECTION {
      OldCollection(db, h, key.id);
    }
  }

  lemma UnitHasItsRow(db: Database, h: seq<Numbered>, id: EntityId)
    requires WellFormed(db) && IndexAgrees(db) && AllValid(h) && Unambiguous(db, h)
    requires id in Replay(db, h).units
    ensures Key(Replay(db, h).units[id].kind, id) in Replay(db, h).rows
  {
    hide Replay, LastWrite, Present, Displaced;
    var own := Key(Replay(db, h).units[id].kind, id);
    UnitIsLastWritten(db, h, id);
    PresentIsRow(db, h, own);
    if own.kind == COLLECTION {
      if Displaced(db, h, id) {
        assert false;
      }
      KeptCollection(db, h, id);
    } else if Unwritten(db, h, id) {
      assert own in db.rows;
      OldRowStays(db, h, own);
    }
  }

  lemma OldRowStays(db: Database, h: seq<Numbered>, key: Key)
    requires key in db.rows && key.kind != COLLECTION
    ensures Present(db, h, key)
  {
  }

  // ----- a batch -----

  lemma IndexIgnoresCursor(db: Database, next: int)
    ensures db.collection.Some? ==> (IndexAgrees(WithCursor(db, next)) <==> IndexAgrees(db))
  {
  }

  /** Exactly when the index agrees with the tables after a committed batch. */
  lemma BatchKeepsIndexIff(db: Database, start: int, cs: seq<SyncChange>)
    requires WellFormed(db) && IndexAgrees(db) && PushTransaction(db, start, cs).1.Committed?
    ensures IndexAgrees(PushTransaction(db, start, cs).0) <==> Unambiguous(db, Number(start, cs))
  {
    hide IndexAgrees, Unambiguous;
    BatchIsReplay(db, start, cs);
    ReplayKeepsIndexIff(db, Number(start, cs));
    IndexIgnoresCursor(ApplyAll(db, start, cs).value, start + |cs|);
  }

  // ----- a fixed typing of ids -----

  /** Every indexed id has the kind a fixed typing gives it, and the only collection is `own`. */
  ghost predicate Typed(db: Database, kindOf: EntityId -> int, own: EntityId) {
    && (forall id <- db.units :: db.units[id].kind == kindOf(id))
    && (db.collection.Some? ==> db.collection.value.id == own)
  }

  predicate TypedChange(c: SyncChange, kindOf: EntityId -> int, own: EntityId) {
    ValidUpsert(c) ==> c.kind == kindOf(c.id) && (c.kind == COLLECTION ==> c.id == own)
  }

  lemma TypedStep(db: Database, usn: int, c: SyncChange, kindOf: EntityId -> int, own: EntityId)
    requires WellFormed(db) && IndexAgrees(db) && Typed(db, kindOf, own) && ValidChange(c) && TypedChange(c, kindOf, own)
    ensures var after := ApplyChange(db, usn, c).value;
            WellFormed(after) && IndexAgrees(after) && Typed(after, kindOf, own)
  {
    ChangeKeepsWellFormed(db, usn, c);
    ChangeKeepsIndexIff(db, usn, c);
  }

  /** If clients give every id one kind for good and push only the user's own collection, every history
      keeps the index right, and is therefore unambiguous. */
  lemma {:induction false} TypedKeepsIndex(db: Database, h: seq<Numbered>, kindOf: EntityId -> int, own: EntityId)
    requires WellFormed(db) && IndexAgrees(db) && AllValid(h)
    requires Typed(db, kindOf, own) && forall n <- h :: TypedChange(n.change, kindOf, own)
    ensures WellFormed(Replay(db, h)) && IndexAgrees(Replay(db, h)) && Typed(Replay(db, h), kindOf, own)
    ensures Unambiguous(db, h)
  {
    hide WellFormed, IndexAgrees, Typed, ApplyChange, TypedChange, Unambiguous;
    if h != [] {
      var n := |h| - 1;
      assert h[n] in h && forall x <- h[..n] :: x in h;
      TypedKeepsIndex(db, h[..n], kindOf, own);
      TypedStep(Replay(db, h[..n]), h[n].usn, h[n].change, kindOf, own);
    }
    ReplayKeepsIndexIff(db, h);
  }
}
