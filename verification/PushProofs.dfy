/** Push batches: USN safety, agreement of the index with the tables, last effective writer wins. */
module PushProofs {
  import opened SyncModel
  import opened PushApply

  // ----- one change -----

  lemma ChangeKeepsWellFormed(db: Database, usn: int, c: SyncChange)
    requires WellFormed(db) && ValidChange(c)
    ensures WellFormed(ApplyChange(db, usn, c).value)
  {
  }

  /** A change carrying the USN just above every stored one keeps the USNs distinct. */
  lemma ChangeKeepsUsns(db: Database, usn: int, c: SyncChange)
    requires ValidChange(c) && UsnsDistinct(db.rows) && UsnsBelow(db.rows, usn)
    ensures var after := ApplyChange(db, usn, c).value.rows; UsnsDistinct(after) && UsnsBelow(after, usn + 1)
  {
  }

  /** The id is indexed under another kind, or the user's one collection row would change its id. */
  predicate Clashes(db: Database, c: SyncChange) {
    && ValidUpsert(c)
    && (|| (c.id in db.units && db.units[c.id].kind != c.kind)
        || (c.kind == COLLECTION && db.collection.Some? && db.collection.value.id != c.id))
  }

  lemma UpsertKeepsIndexIff(db: Database, usn: int, c: SyncChange)
    requires WellFormed(db) && IndexAgrees(db) && ValidUpsert(c)
    ensures IndexAgrees(Upsert(db, usn, c)) <==> !Clashes(db, c)
  {
    hide WellFormed, IndexAgrees, Upsert;
    if !Clashes(db, c) {
      CleanUpsertKeepsIndex(db, usn, c);
    } else {
      ClashBreaksIndex(db, usn, c);
    }
  }

  lemma CleanUpsertKeepsIndex(db: Database, usn: int, c: SyncChange)
    requires WellFormed(db) && IndexAgrees(db) && ValidUpsert(c) && !Clashes(db, c)
    ensures IndexAgrees(Upsert(db, usn, c))
  {
  }

  lemma ClashBreaksIndex(db: Database, usn: int, c: SyncChange)
    requires WellFormed(db) && IndexAgrees(db) && Clashes(db, c)
    ensures !IndexAgrees(Upsert(db, usn, c))
  {
    var after := Upsert(db, usn, c);
    if c.kind == COLLECTION && db.collection.Some? && db.collection.value.id != c.id {
      var lost := Key(COLLECTION, db.collection.value.id);
      assert lost in db.rows && lost !in after.rows && lost.id in after.units;
    } else {
      assert Key(db.units[c.id].kind, c.id) in after.rows;
    }
  }

  lemma DeleteKeepsIndex(db: Database, usn: int, c: SyncChange)
    requires WellFormed(db) && IndexAgrees(db) && ValidDelete(c)
    ensures IndexAgrees(SoftDelete(db, usn, c))
  {
    if IsLive(db, Key(c.kind, c.id)) {
      assert db.units[c.id].kind == c.kind;
    }
  }

  /** The index keeps agreeing with the tables exactly when the change does not clash: the server
      checks neither that an id keeps its kind nor that a pushed collection is the user's own. */
  lemma ChangeKeepsIndexIff(db: Database, usn: int, c: SyncChange)
    requires WellFormed(db) && IndexAgrees(db) && ValidChange(c)
    ensures IndexAgrees(ApplyChange(db, usn, c).value) <==> !Clashes(db, c)
  {
    hide WellFormed, IndexAgrees, Upsert, SoftDelete;
    if ValidUpsert(c) {
      UpsertKeepsIndexIff(db, usn, c);
    } else {
      DeleteKeepsIndex(db, usn, c);
    }
  }

  // ----- a batch -----

  lemma {:induction false} BatchKeepsWellFormed(db: Database, start: int, cs: seq<SyncChange>)
    requires WellFormed(db) && ApplyAll(db, start, cs).Some?
    ensures WellFormed(ApplyAll(db, start, cs).value)
  {
    if cs != [] {
      BatchKeepsWellFormed(db, start, cs[..|cs| - 1]);
      ChangeKeepsWellFormed(ApplyAll(db, start, cs[..|cs| - 1]).value, start + |cs| - 1, cs[|cs| - 1]);
    }
  }

  /** Whatever the changes are, a batch reserved above every stored USN keeps all USNs of rows and
      tombstones distinct, and below the end of its range. */
  lemma {:induction false} BatchKeepsUsns(db: Database, start: int, cs: seq<SyncChange>)
    requires UsnsDistinct(db.rows) && UsnsBelow(db.rows, start) && ApplyAll(db, start, cs).Some?
    ensures UsnsDistinct(ApplyAll(db, start, cs).value.rows)
    ensures UsnsBelow(ApplyAll(db, start, cs).value.rows, start + |cs|)
  {
    if cs != [] {
      BatchKeepsUsns(db, start, cs[..|cs| - 1]);
      ChangeKeepsUsns(ApplyAll(db, start, cs[..|cs| - 1]).value, start + |cs| - 1, cs[|cs| - 1]);
    }
  }

  // ----- the transaction -----

  lemma {:induction false} CollectionAfter(db: Database, start: int, cs: seq<SyncChange>)
    requires ApplyAll(db, start, cs).Some?
    ensures var after := ApplyAll(db, start, cs).value.collection;
            && (after.Some? <==> db.collection.Some? || exists c <- cs :: ValidUpsert(c) && c.kind == COLLECTION)
            && (db.collection.Some? ==> after.value.syncCursor == db.collection.value.syncCursor
                                        && after.value.lastSyncTime == db.collection.value.lastSyncTime)
            && (db.collection.None? && after.Some? ==> after.value.syncCursor == 0 && after.value.lastSyncTime == 0)
  {
    if cs != [] {
      CollectionAfter(db, start, cs[..|cs| - 1]);
      assert forall c :: c in cs <==> c in cs[..|cs| - 1] || c == cs[|cs| - 1];
    }
  }

  // ----- which batches commit -----

  /** A change the server accepts, in terms of what the client sends: an unnumbered upsert of one of the
      seven kinds with a payload of that kind, or an unnumbered delete of one of the five kinds that have
      tombstones, with a deletion time and without a payload. */
  predicate Acceptable(c: SyncChange) {
    && c.SyncChange? && c.usn == -1
    && (|| (c.op == OpUpsert && 1 <= c.kind <= 7 && c.payload.Some? && c.payload.value.kind == c.kind)
        || (c.op == OpDelete && c.kind in {DECK, NOTE_TYPE, PROCESSING_NOTE, NOTE, CARD}
            && c.deletedAt.Some? && c.payload.None?))
  }

  lemma ValidIffAcceptable(c: SyncChange)
    ensures ValidChange(c) <==> Acceptable(c)
  {
  }

  predicate PushesCollection(c: SyncChange) {
    c.SyncChange? && c.op == OpUpsert && c.kind == COLLECTION
  }

  /** The outcome of every transaction: an unacceptable change rejects the batch; otherwise it commits iff
      the user has or pushes a collection and the cursor update changes its cursor. What does not commit
      leaves the database as it was. */
  lemma CommitOutcome(db: Database, start: int, cs: seq<SyncChange>)
    ensures var (after, outcome) := PushTransaction(db, start, cs);
            var cursor := if db.collection.Some? then db.collection.value.syncCursor else 0;
            && (outcome.InvalidChange? <==> exists c <- cs :: !Acceptable(c))
            && (outcome.Committed? <==>
                  && (forall c <- cs :: Acceptable(c))
                  && (db.collection.Some? || exists c <- cs :: PushesCollection(c))
                  && start + |cs| != cursor)
            && (outcome.InvalidChange? || outcome.Committed? || outcome.CursorNotMoved?)
            && (!outcome.Committed? ==> after == db)
  {
    hide ValidChange, Acceptable, ApplyChange;
    AcceptedAreChanges(db, start, cs);
    forall c | c in cs
      ensures ValidChange(c) <==> Acceptable(c)
      ensures Acceptable(c) ==> (PushesCollection(c) <==> ValidUpsert(c) && c.kind == COLLECTION)
    {
      ValidIffAcceptable(c);
      CollectionUpsertIsValid(c);
    }
    if ApplyAll(db, start, cs).Some? {
      CollectionAfter(db, start, cs);
    }
  }

  lemma CollectionUpsertIsValid(c: SyncChange)
    ensures Acceptable(c) ==> (PushesCollection(c) <==> ValidUpsert(c) && c.kind == COLLECTION)
  {
  }

  /** A batch claimed at or above the stored cursor commits iff every change is acceptable and the user
      has a collection or pushes one. */
  lemma CommitsIff(db: Database, start: int, cs: seq<SyncChange>)
    requires start >= StoredCursor(db) && cs != []
    ensures PushTransaction(db, start, cs).1.Committed? <==>
            && (forall c <- cs :: Acceptable(c))
            && (db.collection.Some? || exists c <- cs :: PushesCollection(c))
    ensures !PushTransaction(db, start, cs).1.Committed? ==> PushTransaction(db, start, cs).0 == db
  {
    CommitOutcome(db, start, cs);
  }

  /** One change alone, for a user with a collection. */
  lemma OneChangeCommitsIff(db: Database, start: int, c: SyncChange)
    requires db.collection.Some? && start >= StoredCursor(db)
    ensures var (after, outcome) := PushTransaction(db, start, [c]);
            && (outcome.Committed? <==>
                  && c.SyncChange? && c.usn == -1
                  && (|| (c.op == OpUpsert && 1 <= c.kind <= 7 && c.payload.Some? && c.payload.value.kind == c.kind)
                      || (c.op == OpDelete && c.deletedAt.Some? && c.payload.None?
                          && (c.kind == DECK || c.kind == NOTE_TYPE || c.kind == PROCESSING_NOTE || c.kind == NOTE || c.kind == CARD))))
            && (!outcome.Committed? ==> outcome.InvalidChange? && after == db)
  {
    hide PushTransaction;
    CommitOutcome(db, start, [c]);
    assert c in [c];
  }

  /** All USNs are distinct, from 1 on and below the stored cursor; without a collection there is nothing. */
  ghost predicate UsnSafe(db: Database) {
    && WellFormed(db) && UsnsDistinct(db.rows) && UsnsBelow(db.rows, StoredCursor(db))
    && (db.collection.None? ==> db.rows == map[] && db.units == map[])
    && StoredCursor(db) >= 1 && UsnsFrom(db.rows, 1)
  }

  ghost predicate UsnsFrom(rows: map<Key, Row>, bound: int) {
    forall k <- rows :: rows[k].usn >= bound
  }

  lemma {:induction false} BatchKeepsUsnsFrom(db: Database, start: int, cs: seq<SyncChange>, bound: int)
    requires UsnsFrom(db.rows, bound) && bound <= start && ApplyAll(db, start, cs).Some?
    ensures UsnsFrom(ApplyAll(db, start, cs).value.rows, bound)
  {
    if cs != [] {
      BatchKeepsUsnsFrom(db, start, cs[..|cs| - 1], bound);
    }
  }

  /** A commit keeps the database safe and moves the cursor to the end of its range; the whole of
      a committed batch is therefore below the cursor every later handshake reads. */
  lemma TransactionKeepsSafe(db: Database, start: int, cs: seq<SyncChange>)
    requires UsnSafe(db) && start >= StoredCursor(db)
    ensures UsnSafe(PushTransaction(db, start, cs).0)
    ensures PushTransaction(db, start, cs).1.Committed? ==> StoredCursor(PushTransaction(db, start, cs).0) == start + |cs|
    ensures StoredCursor(PushTransaction(db, start, cs).0) >= StoredCursor(db)
    ensures !PushTransaction(db, start, cs).1.Committed? ==> PushTransaction(db, start, cs).0 == db
  {
    if ApplyAll(db, start, cs).Some? {
      BatchKeepsWellFormed(db, start, cs);
      BatchKeepsUsns(db, start, cs);
      BatchKeepsUsnsFrom(db, start, cs, 1);
    }
  }
}
