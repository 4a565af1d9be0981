/** What a client knows after its own push, if it records each change under the USN of the reply. */
module OwnPushes {
  import opened Wrappers
  import opened SyncModel
  import opened PushApply
  import opened PushProofs
  import opened Histories
  import opened Replicas

  /** The changes with the USNs the reply assigned to them. */
  function Stamped(h: seq<Numbered>): (cs: seq<SyncChange>)
    requires AllValid(h)
    ensures |cs| == |h| && forall c <- cs :: c.SyncChange?
  {
    seq(|h|, i requires 0 <= i < |h| => assert h[i] in h; h[i].change.(usn := h[i].usn))
  }

  /** The client's replica with its own changes recorded. */
  function Record(replica: Replica, h: seq<Numbered>): Replica
    requires AllValid(h)
  {
    Absorb(replica, Stamped(h))
  }

  /** The last change with this kind and id, or -1. */
  function LastChange(h: seq<Numbered>, key: Key): (i: int)
    ensures -1 <= i < |h|
    ensures i >= 0 ==> Names(h[i].change, key)
    ensures forall j :: i < j < |h| ==> !Names(h[j].change, key)
  {
    if h == [] then -1
    else if Names(h[|h| - 1].change, key) then |h| - 1
    else LastChange(h[..|h| - 1], key)
  }

  predicate Names(c: SyncChange, key: Key) {
    c.SyncChange? && Key(c.kind, c.id) == key
  }

  /** Whatever entity the batch names, the last change to it is one that takes effect: no entity ends
      with a delete of something absent or already deleted. */
  ghost predicate LastChangesTakeEffect(db: Database, h: seq<Numbered>)
    requires WellFormed(db)
  {
    forall key: Key :: key.kind != COLLECTION ==> LastChange(h, key) == LastEffective(Holder(db, key), h, key)
  }

  lemma StampedApplies(h: seq<Numbered>, i: nat)
    requires AllValid(h) && i < |h|
    ensures Applies(Stamped(h)[i]) && h[i].change.SyncChange?
    ensures Key(Stamped(h)[i].kind, Stamped(h)[i].id) == Key(h[i].change.kind, h[i].change.id)
  {
    assert h[i] in h;
  }

  lemma {:induction false} RecordOf(replica: Replica, h: seq<Numbered>, key: Key)
    requires AllValid(h)
    ensures var i := LastChange(h, key);
            if i >= 0 then key in Record(replica, h) && Record(replica, h)[key] == CopyOf(Stamped(h)[i])
            else (key in Record(replica, h) <==> key in replica) && (key in replica ==> Record(replica, h)[key] == replica[key])
  {
    hide CopyOf, Applies, ValidChange;
    if h != [] {
      var n := |h| - 1;
      assert forall x <- h[..n] :: x in h;
      RecordOf(replica, h[..n], key);
      StampedApplies(h, n);
      assert Stamped(h)[..n] == Stamped(h[..n]);
    }
  }

  /** The numbers of a batch: distinct, and above everything stored. */
  ghost predicate Fresh(db: Database, h: seq<Numbered>) {
    && (forall i, j | 0 <= i < j < |h| :: h[i].usn != h[j].usn)
    && (forall i | 0 <= i < |h| :: forall k <- db.rows :: db.rows[k].usn < h[i].usn)
  }

  /** The outcome for a key in terms of the last change that takes effect: the very copy a client records
      for that change, or what was held. */
  lemma EffectiveCopy(held: Option<Entry>, h: seq<Numbered>, key: Key)
    requires AllValid(h)
    ensures var i, e := LastEffective(held, h, key), FinalEntry(held, h, key);
            if i >= 0 then
              && Hits(h[i].change, key) && e.Some? && e.value.row.usn == h[i].usn
              && CopyOfRow(e.value.key, e.value.row) == CopyOf(Stamped(h)[i])
            else e == held
  {
    var u, i := LastUpsert(h, key), LastEffective(held, h, key);
    if u >= 0 {
      assert h[u] in h;
    }
    if i >= 0 {
      assert h[i] in h;
    }
  }

  lemma StampedUsn(h: seq<Numbered>, i: nat)
    requires AllValid(h) && i < |h|
    ensures CopyOf(Stamped(h)[i]).usn == h[i].usn
  {
  }

  lemma CopyUsn(key: Key, row: Row)
    ensures CopyOfRow(key, row).usn == row.usn
  {
  }

  lemma FinalKeyIsKey(held: Option<Entry>, h: seq<Numbered>, key: Key)
    requires key.kind != COLLECTION && (held.Some? ==> held.value.key == key)
    ensures FinalEntry(held, h, key).Some? ==> FinalEntry(held, h, key).value.key == key
  {
  }

  lemma RowIsHeld(db: Database, key: Key)
    requires WellFormed(db) && key.kind != COLLECTION
    ensures Holder(db, key) == if key in db.rows then Some(Entry(key, db.rows[key])) else None
  {
  }

  /** What the server holds under a key after the batch, next to what the client has recorded. */
  lemma KeyAgreesIff(db: Database, h: seq<Numbered>, key: Key)
    requires WellFormed(db) && AllValid(h) && Fresh(db, h) && key.kind != COLLECTION
    ensures var after, mine := Replay(db, h).rows, Record(View(db.rows), h);
            LastChange(h, key) == LastEffective(Holder(db, key), h, key) <==>
            (key in after <==> key in mine) && (key in after ==> mine[key] == CopyOfRow(key, after[key]))
  {
    hide Replay, Record, Stamped, WellFormed, Holder, FinalEntry, LastEffective, CopyOf, CopyOfRow, AllValid;
    var held := Holder(db, key);
    var last, eff := LastChange(h, key), LastEffective(held, h, key);
    LastEffectiveWriterWins(db, h, key);
    RecordOf(View(db.rows), h, key);
    EffectiveCopy(held, h, key);
    RowIsHeld(db, key);
    RowIsHeld(Replay(db, h), key);
    FinalKeyIsKey(held, h, key);
    if last >= 0 && last != eff {
      StampedUsn(h, last);
      if key in Replay(db, h).rows {
        CopyUsn(key, Replay(db, h).rows[key]);
      }
    }
  }

  /** All collection changes are for the one collection. */
  ghost predicate OwnChanges(h: seq<Numbered>, own: EntityId) {
    forall n <- h :: OwnChange(n.change, own)
  }

  /** Every change of a collection is an upsert, and takes effect. */
  lemma CollectionChangesAreEffective(held: Option<Entry>, h: seq<Numbered>, id: EntityId, own: EntityId)
    requires AllValid(h) && OwnChanges(h, own)
    ensures var key := Key(COLLECTION, id);
            var u := LastUpsert(h, key);
            && LastEffective(held, h, key) == u && LastChange(h, key) == (if id == own then u else -1)
            && (if u >= 0 then FinalEntry(held, h, key).Some? && FinalEntry(held, h, key).value.key == Key(COLLECTION, own)
                else FinalEntry(held, h, key) == held)
  {
    var key := Key(COLLECTION, id);
    var i, u := LastChange(h, key), LastUpsert(h, key);
    if i >= 0 {
      assert h[i] in h;
    }
    if u >= 0 {
      assert h[u] in h;
    }
  }

  lemma CollectionAgrees(db: Database, h: seq<Numbered>, id: EntityId, own: EntityId)
    requires WellFormed(db) && AllValid(h) && OwnOnly(db, own) && OwnChanges(h, own)
    ensures var key := Key(COLLECTION, id);
            var after, mine := Replay(db, h).rows, Record(View(db.rows), h);
            (key in after <==> key in mine) && (key in after ==> mine[key] == CopyOfRow(key, after[key]))
  {
    hide Replay, Record, Stamped, FinalEntry, CopyOf, CopyOfRow, AllValid;
    var key := Key(COLLECTION, id);
    var held := Holder(db, key);
    LastEffectiveWriterWins(db, h, key);
    RecordOf(View(db.rows), h, key);
    EffectiveCopy(held, h, key);
    CollectionChangesAreEffective(held, h, id, own);
  }

  /** A client that knew the server's rows and records its own batch knows them again iff the last change
      to every entity takes effect. A delete that does not uses up a USN and leaves the client with a
      tombstone the server has not. */
  lemma RecordedIsViewIff(db: Database, h: seq<Numbered>, own: EntityId)
    requires WellFormed(db) && AllValid(h) && Fresh(db, h) && OwnOnly(db, own) && OwnChanges(h, own)
    ensures Record(View(db.rows), h) == View(Replay(db, h).rows) <==> LastChangesTakeEffect(db, h)
  {
    hide Replay, Record, Fresh, AllValid, OwnChanges, WellFormed, Holder, LastEffective, LastChange, CopyOfRow;
    var after, mine := Replay(db, h).rows, Record(View(db.rows), h);
    forall key: Key
      ensures key.kind == COLLECTION || LastChange(h, key) == LastEffective(Holder(db, key), h, key) <==>
              (key in after <==> key in mine) && (key in after ==> mine[key] == CopyOfRow(key, after[key]))
    {
      if key.kind == COLLECTION {
        CollectionAgrees(db, h, key.id, own);
      } else {
        KeyAgreesIff(db, h, key);
      }
    }
  }

  lemma NumberIsFresh(db: Database, start: int, cs: seq<SyncChange>)
    requires UsnsBelow(db.rows, start)
    ensures Fresh(db, Number(start, cs))
  {
  }

  lemma UpToDateIffView(replica: Replica, rows: map<Key, Row>, cursor: int)
    requires UsnsBelow(rows, cursor)
    ensures UpToDate(replica, rows, cursor) <==> replica == View(rows)
  {
  }

  /** A client that knew all the server's rows, after a committed batch of its own: it is up to date below
      the new stored cursor iff the last change to every entity takes effect. */
  lemma OwnBatchIff(db: Database, start: int, cs: seq<SyncChange>, own: EntityId)
    requires UsnSafe(db) && start >= StoredCursor(db) && PushTransaction(db, start, cs).1.Committed?
    requires OwnOnly(db, own) && forall c <- cs :: OwnChange(c, own)
    ensures var after, h := PushTransaction(db, start, cs).0, Number(start, cs);
            && AllValid(h)
            && (UpToDate(Record(View(db.rows), h), after.rows, StoredCursor(after)) <==> LastChangesTakeEffect(db, h))
            && (LastChangesTakeEffect(db, h) ==>
                  Record(View(db.rows), h) == View(after.rows) && Older(Record(View(db.rows), h), StoredCursor(after)))
  {
    hide Replay, Record, AllValid, UpToDate, Older, View, LastChangesTakeEffect, OwnOnly, OwnChange, ApplyAll, Fresh, WellFormed, UsnsDistinct;
    var h, after := Number(start, cs), PushTransaction(db, start, cs).0;
    BatchIsReplay(db, start, cs);
    NumberIsFresh(db, start, cs);
    assert OwnChanges(h, own) by {
      assert forall i | 0 <= i < |cs| :: cs[i] in cs;
    }
    RecordedIsViewIff(db, h, own);
    TransactionKeepsSafe(db, start, cs);
    assert after.rows == Replay(db, h).rows;
    UpToDateIffView(Record(View(db.rows), h), after.rows, StoredCursor(after));
    ViewIsUpToDate(after.rows, StoredCursor(after));
  }
}
