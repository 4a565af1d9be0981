/** Changes replayed as one history, whatever batches they came in: last effective writer wins. */
module Histories {
  import opened Wrappers
  import opened SyncModel
  import opened PushApply
  import opened PushProofs

  ghost predicate AllValid(h: seq<Numbered>) {
    forall n <- h :: ValidChange(n.change)
  }

  /** The changes applied in order, each under its own USN. */
  ghost function Replay(db: Database, h: seq<Numbered>): Database
    requires AllValid(h)
  {
    if h == [] then db
    else
      var n := |h| - 1;
      ApplyChange(Replay(db, h[..n]), h[n].usn, h[n].change).value
  }

  lemma {:induction false} BatchIsReplay(db: Database, start: int, cs: seq<SyncChange>)
    requires ApplyAll(db, start, cs).Some?
    ensures AllValid(Number(start, cs)) && Replay(db, Number(start, cs)) == ApplyAll(db, start, cs).value
  {
    hide ApplyChange;
    AcceptedAreChanges(db, start, cs);
    assert forall i | 0 <= i < |cs| :: cs[i] in cs;
    if cs != [] {
      BatchIsReplay(db, start, cs[..|cs| - 1]);
      assert Number(start, cs)[..|cs| - 1] == Number(start, cs[..|cs| - 1]);
    }
  }

  lemma {:induction false} ReplayInTwo(db: Database, a: seq<Numbered>, b: seq<Numbered>)
    requires AllValid(a) && AllValid(b)
    ensures AllValid(a + b) && Replay(db, a + b) == Replay(Replay(db, a), b)
  {
    hide ApplyChange;
    if b == [] {
      assert a + b == a;
    } else {
      var n := |b| - 1;
      assert forall x <- b[..n] :: x in b;
      ReplayInTwo(db, a, b[..n]);
      assert (a + b)[..|a| + n] == a + b[..n];
    }
  }

  lemma {:induction false} ReplayKeepsWellFormed(db: Database, h: seq<Numbered>)
    requires WellFormed(db) && AllValid(h)
    ensures WellFormed(Replay(db, h))
  {
    hide WellFormed, ApplyChange;
    if h != [] {
      var n := |h| - 1;
      assert h[n] in h && forall x <- h[..n] :: x in h;
      ReplayKeepsWellFormed(db, h[..n]);
      ChangeKeepsWellFormed(Replay(db, h[..n]), h[n].usn, h[n].change);
    }
  }

  /** Two databases with the same rows, the same index and the same collection id. */
  ghost predicate SameTables(a: Database, b: Database) {
    && a.rows == b.rows && a.units == b.units
    && (a.collection.Some? <==> b.collection.Some?)
    && (a.collection.Some? ==> a.collection.value.id == b.collection.value.id)
  }

  lemma ChangeKeepsSame(a: Database, b: Database, usn: int, c: SyncChange)
    requires SameTables(a, b) && ValidChange(c)
    ensures SameTables(ApplyChange(a, usn, c).value, ApplyChange(b, usn, c).value)
  {
  }

  /** The stored cursor and the sync time have no influence on what changes do to the tables. */
  lemma {:induction false} ReplayKeepsSame(a: Database, b: Database, h: seq<Numbered>)
    requires SameTables(a, b) && AllValid(h)
    ensures SameTables(Replay(a, h), Replay(b, h))
  {
    hide SameTables, ApplyChange;
    if h != [] {
      var n := |h| - 1;
      assert h[n] in h && forall x <- h[..n] :: x in h;
      ReplayKeepsSame(a, b, h[..n]);
      ChangeKeepsSame(Replay(a, h[..n]), Replay(b, h[..n]), h[n].usn, h[n].change);
    }
  }

  // ----- last effective writer wins -----

  /** The row a change of that kind and id would meet. The collections table has one slot per user. */
  function Holder(db: Database, key: Key): Option<Entry>
    requires WellFormed(db)
  {
    if key.kind == COLLECTION then
      if db.collection.Some? then
        var own := Key(COLLECTION, db.collection.value.id);
        Some(Entry(own, db.rows[own]))
      else None
    else if key in db.rows then Some(Entry(key, db.rows[key]))
    else None
  }

  predicate Hits(c: SyncChange, key: Key) {
    c.SyncChange? && c.kind == key.kind && (key.kind == COLLECTION || c.id == key.id)
  }

  predicate Upserts(c: SyncChange, key: Key) {
    ValidUpsert(c) && Hits(c, key)
  }

  predicate Deletes(c: SyncChange, key: Key) {
    ValidDelete(c) && Hits(c, key)
  }

  function LastUpsert(h: seq<Numbered>, key: Key): (u: int)
    ensures -1 <= u < |h|
    ensures u >= 0 ==> Upserts(h[u].change, key)
    ensures forall j :: u < j < |h| ==> !Upserts(h[j].change, key)
  {
    if h == [] then -1
    else if Upserts(h[|h| - 1].change, key) then |h| - 1
    else LastUpsert(h[..|h| - 1], key)
  }

  /** The first delete of the key from index `from` on, or the length if there is none. */
  function FirstDelete(h: seq<Numbered>, key: Key, from: nat): (d: nat)
    requires from <= |h|
    ensures from <= d <= |h|
    ensures d < |h| ==> Deletes(h[d].change, key)
    ensures forall j :: from <= j < d ==> !Deletes(h[j].change, key)
    decreases |h| - from
  {
    if from == |h| || Deletes(h[from].change, key) then from else FirstDelete(h, key, from + 1)
  }

  predicate IsLiveEntry(e: Option<Entry>) {
    e.Some? && !e.value.row.deleted
  }

  /** The index of the last change that takes effect on the key, or -1, read off the history without
      replaying it: the last upsert, unless a delete follows it or the key was live before; and of
      several deletes the FIRST one takes effect, the others meet a tombstone. */
  function LastEffective(held: Option<Entry>, h: seq<Numbered>, key: Key): (i: int)
    ensures -1 <= i < |h|
  {
    var u := LastUpsert(h, key);
    var d := FirstDelete(h, key, u + 1);
    if d < |h| && (u >= 0 || IsLiveEntry(held)) then d else u
  }

  /** The outcome for one key: the content of the last upsert, or what was held, marked as deleted if
      the last effective change is a delete. */
  function FinalEntry(held: Option<Entry>, h: seq<Numbered>, key: Key): Option<Entry> {
    var u, i := LastUpsert(h, key), LastEffective(held, h, key);
    var base := if u >= 0 then Some(Entry(Key(key.kind, h[u].change.id), UpsertedRow(h[u].usn, h[u].change))) else held;
    if i > u then Some(Entry(base.value.key, Tombstone(h[i].usn, h[i].change.deletedAt.value, base.value.row))) else base
  }

  lemma NoHistory(held: Option<Entry>, key: Key)
    ensures LastEffective(held, [], key) == -1 && FinalEntry(held, [], key) == held
  {
  }

  /** What one more change adds. */
  lemma OneMoreChange(held: Option<Entry>, h: seq<Numbered>, key: Key)
    requires h != []
    ensures var n := |h| - 1;
            var c, before := h[n].change, FinalEntry(held, h[..n], key);
            && LastEffective(held, h, key) ==
               (if Upserts(c, key) || (Deletes(c, key) && IsLiveEntry(before)) then n else LastEffective(held, h[..n], key))
            && FinalEntry(held, h, key) ==
               (if Upserts(c, key) then Some(Entry(Key(key.kind, c.id), UpsertedRow(h[n].usn, c)))
                else if Deletes(c, key) && IsLiveEntry(before)
                then Some(Entry(before.value.key, Tombstone(h[n].usn, c.deletedAt.value, before.value.row)))
                else before)
  {
  }

  lemma HolderAfterChange(db: Database, usn: int, c: SyncChange, key: Key)
    requires WellFormed(db) && ValidChange(c) && WellFormed(ApplyChange(db, usn, c).value)
    ensures Holder(ApplyChange(db, usn, c).value, key) ==
            if Upserts(c, key) then Some(Entry(Key(key.kind, c.id), UpsertedRow(usn, c)))
            else if Deletes(c, key) && IsLiveEntry(Holder(db, key))
            then Some(Entry(Holder(db, key).value.key, Tombstone(usn, c.deletedAt.value, Holder(db, key).value.row)))
            else Holder(db, key)
  {
  }

  /** Every key ends with the content and the USN of its last effective change; a key no effective
      change names keeps its row. */
  lemma {:induction false} LastEffectiveWriterWins(db: Database, h: seq<Numbered>, key: Key)
    requires WellFormed(db) && AllValid(h)
    ensures WellFormed(Replay(db, h))
    ensures Holder(Replay(db, h), key) == FinalEntry(Holder(db, key), h, key)
  {
    hide WellFormed, Holder, FinalEntry, LastEffective, ApplyChange, Upserts, Deletes, Tombstone, UpsertedRow, IsLiveEntry;
    ReplayKeepsWellFormed(db, h);
    if h == [] {
      NoHistory(Holder(db, key), key);
    } else {
      var n := |h| - 1;
      assert h[n] in h && forall x <- h[..n] :: x in h;
      LastEffectiveWriterWins(db, h[..n], key);
      HolderAfterChange(Replay(db, h[..n]), h[n].usn, h[n].change, key);
      OneMoreChange(Holder(db, key), h, key);
    }
  }

  /** For one batch: change i is applied under the USN start + i. */
  lemma LastEffectiveOfBatch(db: Database, start: int, cs: seq<SyncChange>, key: Key)
    requires WellFormed(db) && ApplyAll(db, start, cs).Some?
    ensures WellFormed(ApplyAll(db, start, cs).value)
    ensures Holder(ApplyAll(db, start, cs).value, key) == FinalEntry(Holder(db, key), Number(start, cs), key)
  {
    BatchIsReplay(db, start, cs);
    LastEffectiveWriterWins(db, Number(start, cs), key);
  }
}
