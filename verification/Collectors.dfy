/** The pull collector: pages of rows become changes until the row limit or the byte budget stops them. */
module Collectors {
  import opened SyncModel
  import opened Scans
  import opened PullBatches

  datatype CollectResult = CollectResult(syncCursorUsn: int, hasMore: bool, sizeExceeded: bool)

  function LimitOf(kind: int): nat {
    if kind == COLLECTION || kind == DECK then 300
    else if kind == CARD then 400
    else if kind == REVIEW_LOG then 500
    else 64
  }

  /** The largest USN collected, 0 if there is none. */
  function MaxUsn(es: seq<Entry>): (m: int)
    ensures m >= 0
    ensures forall e <- es :: e.row.usn <= m
    ensures m == 0 || exists e <- es :: e.row.usn == m
  {
    if es == [] then 0
    else
      var n := |es| - 1;
      var before := MaxUsn(es[..n]);
      assert forall e :: e in es <==> e in es[..n] || e == es[n];
      if es[n].row.usn > before then es[n].row.usn else before
  }

  /** How many rows of a page are taken. */
  function Taken(page: seq<Entry>, limit: nat, fill: nat): (m: nat)
    ensures m <= |page|
  {
    Min(limit, Fit(page, fill))
  }

  function ResultFor(page: seq<Entry>, m: nat, fill: nat): CollectResult
    requires m <= |page|
  {
    CollectResult(if m == 0 then 0 else page[m - 1].row.usn + 1, m < |page|, fill >= MAX_BATCH_SIZE)
  }

  class PullCollector {
    var syncChanges: seq<SyncChange>
    var actualSize: nat
    var maxUSN: int
    ghost var entries: seq<Entry>

    /** The changes, the byte count and the maximum USN are those of the rows collected so far. */
    ghost predicate Valid()
      reads this
    {
      && syncChanges == EntryChanges(entries)
      && actualSize == Weight(entries)
      && maxUSN == MaxUsn(entries)
    }

    constructor ()
      ensures Valid() && entries == []
    {
      syncChanges, actualSize, maxUSN, entries := [], 0, 0, [];
    }

    predicate IsFull()
      reads this
    {
      actualSize >= MAX_BATCH_SIZE
    }

    method AddRow(e: Entry)
      requires Valid()
      modifies this
      ensures Valid() && entries == old(entries) + [e]
      ensures actualSize == old(actualSize) + EntrySize(e)
    {
      actualSize := actualSize + EntrySize(e);
      syncChanges := syncChanges + [EntryChange(e)];
      if e.row.usn > maxUSN {
        maxUSN := e.row.usn;
      }
      WeightOfConcat(entries, [e]);
      assert (entries + [e])[..|entries|] == entries;
      entries := entries + [e];
    }

    /** The row loop of the six kinds whose pages are limited. */
    method AddChanges(page: seq<Entry>, limit: nat) returns (r: CollectResult)
      requires Valid()
      modifies this
      ensures Valid()
      ensures var m := Taken(page, limit, old(actualSize));
              actualSize == old(actualSize) + Weight(page[..m]) &&
              entries == old(entries) + page[..m] && r == ResultFor(page, m, actualSize)
    {
      hide Valid, Weight, EntrySize, EntryChanges, MaxUsn;
      WeightOfNone();
      assert page[0..] == page;
      r := CollectResult(0, false, false);
      var count := 0;
      while count < |page|
        invariant Valid()
        invariant count <= |page| && count <= limit
        invariant entries == old(entries) + page[..count]
        invariant actualSize == old(actualSize) + Weight(page[..count])
        invariant Fit(page, old(actualSize)) == count + Fit(page[count..], actualSize)
        invariant r == CollectResult(if count == 0 then 0 else page[count - 1].row.usn + 1, false, false)
      {
        if count == limit {
          r := r.(hasMore := true);
          break;
        }
        if IsFull() {
          r := r.(hasMore := true, sizeExceeded := true);
          break;
        }
        assert page[count..][1..] == page[count + 1..];
        assert page[..count + 1] == page[..count] + [page[count]];
        WeightOfConcat(page[..count], [page[count]]);
        WeightOfOne(page[count]);
        AddRow(page[count]);
        r := r.(syncCursorUsn := page[count].row.usn + 1);
        count := count + 1;
      }
      if IsFull() {
        r := r.(sizeExceeded := true);
      }
    }

    /** The row loop for the collection: the same without the check of the limit. */
    method AddCollectionChanges(page: seq<Entry>, limit: nat) returns (r: CollectResult)
      requires Valid()
      modifies this
      ensures Valid()
      ensures var m := Fit(page, old(actualSize));
              actualSize == old(actualSize) + Weight(page[..m]) &&
              entries == old(entries) + page[..m] && r == ResultFor(page, m, actualSize)
    {
      hide Valid, Weight, EntrySize, EntryChanges, MaxUsn;
      WeightOfNone();
      assert page[0..] == page;
      r := CollectResult(0, false, false);
      var count := 0;
      while count < |page|
        invariant Valid()
        invariant count <= |page|
        invariant entries == old(entries) + page[..count]
        invariant actualSize == old(actualSize) + Weight(page[..count])
        invariant Fit(page, old(actualSize)) == count + Fit(page[count..], actualSize)
        invariant r == CollectResult(if count == 0 then 0 else page[count - 1].row.usn + 1, false, false)
      {
        if IsFull() {
          r := r.(hasMore := true, sizeExceeded := true);
          break;
        }
        assert page[count..][1..] == page[count + 1..];
        assert page[..count + 1] == page[..count] + [page[count]];
        WeightOfConcat(page[..count], [page[count]]);
        WeightOfOne(page[count]);
        AddRow(page[count]);
        r := r.(syncCursorUsn := page[count].row.usn + 1);
        count := count + 1;
      }
      if IsFull() {
        r := r.(sizeExceeded := true);
      }
    }
  }

  /** What is taken from a page, in terms of all unread rows. */
  ghost predicate TakenFits(unread: seq<Entry>, limit: nat, fill: nat) {
    var page := Limited(unread, limit + 1);
    var m := Taken(page, limit, fill);
    var full := fill + Weight(page[..m]) >= MAX_BATCH_SIZE;
    && m <= |unread| && page[..m] == unread[..m]
    && (unread != [] ==> m > 0)
    && (m < |page| <==> m < |unread|)
    && (full ==> m == Fit(unread, fill))
    && (!full && m == |page| ==> m == |unread| == Fit(unread, fill))
  }

  /** The page holds all unread rows. */
  lemma TakenOfWhole(unread: seq<Entry>, limit: nat, fill: nat)
    requires fill < MAX_BATCH_SIZE && limit > 0 && |unread| <= limit + 1
    ensures TakenFits(unread, limit, fill)
  {
    hide Weight, Fit, EntrySize;
    var m := Taken(unread, limit, fill);
    assert Limited(unread, limit + 1) == unread && unread == unread[..m] + unread[m..];
    FitCases(unread, fill);
    FitOfConcat(unread[..m], unread[m..], fill);
    FitStopsWhenFull(unread, fill);
  }

  /** The page is cut by the query: it has one row more than the limit, and leaves others. */
  lemma TakenOfCut(unread: seq<Entry>, limit: nat, fill: nat)
    requires fill < MAX_BATCH_SIZE && limit > 0 && |unread| > limit + 1
    ensures TakenFits(unread, limit, fill)
  {
    hide Weight, Fit, EntrySize;
    var page, rest := unread[..limit + 1], unread[limit + 1..];
    var m := Taken(page, limit, fill);
    assert unread == page + rest && page == page[..m] + page[m..] && page[..m] == unread[..m];
    FitCases(page, fill);
    FitOfConcat(page, rest, fill);
    FitOfConcat(page[..m], page[m..], fill);
    assert unread == unread[..m] + unread[m..];
    FitOfConcat(unread[..m], unread[m..], fill);
  }

  /** On the page of a query for limit + 1 rows the flags are exact, whatever the collector already
      holds: HasMore iff a row is left between the new cursor and the upper bound, SizeExceeded iff
      the collector is full, and at least one row is taken from a non-empty range. */
  lemma FlagsAreExact(rows: Rows, kind: int, lo: int, hi: int, limit: nat, fill: nat)
    requires fill < MAX_BATCH_SIZE && limit > 0
    ensures var unread := Scan(rows, kind, lo, hi);
            var page := Limited(unread, limit + 1);
            var m := Taken(page, limit, fill);
            var r := ResultFor(page, m, fill + Weight(page[..m]));
            && m <= |unread| && page[..m] == unread[..m]
            && (unread != [] ==> m > 0 && lo < r.syncCursorUsn <= hi)
            && (r.hasMore <==> m < |unread|)
            && (m > 0 ==> (r.hasMore <==> Scan(rows, kind, r.syncCursorUsn, hi) != []))
            && (r.sizeExceeded ==> m == Fit(unread, fill))
            && (!r.sizeExceeded && !r.hasMore ==> m == |unread| == Fit(unread, fill))
  {
    hide Scan, Taken, Limited, Weight, Fit, EntrySize;
    var unread := Scan(rows, kind, lo, hi);
    var m := Taken(Limited(unread, limit + 1), limit, fill);
    if |unread| <= limit + 1 {
      TakenOfWhole(unread, limit, fill);
    } else {
      TakenOfCut(unread, limit, fill);
    }
    if m > 0 {
      ScanCut(rows, kind, lo, hi, m - 1);
    }
  }

  /** A scan of the collections table has at most one row. */
  lemma AtMostOneCollection(db: Database, lo: int, hi: int)
    requires WellFormed(db)
    ensures |Scan(db.rows, COLLECTION, lo, hi)| <= 1
  {
    var all := Scan(db.rows, COLLECTION, lo, hi);
    ScanSound(db.rows, COLLECTION, lo, hi);
    assert |all| > 1 ==> all[0].row.usn < all[1].row.usn;
    forall i | 0 <= i < |all| ensures all[i].row.usn == all[0].row.usn {
      assert all[i] in all && all[0] in all;
    }
  }

  /** Whatever a call delivers lies below its upper bound, and so does the maximum USN it reports
      (0 when it delivers nothing). */
  lemma {:induction false} BatchBelowUpper(rows: Rows, queue: seq<int>, cursor: int, reset: int, hi: int, fill: nat)
    requires fill < MAX_BATCH_SIZE && PullBatch(rows, queue, cursor, reset, hi, fill).Batch?
    ensures forall e <- PullBatch(rows, queue, cursor, reset, hi, fill).out :: Min(cursor, reset) <= e.row.usn < hi
    ensures hi > 0 ==> MaxUsn(PullBatch(rows, queue, cursor, reset, hi, fill).out) < hi
  {
    hide Scan, Fit, Weight, EntrySize, MaxUsn;
    if queue != [] {
      var unread := Scan(rows, queue[0], cursor, hi);
      ScanSound(rows, queue[0], cursor, hi);
      if Fit(unread, fill) == |unread| && fill + Weight(unread) < MAX_BATCH_SIZE {
        BatchBelowUpper(rows, queue[1..], reset, reset, hi, fill + Weight(unread));
      }
    }
  }
}
