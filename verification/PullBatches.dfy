/** What one pull call delivers: a byte-budget prefix of the stream of unread rows. */
module PullBatches {
  import opened SyncModel
  import opened Scans

  /** How many entries a collector holding `fill` bytes takes before it is full. */
  function Fit(es: seq<Entry>, fill: nat): (n: nat)
    ensures n <= |es|
  {
    if es == [] || fill >= MAX_BATCH_SIZE then 0 else 1 + Fit(es[1..], fill + EntrySize(es[0]))
  }

  // ----- the byte budget -----

  /** The collector stops right after the entry that fills it. */
  lemma {:induction false} FitStopsWhenFull(es: seq<Entry>, fill: nat)
    ensures var n := Fit(es, fill);
            && (n > 0 ==> fill + Weight(es[..n - 1]) < MAX_BATCH_SIZE)
            && (n < |es| ==> fill + Weight(es[..n]) >= MAX_BATCH_SIZE)
  {
    if es != [] && fill < MAX_BATCH_SIZE {
      var n := Fit(es, fill);
      FitStopsWhenFull(es[1..], fill + EntrySize(es[0]));
      assert es[..n][1..] == es[1..][..n - 1];
      if n > 1 {
        assert es[..n - 1][1..] == es[1..][..n - 2];
      }
    }
  }

  lemma {:induction false} FitOfConcat(a: seq<Entry>, b: seq<Entry>, fill: nat)
    ensures Fit(a + b, fill) ==
            if fill + Weight(a) < MAX_BATCH_SIZE then |a| + Fit(b, fill + Weight(a)) else Fit(a, fill)
    ensures fill + Weight(a) < MAX_BATCH_SIZE ==> Fit(a, fill) == |a|
  {
    if a == [] {
      assert a + b == b;
    } else {
      assert (a + b)[1..] == a[1..] + b;
      FitOfConcat(a[1..], b, fill + EntrySize(a[0]));
    }
  }

  /** The three ways a scan meets the budget: it fits with room to spare, it fills the collector with
      its last row, or it is cut after at least one row. */
  lemma FitCases(es: seq<Entry>, fill: nat)
    requires fill < MAX_BATCH_SIZE
    ensures fill + Weight(es) < MAX_BATCH_SIZE ==> Fit(es, fill) == |es|
    ensures es != [] ==> Fit(es, fill) > 0
    ensures Fit(es, fill) < |es| ==> fill + Weight(es) >= MAX_BATCH_SIZE
    ensures Weight([]) == 0
  {
    FitOfConcat(es, [], fill);
  }

  // ----- one call -----

  datatype PullError = UnsupportedEntityType | InvalidSyncCursor

  datatype BatchResult = Failed(error: PullError) | Batch(out: seq<Entry>, queue: seq<int>, cursor: int)

  function Prefixed(es: seq<Entry>, r: BatchResult): BatchResult {
    if r.Failed? then r else r.(out := es + r.out)
  }

  lemma PrefixedTwice(a: seq<Entry>, b: seq<Entry>, r: BatchResult)
    ensures Prefixed(a, Prefixed(b, r)) == Prefixed(a + b, r)
  {
    if r.Batch? {
      assert a + (b + r.out) == a + b + r.out;
    }
  }

  /** One pull call, type by type and without pages. The head of the queue is read from `cursor`, and
      when a type is finished the cursor goes back to `reset`. The collector already holds `fill` bytes.
      The code calls this with reset == cursor. An empty scan reports cursor 0, which is an error
      unless the cursor is negative. */
  function PullBatch(rows: Rows, queue: seq<int>, cursor: int, reset: int, hi: int, fill: nat): BatchResult
    requires fill < MAX_BATCH_SIZE
  {
    if queue == [] then Batch([], [], hi)
    else if !IsKind(queue[0]) then Failed(UnsupportedEntityType)
    else
      var unread := Scan(rows, queue[0], cursor, hi);
      if unread == [] && cursor >= 0 then Failed(InvalidSyncCursor)
      else
        var n := Fit(unread, fill);
        if n < |unread| then
          FitCases(unread, fill);
          Batch(unread[..n], queue, unread[n - 1].row.usn + 1)
        else if fill + Weight(unread) >= MAX_BATCH_SIZE then Batch(unread, queue[1..], reset)
        else Prefixed(unread, PullBatch(rows, queue[1..], reset, reset, hi, fill + Weight(unread)))
  }

  /** All unread rows of the queued types, in queue order. */
  function Stream(rows: Rows, queue: seq<int>, cursor: int, reset: int, hi: int): seq<Entry> {
    if queue == [] then [] else Scan(rows, queue[0], cursor, hi) + Stream(rows, queue[1..], reset, reset, hi)
  }

  lemma StreamStep(rows: Rows, queue: seq<int>, cursor: int, reset: int, hi: int)
    requires queue != []
    ensures Stream(rows, queue, cursor, reset, hi) ==
            Scan(rows, queue[0], cursor, hi) + Stream(rows, queue[1..], reset, reset, hi)
  {
  }

  lemma Associates(a: seq<Entry>, b: seq<Entry>, c: seq<Entry>)
    ensures (a + b) + c == a + (b + c)
  {
  }

  /** A successful call, by what becomes of its head: cut by the budget, finished and full, or finished
      with room for the other types. */
  lemma HeadCases(rows: Rows, queue: seq<int>, cursor: int, reset: int, hi: int, fill: nat)
    requires fill < MAX_BATCH_SIZE && queue != []
    requires PullBatch(rows, queue, cursor, reset, hi, fill).Batch?
    ensures var r := PullBatch(rows, queue, cursor, reset, hi, fill);
            var unread := Scan(rows, queue[0], cursor, hi);
            var n := Fit(unread, fill);
            && (n < |unread| ==> n > 0 && fill + Weight(unread) >= MAX_BATCH_SIZE
                                 && r == Batch(unread[..n], queue, unread[n - 1].row.usn + 1))
            && (n == |unread| && fill + Weight(unread) >= MAX_BATCH_SIZE ==> r == Batch(unread, queue[1..], reset))
            && (fill + Weight(unread) < MAX_BATCH_SIZE ==>
                  var later := PullBatch(rows, queue[1..], reset, reset, hi, fill + Weight(unread));
                  n == |unread| && later.Batch? && r == Batch(unread + later.out, later.queue, later.cursor))
  {
    hide Scan, Fit, Weight, EntrySize;
    FitCases(Scan(rows, queue[0], cursor, hi), fill);
  }

  /** A call whose head has these unread rows, if `later` is what it delivers behind them. */
  function Served(unread: seq<Entry>, fill: nat, queue: seq<int>, reset: int, later: BatchResult): BatchResult
    requires unread != [] && queue != [] && fill < MAX_BATCH_SIZE
  {
    FitCases(unread, fill);
    var n := Fit(unread, fill);
    if n < |unread| then Batch(unread[..n], queue, unread[n - 1].row.usn + 1)
    else if fill + Weight(unread) >= MAX_BATCH_SIZE then Batch(unread, queue[1..], reset)
    else Prefixed(unread, later)
  }

  lemma BatchIsServed(rows: Rows, queue: seq<int>, cursor: int, reset: int, hi: int, fill: nat, later: BatchResult)
    requires queue != [] && IsKind(queue[0]) && Scan(rows, queue[0], cursor, hi) != [] && fill < MAX_BATCH_SIZE
    requires var filled := fill + Weight(Scan(rows, queue[0], cursor, hi));
             filled < MAX_BATCH_SIZE ==> later == PullBatch(rows, queue[1..], reset, reset, hi, filled)
    ensures PullBatch(rows, queue, cursor, reset, hi, fill) == Served(Scan(rows, queue[0], cursor, hi), fill, queue, reset, later)
  {
    hide Scan, Fit, Weight, EntrySize;
    FitCases(Scan(rows, queue[0], cursor, hi), fill);
  }

  lemma ServedInTwo(page: seq<Entry>, rest: seq<Entry>, fill: nat, queue: seq<int>, reset: int, later: BatchResult)
    requires page != [] && rest != [] && queue != [] && fill + Weight(page) < MAX_BATCH_SIZE
    ensures Served(page + rest, fill, queue, reset, later) == Prefixed(page, Served(rest, fill + Weight(page), queue, reset, later))
  {
    hide Fit, Weight, EntrySize;
    FitOfConcat(page, rest, fill);
    WeightOfConcat(page, rest);
    FitCases(rest, fill + Weight(page));
    var n := Fit(rest, fill + Weight(page));
    assert Fit(page + rest, fill) == |page| + n;
    if n < |rest| {
      assert (page + rest)[..|page| + n] == page + rest[..n];
      assert (page + rest)[|page| + n - 1] == rest[n - 1];
    }
    PrefixedTwice(page, rest, later);
  }

  /** Stopping after m rows of the head while the collector still has room, and going on from the
      cursor behind them, yields what the unpaged scan yields. */
  lemma PagingIsInvisible(rows: Rows, queue: seq<int>, cursor: int, reset: int, hi: int, fill: nat, m: nat)
    requires queue != [] && IsKind(queue[0])
    requires 0 < m < |Scan(rows, queue[0], cursor, hi)|
    requires fill < MAX_BATCH_SIZE && fill + Weight(Scan(rows, queue[0], cursor, hi)[..m]) < MAX_BATCH_SIZE
    ensures var page := Scan(rows, queue[0], cursor, hi)[..m];
            PullBatch(rows, queue, cursor, reset, hi, fill) ==
            Prefixed(page, PullBatch(rows, queue, page[m - 1].row.usn + 1, reset, hi, fill + Weight(page)))
  {
    hide Scan, Fit, Weight, EntrySize, PullBatch, Served;
    var unread := Scan(rows, queue[0], cursor, hi);
    var page, rest := unread[..m], unread[m..];
    ScanCut(rows, queue[0], cursor, hi, m - 1);
    assert unread == page + rest;
    WeightOfConcat(page, rest);
    var later := if fill + Weight(unread) >= MAX_BATCH_SIZE then Batch([], [], 0)
                 else PullBatch(rows, queue[1..], reset, reset, hi, fill + Weight(unread));
    BatchIsServed(rows, queue, cursor, reset, hi, fill, later);
    BatchIsServed(rows, queue, page[m - 1].row.usn + 1, reset, hi, fill + Weight(page), later);
    ServedInTwo(page, rest, fill, queue, reset, later);
  }

  /** What a call comes to once a page of m > 0 rows has been taken from its head. */
  lemma AfterPage(rows: Rows, queue: seq<int>, cursor: int, reset: int, hi: int, fill: nat, m: nat)
    requires fill < MAX_BATCH_SIZE && queue != [] && IsKind(queue[0])
    requires var unread := Scan(rows, queue[0], cursor, hi);
             && (unread == [] ==> cursor < 0)
             && m <= |unread| && (unread != [] ==> m > 0)
             && (m == Fit(unread, fill) || (m < |unread| && fill + Weight(unread[..m]) < MAX_BATCH_SIZE))
    ensures var page := Scan(rows, queue[0], cursor, hi)[..m];
            var more := m < |Scan(rows, queue[0], cursor, hi)|;
            PullBatch(rows, queue, cursor, reset, hi, fill) ==
            if fill + Weight(page) >= MAX_BATCH_SIZE then
              (if more then Batch(page, queue, page[m - 1].row.usn + 1) else Batch(page, queue[1..], reset))
            else if more then Prefixed(page, PullBatch(rows, queue, page[m - 1].row.usn + 1, reset, hi, fill + Weight(page)))
            else Prefixed(page, PullBatch(rows, queue[1..], reset, reset, hi, fill + Weight(page)))
  {
    hide Scan, Fit, Weight, EntrySize;
    var unread := Scan(rows, queue[0], cursor, hi);
    FitCases(unread, fill);
    FitStopsWhenFull(unread, fill);
    if m < |unread| {
      if fill + Weight(unread[..m]) < MAX_BATCH_SIZE {
        PagingIsInvisible(rows, queue, cursor, reset, hi, fill, m);
      }
    } else {
      assert unread[..m] == unread;
    }
  }

  /** The three nested bounds amount to one: a successful call delivers the shortest prefix of the
      unread stream that fills the collector, or all of it. */
  lemma {:induction false} BatchIsBudgetPrefix(rows: Rows, queue: seq<int>, cursor: int, reset: int, hi: int, fill: nat)
    requires fill < MAX_BATCH_SIZE
    requires PullBatch(rows, queue, cursor, reset, hi, fill).Batch?
    ensures var all := Stream(rows, queue, cursor, reset, hi);
            PullBatch(rows, queue, cursor, reset, hi, fill).out == all[..Fit(all, fill)]
  {
    hide Scan, Fit, Weight, EntrySize;
    if queue == [] {
      assert PullBatch(rows, queue, cursor, reset, hi, fill).out == [] == Stream(rows, queue, cursor, reset, hi);
    } else {
      hide PullBatch, Stream;
      HeadCases(rows, queue, cursor, reset, hi, fill);
      StreamStep(rows, queue, cursor, reset, hi);
      var unread, later := Scan(rows, queue[0], cursor, hi), Stream(rows, queue[1..], reset, reset, hi);
      FitOfConcat(unread, later, fill);
      if fill + Weight(unread) < MAX_BATCH_SIZE {
        BatchIsBudgetPrefix(rows, queue[1..], reset, reset, hi, fill + Weight(unread));
        TakePast(unread, later, Fit(later, fill + Weight(unread)));
      } else {
        TakeWithin(unread, later, Fit(unread, fill));
      }
    }
  }

  lemma TakeWithin(a: seq<Entry>, b: seq<Entry>, n: nat)
    requires n <= |a|
    ensures (a + b)[..n] == a[..n]
  {
  }

  lemma TakePast(a: seq<Entry>, b: seq<Entry>, n: nat)
    requires n <= |b|
    ensures (a + b)[..|a| + n] == a + b[..n]
  {
  }

  /** Nothing is lost or duplicated: the stream before the call is what was delivered followed by the
      stream of the returned queue and cursor, as long as later types keep being read from `reset`. */
  lemma {:induction false} BatchConserves(rows: Rows, queue: seq<int>, cursor: int, reset: int, hi: int, fill: nat)
    requires fill < MAX_BATCH_SIZE
    requires PullBatch(rows, queue, cursor, reset, hi, fill).Batch?
    ensures var r := PullBatch(rows, queue, cursor, reset, hi, fill);
            Stream(rows, queue, cursor, reset, hi) == r.out + Stream(rows, r.queue, r.cursor, reset, hi)
  {
    hide Scan, Fit, Weight, EntrySize;
    if queue == [] {
      assert PullBatch(rows, queue, cursor, reset, hi, fill) == Batch([], [], hi);
    } else {
      hide PullBatch, Stream;
      HeadCases(rows, queue, cursor, reset, hi, fill);
      StreamStep(rows, queue, cursor, reset, hi);
      var unread := Scan(rows, queue[0], cursor, hi);
      if Fit(unread, fill) < |unread| {
        ConservesInside(rows, queue, cursor, reset, hi, Fit(unread, fill));
      } else if fill + Weight(unread) < MAX_BATCH_SIZE {
        BatchConserves(rows, queue[1..], reset, reset, hi, fill + Weight(unread));
        var r := PullBatch(rows, queue[1..], reset, reset, hi, fill + Weight(unread));
        Associates(unread, r.out, Stream(rows, r.queue, r.cursor, reset, hi));
      }
    }
  }

  lemma ConservesInside(rows: Rows, queue: seq<int>, cursor: int, reset: int, hi: int, n: nat)
    requires queue != [] && 0 < n <= |Scan(rows, queue[0], cursor, hi)|
    ensures var unread := Scan(rows, queue[0], cursor, hi);
            Stream(rows, queue, cursor, reset, hi) == unread[..n] + Stream(rows, queue, unread[n - 1].row.usn + 1, reset, hi)
  {
    hide Scan, Stream;
    var unread := Scan(rows, queue[0], cursor, hi);
    ScanCut(rows, queue[0], cursor, hi, n - 1);
    StreamStep(rows, queue, cursor, reset, hi);
    StreamStep(rows, queue, unread[n - 1].row.usn + 1, reset, hi);
    Associates(unread[..n], unread[n..], Stream(rows, queue[1..], reset, reset, hi));
    assert unread == unread[..n] + unread[n..];
  }

  /** The types a call finishes are the first |queue| - |r.queue| ones, each delivered whole; the
      call stops at the cursor inside the next one. */
  ghost predicate Splits(rows: Rows, queue: seq<int>, cursor: int, reset: int, hi: int, r: BatchResult)
    requires r.Batch?
  {
    var done := |queue| - |r.queue|;
    && done >= 0 && r.queue == queue[done..]
    && (r.queue == [] ==> r.out == Stream(rows, queue, cursor, reset, hi) && (r.cursor == hi || r.cursor == reset))
    && (r.queue != [] && done == 0 ==> cursor < r.cursor <= hi && r.out == Scan(rows, queue[0], cursor, r.cursor))
    && (r.queue != [] && done > 0 ==>
          && (reset == r.cursor || reset < r.cursor <= hi)
          && r.out == Stream(rows, queue[..done], cursor, reset, hi) + Scan(rows, r.queue[0], reset, r.cursor))
  }

  lemma SplitsAfterHead(rows: Rows, queue: seq<int>, cursor: int, reset: int, hi: int, r: BatchResult)
    requires r.Batch? && queue != [] && Splits(rows, queue[1..], reset, reset, hi, r)
    ensures Splits(rows, queue, cursor, reset, hi, Prefixed(Scan(rows, queue[0], cursor, hi), r))
  {
    hide Scan, Stream;
    var done := |queue| - |r.queue|;
    assert r.queue == queue[done..];
    if r.queue == [] {
      StreamStep(rows, queue, cursor, reset, hi);
    } else if done == 1 {
      StreamOfOne(rows, queue, cursor, reset, hi);
    } else {
      StreamOfMore(rows, queue, done, cursor, reset, hi);
      Associates(Scan(rows, queue[0], cursor, hi), Stream(rows, queue[1..][..done - 1], reset, reset, hi), Scan(rows, r.queue[0], reset, r.cursor));
    }
  }

  lemma StreamOfOne(rows: Rows, queue: seq<int>, cursor: int, reset: int, hi: int)
    requires queue != []
    ensures Stream(rows, queue[..1], cursor, reset, hi) == Scan(rows, queue[0], cursor, hi)
  {
    assert queue[..1][1..] == [];
  }

  lemma StreamOfMore(rows: Rows, queue: seq<int>, n: nat, cursor: int, reset: int, hi: int)
    requires 0 < n <= |queue|
    ensures Stream(rows, queue[..n], cursor, reset, hi) ==
            Scan(rows, queue[0], cursor, hi) + Stream(rows, queue[1..][..n - 1], reset, reset, hi)
  {
    assert queue[..n][1..] == queue[1..][..n - 1];
  }

  lemma SplitsInsideHead(rows: Rows, queue: seq<int>, cursor: int, reset: int, hi: int, n: nat)
    requires queue != [] && 0 < n < |Scan(rows, queue[0], cursor, hi)|
    ensures var unread := Scan(rows, queue[0], cursor, hi);
            Splits(rows, queue, cursor, reset, hi, Batch(unread[..n], queue, unread[n - 1].row.usn + 1))
  {
    hide Scan, Stream;
    ScanCut(rows, queue[0], cursor, hi, n - 1);
  }

  lemma SplitsAtHeadsEnd(rows: Rows, queue: seq<int>, cursor: int, reset: int, hi: int)
    requires queue != []
    ensures Splits(rows, queue, cursor, reset, hi, Batch(Scan(rows, queue[0], cursor, hi), queue[1..], reset))
  {
    hide Scan;
    if queue[1..] != [] {
      EmptyRange(rows, queue[1..][0], reset);
    }
    assert queue[..1][1..] == [];
    assert Stream(rows, queue[..1], cursor, reset, hi) == Scan(rows, queue[0], cursor, hi);
  }

  lemma {:induction false} BatchSplits(rows: Rows, queue: seq<int>, cursor: int, reset: int, hi: int, fill: nat)
    requires fill < MAX_BATCH_SIZE
    requires PullBatch(rows, queue, cursor, reset, hi, fill).Batch?
    ensures Splits(rows, queue, cursor, reset, hi, PullBatch(rows, queue, cursor, reset, hi, fill))
  {
    if queue != [] {
      hide Scan, Fit, Weight, EntrySize, Splits, Stream, PullBatch;
      var unread := Scan(rows, queue[0], cursor, hi);
      HeadCases(rows, queue, cursor, reset, hi, fill);
      if Fit(unread, fill) < |unread| {
        SplitsInsideHead(rows, queue, cursor, reset, hi, Fit(unread, fill));
      } else if fill + Weight(unread) < MAX_BATCH_SIZE {
        BatchSplits(rows, queue[1..], reset, reset, hi, fill + Weight(unread));
        SplitsAfterHead(rows, queue, cursor, reset, hi, PullBatch(rows, queue[1..], reset, reset, hi, fill + Weight(unread)));
      } else {
        SplitsAtHeadsEnd(rows, queue, cursor, reset, hi);
      }
    }
  }

  /** Dropping the last delivered row leaves the collector below the limit: it overshoots by at most one. */
  lemma BatchOvershootsByOneRow(rows: Rows, queue: seq<int>, cursor: int, reset: int, hi: int)
    requires PullBatch(rows, queue, cursor, reset, hi, 0).Batch?
    ensures var out := PullBatch(rows, queue, cursor, reset, hi, 0).out;
            out != [] ==> Weight(out[..|out| - 1]) < MAX_BATCH_SIZE
    ensures var r := PullBatch(rows, queue, cursor, reset, hi, 0);
            r.out != Stream(rows, queue, cursor, reset, hi) ==> Weight(r.out) >= MAX_BATCH_SIZE
  {
    var all := Stream(rows, queue, cursor, reset, hi);
    BatchIsBudgetPrefix(rows, queue, cursor, reset, hi, 0);
    FitStopsWhenFull(all, 0);
    var n := Fit(all, 0);
    if n > 0 {
      assert all[..n][..n - 1] == all[..n - 1];
    }
  }

  // ----- failures -----

  function StartOf(i: nat, cursor: int, reset: int): int {
    if i == 0 then cursor else reset
  }

  /** The i-th queued type is unknown, or has no row left to read. */
  predicate Blocks(rows: Rows, queue: seq<int>, i: nat, cursor: int, reset: int, hi: int)
    requires i < |queue|
  {
    || !IsKind(queue[i])
    || (StartOf(i, cursor, reset) >= 0 && Scan(rows, queue[i], StartOf(i, cursor, reset), hi) == [])
  }

  /** The call gets as far as the i-th type: everything before it fits. */
  predicate Reaches(rows: Rows, queue: seq<int>, i: nat, cursor: int, reset: int, hi: int, fill: nat)
    requires i < |queue|
  {
    fill + Weight(Stream(rows, queue[..i], cursor, reset, hi)) < MAX_BATCH_SIZE
  }

  ghost predicate SomeReachedTypeBlocks(rows: Rows, queue: seq<int>, cursor: int, reset: int, hi: int, fill: nat) {
    exists i | 0 <= i < |queue| :: Blocks(rows, queue, i, cursor, reset, hi) && Reaches(rows, queue, i, cursor, reset, hi, fill)
  }

  /** Exactly when a call fails. */
  lemma {:induction false} BatchFailsIff(rows: Rows, queue: seq<int>, cursor: int, reset: int, hi: int, fill: nat)
    requires fill < MAX_BATCH_SIZE
    ensures PullBatch(rows, queue, cursor, reset, hi, fill).Failed? <==>
            SomeReachedTypeBlocks(rows, queue, cursor, reset, hi, fill)
  {
    hide Scan, Fit, Weight, EntrySize;
    WeightOfNone();
    if queue != [] {
      assert queue[..0] == [];
      assert Reaches(rows, queue, 0, cursor, reset, hi, fill);
      if !Blocks(rows, queue, 0, cursor, reset, hi) {
        var unread := Scan(rows, queue[0], cursor, hi);
        var fill' := fill + Weight(unread);
        FitCases(unread, fill);
        forall i | 0 < i < |queue|
          ensures Blocks(rows, queue, i, cursor, reset, hi) == Blocks(rows, queue[1..], i - 1, reset, reset, hi)
          ensures Reaches(rows, queue, i, cursor, reset, hi, fill) ==
                  (fill' < MAX_BATCH_SIZE && Reaches(rows, queue[1..], i - 1, reset, reset, hi, fill'))
        {
          assert queue[..i][1..] == queue[1..][..i - 1];
          WeightOfConcat(unread, Stream(rows, queue[1..][..i - 1], reset, reset, hi));
        }
        if fill' < MAX_BATCH_SIZE {
          BatchFailsIff(rows, queue[1..], reset, reset, hi, fill');
          assert forall i | 0 <= i < |queue[1..]| :: Blocks(rows, queue[1..], i, reset, reset, hi) == Blocks(rows, queue, i + 1, cursor, reset, hi);
        }
      }
    }
  }

  /** No failure while every queued type still has a row in the range it is read from. */
  lemma {:induction false} NoSpuriousFailure(rows: Rows, queue: seq<int>, cursor: int, reset: int, hi: int, fill: nat)
    requires fill < MAX_BATCH_SIZE
    requires forall i | 0 <= i < |queue| :: IsKind(queue[i]) && Scan(rows, queue[i], StartOf(i, cursor, reset), hi) != []
    ensures PullBatch(rows, queue, cursor, reset, hi, fill).Batch?
  {
    BatchFailsIff(rows, queue, cursor, reset, hi, fill);
  }

  /** Which error it is: that of the first type that blocks, an unknown one or one without rows. */
  lemma {:induction false} BatchErrorIs(rows: Rows, queue: seq<int>, cursor: int, reset: int, hi: int, fill: nat) returns (i: nat)
    requires fill < MAX_BATCH_SIZE
    requires PullBatch(rows, queue, cursor, reset, hi, fill).Failed?
    ensures i < |queue| && Blocks(rows, queue, i, cursor, reset, hi)
    ensures forall j | 0 <= j < i :: !Blocks(rows, queue, j, cursor, reset, hi)
    ensures PullBatch(rows, queue, cursor, reset, hi, fill).error ==
            if COLLECTION <= queue[i] <= REVIEW_LOG then InvalidSyncCursor else UnsupportedEntityType
  {
    hide Scan, Fit, Weight, EntrySize;
    i := 0;
    if !Blocks(rows, queue, 0, cursor, reset, hi) {
      var unread := Scan(rows, queue[0], cursor, hi);
      FitCases(unread, fill);
      i := BatchErrorIs(rows, queue[1..], reset, reset, hi, fill + Weight(unread));
      forall j | 0 < j <= i
        ensures Blocks(rows, queue, j, cursor, reset, hi) == Blocks(rows, queue[1..], j - 1, reset, reset, hi)
      {
        assert queue[1..][j - 1] == queue[j];
      }
      i := i + 1;
    }
  }

  /** The cursor a call ends with when it has finished the whole queue. */
  lemma {:induction false} EndCursor(rows: Rows, queue: seq<int>, cursor: int, reset: int, hi: int, fill: nat)
    requires fill < MAX_BATCH_SIZE
    requires PullBatch(rows, queue, cursor, reset, hi, fill).Batch?
    ensures var r := PullBatch(rows, queue, cursor, reset, hi, fill);
            r.queue == [] ==> r.cursor == if fill + Weight(r.out) < MAX_BATCH_SIZE then hi else reset
  {
    hide Scan, Fit, Weight, EntrySize;
    WeightOfNone();
    if queue != [] {
      hide PullBatch;
      HeadCases(rows, queue, cursor, reset, hi, fill);
      var unread := Scan(rows, queue[0], cursor, hi);
      if fill + Weight(unread) < MAX_BATCH_SIZE {
        EndCursor(rows, queue[1..], reset, reset, hi, fill + Weight(unread));
        WeightOfConcat(unread, PullBatch(rows, queue[1..], reset, reset, hi, fill + Weight(unread)).out);
      }
    }
  }
}
