/** Whether a pull session will be complete, told from the rows alone before its first pull. */
module PullCuts {
  import opened SyncModel
  import opened Scans
  import opened PullBatches
  import opened PullSessions
  import opened PullCompleteness

  /** Stopping after the first n rows of the unread stream is clean unless it splits one kind while an
      older row of another kind is still to come. */
  ghost predicate CleanCut(unread: seq<Entry>, n: nat)
    requires 0 < n < |unread|
  {
    unread[n - 1].key.kind == unread[n].key.kind ==>
      forall e <- unread[n..] :: e.key.kind != unread[n].key.kind ==> e.row.usn > unread[n - 1].row.usn
  }

  /** Cut the unread stream greedily into batches of the byte budget: every cut is clean. */
  ghost predicate CleanCuts(unread: seq<Entry>)
    decreases |unread|
  {
    unread == [] ||
    (var n := Fit(unread, 0);
     n == |unread| || (0 < n < |unread| && CleanCut(unread, n) && CleanCuts(unread[n..])))
  }

  ghost predicate Ascending(queue: seq<int>) {
    forall i, j | 0 <= i < j < |queue| :: queue[i] < queue[j]
  }

  lemma StreamKinds(rows: Rows, queue: seq<int>, cursor: int, reset: int, hi: int)
    ensures forall e <- Stream(rows, queue, cursor, reset, hi) :: e.key.kind in queue
  {
    hide Scan;
    if queue != [] {
      ScanSound(rows, queue[0], cursor, hi);
      StreamKinds(rows, queue[1..], reset, reset, hi);
    }
  }

  /** A stream up to `mid` is empty iff the longer one has nothing below `mid`. */
  lemma {:induction false} StreamBelow(rows: Rows, queue: seq<int>, lo: int, mid: int, hi: int)
    requires lo <= mid <= hi
    ensures Stream(rows, queue, lo, lo, mid) == [] <==> forall e <- Stream(rows, queue, lo, lo, hi) :: e.row.usn >= mid
  {
    hide Scan;
    if queue != [] {
      StreamBelow(rows, queue[1..], lo, mid, hi);
      ScanSplit(rows, queue[0], lo, mid, hi);
      ScanSound(rows, queue[0], lo, mid);
      ScanSound(rows, queue[0], mid, hi);
      var below := Scan(rows, queue[0], lo, mid);
      if below != [] {
        assert below[0] in below && below[0] in Stream(rows, queue, lo, lo, hi);
      }
    }
  }

  /** Where a successful call stops: at the end of a type, or right behind the last row it delivers,
      with rows of the same type to come. */
  lemma {:induction false} StopsBehindLastRow(rows: Rows, queue: seq<int>, cursor: int, reset: int, hi: int, fill: nat)
    requires fill < MAX_BATCH_SIZE
    requires PullBatch(rows, queue, cursor, reset, hi, fill).Batch?
    ensures var r := PullBatch(rows, queue, cursor, reset, hi, fill);
            r.queue != [] ==>
              || (r.cursor == reset && |r.queue| < |queue|)
              || (&& r.out != [] && r.out[|r.out| - 1].key.kind == r.queue[0] && r.cursor == r.out[|r.out| - 1].row.usn + 1
                  && Scan(rows, r.queue[0], r.cursor, hi) != [])
  {
    hide Scan, Fit, Weight, EntrySize;
    if queue != [] {
      hide PullBatch;
      HeadCases(rows, queue, cursor, reset, hi, fill);
      var unread := Scan(rows, queue[0], cursor, hi);
      var n := Fit(unread, fill);
      if n < |unread| {
        ScanSound(rows, queue[0], cursor, hi);
        ScanCut(rows, queue[0], cursor, hi, n - 1);
        assert unread[n - 1] in unread;
      } else if fill + Weight(unread) < MAX_BATCH_SIZE {
        StopsBehindLastRow(rows, queue[1..], reset, reset, hi, fill + Weight(unread));
      }
    }
  }

  /** The cut a pull makes in its unread stream is clean iff the pull skips nothing. */
  lemma CutIsCleanIff(rows: Rows, queue: seq<int>, start: int, hi: int, p: Pull)
    requires start <= hi && Ascending(queue) && p.next != []
    requires PullBatch(rows, queue, start, start, hi, 0) == Batch(p.out, p.next, p.cursor) && p.start == start
    requires var unread := Stream(rows, queue, start, start, hi);
             && 0 < |p.out| < |unread| && p.out == unread[..|p.out|]
             && unread[|p.out|..] == Scan(rows, p.next[0], p.cursor, hi) + Stream(rows, p.next[1..], start, start, hi)
    ensures CleanCut(Stream(rows, queue, start, start, hi), |p.out|) <==> Skipped(rows, p) == []
  {
    hide Scan, PullBatch, Stream, Splits;
    var unread, n := Stream(rows, queue, start, start, hi), |p.out|;
    var head, rest := Scan(rows, p.next[0], p.cursor, hi), Stream(rows, p.next[1..], start, start, hi);
    StopsBehindLastRow(rows, queue, start, start, hi, 0);
    BatchSplits(rows, queue, start, start, hi, 0);
    SplitsQueue(rows, queue, start, hi, Batch(p.out, p.next, p.cursor));
    assert p.out[n - 1] == unread[n - 1] && unread[n] == (head + rest)[0];
    ScanSound(rows, p.next[0], p.cursor, hi);
    StreamKinds(rows, p.next[1..], start, start, hi);
    assert forall e <- rest :: e.key.kind != p.next[0];
    if p.cursor == start && |p.next| < |queue| {
      StreamOfNothing(rows, p.next[1..], start, start);
      assert unread[n] in head + rest;
      assert p.out[n - 1] in p.out;
    } else {
      assert unread[n] == head[0] && head[0] in head;
      assert forall e :: e in unread[n..] <==> e in head || e in rest;
      StreamBelow(rows, p.next[1..], start, p.cursor, hi);
    }
  }

  /** What Splits says of the kinds on both sides of a stop. */
  lemma SplitsQueue(rows: Rows, queue: seq<int>, start: int, hi: int, r: BatchResult)
    requires Ascending(queue) && r.Batch? && Splits(rows, queue, start, start, hi, r) && r.queue != []
    ensures r.cursor == start || start < r.cursor <= hi
    ensures |r.queue| == |queue| ==> start < r.cursor
    ensures forall i | 0 < i < |r.queue| :: r.queue[i] != r.queue[0]
    ensures r.cursor == start && |r.queue| < |queue| ==> forall e <- r.out :: e.key.kind !in r.queue
  {
    hide Scan, Stream;
    var done := |queue| - |r.queue|;
    if r.cursor == start && done > 0 {
      EmptyRange(rows, r.queue[0], start);
      StreamKinds(rows, queue[..done], start, start, hi);
    }
  }

  /** One pull: the cuts of its unread stream are clean iff it skips nothing and the cuts of the stream
      the next pull sees are clean. */
  lemma PullCutsOnce(rows: Rows, q0: seq<int>, c0: int, hi: int, before: seq<Pull>, p: Pull)
    requires Follows(rows, q0, c0, hi, AsCoded, before, p) && Ascending(p.queue)
    requires p.queue != [] ==> p.start <= hi
    ensures CleanCuts(Stream(rows, p.queue, p.start, p.start, hi)) <==>
            Skipped(rows, p) == [] && CleanCuts(Stream(rows, p.next, p.cursor, p.cursor, hi))
  {
    hide Scan, PullBatch, Stream, Skipped;
    var unread := Stream(rows, p.queue, p.start, p.start, hi);
    PullLoses(rows, q0, c0, hi, before, p);
    BatchConserves(rows, p.queue, p.start, p.start, hi, 0);
    BatchIsBudgetPrefix(rows, p.queue, p.start, p.start, hi, 0);
    var n := Fit(unread, 0);
    FitCases(unread, 0);
    assert p.out == unread[..n];
    var left := Stream(rows, p.next, p.cursor, p.start, hi);
    assert unread[n..] == left;
    if p.next == [] {
      EmptyStream(rows, p.cursor, p.start, hi);
      EmptyStream(rows, p.cursor, p.cursor, hi);
      SkipsNothingAtEnd(rows, p);
    } else {
      StreamStep(rows, p.next, p.cursor, p.start, hi);
      PullProgresses(rows, q0, c0, hi, AsCoded, before, p);
      if n < |unread| {
        CutIsCleanIff(rows, p.queue, p.start, hi, p);
      } else {
        NothingLeftToSkip(rows, p, hi);
      }
    }
  }

  lemma NothingLeftToSkip(rows: Rows, p: Pull, hi: int)
    requires p.next != [] && p.start <= p.cursor <= hi && Stream(rows, p.next[1..], p.start, p.start, hi) == []
    ensures Skipped(rows, p) == []
  {
    hide Stream;
    StreamBelow(rows, p.next[1..], p.start, p.cursor, hi);
  }

  lemma SkipsNothingAtEnd(rows: Rows, p: Pull)
    requires p.next == []
    ensures Skipped(rows, p) == []
  {
  }

  lemma AscendingSuffix(queue: seq<int>, of: seq<int>)
    requires Ascending(of) && Suffix(queue, of)
    ensures Ascending(queue)
  {
  }

  /** Over a session: the cuts of the whole unread stream are clean iff nothing has been skipped and the
      cuts still ahead are clean. */
  lemma {:induction false} SessionCuts(rows: Rows, q0: seq<int>, c0: int, hi: int, ps: seq<Pull>)
    requires c0 <= hi && Ascending(q0) && Session(rows, q0, c0, hi, AsCoded, ps)
    ensures CleanCuts(Stream(rows, q0, c0, c0, hi)) <==>
            && (forall p <- ps :: Skipped(rows, p) == [])
            && CleanCuts(Stream(rows, QueueAfter(q0, ps), CursorAfter(c0, ps), CursorAfter(c0, ps), hi))
  {
    hide Scan, PullBatch, Stream, Skipped, Follows, Suffix, CleanCuts, Ascending;
    if ps != [] {
      var before, p := ps[..|ps| - 1], ps[|ps| - 1];
      assert p in ps && forall x :: x in ps <==> x in before || x == p;
      SessionCuts(rows, q0, c0, hi, before);
      FollowsStart(rows, q0, c0, hi, AsCoded, before, p);
      CursorsStayInRange(rows, q0, c0, hi, AsCoded, before);
      AscendingSuffix(p.queue, q0);
      PullCutsOnce(rows, q0, c0, hi, before, p);
    }
  }

  /** Exactly when a finished session is complete, as a condition on the rows it starts from: every
      byte-budget cut of the unread stream is clean. */
  lemma CompleteIffCleanCuts(rows: Rows, q0: seq<int>, c0: int, hi: int, ps: seq<Pull>)
    requires c0 <= hi && Ascending(q0) && Session(rows, q0, c0, hi, AsCoded, ps) && QueueAfter(q0, ps) == []
    ensures Delivered(ps) == Stream(rows, q0, c0, c0, hi) <==> CleanCuts(Stream(rows, q0, c0, c0, hi))
  {
    hide Scan, PullBatch, Stream, Skipped, Session;
    EmptyStream(rows, CursorAfter(c0, ps), CursorAfter(c0, ps), hi);
    SessionCuts(rows, q0, c0, hi, ps);
    CompleteIffNothingSkipped(rows, q0, c0, hi, ps);
  }
}
