/** When a pull session delivers every row, and when it gets stuck. */
module PullCompleteness {
  import opened SyncModel
  import opened Scans
  import opened PullBatches
  import opened PullSessions

  /** The rows of the types queued behind the head that lie between the start of a pull and the cursor
      it saved. The next pull reads those types from that cursor, so no pull will ever reach them. */
  function Skipped(rows: Rows, p: Pull): seq<Entry> {
    if p.next == [] then [] else Stream(rows, p.next[1..], p.start, p.start, p.cursor)
  }

  function SkippedCount(rows: Rows, ps: seq<Pull>): nat {
    if ps == [] then 0 else SkippedCount(rows, ps[..|ps| - 1]) + |Skipped(rows, ps[|ps| - 1])|
  }

  /** The pull stopped inside a type while other types were queued behind it. */
  predicate StopsInsideWithMoreQueued(p: Pull) {
    |p.next| > 1 && p.start < p.cursor
  }

  // ----- streams from two starting points -----

  lemma {:induction false} StreamSplit(rows: Rows, queue: seq<int>, lo: int, mid: int, hi: int)
    requires lo <= mid <= hi
    ensures |Stream(rows, queue, lo, lo, hi)| == |Stream(rows, queue, mid, mid, hi)| + |Stream(rows, queue, lo, lo, mid)|
    ensures Stream(rows, queue, lo, lo, mid) == [] ==> Stream(rows, queue, lo, lo, hi) == Stream(rows, queue, mid, mid, hi)
  {
    hide Scan;
    if queue != [] {
      StreamSplit(rows, queue[1..], lo, mid, hi);
      ScanSplit(rows, queue[0], lo, mid, hi);
      assert Stream(rows, queue, lo, lo, mid) == [] ==> Scan(rows, queue[0], lo, mid) == [] && Stream(rows, queue[1..], lo, lo, mid) == [];
    }
  }

  lemma {:induction false} StreamOfNothing(rows: Rows, queue: seq<int>, lo: int, hi: int)
    requires lo >= hi
    ensures Stream(rows, queue, lo, lo, hi) == []
  {
    if queue != [] {
      StreamOfNothing(rows, queue[1..], lo, hi);
    }
  }

  lemma {:induction false} StreamHasScan(rows: Rows, queue: seq<int>, lo: int, hi: int, i: nat)
    requires i < |queue| && Stream(rows, queue, lo, lo, hi) == []
    ensures Scan(rows, queue[i], lo, hi) == []
  {
    hide Scan;
    assert |Stream(rows, queue, lo, lo, hi)| == |Scan(rows, queue[0], lo, hi)| + |Stream(rows, queue[1..], lo, lo, hi)|;
    if i > 0 {
      StreamHasScan(rows, queue[1..], lo, hi, i - 1);
    }
  }

  // ----- the code: rows are lost exactly at the stops -----

  /** One pull, accounted for: delivered, still reachable, or skipped for good. */
  lemma PullLoses(rows: Rows, q0: seq<int>, c0: int, hi: int, before: seq<Pull>, p: Pull)
    requires Follows(rows, q0, c0, hi, AsCoded, before, p)
    requires p.queue != [] ==> p.start <= hi
    ensures |Stream(rows, p.queue, p.start, p.start, hi)| ==
            |p.out| + |Stream(rows, p.next, p.cursor, p.cursor, hi)| + |Skipped(rows, p)|
    ensures Skipped(rows, p) == [] ==>
              Stream(rows, p.queue, p.start, p.start, hi) == p.out + Stream(rows, p.next, p.cursor, p.cursor, hi)
  {
    hide Scan, PullBatch;
    BatchConserves(rows, p.queue, p.start, p.start, hi, 0);
    BatchSplits(rows, p.queue, p.start, p.start, hi, 0);
    if p.next != [] {
      StreamSplit(rows, p.next[1..], p.start, p.cursor, hi);
      var head := Scan(rows, p.next[0], p.cursor, hi);
      assert Stream(rows, p.next, p.cursor, p.start, hi) == head + Stream(rows, p.next[1..], p.start, p.start, hi);
      assert Stream(rows, p.next, p.cursor, p.cursor, hi) == head + Stream(rows, p.next[1..], p.cursor, p.cursor, hi);
    }
  }

  /** Every row of the handshake's range is delivered, still to come, or was skipped at a stop. */
  lemma {:induction false} NothingElseIsLost(rows: Rows, q0: seq<int>, c0: int, hi: int, ps: seq<Pull>)
    requires c0 <= hi && Session(rows, q0, c0, hi, AsCoded, ps)
    ensures |Stream(rows, q0, c0, c0, hi)| ==
            |Delivered(ps)| + |Stream(rows, QueueAfter(q0, ps), CursorAfter(c0, ps), CursorAfter(c0, ps), hi)| + SkippedCount(rows, ps)
  {
    hide Scan, PullBatch, Stream, Skipped, Follows, Suffix;
    if ps != [] {
      var before, p := ps[..|ps| - 1], ps[|ps| - 1];
      FollowsStart(rows, q0, c0, hi, AsCoded, before, p);
      NothingElseIsLost(rows, q0, c0, hi, before);
      CursorsStayInRange(rows, q0, c0, hi, AsCoded, before);
      PullLoses(rows, q0, c0, hi, before, p);
    }
  }

  lemma {:induction false} SkippedCountZero(rows: Rows, ps: seq<Pull>)
    ensures SkippedCount(rows, ps) == 0 <==> forall p <- ps :: Skipped(rows, p) == []
  {
    hide Skipped;
    if ps != [] {
      var before, p := ps[..|ps| - 1], ps[|ps| - 1];
      SkippedCountZero(rows, before);
      assert p in ps && forall x :: x in ps <==> x in before || x == p;
    }
  }

  lemma {:induction false} NoSkipKeepsStream(rows: Rows, q0: seq<int>, c0: int, hi: int, ps: seq<Pull>)
    requires c0 <= hi && Session(rows, q0, c0, hi, AsCoded, ps)
    requires forall p <- ps :: Skipped(rows, p) == []
    ensures Stream(rows, q0, c0, c0, hi) ==
            Delivered(ps) + Stream(rows, QueueAfter(q0, ps), CursorAfter(c0, ps), CursorAfter(c0, ps), hi)
  {
    hide Scan, PullBatch, Stream, Skipped, Follows, Suffix;
    if ps == [] {
      assert [] + Stream(rows, q0, c0, c0, hi) == Stream(rows, q0, c0, c0, hi);
    } else {
      var before, p := ps[..|ps| - 1], ps[|ps| - 1];
      assert p in ps && forall x <- before :: x in ps;
      FollowsStart(rows, q0, c0, hi, AsCoded, before, p);
      NoSkipKeepsStream(rows, q0, c0, hi, before);
      CursorsStayInRange(rows, q0, c0, hi, AsCoded, before);
      PullLoses(rows, q0, c0, hi, before, p);
      assert Delivered(before) + (p.out + Stream(rows, p.next, p.cursor, p.cursor, hi)) ==
             (Delivered(before) + p.out) + Stream(rows, p.next, p.cursor, p.cursor, hi);
    }
  }

  /** A finished session has delivered exactly the rows since the client's cursor, in order, iff no
      stop skipped a row of a type still queued. */
  lemma CompleteIffNothingSkipped(rows: Rows, q0: seq<int>, c0: int, hi: int, ps: seq<Pull>)
    requires c0 <= hi && Session(rows, q0, c0, hi, AsCoded, ps) && QueueAfter(q0, ps) == []
    ensures Delivered(ps) == Stream(rows, q0, c0, c0, hi) <==> forall p <- ps :: Skipped(rows, p) == []
  {
    hide Scan, PullBatch, Stream, Skipped;
    EmptyStream(rows, CursorAfter(c0, ps), CursorAfter(c0, ps), hi);
    NothingElseIsLost(rows, q0, c0, hi, ps);
    SkippedCountZero(rows, ps);
    if forall p <- ps :: Skipped(rows, p) == [] {
      NoSkipKeepsStream(rows, q0, c0, hi, ps);
    }
  }

  /** In particular a session that never stops inside a type with others queued is complete. */
  lemma OnlyInnerStopsSkip(rows: Rows, p: Pull)
    requires !StopsInsideWithMoreQueued(p)
    ensures Skipped(rows, p) == []
  {
    if |p.next| > 1 {
      StreamOfNothing(rows, p.next[1..], p.start, p.cursor);
    }
  }

  /** ... and reads every type from the client's own cursor. */
  lemma {:induction false} BasesStay(rows: Rows, q0: seq<int>, c0: int, hi: int, ps: seq<Pull>)
    requires c0 <= hi && Session(rows, q0, c0, hi, AsCoded, ps)
    requires forall p <- ps :: !StopsInsideWithMoreQueued(p)
    ensures |QueueAfter(q0, ps)| > 1 ==> CursorAfter(c0, ps) == c0
    ensures |Bases(AsCoded, c0, ps)| == |q0| - |QueueAfter(q0, ps)| + 1
    ensures forall i | 0 <= i < |Bases(AsCoded, c0, ps)| && (i == 0 || i < |q0|) :: Bases(AsCoded, c0, ps)[i] == c0
  {
    hide Scan, PullBatch, Suffix, Follows;
    if ps != [] {
      var before, p := ps[..|ps| - 1], ps[|ps| - 1];
      assert p in ps && forall x <- before :: x in ps;
      BasesStay(rows, q0, c0, hi, before);
      FollowsStart(rows, q0, c0, hi, AsCoded, before, p);
      CursorsStayInRange(rows, q0, c0, hi, AsCoded, before);
      PullProgresses(rows, q0, c0, hi, AsCoded, before, p);
    }
  }

  // ----- failures -----

  /** The cursor saved inside a type has a row of that type behind it. */
  lemma {:induction false} StopLeavesRows(rows: Rows, queue: seq<int>, cursor: int, reset: int, hi: int, fill: nat)
    requires fill < MAX_BATCH_SIZE
    requires PullBatch(rows, queue, cursor, reset, hi, fill).Batch?
    ensures var r := PullBatch(rows, queue, cursor, reset, hi, fill);
            r.queue != [] ==> (r.cursor == reset && |r.queue| < |queue|) || Scan(rows, r.queue[0], r.cursor, hi) != []
  {
    hide Scan, Fit, Weight, EntrySize;
    if queue != [] {
      var unread := Scan(rows, queue[0], cursor, hi);
      FitCases(unread, fill);
      var n := Fit(unread, fill);
      if n < |unread| {
        ScanCut(rows, queue[0], cursor, hi, n - 1);
      } else if fill + Weight(unread) < MAX_BATCH_SIZE {
        StopLeavesRows(rows, queue[1..], reset, reset, hi, fill + Weight(unread));
      }
    }
  }

  /** Every queued type is known and has a row in the range. */
  ghost predicate AllUnread(rows: Rows, queue: seq<int>, lo: int, hi: int) {
    forall i | 0 <= i < |queue| :: IsKind(queue[i]) && Scan(rows, queue[i], lo, hi) != []
  }

  lemma HeadIsUnread(rows: Rows, q0: seq<int>, c0: int, hi: int, policy: Policy, ps: seq<Pull>)
    requires ps != [] && Session(rows, q0, c0, hi, policy, ps) && QueueAfter(q0, ps) != []
    ensures var p := ps[|ps| - 1];
            (p.cursor == ResetOf(policy, c0, p.start) && |p.next| < |p.queue|) || Scan(rows, p.next[0], p.cursor, hi) != []
  {
    hide Scan, PullBatch;
    var p := ps[|ps| - 1];
    StopLeavesRows(rows, p.queue, p.start, ResetOf(policy, c0, p.start), hi, 0);
  }

  /** A pull that skips nothing passes no row of a type it leaves in the queue. */
  lemma PullLeavesUntouched(rows: Rows, q0: seq<int>, c0: int, hi: int, before: seq<Pull>, p: Pull, i: nat)
    requires Follows(rows, q0, c0, hi, AsCoded, before, p) && c0 <= p.start
    requires Skipped(rows, p) == [] && 0 < i < |p.next|
    ensures var j := i + |p.queue| - |p.next|;
            0 < j < |p.queue| && (Scan(rows, p.queue[j], c0, p.start) == [] ==> Scan(rows, p.next[i], c0, p.cursor) == [])
  {
    hide Scan, PullBatch, Stream, Suffix, Follows;
    PullProgresses(rows, q0, c0, hi, AsCoded, before, p);
    SuffixAt(p.next, p.queue);
    StreamHasScan(rows, p.next[1..], p.start, p.cursor, i - 1);
    ScanSplit(rows, p.next[i], c0, p.start, p.cursor);
  }

  /** As long as nothing was skipped, every queued type still has all its rows ahead of the cursor. */
  lemma {:induction false} QueuedTypesUntouched(rows: Rows, q0: seq<int>, c0: int, hi: int, ps: seq<Pull>, i: nat)
    requires c0 <= hi && Session(rows, q0, c0, hi, AsCoded, ps)
    requires forall p <- ps :: Skipped(rows, p) == []
    requires 0 < i < |QueueAfter(q0, ps)|
    ensures Scan(rows, QueueAfter(q0, ps)[i], c0, CursorAfter(c0, ps)) == []
  {
    hide Scan, PullBatch, Stream, Suffix, Follows, Session, Skipped;
    if ps == [] {
      EmptyRange(rows, q0[i], c0);
    } else {
      var before, p := ps[..|ps| - 1], ps[|ps| - 1];
      SessionEnds(rows, q0, c0, hi, AsCoded, ps);
      assert p in ps && forall x <- before :: x in ps;
      FollowsStart(rows, q0, c0, hi, AsCoded, before, p);
      CursorsStayInRange(rows, q0, c0, hi, AsCoded, before);
      PullProgresses(rows, q0, c0, hi, AsCoded, before, p);
      PullLeavesUntouched(rows, q0, c0, hi, before, p, i);
      QueuedTypesUntouched(rows, q0, c0, hi, before, i + |p.queue| - |p.next|);
    }
  }

  /** The head as well has rows ahead. */
  lemma HeadAhead(rows: Rows, q0: seq<int>, c0: int, hi: int, ps: seq<Pull>)
    requires c0 <= hi && Session(rows, q0, c0, hi, AsCoded, ps)
    requires forall p <- ps :: Skipped(rows, p) == []
    requires QueueAfter(q0, ps) != [] && AllUnread(rows, q0, c0, hi)
    ensures Scan(rows, QueueAfter(q0, ps)[0], CursorAfter(c0, ps), hi) != []
  {
    hide Scan, PullBatch, Stream;
    if ps != [] {
      var before, p := ps[..|ps| - 1], ps[|ps| - 1];
      HeadIsUnread(rows, q0, c0, hi, AsCoded, ps);
      CursorsStayInRange(rows, q0, c0, hi, AsCoded, ps);
      if p.cursor == p.start && |p.next| < |p.queue| {
        CursorsStayInRange(rows, q0, c0, hi, AsCoded, before);
        PullProgresses(rows, q0, c0, hi, AsCoded, before, p);
        var k := |p.queue| - |p.next|;
        assert forall x <- before :: x in ps;
        QueuedTypesUntouched(rows, q0, c0, hi, before, k);
        ScanSplit(rows, p.next[0], c0, p.cursor, hi);
        assert p.next[0] == q0[|q0| - |p.next|];
      }
    }
  }

  /** A session in which nothing was skipped never runs into an error. */
  lemma NoSkipNoFailure(rows: Rows, q0: seq<int>, c0: int, hi: int, ps: seq<Pull>)
    requires c0 <= hi && Session(rows, q0, c0, hi, AsCoded, ps)
    requires forall p <- ps :: Skipped(rows, p) == []
    requires AllUnread(rows, q0, c0, hi)
    ensures PullBatch(rows, QueueAfter(q0, ps), CursorAfter(c0, ps), CursorAfter(c0, ps), hi, 0).Batch?
  {
    hide Scan, PullBatch, Stream, Skipped, Session, Suffix;
    var queue, cursor := QueueAfter(q0, ps), CursorAfter(c0, ps);
    CursorsStayInRange(rows, q0, c0, hi, AsCoded, ps);
    SuffixAt(queue, q0);
    forall i | 0 <= i < |queue| ensures IsKind(queue[i]) && Scan(rows, queue[i], StartOf(i, cursor, cursor), hi) != [] {
      if i == 0 {
        HeadAhead(rows, q0, c0, hi, ps);
      } else {
        QueuedTypesUntouched(rows, q0, c0, hi, ps, i);
        ScanSplit(rows, queue[i], c0, cursor, hi);
      }
    }
    NoSpuriousFailure(rows, queue, cursor, cursor, hi, 0);
  }

  /** A type that a call finishes had a row to deliver (or is read from a negative cursor). */
  lemma {:induction false} FinishedTypesHadRows(rows: Rows, queue: seq<int>, cursor: int, reset: int, hi: int, fill: nat, i: nat)
    requires fill < MAX_BATCH_SIZE
    requires PullBatch(rows, queue, cursor, reset, hi, fill).Batch?
    requires i < |queue| - |PullBatch(rows, queue, cursor, reset, hi, fill).queue|
    ensures StartOf(i, cursor, reset) < 0 || Scan(rows, queue[i], StartOf(i, cursor, reset), hi) != []
  {
    hide Scan, Weight, EntrySize;
    if i > 0 {
      var unread := Scan(rows, queue[0], cursor, hi);
      FitCases(unread, fill);
      FinishedTypesHadRows(rows, queue[1..], reset, reset, hi, fill + Weight(unread), i - 1);
    }
  }

  /** Some queued type has no row left ahead of the cursor. */
  ghost predicate Starved(rows: Rows, queue: seq<int>, cursor: int, hi: int) {
    exists i | 0 <= i < |queue| :: Scan(rows, queue[i], cursor, hi) == []
  }

  lemma PullKeepsStarved(rows: Rows, q0: seq<int>, c0: int, hi: int, before: seq<Pull>, p: Pull)
    requires Follows(rows, q0, c0, hi, AsCoded, before, p)
    requires 0 <= p.start <= hi && Starved(rows, p.queue, p.start, hi)
    ensures p.next != [] && p.start <= p.cursor <= hi && Starved(rows, p.next, p.cursor, hi)
  {
    hide Scan, PullBatch, Stream;
    var i :| 0 <= i < |p.queue| && Scan(rows, p.queue[i], p.start, hi) == [];
    BatchSplits(rows, p.queue, p.start, p.start, hi, 0);
    var finished := |p.queue| - |p.next|;
    if i < finished {
      FinishedTypesHadRows(rows, p.queue, p.start, p.start, hi, 0, i);
    }
    assert p.next[i - finished] == p.queue[i];
    PullProgresses(rows, q0, c0, hi, AsCoded, before, p);
    ScanSplit(rows, p.queue[i], p.start, p.cursor, hi);
  }

  /** Once a queued type has lost its last row to a stop, the session can never finish: whatever
      pulls still succeed, the queue stays non-empty. */
  lemma {:induction false} StarvedNeverFinishes(rows: Rows, q0: seq<int>, c0: int, hi: int, ps: seq<Pull>, k: nat)
    requires c0 <= hi && Session(rows, q0, c0, hi, AsCoded, ps) && k <= |ps|
    requires 0 <= CursorAfter(c0, ps[..k]) && Starved(rows, QueueAfter(q0, ps[..k]), CursorAfter(c0, ps[..k]), hi)
    ensures QueueAfter(q0, ps) != [] && Starved(rows, QueueAfter(q0, ps), CursorAfter(c0, ps), hi)
    ensures 0 <= CursorAfter(c0, ps)
  {
    hide Scan, PullBatch, Starved;
    if k == |ps| {
      assert ps[..k] == ps;
      StarvedIsNonEmpty(rows, QueueAfter(q0, ps), CursorAfter(c0, ps), hi);
    } else {
      var before, p := ps[..|ps| - 1], ps[|ps| - 1];
      assert before[..k] == ps[..k];
      StarvedNeverFinishes(rows, q0, c0, hi, before, k);
      CursorsStayInRange(rows, q0, c0, hi, AsCoded, before);
      PullKeepsStarved(rows, q0, c0, hi, before, p);
    }
  }

  lemma StarvedIsNonEmpty(rows: Rows, queue: seq<int>, cursor: int, hi: int)
    requires Starved(rows, queue, cursor, hi)
    ensures queue != []
  {
  }

  /** While no queued type is starved, the next pull succeeds. */
  lemma UnstarvedSucceeds(rows: Rows, q0: seq<int>, c0: int, hi: int, ps: seq<Pull>)
    requires c0 <= hi && Session(rows, q0, c0, hi, AsCoded, ps) && AllUnread(rows, q0, c0, hi)
    requires !Starved(rows, QueueAfter(q0, ps), CursorAfter(c0, ps), hi)
    ensures PullBatch(rows, QueueAfter(q0, ps), CursorAfter(c0, ps), CursorAfter(c0, ps), hi, 0).Batch?
  {
    hide Scan, PullBatch, Session, Suffix;
    CursorsStayInRange(rows, q0, c0, hi, AsCoded, ps);
    var queue := QueueAfter(q0, ps);
    SuffixAt(queue, q0);
    NoSpuriousFailure(rows, queue, CursorAfter(c0, ps), CursorAfter(c0, ps), hi, 0);
  }

  // ----- the documented variant: always complete, never stuck -----

  /** With the reset to the handshake cursor, nothing is lost or duplicated over the whole session. */
  lemma {:induction false} VariantConserves(rows: Rows, q0: seq<int>, c0: int, hi: int, ps: seq<Pull>)
    requires Session(rows, q0, c0, hi, AsDocumented, ps)
    ensures Stream(rows, q0, c0, c0, hi) ==
            Delivered(ps) + Stream(rows, QueueAfter(q0, ps), CursorAfter(c0, ps), c0, hi)
  {
    hide Scan, PullBatch, Stream;
    if ps != [] {
      var before, p := ps[..|ps| - 1], ps[|ps| - 1];
      VariantConserves(rows, q0, c0, hi, before);
      BatchConserves(rows, p.queue, p.start, c0, hi, 0);
      assert Delivered(before) + (p.out + Stream(rows, p.next, p.cursor, c0, hi)) ==
             (Delivered(before) + p.out) + Stream(rows, p.next, p.cursor, c0, hi);
    }
  }

  /** ... and no pull of it fails. */
  lemma VariantNeverFails(rows: Rows, q0: seq<int>, c0: int, hi: int, ps: seq<Pull>)
    requires c0 <= hi && Session(rows, q0, c0, hi, AsDocumented, ps) && AllUnread(rows, q0, c0, hi)
    ensures PullBatch(rows, QueueAfter(q0, ps), CursorAfter(c0, ps), c0, hi, 0).Batch?
  {
    hide Scan, PullBatch, Stream, Session, Suffix;
    var queue, cursor := QueueAfter(q0, ps), CursorAfter(c0, ps);
    CursorsStayInRange(rows, q0, c0, hi, AsDocumented, ps);
    SuffixAt(queue, q0);
    forall i | 0 <= i < |queue| ensures IsKind(queue[i]) && Scan(rows, queue[i], StartOf(i, cursor, c0), hi) != [] {
      if i == 0 && ps != [] {
        HeadIsUnread(rows, q0, c0, hi, AsDocumented, ps);
      }
    }
    NoSpuriousFailure(rows, queue, cursor, c0, hi, 0);
  }
}
