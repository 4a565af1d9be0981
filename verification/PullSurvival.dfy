/** Whether a pull session can come to its end, told from the rows alone before its first pull. */
module PullSurvival {
  import opened SyncModel
  import opened Scans
  import opened PullBatches
  import opened PullSessions
  import opened PullCompleteness
  import opened PullCuts
  import opened PullEnds
  import opened Replicas

  /** The entries above a USN. */
  function Newer(es: seq<Entry>, usn: int): (newer: seq<Entry>)
    ensures |newer| <= |es|
  {
    if es == [] then []
    else if es[0].row.usn > usn then [es[0]] + Newer(es[1..], usn)
    else Newer(es[1..], usn)
  }

  /** Every kind of one sequence occurs in the other. */
  ghost predicate KeepsKinds(es: seq<Entry>, left: seq<Entry>) {
    forall e <- es :: exists l <- left :: l.key.kind == e.key.kind
  }

  /** Take the unread stream in batches of the byte budget. A cut between two kinds loses nothing. A cut
      inside a kind loses every older row still to come, and no kind still to come may lose all of its
      rows. */
  ghost predicate Survives(unread: seq<Entry>)
    decreases |unread|
  {
    unread == [] ||
    (var n := Fit(unread, 0);
     n == |unread|
     || (0 < n < |unread|
         && if unread[n - 1].key.kind != unread[n].key.kind then Survives(unread[n..])
            else
              var left := Newer(unread[n..], unread[n - 1].row.usn);
              KeepsKinds(unread[n..], left) && Survives(left)))
  }

  // ----- a stream without its older rows is the stream from a later cursor -----

  lemma {:induction false} NewerOfConcat(a: seq<Entry>, b: seq<Entry>, usn: int)
    ensures Newer(a + b, usn) == Newer(a, usn) + Newer(b, usn)
  {
    if a == [] {
      assert a + b == b;
    } else {
      assert (a + b)[1..] == a[1..] + b && (a + b)[0] == a[0];
      NewerOfConcat(a[1..], b, usn);
      Associates([a[0]], Newer(a[1..], usn), Newer(b, usn));
    }
  }

  lemma {:induction false} NewerOfNewer(es: seq<Entry>, usn: int)
    requires forall e <- es :: e.row.usn > usn
    ensures Newer(es, usn) == es
  {
    if es != [] {
      assert es[0] in es && forall e <- es[1..] :: e in es;
      NewerOfNewer(es[1..], usn);
    }
  }

  lemma {:induction false} NewerOfOlder(es: seq<Entry>, usn: int)
    requires forall e <- es :: e.row.usn <= usn
    ensures Newer(es, usn) == []
  {
    if es != [] {
      assert es[0] in es && forall e <- es[1..] :: e in es;
      NewerOfOlder(es[1..], usn);
    }
  }

  lemma NewerOfScan(rows: Rows, kind: int, lo: int, mid: int, hi: int)
    requires lo <= mid <= hi
    ensures Newer(Scan(rows, kind, lo, hi), mid - 1) == Scan(rows, kind, mid, hi)
  {
    hide Scan, Newer;
    ScanSplit(rows, kind, lo, mid, hi);
    ScanSound(rows, kind, lo, mid);
    ScanSound(rows, kind, mid, hi);
    NewerOfOlder(Scan(rows, kind, lo, mid), mid - 1);
    NewerOfNewer(Scan(rows, kind, mid, hi), mid - 1);
    NewerOfConcat(Scan(rows, kind, lo, mid), Scan(rows, kind, mid, hi), mid - 1);
  }

  lemma {:induction false} NewerOfStream(rows: Rows, queue: seq<int>, lo: int, mid: int, hi: int)
    requires lo <= mid <= hi
    ensures Newer(Stream(rows, queue, lo, lo, hi), mid - 1) == Stream(rows, queue, mid, mid, hi)
  {
    hide Scan;
    if queue != [] {
      hide Newer;
      NewerOfScan(rows, queue[0], lo, mid, hi);
      NewerOfStream(rows, queue[1..], lo, mid, hi);
      NewerOfConcat(Scan(rows, queue[0], lo, hi), Stream(rows, queue[1..], lo, lo, hi), mid - 1);
    }
  }

  // ----- kinds -----

  lemma {:induction false} StreamHasKind(rows: Rows, queue: seq<int>, lo: int, hi: int, i: nat)
    requires i < |queue| && Scan(rows, queue[i], lo, hi) != []
    ensures exists e <- Stream(rows, queue, lo, lo, hi) :: e.key.kind == queue[i]
  {
    hide Scan;
    var head := Scan(rows, queue[0], lo, hi);
    if i == 0 {
      ScanSound(rows, queue[0], lo, hi);
      assert head[0] in head && head[0] in Stream(rows, queue, lo, lo, hi);
    } else {
      StreamHasKind(rows, queue[1..], lo, hi, i - 1);
      var e :| e in Stream(rows, queue[1..], lo, lo, hi) && e.key.kind == queue[i];
      assert e in Stream(rows, queue, lo, lo, hi);
    }
  }

  lemma {:induction false} KindHasScan(rows: Rows, queue: seq<int>, lo: int, hi: int, e: Entry)
    requires e in Stream(rows, queue, lo, lo, hi)
    ensures Scan(rows, e.key.kind, lo, hi) != []
  {
    hide Scan;
    if e in Scan(rows, queue[0], lo, hi) {
      ScanSound(rows, queue[0], lo, hi);
    } else {
      KindHasScan(rows, queue[1..], lo, hi, e);
    }
  }

  /** The kinds of `es` are those queued, and a stream of the queue keeps them iff it has a row of each. */
  lemma KeepsKindsIff(rows: Rows, queue: seq<int>, mid: int, hi: int, es: seq<Entry>)
    requires forall e <- es :: e.key.kind in queue
    requires forall i | 0 <= i < |queue| :: exists e <- es :: e.key.kind == queue[i]
    ensures KeepsKinds(es, Stream(rows, queue, mid, mid, hi)) <==> !Starved(rows, queue, mid, hi)
  {
    hide Scan, Stream;
    var left := Stream(rows, queue, mid, mid, hi);
    if !Starved(rows, queue, mid, hi) {
      forall e | e in es ensures exists l <- left :: l.key.kind == e.key.kind {
        var i :| 0 <= i < |queue| && queue[i] == e.key.kind;
        StreamHasKind(rows, queue, mid, hi, i);
      }
    }
    if KeepsKinds(es, left) {
      forall i | 0 <= i < |queue| ensures Scan(rows, queue[i], mid, hi) != [] {
        var e :| e in es && e.key.kind == queue[i];
        var l :| l in left && l.key.kind == e.key.kind;
        KindHasScan(rows, queue, mid, hi, l);
      }
    }
  }

  // ----- one pull -----

  /** No row from the cursor on has a negative USN, as is the case if the cursor is not negative. */
  ghost predicate NoneNegative(rows: Rows, c0: int) {
    forall k <- rows :: rows[k].usn >= c0 ==> rows[k].usn >= 0
  }

  /** A successful pull that is not the last, with a row ahead in every queued type. */
  ghost predicate InnerPull(rows: Rows, queue: seq<int>, start: int, hi: int, p: Pull) {
    && start <= hi && Ascending(queue) && AllUnread(rows, queue, start, hi) && p.next != []
    && PullBatch(rows, queue, start, start, hi, 0) == Batch(p.out, p.next, p.cursor)
  }

  ghost predicate AtTypesEnd(queue: seq<int>, start: int, p: Pull) {
    p.cursor == start && |p.next| < |queue|
  }

  /** The unread rows are what the pull delivers, then the rest of the type it stops at, then the rows of
      the types behind it. */
  lemma CutShape(rows: Rows, queue: seq<int>, start: int, hi: int, p: Pull)
    requires InnerPull(rows, queue, start, hi, p)
    ensures var unread := Stream(rows, queue, start, start, hi);
            var head := Scan(rows, p.next[0], p.cursor, hi);
            && head != [] && |p.out| == Fit(unread, 0)
            && unread == p.out + (head + Stream(rows, p.next[1..], start, start, hi))
    ensures Ascending(p.next) && AllUnread(rows, p.next, start, hi) && start <= p.cursor <= hi
  {
    hide Scan, PullBatch, Stream, Fit, Splits;
    BatchIsBudgetPrefix(rows, queue, start, start, hi, 0);
    BatchConserves(rows, queue, start, start, hi, 0);
    BatchSplits(rows, queue, start, start, hi, 0);
    SplitsQueue(rows, queue, start, hi, Batch(p.out, p.next, p.cursor));
    SplitsSuffix(rows, queue, start, hi, Batch(p.out, p.next, p.cursor));
    StopsBehindLastRow(rows, queue, start, start, hi, 0);
    StreamStep(rows, p.next, p.cursor, start, hi);
    AscendingSuffix(p.next, queue);
    SuffixAt(p.next, queue);
  }

  lemma SplitsSuffix(rows: Rows, queue: seq<int>, start: int, hi: int, r: BatchResult)
    requires r.Batch? && Splits(rows, queue, start, start, hi, r)
    ensures Suffix(r.queue, queue) && |r.queue| <= |queue|
  {
  }

  /** Stopping at the end of a type cuts between two kinds and leaves the unread rows as they are. */
  lemma CutBetweenTypes(rows: Rows, queue: seq<int>, start: int, hi: int, p: Pull)
    requires InnerPull(rows, queue, start, hi, p) && AtTypesEnd(queue, start, p)
    ensures var unread := Stream(rows, queue, start, start, hi);
            var n := Fit(unread, 0);
            && 0 < n < |unread| && unread[n - 1].key.kind != unread[n].key.kind
            && unread[n..] == Stream(rows, p.next, p.cursor, p.cursor, hi)
  {
    hide Scan, PullBatch, Stream, Fit, Splits;
    var unread := Stream(rows, queue, start, start, hi);
    CutShape(rows, queue, start, hi, p);
    FitCases(unread, 0);
    BatchSplits(rows, queue, start, start, hi, 0);
    SplitsQueue(rows, queue, start, hi, Batch(p.out, p.next, p.cursor));
    var head := Scan(rows, p.next[0], p.cursor, hi);
    ScanSound(rows, p.next[0], p.cursor, hi);
    StreamStep(rows, p.next, p.cursor, p.cursor, hi);
    assert head[0] in head && p.out[|p.out| - 1] in p.out;
    assert unread[|p.out| - 1] == p.out[|p.out| - 1] && unread[|p.out|] == head[0];
  }

  /** Stopping inside a type cuts this type, and the next pull finds the newer ones of the rows left. */
  lemma CutInsideType(rows: Rows, queue: seq<int>, start: int, hi: int, p: Pull)
    requires InnerPull(rows, queue, start, hi, p) && !AtTypesEnd(queue, start, p)
    ensures var unread := Stream(rows, queue, start, start, hi);
            var n := Fit(unread, 0);
            var after := Stream(rows, p.next, p.cursor, p.cursor, hi);
            && 0 < n < |unread| && unread[n - 1].key.kind == unread[n].key.kind
            && unread[n - 1].row.usn == p.cursor - 1 && unread[n - 1] in unread
            && after == Newer(unread[n..], p.cursor - 1)
            && (KeepsKinds(unread[n..], after) <==> !Starved(rows, p.next, p.cursor, hi))
  {
    hide Scan, PullBatch, Stream, Fit, Newer, KeepsKinds, Starved;
    var unread := Stream(rows, queue, start, start, hi);
    CutShape(rows, queue, start, hi, p);
    StopsBehindLastRow(rows, queue, start, start, hi, 0);
    var head, rest := Scan(rows, p.next[0], p.cursor, hi), Stream(rows, p.next[1..], start, start, hi);
    ScanSound(rows, p.next[0], p.cursor, hi);
    assert head[0] in head && unread[|p.out| - 1] == p.out[|p.out| - 1] && unread[|p.out|] == head[0];
    assert unread[|p.out|..] == head + rest;
    RestOfCut(rows, p.next, start, p.cursor, hi);
  }

  /** The rows behind a cut inside the head: dropping those below the cursor leaves what is read from it. */
  lemma RestOfCut(rows: Rows, next: seq<int>, start: int, cursor: int, hi: int)
    requires next != [] && start <= cursor <= hi
    requires Scan(rows, next[0], cursor, hi) != [] && AllUnread(rows, next, start, hi)
    ensures var left := Scan(rows, next[0], cursor, hi) + Stream(rows, next[1..], start, start, hi);
            var after := Stream(rows, next, cursor, cursor, hi);
            && after == Newer(left, cursor - 1)
            && (KeepsKinds(left, after) <==> !Starved(rows, next, cursor, hi))
  {
    hide Scan, Stream, Newer, KeepsKinds, Starved;
    var head, rest := Scan(rows, next[0], cursor, hi), Stream(rows, next[1..], start, start, hi);
    ScanSound(rows, next[0], cursor, hi);
    NewerOfNewer(head, cursor - 1);
    NewerOfStream(rows, next[1..], start, cursor, hi);
    NewerOfConcat(head, rest, cursor - 1);
    StreamStep(rows, next, cursor, cursor, hi);
    StreamKinds(rows, next[1..], start, start, hi);
    assert head[0] in head + rest;
    forall i | 0 <= i < |next| ensures exists e <- head + rest :: e.key.kind == next[i] {
      if i == 0 {
        assert head[0].key.kind == next[0] by { assert head[0] in head; }
      } else {
        StreamHasKind(rows, next[1..], start, hi, i - 1);
        var e :| e in rest && e.key.kind == next[i];
        assert e in head + rest;
      }
    }
    KeepsKindsIff(rows, next, cursor, hi, head + rest);
  }

  lemma SurvivesBetween(unread: seq<Entry>)
    requires 0 < Fit(unread, 0) < |unread| && unread[Fit(unread, 0) - 1].key.kind != unread[Fit(unread, 0)].key.kind
    ensures Survives(unread) <==> Survives(unread[Fit(unread, 0)..])
  {
    hide Fit;
  }

  lemma SurvivesInside(unread: seq<Entry>)
    requires 0 < Fit(unread, 0) < |unread| && unread[Fit(unread, 0) - 1].key.kind == unread[Fit(unread, 0)].key.kind
    ensures var n := Fit(unread, 0);
            var left := Newer(unread[n..], unread[n - 1].row.usn);
            Survives(unread) <==> KeepsKinds(unread[n..], left) && Survives(left)
  {
    hide Fit, Newer, KeepsKinds;
  }

  /** Whatever the stop: the unread rows survive iff every type still queued has a row ahead of the saved
      cursor and the rows the next pull finds survive. */
  lemma SurvivesOnward(rows: Rows, queue: seq<int>, start: int, hi: int, p: Pull)
    requires InnerPull(rows, queue, start, hi, p)
    ensures var unread, after := Stream(rows, queue, start, start, hi), Stream(rows, p.next, p.cursor, p.cursor, hi);
            && (Survives(unread) <==> !Starved(rows, p.next, p.cursor, hi) && Survives(after))
            && |after| < |unread|
            && (Starved(rows, p.next, p.cursor, hi) ==> exists e <- unread :: e.row.usn == p.cursor - 1)
  {
    hide Scan, PullBatch, Stream, Fit, Newer, KeepsKinds, Survives;
    var unread := Stream(rows, queue, start, start, hi);
    if AtTypesEnd(queue, start, p) {
      CutShape(rows, queue, start, hi, p);
      CutBetweenTypes(rows, queue, start, hi, p);
      SurvivesBetween(unread);
    } else {
      hide Starved;
      CutInsideType(rows, queue, start, hi, p);
      SurvivesInside(unread);
    }
  }

  // ----- the session -----

  /** A session that can finish can do so from each of its stages. */
  lemma FinishesFromEveryStage(rows: Rows, q0: seq<int>, c0: int, hi: int, ps: seq<Pull>, qs: seq<Pull>)
    requires Session(rows, q0, c0, hi, AsCoded, ps) && Session(rows, q0, c0, hi, AsCoded, qs)
    requires CanFinish(rows, q0, c0, hi, AsCoded, ps)
    ensures CanFinish(rows, q0, c0, hi, AsCoded, qs)
  {
    hide PullBatch, Session, Follows;
    var all :| ps <= all && Session(rows, q0, c0, hi, AsCoded, all) && Finished(q0, all);
    FinishedIsLast(rows, q0, c0, hi, AsCoded, all, qs);
    SessionIsDetermined(rows, q0, c0, hi, AsCoded, qs, all);
  }

  /** From a stage in which every queued type has a row ahead, a session can be continued to its end iff
      the rows ahead survive its cuts. */
  lemma StageFinishesIff(rows: Rows, q0: seq<int>, c0: int, hi: int, ps: seq<Pull>)
    requires c0 <= hi && NoneNegative(rows, c0) && Session(rows, q0, c0, hi, AsCoded, ps) && !Finished(q0, ps)
    requires var queue, cursor := QueueAfter(q0, ps), CursorAfter(c0, ps);
             c0 <= cursor <= hi && Ascending(queue) && AllUnread(rows, queue, cursor, hi)
    ensures CanFinish(rows, q0, c0, hi, AsCoded, ps) <==>
            Survives(Stream(rows, QueueAfter(q0, ps), CursorAfter(c0, ps), CursorAfter(c0, ps), hi))
    decreases |Stream(rows, QueueAfter(q0, ps), CursorAfter(c0, ps), CursorAfter(c0, ps), hi)|
  {
    hide Scan, PullBatch, Session, Follows, Stream, Survives, Starved, CanFinish, NoneNegative;
    var queue, cursor := QueueAfter(q0, ps), CursorAfter(c0, ps);
    NoSpuriousFailure(rows, queue, cursor, cursor, hi, 0);
    var r := NextBatch(rows, q0, c0, hi, AsCoded, ps);
    var p := Pull(queue, cursor, r.out, r.queue, r.cursor);
    var onward := ps + [p];
    IsNext(rows, q0, c0, hi, AsCoded, ps, p);
    SessionExtends(rows, q0, c0, hi, AsCoded, ps, p);
    if p.next == [] {
      LastPullTakesAll(rows, queue, cursor, hi, p);
      FinishedCanFinish(rows, q0, c0, hi, onward);
      FinishesFromEveryStage(rows, q0, c0, hi, onward, ps);
    } else {
      if CanFinish(rows, q0, c0, hi, AsCoded, ps) { FinishesFromEveryStage(rows, q0, c0, hi, ps, onward); }
      if CanFinish(rows, q0, c0, hi, AsCoded, onward) { FinishesFromEveryStage(rows, q0, c0, hi, onward, ps); }
      CutShape(rows, queue, cursor, hi, p);
      SurvivesOnward(rows, queue, cursor, hi, p);
      if Starved(rows, p.next, p.cursor, hi) {
        CutBehindNonNegative(rows, queue, c0, cursor, hi, p);
        StarvedCannotFinish(rows, q0, c0, hi, onward);
      } else {
        UnstarvedIsUnread(rows, p.next, cursor, p.cursor, hi);
        StageFinishesIff(rows, q0, c0, hi, onward);
      }
    }
  }

  lemma LastPullTakesAll(rows: Rows, queue: seq<int>, start: int, hi: int, p: Pull)
    requires PullBatch(rows, queue, start, start, hi, 0) == Batch(p.out, p.next, p.cursor) && p.next == []
    ensures Survives(Stream(rows, queue, start, start, hi))
  {
    hide Scan, PullBatch, Stream, Fit;
    BatchIsBudgetPrefix(rows, queue, start, start, hi, 0);
    BatchConserves(rows, queue, start, start, hi, 0);
    EmptyStream(rows, p.cursor, start, hi);
  }

  lemma FinishedCanFinish(rows: Rows, q0: seq<int>, c0: int, hi: int, all: seq<Pull>)
    requires Session(rows, q0, c0, hi, AsCoded, all) && Finished(q0, all)
    ensures CanFinish(rows, q0, c0, hi, AsCoded, all)
  {
    hide Session;
  }

  /** The cursor behind a row from `c0` on is not negative. */
  lemma CutBehindNonNegative(rows: Rows, queue: seq<int>, c0: int, start: int, hi: int, p: Pull)
    requires NoneNegative(rows, c0) && c0 <= start
    requires exists e <- Stream(rows, queue, start, start, hi) :: e.row.usn == p.cursor - 1
    ensures 0 <= p.cursor
  {
    hide Stream;
    StreamSound(rows, queue, start, hi);
  }

  lemma StarvedCannotFinish(rows: Rows, q0: seq<int>, c0: int, hi: int, ps: seq<Pull>)
    requires c0 <= hi && Session(rows, q0, c0, hi, AsCoded, ps)
    requires 0 <= CursorAfter(c0, ps) && Starved(rows, QueueAfter(q0, ps), CursorAfter(c0, ps), hi)
    ensures !CanFinish(rows, q0, c0, hi, AsCoded, ps)
  {
    hide Session, Starved;
    forall all | ps <= all && Session(rows, q0, c0, hi, AsCoded, all) ensures !Finished(q0, all) {
      if Finished(q0, all) {
        FinishedNeverStarved(rows, q0, c0, hi, all, ps);
      }
    }
  }

  lemma UnstarvedIsUnread(rows: Rows, queue: seq<int>, before: int, cursor: int, hi: int)
    requires AllUnread(rows, queue, before, hi) && !Starved(rows, queue, cursor, hi)
    ensures AllUnread(rows, queue, cursor, hi)
  {
    hide Scan;
  }

  /** Told before the first pull: a session can be brought to its end iff its unread rows survive the cuts. */
  lemma FinishesIffSurvives(rows: Rows, q0: seq<int>, c0: int, hi: int)
    requires c0 <= hi && NoneNegative(rows, c0) && Ascending(q0) && AllUnread(rows, q0, c0, hi)
    ensures CanFinish(rows, q0, c0, hi, AsCoded, []) <==> Survives(Stream(rows, q0, c0, c0, hi))
  {
    hide AllUnread, Stream, NoneNegative, Survives, CanFinish;
    StageFinishesIff(rows, q0, c0, hi, []);
  }

  /** Rows whose cuts are all clean survive them. */
  lemma CleanCutsSurvive(rows: Rows, q0: seq<int>, c0: int, hi: int)
    requires c0 <= hi && NoneNegative(rows, c0) && Ascending(q0) && AllUnread(rows, q0, c0, hi)
    requires CleanCuts(Stream(rows, q0, c0, c0, hi))
    ensures Survives(Stream(rows, q0, c0, c0, hi))
  {
    hide AllUnread, Stream, NoneNegative, Survives, CleanCuts, Session;
    EndsCompleteIffCleanCuts(rows, q0, c0, hi);
    FinishesIffSurvives(rows, q0, c0, hi);
  }
}
