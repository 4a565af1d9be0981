/** Which pull sessions come to an end. */
module PullEnds {
  import opened Scans
  import opened PullBatches
  import opened PullSessions
  import opened PullCompleteness
  import opened PullCuts

  ghost predicate Finished(q0: seq<int>, ps: seq<Pull>) {
    ps != [] && QueueAfter(q0, ps) == []
  }

  /** The pull that a session with these pulls makes next, if it succeeds. */
  function NextBatch(rows: Rows, q0: seq<int>, c0: int, hi: int, policy: Policy, ps: seq<Pull>): BatchResult {
    var cursor := CursorAfter(c0, ps);
    PullBatch(rows, QueueAfter(q0, ps), cursor, ResetOf(policy, c0, cursor), hi, 0)
  }

  /** No pull of the session, however long it goes on, fails. */
  ghost predicate NeverFails(rows: Rows, q0: seq<int>, c0: int, hi: int, policy: Policy, ps: seq<Pull>) {
    forall qs :: ps <= qs && Session(rows, q0, c0, hi, policy, qs) ==> NextBatch(rows, q0, c0, hi, policy, qs).Batch?
  }

  /** A session none of whose pulls fails goes on to its end. */
  lemma SessionGoesOn(rows: Rows, q0: seq<int>, c0: int, hi: int, policy: Policy, ps: seq<Pull>) returns (all: seq<Pull>)
    requires c0 <= hi && Session(rows, q0, c0, hi, policy, ps) && NeverFails(rows, q0, c0, hi, policy, ps)
    ensures ps <= all && Session(rows, q0, c0, hi, policy, all) && Finished(q0, all)
    decreases |QueueAfter(q0, ps)|, hi - CursorAfter(c0, ps)
  {
    hide PullBatch, Session, Follows;
    if Finished(q0, ps) {
      return ps;
    }
    var r := NextBatch(rows, q0, c0, hi, policy, ps);
    var p := Pull(QueueAfter(q0, ps), CursorAfter(c0, ps), r.out, r.queue, r.cursor);
    IsNext(rows, q0, c0, hi, policy, ps, p);
    SessionExtends(rows, q0, c0, hi, policy, ps, p);
    if p.next == [] {
      return ps + [p];
    }
    PullProgresses(rows, q0, c0, hi, policy, ps, p);
    all := SessionGoesOn(rows, q0, c0, hi, policy, ps + [p]);
  }

  lemma IsNext(rows: Rows, q0: seq<int>, c0: int, hi: int, policy: Policy, ps: seq<Pull>, p: Pull)
    requires p.queue == QueueAfter(q0, ps) && p.start == CursorAfter(c0, ps) && (ps != [] ==> p.queue != [])
    requires NextBatch(rows, q0, c0, hi, policy, ps) == Batch(p.out, p.next, p.cursor)
    ensures Follows(rows, q0, c0, hi, policy, ps, p)
  {
  }

  // ----- the code -----

  /** A session is determined by its length: of two, the shorter is the beginning of the longer. */
  lemma {:induction false} SessionIsDetermined(rows: Rows, q0: seq<int>, c0: int, hi: int, policy: Policy, short: seq<Pull>, long: seq<Pull>)
    requires Session(rows, q0, c0, hi, policy, short) && Session(rows, q0, c0, hi, policy, long) && |short| <= |long|
    ensures short <= long
    decreases |long|
  {
    hide PullBatch, Follows;
    if long != [] {
      var before, last := long[..|long| - 1], long[|long| - 1];
      if |short| < |long| {
        SessionIsDetermined(rows, q0, c0, hi, policy, short, before);
      } else {
        var a := short[|short| - 1];
        SessionIsDetermined(rows, q0, c0, hi, policy, short[..|short| - 1], before);
        assert short[..|short| - 1] == before;
        FollowsStart(rows, q0, c0, hi, policy, before, a);
        FollowsStart(rows, q0, c0, hi, policy, before, last);
      }
    }
  }

  /** The longer session shows what the next pull of the shorter one delivers. */
  lemma {:induction false} NextOfLonger(rows: Rows, q0: seq<int>, c0: int, hi: int, ps: seq<Pull>, all: seq<Pull>)
    requires ps < all && Session(rows, q0, c0, hi, AsCoded, all)
    ensures var p := all[|ps|];
            && p.queue == QueueAfter(q0, ps) && p.start == CursorAfter(c0, ps)
            && PullBatch(rows, p.queue, p.start, p.start, hi, 0) == Batch(p.out, p.next, p.cursor)
    decreases |all|
  {
    hide PullBatch, Follows;
    var before, p := all[..|all| - 1], all[|all| - 1];
    if before == ps {
      FollowsStart(rows, q0, c0, hi, AsCoded, before, p);
    } else {
      NextOfLonger(rows, q0, c0, hi, ps, before);
    }
  }

  lemma NoPullsYet(rows: Rows, q0: seq<int>, c0: int, hi: int)
    ensures Session(rows, q0, c0, hi, AsCoded, [])
  {
  }

  /** No pull of the session, however long it goes on, leaves a queued type without a row ahead. */
  ghost predicate NeverStarves(rows: Rows, q0: seq<int>, c0: int, hi: int, ps: seq<Pull>) {
    forall qs :: ps <= qs && Session(rows, q0, c0, hi, AsCoded, qs) ==> !Starved(rows, QueueAfter(q0, qs), CursorAfter(c0, qs), hi)
  }

  ghost predicate CanFinish(rows: Rows, q0: seq<int>, c0: int, hi: int, policy: Policy, ps: seq<Pull>) {
    exists all :: ps <= all && Session(rows, q0, c0, hi, policy, all) && Finished(q0, all)
  }

  /** A session can be continued to its end iff none of its continuations starves a queued type. */
  lemma FinishesIffNeverStarved(rows: Rows, q0: seq<int>, c0: int, hi: int, ps: seq<Pull>)
    requires 0 <= c0 <= hi && AllUnread(rows, q0, c0, hi) && Session(rows, q0, c0, hi, AsCoded, ps)
    ensures CanFinish(rows, q0, c0, hi, AsCoded, ps) <==> NeverStarves(rows, q0, c0, hi, ps)
  {
    hide PullBatch, Session, Starved, AllUnread;
    if NeverStarves(rows, q0, c0, hi, ps) {
      forall qs | ps <= qs && Session(rows, q0, c0, hi, AsCoded, qs)
        ensures NextBatch(rows, q0, c0, hi, AsCoded, qs).Batch?
      {
        UnstarvedSucceeds(rows, q0, c0, hi, qs);
      }
      var all := SessionGoesOn(rows, q0, c0, hi, AsCoded, ps);
    }
    if CanFinish(rows, q0, c0, hi, AsCoded, ps) {
      var all :| ps <= all && Session(rows, q0, c0, hi, AsCoded, all) && Finished(q0, all);
      forall qs | ps <= qs && Session(rows, q0, c0, hi, AsCoded, qs)
        ensures !Starved(rows, QueueAfter(q0, qs), CursorAfter(c0, qs), hi)
      {
        SessionStaysAbove(rows, q0, c0, hi, qs);
        FinishedNeverStarved(rows, q0, c0, hi, all, qs);
      }
    }
  }

  lemma {:induction false} SessionStaysAbove(rows: Rows, q0: seq<int>, c0: int, hi: int, ps: seq<Pull>)
    requires c0 <= hi && Session(rows, q0, c0, hi, AsCoded, ps)
    ensures c0 <= CursorAfter(c0, ps)
  {
    hide PullBatch, Follows;
    if ps != [] {
      var before, p := ps[..|ps| - 1], ps[|ps| - 1];
      SessionStaysAbove(rows, q0, c0, hi, before);
      FollowsStart(rows, q0, c0, hi, AsCoded, before, p);
      BatchSplits(rows, p.queue, p.start, p.start, hi, 0);
    }
  }

  lemma FinishedNeverStarved(rows: Rows, q0: seq<int>, c0: int, hi: int, all: seq<Pull>, qs: seq<Pull>)
    requires c0 <= hi && Session(rows, q0, c0, hi, AsCoded, all) && Finished(q0, all)
    requires Session(rows, q0, c0, hi, AsCoded, qs) && 0 <= CursorAfter(c0, qs)
    ensures !Starved(rows, QueueAfter(q0, qs), CursorAfter(c0, qs), hi)
  {
    hide PullBatch, Session, Starved, Follows;
    if Starved(rows, QueueAfter(q0, qs), CursorAfter(c0, qs), hi) {
      if |qs| <= |all| {
        SessionIsDetermined(rows, q0, c0, hi, AsCoded, qs, all);
        assert all[..|qs|] == qs;
        StarvedNeverFinishes(rows, q0, c0, hi, all, |qs|);
        assert false;
      } else {
        FinishedIsLast(rows, q0, c0, hi, AsCoded, all, qs);
        assert false;
      }
    }
  }

  lemma FinishedIsLast(rows: Rows, q0: seq<int>, c0: int, hi: int, policy: Policy, all: seq<Pull>, qs: seq<Pull>)
    requires Session(rows, q0, c0, hi, policy, all) && Finished(q0, all) && Session(rows, q0, c0, hi, policy, qs)
    ensures |qs| <= |all|
    decreases |qs|
  {
    hide PullBatch, Follows;
    if |qs| > |all| {
      var before, p := qs[..|qs| - 1], qs[|qs| - 1];
      FinishedIsLast(rows, q0, c0, hi, policy, all, before);
      SessionIsDetermined(rows, q0, c0, hi, policy, all, before);
      FollowsStart(rows, q0, c0, hi, policy, before, p);
    }
  }

  /** Told before the first pull: a session comes to an end with all unread rows delivered, in order,
      iff the cuts of the unread stream are clean. */
  lemma EndsCompleteIffCleanCuts(rows: Rows, q0: seq<int>, c0: int, hi: int)
    requires c0 <= hi && Ascending(q0) && AllUnread(rows, q0, c0, hi)
    ensures (exists all :: Session(rows, q0, c0, hi, AsCoded, all) && Finished(q0, all)
                           && Delivered(all) == Stream(rows, q0, c0, c0, hi)) <==>
            CleanCuts(Stream(rows, q0, c0, c0, hi))
  {
    hide Scan, PullBatch, Stream, Skipped, CleanCuts, Follows, Ascending, AllUnread;
    if CleanCuts(Stream(rows, q0, c0, c0, hi)) {
      forall qs | [] <= qs && Session(rows, q0, c0, hi, AsCoded, qs)
        ensures NextBatch(rows, q0, c0, hi, AsCoded, qs).Batch?
      {
        SessionCuts(rows, q0, c0, hi, qs);
        NoSkipNoFailure(rows, q0, c0, hi, qs);
      }
      var all := SessionGoesOn(rows, q0, c0, hi, AsCoded, []);
      CompleteIffCleanCuts(rows, q0, c0, hi, all);
    }
    if all :| Session(rows, q0, c0, hi, AsCoded, all) && Finished(q0, all) && Delivered(all) == Stream(rows, q0, c0, c0, hi) {
      CompleteIffCleanCuts(rows, q0, c0, hi, all);
    }
  }

  // ----- the documented variant -----

  /** VARIANT: with the documented reset every session can be continued to its end. */
  lemma VariantFinishes(rows: Rows, q0: seq<int>, c0: int, hi: int, ps: seq<Pull>)
    requires c0 <= hi && AllUnread(rows, q0, c0, hi) && Session(rows, q0, c0, hi, AsDocumented, ps)
    ensures CanFinish(rows, q0, c0, hi, AsDocumented, ps)
  {
    hide PullBatch, Session, AllUnread;
    forall qs | ps <= qs && Session(rows, q0, c0, hi, AsDocumented, qs)
      ensures NextBatch(rows, q0, c0, hi, AsDocumented, qs).Batch?
    {
      VariantNeverFails(rows, q0, c0, hi, qs);
    }
    var all := SessionGoesOn(rows, q0, c0, hi, AsDocumented, ps);
  }
}
