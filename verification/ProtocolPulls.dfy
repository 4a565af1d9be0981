/** What a client gets out of a pull session, in every reachable state. */
module ProtocolPulls {
  import opened SyncModel
  import opened PushProofs
  import opened PullBatches
  import opened PullSessions
  import opened PullCompleteness
  import opened QueueCodec
  import opened PullCuts
  import opened PullEnds
  import opened PullSurvival
  import opened PullQueues
  import opened Replicas
  import opened Sessions
  import opened Protocol
  import opened ProtocolRuns

  /** The session's own pull request with the expected number, served without an outside failure. */
  function GoodPull(s: State): Event
    requires s.sv.lock.Some?
  {
    PullRequested(s.sv.lock.value.sessionId, s.sv.lock.value.expectedBatchSeq, false)
  }

  /** No stop of the session so far has skipped a row. */
  ghost predicate NothingSkipped(s: State) {
    forall p <- s.log.pulls :: Skipped(s.sv.db.rows, p) == []
  }

  /** What such a request comes to, in terms of the queue and cursor of the session. */
  lemma GoodPullOutcome(s: State)
    requires Inv(s) && s.sv.lock.Some? && s.sv.lock.value.state == Pulling
    ensures var ss := s.sv.lock.value;
            var cli, srv := ss.cliSyncCursorUSNAtHandshake, ss.srvSyncCursorUSNAtHandshake;
            var queue, cursor := QueueAfter(s.log.queue0, s.log.pulls), CursorAfter(cli, s.log.pulls);
            var r := PullBatch(s.sv.db.rows, queue, cursor, cursor, srv, 0);
            var t := Next(s, GoodPull(s));
            && Session(s.sv.db.rows, s.log.queue0, cli, srv, AsCoded, s.log.pulls)
            && (r.Failed? ==> t.log.pulls == s.log.pulls && t.sv.lock.Some? && t.sv.lock.value.state == Pulling)
            && (r.Batch? ==> t.log.pulls == s.log.pulls + [Pull(queue, cursor, r.out, r.queue, r.cursor)])
  {
    hide UsnSafe, Increasing, QueueToString, PullBatch, PullQueue, ParseQueue, Session, Counting;
    StoredQueueReadsBack(s, s.sv.lock.value);
  }

  /** While the index agrees and nothing was skipped, the session's pull succeeds: in particular the
      first pull of every session. */
  lemma UnskippedPullSucceeds(s: State)
    requires Inv(s) && IndexAgrees(s.sv.db) && s.sv.lock.Some? && s.sv.lock.value.state == Pulling
    requires NothingSkipped(s)
    ensures |Next(s, GoodPull(s)).log.pulls| == |s.log.pulls| + 1
  {
    hide Increasing, QueueToString, PullBatch, PullQueue, ParseQueue, Session, Counting, Next, IndexAgrees, Skipped;
    var ss := s.sv.lock.value;
    GoodPullOutcome(s);
    HandshakeQueueIsUnread(s.sv.db, ss.cliSyncCursorUSNAtHandshake, ss.srvSyncCursorUSNAtHandshake);
    NoSkipNoFailure(s.sv.db.rows, s.log.queue0, ss.cliSyncCursorUSNAtHandshake, ss.srvSyncCursorUSNAtHandshake, s.log.pulls);
  }

  /** Replica convergence. When a session has pulled everything, a client that was up to date below
      its cursor and applies what the session delivered knows exactly the server's rows and
      tombstones, provided no stop skipped a row. */
  lemma PulledClientConverges(s: State, replica: Replica)
    requires Inv(s) && IndexAgrees(s.sv.db) && s.sv.lock.Some? && s.sv.lock.value.state == AwaitingPushOrFinish
    requires UpToDate(replica, s.sv.db.rows, s.sv.lock.value.cliSyncCursorUSNAtHandshake)
    requires NothingSkipped(s)
    ensures Absorb(replica, Received(s.log.replies)) == View(s.sv.db.rows)
  {
    hide UsnSafe, Increasing, QueueToString, PullQueue, Session, Counting, IndexAgrees, Skipped, UpToDate;
    SessionConverges(s.sv.db, s.sv.lock.value.cliSyncCursorUSNAtHandshake, s.log.pulls, replica);
  }

  /** In particular if every stop was at the end of a type or inside the last queued one. */
  lemma BoundaryStopsConverge(s: State, replica: Replica)
    requires Inv(s) && IndexAgrees(s.sv.db) && s.sv.lock.Some? && s.sv.lock.value.state == AwaitingPushOrFinish
    requires UpToDate(replica, s.sv.db.rows, s.sv.lock.value.cliSyncCursorUSNAtHandshake)
    requires forall p <- s.log.pulls :: !StopsInsideWithMoreQueued(p)
    ensures Absorb(replica, Received(s.log.replies)) == View(s.sv.db.rows)
  {
    hide Inv, IndexAgrees, UpToDate, Skipped, Absorb, EntryChanges, Delivered;
    forall p | p in s.log.pulls ensures Skipped(s.sv.db.rows, p) == [] {
      OnlyInnerStopsSkip(s.sv.db.rows, p);
    }
    PulledClientConverges(s, replica);
  }

  /** Exactly when a client that knows nothing newer than its cursor converges, told from the server's
      rows and that cursor alone. */
  lemma PulledClientConvergesIff(s: State, replica: Replica)
    requires Inv(s) && IndexAgrees(s.sv.db) && s.sv.lock.Some? && s.sv.lock.value.state == AwaitingPushOrFinish
    requires var cursor := s.sv.lock.value.cliSyncCursorUSNAtHandshake;
             UpToDate(replica, s.sv.db.rows, cursor) && Older(replica, cursor)
    ensures Absorb(replica, Received(s.log.replies)) == View(s.sv.db.rows) <==>
            CleanCuts(Unread(s.sv.db, s.sv.lock.value.cliSyncCursorUSNAtHandshake))
  {
    hide UsnSafe, Increasing, QueueToString, PullQueue, Session, Counting, IndexAgrees, Skipped, UpToDate, Older, Unread, CleanCuts;
    ConvergesIffCleanCuts(s.sv.db, s.sv.lock.value.cliSyncCursorUSNAtHandshake, s.log.pulls, replica);
  }

  /** While the cuts of what the client had not read at the handshake are clean, nothing is skipped and
      every pull of the session succeeds. */
  lemma CleanSessionSucceeds(s: State)
    requires Inv(s) && IndexAgrees(s.sv.db) && s.sv.lock.Some? && s.sv.lock.value.state == Pulling
    requires CleanCuts(Unread(s.sv.db, s.sv.lock.value.cliSyncCursorUSNAtHandshake))
    ensures NothingSkipped(s) && |Next(s, GoodPull(s)).log.pulls| == |s.log.pulls| + 1
  {
    hide UsnSafe, Increasing, QueueToString, PullBatch, ParseQueue, Session, Counting, Next, IndexAgrees, Skipped, CleanCuts, Stream;
    var ss := s.sv.lock.value;
    SessionCuts(s.sv.db.rows, s.log.queue0, ss.cliSyncCursorUSNAtHandshake, ss.srvSyncCursorUSNAtHandshake, s.log.pulls);
    UnskippedPullSucceeds(s);
  }

  /** A session has finitely many successful pulls. */
  lemma PullsAreFinite(s: State)
    requires Inv(s) && s.sv.lock.Some?
    requires s.sv.lock.value.state == Pulling || s.sv.lock.value.state == AwaitingPushOrFinish
    ensures var ss := s.sv.lock.value;
            |s.log.pulls| <= |s.log.queue0| + ss.srvSyncCursorUSNAtHandshake - ss.cliSyncCursorUSNAtHandshake
  {
    hide UsnSafe, Increasing, QueueToString, PullQueue, Session, Counting;
    var ss := s.sv.lock.value;
    SessionsAreFinite(s.sv.db.rows, s.log.queue0, ss.cliSyncCursorUSNAtHandshake, ss.srvSyncCursorUSNAtHandshake, s.log.pulls);
  }

  lemma GoodPullKeeps(s: State)
    requires Inv(s) && s.sv.lock.Some? && s.sv.lock.value.state == Pulling
    ensures var t := Next(s, GoodPull(s));
            && Allowed(s, GoodPull(s)) && t.sv.db == s.sv.db && t.sv.lock.Some?
            && t.sv.lock.value.sessionId == s.sv.lock.value.sessionId
            && t.sv.lock.value.cliSyncCursorUSNAtHandshake == s.sv.lock.value.cliSyncCursorUSNAtHandshake
            && t.sv.lock.value.srvSyncCursorUSNAtHandshake == s.sv.lock.value.srvSyncCursorUSNAtHandshake
            && t.log.queue0 == s.log.queue0
            && (t.sv.lock.value.state == Pulling || t.sv.lock.value.state == AwaitingPushOrFinish)
  {
    hide UsnSafe, Increasing, QueueToString, PullBatch, PullQueue, ParseQueue, Session, Counting;
  }

  // ----- which sessions finish -----

  /** The session's pulls so far can be continued to its end. */
  ghost predicate SessionCanFinish(s: State)
    requires s.sv.lock.Some?
  {
    var ss := s.sv.lock.value;
    CanFinish(s.sv.db.rows, s.log.queue0, ss.cliSyncCursorUSNAtHandshake, ss.srvSyncCursorUSNAtHandshake, AsCoded, s.log.pulls)
  }

  /** A stage of the session with one more successful pull, if it can still finish from here. */
  lemma GoodPullGoesOn(s: State)
    requires Inv(s) && s.sv.lock.Some? && s.sv.lock.value.state == Pulling && SessionCanFinish(s)
    ensures var t := Next(s, GoodPull(s));
            t.sv.lock.Some? && SessionCanFinish(t) && |t.log.pulls| == |s.log.pulls| + 1
  {
    hide UsnSafe, Increasing, QueueToString, PullBatch, ParseQueue, PullQueue, Session, Counting, Next, Follows;
    var ss, ps := s.sv.lock.value, s.log.pulls;
    var rows, q0, cli, srv := s.sv.db.rows, s.log.queue0, ss.cliSyncCursorUSNAtHandshake, ss.srvSyncCursorUSNAtHandshake;
    var t := Next(s, GoodPull(s));
    GoodPullOutcome(s);
    GoodPullKeeps(s);
    var all :| ps <= all && Session(rows, q0, cli, srv, AsCoded, all) && Finished(q0, all);
    NextOfLonger(rows, q0, cli, srv, ps, all);
    assert t.log.pulls <= all;
  }

  predicate OwnPulls(es: seq<Event>, sid: SessionId) {
    forall e <- es :: e.PullRequested? && e.sid == sid
  }

  /** A session that can finish does so by its own pulls alone. */
  lemma FinishByPulls(s: State) returns (es: seq<Event>)
    requires Inv(s) && s.sv.lock.Some? && s.sv.lock.value.state == Pulling && SessionCanFinish(s)
    ensures Legal(s, es) && OwnPulls(es, s.sv.lock.value.sessionId)
    ensures Holds(After(s, es), s.sv.lock.value.sessionId) && After(s, es).sv.db == s.sv.db
    ensures After(s, es).sv.lock.value.state == AwaitingPushOrFinish
    decreases |s.log.queue0| + s.sv.lock.value.srvSyncCursorUSNAtHandshake - s.sv.lock.value.cliSyncCursorUSNAtHandshake - |s.log.pulls|
  {
    hide Inv, Allowed, Next, SessionCanFinish;
    var t := Next(s, GoodPull(s));
    GoodPullKeeps(s);
    GoodPullGoesOn(s);
    StepKeepsInv(s, GoodPull(s));
    PullsAreFinite(t);
    es := [];
    if t.sv.lock.value.state == Pulling {
      es := FinishByPulls(t);
    }
    assert ([GoodPull(s)] + es)[1..] == es;
    es := [GoodPull(s)] + es;
  }

  /** While a session pulls nothing but its own pulls gets it on, and the database does not change. */
  lemma PullingStep(s: State, e: Event, sid: SessionId)
    requires Inv(s) && Allowed(s, e) && Holds(s, sid) && s.sv.lock.value.state == Pulling && Holds(Next(s, e), sid)
    ensures var t := Next(s, e);
            && t.sv.db == s.sv.db && t.log.queue0 == s.log.queue0 && s.log.pulls <= t.log.pulls
            && t.sv.lock.value.cliSyncCursorUSNAtHandshake == s.sv.lock.value.cliSyncCursorUSNAtHandshake
            && t.sv.lock.value.srvSyncCursorUSNAtHandshake == s.sv.lock.value.srvSyncCursorUSNAtHandshake
            && (t.sv.lock.value.state == Pulling || t.sv.lock.value.state == AwaitingPushOrFinish)
  {
    hide UsnSafe, Increasing, QueueToString, PullBatch, PullQueue, ParseQueue, Session, Counting;
  }

  lemma PulledHasFinished(s: State)
    requires Inv(s) && s.sv.lock.Some? && s.sv.lock.value.state == AwaitingPushOrFinish
    ensures SessionCanFinish(s)
  {
    hide UsnSafe, Increasing, QueueToString, PullQueue, Session, Counting;
  }

  ghost predicate LeavesPulling(s: State, es: seq<Event>, sid: SessionId) {
    Legal(s, es) && Holds(After(s, es), sid) && After(s, es).sv.lock.value.state != Pulling
  }

  /** Whatever the run, a session that gets out of PULLING could finish by its pulls. */
  lemma {:induction false} LeavingNeedsFinish(s: State, es: seq<Event>, sid: SessionId)
    requires Inv(s) && Holds(s, sid) && s.sv.lock.value.state == Pulling && LeavesPulling(s, es, sid)
    ensures SessionCanFinish(s)
    decreases |es|
  {
    hide Inv, Next, Allowed, Session;
    if es != [] {
      var t := Next(s, es[0]);
      StepKeepsInv(s, es[0]);
      if Holds(t, sid) {
        PullingStep(s, es[0], sid);
        if t.sv.lock.value.state == Pulling {
          LeavingNeedsFinish(t, es[1..], sid);
        } else {
          PulledHasFinished(t);
        }
      } else {
        HolderIsUsed(s, sid);
        UsedGrows(s, es[0]);
        DeadStaysDead(t, es[1..], sid);
      }
    }
  }

  lemma PullingSession(s: State)
    requires Inv(s) && s.sv.lock.Some? && s.sv.lock.value.state == Pulling
    ensures var ss := s.sv.lock.value;
            var cli, srv := ss.cliSyncCursorUSNAtHandshake, ss.srvSyncCursorUSNAtHandshake;
            && UsnsDistinct(s.sv.db.rows) && NoneNegative(s.sv.db.rows, cli) && cli <= srv == StoredCursor(s.sv.db)
            && s.log.queue0 == PullQueue(s.sv.db, cli, srv) && Ascending(s.log.queue0)
            && Session(s.sv.db.rows, s.log.queue0, cli, srv, AsCoded, s.log.pulls)
  {
    hide Increasing, QueueToString, Session, Counting;
  }

  /** Exactly when a session can get out of PULLING, told from the server's rows and the client's cursor:
      there is a run at whose end it has done so, in fact one of its own pulls alone, iff what was unread
      at the handshake survives the cuts. Otherwise the session can only expire. */
  lemma SessionFinishesIff(s: State, sid: SessionId)
    requires Inv(s) && IndexAgrees(s.sv.db) && Holds(s, sid) && s.sv.lock.value.state == Pulling
    ensures var survives := Survives(Unread(s.sv.db, s.sv.lock.value.cliSyncCursorUSNAtHandshake));
            && ((exists es :: LeavesPulling(s, es, sid)) <==> survives)
            && ((exists es :: LeavesPulling(s, es, sid) && OwnPulls(es, sid)) <==> survives)
  {
    hide Inv, Next, IndexAgrees, Session, Stream, PullQueue, Survives, AllUnread, Ascending, NoneNegative, UsnsDistinct, Legal, After, CanFinish;
    var ss := s.sv.lock.value;
    var rows, q0, cli, srv := s.sv.db.rows, s.log.queue0, ss.cliSyncCursorUSNAtHandshake, ss.srvSyncCursorUSNAtHandshake;
    PullingSession(s);
    HandshakeQueueIsUnread(s.sv.db, cli, srv);
    FinishesIffSurvives(rows, q0, cli, srv);
    NoPullsYet(rows, q0, cli, srv);
    if Survives(Unread(s.sv.db, cli)) {
      FinishesFromEveryStage(rows, q0, cli, srv, [], s.log.pulls);
      var es := FinishByPulls(s);
      assert LeavesPulling(s, es, sid);
    }
    if es :| LeavesPulling(s, es, sid) {
      LeavingNeedsFinish(s, es, sid);
      FinishesFromEveryStage(rows, q0, cli, srv, s.log.pulls, []);
    }
  }

  /** If they do not survive, the session is doomed from its handshake on: it stays in PULLING until it
      expires, and keeps the lock. */
  lemma {:induction false} DoomedSessionOnlyExpires(s: State, es: seq<Event>, sid: SessionId)
    requires Inv(s) && IndexAgrees(s.sv.db) && Holds(s, sid) && s.sv.lock.value.state == Pulling
    requires !Survives(Unread(s.sv.db, s.sv.lock.value.cliSyncCursorUSNAtHandshake))
    requires Legal(s, es) && forall e <- es :: !e.Expired?
    ensures Holds(After(s, es), sid) && After(s, es).sv.lock.value.state == Pulling
    decreases |es|
  {
    hide Inv, Next, Allowed, IndexAgrees, Survives, Unread;
    if es != [] {
      var e, t := es[0], Next(s, es[0]);
      assert e in es && forall x <- es[1..] :: x in es;
      StepKeepsInv(s, e);
      if !Holds(t, sid) {
        SessionEndsOnly(s, e, sid);
        assert false;
      }
      PullingStep(s, e, sid);
      if t.sv.lock.value.state != Pulling {
        RunExtends(s, [], e);
        assert [] + [e] == [e] && LeavesPulling(s, [e], sid);
        SessionFinishesIff(s, sid);
        assert false;
      }
      DoomedSessionOnlyExpires(t, es[1..], sid);
    }
  }

  /** A session whose unread rows have clean cuts finishes by its own pulls. */
  lemma CleanSessionFinishes(s: State) returns (es: seq<Event>)
    requires Inv(s) && IndexAgrees(s.sv.db) && s.sv.lock.Some? && s.sv.lock.value.state == Pulling
    requires CleanCuts(Unread(s.sv.db, s.sv.lock.value.cliSyncCursorUSNAtHandshake))
    ensures Legal(s, es) && Holds(After(s, es), s.sv.lock.value.sessionId) && After(s, es).sv.db == s.sv.db
    ensures After(s, es).sv.lock.value.state == AwaitingPushOrFinish
  {
    hide Inv, Next, IndexAgrees, Session, Stream, PullQueue, Survives, CleanCuts, AllUnread, Ascending, NoneNegative, UsnsDistinct, Legal, After, CanFinish;
    var ss := s.sv.lock.value;
    var rows, q0, cli, srv := s.sv.db.rows, s.log.queue0, ss.cliSyncCursorUSNAtHandshake, ss.srvSyncCursorUSNAtHandshake;
    PullingSession(s);
    HandshakeQueueIsUnread(s.sv.db, cli, srv);
    CleanCutsSurvive(rows, q0, cli, srv);
    FinishesIffSurvives(rows, q0, cli, srv);
    NoPullsYet(rows, q0, cli, srv);
    FinishesFromEveryStage(rows, q0, cli, srv, [], s.log.pulls);
    es := FinishByPulls(s);
  }

  // ----- a starved session -----

  /** A queued type of the session has lost its last row to a stop. */
  ghost predicate StarvedSession(s: State, sid: SessionId) {
    && Holds(s, sid) && s.sv.lock.value.state == Pulling
    && CursorAfter(s.sv.lock.value.cliSyncCursorUSNAtHandshake, s.log.pulls) >= 0
    && Starved(s.sv.db.rows, QueueAfter(s.log.queue0, s.log.pulls),
               CursorAfter(s.sv.lock.value.cliSyncCursorUSNAtHandshake, s.log.pulls), s.sv.lock.value.srvSyncCursorUSNAtHandshake)
  }

  lemma StarvedPullStays(s: State, sid: SessionId, batchSeq: int, fails: bool)
    requires Inv(s) && StarvedSession(s, sid)
    ensures StarvedSession(NextPull(s, sid, batchSeq, fails), sid)
  {
    hide UsnSafe, Increasing, QueueToString, PullBatch, PullQueue, ParseQueue, Session, Counting, Starved;
    var ss := s.sv.lock.value;
    var rows, cli, srv := s.sv.db.rows, ss.cliSyncCursorUSNAtHandshake, ss.srvSyncCursorUSNAtHandshake;
    StoredQueueReadsBack(s, ss);
    var queue, cursor := QueueAfter(s.log.queue0, s.log.pulls), CursorAfter(cli, s.log.pulls);
    FinishedCursor(rows, s.log.queue0, cli, srv, s.log.pulls);
    var r := PullBatch(rows, queue, cursor, cursor, srv, 0);
    if r.Batch? {
      StarvedIsNonEmpty(rows, queue, cursor, srv);
      var p := Pull(queue, cursor, r.out, r.queue, r.cursor);
      assert Follows(rows, s.log.queue0, cli, srv, AsCoded, s.log.pulls, p);
      PullKeepsStarved(rows, s.log.queue0, cli, srv, s.log.pulls, p);
    }
  }

  lemma StarvedStays(s: State, e: Event, sid: SessionId)
    requires Inv(s) && Allowed(s, e) && StarvedSession(s, sid) && !e.Expired?
    ensures StarvedSession(Next(s, e), sid)
  {
    hide UsnSafe, Increasing, QueueToString, PullBatch, PullQueue, ParseQueue, Session, Counting, Starved, NextPull;
    if e.PullRequested? && e.sid == sid {
      StarvedPullStays(s, sid, e.batchSeq, e.fails);
    } else if IsSessionRequest(e) && e.sid != sid {
      OtherIdsChangeNothing(s, e);
    }
  }

  /** Such a session can only expire: until it does, no run leads it out of PULLING, so its client
      can neither push nor finish, and no other client gets a session. */
  lemma {:induction false} StarvedSessionOnlyExpires(s: State, es: seq<Event>, sid: SessionId)
    requires Inv(s) && Legal(s, es) && StarvedSession(s, sid)
    requires forall e <- es :: !e.Expired?
    ensures Holds(After(s, es), sid) && After(s, es).sv.lock.value.state == Pulling
    decreases |es|
  {
    hide Inv, Next, Allowed, StarvedSession;
    if es == [] {
      StarvedIsPulling(s, sid);
    } else {
      assert es[0] in es && forall e <- es[1..] :: e in es;
      StarvedStays(s, es[0], sid);
      StepKeepsInv(s, es[0]);
      StarvedSessionOnlyExpires(Next(s, es[0]), es[1..], sid);
    }
  }

  lemma StarvedIsPulling(s: State, sid: SessionId)
    requires StarvedSession(s, sid)
    ensures Holds(s, sid) && s.sv.lock.value.state == Pulling
  {
  }
}
