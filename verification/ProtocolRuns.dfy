/** Theorems about every run of the protocol. */
module ProtocolRuns {
  import opened Wrappers
  import opened SyncModel
  import opened PushApply
  import opened PushProofs
  import opened Scans
  import opened PullBatches
  import opened PullSessions
  import opened QueueCodec
  import opened PullQueues
  import opened Sessions
  import opened SyncHandlers
  import opened Protocol

  lemma {:induction false} RunKeepsInv(s: State, es: seq<Event>)
    requires Inv(s) && Legal(s, es)
    ensures Inv(After(s, es))
    decreases |es|
  {
    hide Inv, Next, Allowed;
    if es != [] {
      StepKeepsInv(s, es[0]);
      RunKeepsInv(Next(s, es[0]), es[1..]);
    }
  }

  lemma {:induction false} RunExtends(s: State, es: seq<Event>, e: Event)
    requires Legal(s, es) && Allowed(After(s, es), e)
    ensures Legal(s, es + [e]) && After(s, es + [e]) == Next(After(s, es), e)
    decreases |es|
  {
    hide Next, Allowed;
    if es == [] {
      assert [] + [e] == [e] && [e][1..] == [];
    } else {
      RunExtends(Next(s, es[0]), es[1..], e);
      assert (es + [e])[1..] == es[1..] + [e];
    }
  }

  ghost predicate Reachable(s: State) {
    exists es :: Legal(INITIAL, es) && s == After(INITIAL, es)
  }

  lemma InitialInv()
    ensures Inv(INITIAL)
  {
  }

  /** USN safety: in every reachable state rows and tombstones carry distinct USNs below the stored
      cursor, and the ranges of all committed batches increase in commit order without overlap. */
  lemma ReachableIsSafe(s: State)
    requires Reachable(s)
    ensures Inv(s)
    ensures UsnsDistinct(s.sv.db.rows) && UsnsBelow(s.sv.db.rows, StoredCursor(s.sv.db))
    ensures Increasing(s.log.commits, StoredCursor(s.sv.db))
  {
    var es :| Legal(INITIAL, es) && s == After(INITIAL, es);
    InitialInv();
    RunKeepsInv(INITIAL, es);
  }

  lemma {:induction false} IncreasingAreDisjoint(commits: seq<Commit>, bound: int, i: nat, j: nat)
    requires Increasing(commits, bound) && i < j < |commits|
    ensures commits[i].start < EndOf(commits[i]) <= commits[j].start < EndOf(commits[j]) <= bound
  {
    var n := |commits| - 1;
    IncreasingBelow(commits, bound, j);
    if j < n {
      IncreasingAreDisjoint(commits[..n], commits[n].start, i, j);
    } else {
      IncreasingBelow(commits[..n], commits[n].start, i);
    }
  }

  lemma {:induction false} IncreasingBelow(commits: seq<Commit>, bound: int, i: nat)
    requires Increasing(commits, bound) && i < |commits|
    ensures commits[i].start < EndOf(commits[i]) <= bound
  {
    var n := |commits| - 1;
    if i < n {
      IncreasingBelow(commits[..n], commits[n].start, i);
    }
  }

  // ----- the stored cursor never decreases -----

  lemma StepRaisesCursor(s: State, e: Event)
    requires Inv(s) && Allowed(s, e)
    ensures StoredCursor(s.sv.db) <= StoredCursor(Next(s, e).sv.db)
  {
    hide UsnSafe, Increasing, Session, PullBatch, PushTransaction, Adjacent, Counting, PullQueue;
    if e.PushResolved? {
      TransactionKeepsSafe(s.sv.db, s.pending.value.start, s.pending.value.changes);
    }
  }

  lemma {:induction false} RunRaisesCursor(s: State, es: seq<Event>)
    requires Inv(s) && Legal(s, es)
    ensures StoredCursor(s.sv.db) <= StoredCursor(After(s, es).sv.db)
    decreases |es|
  {
    hide Inv, Next, Allowed;
    if es != [] {
      StepRaisesCursor(s, es[0]);
      StepKeepsInv(s, es[0]);
      RunRaisesCursor(Next(s, es[0]), es[1..]);
    }
  }

  // ----- the lock -----

  /** A request with any id but the current one changes nothing at all. */
  lemma OtherIdsChangeNothing(s: State, e: Event)
    requires IsSessionRequest(e) && !Holds(s, e.sid)
    ensures Next(s, e) == s
  {
  }

  /** Once an id is used and not the current one, it never becomes the current one again. */
  lemma UsedIdStaysDead(s: State, e: Event, sid: SessionId)
    requires Allowed(s, e) && sid in s.log.used && !Holds(s, sid)
    ensures sid in Next(s, e).log.used && !Holds(Next(s, e), sid)
  {
    hide PullBatch, PushTransaction, PullQueue, ParseQueue, QueueToString;
  }

  /** The run without the requests that carry `sid`. */
  function Without(es: seq<Event>, sid: SessionId): seq<Event> {
    if es == [] then []
    else if IsSessionRequest(es[0]) && es[0].sid == sid then Without(es[1..], sid)
    else [es[0]] + Without(es[1..], sid)
  }

  /** After its session is gone, the requests of an old client are invisible: dropping all of them
      from the run leads to the same state, sessions of later clients included. */
  lemma {:induction false} StaleRequestsAreInvisible(s: State, es: seq<Event>, sid: SessionId)
    requires Legal(s, es) && sid in s.log.used && !Holds(s, sid)
    ensures Legal(s, Without(es, sid)) && After(s, Without(es, sid)) == After(s, es)
    decreases |es|
  {
    hide Next, Allowed;
    if es != [] {
      var e := es[0];
      UsedIdStaysDead(s, e, sid);
      StaleRequestsAreInvisible(Next(s, e), es[1..], sid);
      if IsSessionRequest(e) && e.sid == sid {
        OtherIdsChangeNothing(s, e);
      } else {
        var rest := Without(es[1..], sid);
        assert ([e] + rest)[0] == e && ([e] + rest)[1..] == rest;
      }
    }
  }

  // ----- phases and batch numbers -----

  function Phase(state: SessionState): nat {
    match state
    case Pulling => 1
    case AwaitingPushOrFinish => 2
    case Pushing => 3
    case AwaitingFinish => 4
    case _ => 0
  }

  /** One session at two moments: it has moved forward, and its accepted batches are still accepted. */
  ghost predicate Forward(s: State, t: State)
    requires s.sv.lock.Some? && t.sv.lock.Some?
  {
    && Phase(s.sv.lock.value.state) <= Phase(t.sv.lock.value.state)
    && (Phase(s.sv.lock.value.state) == 0 ==> t.sv.lock == s.sv.lock)
    && s.log.pullNumbers <= t.log.pullNumbers
    && s.log.pulls <= t.log.pulls
    && s.log.claims <= t.log.claims
    && s.log.queue0 == t.log.queue0
  }

  lemma StepMovesForward(s: State, e: Event, sid: SessionId)
    requires Inv(s) && Allowed(s, e) && Holds(s, sid) && Holds(Next(s, e), sid)
    ensures Forward(s, Next(s, e))
  {
    hide UsnSafe, Increasing, PulledSoFar, PullBatch, PushTransaction, Adjacent, Counting, PullQueue, ParseQueue, QueueToString;
  }

  /** Every run of a session moves only forward through its phases, and an accepted batch number is
      never given up or accepted again: the numbers only grow at the end. */
  lemma {:induction false} SessionsMoveForward(s: State, es: seq<Event>, sid: SessionId)
    requires Inv(s) && Legal(s, es) && Holds(s, sid) && Holds(After(s, es), sid)
    ensures Forward(s, After(s, es))
    decreases |es|
  {
    hide Inv, Next, Allowed;
    if es != [] {
      var t := Next(s, es[0]);
      StepKeepsInv(s, es[0]);
      if Holds(t, sid) {
        StepMovesForward(s, es[0], sid);
        SessionsMoveForward(t, es[1..], sid);
      } else {
        HolderIsUsed(s, sid);
        UsedGrows(s, es[0]);
        DeadStaysDead(t, es[1..], sid);
      }
    }
  }

  lemma HolderIsUsed(s: State, sid: SessionId)
    requires Inv(s) && Holds(s, sid)
    ensures sid in s.log.used
  {
  }

  lemma UsedGrows(s: State, e: Event)
    ensures s.log.used <= Next(s, e).log.used
  {
    hide PullBatch, PushTransaction, PullQueue, ParseQueue, QueueToString;
  }

  lemma {:induction false} DeadStaysDead(s: State, es: seq<Event>, sid: SessionId)
    requires Legal(s, es) && sid in s.log.used && !Holds(s, sid)
    ensures !Holds(After(s, es), sid)
    decreases |es|
  {
    hide Next, Allowed;
    if es != [] {
      UsedIdStaysDead(s, es[0], sid);
      DeadStaysDead(Next(s, es[0]), es[1..], sid);
    }
  }

  /** The batch numbers a session accepts are exactly 1, 2, 3, ... in each phase, its reserved ranges
      are adjacent from the handshake cursor to the session cursor, and none is reserved before the
      pull is finished. */
  lemma AcceptedBatches(s: State)
    requires Inv(s) && s.sv.lock.Some?
    ensures Counting(s.log.pullNumbers)
    ensures s.sv.lock.value.state == Pulling ==> s.log.claims == []
    ensures s.log.claims != [] ==>
              Adjacent(s.log.claims, s.sv.lock.value.srvSyncCursorUSNAtHandshake, s.sv.lock.value.syncCursorUSN)
    ensures forall i | 0 <= i < |s.log.claims| :: s.log.claims[i].batchSeq == i + 1
  {
    hide UsnSafe, Increasing, Session, PullQueue, QueueToString;
    if s.log.claims != [] {
      AdjacentNumbers(s.log.claims, s.sv.lock.value.srvSyncCursorUSNAtHandshake, s.sv.lock.value.syncCursorUSN);
    }
  }

  lemma {:induction false} AdjacentNumbers(claims: seq<Claim>, from: int, to: int)
    requires Adjacent(claims, from, to)
    ensures forall i | 0 <= i < |claims| :: claims[i].batchSeq == i + 1
  {
    if claims != [] {
      AdjacentNumbers(claims[..|claims| - 1], from, claims[|claims| - 1].start);
    }
  }

  /** At any moment exactly the next number is accepted, whatever was sent before. */
  lemma AcceptedIffNext(s: State, sid: SessionId, batchSeq: int)
    requires Inv(s) && Holds(s, sid)
    ensures var ss := s.sv.lock.value;
            && (ClaimPullCheck(s.sv.lock, sid, batchSeq) == ScriptOK <==>
                  ss.state == Pulling && batchSeq == |s.log.pullNumbers| + 1)
            && (forall n | n > 0 :: ClaimPushCheck(s.sv.lock, sid, batchSeq, n) == ScriptOK <==>
                  (ss.state == Pushing || ss.state == AwaitingPushOrFinish) && batchSeq == |s.log.claims| + 1)
            && (MarkPushFinished(s.sv.lock, sid, batchSeq).1 == ScriptOK <==>
                  ss.state == Pushing && batchSeq == |s.log.claims| + 1)
  {
    hide UsnSafe, Increasing, Session, PullQueue, QueueToString, Adjacent, Counting;
  }

  /** A session ends only by expiry, or by a FinishSync without failure once everything is pulled and,
      if a push was begun, the push is finished. */
  lemma SessionEndsOnly(s: State, e: Event, sid: SessionId)
    requires Holds(s, sid) && !Holds(Next(s, e), sid)
    ensures e.Expired? ||
            (e.FinishRequested? && e.sid == sid && e.fault == NoFault &&
             (s.sv.lock.value.state == AwaitingPushOrFinish || s.sv.lock.value.state == AwaitingFinish))
  {
    hide PullBatch, PushTransaction, PullQueue, ParseQueue, QueueToString;
  }

  /** The session's own FinishSync, without a failure. */
  predicate Ends(e: Event, sid: SessionId) {
    e.Expired? || (e.FinishRequested? && e.sid == sid && e.fault == NoFault)
  }

  /** The lock over runs: no run of handshakes and other clients' requests, however long, takes the
      lock from a session that neither expires nor finishes. */
  lemma {:induction false} RunsRespectLock(s: State, es: seq<Event>, sid: SessionId)
    requires Holds(s, sid) && forall e <- es :: !Ends(e, sid)
    ensures Holds(After(s, es), sid)
    decreases |es|
  {
    hide Next, Holds;
    if es != [] {
      assert es[0] in es && forall e <- es[1..] :: e in es;
      StepRespectsLock(s, es[0], sid);
      RunsRespectLock(Next(s, es[0]), es[1..], sid);
    }
  }

  lemma StepRespectsLock(s: State, e: Event, sid: SessionId)
    requires Holds(s, sid) && !Ends(e, sid)
    ensures Holds(Next(s, e), sid)
  {
    hide Next;
    if !Holds(Next(s, e), sid) {
      SessionEndsOnly(s, e, sid);
    }
  }

  /** A handshake grants a session iff the lock is free, the clocks are within five minutes, the
      client's collection is the server's (if there is one), and there is something to do. */
  lemma GrantedIff(s: State, req: HandshakeRequest, now: int, sid: SessionId)
    requires Inv(s) && Allowed(s, HandshakeRequested(req, now, sid))
    ensures Holds(NextHandshake(s, req, now, sid), sid) <==>
            && s.sv.lock.None?
            && -300000 < req.clientNow - now < 300000
            && (s.sv.db.collection.None? || req.collectionId == Some(s.sv.db.collection.value.id))
            && (req.clientCursor != StoredCursor(s.sv.db) || req.hasLocalChanges)
  {
    hide UsnSafe, Increasing, Session, PullQueue, QueueToString, Adjacent, Counting;
  }

  /** How the session cursor and the stored cursor relate in each phase. */
  lemma CursorsRelate(s: State)
    requires Inv(s) && s.sv.lock.Some?
    ensures var ss := s.sv.lock.value;
            var stored := StoredCursor(s.sv.db);
            && (ss.state == Pulling ==>
                  ss.cliSyncCursorUSNAtHandshake <= ss.syncCursorUSN <= ss.srvSyncCursorUSNAtHandshake == stored)
            && (ss.state == AwaitingPushOrFinish ==> ss.syncCursorUSN == ss.srvSyncCursorUSNAtHandshake == stored)
            && (ss.state == Pushing || ss.state == AwaitingFinish ==> ss.syncCursorUSN >= stored)
            && (s.pending.Some? ==>
                  stored <= s.pending.value.start < s.pending.value.start + |s.pending.value.changes| == ss.syncCursorUSN)
  {
    hide UsnSafe, Increasing, Session, PullQueue, QueueToString, Adjacent;
    var ss := s.sv.lock.value;
    if ss.state == Pulling {
      CursorsStayInRange(s.sv.db.rows, s.log.queue0, ss.cliSyncCursorUSNAtHandshake, ss.srvSyncCursorUSNAtHandshake, AsCoded, s.log.pulls);
      FinishedCursor(s.sv.db.rows, s.log.queue0, ss.cliSyncCursorUSNAtHandshake, ss.srvSyncCursorUSNAtHandshake, s.log.pulls);
    }
  }

  lemma FinishedCursor(rows: Rows, q0: seq<int>, c0: int, hi: int, ps: seq<Pull>)
    requires c0 <= hi && Session(rows, q0, c0, hi, AsCoded, ps)
    requires ps != [] ==> QueueAfter(q0, ps) != []
    ensures c0 <= CursorAfter(c0, ps) <= hi
  {
    CursorsStayInRange(rows, q0, c0, hi, AsCoded, ps);
  }
}
