/** What the four requests are answered, and what they leave behind, in terms of the state they meet. */
module Answers {
  import opened Wrappers
  import opened SyncModel
  import opened PushApply
  import opened PushProofs
  import opened PullBatches
  import opened PullSessions
  import opened Collectors
  import opened QueueCodec
  import opened PullQueues
  import opened Replicas
  import opened Sessions
  import opened SyncHandlers
  import opened Protocol
  import opened ProtocolRuns
  import opened PullSurvival
  import opened ProtocolPulls

  // ----- handshake -----

  predicate ClockSkewed(req: HandshakeRequest, now: int) {
    req.clientNow - now >= 300000 || req.clientNow - now <= -300000
  }

  predicate OtherCollection(db: Database, req: HandshakeRequest) {
    db.collection.Some? && req.collectionId != Some(db.collection.value.id)
  }

  /** Clock and collection fit, and there is something to pull, to push or to upload. */
  predicate WantsSession(db: Database, req: HandshakeRequest, now: int) {
    !ClockSkewed(req, now) && !OtherCollection(db, req) && (req.clientCursor != StoredCursor(db) || req.hasLocalChanges)
  }

  /** The session of a handshake, by how the client's cursor compares with the server's. */
  ghost predicate FitsCursors(ss: SyncSession, db: Database, req: HandshakeRequest, sid: SessionId) {
    var cli, srv := req.clientCursor, StoredCursor(db);
    && ss.sessionId == sid && ss.expectedBatchSeq == 1
    && ss.cliSyncCursorUSNAtHandshake == cli && ss.srvSyncCursorUSNAtHandshake == srv
    && (cli < srv <==> ss.state == Pulling)
    && (cli == srv <==> ss.state == Pushing)
    && (cli > srv <==> ss.state == AwaitingUploadAllConfirm)
    && ss.syncCursorUSN == (if cli < srv then cli else if cli == srv then srv else 0)
    && (if cli < srv then ss.pullEntityQueue.Some? && ParseQueue(ss.pullEntityQueue.value) == Some(PullQueue(db, cli, srv))
        else ss.pullEntityQueue.None?)
  }

  /** The whole answer of a handshake, and the lock it leaves. */
  lemma HandshakeAnswers(sv: Server, req: HandshakeRequest, now: int, sid: SessionId)
    ensures var (after, reply) := HandshakeStep(sv, req, now, sid);
            var wants := WantsSession(sv.db, req, now);
            var granted := wants && sv.lock.None?;
            && after.db == sv.db && (!granted ==> after.lock == sv.lock)
            && (granted ==> after.lock.Some? && FitsCursors(after.lock.value, sv.db, req, sid))
            && reply.sessionId == (if granted then Some(sid) else None)
            && reply.serverCursor == StoredCursor(sv.db) && reply.serverLastSyncTime == LastSyncTime(sv.db)
            && (reply.status == TimeSkewTooLarge <==> ClockSkewed(req, now))
            && (reply.status == CollectionIdMismatch <==> !ClockSkewed(req, now) && OtherCollection(sv.db, req))
            && reply.collectionId == (if reply.status == CollectionIdMismatch then Some(sv.db.collection.value.id) else None)
            && (reply.status == LockedByOtherClient <==> wants && sv.lock.Some?)
            && (reply.status == NeedPull <==> granted && req.clientCursor < StoredCursor(sv.db))
            && (reply.status == UploadAll <==> granted && req.clientCursor > StoredCursor(sv.db))
            && (reply.status == NoRemoteChanges <==>
                  && !ClockSkewed(req, now) && !OtherCollection(sv.db, req) && req.clientCursor == StoredCursor(sv.db)
                  && (req.hasLocalChanges ==> sv.lock.None?))
  {
    hide QueueToString, ParseQueue, PullQueue;
    QueueRoundTrip(PullQueue(sv.db, req.clientCursor, StoredCursor(sv.db)));
  }

  /** A session that waits for the upload of everything accepts no pull, no push and no finish: every
      request of anybody is refused and changes nothing. */
  lemma UploadSessionAcceptsNothing(s: State, sid: SessionId, batchSeq: int, changes: seq<SyncChange>, fails: bool, time: int, fault: FinishFault)
    requires s.sv.lock.Some? && s.sv.lock.value.state == AwaitingUploadAllConfirm && changes != []
    ensures PullStep(s.sv, sid, batchSeq, fails).1.PullDenied? && Next(s, PullRequested(sid, batchSeq, fails)) == s
    ensures ClaimPushStep(s.sv, sid, batchSeq, changes).1.PushRefused? && Next(s, PushClaimRequested(sid, batchSeq, changes)) == s
    ensures FinishPushStep(s.sv, sid, batchSeq).1.PushDenied? && Next(s, PushFinishRequested(sid, batchSeq)) == s
    ensures FinishSyncStep(s.sv, sid, time, fault).1 in {FinishScript(StateMismatch), FinishScript(SessionIdMismatch)}
    ensures Next(s, FinishRequested(sid, time, fault)) == s
  {
  }

  // ----- pull -----

  /** The largest USN of the changes, 0 if there are none. */
  ghost predicate IsLargestUsn(m: int, cs: seq<SyncChange>) {
    && (forall c <- cs :: c.SyncChange? && c.usn <= m)
    && (if cs == [] then m == 0 else exists c <- cs :: c.SyncChange? && c.usn == m)
  }

  /** The entries are rows of tables whose USNs start at 1. */
  lemma MaxIsLargest(rows: map<Key, Row>, es: seq<Entry>)
    requires Genuine(rows, es) && UsnsFrom(rows, 1)
    ensures IsLargestUsn(MaxUsn(es), EntryChanges(es))
  {
    var cs, m := EntryChanges(es), MaxUsn(es);
    forall c | c in cs ensures c.SyncChange? && c.usn <= m {
      var i :| 0 <= i < |cs| && cs[i] == c;
      assert es[i] in es;
    }
    if es != [] {
      assert es[0] in es;
      var e :| e in es && e.row.usn == m;
      var i :| 0 <= i < |es| && es[i] == e;
      assert cs[i] in cs;
    }
  }

  /** The reply to a pull. It is refused unless it is the next pull of the session that is pulling. A
      successful one carries the number asked for and the largest USN of its changes, and says that it is
      the last iff the session has moved on from PULLING. Only such a reply reaches the client. */
  lemma PullAnswers(s: State, sid: SessionId, batchSeq: int, fails: bool)
    requires Inv(s)
    ensures var reply, t := PullStep(s.sv, sid, batchSeq, fails).1, NextPull(s, sid, batchSeq, fails);
            && (reply.PullDenied? <==>
                  !(Holds(s, sid) && s.sv.lock.value.state == Pulling && batchSeq == |s.log.pullNumbers| + 1))
            && (reply.PullResponse? ==>
                  && reply.batchSeq == batchSeq && IsLargestUsn(reply.batchMaxUsn, reply.changes)
                  && Holds(t, sid) && (reply.lastBatch <==> t.sv.lock.value.state == AwaitingPushOrFinish)
                  && (!reply.lastBatch <==> t.sv.lock.value.state == Pulling)
                  && t.log.replies == s.log.replies + [reply])
            && (fails ==> !reply.PullResponse?) && t.sv.db == s.sv.db
            && (!reply.PullResponse? ==> t.log.replies == s.log.replies)
            && (reply.PullDenied? ==> t == s)
  {
    hide UsnSafe, Increasing, QueueToString, PullBatch, PullQueue, ParseQueue, Session, MaxUsn, EntryChanges, Received, Delivered;
    if Holds(s, sid) {
      AcceptedIffNext(s, sid, batchSeq);
    }
    if ClaimPullCheck(s.sv.lock, sid, batchSeq) == ScriptOK {
      var ss := s.sv.lock.value;
      StoredQueueReadsBack(s, ss);
      var queue := QueueAfter(s.log.queue0, s.log.pulls);
      var r := PullBatch(s.sv.db.rows, queue, ss.syncCursorUSN, ss.syncCursorUSN, ss.srvSyncCursorUSNAtHandshake, 0);
      if r.Batch? {
        BatchIsGenuine(s.sv.db.rows, queue, ss.syncCursorUSN, ss.syncCursorUSN, ss.srvSyncCursorUSNAtHandshake, 0);
        assert UsnsFrom(s.sv.db.rows, 1) by { SafeFromOne(s.sv.db); }
        MaxIsLargest(s.sv.db.rows, r.out);
      }
    }
  }

  lemma SafeFromOne(db: Database)
    requires UsnSafe(db)
    ensures UsnsFrom(db.rows, 1)
  {
  }

  // ----- scripts that come late -----

  /** A script with the id of a session that is gone, be it a save of a pull that took too long, leaves
      the lock as it is and says what it met. */
  lemma LateScriptsChangeNothing(lock: Lock, sid: SessionId, queue: string, cursor: int, batchSeq: int, count: int)
    requires lock.None? || lock.value.sessionId != sid
    ensures var met := if lock.None? then SessionNotFound else SessionIdMismatch;
            && UpdatePullProgress(lock, sid, queue, cursor) == (lock, met)
            && MarkPullFinished(lock, sid) == (lock, met)
            && MarkPushFinished(lock, sid, batchSeq) == (lock, met)
            && Release(lock, sid) == (lock, met)
            && CheckFinish(lock, sid) == met
            && (count > 0 ==> ClaimPush(lock, sid, batchSeq, count) == (lock, PushRefused(met)))
  {
  }

  /** A claim of no USNs is refused as if there were no session, and reserves nothing. */
  lemma EmptyClaimReservesNothing(lock: Lock, sid: SessionId, batchSeq: int, count: int)
    requires count <= 0
    ensures ClaimPush(lock, sid, batchSeq, count) == (lock, PushRefused(SessionNotFound))
  {
  }

  /** The lock takes one session and keeps it; the queue is a field of pulling sessions only. */
  lemma OneSessionIsCreated(lock: Lock, ss: SyncSession)
    ensures var (after, created) := CreateSession(lock, ss);
            && (created <==> lock.None?) && (!created ==> after == lock)
            && (created ==>
                  && after.Some? && after.value.(pullEntityQueue := None) == ss.(pullEntityQueue := None)
                  && after.value.pullEntityQueue == (if ss.state == Pulling then ss.pullEntityQueue else None))
  {
  }

  // ----- why a request is refused -----

  /** A pull that is not of a session in PULLING finds no queue, whatever the session: that is reported
      as a missing session, and a wrong state is never reported. */
  lemma PullRefusals(s: State, sid: SessionId, batchSeq: int)
    requires Inv(s)
    ensures var (claimed, claim) := ClaimPull(s.sv.lock, sid, batchSeq);
            var pulling := s.sv.lock.Some? && s.sv.lock.value.state == Pulling;
            claim.PullRefused? ==>
              && claimed == s.sv.lock
              && (claim.why == SessionNotFound <==> !pulling)
              && (claim.why == SessionIdMismatch <==> pulling && !Holds(s, sid))
              && (claim.why == BatchSeqMismatch <==> pulling && Holds(s, sid) && batchSeq != |s.log.pullNumbers| + 1)
              && claim.why != StateMismatch && claim.why != ScriptOK
  {
    hide UsnSafe, Increasing, QueueToString, PullQueue, Session, Adjacent, Counting, Received, Delivered, EntryChanges;
  }

  lemma PushRefusals(s: State, sid: SessionId, batchSeq: int, count: nat)
    requires Inv(s) && count > 0
    ensures var (claimed, claim) := ClaimPush(s.sv.lock, sid, batchSeq, count);
            var ready := Holds(s, sid) && (s.sv.lock.value.state == Pushing || s.sv.lock.value.state == AwaitingPushOrFinish);
            claim.PushRefused? ==>
              && claimed == s.sv.lock
              && (claim.why == SessionNotFound <==> s.sv.lock.None?)
              && (claim.why == SessionIdMismatch <==> s.sv.lock.Some? && !Holds(s, sid))
              && (claim.why == StateMismatch <==> Holds(s, sid) && !ready)
              && (claim.why == BatchSeqMismatch <==> ready && batchSeq != |s.log.claims| + 1)
              && claim.why != ScriptOK
  {
    hide UsnSafe, Increasing, QueueToString, PullQueue, Session, Adjacent, Counting, Received, Delivered, EntryChanges;
  }

  // ----- push -----

  /** The transaction of a claimed batch: it is committed and every change announced with its USN, or the
      database is as it was and the reason is given. The session is untouched either way. */
  lemma PushAnswers(sv: Server, start: int, cs: seq<SyncChange>, fails: bool)
    requires start >= StoredCursor(sv.db) && cs != []
    ensures var (after, outcome) := ResolvePushStep(sv, start, cs, fails);
            var acceptable := forall c <- cs :: Acceptable(c);
            var collected := sv.db.collection.Some? || exists c <- cs :: PushesCollection(c);
            && after.lock == sv.lock
            && (outcome.Committed? <==> acceptable && collected && !fails)
            && (outcome.InvalidChange? <==> !acceptable)
            && (outcome.CursorNotMoved? <==> acceptable && !collected)
            && (outcome.DatabaseFailure? <==> acceptable && collected && fails)
            && (!outcome.Committed? ==> after == sv)
            && (outcome.Committed? ==>
                  && |outcome.reply| == |cs| && StoredCursor(after.db) == start + |cs|
                  && forall i | 0 <= i < |cs| :: cs[i].SyncChange? &&
                       outcome.reply[i] == SyncChange(cs[i].id, cs[i].kind, OpAssignUsn, start + i, None, None))
  {
    hide Acceptable, PushesCollection, ApplyAll;
    CommitOutcome(sv.db, start, cs);
    AcceptedAreChanges(sv.db, start, cs);
    assert forall i | 0 <= i < |cs| :: cs[i] in cs;
  }

  // ----- finish_push -----

  /** finish_push is accepted iff the session is pushing and the number is the next one. It then moves the
      session on to AWAITING_FINISH and changes nothing else; otherwise it changes nothing and says why. */
  lemma FinishPushAnswers(s: State, sid: SessionId, batchSeq: int)
    requires Inv(s)
    ensures var reply, t := FinishPushStep(s.sv, sid, batchSeq).1, Next(s, PushFinishRequested(sid, batchSeq));
            var pushing := Holds(s, sid) && s.sv.lock.value.state == Pushing;
            && (reply == PushFinished || reply.PushDenied?)
            && (reply == PushFinished <==> pushing && batchSeq == |s.log.claims| + 1)
            && (reply == PushFinished ==>
                  && Holds(t, sid) && t.sv.lock.value.state == AwaitingFinish
                  && t == s.(sv := s.sv.(lock := Some(s.sv.lock.value.(state := AwaitingFinish)))))
            && (reply.PushDenied? ==>
                  && t == s
                  && (reply.why == SessionNotFound <==> s.sv.lock.None?)
                  && (reply.why == SessionIdMismatch <==> s.sv.lock.Some? && !Holds(s, sid))
                  && (reply.why == StateMismatch <==> Holds(s, sid) && !pushing)
                  && (reply.why == BatchSeqMismatch <==> pushing && batchSeq != |s.log.claims| + 1))
  {
    hide UsnSafe, Increasing, QueueToString, PullQueue, Session, Adjacent, Counting, Received, Delivered, EntryChanges;
  }

  /** After that every push and every further finish_push is refused, and FinishSync succeeds. */
  lemma AfterFinishPush(s: State, sid: SessionId, batchSeq: int, next: int, changes: seq<SyncChange>, time: int)
    requires Inv(s) && FinishPushStep(s.sv, sid, batchSeq).1 == PushFinished && changes != []
    ensures var t := Next(s, PushFinishRequested(sid, batchSeq));
            && ClaimPushStep(t.sv, sid, next, changes).1 == PushRefused(StateMismatch)
            && FinishPushStep(t.sv, sid, next).1 == PushDenied(StateMismatch)
            && FinishSyncStep(t.sv, sid, time, NoFault).1 == FinishScript(ScriptOK)
  {
    hide Inv;
  }

  // ----- FinishSync -----

  predicate CanFinishSync(s: State, sid: SessionId) {
    Holds(s, sid) && (s.sv.lock.value.state == AwaitingPushOrFinish || s.sv.lock.value.state == AwaitingFinish)
  }

  /** Nothing but the collection's last sync time differs. */
  predicate OnlyTimeSet(a: Database, b: Database, time: int) {
    && b.rows == a.rows && b.units == a.units && StoredCursor(b) == StoredCursor(a)
    && (a.collection.Some? <==> b.collection.Some?)
    && (a.collection.Some? ==> b.collection.value.id == a.collection.value.id && b.collection.value.lastSyncTime == time)
  }

  /** FinishSync frees the lock iff it is the session's own, in one of the two finishing states, and
      nothing fails. It then has stored the time. A refusal changes nothing and says why. */
  lemma FinishAnswers(s: State, sid: SessionId, time: int, fault: FinishFault)
    ensures var reply, t := FinishSyncStep(s.sv, sid, time, fault).1, Next(s, FinishRequested(sid, time, fault));
            var can := CanFinishSync(s, sid);
            && t.log == s.log && t.pending == s.pending
            && (s.sv.lock.Some? ==> (t.sv.lock.None? <==> can && fault == NoFault))
            && (reply == FinishScript(ScriptOK) <==> can && fault == NoFault)
            && (reply == FinishInternalError <==> can && fault != NoFault)
            && (t.sv.lock.Some? ==> t.sv.lock == s.sv.lock)
            && (can && fault != TimeFails ==> OnlyTimeSet(s.sv.db, t.sv.db, time))
            && (!can || fault == TimeFails ==> t == s)
            && (!can ==>
                  && reply.FinishScript?
                  && (reply.r == SessionNotFound <==> s.sv.lock.None?)
                  && (reply.r == SessionIdMismatch <==> s.sv.lock.Some? && !Holds(s, sid))
                  && (reply.r == StateMismatch <==> Holds(s, sid)))
  {
  }

  /** The next client that wants a session then gets one, and is told the time. */
  lemma AfterFinish(s: State, sid: SessionId, time: int, req: HandshakeRequest, now: int, next: SessionId)
    requires CanFinishSync(s, sid)
    ensures var t := Next(s, FinishRequested(sid, time, NoFault));
            var (after, reply) := HandshakeStep(t.sv, req, now, next);
            && (WantsSession(s.sv.db, req, now) <==> reply.sessionId == Some(next))
            && (WantsSession(s.sv.db, req, now) ==> after.lock.Some? && after.lock.value.sessionId == next)
            && (s.sv.db.collection.Some? ==> reply.serverLastSyncTime == time)
  {
    hide HandshakeStep, Next, FinishSyncStep;
    FinishAnswers(s, sid, time, NoFault);
    HandshakeAnswers(Next(s, FinishRequested(sid, time, NoFault)).sv, req, now, next);
  }

  // ----- a session can be seen through -----

  /** The events of a session that pushes one batch and finishes. */
  function PushAndFinish(sid: SessionId, changes: seq<SyncChange>, time: int): seq<Event> {
    [PushClaimRequested(sid, 1, changes), PushResolved(false), PushFinishRequested(sid, 2), FinishRequested(sid, time, NoFault)]
  }

  /** What the claim of the first batch of a pulled session leaves behind. */
  lemma AfterFirstClaim(s: State, sid: SessionId, changes: seq<SyncChange>)
    requires Inv(s) && Holds(s, sid) && s.sv.lock.value.state == AwaitingPushOrFinish && changes != []
    ensures var e := PushClaimRequested(sid, 1, changes);
            var t := Next(s, e);
            && Allowed(s, e) && Holds(t, sid) && t.sv.lock.value.state == Pushing && t.sv.db == s.sv.db
            && t.sv.lock.value.expectedBatchSeq == 2 && t.log.commits == s.log.commits
            && t.pending == Some(PendingPush(StoredCursor(s.sv.db), changes))
  {
    hide UsnSafe, Increasing, QueueToString, PullQueue, Session, Counting, Received, Delivered, EntryChanges;
  }

  lemma AfterCommit(s: State)
    requires s.pending.Some? && PushTransaction(s.sv.db, s.pending.value.start, s.pending.value.changes).1.Committed?
    ensures var t := Next(s, PushResolved(false));
            && Allowed(s, PushResolved(false)) && t.sv.lock == s.sv.lock && t.pending.None?
            && t.sv.db == PushTransaction(s.sv.db, s.pending.value.start, s.pending.value.changes).0
            && |t.log.commits| == |s.log.commits| + 1
  {
    hide PushTransaction;
  }

  /** After its pull a session can push a batch the server accepts, finish, and free the lock: the whole
      run is allowed, the batch is committed, and the time is stored. */
  lemma PulledSessionPushesAndFinishes(s: State, sid: SessionId, changes: seq<SyncChange>, time: int)
    requires Inv(s) && Holds(s, sid) && s.sv.lock.value.state == AwaitingPushOrFinish
    requires changes != [] && forall c <- changes :: Acceptable(c)
    requires s.sv.db.collection.Some? || exists c <- changes :: PushesCollection(c)
    ensures var t := After(s, PushAndFinish(sid, changes, time));
            && Legal(s, PushAndFinish(sid, changes, time))
            && t.sv.lock.None? && t.pending.None? && |t.log.commits| == |s.log.commits| + 1
            && StoredCursor(t.sv.db) == StoredCursor(s.sv.db) + |changes|
            && t.sv.db.collection.Some? && t.sv.db.collection.value.lastSyncTime == time
            && t.sv.db.rows == PushTransaction(s.sv.db, StoredCursor(s.sv.db), changes).0.rows
  {
    hide Inv, Next, PushTransaction, Acceptable, PushesCollection;
    var start := StoredCursor(s.sv.db);
    var es := PushAndFinish(sid, changes, time);
    CommitsIff(s.sv.db, start, changes);
    assert UsnSafe(s.sv.db) by { InvIsSafe(s); }
    TransactionKeepsSafe(s.sv.db, start, changes);
    CommittedHasCollection(s.sv.db, start, changes);
    AfterFirstClaim(s, sid, changes);
    var s1 := Next(s, es[0]);
    AfterCommit(s1);
    var s2 := Next(s1, es[1]);
    FinishPushMoves(s2, sid);
    var s3 := Next(s2, es[2]);
    FinishAnswers(s3, sid, time, NoFault);
    FourSteps(s, es);
  }

  lemma InvIsSafe(s: State)
    requires Inv(s)
    ensures UsnSafe(s.sv.db)
  {
  }

  lemma CommittedHasCollection(db: Database, start: int, cs: seq<SyncChange>)
    requires PushTransaction(db, start, cs).1.Committed?
    ensures PushTransaction(db, start, cs).0.collection.Some?
  {
  }

  lemma FinishPushMoves(s: State, sid: SessionId)
    requires Holds(s, sid) && s.sv.lock.value.state == Pushing && s.sv.lock.value.expectedBatchSeq == 2 && s.pending.None?
    ensures var t := Next(s, PushFinishRequested(sid, 2));
            && Allowed(s, PushFinishRequested(sid, 2)) && CanFinishSync(t, sid) && t.sv.db == s.sv.db
            && t.pending == s.pending && t.log == s.log
  {
  }

  lemma FourSteps(s: State, es: seq<Event>)
    requires |es| == 4 && Allowed(s, es[0]) && Allowed(Next(s, es[0]), es[1])
    requires Allowed(Next(Next(s, es[0]), es[1]), es[2]) && Allowed(Next(Next(Next(s, es[0]), es[1]), es[2]), es[3])
    ensures Legal(s, es) && After(s, es) == Next(Next(Next(Next(s, es[0]), es[1]), es[2]), es[3])
  {
    hide Next, Allowed;
    var s1, s2, s3 := Next(s, es[0]), Next(Next(s, es[0]), es[1]), Next(Next(Next(s, es[0]), es[1]), es[2]);
    assert es[3..] == [es[3]] && es[3..][1..] == [];
    assert Legal(Next(s3, es[3]), []) && Legal(s3, es[3..]) && After(s3, es[3..]) == Next(s3, es[3]);
    assert es[2..][1..] == es[3..];
    assert Legal(s2, es[2..]) && After(s2, es[2..]) == After(s3, es[3..]);
    assert es[1..][1..] == es[2..];
    assert Legal(s1, es[1..]) && After(s1, es[1..]) == After(s2, es[2..]);
  }

  /** Whether a session that is pulling can be seen through at all: some run without expiry frees the
      lock iff what was unread at its handshake survives the cuts. */
  lemma LockIsFreedIff(s: State, sid: SessionId)
    requires Inv(s) && IndexAgrees(s.sv.db) && Holds(s, sid) && s.sv.lock.value.state == Pulling
    ensures (exists es :: Frees(s, es)) <==> Survives(Unread(s.sv.db, s.sv.lock.value.cliSyncCursorUSNAtHandshake))
  {
    hide Inv, Next, IndexAgrees, Unread, Survives, FinishSyncStep, Legal, After;
    if Survives(Unread(s.sv.db, s.sv.lock.value.cliSyncCursorUSNAtHandshake)) {
      SessionFinishesIff(s, sid);
      var es :| LeavesPulling(s, es, sid) && OwnPulls(es, sid);
      PulledByOwnPulls(s, es, sid);
      var finish := FinishRequested(sid, 0, NoFault);
      FinishAnswers(After(s, es), sid, 0, NoFault);
      RunExtends(s, es, finish);
      assert Frees(s, es + [finish]);
    }
    if es :| Frees(s, es) {
      if !Survives(Unread(s.sv.db, s.sv.lock.value.cliSyncCursorUSNAtHandshake)) {
        DoomedSessionOnlyExpires(s, es, sid);
        assert false;
      }
    }
  }

  ghost predicate Frees(s: State, es: seq<Event>) {
    Legal(s, es) && (forall e <- es :: !e.Expired?) && After(s, es).sv.lock.None?
  }

  /** A session that its own pulls lead out of PULLING has pulled everything, and nothing is pending. */
  lemma {:induction false} PulledByOwnPulls(s: State, es: seq<Event>, sid: SessionId)
    requires Inv(s) && Holds(s, sid) && s.sv.lock.value.state == Pulling
    requires LeavesPulling(s, es, sid) && OwnPulls(es, sid)
    ensures CanFinishSync(After(s, es), sid) && After(s, es).pending.None?
    decreases |es|
  {
    hide Inv, Next, Allowed;
    if es != [] {
      var e, t := es[0], Next(s, es[0]);
      assert e in es && forall x <- es[1..] :: x in es;
      StepKeepsInv(s, e);
      PullKeepsHolder(s, e, sid);
      if t.sv.lock.value.state == Pulling {
        PulledByOwnPulls(t, es[1..], sid);
      } else {
        PulledIgnoresPulls(t, es[1..], sid);
      }
    }
  }

  lemma PullKeepsHolder(s: State, e: Event, sid: SessionId)
    requires Inv(s) && Allowed(s, e) && Holds(s, sid) && s.sv.lock.value.state == Pulling && e.PullRequested?
    ensures var t := Next(s, e);
            && Holds(t, sid) && t.pending.None?
            && (t.sv.lock.value.state == Pulling || t.sv.lock.value.state == AwaitingPushOrFinish)
  {
    hide UsnSafe, Increasing, QueueToString, PullBatch, PullQueue, ParseQueue, Session, Counting, Received, Delivered, EntryChanges;
    SessionHeldOverPull(s, e, sid);
    PullingStep(s, e, sid);
  }

  lemma SessionHeldOverPull(s: State, e: Event, sid: SessionId)
    requires Holds(s, sid) && e.PullRequested?
    ensures Holds(Next(s, e), sid) && Next(s, e).pending == s.pending
  {
    hide QueueToString, PullBatch, PullQueue, ParseQueue;
  }

  /** Further pulls after the last one change nothing. */
  lemma {:induction false} PulledIgnoresPulls(s: State, es: seq<Event>, sid: SessionId)
    requires Inv(s) && CanFinishSync(s, sid) && s.sv.lock.value.state == AwaitingPushOrFinish && OwnPulls(es, sid)
    ensures After(s, es) == s
    decreases |es|
  {
    hide Inv, Next;
    if es != [] {
      assert es[0] in es && forall x <- es[1..] :: x in es;
      PullAnswers(s, sid, es[0].batchSeq, es[0].fails);
      NextIsPull(s, es[0]);
      PulledIgnoresPulls(s, es[1..], sid);
    }
  }

  lemma NextIsPull(s: State, e: Event)
    requires e.PullRequested?
    ensures Next(s, e) == NextPull(s, e.sid, e.batchSeq, e.fails)
  {
  }
}
