/** The whole system for one user, as a state machine over requests, transactions and expiries. */
module Protocol {
  import opened Wrappers
  import opened SyncModel
  import opened PushApply
  import opened PushProofs
  import opened PullBatches
  import opened Collectors
  import opened PullSessions
  import opened QueueCodec
  import opened PullQueues
  import opened Sessions
  import opened SyncHandlers

  /** A claimed push batch whose transaction has not ended yet. */
  datatype PendingPush = PendingPush(start: int, changes: seq<SyncChange>)

  datatype Claim = Claim(batchSeq: int, start: int, count: int)

  /** A committed batch: the changes as sent, and the USNs the reply assigned to them. */
  datatype Commit = Commit(start: int, changes: seq<SyncChange>, reply: seq<SyncChange>)

  /** History. `commits` covers the whole run, the rest the current session: the queue it started
      with, the accepted batch numbers of its pulls, its successful pulls, its push claims, and the
      successful replies to its pulls, as sent. */
  datatype Log = Log(
    used: set<SessionId>,
    commits: seq<Commit>,
    queue0: seq<Int8>,
    pullNumbers: seq<int>,
    pulls: seq<Pull>,
    claims: seq<Claim>,
    replies: seq<PullReply>)

  datatype State = State(sv: Server, pending: Option<PendingPush>, log: Log)

  const INITIAL := State(Server(EMPTY_DATABASE, None), None, Log({}, [], [], [], [], [], []))

  datatype Event =
    | HandshakeRequested(req: HandshakeRequest, now: int, sid: SessionId)
    | PullRequested(sid: SessionId, batchSeq: int, fails: bool)
    | PushClaimRequested(sid: SessionId, batchSeq: int, changes: seq<SyncChange>)
    | PushResolved(fails: bool)
    | PushFinishRequested(sid: SessionId, batchSeq: int)
    | FinishRequested(sid: SessionId, time: int, fault: FinishFault)
    | Expired

  // ----- steps -----

  function NextHandshake(s: State, req: HandshakeRequest, now: int, sid: SessionId): State {
    var (sv, reply) := HandshakeStep(s.sv, req, now, sid);
    var used := s.log.used + {sid};
    if reply.sessionId.None? then s.(sv := sv, log := s.log.(used := used))
    else
      var queue0 := PullQueue(s.sv.db, req.clientCursor, StoredCursor(s.sv.db));
      State(sv, s.pending, Log(used, s.log.commits, queue0, [], [], [], []))
  }

  function NextPull(s: State, sid: SessionId, batchSeq: int, fails: bool): State {
    var (sv, reply) := PullStep(s.sv, sid, batchSeq, fails);
    if reply.PullDenied? then s.(sv := sv)
    else
      var log := s.log.(pullNumbers := s.log.pullNumbers + [batchSeq]);
      if reply.PullInternalError? then s.(sv := sv, log := log)
      else
        var claim := ClaimPull(s.sv.lock, sid, batchSeq).1;
        var queue := ParseQueue(claim.queue).value;
        var r := PullBatch(s.sv.db.rows, queue, claim.cursor, claim.cursor, claim.upper, 0);
        s.(sv := sv, log := log.(pulls := log.pulls + [Pull(queue, claim.cursor, r.out, r.queue, r.cursor)],
                                    replies := log.replies + [reply]))
  }

  function NextClaim(s: State, sid: SessionId, batchSeq: int, changes: seq<SyncChange>): State {
    if changes == [] then s
    else
      var (sv, claim) := ClaimPushStep(s.sv, sid, batchSeq, changes);
      if claim.PushRefused? then s.(sv := sv)
      else
        State(sv, Some(PendingPush(claim.start, changes)),
              s.log.(claims := s.log.claims + [Claim(batchSeq, claim.start, |changes|)]))
  }

  function NextResolve(s: State, fails: bool): State {
    if s.pending.None? then s
    else
      var b := s.pending.value;
      var (sv, outcome) := ResolvePushStep(s.sv, b.start, b.changes, fails);
      var commits := s.log.commits + (if outcome.Committed? then [Commit(b.start, b.changes, outcome.reply)] else []);
      State(sv, None, s.log.(commits := commits))
  }

  function Next(s: State, e: Event): State {
    match e
    case HandshakeRequested(req, now, sid) => NextHandshake(s, req, now, sid)
    case PullRequested(sid, batchSeq, fails) => NextPull(s, sid, batchSeq, fails)
    case PushClaimRequested(sid, batchSeq, changes) => NextClaim(s, sid, batchSeq, changes)
    case PushResolved(fails) => NextResolve(s, fails)
    case PushFinishRequested(sid, batchSeq) => s.(sv := FinishPushStep(s.sv, sid, batchSeq).0)
    case FinishRequested(sid, time, fault) => s.(sv := FinishSyncStep(s.sv, sid, time, fault).0)
    case Expired => s.(sv := s.sv.(lock := None))
  }

  predicate IsSessionRequest(e: Event) {
    e.PullRequested? || e.PushClaimRequested? || e.PushFinishRequested? || e.FinishRequested?
  }

  predicate Holds(s: State, sid: SessionId) {
    s.sv.lock.Some? && s.sv.lock.value.sessionId == sid
  }

  /** What the server relies on: session ids are fresh, one request of a session is in flight at a
      time, and a session does not expire while one of its transactions is pending. Requests with
      any other id are unrestricted. */
  predicate Allowed(s: State, e: Event) {
    && (e.HandshakeRequested? ==> e.sid !in s.log.used)
    && (IsSessionRequest(e) && Holds(s, e.sid) ==> s.pending.None?)
    && (e.Expired? ==> s.pending.None?)
    && (e.PushResolved? ==> s.pending.Some?)
  }

  function After(s: State, es: seq<Event>): State
    decreases |es|
  {
    if es == [] then s else After(Next(s, es[0]), es[1..])
  }

  predicate Legal(s: State, es: seq<Event>)
    decreases |es|
  {
    es == [] || (Allowed(s, es[0]) && Legal(Next(s, es[0]), es[1..]))
  }

  // ----- the invariant -----

  /** Claims of one session: numbers 1, 2, 3, ..., adjacent non-empty ranges from `from` to `to`. */
  ghost predicate Adjacent(claims: seq<Claim>, from: int, to: int) {
    if claims == [] then from == to
    else
      var last := claims[|claims| - 1];
      && last.batchSeq == |claims| && last.count > 0 && last.start + last.count == to
      && Adjacent(claims[..|claims| - 1], from, last.start)
  }

  /** The USN behind the last one of the batch. */
  function EndOf(c: Commit): int {
    c.start + |c.changes|
  }

  /** Batches whose ranges of USNs are in increasing order, pairwise disjoint, all below `bound`. */
  ghost predicate Increasing(commits: seq<Commit>, bound: int) {
    commits == [] ||
    (var last := commits[|commits| - 1];
     last.start < EndOf(last) <= bound && Increasing(commits[..|commits| - 1], last.start))
  }

  /** 1, 2, 3, ... */
  ghost predicate Counting(xs: seq<int>) {
    forall i | 0 <= i < |xs| :: xs[i] == i + 1
  }

  /** The changes a client finds in the replies to its pulls, in the order in which they came. */
  function Received(replies: seq<PullReply>): seq<SyncChange> {
    if replies == [] then []
    else
      var n := |replies| - 1;
      Received(replies[..n]) + (if replies[n].PullResponse? then replies[n].changes else [])
  }

  ghost predicate PulledSoFar(s: State, ss: SyncSession) {
    && ss.cliSyncCursorUSNAtHandshake < ss.srvSyncCursorUSNAtHandshake == StoredCursor(s.sv.db)
    && s.log.queue0 == PullQueue(s.sv.db, ss.cliSyncCursorUSNAtHandshake, ss.srvSyncCursorUSNAtHandshake)
    && Session(s.sv.db.rows, s.log.queue0, ss.cliSyncCursorUSNAtHandshake, ss.srvSyncCursorUSNAtHandshake, AsCoded, s.log.pulls)
    && Received(s.log.replies) == EntryChanges(Delivered(s.log.pulls))
    && Counting(s.log.pullNumbers)
    && s.log.claims == [] && s.pending.None?
  }

  ghost predicate PullingInv(s: State, ss: SyncSession) {
    && PulledSoFar(s, ss)
    && ss.expectedBatchSeq == |s.log.pullNumbers| + 1
    && (s.log.pulls != [] ==> QueueAfter(s.log.queue0, s.log.pulls) != [])
    && ss.pullEntityQueue == Some(QueueToString(QueueAfter(s.log.queue0, s.log.pulls)))
    && ss.syncCursorUSN == CursorAfter(ss.cliSyncCursorUSNAtHandshake, s.log.pulls)
  }

  ghost predicate PulledInv(s: State, ss: SyncSession) {
    && PulledSoFar(s, ss)
    && s.log.pulls != [] && QueueAfter(s.log.queue0, s.log.pulls) == []
    && ss.expectedBatchSeq == 1 && ss.pullEntityQueue.None?
    && ss.syncCursorUSN == ss.srvSyncCursorUSNAtHandshake
  }

  ghost predicate PushedInv(s: State, ss: SyncSession) {
    && ss.pullEntityQueue.None?
    && ss.syncCursorUSN >= StoredCursor(s.sv.db)
    && Adjacent(s.log.claims, ss.srvSyncCursorUSNAtHandshake, ss.syncCursorUSN)
    && Counting(s.log.pullNumbers)
    && (ss.state == Pushing ==> ss.expectedBatchSeq == |s.log.claims| + 1)
    && (s.pending.Some? ==>
          var b := s.pending.value;
          && ss.state == Pushing && b.changes != []
          && StoredCursor(s.sv.db) <= b.start && b.start + |b.changes| == ss.syncCursorUSN)
  }

  ghost predicate LockInv(s: State) {
    match s.sv.lock
    case None => s.pending.None?
    case Some(ss) =>
      ss.sessionId in s.log.used &&
      match ss.state
      case Pulling => PullingInv(s, ss)
      case AwaitingPushOrFinish => PulledInv(s, ss)
      case Pushing => PushedInv(s, ss)
      case AwaitingFinish => PushedInv(s, ss)
      case AwaitingUploadAllConfirm =>
        s.pending.None? && ss.pullEntityQueue.None? && s.log.claims == [] && s.log.pullNumbers == []
      case Unspecified => false
      case UploadingAll => false
  }

  ghost predicate Inv(s: State) {
    && UsnSafe(s.sv.db)
    && Increasing(s.log.commits, StoredCursor(s.sv.db))
    && LockInv(s)
  }

  // ----- every step keeps it -----

  lemma IncreasingWeaken(commits: seq<Commit>, bound: int, higher: int)
    requires Increasing(commits, bound) && bound <= higher
    ensures Increasing(commits, higher)
  {
  }

  lemma UsedIdsMayGrow(s: State, sid: SessionId)
    requires Inv(s)
    ensures Inv(s.(log := s.log.(used := s.log.used + {sid})))
  {
    hide UsnSafe, Increasing, QueueToString, PullQueue, Session, Adjacent;
  }

  lemma NewSessionIsFine(s: State, req: HandshakeRequest, sid: SessionId)
    requires Inv(s) && s.sv.lock.None? && WantedSession(s.sv.db, req, sid).Some?
    ensures var queue0 := PullQueue(s.sv.db, req.clientCursor, StoredCursor(s.sv.db));
            Inv(State(s.sv.(lock := CreateSession(None, WantedSession(s.sv.db, req, sid).value).0), s.pending,
                      Log(s.log.used + {sid}, s.log.commits, queue0, [], [], [], [])))
  {
    hide UsnSafe, Increasing, QueueToString, PullQueue;
  }

  lemma HandshakeKeepsInv(s: State, req: HandshakeRequest, now: int, sid: SessionId)
    requires Inv(s) && Allowed(s, HandshakeRequested(req, now, sid))
    ensures Inv(NextHandshake(s, req, now, sid))
  {
    hide Inv;
    UsedIdsMayGrow(s, sid);
    if s.sv.lock.None? && WantedSession(s.sv.db, req, sid).Some? {
      NewSessionIsFine(s, req, sid);
    }
  }

  /** The stored queue, read back: a suffix of the queue of the handshake. */
  lemma StoredQueueReadsBack(s: State, ss: SyncSession)
    requires PullingInv(s, ss)
    ensures ParseQueue(ss.pullEntityQueue.value).Some?
    ensures ParseQueue(ss.pullEntityQueue.value).value == QueueAfter(s.log.queue0, s.log.pulls)
    ensures var k := |s.log.queue0| - |QueueAfter(s.log.queue0, s.log.pulls)|;
            k >= 0 && QueueAfter(s.log.queue0, s.log.pulls) == s.log.queue0[k..]
  {
    hide Session, QueueToString, ParseQueue, PullQueue;
    CursorsStayInRange(s.sv.db.rows, s.log.queue0, ss.cliSyncCursorUSNAtHandshake, ss.srvSyncCursorUSNAtHandshake, AsCoded, s.log.pulls);
    var k := |s.log.queue0| - |QueueAfter(s.log.queue0, s.log.pulls)|;
    QueueRoundTrip(s.log.queue0[k..]);
  }

  /** A pull that only uses up its number. */
  function Counted(s: State, batchSeq: int): State
    requires s.sv.lock.Some?
  {
    s.(sv := s.sv.(lock := Some(s.sv.lock.value.(expectedBatchSeq := batchSeq + 1))),
       log := s.log.(pullNumbers := s.log.pullNumbers + [batchSeq]))
  }

  /** A successful pull that does not finish the session, and one that does. */
  function PulledOn(s: State, sid: SessionId, batchSeq: int, p: Pull): State
    requires s.sv.lock.Some?
  {
    var c := Counted(s, batchSeq);
    c.(sv := c.sv.(lock := UpdatePullProgress(c.sv.lock, sid, QueueToString(p.next), p.cursor).0),
       log := Answered(c.log, p, PullResponse(batchSeq, EntryChanges(p.out), MaxUsn(p.out), false)))
  }

  function Answered(log: Log, p: Pull, reply: PullReply): Log {
    log.(pulls := log.pulls + [p], replies := log.replies + [reply])
  }

  function PulledAll(s: State, sid: SessionId, batchSeq: int, p: Pull): State
    requires s.sv.lock.Some?
  {
    var c := Counted(s, batchSeq);
    c.(sv := c.sv.(lock := MarkPullFinished(c.sv.lock, sid).0),
       log := Answered(c.log, p, PullResponse(batchSeq, EntryChanges(p.out), MaxUsn(p.out), true)))
  }

  lemma PullOutcomes(s: State, sid: SessionId, batchSeq: int, fails: bool)
    requires Inv(s) && ClaimPullCheck(s.sv.lock, sid, batchSeq) == ScriptOK
    ensures var ss := s.sv.lock.value;
            var queue := QueueAfter(s.log.queue0, s.log.pulls);
            var r := PullBatch(s.sv.db.rows, queue, ss.syncCursorUSN, ss.syncCursorUSN, ss.srvSyncCursorUSNAtHandshake, 0);
            NextPull(s, sid, batchSeq, fails) ==
            if fails || r.Failed? then Counted(s, batchSeq)
            else
              var p := Pull(queue, ss.syncCursorUSN, r.out, r.queue, r.cursor);
              if p.next == [] then PulledAll(s, sid, batchSeq, p) else PulledOn(s, sid, batchSeq, p)
  {
    hide UsnSafe, Increasing, QueueToString, PullBatch, PullQueue, ParseQueue, Session, PulledSoFar, PushedInv, PulledInv;
    StoredQueueReadsBack(s, s.sv.lock.value);
  }

  lemma ReceivedExtends(replies: seq<PullReply>, pulls: seq<Pull>, reply: PullReply, p: Pull)
    requires Received(replies) == EntryChanges(Delivered(pulls))
    requires reply.PullResponse? && reply.changes == EntryChanges(p.out)
    ensures Received(replies + [reply]) == EntryChanges(Delivered(pulls + [p]))
  {
    assert (replies + [reply])[..|replies|] == replies && (pulls + [p])[..|pulls|] == pulls;
    assert EntryChanges(Delivered(pulls) + p.out) == EntryChanges(Delivered(pulls)) + EntryChanges(p.out);
  }

  lemma CountedKeepsInv(s: State, ss: SyncSession)
    requires Inv(s) && s.sv.lock == Some(ss) && ss.state == Pulling
    ensures Inv(Counted(s, ss.expectedBatchSeq))
  {
    hide UsnSafe, Increasing, QueueToString, PullQueue, Session, PushedInv, PulledInv, Received, Delivered, EntryChanges;
  }

  lemma PulledOnKeepsInv(s: State, ss: SyncSession, p: Pull)
    requires Inv(s) && s.sv.lock == Some(ss) && ss.state == Pulling && p.next != []
    requires Follows(s.sv.db.rows, s.log.queue0, ss.cliSyncCursorUSNAtHandshake, ss.srvSyncCursorUSNAtHandshake, AsCoded, s.log.pulls, p)
    ensures Inv(PulledOn(s, ss.sessionId, ss.expectedBatchSeq, p))
  {
    hide UsnSafe, Increasing, QueueToString, PullQueue, Session, PushedInv, PulledInv, Follows, Received, Delivered, EntryChanges, MaxUsn;
    ReceivedExtends(s.log.replies, s.log.pulls, PullResponse(ss.expectedBatchSeq, EntryChanges(p.out), MaxUsn(p.out), false), p);
    SessionExtends(s.sv.db.rows, s.log.queue0, ss.cliSyncCursorUSNAtHandshake, ss.srvSyncCursorUSNAtHandshake, AsCoded, s.log.pulls, p);
  }

  lemma PulledAllKeepsInv(s: State, ss: SyncSession, p: Pull)
    requires Inv(s) && s.sv.lock == Some(ss) && ss.state == Pulling && p.next == []
    requires Follows(s.sv.db.rows, s.log.queue0, ss.cliSyncCursorUSNAtHandshake, ss.srvSyncCursorUSNAtHandshake, AsCoded, s.log.pulls, p)
    ensures Inv(PulledAll(s, ss.sessionId, ss.expectedBatchSeq, p))
  {
    hide UsnSafe, Increasing, QueueToString, PullQueue, Session, PushedInv, Follows, Received, Delivered, EntryChanges, MaxUsn;
    ReceivedExtends(s.log.replies, s.log.pulls, PullResponse(ss.expectedBatchSeq, EntryChanges(p.out), MaxUsn(p.out), true), p);
    SessionExtends(s.sv.db.rows, s.log.queue0, ss.cliSyncCursorUSNAtHandshake, ss.srvSyncCursorUSNAtHandshake, AsCoded, s.log.pulls, p);
  }

  /** The pull of a session reads the queue and the cursor that its pulls so far have left. */
  lemma PullFollows(s: State, ss: SyncSession, p: Pull)
    requires PullingInv(s, ss) && p.queue == QueueAfter(s.log.queue0, s.log.pulls) && p.start == ss.syncCursorUSN
    requires PullBatch(s.sv.db.rows, p.queue, p.start, p.start, ss.srvSyncCursorUSNAtHandshake, 0) == Batch(p.out, p.next, p.cursor)
    ensures Follows(s.sv.db.rows, s.log.queue0, ss.cliSyncCursorUSNAtHandshake, ss.srvSyncCursorUSNAtHandshake, AsCoded, s.log.pulls, p)
  {
    hide PulledSoFar, PullBatch, QueueToString;
  }

  lemma PullKeepsInv(s: State, sid: SessionId, batchSeq: int, fails: bool)
    requires Inv(s) && Allowed(s, PullRequested(sid, batchSeq, fails))
    ensures Inv(NextPull(s, sid, batchSeq, fails))
  {
    if ClaimPullCheck(s.sv.lock, sid, batchSeq) == ScriptOK {
      var ss := s.sv.lock.value;
      var queue := QueueAfter(s.log.queue0, s.log.pulls);
      hide Inv, Follows, PullingInv, PullBatch, NextPull, Counted, PulledOn, PulledAll, Allowed;
      PullOutcomes(s, sid, batchSeq, fails);
      PullingIsPulling(s);
      var r := PullBatch(s.sv.db.rows, queue, ss.syncCursorUSN, ss.syncCursorUSN, ss.srvSyncCursorUSNAtHandshake, 0);
      if fails || r.Failed? {
        CountedKeepsInv(s, ss);
      } else {
        var p := Pull(queue, ss.syncCursorUSN, r.out, r.queue, r.cursor);
        PullFollows(s, ss, p);
        if p.next == [] {
          PulledAllKeepsInv(s, ss, p);
        } else {
          PulledOnKeepsInv(s, ss, p);
        }
      }
    }
  }

  lemma PullingIsPulling(s: State)
    requires Inv(s) && s.sv.lock.Some? && s.sv.lock.value.state == Pulling
    ensures PullingInv(s, s.sv.lock.value)
  {
  }

  lemma AdjacentNone()
    ensures forall from :: Adjacent([], from, from)
  {
  }

  lemma AdjacentExtends(claims: seq<Claim>, from: int, to: int, claim: Claim)
    requires Adjacent(claims, from, to)
    requires claim.batchSeq == |claims| + 1 && claim.start == to && claim.count > 0
    ensures Adjacent(claims + [claim], from, to + claim.count)
  {
    assert (claims + [claim])[..|claims|] == claims;
  }

  lemma ClaimKeepsInv(s: State, sid: SessionId, batchSeq: int, changes: seq<SyncChange>)
    requires Inv(s) && Allowed(s, PushClaimRequested(sid, batchSeq, changes))
    ensures Inv(NextClaim(s, sid, batchSeq, changes))
  {
    hide UsnSafe, Increasing, QueueToString, PullQueue, Session, Adjacent;
    AdjacentNone();
    if changes != [] && ClaimPushCheck(s.sv.lock, sid, batchSeq, |changes|) == ScriptOK {
      var claims := s.log.claims;
      var claim := Claim(batchSeq, s.sv.lock.value.syncCursorUSN, |changes|);
      AdjacentExtends(claims, s.sv.lock.value.srvSyncCursorUSNAtHandshake, s.sv.lock.value.syncCursorUSN, claim);
    }
  }

  lemma IncreasingExtends(commits: seq<Commit>, bound: int, c: Commit)
    requires Increasing(commits, bound) && bound <= c.start < EndOf(c)
    ensures Increasing(commits + [c], EndOf(c))
  {
    assert (commits + [c])[..|commits|] == commits;
    IncreasingWeaken(commits, bound, c.start);
  }

  lemma ResolveKeepsInv(s: State, fails: bool)
    requires Inv(s) && Allowed(s, PushResolved(fails))
    ensures Inv(NextResolve(s, fails))
  {
    hide UsnSafe, PushTransaction, Adjacent, Increasing, Session, QueueToString, PullQueue, Counting;
    var b, commits := s.pending.value, s.log.commits;
    var (db, outcome) := PushTransaction(s.sv.db, b.start, b.changes);
    TransactionKeepsSafe(s.sv.db, b.start, b.changes);
    if outcome.Committed? {
      IncreasingExtends(commits, StoredCursor(s.sv.db), Commit(b.start, b.changes, outcome.reply));
    }
    assert commits + [] == commits;
  }

  lemma WithSyncTimeKeeps(db: Database, time: int)
    requires UsnSafe(db)
    ensures UsnSafe(WithSyncTime(db, time)) && StoredCursor(WithSyncTime(db, time)) == StoredCursor(db)
    ensures IndexAgrees(db) ==> IndexAgrees(WithSyncTime(db, time))
  {
  }

  lemma FinishKeepsInv(s: State, sid: SessionId, time: int, fault: FinishFault)
    requires Inv(s) && Allowed(s, FinishRequested(sid, time, fault))
    ensures Inv(Next(s, FinishRequested(sid, time, fault)))
  {
    hide UsnSafe, Increasing, QueueToString, PullQueue, Session, Adjacent, Counting;
    WithSyncTimeKeeps(s.sv.db, time);
    if s.sv.lock.Some? {
      var ss := s.sv.lock.value;
      UnitsDecideQueue(WithSyncTime(s.sv.db, time), s.sv.db, ss.cliSyncCursorUSNAtHandshake, ss.srvSyncCursorUSNAtHandshake);
    }
  }

  lemma FinishPushKeepsInv(s: State, sid: SessionId, batchSeq: int)
    requires Inv(s) && Allowed(s, PushFinishRequested(sid, batchSeq))
    ensures Inv(Next(s, PushFinishRequested(sid, batchSeq)))
  {
    hide UsnSafe, Increasing, QueueToString, PullQueue, Session, Adjacent;
  }

  lemma StepKeepsInv(s: State, e: Event)
    requires Inv(s) && Allowed(s, e)
    ensures Inv(Next(s, e))
  {
    match e
    case HandshakeRequested(req, now, sid) => HandshakeKeepsInv(s, req, now, sid);
    case PullRequested(sid, batchSeq, fails) => PullKeepsInv(s, sid, batchSeq, fails);
    case PushClaimRequested(sid, batchSeq, changes) => ClaimKeepsInv(s, sid, batchSeq, changes);
    case PushResolved(fails) => ResolveKeepsInv(s, fails);
    case PushFinishRequested(sid, batchSeq) => FinishPushKeepsInv(s, sid, batchSeq);
    case FinishRequested(sid, time, fault) => FinishKeepsInv(s, sid, time, fault);
    case Expired =>
  }
}
