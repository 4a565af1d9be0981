/** The request handlers: Handshake, Pull, Push and FinishSync over the session store and the database. */
module SyncHandlers {
  import opened Wrappers
  import opened SyncModel
  import opened PushApply
  import opened PushChangeStores
  import opened PullBatches
  import opened Collectors
  import opened PullChangeStores
  import opened QueueCodec
  import opened PullQueues
  import opened Sessions

  /** What the server stores for one user. */
  datatype Server = Server(db: Database, lock: Lock)

  // ----- handshake -----

  datatype HandshakeRequest = HandshakeRequest(
    collectionId: Option<EntityId>, clientCursor: int, clientNow: int, hasLocalChanges: bool)

  datatype HandshakeStatus =
    | TimeSkewTooLarge | CollectionIdMismatch | NoRemoteChanges | NeedPull | UploadAll | LockedByOtherClient

  datatype HandshakeReply = HandshakeReply(
    status: HandshakeStatus, sessionId: Option<SessionId>, serverCursor: int, serverLastSyncTime: int, collectionId: Option<EntityId>)

  function Abs(n: int): nat {
    if n < 0 then -n else n
  }

  /** The session a handshake asks for, or None when the client has nothing to pull or push. */
  function WantedSession(db: Database, req: HandshakeRequest, sid: SessionId): Option<SyncSession> {
    var cli, srv := req.clientCursor, StoredCursor(db);
    if cli == srv then
      if req.hasLocalChanges then Some(SyncSession(sid, Pushing, 1, srv, None, cli, srv)) else None
    else if cli < srv then
      Some(SyncSession(sid, Pulling, 1, cli, Some(QueueToString(PullQueue(db, cli, srv))), cli, srv))
    else
      Some(SyncSession(sid, AwaitingUploadAllConfirm, 1, 0, None, cli, srv))
  }

  /** The stored last_sync_time as a handshake reads it: 0 when the user has no collection. */
  function LastSyncTime(db: Database): int {
    if db.collection.Some? then db.collection.value.lastSyncTime else 0
  }

  /** `now` is the server's clock and `sid` the freshly generated session id. */
  function HandshakeStep(sv: Server, req: HandshakeRequest, now: int, sid: SessionId): (Server, HandshakeReply) {
    var srv, last := StoredCursor(sv.db), LastSyncTime(sv.db);
    if Abs(req.clientNow - now) >= 5 * 60 * 1000 then (sv, HandshakeReply(TimeSkewTooLarge, None, srv, last, None))
    else if sv.db.collection.Some? && req.collectionId != Some(sv.db.collection.value.id) then
      (sv, HandshakeReply(CollectionIdMismatch, None, srv, last, Some(sv.db.collection.value.id)))
    else
      var wanted := WantedSession(sv.db, req, sid);
      if wanted.None? then (sv, HandshakeReply(NoRemoteChanges, None, srv, last, None))
      else
        var (lock, created) := CreateSession(sv.lock, wanted.value);
        if !created then (sv, HandshakeReply(LockedByOtherClient, None, srv, last, None))
        else
          var status := match wanted.value.state
            case Pulling => NeedPull
            case Pushing => NoRemoteChanges
            case _ => UploadAll;
          (sv.(lock := lock), HandshakeReply(status, Some(sid), srv, last, None))
  }

  // ----- pull -----

  datatype PullReply =
    | PullDenied(why: ScriptResult)
    | PullInternalError
    | PullResponse(batchSeq: int, changes: seq<SyncChange>, batchMaxUsn: int, lastBatch: bool)

  /** Claim, collect, save. `fails` stands for any failure of the database or of Redis between the
      claim and the save: the batch number is used up, and nothing else changes. */
  function PullStep(sv: Server, sid: SessionId, batchSeq: int, fails: bool): (Server, PullReply) {
    var (claimed, claim) := ClaimPull(sv.lock, sid, batchSeq);
    if claim.PullRefused? then (sv, PullDenied(claim.why))
    else
      var queue := ParseQueue(claim.queue);
      if queue.None? || fails then (sv.(lock := claimed), PullInternalError)
      else
        var r := PullBatch(sv.db.rows, queue.value, claim.cursor, claim.cursor, claim.upper, 0);
        if r.Failed? then (sv.(lock := claimed), PullInternalError)
        else
          var lock := if r.queue == [] then MarkPullFinished(claimed, sid).0
                      else UpdatePullProgress(claimed, sid, QueueToString(r.queue), r.cursor).0;
          (sv.(lock := lock), PullResponse(batchSeq, EntryChanges(r.out), MaxUsn(r.out), r.queue == []))
  }

  // ----- push -----

  datatype PushReply = PushDenied(why: ScriptResult) | InvalidArgument | PushDone(outcome: PushOutcome) | PushFinished

  function FinishPushStep(sv: Server, sid: SessionId, batchSeq: int): (Server, PushReply) {
    var (lock, r) := MarkPushFinished(sv.lock, sid, batchSeq);
    (sv.(lock := lock), if r == ScriptOK then PushFinished else PushDenied(r))
  }

  function ClaimPushStep(sv: Server, sid: SessionId, batchSeq: int, changes: seq<SyncChange>): (Server, PushClaim) {
    var (lock, claim) := ClaimPush(sv.lock, sid, batchSeq, |changes|);
    (sv.(lock := lock), claim)
  }

  /** The transaction of a claimed batch; a failure of the commit rolls it back. */
  function ResolvePushStep(sv: Server, start: int, changes: seq<SyncChange>, fails: bool): (Server, PushOutcome) {
    var (db, outcome) := PushTransaction(sv.db, start, changes);
    if fails && outcome.Committed? then (sv, DatabaseFailure) else (sv.(db := db), outcome)
  }

  // ----- finish -----

  function WithSyncTime(db: Database, time: int): Database {
    if db.collection.None? then db
    else db.(collection := Some(db.collection.value.(lastSyncTime := time)))
  }

  /** What can go wrong between the check and the release: the update of the time, or the release. */
  datatype FinishFault = NoFault | TimeFails | ReleaseFails

  datatype FinishReply = FinishScript(r: ScriptResult) | FinishInternalError

  function FinishSyncStep(sv: Server, sid: SessionId, time: int, fault: FinishFault): (Server, FinishReply) {
    var check := CheckFinish(sv.lock, sid);
    if check != ScriptOK then (sv, FinishScript(check))
    else if fault == TimeFails then (sv, FinishInternalError)
    else if fault == ReleaseFails then (sv.(db := WithSyncTime(sv.db, time)), FinishInternalError)
    else
      var (lock, released) := Release(sv.lock, sid);
      (Server(WithSyncTime(sv.db, time), lock), FinishScript(released))
  }

  // ----- as the program runs them -----

  class SyncHandler {
    const sessions: SessionStore
    const db: MySql
    const pullStore: PullChangeStore
    const pushStore: PushChangeStore

    /** The stores work on the handler's database. */
    predicate Wired() {
      pullStore.db == db && pushStore.db == db
    }

    function Stored(): Server
      reads sessions, db
    {
      Server(db.tables, sessions.hash)
    }

    constructor (db: MySql)
      ensures Wired() && this.db == db && fresh(sessions) && sessions.hash.None?
    {
      this.db := db;
      sessions := new SessionStore();
      pullStore := new PullChangeStore(db);
      pushStore := new PushChangeStore(db);
    }

    /** The rows of the type query become one comma-separated string. */
    method GetPullEntityQueueForHandshake(lo: int, hi: int) returns (queue: string)
      ensures queue == QueueToString(PullQueue(db.tables, lo, hi))
    {
      hide Itoa, PullQueue;
      var rows := PullQueue(db.tables, lo, hi);
      var entityTypes: seq<string> := [];
      for i := 0 to |rows|
        invariant entityTypes == Itoas(rows[..i])
      {
        entityTypes := entityTypes + [Itoa(rows[i])];
      }
      assert rows[..|rows|] == rows;
      queue := Join(entityTypes);
    }

    method Handshake(req: HandshakeRequest, now: int, sid: SessionId) returns (reply: HandshakeReply)
      requires Wired()
      modifies sessions
      ensures (Stored(), reply) == HandshakeStep(old(Stored()), req, now, sid)
    {
      // GetColInfoForHandshake
      var serverCursor, lastSyncTime := 1, 0;
      if db.tables.collection.Some? {
        serverCursor, lastSyncTime := db.tables.collection.value.syncCursor, db.tables.collection.value.lastSyncTime;
      }
      if Abs(req.clientNow - now) >= 5 * 60 * 1000 {
        return HandshakeReply(TimeSkewTooLarge, None, serverCursor, lastSyncTime, None);
      }
      if db.tables.collection.Some? && req.collectionId != Some(db.tables.collection.value.id) {
        return HandshakeReply(CollectionIdMismatch, None, serverCursor, lastSyncTime, Some(db.tables.collection.value.id));
      }
      var session := SyncSession(sid, Unspecified, 0, 0, None, req.clientCursor, serverCursor);
      var status;
      if req.clientCursor == serverCursor {
        status := NoRemoteChanges;
        if !req.hasLocalChanges {
          return HandshakeReply(NoRemoteChanges, None, serverCursor, lastSyncTime, None);
        }
        session := session.(state := Pushing, syncCursorUSN := serverCursor, expectedBatchSeq := 1);
      } else if req.clientCursor < serverCursor {
        status := NeedPull;
        var queue := GetPullEntityQueueForHandshake(req.clientCursor, serverCursor);
        session := session.(state := Pulling, expectedBatchSeq := 1, syncCursorUSN := req.clientCursor, pullEntityQueue := Some(queue));
      } else {
        status := UploadAll;
        session := session.(state := AwaitingUploadAllConfirm, syncCursorUSN := 0, expectedBatchSeq := 1);
      }
      var created := sessions.RunCreateSession(session);
      if !created {
        return HandshakeReply(LockedByOtherClient, None, serverCursor, lastSyncTime, None);
      }
      reply := HandshakeReply(status, Some(sid), serverCursor, lastSyncTime, None);
    }

    method Pull(sid: SessionId, batchSeq: int, fails: bool) returns (reply: PullReply)
      requires Wired() && WellFormed(db.tables)
      modifies sessions
      ensures (Stored(), reply) == PullStep(old(Stored()), sid, batchSeq, fails)
    {
      var claim := sessions.RunClaimPullBatch(sid, batchSeq);
      if claim.PullRefused? {
        return PullDenied(claim.why);
      }
      var typeQueue := ParseEntityQueue(claim.queue);
      if typeQueue.None? || fails {
        return PullInternalError;
      }
      var c := new PullCollector();
      var result := pullStore.GetChangesSinceUSN(claim.cursor, claim.upper, typeQueue.value, c);
      if result.PullFailed? {
        return PullInternalError;
      }
      if |result.typeQueue| == 0 {
        var r := sessions.RunMarkPullFinished(sid);
        reply := PullResponse(batchSeq, c.syncChanges, c.maxUSN, true);
      } else {
        var r := sessions.RunUpdatePullProgress(sid, QueueToString(result.typeQueue), result.syncCursorUSN);
        reply := PullResponse(batchSeq, c.syncChanges, c.maxUSN, false);
      }
    }

    /** A push batch: the claim is one step of the session, the transaction one step of the database. */
    method Push(sid: SessionId, batchSeq: int, changes: seq<SyncChange>, finishPush: bool, fails: bool) returns (reply: PushReply)
      requires Wired()
      modifies sessions, db
      ensures var sv := old(Stored());
              (Stored(), reply) ==
              if finishPush then
                if changes != [] then (sv, InvalidArgument) else FinishPushStep(sv, sid, batchSeq)
              else if changes == [] then (sv, InvalidArgument)
              else
                var (claimed, claim) := ClaimPushStep(sv, sid, batchSeq, changes);
                if claim.PushRefused? then (sv, PushDenied(claim.why))
                else
                  var (after, outcome) := ResolvePushStep(claimed, claim.start, changes, fails);
                  (after, PushDone(outcome))
    {
      if finishPush {
        if |changes| != 0 {
          return InvalidArgument;
        }
        var r := sessions.RunMarkPushFinished(sid, batchSeq);
        return if r == ScriptOK then PushFinished else PushDenied(r);
      }
      if |changes| == 0 {
        return InvalidArgument;
      }
      var claim := sessions.RunClaimPushBatch(sid, batchSeq, |changes|);
      if claim.PushRefused? {
        return PushDenied(claim.why);
      }
      var outcome := pushStore.ApplyPushChanges(claim.start, changes, fails);
      reply := PushDone(outcome);
    }

    method FinishSync(sid: SessionId, finishTime: int, fault: FinishFault) returns (reply: FinishReply)
      requires Wired()
      modifies sessions, db
      ensures (Stored(), reply) == FinishSyncStep(old(Stored()), sid, finishTime, fault)
    {
      var r := sessions.RunCheckFinish(sid);
      if r != ScriptOK {
        return FinishScript(r);
      }
      if fault == TimeFails {
        return FinishInternalError;
      }
      // update_last_sync_time.sql
      if db.tables.collection.Some? {
        db.tables := db.tables.(collection := Some(db.tables.collection.value.(lastSyncTime := finishTime)));
      }
      if fault == ReleaseFails {
        return FinishInternalError;
      }
      r := sessions.RunRelease(sid);
      reply := FinishScript(r);
    }
  }
}
