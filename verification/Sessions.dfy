/** The per-user Redis session and the scripts that change it. Each script runs atomically. */
module Sessions {
  import opened Wrappers

  type SessionId = nat

  datatype SessionState =
    | Unspecified
    | Pulling
    | Pushing
    | AwaitingPushOrFinish
    | AwaitingFinish
    | AwaitingUploadAllConfirm
    | UploadingAll

  /** The hash of the user's lock key; pullEntityQueue is the one field that can be absent. */
  datatype SyncSession = SyncSession(
    sessionId: SessionId,
    state: SessionState,
    expectedBatchSeq: int,
    syncCursorUSN: int,
    pullEntityQueue: Option<string>,
    cliSyncCursorUSNAtHandshake: int,
    srvSyncCursorUSNAtHandshake: int)

  /** None when the key does not exist: no session, or an expired one. */
  type Lock = Option<SyncSession>

  datatype ScriptResult = ScriptOK | SessionNotFound | SessionIdMismatch | BatchSeqMismatch | StateMismatch

  datatype PullClaim = PullClaimed(cursor: int, upper: int, queue: string) | PullRefused(why: ScriptResult)

  datatype PushClaim = PushClaimed(start: int) | PushRefused(why: ScriptResult)

  // ----- the scripts as functions -----

  function CreateSession(lock: Lock, session: SyncSession): (Lock, bool) {
    if lock.Some? then (lock, false)
    else (Some(if session.state == Pulling then session else session.(pullEntityQueue := None)), true)
  }

  function ClaimPullCheck(lock: Lock, sid: SessionId, batchSeq: int): ScriptResult {
    if lock.None? || lock.value.pullEntityQueue.None? then SessionNotFound
    else if lock.value.sessionId != sid then SessionIdMismatch
    else if lock.value.state != Pulling then StateMismatch
    else if lock.value.expectedBatchSeq != batchSeq then BatchSeqMismatch
    else ScriptOK
  }

  function ClaimPull(lock: Lock, sid: SessionId, batchSeq: int): (Lock, PullClaim) {
    var check := ClaimPullCheck(lock, sid, batchSeq);
    if check != ScriptOK then (lock, PullRefused(check))
    else
      var s := lock.value;
      (Some(s.(expectedBatchSeq := batchSeq + 1)),
       PullClaimed(s.syncCursorUSN, s.srvSyncCursorUSNAtHandshake, s.pullEntityQueue.value))
  }

  function UpdatePullProgress(lock: Lock, sid: SessionId, queue: string, cursor: int): (Lock, ScriptResult) {
    if lock.None? then (lock, SessionNotFound)
    else if lock.value.sessionId != sid then (lock, SessionIdMismatch)
    else (Some(lock.value.(pullEntityQueue := Some(queue), syncCursorUSN := cursor)), ScriptOK)
  }

  function MarkPullFinished(lock: Lock, sid: SessionId): (Lock, ScriptResult) {
    if lock.None? then (lock, SessionNotFound)
    else if lock.value.sessionId != sid then (lock, SessionIdMismatch)
    else
      (Some(lock.value.(syncCursorUSN := lock.value.srvSyncCursorUSNAtHandshake, state := AwaitingPushOrFinish,
                        expectedBatchSeq := 1, pullEntityQueue := None)), ScriptOK)
  }

  /** A batch is accepted in PUSHING with the expected number, or as number 1 right after the pull. */
  function ClaimPushCheck(lock: Lock, sid: SessionId, batchSeq: int, changeCount: int): ScriptResult {
    if lock.None? || changeCount <= 0 then SessionNotFound
    else if lock.value.sessionId != sid then SessionIdMismatch
    else if lock.value.state == Pushing then
      if lock.value.expectedBatchSeq != batchSeq then BatchSeqMismatch else ScriptOK
    else if lock.value.state == AwaitingPushOrFinish then
      if lock.value.expectedBatchSeq != 1 || batchSeq != 1 then BatchSeqMismatch else ScriptOK
    else StateMismatch
  }

  function ClaimPush(lock: Lock, sid: SessionId, batchSeq: int, changeCount: int): (Lock, PushClaim) {
    var check := ClaimPushCheck(lock, sid, batchSeq, changeCount);
    if check != ScriptOK then (lock, PushRefused(check))
    else
      var s := lock.value;
      (Some(s.(state := Pushing, expectedBatchSeq := batchSeq + 1, syncCursorUSN := s.syncCursorUSN + changeCount)),
       PushClaimed(s.syncCursorUSN))
  }

  function MarkPushFinished(lock: Lock, sid: SessionId, batchSeq: int): (Lock, ScriptResult) {
    if lock.None? then (lock, SessionNotFound)
    else if lock.value.sessionId != sid then (lock, SessionIdMismatch)
    else if lock.value.state != Pushing then (lock, StateMismatch)
    else if lock.value.expectedBatchSeq != batchSeq then (lock, BatchSeqMismatch)
    else (Some(lock.value.(state := AwaitingFinish)), ScriptOK)
  }

  function CheckFinish(lock: Lock, sid: SessionId): ScriptResult {
    if lock.None? then SessionNotFound
    else if lock.value.sessionId != sid then SessionIdMismatch
    else if lock.value.state != AwaitingFinish && lock.value.state != AwaitingPushOrFinish then StateMismatch
    else ScriptOK
  }

  function Release(lock: Lock, sid: SessionId): (Lock, ScriptResult) {
    if lock.None? then (lock, SessionNotFound)
    else if lock.value.sessionId != sid then (lock, SessionIdMismatch)
    else (None, ScriptOK)
  }

  // ----- the scripts as the server runs them -----

  class SessionStore {
    var hash: Lock

    constructor ()
      ensures hash.None?
    {
      hash := None;
    }

    method RunCreateSession(session: SyncSession) returns (created: bool)
      modifies this
      ensures (hash, created) == CreateSession(old(hash), session)
    {
      if hash.Some? {
        return false;
      }
      hash := Some(session.(pullEntityQueue := None));
      if session.state == Pulling {
        hash := Some(hash.value.(pullEntityQueue := session.pullEntityQueue));
      }
      created := true;
    }

    method RunClaimPullBatch(sid: SessionId, batchSeq: int) returns (claim: PullClaim)
      modifies this
      ensures (hash, claim) == ClaimPull(old(hash), sid, batchSeq)
    {
      if hash.None? || hash.value.pullEntityQueue.None? {
        return PullRefused(SessionNotFound);
      }
      if hash.value.sessionId != sid {
        return PullRefused(SessionIdMismatch);
      }
      if hash.value.state != Pulling {
        return PullRefused(StateMismatch);
      }
      if hash.value.expectedBatchSeq != batchSeq {
        return PullRefused(BatchSeqMismatch);
      }
      hash := Some(hash.value.(expectedBatchSeq := batchSeq + 1));
      claim := PullClaimed(hash.value.syncCursorUSN, hash.value.srvSyncCursorUSNAtHandshake, hash.value.pullEntityQueue.value);
    }

    method RunUpdatePullProgress(sid: SessionId, queue: string, cursor: int) returns (r: ScriptResult)
      modifies this
      ensures (hash, r) == UpdatePullProgress(old(hash), sid, queue, cursor)
    {
      if hash.None? {
        return SessionNotFound;
      }
      if hash.value.sessionId != sid {
        return SessionIdMismatch;
      }
      hash := Some(hash.value.(pullEntityQueue := Some(queue), syncCursorUSN := cursor));
      r := ScriptOK;
    }

    method RunMarkPullFinished(sid: SessionId) returns (r: ScriptResult)
      modifies this
      ensures (hash, r) == MarkPullFinished(old(hash), sid)
    {
      if hash.None? {
        return SessionNotFound;
      }
      if hash.value.sessionId != sid {
        return SessionIdMismatch;
      }
      hash := Some(hash.value.(syncCursorUSN := hash.value.srvSyncCursorUSNAtHandshake,
                               state := AwaitingPushOrFinish, expectedBatchSeq := 1));
      hash := Some(hash.value.(pullEntityQueue := None));
      r := ScriptOK;
    }

    method RunClaimPushBatch(sid: SessionId, batchSeq: int, changeCount: int) returns (claim: PushClaim)
      modifies this
      ensures (hash, claim) == ClaimPush(old(hash), sid, batchSeq, changeCount)
    {
      if hash.None? || changeCount <= 0 {
        return PushRefused(SessionNotFound);
      }
      if hash.value.sessionId != sid {
        return PushRefused(SessionIdMismatch);
      }
      if hash.value.state == Pushing {
        if hash.value.expectedBatchSeq != batchSeq {
          return PushRefused(BatchSeqMismatch);
        }
      } else if hash.value.state == AwaitingPushOrFinish {
        if hash.value.expectedBatchSeq != 1 || batchSeq != 1 {
          return PushRefused(BatchSeqMismatch);
        }
        hash := Some(hash.value.(state := Pushing));
      } else {
        return PushRefused(StateMismatch);
      }
      var assignedStartUSN := hash.value.syncCursorUSN;
      hash := Some(hash.value.(expectedBatchSeq := batchSeq + 1, syncCursorUSN := assignedStartUSN + changeCount));
      claim := PushClaimed(assignedStartUSN);
    }

    method RunMarkPushFinished(sid: SessionId, batchSeq: int) returns (r: ScriptResult)
      modifies this
      ensures (hash, r) == MarkPushFinished(old(hash), sid, batchSeq)
    {
      if hash.None? {
        return SessionNotFound;
      }
      if hash.value.sessionId != sid {
        return SessionIdMismatch;
      }
      if hash.value.state != Pushing {
        return StateMismatch;
      }
      if hash.value.expectedBatchSeq != batchSeq {
        return BatchSeqMismatch;
      }
      hash := Some(hash.value.(state := AwaitingFinish));
      r := ScriptOK;
    }

    method RunCheckFinish(sid: SessionId) returns (r: ScriptResult)
      ensures r == CheckFinish(hash, sid)
    {
      if hash.None? {
        return SessionNotFound;
      }
      if hash.value.sessionId != sid {
        return SessionIdMismatch;
      }
      if hash.value.state != AwaitingFinish && hash.value.state != AwaitingPushOrFinish {
        return StateMismatch;
      }
      r := ScriptOK;
    }

    method RunRelease(sid: SessionId) returns (r: ScriptResult)
      modifies this
      ensures (hash, r) == Release(old(hash), sid)
    {
      if hash.None? {
        return SessionNotFound;
      }
      if hash.value.sessionId != sid {
        return SessionIdMismatch;
      }
      hash := None;
      r := ScriptOK;
    }
  }
}
