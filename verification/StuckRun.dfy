/** A stuck session, and a finished one that lost a row, are reached by ordinary runs: one client pushes,
    and a new one pulls. */
module StuckRun {
  import opened Wrappers
  import opened SyncModel
  import opened PushApply
  import opened PushProofs
  import opened PullCuts
  import opened Replicas
  import opened Scans
  import opened PullBatches
  import opened PullSessions
  import opened PullCompleteness
  import opened QueueCodec
  import opened PullQueues
  import opened Sessions
  import opened SyncHandlers
  import opened Protocol
  import opened ProtocolRuns
  import opened ProtocolPulls
  import opened Counterexamples

  const CONNECT := HandshakeRequested(HandshakeRequest(None, 1, 0, true), 0, 1)
  const COMMIT := PushResolved(false)
  const NEW_CLIENT := HandshakeRequested(HandshakeRequest(Some(100), 1, 0, false), 0, 2)

  function PushOf(cs: seq<SyncChange>): Event {
    PushClaimRequested(1, 1, cs)
  }

  function PullNumber(batchSeq: int): Event {
    PullRequested(2, batchSeq, false)
  }

  /** The first client's batch is claimed. */
  lemma AfterPush(cs: seq<SyncChange>) returns (s: State)
    requires cs == ONE_NOTE || cs == TWO_NOTES
    ensures s == Next(Next(INITIAL, CONNECT), PushOf(cs))
    ensures Allowed(INITIAL, CONNECT) && Allowed(Next(INITIAL, CONNECT), PushOf(cs))
    ensures s.sv.db == EMPTY_DATABASE && s.pending == Some(PendingPush(1, cs)) && s.log.used == {1}
  {
    s := Next(Next(INITIAL, CONNECT), PushOf(cs));
  }

  /** It is committed, and the session expires. */
  lemma AfterExpiry(s: State, cs: seq<SyncChange>) returns (t: State)
    requires cs == ONE_NOTE || cs == TWO_NOTES
    requires s.sv.db == EMPTY_DATABASE && s.pending == Some(PendingPush(1, cs)) && s.log.used == {1}
    ensures t == Next(Next(s, COMMIT), Expired)
    ensures Allowed(s, COMMIT) && Allowed(Next(s, COMMIT), Expired)
    ensures t.sv == Server(Pushed(cs), None) && t.pending.None? && t.log.used == {1}
  {
    hide PushTransaction;
    PushCommits(cs);
    t := Next(Next(s, COMMIT), Expired);
  }

  /** The new client has pulled once. */
  ghost predicate PulledOnce(s: State, cs: seq<SyncChange>) {
    && s.sv == Server(Pushed(cs), Some(SyncSession(2, Pulling, 2, 4, Some(QueueToString(REST)), 1, 1 + |cs|)))
    && s.pending.None? && s.log.queue0 == QUEUE && s.log.pulls == [FIRST]
  }

  lemma AfterPull(s: State, cs: seq<SyncChange>) returns (t: State)
    requires cs == ONE_NOTE || cs == TWO_NOTES
    requires s.sv == Server(Pushed(cs), None) && s.pending.None? && s.log.used == {1}
    ensures t == Next(Next(s, NEW_CLIENT), PullNumber(1))
    ensures Allowed(s, NEW_CLIENT) && Allowed(Next(s, NEW_CLIENT), PullNumber(1))
    ensures PulledOnce(t, cs)
  {
    hide Pushed, PullBatch, PullQueue, QueueToString, ParseQueue, Session;
    QueueOf(cs);
    PushedCollection(cs);
    QueueRoundTrip(QUEUE);
    var r := Next(s, NEW_CLIENT);
    assert r.sv.lock == Some(SyncSession(2, Pulling, 1, 1, Some(QueueToString(QUEUE)), 1, 1 + |cs|));
    FirstPull(cs);
    t := Next(r, PullNumber(1));
  }

  lemma PushedCollection(cs: seq<SyncChange>)
    requires cs == ONE_NOTE || cs == TWO_NOTES
    ensures Pushed(cs).collection.Some? && Pushed(cs).collection.value.id == 100 && StoredCursor(Pushed(cs)) == 1 + |cs|
  {
    hide ApplyAll, RowsAre;
    PushCommits(cs);
    assert FirstPush(cs);
    PrefixRows(cs, |cs|);
    assert cs[..|cs|] == cs;
  }

  lemma PulledOnceIsReachable(cs: seq<SyncChange>) returns (u: State)
    requires cs == ONE_NOTE || cs == TWO_NOTES
    ensures Reachable(u) && PulledOnce(u, cs)
  {
    hide Next, Allowed, PulledOnce;
    var s := AfterPush(cs);
    var t := AfterExpiry(s, cs);
    u := AfterPull(t, cs);
    var e1 := [CONNECT];
    var e2 := e1 + [PushOf(cs)];
    var e3 := e2 + [COMMIT];
    var e4 := e3 + [Expired];
    var e5 := e4 + [NEW_CLIENT];
    RunExtends(INITIAL, [], CONNECT);
    assert [] + [CONNECT] == e1;
    RunExtends(INITIAL, e1, PushOf(cs));
    RunExtends(INITIAL, e2, COMMIT);
    RunExtends(INITIAL, e3, Expired);
    RunExtends(INITIAL, e4, NEW_CLIENT);
    RunExtends(INITIAL, e5, PullNumber(1));
    assert Legal(INITIAL, e5 + [PullNumber(1)]) && After(INITIAL, e5 + [PullNumber(1)]) == u;
  }

  /** A reachable state in which the session can only expire. */
  lemma StuckSessionIsReachable()
    ensures exists s :: Reachable(s) && StarvedSession(s, 2)
  {
    hide Reachable, Pushed, Starved, QueueToString, PullBatch, PullQueue, Session, UsnSafe, IndexAgrees;
    var s := PulledOnceIsReachable(ONE_NOTE);
    SessionCanGetStuck();
    assert StarvedSession(s, 2);
  }

  /** A reachable state after a finished pull of a client that started with nothing and still lacks a
      row of the server, whose USN its next handshake will never ask for again. */
  lemma LossIsReachable()
    ensures exists s :: && Reachable(s) && Holds(s, 2) && s.sv.lock.value.state == AwaitingPushOrFinish
                        && IndexAgrees(s.sv.db) && s.sv.lock.value.cliSyncCursorUSNAtHandshake == 1
                        && Absorb(map[], Received(s.log.replies)) != View(s.sv.db.rows)
  {
    hide Reachable, Pushed, PullBatch, ParseQueue, QueueToString, Session, CleanCuts, Stream, UsnSafe, IndexAgrees, PullQueue, Scan, Absorb, Received;
    var s := PulledOnceIsReachable(TWO_NOTES);
    FinishedSessionCanLoseARow();
    QueueRoundTrip(REST);
    var t := Next(s, PullNumber(2));
    assert t.log.pulls == [FIRST, SECOND] && t.sv.db == Pushed(TWO_NOTES);
    ReachesNext(s, PullNumber(2));
    NothingIsUpToDate();
    ReachableIsSafe(t);
    PulledClientConvergesIff(t, map[]);
  }

  lemma NothingIsUpToDate()
    ensures UpToDate(map[], Pushed(TWO_NOTES).rows, 1) && Older(map[], 1)
  {
    hide Pushed;
    PushedRows(TWO_NOTES);
  }

  lemma ReachesNext(s: State, e: Event)
    requires Reachable(s) && Allowed(s, e)
    ensures Reachable(Next(s, e))
  {
    hide Next, Allowed;
    var es :| Legal(INITIAL, es) && s == After(INITIAL, es);
    RunExtends(INITIAL, es, e);
  }
}
