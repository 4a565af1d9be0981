/** What all committed pushes of a run leave behind: in the tables, in the index, and with a client. */
module ProtocolHistory {
  import opened Wrappers
  import opened SyncModel
  import opened PushApply
  import opened Histories
  import opened PushIndex
  import opened PullBatches
  import opened PullSessions
  import opened PullCuts
  import opened QueueCodec
  import opened PullQueues
  import opened Replicas
  import opened OwnPushes
  import opened Sessions
  import opened SyncHandlers
  import opened Protocol
  import opened ProtocolRuns

  /** All committed changes, in commit order, each under the USN the reply announced. */
  function History(commits: seq<Commit>): seq<Numbered> {
    if commits == [] then []
    else
      var n := |commits| - 1;
      History(commits[..n]) + Number(commits[n].start, commits[n].changes)
  }

  /** The reply names every change of the batch with its USN. */
  ghost predicate Announced(c: Commit) {
    && |c.reply| == |c.changes|
    && forall i | 0 <= i < |c.changes| ::
         c.changes[i].SyncChange?
         && c.reply[i] == SyncChange(c.changes[i].id, c.changes[i].kind, OpAssignUsn, Number(c.start, c.changes)[i].usn, None, None)
  }

  /** The tables are those that replaying the committed changes on an empty database leaves. */
  ghost predicate Recorded(s: State) {
    var h := History(s.log.commits);
    && AllValid(h) && SameTables(Replay(EMPTY_DATABASE, h), s.sv.db)
    && forall c <- s.log.commits :: Announced(c)
  }

  /** Only transactions and the finish time touch the database, and only claims set the pending batch. */
  lemma WhatStepsWrite(s: State, e: Event)
    ensures var t := Next(s, e);
            if e.PushResolved? && s.pending.Some? then
              var b := s.pending.value;
              var (sv, outcome) := ResolvePushStep(s.sv, b.start, b.changes, e.fails);
              && t.sv.db == sv.db && t.pending.None?
              && t.log.commits == s.log.commits + (if outcome.Committed? then [Commit(b.start, b.changes, outcome.reply)] else [])
            else
              && (t.sv.db == s.sv.db || (e.FinishRequested? && t.sv.db == WithSyncTime(s.sv.db, e.time)))
              && (t.pending == s.pending || (e.PushClaimRequested? && t.pending.value.changes == e.changes))
              && t.log.commits == s.log.commits
  {
    hide PullBatch, PushTransaction, PullQueue, ParseQueue, QueueToString;
  }

  /** A resolved transaction commits the whole batch, or changes nothing. */
  lemma ResolveOutcome(sv: Server, start: int, cs: seq<SyncChange>, fails: bool)
    ensures var (after, outcome) := ResolvePushStep(sv, start, cs, fails);
            if outcome.Committed? then
              && ApplyAll(sv.db, start, cs).Some? && ApplyAll(sv.db, start, cs).value.collection.Some?
              && PushTransaction(sv.db, start, cs).1.Committed? && after.db == PushTransaction(sv.db, start, cs).0
              && after.db == WithCursor(ApplyAll(sv.db, start, cs).value, start + |cs|)
              && Announced(Commit(start, cs, outcome.reply))
            else after.db == sv.db
  {
    AcceptedAreChanges(sv.db, start, cs);
    assert forall i | 0 <= i < |cs| :: cs[i] in cs;
  }

  // ----- the tables are the replayed history -----

  lemma CommitKeepsRecorded(db: Database, commits: seq<Commit>, c: Commit)
    requires AllValid(History(commits)) && SameTables(Replay(EMPTY_DATABASE, History(commits)), db)
    requires ApplyAll(db, c.start, c.changes).Some?
    ensures var h := History(commits + [c]);
            AllValid(h) && SameTables(Replay(EMPTY_DATABASE, h), ApplyAll(db, c.start, c.changes).value)
  {
    hide SameTables, Replay, AllValid;
    var h, batch := History(commits), Number(c.start, c.changes);
    assert (commits + [c])[..|commits|] == commits;
    BatchIsReplay(db, c.start, c.changes);
    ReplayInTwo(EMPTY_DATABASE, h, batch);
    ReplayKeepsSame(Replay(EMPTY_DATABASE, h), db, batch);
  }

  lemma SameIgnoresCollectionColumns(a: Database, b: Database, next: int, time: int)
    requires SameTables(a, b)
    ensures b.collection.Some? ==> SameTables(a, WithCursor(b, next))
    ensures SameTables(a, WithSyncTime(b, time))
  {
  }

  lemma StepKeepsRecorded(s: State, e: Event)
    requires Recorded(s)
    ensures Recorded(Next(s, e))
  {
    hide Next, SameTables, Replay, AllValid, ResolvePushStep, ApplyAll, Announced, WithCursor, WithSyncTime;
    WhatStepsWrite(s, e);
    var base := Replay(EMPTY_DATABASE, History(s.log.commits));
    if e.PushResolved? && s.pending.Some? {
      var b := s.pending.value;
      ResolveOutcome(s.sv, b.start, b.changes, e.fails);
      var outcome := ResolvePushStep(s.sv, b.start, b.changes, e.fails).1;
      if outcome.Committed? {
        CommitKeepsRecorded(s.sv.db, s.log.commits, Commit(b.start, b.changes, outcome.reply));
        SameIgnoresCollectionColumns(Replay(EMPTY_DATABASE, History(s.log.commits + [Commit(b.start, b.changes, outcome.reply)])),
                                     ApplyAll(s.sv.db, b.start, b.changes).value, b.start + |b.changes|, 0);
      } else {
        assert s.log.commits + [] == s.log.commits;
      }
    } else if e.FinishRequested? {
      SameIgnoresCollectionColumns(base, s.sv.db, 0, e.time);
    }
  }

  lemma {:induction false} RunKeepsRecorded(s: State, es: seq<Event>)
    requires Recorded(s)
    ensures Recorded(After(s, es))
    decreases |es|
  {
    hide Next, Recorded;
    if es != [] {
      StepKeepsRecorded(s, es[0]);
      RunKeepsRecorded(Next(s, es[0]), es[1..]);
    }
  }

  lemma ReachableIsRecorded(s: State)
    requires Reachable(s)
    ensures Inv(s) && Recorded(s)
  {
    ReachableIsSafe(s);
    var es :| Legal(INITIAL, es) && s == After(INITIAL, es);
    assert Recorded(INITIAL);
    RunKeepsRecorded(INITIAL, es);
  }

  lemma SameHolders(a: Database, b: Database, key: Key)
    requires SameTables(a, b) && WellFormed(a) && WellFormed(b)
    ensures Holder(a, key) == Holder(b, key)
  {
  }

  /** Last effective writer wins over the whole run: in every reachable state every key holds the
      content and the USN of its last effective change in all committed batches. */
  lemma LastWriterOfRunWins(s: State, key: Key)
    requires Reachable(s)
    ensures WellFormed(s.sv.db) && Holder(s.sv.db, key) == FinalEntry(None, History(s.log.commits), key)
  {
    hide LockInv, Increasing, WellFormed, SameTables, FinalEntry, Replay, AllValid, Announced;
    ReachableIsRecorded(s);
    EmptyHolds(key);
    LastEffectiveWriterWins(EMPTY_DATABASE, History(s.log.commits), key);
    SameHolders(Replay(EMPTY_DATABASE, History(s.log.commits)), s.sv.db, key);
  }

  lemma EmptyHolds(key: Key)
    ensures WellFormed(EMPTY_DATABASE) && IndexAgrees(EMPTY_DATABASE) && Holder(EMPTY_DATABASE, key) == None
  {
  }

  // ----- the index -----

  /** Exactly when the index agrees with the tables, in every reachable state: no id ends with rows of
      two kinds, and every id a collection has lost was given to another entity afterwards. */
  lemma ReachableIndexIff(s: State)
    requires Reachable(s)
    ensures WellFormed(EMPTY_DATABASE)
    ensures IndexAgrees(s.sv.db) <==> Unambiguous(EMPTY_DATABASE, History(s.log.commits))
  {
    hide Inv, Replay, AllValid, Unambiguous, Announced;
    ReachableIsRecorded(s);
    EmptyHolds(Key(COLLECTION, 0));
    ReplayKeepsIndexIff(EMPTY_DATABASE, History(s.log.commits));
  }

  /** The event is no commit, or the commit of a batch that is unambiguous on the tables it meets. */
  ghost predicate UnambiguousStep(s: State, e: Event)
    requires WellFormed(s.sv.db)
  {
    var commits := e.PushResolved? && s.pending.Some?
                   && ResolvePushStep(s.sv, s.pending.value.start, s.pending.value.changes, e.fails).1.Committed?;
    commits ==> Unambiguous(s.sv.db, Number(s.pending.value.start, s.pending.value.changes))
  }

  lemma StepKeepsIndexIff(s: State, e: Event)
    requires Inv(s) && Allowed(s, e) && IndexAgrees(s.sv.db)
    ensures IndexAgrees(Next(s, e).sv.db) <==> UnambiguousStep(s, e)
  {
    hide Next, LockInv, Increasing, IndexAgrees, Unambiguous, ResolvePushStep, PushTransaction;
    WhatStepsWrite(s, e);
    if e.PushResolved? {
      var b := s.pending.value;
      ResolveOutcome(s.sv, b.start, b.changes, e.fails);
      if ResolvePushStep(s.sv, b.start, b.changes, e.fails).1.Committed? {
        BatchKeepsIndexIff(s.sv.db, b.start, b.changes);
      }
    } else if e.FinishRequested? {
      WithSyncTimeKeeps(s.sv.db, e.time);
    }
  }

  lemma InvIsWellFormed(s: State)
    requires Inv(s)
    ensures WellFormed(s.sv.db)
  {
  }

  ghost predicate AgreesAlong(s: State, es: seq<Event>)
    decreases |es|
  {
    IndexAgrees(s.sv.db) && (es != [] ==> AgreesAlong(Next(s, es[0]), es[1..]))
  }

  ghost predicate UnambiguousRun(s: State, es: seq<Event>)
    decreases |es|
  {
    es == [] || (WellFormed(s.sv.db) && UnambiguousStep(s, es[0]) && UnambiguousRun(Next(s, es[0]), es[1..]))
  }

  /** The index agrees in every state of a run iff every batch it commits is unambiguous. */
  lemma {:induction false} RunKeepsIndexIff(s: State, es: seq<Event>)
    requires Inv(s) && Legal(s, es) && IndexAgrees(s.sv.db)
    ensures AgreesAlong(s, es) <==> UnambiguousRun(s, es)
    decreases |es|
  {
    hide Inv, Next, Allowed, IndexAgrees, WellFormed, UnambiguousStep;
    if es != [] {
      InvIsWellFormed(s);
      StepKeepsIndexIff(s, es[0]);
      StepKeepsInv(s, es[0]);
      if IndexAgrees(Next(s, es[0]).sv.db) {
        RunKeepsIndexIff(Next(s, es[0]), es[1..]);
      }
    }
  }

  /** Index agreement, and the typing of ids and of the pending batch it rests on. */
  ghost predicate TypedState(s: State, kindOf: EntityId -> int, own: EntityId) {
    && IndexAgrees(s.sv.db) && Typed(s.sv.db, kindOf, own)
    && (s.pending.Some? ==> forall c <- s.pending.value.changes :: TypedChange(c, kindOf, own))
  }

  ghost predicate TypedEvent(e: Event, kindOf: EntityId -> int, own: EntityId) {
    e.PushClaimRequested? ==> forall c <- e.changes :: TypedChange(c, kindOf, own)
  }

  lemma TypedIgnoresCollectionColumns(db: Database, next: int, time: int, kindOf: EntityId -> int, own: EntityId)
    requires Typed(db, kindOf, own)
    ensures db.collection.Some? ==> Typed(WithCursor(db, next), kindOf, own)
    ensures Typed(WithSyncTime(db, time), kindOf, own)
  {
  }

  lemma CommitKeepsTyped(db: Database, start: int, cs: seq<SyncChange>, kindOf: EntityId -> int, own: EntityId)
    requires WellFormed(db) && IndexAgrees(db) && Typed(db, kindOf, own) && forall c <- cs :: TypedChange(c, kindOf, own)
    requires ApplyAll(db, start, cs).Some? && ApplyAll(db, start, cs).value.collection.Some?
    ensures var after := WithCursor(ApplyAll(db, start, cs).value, start + |cs|);
            IndexAgrees(after) && Typed(after, kindOf, own)
  {
    hide WellFormed, IndexAgrees, ApplyAll, TypedChange, Typed, WithCursor, Replay, AllValid;
    BatchIsReplay(db, start, cs);
    assert forall i | 0 <= i < |cs| :: cs[i] in cs;
    TypedKeepsIndex(db, Number(start, cs), kindOf, own);
    var applied := ApplyAll(db, start, cs).value;
    IndexIgnoresCursor(applied, start + |cs|);
    TypedIgnoresCollectionColumns(applied, start + |cs|, 0, kindOf, own);
  }

  lemma StepKeepsTyped(s: State, e: Event, kindOf: EntityId -> int, own: EntityId)
    requires Inv(s) && Allowed(s, e) && TypedState(s, kindOf, own) && TypedEvent(e, kindOf, own)
    ensures TypedState(Next(s, e), kindOf, own)
  {
    hide IndexAgrees, Increasing, LockInv, Next, ApplyAll, TypedChange, Typed, ResolvePushStep, PushTransaction, WithCursor, WithSyncTime;
    WhatStepsWrite(s, e);
    if e.PushResolved? {
      var b := s.pending.value;
      ResolveOutcome(s.sv, b.start, b.changes, e.fails);
      if ResolvePushStep(s.sv, b.start, b.changes, e.fails).1.Committed? {
        CommitKeepsTyped(s.sv.db, b.start, b.changes, kindOf, own);
      }
    } else if e.FinishRequested? {
      WithSyncTimeKeeps(s.sv.db, e.time);
      TypedIgnoresCollectionColumns(s.sv.db, 0, e.time, kindOf, own);
    }
  }

  /** In every run in which clients give each id one kind for good and push only the collection
      `own`, sync_units agrees with the tables. */
  lemma {:induction false} TypedRunKeepsIndex(s: State, es: seq<Event>, kindOf: EntityId -> int, own: EntityId)
    requires Inv(s) && Legal(s, es) && TypedState(s, kindOf, own)
    requires forall e <- es :: TypedEvent(e, kindOf, own)
    ensures TypedState(After(s, es), kindOf, own) && IndexAgrees(After(s, es).sv.db)
    decreases |es|
  {
    hide Inv, Next, Allowed, IndexAgrees, Typed, TypedEvent;
    if es != [] {
      assert es[0] in es && forall e <- es[1..] :: e in es;
      StepKeepsTyped(s, es[0], kindOf, own);
      StepKeepsInv(s, es[0]);
      TypedRunKeepsIndex(Next(s, es[0]), es[1..], kindOf, own);
    }
  }

  // ----- a client that waits while others push -----

  /** No collection but `own` is stored or about to be. */
  ghost predicate OwnState(s: State, own: EntityId) {
    OwnOnly(s.sv.db, own) && (s.pending.Some? ==> forall c <- s.pending.value.changes :: OwnChange(c, own))
  }

  ghost predicate OwnEvent(e: Event, own: EntityId) {
    e.PushClaimRequested? ==> forall c <- e.changes :: OwnChange(c, own)
  }

  lemma PendingStartsAbove(s: State)
    requires Inv(s) && s.pending.Some?
    ensures WellFormed(s.sv.db) && StoredCursor(s.sv.db) <= s.pending.value.start
  {
    hide UsnsDistinct, UsnsBelow, Increasing, Session, PullQueue, QueueToString, Adjacent, Counting;
  }

  lemma StepKeepsUpToDate(s: State, e: Event, replica: Replica, cursor: int, own: EntityId)
    requires Inv(s) && Allowed(s, e) && OwnState(s, own) && OwnEvent(e, own)
    requires UpToDate(replica, s.sv.db.rows, cursor) && cursor <= StoredCursor(s.sv.db)
    ensures OwnState(Next(s, e), own) && UpToDate(replica, Next(s, e).sv.db.rows, cursor)
  {
    hide Inv, Next, ApplyAll, UpToDate, OwnChange, ResolvePushStep, PushTransaction;
    WhatStepsWrite(s, e);
    if e.PushResolved? {
      var b := s.pending.value;
      PendingStartsAbove(s);
      ResolveOutcome(s.sv, b.start, b.changes, e.fails);
      if ResolvePushStep(s.sv, b.start, b.changes, e.fails).1.Committed? {
        BatchKeepsUpToDate(replica, s.sv.db, b.start, b.changes, cursor, own);
      }
    }
  }

  /** A client that is up to date below its cursor stays so, whatever sessions, pushes, failures and
      expiries the run contains. */
  lemma {:induction false} RunKeepsUpToDate(s: State, es: seq<Event>, replica: Replica, cursor: int, own: EntityId)
    requires Inv(s) && Legal(s, es) && OwnState(s, own) && forall e <- es :: OwnEvent(e, own)
    requires UpToDate(replica, s.sv.db.rows, cursor) && cursor <= StoredCursor(s.sv.db)
    ensures UpToDate(replica, After(s, es).sv.db.rows, cursor)
    decreases |es|
  {
    hide Inv, Next, Allowed, OwnState, OwnEvent, UpToDate;
    if es != [] {
      assert es[0] in es && forall e <- es[1..] :: e in es;
      StepKeepsUpToDate(s, es[0], replica, cursor, own);
      StepRaisesCursor(s, es[0]);
      StepKeepsInv(s, es[0]);
      RunKeepsUpToDate(Next(s, es[0]), es[1..], replica, cursor, own);
    }
  }

  // ----- what was pushed comes back -----

  /** What the history should leave every client with, as it was sent: the payload of the key's last
      upsert, or the deletion time of the delete that takes effect after it. */
  function FinalCopy(h: seq<Numbered>, key: Key): Option<Copy> {
    var u, i := LastUpsert(h, key), LastEffective(None, h, key);
    if i > u then Some(Gone(h[i].usn, h[i].change.deletedAt))
    else if u >= 0 then Some(Live(h[u].usn, h[u].change.payload))
    else None
  }

  /** The key itself; for a collection, the one with the id last pushed. */
  function FinalKey(h: seq<Numbered>, key: Key): Key {
    var u := LastUpsert(h, key);
    if u >= 0 then Key(key.kind, h[u].change.id) else key
  }

  /** The client knows of every key just what was last pushed effectively, and knows nothing else. */
  ghost predicate KnowsHistory(replica: Replica, h: seq<Numbered>) {
    && (forall key :: FinalCopy(h, key).Some? ==> FinalKey(h, key) in replica && replica[FinalKey(h, key)] == FinalCopy(h, key).value)
    && (forall key <- replica :: FinalCopy(h, key).Some? && FinalKey(h, key) == key)
  }

  lemma FinalCopyOfEntry(h: seq<Numbered>, key: Key)
    ensures var e := FinalEntry(None, h, key);
            FinalCopy(h, key) == if e.Some? then Some(CopyOfRow(e.value.key, e.value.row)) else None
    ensures FinalEntry(None, h, key).Some? ==> FinalEntry(None, h, key).value.key == FinalKey(h, key)
  {
  }

  lemma HolderOfRow(db: Database, key: Key)
    requires WellFormed(db)
    ensures key in db.rows ==> Holder(db, key) == Some(Entry(key, db.rows[key]))
    ensures Holder(db, key).Some? ==> Holder(db, key).value.key in db.rows && Holder(db, key).value.row == db.rows[Holder(db, key).value.key]
  {
  }

  /** In every reachable state the server's rows and tombstones are what the history leaves. */
  lemma ViewKnowsHistory(s: State)
    requires Reachable(s)
    ensures KnowsHistory(View(s.sv.db.rows), History(s.log.commits))
  {
    hide FinalEntry, FinalCopy, FinalKey, CopyOfRow, Holder, WellFormed, Reachable;
    var h := History(s.log.commits);
    forall key
      ensures FinalCopy(h, key).Some? ==>
                var k := FinalKey(h, key); k in s.sv.db.rows && CopyOfRow(k, s.sv.db.rows[k]) == FinalCopy(h, key).value
      ensures key in s.sv.db.rows ==> FinalCopy(h, key).Some? && FinalKey(h, key) == key
    {
      LastWriterOfRunWins(s, key);
      FinalCopyOfEntry(h, key);
      HolderOfRow(s.sv.db, key);
    }
  }

  lemma {:induction false} RunsCompose(s: State, first: seq<Event>, es: seq<Event>)
    requires Legal(s, first) && Legal(After(s, first), es)
    ensures Legal(s, first + es) && After(s, first + es) == After(After(s, first), es)
    decreases |first|
  {
    hide Next, Allowed;
    if first == [] {
      assert [] + es == es;
    } else {
      RunsCompose(Next(s, first[0]), first[1..], es);
      assert (first + es)[1..] == first[1..] + es;
    }
  }

  lemma StaysReachable(s: State, es: seq<Event>)
    requires Reachable(s) && Legal(s, es)
    ensures Reachable(After(s, es))
  {
    var first :| Legal(INITIAL, first) && s == After(INITIAL, first);
    RunsCompose(INITIAL, first, es);
  }

  /** Replica convergence over runs. A client is up to date below its cursor in some reachable state
      and knows nothing newer. Whatever happens then, once a session from that cursor has pulled
      everything, the client that applies what it delivered equals the server iff the cuts of its
      unread rows were clean. It then knows of every entity the last effective push of the whole
      history, payload or deletion time as sent and USN as announced, and is as ready for its next
      session as it was for this one. */
  lemma ClientCatchesUpIff(s: State, es: seq<Event>, replica: Replica, cursor: int, own: EntityId)
    requires Reachable(s) && Legal(s, es) && OwnState(s, own) && forall e <- es :: OwnEvent(e, own)
    requires UpToDate(replica, s.sv.db.rows, cursor) && Older(replica, cursor) && cursor <= StoredCursor(s.sv.db)
    requires var t := After(s, es);
             && IndexAgrees(t.sv.db) && t.sv.lock.Some? && t.sv.lock.value.state == AwaitingPushOrFinish
             && t.sv.lock.value.cliSyncCursorUSNAtHandshake == cursor
    ensures var t := After(s, es);
            var caughtUp := Absorb(replica, Received(t.log.replies));
            && (caughtUp == View(t.sv.db.rows) <==> CleanCuts(Unread(t.sv.db, cursor)))
            && (caughtUp == View(t.sv.db.rows) ==>
                  && KnowsHistory(caughtUp, History(t.log.commits))
                  && UpToDate(caughtUp, t.sv.db.rows, StoredCursor(t.sv.db)) && Older(caughtUp, StoredCursor(t.sv.db)))
  {
    hide Reachable, Next, IndexAgrees, UpToDate, Older, CleanCuts, KnowsHistory, History, Absorb, Session, PullQueue, OwnState, OwnEvent;
    var t := After(s, es);
    ReachableIsSafe(s);
    StaysReachable(s, es);
    ReachableIsSafe(t);
    RunKeepsUpToDate(s, es, replica, cursor, own);
    ConvergesIffCleanCuts(t.sv.db, cursor, t.log.pulls, replica);
    ViewKnowsHistory(t);
    ViewIsUpToDate(t.sv.db.rows, StoredCursor(t.sv.db));
  }

  /** The chain goes on over the client's own pushes. A client that has caught up and records its own
      batch, as it is committed, under the USNs of the reply is again up to date for its next session iff
      the last change to every entity in the batch takes effect. */
  lemma OwnPushCatchesUpIff(s: State, own: EntityId)
    requires Inv(s) && s.pending.Some? && OwnState(s, own)
    requires Next(s, PushResolved(false)).log.commits != s.log.commits
    ensures var t := Next(s, PushResolved(false));
            var h := Number(s.pending.value.start, s.pending.value.changes);
            && AllValid(h) && WellFormed(s.sv.db)
            && (UpToDate(Record(View(s.sv.db.rows), h), t.sv.db.rows, StoredCursor(t.sv.db)) <==> LastChangesTakeEffect(s.sv.db, h))
            && (LastChangesTakeEffect(s.sv.db, h) ==>
                  Record(View(s.sv.db.rows), h) == View(t.sv.db.rows) && Older(Record(View(s.sv.db.rows), h), StoredCursor(t.sv.db)))
  {
    hide Next, LockInv, Increasing, AllValid, UpToDate, Older, View, Record, LastChangesTakeEffect, ResolvePushStep, PushTransaction, OwnOnly, OwnChange;
    var b := s.pending.value;
    InvIsWellFormed(s);
    PendingStartsAbove(s);
    WhatStepsWrite(s, PushResolved(false));
    ResolveOutcome(s.sv, b.start, b.changes, false);
    assert s.log.commits + [] == s.log.commits;
    OwnBatchIff(s.sv.db, b.start, b.changes, own);
  }
}
