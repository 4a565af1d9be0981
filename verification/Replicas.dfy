/** A client that applies what it pulls ends with the server's rows. */
module Replicas {
  import opened Wrappers
  import opened SyncModel
  import opened PushApply
  import opened PushProofs
  import opened Scans
  import opened PullBatches
  import opened PullSessions
  import opened PullCompleteness
  import opened PullCuts
  import opened PullQueues

  /** What a client knows of an entity: its payload, or when it was deleted, and its USN. */
  datatype Copy = Live(usn: int, payload: Option<Payload>) | Gone(usn: int, deletedAt: Option<int>)

  type Replica = map<Key, Copy>

  function CopyOf(c: SyncChange): Copy
    requires c.SyncChange?
  {
    if c.op == OpDelete then Gone(c.usn, c.deletedAt) else Live(c.usn, c.payload)
  }

  /** The changes a client can apply: upserts, which must come with a payload, and deletes. */
  predicate Applies(c: SyncChange) {
    c.SyncChange? && ((c.op == OpUpsert && c.payload.Some?) || c.op == OpDelete)
  }

  /** A client applies the changes it receives in the order they come, and ignores any other. */
  function Absorb(replica: Replica, cs: seq<SyncChange>): Replica {
    if cs == [] then replica
    else
      var before, c := Absorb(replica, cs[..|cs| - 1]), cs[|cs| - 1];
      if Applies(c) then before[Key(c.kind, c.id) := CopyOf(c)] else before
  }

  /** A row as a client should know it. */
  function CopyOfRow(key: Key, row: Row): Copy {
    if row.deleted then Gone(row.usn, Some(row.updatedAt))
    else Live(row.usn, Some(Payload(key.kind, row.updatedAt, row.body)))
  }

  /** The server's rows and tombstones as a client should know them. */
  function View(rows: Rows): Replica {
    map k | k in rows :: CopyOfRow(k, rows[k])
  }

  /** A client that is up to date below `cursor`: it knows those rows as they are, and knows no id
      that the server does not have. */
  ghost predicate UpToDate(replica: Replica, rows: Rows, cursor: int) {
    && replica.Keys <= rows.Keys
    && forall k <- rows :: rows[k].usn < cursor ==> k in replica && replica[k] == CopyOfRow(k, rows[k])
  }

  ghost predicate Genuine(rows: Rows, es: seq<Entry>) {
    forall e <- es :: e.key in rows && e.row == rows[e.key]
  }

  lemma {:induction false} AbsorbGenuine(replica: Replica, rows: Rows, es: seq<Entry>)
    requires Genuine(rows, es)
    ensures var after := Absorb(replica, EntryChanges(es));
            forall k :: if k in rows && Entry(k, rows[k]) in es then k in after && after[k] == CopyOfRow(k, rows[k])
                        else (k in after <==> k in replica) && (k in replica ==> after[k] == replica[k])
  {
    if es != [] {
      var before, e := es[..|es| - 1], es[|es| - 1];
      assert e in es && forall x :: x in es <==> x in before || x == e;
      AbsorbGenuine(replica, rows, before);
      assert EntryChanges(es)[..|es| - 1] == EntryChanges(before);
    }
  }

  lemma {:induction false} StreamSound(rows: Rows, queue: seq<int>, lo: int, hi: int)
    ensures Genuine(rows, Stream(rows, queue, lo, lo, hi))
    ensures forall e <- Stream(rows, queue, lo, lo, hi) :: e.key.kind in queue && lo <= e.row.usn < hi
  {
    hide Scan;
    if queue != [] {
      ScanSound(rows, queue[0], lo, hi);
      StreamSound(rows, queue[1..], lo, hi);
    }
  }

  lemma {:induction false} StreamComplete(rows: Rows, queue: seq<int>, lo: int, hi: int, key: Key)
    requires UsnsDistinct(rows) && key in rows && key.kind in queue && lo <= rows[key].usn < hi
    ensures Entry(key, rows[key]) in Stream(rows, queue, lo, lo, hi)
  {
    hide Scan;
    if key.kind == queue[0] {
      ScanComplete(rows, key, lo, hi);
    } else {
      StreamComplete(rows, queue[1..], lo, hi, key);
    }
  }

  lemma RowIsQueued(db: Database, c0: int, key: Key)
    requires UsnSafe(db) && IndexAgrees(db) && key in db.rows && db.rows[key].usn >= c0
    ensures var hi := StoredCursor(db);
            Entry(key, db.rows[key]) in Stream(db.rows, PullQueue(db, c0, hi), c0, c0, hi)
  {
    hide Stream, Scan;
    var hi := StoredCursor(db);
    assert key.id in db.units && HasUnit(db, key.kind, c0, hi);
    StreamComplete(db.rows, PullQueue(db, c0, hi), c0, hi, key);
  }

  /** Applying genuine entries that include every row since the cursor makes the client equal to the server. */
  lemma AllAbsorbed(replica: Replica, rows: Rows, c0: int, es: seq<Entry>)
    requires Genuine(rows, es) && UpToDate(replica, rows, c0)
    requires forall k <- rows :: rows[k].usn >= c0 ==> Entry(k, rows[k]) in es
    ensures Absorb(replica, EntryChanges(es)) == View(rows)
  {
    hide Absorb, EntryChanges, CopyOfRow;
    AbsorbGenuine(replica, rows, es);
  }

  lemma StreamConverges(db: Database, c0: int, replica: Replica)
    requires UsnSafe(db) && IndexAgrees(db) && UpToDate(replica, db.rows, c0)
    ensures var hi := StoredCursor(db);
            Absorb(replica, EntryChanges(Stream(db.rows, PullQueue(db, c0, hi), c0, c0, hi))) == View(db.rows)
  {
    hide Stream, Scan, UsnSafe, IndexAgrees, Genuine, UpToDate;
    var hi := StoredCursor(db);
    var all := Stream(db.rows, PullQueue(db, c0, hi), c0, c0, hi);
    StreamSound(db.rows, PullQueue(db, c0, hi), c0, hi);
    forall k | k in db.rows && db.rows[k].usn >= c0 ensures Entry(k, db.rows[k]) in all {
      RowIsQueued(db, c0, k);
    }
    AllAbsorbed(replica, db.rows, c0, all);
  }

  // ----- rows without duplicates -----

  ghost predicate NoDuplicates(es: seq<Entry>) {
    forall i, j :: 0 <= i < j < |es| ==> es[i] != es[j]
  }

  lemma {:induction false} StreamNoDuplicates(rows: Rows, queue: seq<int>, lo: int, hi: int)
    requires forall i, j :: 0 <= i < j < |queue| ==> queue[i] < queue[j]
    ensures NoDuplicates(Stream(rows, queue, lo, lo, hi))
  {
    hide Scan;
    if queue != [] {
      var head, rest := Scan(rows, queue[0], lo, hi), Stream(rows, queue[1..], lo, lo, hi);
      ScanSound(rows, queue[0], lo, hi);
      StreamSound(rows, queue[1..], lo, hi);
      StreamNoDuplicates(rows, queue[1..], lo, hi);
      forall e | e in rest ensures e.key.kind != queue[0] {
        var i :| 0 <= i < |queue[1..]| && queue[1..][i] == e.key.kind;
        assert queue[0] < queue[i + 1];
      }
      assert forall i | 0 <= i < |head| :: head[i] in head;
      assert forall i | 0 <= i < |rest| :: rest[i] in rest;
    }
  }

  function Entries(es: seq<Entry>): set<Entry> {
    set e | e in es
  }

  lemma {:induction false} EntriesCount(es: seq<Entry>)
    ensures |Entries(es)| <= |es|
    ensures NoDuplicates(es) ==> |Entries(es)| == |es|
  {
    if es != [] {
      var before, e := es[..|es| - 1], es[|es| - 1];
      EntriesCount(before);
      assert Entries(es) == Entries(before) + {e};
      if NoDuplicates(es) {
        assert NoDuplicates(before) && e !in before;
      }
    }
  }

  /** A sequence that is shorter than a duplicate-free one misses one of its entries. */
  lemma ShorterMisses(es: seq<Entry>, all: seq<Entry>) returns (missing: Entry)
    requires NoDuplicates(all) && |es| < |all|
    ensures missing in all && missing !in es
  {
    EntriesCount(es);
    EntriesCount(all);
    if Entries(all) <= Entries(es) {
      SubsetCount(Entries(all), Entries(es));
    }
    missing :| missing in Entries(all) && missing !in Entries(es);
  }

  lemma {:induction false} SubsetCount(a: set<Entry>, b: set<Entry>)
    requires a <= b
    ensures |a| <= |b|
  {
    assert b == a + (b - a);
  }

  // ----- convergence of a session -----

  lemma {:induction false} DeliveredIsGenuine(rows: Rows, q0: seq<int>, c0: int, hi: int, policy: Policy, ps: seq<Pull>)
    requires Session(rows, q0, c0, hi, policy, ps)
    ensures Genuine(rows, Delivered(ps))
  {
    hide Scan, PullBatch, Stream;
    if ps != [] {
      var p := ps[|ps| - 1];
      DeliveredIsGenuine(rows, q0, c0, hi, policy, ps[..|ps| - 1]);
      BatchIsGenuine(rows, p.queue, p.start, ResetOf(policy, c0, p.start), hi, 0);
    }
  }

  lemma {:induction false} BatchIsGenuine(rows: Rows, queue: seq<int>, cursor: int, reset: int, hi: int, fill: nat)
    requires fill < MAX_BATCH_SIZE
    requires PullBatch(rows, queue, cursor, reset, hi, fill).Batch?
    ensures Genuine(rows, PullBatch(rows, queue, cursor, reset, hi, fill).out)
  {
    hide Scan, Fit, Weight, EntrySize;
    if queue != [] {
      ScanSound(rows, queue[0], cursor, hi);
      var unread := Scan(rows, queue[0], cursor, hi);
      if Fit(unread, fill) == |unread| && fill + Weight(unread) < MAX_BATCH_SIZE {
        BatchIsGenuine(rows, queue[1..], reset, reset, hi, fill + Weight(unread));
      }
    }
  }

  /** A client up to date below its cursor that applies a finished session in which nothing was
      skipped knows exactly the server's rows and tombstones. */
  lemma SessionConverges(db: Database, c0: int, ps: seq<Pull>, replica: Replica)
    requires UsnSafe(db) && IndexAgrees(db) && c0 <= StoredCursor(db)
    requires var q0 := PullQueue(db, c0, StoredCursor(db));
             Session(db.rows, q0, c0, StoredCursor(db), AsCoded, ps) && QueueAfter(q0, ps) == []
    requires forall p <- ps :: Skipped(db.rows, p) == []
    requires UpToDate(replica, db.rows, c0)
    ensures Absorb(replica, EntryChanges(Delivered(ps))) == View(db.rows)
  {
    hide UsnSafe, IndexAgrees, Session, UpToDate, Stream, Skipped;
    CompleteIffNothingSkipped(db.rows, PullQueue(db, c0, StoredCursor(db)), c0, StoredCursor(db), ps);
    StreamConverges(db, c0, replica);
  }

  /** All the client's copies are older than its cursor. */
  ghost predicate Older(replica: Replica, cursor: int) {
    forall k <- replica :: replica[k].usn < cursor
  }

  /** For a client that knows nothing newer than its cursor the condition is exact. */
  lemma ConvergesIffNothingSkipped(db: Database, c0: int, ps: seq<Pull>, replica: Replica)
    requires UsnSafe(db) && IndexAgrees(db) && c0 <= StoredCursor(db)
    requires var q0 := PullQueue(db, c0, StoredCursor(db));
             Session(db.rows, q0, c0, StoredCursor(db), AsCoded, ps) && QueueAfter(q0, ps) == []
    requires UpToDate(replica, db.rows, c0) && Older(replica, c0)
    ensures Absorb(replica, EntryChanges(Delivered(ps))) == View(db.rows) <==>
            forall p <- ps :: Skipped(db.rows, p) == []
  {
    hide UsnSafe, IndexAgrees, Session, Stream, Skipped, Scan, UpToDate;
    var hi := StoredCursor(db);
    var q0 := PullQueue(db, c0, hi);
    if forall p <- ps :: Skipped(db.rows, p) == [] {
      SessionConverges(db, c0, ps, replica);
    } else {
      var all := Stream(db.rows, q0, c0, c0, hi);
      NothingElseIsLost(db.rows, q0, c0, hi, ps);
      SkippedCountZero(db.rows, ps);
      StreamNoDuplicates(db.rows, q0, c0, hi);
      var missing := ShorterMisses(Delivered(ps), all);
      StreamSound(db.rows, q0, c0, hi);
      DeliveredIsGenuine(db.rows, q0, c0, hi, AsCoded, ps);
      AbsorbGenuine(replica, db.rows, Delivered(ps));
      assert View(db.rows)[missing.key].usn >= c0;
    }
  }

  /** The rows a client with this cursor has not read, in the order in which its session reads them. */
  function Unread(db: Database, cursor: int): seq<Entry> {
    Stream(db.rows, PullQueue(db, cursor, StoredCursor(db)), cursor, cursor, StoredCursor(db))
  }

  /** Whether a client converges is told by the server's rows and the client's cursor alone, before the
      session begins: it does iff every byte-budget cut of its unread rows is clean. */
  lemma ConvergesIffCleanCuts(db: Database, c0: int, ps: seq<Pull>, replica: Replica)
    requires UsnSafe(db) && IndexAgrees(db) && c0 <= StoredCursor(db)
    requires var q0 := PullQueue(db, c0, StoredCursor(db));
             Session(db.rows, q0, c0, StoredCursor(db), AsCoded, ps) && QueueAfter(q0, ps) == []
    requires UpToDate(replica, db.rows, c0) && Older(replica, c0)
    ensures Absorb(replica, EntryChanges(Delivered(ps))) == View(db.rows) <==> CleanCuts(Unread(db, c0))
  {
    hide UsnSafe, IndexAgrees, Session, Stream, Skipped, Scan, UpToDate, Older, CleanCuts;
    var q0 := PullQueue(db, c0, StoredCursor(db));
    ConvergesIffNothingSkipped(db, c0, ps, replica);
    CompleteIffNothingSkipped(db.rows, q0, c0, StoredCursor(db), ps);
    CompleteIffCleanCuts(db.rows, q0, c0, StoredCursor(db), ps);
  }

  // ----- other clients' pushes -----

  /** The user has no collection but `own`. */
  predicate OwnOnly(db: Database, own: EntityId) {
    db.collection.Some? ==> db.collection.value.id == own
  }

  predicate OwnChange(c: SyncChange, own: EntityId) {
    ValidUpsert(c) && c.kind == COLLECTION ==> c.id == own
  }

  lemma ChangeKeepsUpToDate(replica: Replica, db: Database, usn: int, c: SyncChange, cursor: int, own: EntityId)
    requires WellFormed(db) && UpToDate(replica, db.rows, cursor) && OwnOnly(db, own)
    requires ValidChange(c) && OwnChange(c, own) && cursor <= usn
    ensures var after := ApplyChange(db, usn, c).value;
            UpToDate(replica, after.rows, cursor) && OwnOnly(after, own)
  {
  }

  /** A batch numbered from the client's cursor on leaves the client up to date below that cursor. */
  lemma {:induction false} BatchKeepsUpToDate(replica: Replica, db: Database, start: int, cs: seq<SyncChange>, cursor: int, own: EntityId)
    requires WellFormed(db) && UpToDate(replica, db.rows, cursor) && OwnOnly(db, own)
    requires ApplyAll(db, start, cs).Some? && cursor <= start && forall c <- cs :: OwnChange(c, own)
    ensures var after := ApplyAll(db, start, cs).value;
            UpToDate(replica, after.rows, cursor) && OwnOnly(after, own)
  {
    hide WellFormed, UpToDate, OwnOnly, OwnChange, ApplyChange;
    if cs != [] {
      var n := |cs| - 1;
      assert cs[n] in cs && forall c <- cs[..n] :: c in cs;
      AcceptedAreChanges(db, start, cs);
      BatchKeepsUpToDate(replica, db, start, cs[..n], cursor, own);
      BatchKeepsWellFormed(db, start, cs[..n]);
      ChangeKeepsUpToDate(replica, ApplyAll(db, start, cs[..n]).value, start + n, cs[n], cursor, own);
    }
  }

  /** A client that knows the server's rows as they are is up to date below every cursor. */
  lemma ViewIsUpToDate(rows: Rows, cursor: int)
    ensures UpToDate(View(rows), rows, cursor)
    ensures UsnsBelow(rows, cursor) ==> Older(View(rows), cursor)
  {
  }

  /** The documented variant always converges. */
  lemma VariantConverges(db: Database, c0: int, ps: seq<Pull>, replica: Replica)
    requires UsnSafe(db) && IndexAgrees(db) && c0 <= StoredCursor(db)
    requires var q0 := PullQueue(db, c0, StoredCursor(db));
             Session(db.rows, q0, c0, StoredCursor(db), AsDocumented, ps) && QueueAfter(q0, ps) == []
    requires UpToDate(replica, db.rows, c0)
    ensures Absorb(replica, EntryChanges(Delivered(ps))) == View(db.rows)
  {
    hide UsnSafe, IndexAgrees, Session, UpToDate, Stream;
    VariantConserves(db.rows, PullQueue(db, c0, StoredCursor(db)), c0, StoredCursor(db), ps);
    EmptyStream(db.rows, CursorAfter(c0, ps), c0, StoredCursor(db));
    assert Delivered(ps) + [] == Delivered(ps);
    StreamConverges(db, c0, replica);
  }
}
