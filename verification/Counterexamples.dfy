/** Concrete databases and batches for which the engine does not do what its comments promise, and
    which show that the assumptions of the protocol are needed. */
module Counterexamples {
  import opened Wrappers
  import opened SyncModel
  import opened PushApply
  import opened PushProofs
  import opened Histories
  import opened PushIndex
  import opened Scans
  import opened PullBatches
  import opened PullSessions
  import opened PullCompleteness
  import opened PullCuts
  import opened PullQueues
  import opened QueueCodec
  import opened Replicas

  // ----- a stop inside the decks makes an older note unreachable -----

  function Upserted(kind: int, id: EntityId, bytes: nat): SyncChange {
    SyncChange(id, kind, OpUpsert, -1, None, Some(Payload(kind, 0, Body(bytes, 0))))
  }

  function EntryOf(usn: int, c: SyncChange): Entry
    requires ValidUpsert(c)
  {
    Entry(Key(c.kind, c.id), UpsertedRow(usn, c))
  }

  const OWN := Upserted(COLLECTION, 100, 10)
  const OLD_NOTE := Upserted(NOTE, 3, 10)
  const BIG_DECK := Upserted(DECK, 1, 70000)
  const NEXT_DECK := Upserted(DECK, 2, 10)
  const NEW_NOTE := Upserted(NOTE, 4, 10)

  /** The user's first push: the collection, a note, a large deck, a small deck ... */
  const ONE_NOTE := [OWN, OLD_NOTE, BIG_DECK, NEXT_DECK]

  /** ... and perhaps a second note. */
  const TWO_NOTES := [OWN, OLD_NOTE, BIG_DECK, NEXT_DECK, NEW_NOTE]

  /** The server after that push. */
  function Pushed(cs: seq<SyncChange>): Database {
    PushTransaction(EMPTY_DATABASE, 1, cs).0
  }

  function KindOf(id: EntityId): int {
    if id == 100 then COLLECTION else if id <= 2 then DECK else NOTE
  }

  lemma PushedIsSafe(cs: seq<SyncChange>)
    requires cs == ONE_NOTE || cs == TWO_NOTES
    ensures UsnSafe(Pushed(cs)) && IndexAgrees(Pushed(cs))
  {
    hide UsnSafe, IndexAgrees, ApplyAll, PushTransaction, Typed, Unambiguous;
    EmptyIsSafe();
    PushCommits(cs);
    TransactionKeepsSafe(EMPTY_DATABASE, 1, cs);
    BatchIsReplay(EMPTY_DATABASE, 1, cs);
    TypedKeepsIndex(EMPTY_DATABASE, Number(1, cs), KindOf, 100);
    BatchKeepsIndexIff(EMPTY_DATABASE, 1, cs);
  }

  lemma PushCommits(cs: seq<SyncChange>)
    requires cs == ONE_NOTE || cs == TWO_NOTES
    ensures PushTransaction(EMPTY_DATABASE, 1, cs).1.Committed? && ApplyAll(EMPTY_DATABASE, 1, cs).Some?
  {
    assert cs[0] == OWN && OWN in cs;
    CommitsIff(EMPTY_DATABASE, 1, cs);
  }

  lemma EmptyIsSafe()
    ensures UsnSafe(EMPTY_DATABASE) && WellFormed(EMPTY_DATABASE) && IndexAgrees(EMPTY_DATABASE)
    ensures Typed(EMPTY_DATABASE, KindOf, 100)
  {
  }

  /** A scan begins with its row of least USN. */
  lemma ScanBegins(rows: Rows, key: Key, lo: int, hi: int)
    requires UsnsDistinct(rows) && key in rows && lo <= rows[key].usn < hi
    requires forall k <- rows :: k.kind == key.kind && lo <= rows[k].usn ==> rows[key].usn <= rows[k].usn
    ensures Scan(rows, key.kind, lo, hi) == [Entry(key, rows[key])] + Scan(rows, key.kind, rows[key].usn + 1, hi)
  {
    var usn := rows[key].usn;
    ScanSplit(rows, key.kind, lo, usn, hi);
    ScanEmptyIff(rows, key.kind, lo, usn);
    RowsAtDistinct(rows, key);
  }

  /** The rows are those of the pushed changes, with USNs 1, 2, 3, ... */
  ghost predicate RowsAre(rows: Rows, cs: seq<SyncChange>) {
    && (forall i | 0 <= i < |cs| :: ValidUpsert(cs[i]) && Key(cs[i].kind, cs[i].id) in rows
                                    && rows[Key(cs[i].kind, cs[i].id)] == UpsertedRow(1 + i, cs[i]))
    && (forall k <- rows :: exists i | 0 <= i < |cs| :: cs[i].SyncChange? && k == Key(cs[i].kind, cs[i].id))
  }

  /** Upserts of different ids, the collection first and only there. */
  ghost predicate FirstPush(cs: seq<SyncChange>) {
    && |cs| > 0 && cs[0] == OWN
    && (forall i | 0 <= i < |cs| :: ValidUpsert(cs[i]) && (cs[i].kind == COLLECTION ==> i == 0))
    && (forall i, j | 0 <= i < j < |cs| :: cs[i].id != cs[j].id)
  }

  lemma {:induction false} PrefixRows(cs: seq<SyncChange>, n: nat)
    requires FirstPush(cs) && n <= |cs|
    ensures ApplyAll(EMPTY_DATABASE, 1, cs[..n]).Some?
    ensures RowsAre(ApplyAll(EMPTY_DATABASE, 1, cs[..n]).value.rows, cs[..n])
    ensures var db := ApplyAll(EMPTY_DATABASE, 1, cs[..n]).value;
            db.collection == if n == 0 then None else Some(Collection(100, 0, 0))
  {
    hide RowsAre, Upsert;
    if n == 0 {
      NoRows();
    } else {
      PrefixRows(cs, n - 1);
      var before := ApplyAll(EMPTY_DATABASE, 1, cs[..n - 1]).value;
      assert cs[..n][..n - 1] == cs[..n - 1] && cs[..n] == cs[..n - 1] + [cs[n - 1]];
      NewRow(before, n, cs[n - 1]);
      OneMoreRow(before.rows, cs[..n - 1], cs[n - 1]);
    }
  }

  lemma NewRow(db: Database, usn: int, c: SyncChange)
    requires ValidUpsert(c) && (c.kind == COLLECTION ==> db.collection.None?)
    ensures Upsert(db, usn, c).rows == db.rows[Key(c.kind, c.id) := UpsertedRow(usn, c)]
    ensures Upsert(db, usn, c).collection == if c.kind == COLLECTION then Some(Collection(c.id, 0, 0)) else db.collection
  {
  }

  lemma NoRows()
    ensures RowsAre(map[], [])
  {
  }

  lemma OneMoreRow(rows: Rows, cs: seq<SyncChange>, c: SyncChange)
    requires RowsAre(rows, cs) && ValidUpsert(c)
    requires forall i | 0 <= i < |cs| :: cs[i].SyncChange? && cs[i].id != c.id
    ensures RowsAre(rows[Key(c.kind, c.id) := UpsertedRow(1 + |cs|, c)], cs + [c])
  {
    var all := cs + [c];
    assert all[|cs|] == c && forall i | 0 <= i < |cs| :: all[i] == cs[i];
  }

  lemma PushedRows(cs: seq<SyncChange>)
    requires cs == ONE_NOTE || cs == TWO_NOTES
    ensures RowsAre(Pushed(cs).rows, cs) && StoredCursor(Pushed(cs)) == 1 + |cs|
  {
    hide ApplyAll, RowsAre;
    assert FirstPush(cs);
    PrefixRows(cs, |cs|);
    assert cs[..|cs|] == cs;
  }

  lemma DecksOf(cs: seq<SyncChange>, rows: Rows)
    requires cs == ONE_NOTE || cs == TWO_NOTES
    requires UsnsDistinct(rows) && RowsAre(rows, cs)
    ensures Scan(rows, DECK, 1, 1 + |cs|) == [EntryOf(3, BIG_DECK), EntryOf(4, NEXT_DECK)]
    ensures Scan(rows, DECK, 4, 1 + |cs|) == [EntryOf(4, NEXT_DECK)]
  {
    hide Scan, UsnsDistinct;
    assert cs[2] == BIG_DECK && cs[3] == NEXT_DECK;
    ScanBegins(rows, Key(DECK, 1), 1, 1 + |cs|);
    ScanBegins(rows, Key(DECK, 2), 4, 1 + |cs|);
    ScanEmptyIff(rows, DECK, 5, 1 + |cs|);
  }

  lemma CollectionOf(cs: seq<SyncChange>, rows: Rows)
    requires cs == ONE_NOTE || cs == TWO_NOTES
    requires UsnsDistinct(rows) && RowsAre(rows, cs)
    ensures Scan(rows, COLLECTION, 1, 1 + |cs|) == [EntryOf(1, OWN)]
  {
    hide Scan, UsnsDistinct;
    assert cs[0] == OWN;
    ScanBegins(rows, Key(COLLECTION, 100), 1, 1 + |cs|);
    ScanEmptyIff(rows, COLLECTION, 2, 1 + |cs|);
  }

  lemma NotesOf(cs: seq<SyncChange>, rows: Rows)
    requires cs == ONE_NOTE || cs == TWO_NOTES
    requires UsnsDistinct(rows) && RowsAre(rows, cs)
    ensures Scan(rows, NOTE, 4, 1 + |cs|) == if cs == ONE_NOTE then [] else [EntryOf(5, NEW_NOTE)]
  {
    hide Scan, UsnsDistinct;
    assert cs[1] == OLD_NOTE;
    if cs == ONE_NOTE {
      ScanEmptyIff(rows, NOTE, 4, 1 + |cs|);
    } else {
      assert cs[4] == NEW_NOTE;
      ScanBegins(rows, Key(NOTE, 4), 4, 1 + |cs|);
      ScanEmptyIff(rows, NOTE, 6, 1 + |cs|);
    }
  }

  /** A handshake of a new client, which has the cursor 1, queues the collection, the decks and the notes. */
  lemma QueueOf(cs: seq<SyncChange>)
    requires cs == ONE_NOTE || cs == TWO_NOTES
    ensures PullQueue(Pushed(cs), 1, 1 + |cs|) == QUEUE
  {
    hide UsnSafe, IndexAgrees, QueueFrom, Pushed, HasUnit, RowsAre;
    var db, hi := Pushed(cs), 1 + |cs|;
    forall kind: Int8 ensures HasUnit(db, kind, 1, hi) <==> kind == COLLECTION || kind == DECK || kind == NOTE {
      KindsOf(cs, kind);
    }
    QueueFromKinds(db, 1, hi);
  }

  lemma KindsOf(cs: seq<SyncChange>, kind: int)
    requires cs == ONE_NOTE || cs == TWO_NOTES
    ensures HasUnit(Pushed(cs), kind, 1, 1 + |cs|) <==> kind == COLLECTION || kind == DECK || kind == NOTE
  {
    hide UsnSafe, Pushed;
    var db := Pushed(cs);
    PushedIsSafe(cs);
    PushedRows(cs);
    assert cs[0] == OWN && cs[1] == OLD_NOTE && cs[2] == BIG_DECK && cs[3] == NEXT_DECK;
    assert db.units[100].kind == COLLECTION && db.units[3].kind == NOTE && db.units[1].kind == DECK;
    if HasUnit(db, kind, 1, 1 + |cs|) {
      var id :| id in db.units && db.units[id].kind == kind;
      assert Key(kind, id) in db.rows;
    }
  }

  lemma QueueFromKinds(db: Database, lo: int, hi: int)
    requires forall kind: Int8 :: HasUnit(db, kind, lo, hi) <==> kind == COLLECTION || kind == DECK || kind == NOTE
    ensures PullQueue(db, lo, hi) == QUEUE
  {
    hide HasUnit;
    assert QueueFrom(db, CARD, lo, hi) == [];
    assert QueueFrom(db, NOTE, lo, hi) == [NOTE];
    assert QueueFrom(db, NOTE_TYPE, lo, hi) == [NOTE];
    assert QueueFrom(db, DECK, lo, hi) == [DECK, NOTE];
  }

  lemma SafeIsDistinct(db: Database)
    requires UsnSafe(db)
    ensures UsnsDistinct(db.rows)
  {
  }

  const QUEUE := [COLLECTION, DECK, NOTE]
  const REST := [DECK, NOTE]
  const FIRST := Pull(QUEUE, 1, [EntryOf(1, OWN), EntryOf(3, BIG_DECK)], REST, 4)

  lemma RestOfFirstPull(cs: seq<SyncChange>, rows: Rows, fill: nat)
    requires cs == ONE_NOTE || cs == TWO_NOTES
    requires UsnsDistinct(rows) && RowsAre(rows, cs) && fill < MAX_BATCH_SIZE
    ensures PullBatch(rows, REST, 1, 1, 1 + |cs|, fill) == Batch([EntryOf(3, BIG_DECK)], REST, 4)
  {
    hide Scan, UsnsDistinct, RowsAre;
    DecksOf(cs, rows);
    var decks := [EntryOf(3, BIG_DECK), EntryOf(4, NEXT_DECK)];
    assert decks[..1] == [decks[0]] && decks[1..] == [decks[1]];
    assert Fit(decks, fill) == 1;
  }

  lemma FirstBatch(cs: seq<SyncChange>, rows: Rows)
    requires cs == ONE_NOTE || cs == TWO_NOTES
    requires UsnsDistinct(rows) && RowsAre(rows, cs)
    ensures PullBatch(rows, QUEUE, 1, 1, 1 + |cs|, 0) == Batch(FIRST.out, REST, 4)
  {
    hide Scan, UsnsDistinct, RowsAre;
    CollectionOf(cs, rows);
    var own := [EntryOf(1, OWN)];
    assert own[1..] == [] && QUEUE[1..] == REST;
    assert Weight(own) < MAX_BATCH_SIZE;
    FitCases(own, 0);
    RestOfFirstPull(cs, rows, Weight(own));
    assert own + [EntryOf(3, BIG_DECK)] == FIRST.out;
  }

  /** The first pull stops behind the large deck. */
  lemma FirstPull(cs: seq<SyncChange>)
    requires cs == ONE_NOTE || cs == TWO_NOTES
    ensures PullBatch(Pushed(cs).rows, QUEUE, 1, 1, 1 + |cs|, 0) == Batch(FIRST.out, REST, 4)
    ensures Session(Pushed(cs).rows, QUEUE, 1, 1 + |cs|, AsCoded, [FIRST])
  {
    hide UsnSafe, Pushed, PullBatch, RowsAre, UsnsDistinct;
    PushedIsSafe(cs);
    PushedRows(cs);
    SafeIsDistinct(Pushed(cs));
    FirstBatch(cs, Pushed(cs).rows);
    assert [FIRST][..0] == [];
  }

  const SECOND := Pull(REST, 4, [EntryOf(4, NEXT_DECK), EntryOf(5, NEW_NOTE)], [], 6)

  const LOST := EntryOf(2, OLD_NOTE)

  predicate Loses(rows: Rows, e: Entry, delivered: seq<Entry>) {
    e.key in rows && rows[e.key] == e.row && e !in delivered
  }

  /** Both pulls, and what they deliver together. */
  lemma BothPulls()
    ensures PullBatch(Pushed(TWO_NOTES).rows, REST, 4, 4, 6, 0) == Batch(SECOND.out, [], 6)
    ensures Session(Pushed(TWO_NOTES).rows, QUEUE, 1, 6, AsCoded, [FIRST, SECOND])
    ensures Delivered([FIRST, SECOND]) == FIRST.out + SECOND.out
  {
    hide Scan, UsnSafe, IndexAgrees, Pushed, PullBatch, Session, RowsAre;
    PushedIsSafe(TWO_NOTES);
    PushedRows(TWO_NOTES);
    SafeIsDistinct(Pushed(TWO_NOTES));
    FirstPull(TWO_NOTES);
    SecondPull(Pushed(TWO_NOTES).rows);
    assert [FIRST][..0] == [] && Delivered([FIRST]) == FIRST.out;
    SessionExtends(Pushed(TWO_NOTES).rows, QUEUE, 1, 6, AsCoded, [FIRST], SECOND);
    assert [FIRST] + [SECOND] == [FIRST, SECOND];
  }

  lemma OldNoteIsThere(rows: Rows)
    requires RowsAre(rows, TWO_NOTES)
    ensures LOST.key in rows && rows[LOST.key] == LOST.row
  {
    assert TWO_NOTES[1] == OLD_NOTE;
  }

  /** The session finishes and its client moves on to cursor 6, but the note that was pushed first is
      never delivered: code and comment disagree about where the notes are read from. */
  lemma FinishedSessionCanLoseARow()
    ensures UsnSafe(Pushed(TWO_NOTES)) && IndexAgrees(Pushed(TWO_NOTES)) && StoredCursor(Pushed(TWO_NOTES)) == 6
    ensures PullQueue(Pushed(TWO_NOTES), 1, 6) == QUEUE
    ensures Session(Pushed(TWO_NOTES).rows, QUEUE, 1, 6, AsCoded, [FIRST, SECOND])
    ensures PullBatch(Pushed(TWO_NOTES).rows, REST, 4, 4, 6, 0) == Batch(SECOND.out, [], 6)
    ensures QueueAfter(QUEUE, [FIRST, SECOND]) == []
    ensures Loses(Pushed(TWO_NOTES).rows, LOST, Delivered([FIRST, SECOND]))
    ensures !CleanCuts(Stream(Pushed(TWO_NOTES).rows, QUEUE, 1, 1, 6))
  {
    hide UsnSafe, IndexAgrees, StoredCursor, Pushed, PullBatch, PullQueue, Session, Stream, CleanCuts, RowsAre, UsnsDistinct, Delivered, Loses;
    ServerIsSound(TWO_NOTES);
    BothPulls();
    NoteIsLost();
  }

  lemma ServerIsSound(cs: seq<SyncChange>)
    requires cs == ONE_NOTE || cs == TWO_NOTES
    ensures UsnSafe(Pushed(cs)) && IndexAgrees(Pushed(cs)) && StoredCursor(Pushed(cs)) == 1 + |cs|
    ensures PullQueue(Pushed(cs), 1, 1 + |cs|) == QUEUE
    ensures UsnsDistinct(Pushed(cs).rows) && RowsAre(Pushed(cs).rows, cs)
    ensures cs == TWO_NOTES ==> LOST.key in Pushed(cs).rows && Pushed(cs).rows[LOST.key] == LOST.row
  {
    hide UsnSafe, IndexAgrees, Pushed, PullQueue, RowsAre, UsnsDistinct;
    PushedIsSafe(cs);
    PushedRows(cs);
    SafeIsDistinct(Pushed(cs));
    QueueOf(cs);
    if cs == TWO_NOTES {
      OldNoteIsThere(Pushed(cs).rows);
    }
  }

  lemma NoteIsNotDelivered()
    ensures LOST !in FIRST.out + SECOND.out
  {
  }

  lemma NoteIsLost()
    ensures Loses(Pushed(TWO_NOTES).rows, LOST, Delivered([FIRST, SECOND]))
    ensures !CleanCuts(Stream(Pushed(TWO_NOTES).rows, QUEUE, 1, 1, 6))
    ensures QueueAfter(QUEUE, [FIRST, SECOND]) == []
  {
    hide Pushed, Session, Stream, CleanCuts, RowsAre, UsnsDistinct, UsnSafe, IndexAgrees, PullBatch, PullQueue, Delivered;
    ServerIsSound(TWO_NOTES);
    BothPulls();
    NoteIsNotDelivered();
    CutsAreNotClean(Pushed(TWO_NOTES).rows);
  }

  lemma CutsAreNotClean(rows: Rows)
    requires UsnsDistinct(rows) && LOST.key in rows && rows[LOST.key] == LOST.row
    requires Session(rows, QUEUE, 1, 6, AsCoded, [FIRST, SECOND])
    requires Delivered([FIRST, SECOND]) == FIRST.out + SECOND.out
    ensures !CleanCuts(Stream(rows, QUEUE, 1, 1, 6))
  {
    hide UsnsDistinct, Session, Stream, CleanCuts, Delivered;
    NoteIsNotDelivered();
    StreamComplete(rows, QUEUE, 1, 6, LOST.key);
    CompleteIffCleanCuts(rows, QUEUE, 1, 6, [FIRST, SECOND]);
  }

  lemma SecondPull(rows: Rows)
    requires UsnsDistinct(rows) && RowsAre(rows, TWO_NOTES)
    ensures PullBatch(rows, REST, 4, 4, 6, 0) == Batch(SECOND.out, [], 6)
  {
    hide Scan, UsnsDistinct;
    DecksOf(TWO_NOTES, rows);
    NotesOf(TWO_NOTES, rows);
    var deck, note := EntryOf(4, NEXT_DECK), EntryOf(5, NEW_NOTE);
    assert [deck][1..] == [] && [note][1..] == [] && REST[1..] == [NOTE];
    assert Weight([deck]) < MAX_BATCH_SIZE && Weight([deck]) + Weight([note]) < MAX_BATCH_SIZE;
    assert PullBatch(rows, [NOTE], 4, 4, 6, Weight([deck])) == Batch([note], [], 6);
  }

  /** Without the second note the session gets stuck instead: its second pull, and every later one,
      fails with "invalid SyncCursorUsn". */
  lemma SessionCanGetStuck()
    ensures UsnSafe(Pushed(ONE_NOTE)) && IndexAgrees(Pushed(ONE_NOTE)) && StoredCursor(Pushed(ONE_NOTE)) == 5
    ensures PullQueue(Pushed(ONE_NOTE), 1, 5) == QUEUE
    ensures Session(Pushed(ONE_NOTE).rows, QUEUE, 1, 5, AsCoded, [FIRST])
    ensures PullBatch(Pushed(ONE_NOTE).rows, REST, 4, 4, 5, 0) == Failed(InvalidSyncCursor)
    ensures Starved(Pushed(ONE_NOTE).rows, QueueAfter(QUEUE, [FIRST]), CursorAfter(1, [FIRST]), 5)
  {
    hide UsnSafe, IndexAgrees, StoredCursor, Pushed, PullBatch, PullQueue, Session, Starved, RowsAre, UsnsDistinct;
    ServerIsSound(ONE_NOTE);
    FirstPull(ONE_NOTE);
    StuckPull(Pushed(ONE_NOTE).rows);
  }

  lemma StuckPull(rows: Rows)
    requires UsnsDistinct(rows) && RowsAre(rows, ONE_NOTE)
    ensures PullBatch(rows, REST, 4, 4, 5, 0) == Failed(InvalidSyncCursor) && Starved(rows, REST, 4, 5)
  {
    hide Scan, UsnsDistinct;
    DecksOf(ONE_NOTE, rows);
    NotesOf(ONE_NOTE, rows);
    var deck := EntryOf(4, NEXT_DECK);
    assert [deck][1..] == [] && REST[1..] == [NOTE] && REST[1] == NOTE;
    assert Weight([deck]) < MAX_BATCH_SIZE;
    assert PullBatch(rows, [NOTE], 4, 4, 5, Weight([deck])) == Failed(InvalidSyncCursor);
  }

  // ----- a foreign collection id -----

  const FOREIGN := Upserted(COLLECTION, 200, 10)

  /** Pushing a collection with another id is accepted and leaves the old id in sync_units without a row. */
  lemma ForeignCollectionBreaksIndex()
    ensures var db := PushTransaction(EMPTY_DATABASE, 1, [OWN]).0;
            var next := PushTransaction(db, 2, [FOREIGN]);
            UsnSafe(db) && IndexAgrees(db) && next.1.Committed? && !IndexAgrees(next.0)
  {
    var db := OwnPushed();
    assert [FOREIGN][..0] == [];
    assert ApplyAll(db, 2, [FOREIGN]) == ApplyChange(db, 2, FOREIGN);
    ChangeKeepsIndexIff(db, 2, FOREIGN);
  }

  lemma OwnPushed() returns (db: Database)
    ensures db == PushTransaction(EMPTY_DATABASE, 1, [OWN]).0
    ensures db == Database(Some(Collection(100, 2, 0)), map[Key(COLLECTION, 100) := UpsertedRow(1, OWN)],
                           map[100 := UnitOf(COLLECTION, UpsertedRow(1, OWN))])
    ensures UsnSafe(db) && IndexAgrees(db)
  {
    assert [OWN][..0] == [];
    assert ApplyAll(EMPTY_DATABASE, 1, [OWN]) == ApplyChange(EMPTY_DATABASE, 1, OWN);
    db := PushTransaction(EMPTY_DATABASE, 1, [OWN]).0;
  }

  const REUSED := Upserted(NOTE, 100, 10)

  /** A batch with changes that clash one by one can still leave the index right: the note takes over
      the id that the collection has lost. */
  lemma ReusedIdKeepsIndex()
    ensures var db := PushTransaction(EMPTY_DATABASE, 1, [OWN]).0;
            var next := PushTransaction(db, 2, [FOREIGN, REUSED]);
            && UsnSafe(db) && IndexAgrees(db) && next.1.Committed? && IndexAgrees(next.0)
            && Clashes(db, FOREIGN)
  {
    hide UsnSafe, IndexAgrees;
    var db := OwnPushed();
    assert [FOREIGN][..0] == [] && [FOREIGN, REUSED][..1] == [FOREIGN];
    assert ApplyAll(db, 2, [FOREIGN]) == ApplyChange(db, 2, FOREIGN);
    assert ApplyAll(db, 2, [FOREIGN, REUSED]) == ApplyChange(Upsert(db, 2, FOREIGN), 3, REUSED);
    NoteTakesOver(db);
    IndexIgnoresCursor(Upsert(Upsert(db, 2, FOREIGN), 3, REUSED), 4);
  }

  lemma NoteTakesOver(db: Database)
    requires db.collection == Some(Collection(100, 2, 0)) && db.rows.Keys == {Key(COLLECTION, 100)} && db.units.Keys == {100}
    ensures IndexAgrees(Upsert(Upsert(db, 2, FOREIGN), 3, REUSED))
    ensures Upsert(Upsert(db, 2, FOREIGN), 3, REUSED).collection == Some(Collection(200, 2, 0))
  {
    var after := Upsert(Upsert(db, 2, FOREIGN), 3, REUSED);
    assert after.rows.Keys == {Key(COLLECTION, 200), Key(NOTE, 100)};
  }

  // ----- a transaction that outlives its session -----

  /** If a session expired while its batch was still pending, the next session would reserve the same
      USNs, and after both commits two rows would share one. */
  lemma LateCommitBreaksUsns()
    ensures var db := PushTransaction(EMPTY_DATABASE, 1, [OWN]).0;
            var first := PushTransaction(db, StoredCursor(db), [OLD_NOTE]);
            var second := PushTransaction(first.0, StoredCursor(db), [NEW_NOTE, NEXT_DECK]);
            first.1.Committed? && second.1.Committed? && !UsnsDistinct(second.0.rows)
  {
    var db := PushTransaction(EMPTY_DATABASE, 1, [OWN]).0;
    assert [OWN][..0] == [] && [OLD_NOTE][..0] == [];
    assert ApplyAll(EMPTY_DATABASE, 1, [OWN]) == Some(Upsert(EMPTY_DATABASE, 1, OWN));
    assert ApplyAll(db, 2, [OLD_NOTE]) == Some(Upsert(db, 2, OLD_NOTE));
    var first := PushTransaction(db, 2, [OLD_NOTE]).0;
    var next := [NEW_NOTE, NEXT_DECK];
    assert next[..1] == [NEW_NOTE] && next[..1][..0] == [];
    assert ApplyAll(first, 2, next[..1]) == Some(Upsert(first, 2, NEW_NOTE));
    var second := PushTransaction(first, 2, next).0;
    assert second.rows[Key(NOTE, 3)].usn == second.rows[Key(NOTE, 4)].usn;
  }
}
