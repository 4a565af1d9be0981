/** The queue a handshake computes from sync_units. */
module PullQueues {
  import opened SyncModel
  import opened Scans
  import opened QueueCodec
  import opened PullCompleteness

  /** One branch of select_pull_entity_types.sql. */
  predicate HasUnit(db: Database, kind: int, lo: int, hi: int) {
    exists id <- db.units :: db.units[id].kind == kind && lo <= db.units[id].usn < hi
  }

  /** The kinds from `from` on that have a unit in the range. */
  function QueueFrom(db: Database, from: int, lo: int, hi: int): (q: seq<Int8>)
    requires COLLECTION <= from <= REVIEW_LOG + 1
    ensures forall i | 0 <= i < |q| :: from <= q[i] <= REVIEW_LOG && HasUnit(db, q[i], lo, hi)
    ensures forall k: Int8 | from <= k <= REVIEW_LOG && HasUnit(db, k, lo, hi) :: k in q
    ensures forall i, j | 0 <= i < j < |q| :: q[i] < q[j]
    decreases REVIEW_LOG + 1 - from
  {
    if from > REVIEW_LOG then []
    else
      var rest := QueueFrom(db, from + 1, lo, hi);
      if HasUnit(db, from, lo, hi) then [from] + rest else rest
  }

  /** Exactly the kinds with a unit in the range, in ascending order. */
  function PullQueue(db: Database, lo: int, hi: int): (q: seq<Int8>)
    ensures forall i | 0 <= i < |q| :: IsKind(q[i]) && HasUnit(db, q[i], lo, hi)
    ensures forall k: Int8 | IsKind(k) && HasUnit(db, k, lo, hi) :: k in q
    ensures forall i, j | 0 <= i < j < |q| :: q[i] < q[j]
  {
    QueueFrom(db, COLLECTION, lo, hi)
  }

  lemma {:induction false} UnitsDecideQueueFrom(a: Database, b: Database, from: int, lo: int, hi: int)
    requires a.units == b.units && COLLECTION <= from <= REVIEW_LOG + 1
    ensures QueueFrom(a, from, lo, hi) == QueueFrom(b, from, lo, hi)
    decreases REVIEW_LOG + 1 - from
  {
    if from <= REVIEW_LOG {
      UnitsDecideQueueFrom(a, b, from + 1, lo, hi);
      assert HasUnit(a, from, lo, hi) == HasUnit(b, from, lo, hi);
    }
  }

  lemma UnitsDecideQueue(a: Database, b: Database, lo: int, hi: int)
    requires a.units == b.units
    ensures PullQueue(a, lo, hi) == PullQueue(b, lo, hi)
  {
    UnitsDecideQueueFrom(a, b, COLLECTION, lo, hi);
  }

  /** Where the index agrees with the tables, a kind is queued iff its table has a row in the range. */
  lemma QueuedIffRows(db: Database, kind: int, lo: int, hi: int)
    requires IndexAgrees(db) && UsnsDistinct(db.rows) && IsKind(kind)
    ensures kind in PullQueue(db, lo, hi) <==> Scan(db.rows, kind, lo, hi) != []
  {
    hide Scan;
    ScanEmptyIff(db.rows, kind, lo, hi);
    if HasUnit(db, kind, lo, hi) {
      var id :| id in db.units && db.units[id].kind == kind && lo <= db.units[id].usn < hi;
      assert Key(kind, id) in db.rows;
    }
    if key :| key in db.rows && key.kind == kind && lo <= db.rows[key].usn < hi {
      assert key.id in db.units;
    }
  }

  /** So the first pull of a session never fails, whatever has been deleted, moved or overwritten. */
  lemma HandshakeQueueIsUnread(db: Database, lo: int, hi: int)
    requires IndexAgrees(db) && UsnsDistinct(db.rows)
    ensures AllUnread(db.rows, PullQueue(db, lo, hi), lo, hi)
  {
    var q := PullQueue(db, lo, hi);
    forall i | 0 <= i < |q| ensures IsKind(q[i]) && Scan(db.rows, q[i], lo, hi) != [] {
      assert q[i] in q;
      QueuedIffRows(db, q[i], lo, hi);
    }
  }
}
