/** How rows are measured and sent, column by column and change by change. */
module RowFormats {
  import opened SyncModel
  import opened PushApply
  import opened PushProofs
  import opened Scans
  import opened PullBatches

  // ----- column widths -----

  const ID_SIZE := 16
  const USN_SIZE := 8
  const REFERENCE_SIZE := 16
  const TIME_SIZE := 8
  const FLOAT_SIZE := 8
  const INT32_SIZE := 4
  const FLAG_SIZE := 1

  /** The bytes counted for a row are the widths of its columns and the length of its strings. */
  lemma SizesAreColumns(e: Entry)
    requires IsKind(e.key.kind)
    ensures var key := ID_SIZE + USN_SIZE;
            EntrySize(e) ==
            // id, usn, updated_at, is_deleted
            if e.row.deleted then key + TIME_SIZE + FLAG_SIZE
            else match e.key.kind
              // sqlite_schema_version, created_at, updated_at, daily_reset_time; time_zone, config
              case 1 => key + INT32_SIZE + TIME_SIZE + TIME_SIZE + INT32_SIZE + e.row.body.bytes
              // reset_at, updated_at, four counters, is_deleted; name, config
              case 2 => key + TIME_SIZE + TIME_SIZE + 4 * INT32_SIZE + FLAG_SIZE + e.row.body.bytes
              // preset_template_id, updated_at, is_deleted; name, note_template
              case 3 => key + INT32_SIZE + TIME_SIZE + FLAG_SIZE + e.row.body.bytes
              // note_id, deck_id, updated_at, difficulty, stability, scheduled_days, due, last_review,
              // lapses, learning_steps, repetitions, state, queue, is_deleted
              case 6 => key + 2 * REFERENCE_SIZE + TIME_SIZE + 2 * FLOAT_SIZE + INT32_SIZE + 2 * TIME_SIZE + 5 * INT32_SIZE + FLAG_SIZE
              // card_id, review_time, scheduled_days, rating, difficulty, stability, learning_steps, state, duration
              case 7 => key + REFERENCE_SIZE + TIME_SIZE + 2 * INT32_SIZE + 2 * FLOAT_SIZE + 3 * INT32_SIZE
              // note_type_id, created_at, updated_at, sense_id, is_deleted; fields
              case _ => key + REFERENCE_SIZE + TIME_SIZE + TIME_SIZE + INT32_SIZE + FLAG_SIZE + e.row.body.bytes
  {
  }

  // ----- how many rows of one size fill a batch -----

  lemma OneTimes(n: nat, size: nat)
    ensures n > 0 ==> size + (n - 1) * size == n * size
  {
  }

  lemma {:induction false} UniformWeight(es: seq<Entry>, size: nat)
    requires forall e <- es :: EntrySize(e) == size
    ensures Weight(es) == |es| * size
  {
    hide EntrySize;
    if es != [] {
      assert es[0] in es && forall e <- es[1..] :: e in es;
      UniformWeight(es[1..], size);
      OneTimes(|es|, size);
    }
  }

  /** Of rows of one size a batch takes just as many as it needs to reach 65536 bytes. */
  lemma UniformFit(es: seq<Entry>, size: nat)
    requires forall e <- es :: EntrySize(e) == size
    ensures var n := Fit(es, 0);
            && (n > 0 ==> (n - 1) * size < 65536)
            && (n < |es| ==> n * size >= 65536)
  {
    hide EntrySize, Weight, Fit;
    var n := Fit(es, 0);
    FitStopsWhenFull(es, 0);
    if n > 0 {
      assert forall e <- es[..n - 1] :: e in es;
      UniformWeight(es[..n - 1], size);
    }
    assert forall e <- es[..n] :: e in es;
    UniformWeight(es[..n], size);
  }

  /** With more than 542 live cards to read, a pull delivers exactly the first 542 ... */
  lemma CardsPerBatch(rows: Rows, lo: int, hi: int)
    requires |Scan(rows, CARD, lo, hi)| > 542 && forall e <- Scan(rows, CARD, lo, hi) :: !e.row.deleted
    ensures var r := PullBatch(rows, [CARD], lo, lo, hi, 0);
            r.Batch? && r.out == Scan(rows, CARD, lo, hi)[..542]
  {
    hide Scan, Fit, Weight;
    ScanSound(rows, CARD, lo, hi);
    UniformFit(Scan(rows, CARD, lo, hi), 121);
  }

  /** ... with more than 781 review logs the first 781 ... */
  lemma ReviewLogsPerBatch(rows: Rows, lo: int, hi: int)
    requires |Scan(rows, REVIEW_LOG, lo, hi)| > 781 && forall e <- Scan(rows, REVIEW_LOG, lo, hi) :: !e.row.deleted
    ensures var r := PullBatch(rows, [REVIEW_LOG], lo, lo, hi, 0);
            r.Batch? && r.out == Scan(rows, REVIEW_LOG, lo, hi)[..781]
  {
    hide Scan, Fit, Weight;
    ScanSound(rows, REVIEW_LOG, lo, hi);
    UniformFit(Scan(rows, REVIEW_LOG, lo, hi), 84);
  }

  /** ... and with more than 1986 tombstones of any kind the first 1986. */
  lemma TombstonesPerBatch(rows: Rows, kind: int, lo: int, hi: int)
    requires IsKind(kind) && |Scan(rows, kind, lo, hi)| > 1986 && forall e <- Scan(rows, kind, lo, hi) :: e.row.deleted
    ensures var r := PullBatch(rows, [kind], lo, lo, hi, 0);
            r.Batch? && r.out == Scan(rows, kind, lo, hi)[..1986]
  {
    hide Scan, Fit, Weight;
    ScanSound(rows, kind, lo, hi);
    UniformFit(Scan(rows, kind, lo, hi), 33);
  }

  // ----- a delivered row, sent back -----

  function Unnumbered(c: SyncChange): SyncChange
    requires c.SyncChange?
  {
    c.(usn := -1)
  }

  /** The change delivered for a live row, pushed again, is accepted and recreates the row. */
  lemma LiveRowReturns(db: Database, usn: int, e: Entry)
    requires IsKind(e.key.kind) && !e.row.deleted
    ensures var c := EntryChange(e);
            && c.SyncChange? && c.usn == e.row.usn && c.op == OpUpsert && c.deletedAt.None?
            && Acceptable(Unnumbered(c))
            && var after := ApplyChange(db, usn, Unnumbered(c));
               after.Some? && e.key in after.value.rows && after.value.rows[e.key] == e.row.(usn := usn)
  {
  }

  /** The change delivered for a tombstone is a delete without payload. Pushed again it is accepted and
      turns the row, while it is live, into just this tombstone, whose content is kept. */
  lemma TombstoneReturns(db: Database, usn: int, e: Entry)
    requires IsDeletable(e.key.kind) && e.row.deleted
    ensures var c := EntryChange(e);
            && c.SyncChange? && c.usn == e.row.usn && c.op == OpDelete && c.payload.None?
            && Acceptable(Unnumbered(c))
            && var after := ApplyChange(db, usn, Unnumbered(c));
               && after.Some?
               && (e.key in db.rows && !db.rows[e.key].deleted && db.rows[e.key].body == e.row.body ==>
                     e.key in after.value.rows && after.value.rows[e.key] == e.row.(usn := usn))
               && (!(e.key in db.rows && !db.rows[e.key].deleted) ==> after.value == db)
  {
  }

  /** What it means that sync_units agrees with the tables. */
  lemma AgreementMeans(db: Database, key: Key)
    requires IndexAgrees(db) && key in db.rows
    ensures key.id in db.units
    ensures var unit, row := db.units[key.id], db.rows[key];
            && unit.kind == key.kind && unit.usn == row.usn && unit.updatedAt == row.updatedAt
            && (unit.op == UnitDelete <==> row.deleted)
  {
  }
}
