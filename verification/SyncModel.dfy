/** The entities of one user: the seven entity tables, the sync_units index and the wire changes.

    Ids are only ever compared, so the sixteen bytes of an id are read as one number. The columns of
    a payload that the engine only copies are one opaque `content`; `bytes` is the total length of
    the payload's variable strings, the only part of a payload the engine ever measures. */
module SyncModel {
  import opened Wrappers

  const COLLECTION := 1
  const DECK := 2
  const NOTE_TYPE := 3
  const PROCESSING_NOTE := 4
  const NOTE := 5
  const CARD := 6
  const REVIEW_LOG := 7

  const MAX_BATCH_SIZE := 1024 * 64

  type EntityId = nat

  predicate IsKind(kind: int) {
    COLLECTION <= kind <= REVIEW_LOG
  }

  /** The kinds whose tables have an is_deleted column that a push can set. */
  predicate IsDeletable(kind: int) {
    DECK <= kind <= CARD
  }

  datatype Body = Body(bytes: nat, content: int)

  datatype Key = Key(kind: int, id: EntityId)

  datatype Row = Row(usn: int, updatedAt: int, deleted: bool, body: Body)

  datatype UnitOp = UnitUpsert | UnitDelete

  datatype SyncUnit = SyncUnit(kind: int, op: UnitOp, usn: int, updatedAt: int)

  /** The columns of the collections table that are not synchronised content; the synchronised ones
      are the row stored under Key(COLLECTION, id). The table is keyed by user: at most one row. */
  datatype Collection = Collection(id: EntityId, syncCursor: int, lastSyncTime: int)

  datatype Database = Database(collection: Option<Collection>, rows: map<Key, Row>, units: map<EntityId, SyncUnit>)

  /** The payload oneof: `kind` says which alternative is set. */
  datatype Payload = Payload(kind: int, updatedAt: int, body: Body)

  datatype ChangeOp = OpUnspecified | OpUpsert | OpDelete | OpAssignUsn

  datatype SyncChange =
    | NilChange
    | SyncChange(id: EntityId, kind: int, op: ChangeOp, usn: int, deletedAt: Option<int>, payload: Option<Payload>)

  const EMPTY_DATABASE := Database(None, map[], map[])

  /** The stored sync_cursor_usn as a handshake reads it: 1 when the user has no collection. */
  function StoredCursor(db: Database): int {
    if db.collection.Some? then db.collection.value.syncCursor else 1
  }

  /** What the tables hold whatever the ids and USNs are: the collections row belongs to the recorded
      collection, and only the deletable kinds have tombstones. */
  ghost predicate WellFormed(db: Database) {
    && (forall k <- db.rows :: IsKind(k.kind) && (db.rows[k].deleted ==> IsDeletable(k.kind)))
    && (forall k <- db.rows :: k.kind == COLLECTION ==> db.collection.Some? && k.id == db.collection.value.id)
    && (db.collection.Some? ==> Key(COLLECTION, db.collection.value.id) in db.rows)
  }

  ghost predicate UsnsDistinct(rows: map<Key, Row>) {
    forall j, k :: j in rows && k in rows && rows[j].usn == rows[k].usn ==> j == k
  }

  ghost predicate UsnsBelow(rows: map<Key, Row>, bound: int) {
    forall k <- rows :: rows[k].usn < bound
  }

  function UnitOf(kind: int, row: Row): SyncUnit {
    SyncUnit(kind, if row.deleted then UnitDelete else UnitUpsert, row.usn, row.updatedAt)
  }

  /** sync_units holds exactly one entry per entity row, and says the same as the row. */
  ghost predicate IndexAgrees(db: Database) {
    && (forall k <- db.rows :: k.id in db.units && db.units[k.id] == UnitOf(k.kind, db.rows[k]))
    && (forall id <- db.units :: Key(db.units[id].kind, id) in db.rows)
  }

  /** One row of a scan. */
  datatype Entry = Entry(key: Key, row: Row)

  /** The bytes the collector counts for a row: the fixed columns of its table plus the variable
      strings, or the four columns of a tombstone. Cards and review logs have no variable string. */
  function EntrySize(e: Entry): (n: nat)
    ensures n > 0
  {
    if e.row.deleted then 33
    else if e.key.kind == COLLECTION then 48 + e.row.body.bytes
    else if e.key.kind == DECK then 57 + e.row.body.bytes
    else if e.key.kind == NOTE_TYPE then 37 + e.row.body.bytes
    else if e.key.kind == CARD then 121
    else if e.key.kind == REVIEW_LOG then 84
    else 61 + e.row.body.bytes
  }

  /** The change a pull sends for a row: a tombstone carries only its deletion time. */
  function EntryChange(e: Entry): SyncChange {
    if e.row.deleted then
      SyncChange(e.key.id, e.key.kind, OpDelete, e.row.usn, Some(e.row.updatedAt), None)
    else
      SyncChange(e.key.id, e.key.kind, OpUpsert, e.row.usn, None, Some(Payload(e.key.kind, e.row.updatedAt, e.row.body)))
  }

  function EntryChanges(es: seq<Entry>): (cs: seq<SyncChange>)
    ensures |cs| == |es|
  {
    seq(|es|, i requires 0 <= i < |es| => EntryChange(es[i]))
  }

  function Weight(es: seq<Entry>): nat {
    if es == [] then 0 else EntrySize(es[0]) + Weight(es[1..])
  }

  lemma WeightOfNone()
    ensures Weight([]) == 0
  {
  }

  lemma WeightOfOne(e: Entry)
    ensures Weight([e]) == EntrySize(e)
  {
  }

  lemma {:induction false} WeightOfConcat(a: seq<Entry>, b: seq<Entry>)
    ensures Weight(a + b) == Weight(a) + Weight(b)
  {
    if a == [] {
      assert a + b == b;
    } else {
      assert (a + b)[1..] == a[1..] + b;
      WeightOfConcat(a[1..], b);
    }
  }
}
