/** GetChangesSinceUSN as the program runs it: a queue, a cursor, and one limited query at a time. */
module PullChangeStores {
  import opened SyncModel
  import opened Scans
  import opened PullBatches
  import opened Collectors
  import opened PushChangeStores

  datatype PullChangesResult = PullFailed(error: PullError) | PullChanges(typeQueue: seq<int>, syncCursorUSN: int)

  function ResultOf(r: BatchResult): PullChangesResult {
    if r.Failed? then PullFailed(r.error) else PullChanges(r.queue, r.cursor)
  }

  class PullChangeStore {
    const db: MySql

    constructor (db: MySql)
      ensures this.db == db
    {
      this.db := db;
    }

    /** The page queries PullCollection, PullDecks, ..., PullReviewLogs: limit + 1 rows of one table,
        of which the first m are taken. */
    method PullPage(kind: int, startUSN: int, endUSN: int, c: PullCollector) returns (r: CollectResult, ghost m: nat)
      requires WellFormed(db.tables) && IsKind(kind)
      requires c.Valid() && c.actualSize < MAX_BATCH_SIZE
      modifies c
      ensures c.Valid()
      ensures var unread := Scan(db.tables.rows, kind, startUSN, endUSN);
              && m <= |unread|
              && c.entries == old(c.entries) + unread[..m]
              && c.actualSize == old(c.actualSize) + Weight(unread[..m])
              && (unread == [] ==> r.syncCursorUsn == 0)
              && (unread != [] ==> m > 0 && r.syncCursorUsn == unread[m - 1].row.usn + 1 && startUSN < r.syncCursorUsn <= endUSN)
              && r.hasMore == (m < |unread|)
              && r.sizeExceeded == (c.actualSize >= MAX_BATCH_SIZE)
              && ((r.hasMore && !r.sizeExceeded) || m == Fit(unread, old(c.actualSize)))
    {
      hide Scan, Fit, Weight, EntrySize, WellFormed, PullCollector.Valid;
      var limit := LimitOf(kind);
      var unread := Scan(db.tables.rows, kind, startUSN, endUSN);
      var page := Limited(unread, limit + 1);
      FlagsAreExact(db.tables.rows, kind, startUSN, endUSN, limit, c.actualSize);
      FitCases(unread, c.actualSize);
      if kind == COLLECTION {
        AtMostOneCollection(db.tables, startUSN, endUSN);
        assert page == unread;
        m := Fit(page, c.actualSize);
        r := c.AddCollectionChanges(page, limit);
      } else {
        m := Taken(page, limit, c.actualSize);
        r := c.AddChanges(page, limit);
      }
    }

    method GetChangesSinceUSN(startUSN: int, endUSN: int, queue: seq<int>, c: PullCollector) returns (result: PullChangesResult)
      requires WellFormed(db.tables)
      requires c.Valid() && c.entries == [] && c.actualSize == 0
      modifies c
      ensures c.Valid()
      ensures var batch := PullBatch(db.tables.rows, queue, startUSN, startUSN, endUSN, 0);
              result == ResultOf(batch) && (batch.Batch? ==> c.entries == batch.out)
    {
      hide Scan, Fit, Weight, EntrySize, WellFormed, PullCollector.Valid;
      ghost var batch := PullBatch(db.tables.rows, queue, startUSN, startUSN, endUSN, 0);
      var typeQueue, cursorUSN := queue, startUSN;
      while |typeQueue| > 0
        invariant c.Valid() && c.actualSize < MAX_BATCH_SIZE
        invariant batch == Prefixed(c.entries, PullBatch(db.tables.rows, typeQueue, cursorUSN, startUSN, endUSN, c.actualSize))
        decreases |typeQueue|, endUSN - cursorUSN
      {
        var entityType := typeQueue[0];
        if !IsKind(entityType) {
          return PullFailed(UnsupportedEntityType);
        }
        ghost var taken, fill := c.entries, c.actualSize;
        var colResult, m := PullPage(entityType, cursorUSN, endUSN, c);
        if colResult.syncCursorUsn <= cursorUSN {
          return PullFailed(InvalidSyncCursor);
        }
        AfterPage(db.tables.rows, typeQueue, cursorUSN, startUSN, endUSN, fill, m);
        ghost var page := Scan(db.tables.rows, entityType, cursorUSN, endUSN)[..m];
        if colResult.sizeExceeded {
          if colResult.hasMore {
            return PullChanges(typeQueue, colResult.syncCursorUsn);
          } else {
            return PullChanges(typeQueue[1..], startUSN);
          }
        } else if colResult.hasMore {
          cursorUSN := colResult.syncCursorUsn;
          PrefixedTwice(taken, page, PullBatch(db.tables.rows, typeQueue, cursorUSN, startUSN, endUSN, c.actualSize));
        } else {
          cursorUSN := startUSN;
          typeQueue := typeQueue[1..];
          PrefixedTwice(taken, page, PullBatch(db.tables.rows, typeQueue, cursorUSN, startUSN, endUSN, c.actualSize));
        }
      }
      result := PullChanges(typeQueue, endUSN);
    }
  }
}
