/** The pull_*.sql queries: rows of one kind with lo <= usn < hi, by ascending usn. */
module Scans {
  import opened SyncModel

  type Rows = map<Key, Row>

  predicate HasUsn(rows: Rows, kind: int, usn: int, key: Key) {
    key in rows && key.kind == kind && rows[key].usn == usn
  }

  predicate IsFirst(rows: Rows, kind: int, usn: int, key: Key) {
    HasUsn(rows, kind, usn, key) && forall k <- rows :: HasUsn(rows, kind, usn, k) ==> key.id <= k.id
  }

  lemma {:induction false} FirstExists(rows: Rows, kind: int, usn: int, key: Key)
    requires HasUsn(rows, kind, usn, key)
    ensures exists k <- rows :: IsFirst(rows, kind, usn, k)
    decreases key.id
  {
    if !IsFirst(rows, kind, usn, key) {
      var smaller :| smaller in rows && HasUsn(rows, kind, usn, smaller) && smaller.id < key.id;
      FirstExists(rows, kind, usn, smaller);
    }
  }

  /** The row with that USN, as a sequence of at most one entry. USNs are distinct in every state the
      server reaches; in a table where they were not, this would be the row with the smallest id. */
  function RowsAt(rows: Rows, kind: int, usn: int): seq<Entry> {
    if exists key <- rows :: HasUsn(rows, kind, usn, key) then
      assert exists k <- rows :: IsFirst(rows, kind, usn, k) by {
        var some :| some in rows && HasUsn(rows, kind, usn, some);
        FirstExists(rows, kind, usn, some);
      }
      var key :| key in rows && IsFirst(rows, kind, usn, key);
      [Entry(key, rows[key])]
    else []
  }

  function Scan(rows: Rows, kind: int, lo: int, hi: int): seq<Entry>
    decreases hi - lo
  {
    if lo >= hi then [] else RowsAt(rows, kind, lo) + Scan(rows, kind, lo + 1, hi)
  }

  function Min(a: int, b: int): int {
    if a < b then a else b
  }

  /** LIMIT n */
  function Limited(es: seq<Entry>, n: nat): seq<Entry> {
    es[..Min(n, |es|)]
  }

  lemma RowsAtDistinct(rows: Rows, key: Key)
    requires UsnsDistinct(rows) && key in rows
    ensures RowsAt(rows, key.kind, rows[key].usn) == [Entry(key, rows[key])]
  {
    assert HasUsn(rows, key.kind, rows[key].usn, key);
  }

  lemma EmptyRange(rows: Rows, kind: int, usn: int)
    ensures Scan(rows, kind, usn, usn) == []
  {
  }

  lemma {:induction false} ScanSplit(rows: Rows, kind: int, lo: int, mid: int, hi: int)
    requires lo <= mid <= hi
    ensures Scan(rows, kind, lo, hi) == Scan(rows, kind, lo, mid) + Scan(rows, kind, mid, hi)
    decreases mid - lo
  {
    if lo < mid {
      ScanSplit(rows, kind, lo + 1, mid, hi);
    }
  }

  /** Only rows of the kind with a USN in the range, in strictly ascending order. */
  lemma {:induction false} ScanSound(rows: Rows, kind: int, lo: int, hi: int)
    ensures forall e <- Scan(rows, kind, lo, hi) ::
              e.key in rows && e.key.kind == kind && e.row == rows[e.key] && lo <= e.row.usn < hi
    ensures forall i, j :: 0 <= i < j < |Scan(rows, kind, lo, hi)| ==>
              Scan(rows, kind, lo, hi)[i].row.usn < Scan(rows, kind, lo, hi)[j].row.usn
    decreases hi - lo
  {
    if lo < hi {
      ScanSound(rows, kind, lo + 1, hi);
      var rest := Scan(rows, kind, lo + 1, hi);
      assert forall j | 0 <= j < |rest| :: rest[j] in rest;
    }
  }

  /** Every such row. */
  lemma {:induction false} ScanComplete(rows: Rows, key: Key, lo: int, hi: int)
    requires UsnsDistinct(rows) && key in rows && lo <= rows[key].usn < hi
    ensures Entry(key, rows[key]) in Scan(rows, key.kind, lo, hi)
    decreases hi - lo
  {
    if lo == rows[key].usn {
      RowsAtDistinct(rows, key);
      assert RowsAt(rows, key.kind, lo)[0] == Entry(key, rows[key]);
    } else {
      ScanComplete(rows, key, lo + 1, hi);
    }
  }

  /** A scan is cut after its entry j exactly by the cursor "usn of that entry plus one". */
  lemma {:induction false} ScanCut(rows: Rows, kind: int, lo: int, hi: int, j: nat)
    requires j < |Scan(rows, kind, lo, hi)|
    ensures var all := Scan(rows, kind, lo, hi);
            var cursor := all[j].row.usn + 1;
            && lo < cursor <= hi
            && all[..j + 1] == Scan(rows, kind, lo, cursor)
            && all[j + 1..] == Scan(rows, kind, cursor, hi)
    decreases hi - lo
  {
    var at := RowsAt(rows, kind, lo);
    var rest := Scan(rows, kind, lo + 1, hi);
    if at != [] && j == 0 {
      assert Scan(rows, kind, lo + 1, lo + 1) == [];
      assert Scan(rows, kind, lo, lo + 1) == at;
    } else {
      var i := j - |at|;
      ScanCut(rows, kind, lo + 1, hi, i);
      var cursor := rest[i].row.usn + 1;
      assert (at + rest)[..j + 1] == at + rest[..i + 1];
      assert (at + rest)[j + 1..] == rest[i + 1..];
    }
  }

  lemma ScanEmptyIff(rows: Rows, kind: int, lo: int, hi: int)
    requires UsnsDistinct(rows)
    ensures Scan(rows, kind, lo, hi) != [] <==> exists key <- rows :: key.kind == kind && lo <= rows[key].usn < hi
  {
    ScanSound(rows, kind, lo, hi);
    if Scan(rows, kind, lo, hi) != [] {
      assert Scan(rows, kind, lo, hi)[0] in Scan(rows, kind, lo, hi);
    }
    forall key | key in rows && key.kind == kind && lo <= rows[key].usn < hi ensures Scan(rows, kind, lo, hi) != [] {
      ScanComplete(rows, key, lo, hi);
    }
  }
}
