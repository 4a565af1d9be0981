/** Whole pull sessions: what the successful pulls of one session deliver together. */
module PullSessions {
  import opened SyncModel
  import opened Scans
  import opened PullBatches

  /** One successful pull: the queue and cursor it started from, what it delivered, what it saved. */
  datatype Pull = Pull(queue: seq<int>, start: int, out: seq<Entry>, next: seq<int>, cursor: int)

  /** Where the cursor goes when a type is finished. The code goes back to the StartUSN of the call;
      the comment on SyncCursorUSN says the client's handshake cursor, which is kept here as a variant. */
  datatype Policy = AsCoded | AsDocumented

  function ResetOf(policy: Policy, c0: int, start: int): int {
    if policy == AsDocumented then c0 else start
  }

  function QueueAfter(q0: seq<int>, ps: seq<Pull>): seq<int> {
    if ps == [] then q0 else ps[|ps| - 1].next
  }

  function CursorAfter(c0: int, ps: seq<Pull>): int {
    if ps == [] then c0 else ps[|ps| - 1].cursor
  }

  function Delivered(ps: seq<Pull>): seq<Entry> {
    if ps == [] then [] else Delivered(ps[..|ps| - 1]) + ps[|ps| - 1].out
  }

  /** `p` is what a pull does from the queue and cursor the pulls before it saved. */
  ghost predicate Follows(rows: Rows, q0: seq<int>, c0: int, hi: int, policy: Policy, before: seq<Pull>, p: Pull) {
    && p.queue == QueueAfter(q0, before) && p.start == CursorAfter(c0, before)
    && (before != [] ==> p.queue != [])
    && PullBatch(rows, p.queue, p.start, ResetOf(policy, c0, p.start), hi, 0) == Batch(p.out, p.next, p.cursor)
  }

  /** The successful pulls, in order, of a session that starts with queue q0 and cursor c0. */
  ghost predicate Session(rows: Rows, q0: seq<int>, c0: int, hi: int, policy: Policy, ps: seq<Pull>) {
    ps == [] ||
    (Session(rows, q0, c0, hi, policy, ps[..|ps| - 1])
     && Follows(rows, q0, c0, hi, policy, ps[..|ps| - 1], ps[|ps| - 1]))
  }

  lemma SessionExtends(rows: Rows, q0: seq<int>, c0: int, hi: int, policy: Policy, ps: seq<Pull>, p: Pull)
    requires Session(rows, q0, c0, hi, policy, ps) && Follows(rows, q0, c0, hi, policy, ps, p)
    ensures Session(rows, q0, c0, hi, policy, ps + [p])
    ensures Delivered(ps + [p]) == Delivered(ps) + p.out
  {
    assert (ps + [p])[..|ps|] == ps;
  }

  lemma SessionEnds(rows: Rows, q0: seq<int>, c0: int, hi: int, policy: Policy, ps: seq<Pull>)
    requires ps != [] && Session(rows, q0, c0, hi, policy, ps)
    ensures Session(rows, q0, c0, hi, policy, ps[..|ps| - 1])
    ensures Follows(rows, q0, c0, hi, policy, ps[..|ps| - 1], ps[|ps| - 1])
  {
  }

  lemma FollowsStart(rows: Rows, q0: seq<int>, c0: int, hi: int, policy: Policy, before: seq<Pull>, p: Pull)
    requires Follows(rows, q0, c0, hi, policy, before, p)
    ensures p.queue == QueueAfter(q0, before) && p.start == CursorAfter(c0, before)
    ensures before != [] ==> p.queue != []
    ensures PullBatch(rows, p.queue, p.start, ResetOf(policy, c0, p.start), hi, 0) == Batch(p.out, p.next, p.cursor)
  {
  }

  // ----- progress -----

  ghost predicate Suffix(q: seq<int>, of: seq<int>) {
    |q| <= |of| && q == of[|of| - |q|..]
  }

  lemma SuffixOfSuffix(a: seq<int>, b: seq<int>, c: seq<int>)
    requires Suffix(a, b) && Suffix(b, c)
    ensures Suffix(a, c)
  {
  }

  lemma WholeIsSuffix(q: seq<int>)
    ensures Suffix(q, q)
  {
  }

  lemma SuffixAt(q: seq<int>, of: seq<int>)
    requires Suffix(q, of)
    ensures |q| <= |of|
    ensures forall i | 0 <= i < |q| :: q[i] == of[|of| - |q| + i]
  {
  }

  /** Every pull that is not the last finishes a type or moves the cursor forward inside one. */
  lemma PullProgresses(rows: Rows, q0: seq<int>, c0: int, hi: int, policy: Policy, before: seq<Pull>, p: Pull)
    requires Follows(rows, q0, c0, hi, policy, before, p)
    ensures Suffix(p.next, p.queue) && |p.next| <= |p.queue|
    ensures p.next != [] ==>
              && (|p.next| < |p.queue| || (p.next == p.queue && p.start < p.cursor <= hi))
              && (policy == AsCoded ==> p.start <= p.cursor)
              && (p.cursor == ResetOf(policy, c0, p.start) || p.cursor <= hi)
              && (policy == AsDocumented && c0 <= p.start ==> c0 <= p.cursor)
  {
    hide Scan, PullBatch, Stream;
    BatchSplits(rows, p.queue, p.start, ResetOf(policy, c0, p.start), hi, 0);
  }

  lemma {:induction false} CursorsStayInRange(rows: Rows, q0: seq<int>, c0: int, hi: int, policy: Policy, ps: seq<Pull>)
    requires c0 <= hi && Session(rows, q0, c0, hi, policy, ps)
    ensures QueueAfter(q0, ps) != [] ==> c0 <= CursorAfter(c0, ps) <= hi
    ensures Suffix(QueueAfter(q0, ps), q0) && |QueueAfter(q0, ps)| <= |q0|
  {
    hide PullBatch, Scan, Suffix, Follows;
    if ps == [] {
      WholeIsSuffix(q0);
    } else {
      var before, p := ps[..|ps| - 1], ps[|ps| - 1];
      CursorsStayInRange(rows, q0, c0, hi, policy, before);
      FollowsStart(rows, q0, c0, hi, policy, before, p);
      PullProgresses(rows, q0, c0, hi, policy, before, p);
      SuffixOfSuffix(p.next, p.queue, q0);
    }
  }

  /** A session ends: it has at most as many successful pulls as queued types plus USNs in its range. */
  lemma {:induction false} SessionsAreFinite(rows: Rows, q0: seq<int>, c0: int, hi: int, ps: seq<Pull>)
    requires c0 < hi && Session(rows, q0, c0, hi, AsCoded, ps)
    ensures |ps| <= |q0| + hi - c0
    ensures QueueAfter(q0, ps) != [] ==> |ps| + |QueueAfter(q0, ps)| + hi - CursorAfter(c0, ps) <= |q0| + hi - c0
  {
    hide PullBatch, Scan, Suffix, Follows;
    CursorsStayInRange(rows, q0, c0, hi, AsCoded, ps);
    if ps != [] {
      var before, p := ps[..|ps| - 1], ps[|ps| - 1];
      SessionsAreFinite(rows, q0, c0, hi, before);
      CursorsStayInRange(rows, q0, c0, hi, AsCoded, before);
      FollowsStart(rows, q0, c0, hi, AsCoded, before, p);
      PullProgresses(rows, q0, c0, hi, AsCoded, before, p);
    }
  }

  // ----- what is delivered, exactly -----

  function Repeat(x: int, n: nat): (xs: seq<int>)
    ensures |xs| == n
  {
    seq(n, _ => x)
  }

  /** Entry i is the cursor from which the i-th queued type is read: the handshake cursor for the
      first, and for the others the reset cursor of the pull in which the type became the head. */
  function Bases(policy: Policy, c0: int, ps: seq<Pull>): seq<int> {
    if ps == [] then [c0]
    else
      var p := ps[|ps| - 1];
      var finished := |p.queue| - |p.next|;
      Bases(policy, c0, ps[..|ps| - 1]) + (if finished > 0 then Repeat(ResetOf(policy, c0, p.start), finished) else [])
  }

  /** Type i whole from its base on. */
  function FromBases(rows: Rows, types: seq<int>, bases: seq<int>, hi: int): seq<Entry>
    requires |types| <= |bases|
  {
    if types == [] then []
    else
      var n := |types| - 1;
      FromBases(rows, types[..n], bases, hi) + Scan(rows, types[n], bases[n], hi)
  }

  lemma {:induction false} FromBasesPrefix(rows: Rows, types: seq<int>, bases: seq<int>, more: seq<int>, hi: int)
    requires |types| <= |bases|
    ensures FromBases(rows, types, bases + more, hi) == FromBases(rows, types, bases, hi)
  {
    if types != [] {
      FromBasesPrefix(rows, types[..|types| - 1], bases, more, hi);
    }
  }

  /** Types that share a base contribute their stream. */
  lemma {:induction false} FromEqualBases(rows: Rows, types: seq<int>, later: seq<int>, bases: seq<int>, base: int, hi: int)
    requires |types| + |later| <= |bases|
    requires forall i | |types| <= i < |types| + |later| :: bases[i] == base
    ensures FromBases(rows, types + later, bases, hi) == FromBases(rows, types, bases, hi) + Stream(rows, later, base, base, hi)
    decreases |later|
  {
    hide Scan;
    if later == [] {
      assert types + later == types;
    } else {
      var first := types + [later[0]];
      assert types + later == first + later[1..];
      FromEqualBases(rows, first, later[1..], bases, base, hi);
      assert first[..|types|] == types;
    }
  }

  lemma StreamOfHead(rows: Rows, queue: seq<int>, n: nat, cursor: int, reset: int, hi: int)
    requires 0 < n <= |queue|
    ensures Stream(rows, queue[..n], cursor, reset, hi) ==
            Scan(rows, queue[0], cursor, hi) + Stream(rows, queue[1..n], reset, reset, hi)
  {
    assert queue[..n][1..] == queue[1..n];
  }

  /** What `ps` has delivered when the first `done` types are finished and the next is read up to `cursor`. */
  ghost predicate DeliversFrom(rows: Rows, q0: seq<int>, done: nat, bases: seq<int>, cursor: int, hi: int, out: seq<Entry>) {
    && done <= |q0| && |bases| == done + 1
    && (done == |q0| ==> out == FromBases(rows, q0, bases, hi))
    && (done < |q0| ==>
          && bases[done] <= cursor <= hi
          && out == FromBases(rows, q0[..done], bases, hi) + Scan(rows, q0[done], bases[done], cursor))
  }

  /** The head is finished from its base, and `n - 1` further types are delivered from `reset`. */
  lemma DeliversMore(rows: Rows, q0: seq<int>, done: nat, n: nat, bases: seq<int>, cursor: int, reset: int, hi: int, out: seq<Entry>)
    requires done < |q0| && 0 < n <= |q0| - done
    requires DeliversFrom(rows, q0, done, bases, cursor, hi, out)
    ensures var queue := q0[done..];
            FromBases(rows, q0[..done + n], bases + Repeat(reset, n), hi) ==
            out + Stream(rows, queue[..n], cursor, reset, hi)
  {
    hide Scan;
    var queue := q0[done..];
    var after := bases + Repeat(reset, n);
    var types := q0[..done + 1];
    assert types[..done] == q0[..done];
    FromBasesPrefix(rows, q0[..done], bases, Repeat(reset, n), hi);
    assert q0[..done + n] == types + queue[1..n];
    FromEqualBases(rows, types, queue[1..n], after, reset, hi);
    StreamOfHead(rows, queue, n, cursor, reset, hi);
    ScanSplit(rows, q0[done], bases[done], cursor, hi);
  }

  /** Over a session every type is delivered once, in queue order, as precisely its rows from its
      base up; the type being read, up to the cursor. */
  lemma {:induction false} DeliveredExactly(rows: Rows, q0: seq<int>, c0: int, hi: int, policy: Policy, ps: seq<Pull>)
    requires c0 <= hi && Session(rows, q0, c0, hi, policy, ps)
    ensures |QueueAfter(q0, ps)| <= |q0|
    ensures DeliversFrom(rows, q0, |q0| - |QueueAfter(q0, ps)|, Bases(policy, c0, ps), CursorAfter(c0, ps), hi, Delivered(ps))
  {
    hide Scan, PullBatch, DeliversFrom, Follows, FromBases, Suffix;
    CursorsStayInRange(rows, q0, c0, hi, policy, ps);
    if ps == [] {
      NothingDelivered(rows, q0, c0, hi);
    } else {
      var before, p := ps[..|ps| - 1], ps[|ps| - 1];
      DeliveredExactly(rows, q0, c0, hi, policy, before);
      CursorsStayInRange(rows, q0, c0, hi, policy, before);
      FollowsStart(rows, q0, c0, hi, policy, before, p);
      DeliveredStep(rows, q0, c0, hi, policy, before, p);
    }
  }

  lemma NothingDelivered(rows: Rows, q0: seq<int>, c0: int, hi: int)
    requires c0 <= hi
    ensures DeliversFrom(rows, q0, 0, [c0], c0, hi, [])
  {
    if q0 != [] {
      EmptyRange(rows, q0[0], c0);
    }
  }

  lemma DeliveredStep(rows: Rows, q0: seq<int>, c0: int, hi: int, policy: Policy, before: seq<Pull>, p: Pull)
    requires c0 <= hi && Follows(rows, q0, c0, hi, policy, before, p)
    requires Suffix(p.queue, q0) && |p.queue| <= |q0| && (p.queue != [] ==> c0 <= p.start <= hi)
    requires DeliversFrom(rows, q0, |q0| - |p.queue|, Bases(policy, c0, before), p.start, hi, Delivered(before))
    ensures |p.next| <= |p.queue|
    ensures var finished := |p.queue| - |p.next|;
            DeliversFrom(rows, q0, |q0| - |p.next|,
                         Bases(policy, c0, before) + (if finished > 0 then Repeat(ResetOf(policy, c0, p.start), finished) else []),
                         p.cursor, hi, Delivered(before) + p.out)
  {
    hide Scan, PullBatch, Stream, FromBases, Bases, Delivered, Suffix, DeliversFrom, Splits, Follows;
    FollowsStart(rows, q0, c0, hi, policy, before, p);
    PullProgresses(rows, q0, c0, hi, policy, before, p);
    var reset := ResetOf(policy, c0, p.start);
    BatchSplits(rows, p.queue, p.start, reset, hi, 0);
    var r := Batch(p.out, p.next, p.cursor);
    if |p.queue| == |p.next| {
      StepInside(rows, q0, p.queue, p.start, reset, hi, Bases(policy, c0, before), Delivered(before), r);
      assert Bases(policy, c0, before) + [] == Bases(policy, c0, before);
    } else {
      StepPast(rows, q0, p.queue, p.start, reset, hi, Bases(policy, c0, before), Delivered(before), r);
    }
  }

  lemma StepInside(rows: Rows, q0: seq<int>, queue: seq<int>, start: int, reset: int, hi: int, bases: seq<int>, out: seq<Entry>, r: BatchResult)
    requires Suffix(queue, q0) && |queue| <= |q0|
    requires DeliversFrom(rows, q0, |q0| - |queue|, bases, start, hi, out)
    requires r.Batch? && Splits(rows, queue, start, reset, hi, r) && |r.queue| == |queue|
    ensures DeliversFrom(rows, q0, |q0| - |queue|, bases, r.cursor, hi, out + r.out)
  {
    hide Scan, FromBases, Stream;
    var done := |q0| - |queue|;
    if queue == [] {
      EmptyStream(rows, start, reset, hi);
      assert out + r.out == out;
    } else {
      ScanSplit(rows, queue[0], bases[done], start, r.cursor);
      var whole := FromBases(rows, q0[..done], bases, hi);
      assert out + r.out == whole + (Scan(rows, q0[done], bases[done], start) + Scan(rows, q0[done], start, r.cursor));
    }
  }

  lemma StepPast(rows: Rows, q0: seq<int>, queue: seq<int>, start: int, reset: int, hi: int, bases: seq<int>, out: seq<Entry>, r: BatchResult)
    requires Suffix(queue, q0) && |queue| <= |q0| && reset <= hi
    requires DeliversFrom(rows, q0, |q0| - |queue|, bases, start, hi, out)
    requires r.Batch? && Splits(rows, queue, start, reset, hi, r) && |r.queue| < |queue|
    ensures DeliversFrom(rows, q0, |q0| - |r.queue|, bases + Repeat(reset, |queue| - |r.queue|), r.cursor, hi, out + r.out)
  {
    hide Scan, FromBases, Stream;
    var done, n := |q0| - |queue|, |queue| - |r.queue|;
    var after := bases + Repeat(reset, n);
    DeliversMore(rows, q0, done, n, bases, start, reset, hi, out);
    if r.queue == [] {
      assert queue[..n] == queue && q0[..done + n] == q0;
    } else {
      assert r.queue[0] == q0[done + n] && after[done + n] == reset;
      var first := Stream(rows, queue[..n], start, reset, hi);
      assert out + (first + Scan(rows, r.queue[0], reset, r.cursor)) == (out + first) + Scan(rows, r.queue[0], reset, r.cursor);
    }
  }

  lemma EmptyStream(rows: Rows, cursor: int, reset: int, hi: int)
    ensures Stream(rows, [], cursor, reset, hi) == []
  {
  }
}
