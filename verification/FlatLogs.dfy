/**
 The flat sequence of batches an uncompacted log refines, and what reading and truncating the log
 do to it.
 */
module FlatLogs {
  import opened Prelude
  import opened Segments
  import opened ActiveSegments
  import opened Sealed

  // ------------------------------------------------------------- one flat log from segments

  lemma {:induction false} ContiguousConcat(base: int, a: seq<Batch>, b: seq<Batch>)
    requires Contiguous(base, a) && Contiguous(NextOffset(base, a), b)
    ensures Contiguous(base, a + b) && NextOffset(base, a + b) == NextOffset(NextOffset(base, a), b)
    decreases |b|
  {
    if b == [] {
      assert a + b == a;
    } else {
      var init := b[..|b| - 1];
      ContiguousConcat(base, a, init);
      var all := a + b;
      assert all[..|all| - 1] == a + init && all[|all| - 1] == b[|b| - 1];
    }
  }

  /** The sealed segments of an uncompacted log are one contiguous run of batches up to `end`. */
  lemma {:induction false} GaplessFlattens(policy: Policy, gs: seq<SealedSegment>, lo: int, end: int)
    requires Chained(gs, lo, end) && Gapless(policy, gs, end)
    requires gs == [] || gs[0].base == lo
    ensures gs != [] ==> Contiguous(lo, Flatten(gs)) && NextOffset(lo, Flatten(gs)) == end
  {
    if gs != [] {
      var rest := gs[1..];
      if rest == [] {
        assert gs[0].batches + [] == gs[0].batches;
      } else {
        GaplessFlattens(policy, rest, gs[0].next, end);
        ContiguousConcat(lo, gs[0].batches, Flatten(rest));
      }
    }
  }

  /** The whole uncompacted log: sealed and active together are contiguous from the log start. */
  lemma {:induction false} WholeIsContiguous(policy: Policy, gs: seq<SealedSegment>, base: int, tail: seq<Batch>)
    requires var lo := if gs == [] then base else gs[0].base; Chained(gs, lo, base)
    requires Gapless(policy, gs, base) && Contiguous(base, tail)
    ensures var lo := if gs == [] then base else gs[0].base;
            Contiguous(lo, Flatten(gs) + tail) && NextOffset(lo, Flatten(gs) + tail) == NextOffset(base, tail)
  {
    if gs == [] {
      assert [] + tail == tail;
    } else {
      GaplessFlattens(policy, gs, gs[0].base, base);
      ContiguousConcat(gs[0].base, Flatten(gs), tail);
    }
  }

  /** Segment k ends exactly where the next one, sealed or active, begins. */
  ghost predicate Joined(gs: seq<SealedSegment>, end: int, k: nat)
    requires k < |gs|
  {
    gs[k].next == EndAfter(gs, end, k + 1)
  }

  ghost predicate NoGaps(gs: seq<SealedSegment>, end: int) { forall k :: 0 <= k < |gs| ==> Joined(gs, end, k) }

  lemma {:induction false} NoGapsSnoc(gs: seq<SealedSegment>, g: SealedSegment)
    requires NoGaps(gs, g.base)
    ensures NoGaps(gs + [g], g.next)
  {
    var all := gs + [g];
    forall k | 0 <= k < |all| ensures Joined(all, g.next, k) {
      if k < |gs| { assert Joined(gs, g.base, k); }
    }
  }

  /** An uncompacted log has no gaps. */
  lemma {:induction false} WholeHasNoGaps(policy: Policy, gs: seq<SealedSegment>, end: int)
    requires Gapless(policy, gs, end)
    ensures NoGaps(gs, end)
  {
    forall k | 0 <= k < |gs| ensures Joined(gs, end, k) { GaplessHead(policy, gs, end, k + 1); }
  }

  // ------------------------------------------------------------------------------ reading

  /** Flat batch i is batch j of this file, it holds the offset, and the range starts with all of it. */
  ghost predicate ServesAt(
    file: seq<Batch>, flat: seq<Batch>, offset: int, maxBytes: nat, range: FileRange, j: nat, i: nat)
  {
    && j < |file| && i < |flat| && file[j] == flat[i]
    && flat[i].base <= offset <= flat[i].last
    && range == RangeFrom(file, j, maxBytes)
    && file[j].size <= range.length && range.position + range.length <= Total(file)
  }

  ghost predicate Serves(file: seq<Batch>, flat: seq<Batch>, offset: int, maxBytes: nat, range: FileRange) {
    exists j: nat, i: nat :: ServesAt(file, flat, offset, maxBytes, range, j, i)
  }

  /** In contiguous batches every offset from the base to the end is inside exactly one batch. */
  lemma {:induction false} ContiguousHolds(base: int, bs: seq<Batch>, offset: int)
    requires Contiguous(base, bs) && base <= offset < NextOffset(base, bs)
    ensures var j := FirstReaching(bs, offset); j < |bs| && bs[j].base <= offset <= bs[j].last
  {
    var init := bs[..|bs| - 1];
    var b := bs[|bs| - 1];
    if offset < NextOffset(base, init) {
      ContiguousHolds(base, init, offset);
      var j := FirstReaching(init, offset);
      FirstReachingIs(bs, offset, j);
    } else {
      ContiguousFacts(base, init);
      FirstReachingIs(bs, offset, |bs| - 1);
    }
  }

  lemma {:induction false} ContiguousServes(base: int, file: seq<Batch>, before: seq<Batch>, after: seq<Batch>, offset: int, maxBytes: nat)
    requires Contiguous(base, file) && base <= offset < NextOffset(base, file)
    ensures Serves(file, before + (file + after), offset, maxBytes, ReadRange(file, offset, maxBytes))
  {
    ContiguousHolds(base, file, offset);
    ContiguousFacts(base, file);
    var j := FirstReaching(file, offset);
    RangeHoldsBatch(file, j, maxBytes);
    assert ServesAt(file, before + (file + after), offset, maxBytes, ReadRange(file, offset, maxBytes), j, |before| + j);
  }

  lemma {:induction false} FlattenAround(gs: seq<SealedSegment>, k: nat)
    requires k < |gs|
    ensures Flatten(gs) == Flatten(gs[..k]) + (gs[k].batches + Flatten(gs[k + 1..]))
  {
    assert gs == gs[..k] + gs[k..] && gs[k..][1..] == gs[k + 1..];
    FlattenConcat(gs[..k], gs[k..]);
  }

  lemma {:induction false} SealedServes(
    policy: Policy, gs: seq<SealedSegment>, end: int, tail: seq<Batch>, k: nat, offset: int, maxBytes: nat)
    requires Gapless(policy, gs, end) && k < |gs| && Opened(gs[k])
    requires gs[k].base <= offset < EndAfter(gs, end, k + 1)
    ensures Serves(gs[k].batches, Flatten(gs) + tail, offset, maxBytes, ReadRange(gs[k].batches, offset, maxBytes))
  {
    GaplessHead(policy, gs, end, k + 1);
    FlattenAround(gs, k);
    var before, after := Flatten(gs[..k]), Flatten(gs[k + 1..]);
    Around(before, gs[k].batches, after, tail);
    ContiguousServes(gs[k].base, gs[k].batches, before, after + tail, offset, maxBytes);
  }

  /**
   A read routed to a segment is empty exactly when everything the segment still holds lies below the
   offset, compacted or not. Otherwise it starts at the oldest batch left that reaches the offset.
   */
  lemma {:induction false} EmptyExactlyInHole(g: SealedSegment, offset: int, maxBytes: nat)
    requires Opened(g)
    ensures var r := ReadRange(g.batches, offset, maxBytes);
            && (r.length == 0 <==> g.next <= offset)
            && (offset < g.next ==>
                  exists j: nat :: j < |g.batches| && r == RangeFrom(g.batches, j, maxBytes) && g.batches[j].size <= r.length
                                   && offset <= g.batches[j].last && forall k :: 0 <= k < j ==> g.batches[k].last < offset)
  {
    OpenedSpan(g);
    var j := FirstReaching(g.batches, offset);
    if g.next <= offset {
      FirstReachingIs(g.batches, offset, |g.batches|);
    } else {
      if j == |g.batches| { assert false; }
      RangeHoldsBatch(g.batches, j, maxBytes);
    }
  }

  // --------------------------------------------------------------------------- truncating

  /** The longest run of batches from the front that end below the offset. */
  function Below(bs: seq<Batch>, offset: int): (out: seq<Batch>)
    ensures |out| <= |bs| && out == bs[..|out|]
    ensures forall i :: 0 <= i < |out| ==> bs[i].last < offset
    ensures |out| < |bs| ==> offset <= bs[|out|].last
  {
    if bs == [] || offset <= bs[0].last then []
    else
      var rest := Below(bs[1..], offset);
      assert forall i :: 1 <= i < |bs| ==> bs[i] == bs[1..][i - 1];
      [bs[0]] + rest
  }

  lemma {:induction false} BelowIs(bs: seq<Batch>, offset: int, n: nat)
    requires n <= |bs| && (forall i :: 0 <= i < n ==> bs[i].last < offset)
    requires n < |bs| ==> offset <= bs[n].last
    ensures Below(bs, offset) == bs[..n]
  {
    var out := Below(bs, offset);
    if |out| < n { assert false; }
  }

  /** A cut past the first part of a concatenation falls in the second; one before the second, in the first. */
  lemma {:induction false} BelowPast(a: seq<Batch>, b: seq<Batch>, offset: int)
    requires forall i :: 0 <= i < |a| ==> a[i].last < offset
    ensures Below(a + b, offset) == a + Below(b, offset)
  {
    var n := |Below(b, offset)|;
    BelowIs(a + b, offset, |a| + n);
    SliceAcross(a, b, n);
  }

  lemma {:induction false} BelowWithin(a: seq<Batch>, b: seq<Batch>, offset: int)
    requires b == [] || offset <= b[0].last
    ensures Below(a + b, offset) == Below(a, offset)
  {
    var n := |Below(a, offset)|;
    BelowIs(a + b, offset, n);
    SliceWithin(a, b, n);
  }

  lemma {:induction false} SliceAcross<T>(a: seq<T>, b: seq<T>, n: nat)
    requires n <= |b|
    ensures (a + b)[..|a| + n] == a + b[..n]
  {
  }

  lemma {:induction false} SliceWithin<T>(a: seq<T>, b: seq<T>, n: nat)
    requires n <= |a|
    ensures (a + b)[..n] == a[..n]
  {
  }

  lemma {:induction false} ContiguousPrefix(base: int, bs: seq<Batch>, n: nat)
    requires Contiguous(base, bs) && n <= |bs|
    ensures Contiguous(base, bs[..n])
  {
    if n < |bs| {
      ContiguousPrefix(base, bs[..|bs| - 1], n);
      assert bs[..|bs| - 1][..n] == bs[..n];
    } else {
      assert bs[..n] == bs;
    }
  }

  lemma {:induction false} IntactBatches(bs: seq<Batch>)
    ensures BatchesOf(Intact(bs)) == bs
  {
  }

  /** Recovering an undamaged file with a ceiling: how much of what lies below it is kept. */
  lemma {:induction false} RecoveredIsBelow(base: int, bs: seq<Batch>, ceiling: int, n: nat)
    requires (forall b :: b in bs ==> Sound(b)) && IsRecovered(base, Intact(bs), Some(ceiling), n)
    ensures bs[..n] <= Below(bs, ceiling)
    ensures bs[..n] == Below(bs, ceiling) <==> Contiguous(base, Below(bs, ceiling))
  {
    IntactBatches(bs);
    var m := |Below(bs, ceiling)|;
    var file := Intact(bs);
    if m < n { assert false; }
    if Contiguous(base, bs[..m]) {
      assert Recoverable(base, file, Some(ceiling), m);
    }
  }

  lemma {:induction false} FirstAtLeast(gs: seq<SealedSegment>, lo: int, end: int, tail: seq<Batch>, offset: int)
    requires Chained(gs, lo, end) && offset <= end && Contiguous(end, tail)
    requires gs != [] ==> offset <= gs[0].base
    ensures var after := Flatten(gs) + tail; after == [] || offset <= after[0].last
  {
    ContiguousFacts(end, tail);
    if gs == [] {
      assert Flatten(gs) + tail == tail;
    } else {
      OpenedSpan(gs[0]);
      assert (Flatten(gs) + tail)[0] == gs[0].batches[0];
    }
  }

  lemma {:induction false} AllBelow(gs: seq<SealedSegment>, lo: int, end: int)
    requires Chained(gs, lo, end)
    ensures forall i :: 0 <= i < |Flatten(gs)| ==> Flatten(gs)[i].last < end
  {
    if gs != [] {
      OpenedSpan(gs[0]);
      AllBelow(gs[1..], gs[0].next, end);
      ChainedSpan(gs[1..], gs[0].next, end);
    }
  }

  lemma {:induction false} Around<T>(a: seq<T>, b: seq<T>, c: seq<T>, d: seq<T>)
    ensures (a + (b + c)) + d == a + (b + (c + d))
  {
  }

  /** Cutting inside segment k: everything before it stays, everything after it goes. */
  lemma {:induction false} CutInside(gs: seq<SealedSegment>, lo: int, end: int, tail: seq<Batch>, k: nat, offset: int)
    requires Chained(gs, lo, end) && Contiguous(end, tail) && k < |gs|
    requires gs[k].base < offset <= end && (k + 1 < |gs| ==> offset <= gs[k + 1].base)
    ensures Below(Flatten(gs) + tail, offset) == Flatten(gs[..k]) + Below(gs[k].batches, offset)
  {
    var before, file, after := Flatten(gs[..k]), gs[k].batches, Flatten(gs[k + 1..]) + tail;
    FlattenAround(gs, k);
    Around(before, file, Flatten(gs[k + 1..]), tail);
    ChainedHead(gs, lo, end, k);
    AllBelow(gs[..k], lo, gs[k].base);
    BelowPast(before, file + after, offset);
    ChainedTail(gs, lo, end, k + 1);
    FirstAtLeast(gs[k + 1..], lo, end, tail, offset);
    BelowWithin(file, after, offset);
  }

  /** Cutting inside the active segment leaves the sealed ones alone. */
  lemma {:induction false} CutActive(gs: seq<SealedSegment>, lo: int, end: int, tail: seq<Batch>, offset: int)
    requires Chained(gs, lo, end) && end < offset
    ensures Below(Flatten(gs) + tail, offset) == Flatten(gs) + Below(tail, offset)
  {
    AllBelow(gs, lo, end);
    BelowPast(Flatten(gs), tail, offset);
  }

  /** Cutting at or before the log start leaves nothing. */
  lemma {:induction false} CutAll(gs: seq<SealedSegment>, lo: int, end: int, tail: seq<Batch>, offset: int)
    requires Chained(gs, lo, end) && offset <= end && Contiguous(end, tail)
    requires gs != [] ==> offset <= gs[0].base
    ensures Below(Flatten(gs) + tail, offset) == []
  {
    FirstAtLeast(gs, lo, end, tail, offset);
  }

  function StartOfLog(gs: seq<SealedSegment>, base: int): int { if gs == [] then base else gs[0].base }

  /** An uncompacted log, by its parts. */
  ghost predicate WholeParts(policy: Policy, gs: seq<SealedSegment>, base: int, tail: seq<Batch>) {
    && Chained(gs, StartOfLog(gs, base), base) && Gapless(policy, gs, base)
    && Contiguous(base, tail) && AppendAll(policy, base, tail).Some?
  }

  /** Sealed segment k is the one a truncation reopens for writing: the last to begin below the offset. */
  predicate Promoted(gs: seq<SealedSegment>, base: int, offset: int, k: nat) {
    offset <= base && k < |gs| && gs[k].base < offset && (k + 1 < |gs| ==> offset <= gs[k + 1].base)
  }

  /** No cleaner has left a hole in what a truncation reopens, below where it cuts. */
  ghost predicate CutIsClean(gs: seq<SealedSegment>, base: int, offset: int) {
    forall k: nat :: Promoted(gs, base, offset, k) ==> Contiguous(gs[k].base, Below(gs[k].batches, offset))
  }

  /**
   What a truncation leaves. Everything below the offset stays, up to the first hole in the segment the
   cut falls in; all of it does exactly when there is none, as in an uncompacted log, which stays one.
   */
  ghost predicate CutsTo(
    policy: Policy, gs: seq<SealedSegment>, base: int, tail: seq<Batch>, offset: int,
    kept: seq<SealedSegment>, base': int, tail': seq<Batch>)
  {
    var flat, start := Flatten(gs) + tail, StartOfLog(kept, base');
    && Chained(kept, start, base')
    && Flatten(kept) + tail' <= Below(flat, offset)
    && (Flatten(kept) + tail' == Below(flat, offset) <==> CutIsClean(gs, base, offset))
    && start == Min(StartOfLog(gs, base), offset)
    && NextOffset(base', tail') <= offset
    && (WholeParts(policy, gs, base, tail) ==>
          && WholeParts(policy, kept, base', tail') && CutIsClean(gs, base, offset)
          && NextOffset(start, Below(flat, offset)) == NextOffset(base', tail'))
  }

  lemma {:induction false} CutTail(policy: Policy, base: int, bs: seq<Batch>, offset: int)
    requires Contiguous(base, bs) && AppendAll(policy, base, bs).Some? && base <= offset
    ensures Contiguous(base, Below(bs, offset)) && AppendAll(policy, base, Below(bs, offset)).Some?
    ensures NextOffset(base, Below(bs, offset)) <= offset
  {
    ContiguousPrefix(base, bs, |Below(bs, offset)|);
    AppendsPrefix(policy, base, bs, |Below(bs, offset)|);
  }

  lemma {:induction false} ActiveCuts(policy: Policy, gs: seq<SealedSegment>, base: int, tail: seq<Batch>, offset: int)
    requires Chained(gs, StartOfLog(gs, base), base) && Contiguous(base, tail) && AppendAll(policy, base, tail).Some?
    requires base < offset
    ensures CutsTo(policy, gs, base, tail, offset, gs, base, Below(tail, offset))
  {
    ChainedSpan(gs, StartOfLog(gs, base), base);
    CutActive(gs, StartOfLog(gs, base), base, tail, offset);
    CutTail(policy, base, tail, offset);
    if Gapless(policy, gs, base) { WholeIsContiguous(policy, gs, base, Below(tail, offset)); }
  }

  lemma {:induction false} NothingCuts(policy: Policy, gs: seq<SealedSegment>, base: int, tail: seq<Batch>, offset: int)
    requires Chained(gs, StartOfLog(gs, base), base) && Contiguous(base, tail)
    requires offset <= base && (gs != [] ==> offset <= gs[0].base)
    ensures CutsTo(policy, gs, base, tail, offset, [], offset, [])
  {
    CutAll(gs, StartOfLog(gs, base), base, tail, offset);
    ChainedSpan(gs, StartOfLog(gs, base), base);
  }

  lemma {:induction false} PromotedIsOne(gs: seq<SealedSegment>, lo: int, end: int, offset: int, k: nat, j: nat)
    requires Chained(gs, lo, end) && Promoted(gs, end, offset, k) && Promoted(gs, end, offset, j)
    ensures j == k
  {
    ChainedSpan(gs, lo, end);
  }

  /** The promoted segment alone: the recovered batches against all of its batches below the offset. */
  lemma {:induction false} PromotedCuts(gs: seq<SealedSegment>, lo: int, end: int, offset: int, k: nat, m: nat)
    requires Chained(gs, lo, end) && Promoted(gs, end, offset, k)
    requires IsRecovered(gs[k].base, Intact(gs[k].batches), Some(offset), m)
    ensures m <= |gs[k].batches| && gs[k].batches[..m] <= Below(gs[k].batches, offset)
    ensures gs[k].batches[..m] == Below(gs[k].batches, offset) <==> CutIsClean(gs, end, offset)
    ensures NextOffset(gs[k].base, gs[k].batches[..m]) <= offset
  {
    var g := gs[k];
    SpanAt(gs, lo, end, k);
    assert forall b :: b in g.batches ==> Sound(b);
    RecoveredIsBelow(g.base, g.batches, offset, m);
    forall j: nat | Promoted(gs, end, offset, j) ensures j == k { PromotedIsOne(gs, lo, end, offset, k, j); }
  }

  lemma {:induction false} SamePrefix<T>(a: seq<T>, x: seq<T>, y: seq<T>)
    requires x <= y
    ensures a + x <= a + y && (a + x == a + y <==> x == y)
  {
    assert y == x + y[|x|..];
    assert |a + x| == |a| + |x| && |a + y| == |a| + |y|;
  }

  lemma {:induction false} SealedCuts(
    policy: Policy, gs: seq<SealedSegment>, base: int, tail: seq<Batch>, k: nat, offset: int, m: nat)
    requires Chained(gs, StartOfLog(gs, base), base) && Contiguous(base, tail) && Promoted(gs, base, offset, k)
    requires IsRecovered(gs[k].base, Intact(gs[k].batches), Some(offset), m)
    ensures m <= |gs[k].batches|
    ensures CutsTo(policy, gs, base, tail, offset, gs[..k], gs[k].base, gs[k].batches[..m])
  {
    ChainedHead(gs, gs[0].base, base, k);
    BasesFrom(gs, base, offset, k);
    PromotedCuts(gs, gs[0].base, base, offset, k, m);
    SealedPrefix(gs, base, tail, k, offset, m);
    if Gapless(policy, gs, base) { WholeCuts(policy, gs, base, tail, k, offset, m); }
  }

  lemma {:induction false} BasesFrom(gs: seq<SealedSegment>, base: int, offset: int, k: nat)
    requires Chained(gs, StartOfLog(gs, base), base) && Promoted(gs, base, offset, k)
    ensures StartOfLog(gs[..k], gs[k].base) == gs[0].base < offset
  {
    ChainedSpan(gs, gs[0].base, base);
  }

  lemma {:induction false} SealedPrefix(gs: seq<SealedSegment>, base: int, tail: seq<Batch>, k: nat, offset: int, m: nat)
    requires Chained(gs, StartOfLog(gs, base), base) && Contiguous(base, tail) && Promoted(gs, base, offset, k)
    requires m <= |gs[k].batches| && gs[k].batches[..m] <= Below(gs[k].batches, offset)
    requires gs[k].batches[..m] == Below(gs[k].batches, offset) <==> CutIsClean(gs, base, offset)
    ensures var left, below := Flatten(gs[..k]) + gs[k].batches[..m], Below(Flatten(gs) + tail, offset);
            left <= below && (left == below <==> CutIsClean(gs, base, offset))
  {
    CutInside(gs, gs[0].base, base, tail, k, offset);
    SamePrefix(Flatten(gs[..k]), gs[k].batches[..m], Below(gs[k].batches, offset));
  }

  lemma {:induction false} WholeCuts(
    policy: Policy, gs: seq<SealedSegment>, base: int, tail: seq<Batch>, k: nat, offset: int, m: nat)
    requires Chained(gs, StartOfLog(gs, base), base) && Gapless(policy, gs, base) && Promoted(gs, base, offset, k)
    requires m <= |gs[k].batches| && (gs[k].batches[..m] == Below(gs[k].batches, offset) <==> CutIsClean(gs, base, offset))
    requires Chained(gs[..k], gs[0].base, gs[k].base)
    ensures CutIsClean(gs, base, offset) && WholeParts(policy, gs[..k], gs[k].base, gs[k].batches[..m])
    ensures NextOffset(gs[0].base, Flatten(gs[..k]) + gs[k].batches[..m]) == NextOffset(gs[k].base, gs[k].batches[..m])
  {
    var g := gs[k];
    GaplessHead(policy, gs, base, k);
    GaplessHead(policy, gs, base, k + 1);
    CutTail(policy, g.base, g.batches, offset);
    forall j: nat | Promoted(gs, base, offset, j) ensures j == k { PromotedIsOne(gs, gs[0].base, base, offset, k, j); }
    WholeIsContiguous(policy, gs[..k], g.base, Below(g.batches, offset));
  }

  /** recover on an undamaged file, compacted or not. */
  method Reopen(base: int, policy: Policy, bs: seq<Batch>, offset: int, nowMs: int)
    returns (a: ActiveSegment?, ghost n: nat)
    requires (forall b :: b in bs ==> Sound(b)) && 0 <= nowMs
    ensures n <= |bs|
    ensures a != null ==> fresh(a) && a.Valid() && a.base == base && a.policy == policy && a.batches == bs[..n]
    ensures a != null ==> IsRecovered(base, Intact(bs), Some(offset), n)
    ensures a == null ==> n < |bs| && AppendAll(policy, base, bs[..n + 1]).None?
  {
    IntactBatches(bs);
    a, n := Recover(base, policy, Intact(bs), Some(offset), nowMs);
  }

  /** lower_bound: how many segments begin below the offset. */
  method LowerBound(gs: seq<SealedSegment>, offset: int) returns (n: nat)
    ensures n <= |gs|
    ensures 0 < n ==> gs[n - 1].base < offset
    ensures n < |gs| ==> offset <= gs[n].base
  {
    n := 0;
    while n < |gs| && gs[n].base < offset
      invariant n <= |gs| && (0 < n ==> gs[n - 1].base < offset)
    {
      n := n + 1;
    }
  }

  /** A segment's n-th batch has no place in the index that the ones before it grow. */
  ghost predicate NoPlace(policy: Policy, g: SealedSegment, n: nat) {
    n < |g.batches| && AppendAll(policy, g.base, g.batches[..n + 1]).None?
  }

  /** Recovering the promoted segment fails: one of its batches has no place in its index. */
  ghost predicate Unindexable(policy: Policy, gs: seq<SealedSegment>, base: int, offset: int) {
    exists k: nat, n: nat :: Promoted(gs, base, offset, k) && NoPlace(policy, gs[k], n)
  }

  lemma {:induction false} WholeIsIndexable(policy: Policy, gs: seq<SealedSegment>, base: int, offset: int)
    requires Gapless(policy, gs, base)
    ensures !Unindexable(policy, gs, base, offset)
  {
    forall k: nat, n: nat | Promoted(gs, base, offset, k) ensures !NoPlace(policy, gs[k], n) {
      GaplessHead(policy, gs, base, k + 1);
      if n < |gs[k].batches| { AppendsPrefix(policy, gs[k].base, gs[k].batches, n + 1); }
    }
  }

  /** What truncateTo leaves sealed, and the segment it leaves active; null is an index invariant escaping. */
  method Cut(policy: Policy, gs: seq<SealedSegment>, base: int, tail: seq<Batch>, offset: int, nowMs: int)
    returns (kept: seq<SealedSegment>, live: ActiveSegment?)
    requires Chained(gs, StartOfLog(gs, base), base) && Contiguous(base, tail) && AppendAll(policy, base, tail).Some?
    requires 0 <= nowMs
    ensures live != null ==> fresh(live) && live.Valid() && live.policy == policy
    ensures live != null ==> CutsTo(policy, gs, base, tail, offset, kept, live.base, live.batches)
    ensures live == null ==> Unindexable(policy, gs, base, offset)
  {
    ghost var m;
    if base < offset {
      ContiguousFacts(base, tail);
      assert forall b :: b in tail ==> Sound(b);
      live, m := Reopen(base, policy, tail, offset, nowMs);
      if live == null { AppendsPrefix(policy, base, tail, m + 1); }
      RecoveredIsBelow(base, tail, offset, m);
      CutTail(policy, base, tail, offset);
      ActiveCuts(policy, gs, base, tail, offset);
      return gs, live;
    }
    var n := LowerBound(gs, offset);
    if 0 < n {
      var last := gs[n - 1];
      SpanAt(gs, StartOfLog(gs, base), base, n - 1);
      assert forall b :: b in last.batches ==> Sound(b);
      assert Promoted(gs, base, offset, n - 1);
      live, m := Reopen(last.base, policy, last.batches, offset, nowMs);
      if live != null { SealedCuts(policy, gs, base, tail, n - 1, offset, m); } else { assert NoPlace(policy, last, m); }
      return gs[..n - 1], live;
    }
    NothingCuts(policy, gs, base, tail, offset);
    live := new ActiveSegment(offset, policy);
    return [], live;
  }
}
