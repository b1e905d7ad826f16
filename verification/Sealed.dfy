/**
 Sealed segments in offset order, the one flat sequence of batches they stand for, and the prefix
 of them that retention takes.
 */
module Sealed {
  import opened Prelude
  import opened Segments
  import opened ActiveSegments

  datatype SealedSegment = SealedSegment(
    base: int,
    batches: seq<Batch>,
    index: seq<Entry>,
    next: int,
    largest: int)

  /** What opening a sealed segment establishes. */
  ghost predicate Opened(g: SealedSegment) {
    && Ordered(g.base, g.batches) && ValidIndex(g.base, g.batches, g.index)
    && (forall e :: e in g.index ==> e.relative <= MAX_UINT32)
    && g.next == NextOffset(g.base, g.batches)
    && g.batches != []
  }

  /** A segment no cleaner has touched: as its appends left it. */
  ghost predicate Uncompacted(policy: Policy, g: SealedSegment) {
    Contiguous(g.base, g.batches) && AppendAll(policy, g.base, g.batches).Some?
  }

  /** Segments in order inside [lo, end]; gaps allowed. */
  ghost predicate Chained(gs: seq<SealedSegment>, lo: int, end: int) {
    if gs == [] then lo <= end
    else Opened(gs[0]) && lo <= gs[0].base && Chained(gs[1..], gs[0].next, end)
  }

  /** Segments each starting exactly where the one before ended, none of them compacted. */
  ghost predicate Gapless(policy: Policy, gs: seq<SealedSegment>, end: int) {
    if gs == [] then true
    else
      && Uncompacted(policy, gs[0])
      && gs[0].next == (if |gs| == 1 then end else gs[1].base)
      && Gapless(policy, gs[1..], end)
  }

  function Flatten(gs: seq<SealedSegment>): seq<Batch> {
    if gs == [] then [] else gs[0].batches + Flatten(gs[1..])
  }

  lemma {:induction false} FlattenConcat(a: seq<SealedSegment>, b: seq<SealedSegment>)
    ensures Flatten(a + b) == Flatten(a) + Flatten(b)
    decreases |a|
  {
    if a == [] {
      assert a + b == b;
    } else {
      assert (a + b)[1..] == a[1..] + b;
      FlattenConcat(a[1..], b);
    }
  }

  lemma {:induction false} OpenedSpan(g: SealedSegment)
    requires Opened(g)
    ensures g.base < g.next
    ensures forall i :: 0 <= i < |g.batches| ==> g.base <= g.batches[i].base <= g.batches[i].last < g.next
  {
  }

  lemma {:induction false} ChainedSpan(gs: seq<SealedSegment>, lo: int, end: int)
    requires Chained(gs, lo, end)
    ensures lo <= end
    ensures forall i :: 0 <= i < |gs| ==> Opened(gs[i]) && lo <= gs[i].base < gs[i].next <= end
    ensures forall i, j :: 0 <= i < j < |gs| ==> gs[i].next <= gs[j].base
  {
    if gs != [] {
      ChainedSpan(gs[1..], gs[0].next, end);
      OpenedSpan(gs[0]);
      forall i | 0 <= i < |gs| ensures Opened(gs[i]) && lo <= gs[i].base < gs[i].next <= end {
        if 0 < i { assert gs[i] == gs[1..][i - 1]; }
      }
      forall i, j | 0 <= i < j < |gs| ensures gs[i].next <= gs[j].base {
        assert gs[j] == gs[1..][j - 1];
        if 0 < i { assert gs[i] == gs[1..][i - 1]; }
      }
    }
  }

  lemma {:induction false} ChainedWiden(gs: seq<SealedSegment>, lo: int, end: int, lo': int, end': int)
    requires Chained(gs, lo, end) && lo' <= lo && end <= end'
    ensures Chained(gs, lo', end')
  {
    if gs != [] { ChainedWiden(gs[1..], gs[0].next, end, gs[0].next, end'); }
  }

  lemma {:induction false} ChainedSnoc(gs: seq<SealedSegment>, lo: int, g: SealedSegment)
    requires Chained(gs, lo, g.base) && Opened(g)
    ensures Chained(gs + [g], lo, g.next)
  {
    OpenedSpan(g);
    if gs == [] {
      assert gs + [g] == [g] && [g][1..] == [];
    } else {
      ChainedSnoc(gs[1..], gs[0].next, g);
      assert (gs + [g])[1..] == gs[1..] + [g];
    }
  }

  lemma {:induction false} GaplessSnoc(policy: Policy, gs: seq<SealedSegment>, g: SealedSegment)
    requires Gapless(policy, gs, g.base) && Uncompacted(policy, g)
    ensures Gapless(policy, gs + [g], g.next)
  {
    var all := gs + [g];
    if gs == [] {
      assert all[1..] == [];
    } else {
      GaplessSnoc(policy, gs[1..], g);
      assert all[1..] == gs[1..] + [g];
    }
  }

  lemma {:induction false} ChainedTail(gs: seq<SealedSegment>, lo: int, end: int, n: nat)
    requires Chained(gs, lo, end) && n <= |gs|
    ensures Chained(gs[n..], lo, end)
  {
    if 0 < n {
      ChainedTail(gs[1..], gs[0].next, end, n - 1);
      OpenedSpan(gs[0]);
      assert gs[1..][n - 1..] == gs[n..];
      ChainedWiden(gs[n..], gs[0].next, end, lo, end);
    }
  }

  lemma {:induction false} GaplessTail(policy: Policy, gs: seq<SealedSegment>, end: int, n: nat)
    requires Gapless(policy, gs, end) && n <= |gs|
    ensures Gapless(policy, gs[n..], end)
  {
    if 0 < n {
      GaplessTail(policy, gs[1..], end, n - 1);
      assert gs[1..][n - 1..] == gs[n..];
    }
  }

  /** Where a chain would go on if it were cut after n segments. */
  function EndAfter(gs: seq<SealedSegment>, end: int, n: nat): int
    requires n <= |gs|
  {
    if n == |gs| then end else gs[n].base
  }

  /** One segment of a chain: what it is, and where it stands against the next. */
  lemma {:induction false} SpanAt(gs: seq<SealedSegment>, lo: int, end: int, k: nat)
    requires Chained(gs, lo, end) && k < |gs|
    ensures Opened(gs[k]) && lo <= gs[k].base < gs[k].next <= EndAfter(gs, end, k + 1) <= end
  {
    OpenedSpan(gs[0]);
    if k == 0 {
      ChainedBounds(gs[1..], gs[0].next, end);
    } else {
      SpanAt(gs[1..], gs[0].next, end, k - 1);
    }
  }

  lemma {:induction false} ChainedBounds(gs: seq<SealedSegment>, lo: int, end: int)
    requires Chained(gs, lo, end)
    ensures lo <= EndAfter(gs, end, 0) <= end
  {
    if gs != [] {
      OpenedSpan(gs[0]);
      ChainedBounds(gs[1..], gs[0].next, end);
    }
  }

  lemma {:induction false} ChainedHead(gs: seq<SealedSegment>, lo: int, end: int, n: nat)
    requires Chained(gs, lo, end) && n <= |gs|
    ensures Chained(gs[..n], lo, EndAfter(gs, end, n))
  {
    if n == 0 {
      ChainedSpan(gs, lo, end);
    } else {
      ChainedHead(gs[1..], gs[0].next, end, n - 1);
      assert gs[..n][1..] == gs[1..][..n - 1];
    }
  }

  lemma {:induction false} GaplessHead(policy: Policy, gs: seq<SealedSegment>, end: int, n: nat)
    requires Gapless(policy, gs, end) && n <= |gs|
    ensures Gapless(policy, gs[..n], EndAfter(gs, end, n))
    ensures 0 < n ==> gs[n - 1].next == EndAfter(gs, end, n) && Uncompacted(policy, gs[n - 1])
  {
    if 0 < n {
      GaplessHead(policy, gs[1..], end, n - 1);
      assert gs[..n][1..] == gs[1..][..n - 1];
    }
  }

  // --------------------------------------------------------------------------- retention

  datatype Retention = Retention(retentionMs: int, retentionBytes: Option<nat>, segmentDeleteDelayMs: int)

  /** Old enough to go by age: no records at all, or a usable newest timestamp past the window. */
  predicate Expired(r: Retention, g: SealedSegment, nowMs: int) {
    g.next == g.base || (0 <= g.largest && r.retentionMs <= nowMs - g.largest)
  }

  function Size(gs: seq<SealedSegment>): nat {
    if gs == [] then 0 else Total(gs[0].batches) + Size(gs[1..])
  }

  /** How many of the oldest segments the age pass takes. */
  function AgeCut(r: Retention, gs: seq<SealedSegment>, nowMs: int): (n: nat)
    ensures n <= |gs|
  {
    if gs == [] || !Expired(r, gs[0], nowMs) then 0 else 1 + AgeCut(r, gs[1..], nowMs)
  }

  /** How many of the oldest segments the size pass takes, with this much in the active one. */
  function SizeCut(r: Retention, gs: seq<SealedSegment>, active: nat): (n: nat)
    ensures n <= |gs|
  {
    if r.retentionBytes.None? || gs == [] || Size(gs) + active <= r.retentionBytes.value then 0
    else 1 + SizeCut(r, gs[1..], active)
  }

  function Keep(r: Retention, gs: seq<SealedSegment>, active: nat, nowMs: int): seq<SealedSegment> {
    var aged := gs[AgeCut(r, gs, nowMs)..];
    aged[SizeCut(r, aged, active)..]
  }

  lemma {:induction false} AgeCutIsMaximal(r: Retention, gs: seq<SealedSegment>, nowMs: int)
    ensures var n := AgeCut(r, gs, nowMs);
            && (forall i :: 0 <= i < n ==> Expired(r, gs[i], nowMs))
            && (n < |gs| ==> !Expired(r, gs[n], nowMs))
  {
    if gs != [] && Expired(r, gs[0], nowMs) {
      AgeCutIsMaximal(r, gs[1..], nowMs);
      var n := AgeCut(r, gs, nowMs);
      forall i | 0 <= i < n ensures Expired(r, gs[i], nowMs) {
        if 0 < i { assert gs[i] == gs[1..][i - 1]; }
      }
    }
  }

  lemma {:induction false} SizeCutIsLeast(r: Retention, gs: seq<SealedSegment>, active: nat, limit: nat)
    requires r.retentionBytes == Some(limit)
    ensures var n := SizeCut(r, gs, active);
            && (n == |gs| || Size(gs[n..]) + active <= limit)
            && (forall i :: 0 <= i < n ==> limit < Size(gs[i..]) + active)
  {
    if gs != [] && limit < Size(gs) + active {
      SizeCutIsLeast(r, gs[1..], active, limit);
      var n := SizeCut(r, gs, active);
      assert gs[n..] == gs[1..][n - 1..];
      forall i | 0 <= i < n ensures limit < Size(gs[i..]) + active {
        if 0 < i { assert gs[i..] == gs[1..][i - 1..]; } else { assert gs[0..] == gs; }
      }
    }
  }

  /**
   What retention takes is a prefix of whole sealed segments: each one either expired with everything
   older, or went while the partition was still over its byte limit. What stays is within both limits,
   or there is nothing sealed left to take.
   */
  lemma {:induction false} RetentionTakesPrefix(r: Retention, gs: seq<SealedSegment>, active: nat, nowMs: int) returns (n: nat)
    ensures n <= |gs| && Keep(r, gs, active, nowMs) == gs[n..]
    ensures forall i :: 0 <= i < n ==>
              || (forall k :: 0 <= k <= i ==> Expired(r, gs[k], nowMs))
              || (r.retentionBytes.Some? && r.retentionBytes.value < Size(gs[i..]) + active)
    ensures r.retentionBytes.Some? && n < |gs| ==> Size(gs[n..]) + active <= r.retentionBytes.value
    ensures r.retentionBytes.None? && n < |gs| ==> !Expired(r, gs[n], nowMs)
  {
    var a := AgeCut(r, gs, nowMs);
    var aged := gs[a..];
    var b := SizeCut(r, aged, active);
    n := a + b;
    assert aged[b..] == gs[n..];
    AgeCutIsMaximal(r, gs, nowMs);
    if r.retentionBytes.Some? {
      SizeCutIsLeast(r, aged, active, r.retentionBytes.value);
      forall i | a <= i < n ensures r.retentionBytes.value < Size(gs[i..]) + active {
        assert gs[i..] == aged[i - a..];
      }
    }
  }

  // ------------------------------------------------------- where retention takes too much

  /** A segment as sealing leaves it: its index as its appends grew it, its timestamp derived from that. */
  ghost predicate SealedAs(policy: Policy, g: SealedSegment, from: nat) {
    && Opened(g) && Uncompacted(policy, g) && g.index == AppendAll(policy, g.base, g.batches).value.index
    && StartsTail(g.batches, g.index, from) && g.largest == LargestTimestamp(g.batches[from..])
  }

  /** The same segment with the timestamp a full scan would find. */
  function Scanned(g: SealedSegment): SealedSegment { g.(largest := LargestTimestamp(g.batches)) }

  /**
   A segment goes by age before its newest record has aged out if and only if everything from its last
   index entry on has, and some batch before that has not.
   */
  lemma {:induction false} ExpiresEarlyExactly(r: Retention, policy: Policy, g: SealedSegment, from: nat, nowMs: int)
    requires SealedAs(policy, g, from)
    ensures Expired(r, g, nowMs) && !Expired(r, Scanned(g), nowMs)
       <==> && 0 <= g.largest && r.retentionMs <= nowMs - g.largest
            && exists k :: 0 <= k < from && nowMs - g.batches[k].maxTimestamp < r.retentionMs
  {
    OpenedSpan(g);
    TailAndRest(g.batches, from, nowMs - r.retentionMs);
  }

  /** The largest timestamp of all against that of the tail and those before it. */
  lemma {:induction false} TailAndRest(bs: seq<Batch>, from: nat, t: int)
    requires from <= |bs|
    ensures LargestTimestamp(bs[from..]) <= LargestTimestamp(bs)
    ensures -1 <= t && LargestTimestamp(bs[from..]) <= t ==>
              (t < LargestTimestamp(bs) <==> exists k :: 0 <= k < from && t < bs[k].maxTimestamp)
  {
    var before, tail := bs[..from], bs[from..];
    assert before + tail == bs;
    LargestOfConcat(before, tail);
    if -1 <= t { LargestAtMost(before, t); }
    assert forall k :: 0 <= k < from ==> before[k] == bs[k];
  }

  /** Two batches, the second indexed: the segment is taken ten milliseconds after its newest record. */
  lemma {:induction false} ExpiresEarly() returns (policy: Policy, r: Retention, g: SealedSegment)
    ensures SealedAs(policy, g, 1) && Expired(r, g, 60) && !Expired(r, Scanned(g), 60)
    ensures exists k :: 0 <= k < |g.batches| && g.batches[k].maxTimestamp == 50 && r.retentionMs == 50
  {
    var a, b := Batch(0, 0, 100, 50, []), Batch(1, 1, 100, 0, []);
    policy, r := Policy(1000, 1000, 1, 10), Retention(50, None, 0);
    g := SealedSegment(0, [a, b], [Entry(1, 100)], 2, 0);
    TwoAppended(policy, a, b);
    assert StartOf([a, b], 1) == 100 && PointsAt(0, [a, b], Entry(1, 100), 1);
    assert [a, b][1..] == [b] && [b][..0] == [] && [a, b][..1] == [a];
    assert LargestTimestamp([b]) == 0 && LargestTimestamp([a]) == 50;
  }

  lemma {:induction false} TwoAppended(policy: Policy, a: Batch, b: Batch)
    requires policy == Policy(1000, 1000, 1, 10) && a.base == a.last == 0 && b.base == b.last == 1 && a.size == b.size == 100
    ensures Contiguous(0, [a, b]) && AppendAll(policy, 0, [a, b]).Some?
    ensures AppendAll(policy, 0, [a, b]).value.index == [Entry(1, 100)]
  {
    assert [a][..0] == [] && [a, b][..1] == [a];
    var none: seq<Batch> := [];
    assert Contiguous(0, none) && AppendAll(policy, 0, none) == Some(Derived([], 0, 0, -1));
    assert StartOf([a], 0) == 0 && StartOf([a], 1) == 100;
    assert Contiguous(0, [a]) && Total(none) == 0 && Total([a]) == 100;
    assert AppendOne(policy, 0, Derived([], 0, 0, -1), 0, a) == Some(Derived([], 100, 1, Max(-1, a.maxTimestamp)));
    assert AppendAll(policy, 0, [a]) == Some(Derived([], 100, 1, Max(-1, a.maxTimestamp)));
    assert [] + [Entry(1, 100)] == [Entry(1, 100)];
  }
}
