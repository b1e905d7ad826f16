/** What a cleaning pass does to segment files. */
module Cleaning {
  // And the view of a log's segments that the compaction state machine takes.

  import opened Prelude
  import opened Records
  import opened Segments
  import opened ActiveSegments
  import opened Sealed
  import C = Compaction

  // ----------------------------------------------------------------- records of batches

  function RecordsOf(bs: seq<Batch>): seq<Record> {
    if bs == [] then [] else bs[0].records + RecordsOf(bs[1..])
  }

  lemma {:induction false} RecordsConcat(a: seq<Batch>, b: seq<Batch>)
    ensures RecordsOf(a + b) == RecordsOf(a) + RecordsOf(b)
    decreases |a|
  {
    if a == [] {
      assert a + b == b;
    } else {
      assert (a + b)[1..] == a[1..] + b;
      RecordsConcat(a[1..], b);
    }
  }

  lemma {:induction false} RecordsSnoc(bs: seq<Batch>, b: Batch)
    ensures RecordsOf(bs + [b]) == RecordsOf(bs) + b.records
  {
    RecordsConcat(bs, [b]);
    assert [b][1..] == [];
  }

  /** A batch whose records lie inside the offsets it claims, in order. */
  ghost predicate WellFormed(b: Batch) {
    && Sound(b)
    && (forall i, j :: 0 <= i < j < |b.records| ==> b.records[i].offset < b.records[j].offset)
    && (forall i :: 0 <= i < |b.records| ==> b.base <= b.records[i].offset <= b.last)
  }

  ghost predicate AllFormed(bs: seq<Batch>) { forall i :: 0 <= i < |bs| ==> WellFormed(bs[i]) }

  lemma {:induction false} FormedRecords(base: int, bs: seq<Batch>)
    requires Ordered(base, bs) && AllFormed(bs)
    ensures Increasing(RecordsOf(bs)) && Within(RecordsOf(bs), base, NextOffset(base, bs))
    decreases |bs|
  {
    if bs != [] {
      var b, rest := bs[0], bs[1..];
      assert forall i :: 0 <= i < |rest| ==> rest[i] == bs[i + 1];
      FormedRecords(b.last + 1, rest);
    }
  }

  // -------------------------------------------------------------------------- rewriting

  /** The batch rewritten from these survivors: based at the first, ending at the last. */
  function NewBatch(sizeOf: seq<Record> -> nat, kept: seq<Record>): Batch
    requires kept != []
  {
    Batch(kept[0].offset, kept[|kept| - 1].offset, HEADER_SIZE + sizeOf(kept), LatestStamp(kept), kept)
  }

  /** The batches a rewrite writes: each batch's survivors, and no batch for none. */
  function CleanBatches(sizeOf: seq<Record> -> nat, keep: Record -> bool, bs: seq<Batch>): seq<Batch> {
    if bs == [] then []
    else
      var front := CleanBatches(sizeOf, keep, bs[..|bs| - 1]);
      var kept := Filter(bs[|bs| - 1].records, keep);
      if kept == [] then front else front + [NewBatch(sizeOf, kept)]
  }

  lemma {:induction false} FilterFormed(b: Batch, keep: Record -> bool)
    requires WellFormed(b)
    ensures Increasing(Filter(b.records, keep)) && Within(Filter(b.records, keep), b.base, b.last + 1)
  {
    FilterIncreasing(b.records, keep, b.base, b.last + 1);
  }

  /** A rewrite is exactly the order-preserving filter of the records, and drops the batches left empty. */
  lemma {:induction false} CleanIsFilter(sizeOf: seq<Record> -> nat, keep: Record -> bool, bs: seq<Batch>)
    ensures RecordsOf(CleanBatches(sizeOf, keep, bs)) == Filter(RecordsOf(bs), keep)
    ensures forall b :: b in CleanBatches(sizeOf, keep, bs) ==> b.records != []
  {
    if bs != [] {
      var init, b := bs[..|bs| - 1], bs[|bs| - 1];
      CleanIsFilter(sizeOf, keep, init);
      assert bs == init + [b];
      RecordsSnoc(init, b);
      FilterConcat(RecordsOf(init), b.records, keep);
      var kept := Filter(b.records, keep);
      if kept == [] {
        assert Filter(RecordsOf(init), keep) + kept == Filter(RecordsOf(init), keep);
      } else {
        RecordsSnoc(CleanBatches(sizeOf, keep, init), NewBatch(sizeOf, kept));
      }
    }
  }

  /** The rewritten batches stay in order, inside the offsets the segment had. */
  lemma {:induction false} CleanIsOrdered(sizeOf: seq<Record> -> nat, keep: Record -> bool, base: int, bs: seq<Batch>)
    requires Ordered(base, bs) && AllFormed(bs)
    ensures var out := CleanBatches(sizeOf, keep, bs);
            Ordered(base, out) && AllFormed(out) && NextOffset(base, out) <= NextOffset(base, bs)
  {
    if bs != [] {
      var init, b := bs[..|bs| - 1], bs[|bs| - 1];
      CleanIsOrdered(sizeOf, keep, base, init);
      FilterFormed(b, keep);
      var front := CleanBatches(sizeOf, keep, init);
      var kept := Filter(b.records, keep);
      NextIsPast(base, front);
      assert NextOffset(base, init) <= b.base;
      if kept != [] { OrderedSnoc(base, front, NewBatch(sizeOf, kept)); }
    }
  }

  lemma {:induction false} NextIsPast(base: int, bs: seq<Batch>)
    requires Ordered(base, bs)
    ensures base <= NextOffset(base, bs) && forall i :: 0 <= i < |bs| ==> bs[i].last < NextOffset(base, bs)
  {
  }

  lemma {:induction false} OrderedSnoc(base: int, bs: seq<Batch>, b: Batch)
    requires Ordered(base, bs) && AllFormed(bs) && WellFormed(b) && NextOffset(base, bs) <= b.base
    ensures Ordered(base, bs + [b]) && AllFormed(bs + [b])
  {
    NextIsPast(base, bs);
  }

  /** The survivors of a prefix of the file come first among the survivors of the file. */
  lemma {:induction false} CleanOfPrefix(sizeOf: seq<Record> -> nat, keep: Record -> bool, bs: seq<Batch>, n: nat)
    requires n <= |bs|
    ensures CleanBatches(sizeOf, keep, bs[..n]) <= CleanBatches(sizeOf, keep, bs)
  {
    if n == |bs| {
      assert bs[..n] == bs;
    } else {
      CleanOfPrefix(sizeOf, keep, bs[..|bs| - 1], n);
      assert bs[..|bs| - 1][..n] == bs[..n];
    }
  }

  // ------------------------------------------------------------ the state machine's view

  function Seg(g: SealedSegment): C.Segment { C.Segment(g.base, g.next, RecordsOf(g.batches)) }

  function Segs(gs: seq<SealedSegment>): (out: seq<C.Segment>)
    ensures |out| == |gs| && forall i :: 0 <= i < |gs| ==> out[i] == Seg(gs[i])
  {
    if gs == [] then [] else [Seg(gs[0])] + Segs(gs[1..])
  }

  /** A log and a dirty mark, as the machine sees them between passes. */
  function Abstract(gs: seq<SealedSegment>, base: int, next: int, tail: seq<Batch>, mark: int): C.State {
    C.State(Segs(gs), C.Segment(base, next, RecordsOf(tail)), mark, None)
  }

  ghost predicate SegmentsFormed(gs: seq<SealedSegment>) { forall g :: g in gs ==> AllFormed(g.batches) }

  lemma {:induction false} SegIsOk(g: SealedSegment)
    requires Opened(g) && AllFormed(g.batches) && 0 <= g.base
    ensures C.Ok(Seg(g))
  {
    OpenedSpan(g);
    FormedRecords(g.base, g.batches);
  }

  lemma {:induction false} SegsChain(gs: seq<SealedSegment>, lo: int, end: int)
    requires Chained(gs, lo, end) && SegmentsFormed(gs) && 0 <= lo
    ensures C.Chain(Segs(gs), lo, end)
  {
    if gs != [] {
      assert gs[0] in gs && forall g :: g in gs[1..] ==> g in gs;
      OpenedSpan(gs[0]);
      SegIsOk(gs[0]);
      SegsChain(gs[1..], gs[0].next, end);
      assert Segs(gs)[1..] == Segs(gs[1..]);
    }
  }

  /** Before any pass, with the dirty mark at zero, a well-formed log satisfies the machine's invariant. */
  lemma {:induction false} UnmarkedIsInv(c: C.Config, gs: seq<SealedSegment>, lo: int, base: int, tail: seq<Batch>)
    requires 0 <= lo && Chained(gs, lo, base) && SegmentsFormed(gs)
    requires Ordered(base, tail) && AllFormed(tail)
    ensures C.Inv(c, Abstract(gs, base, NextOffset(base, tail), tail, 0))
  {
    var s := Abstract(gs, base, NextOffset(base, tail), tail, 0);
    SegsChain(gs, lo, base);
    C.ChainWiden(Segs(gs), lo, base, 0, base);
    FormedRecords(base, tail);
    NextIsPast(base, tail);
    C.ChainOrder(s.sealed, 0, base);
    C.RecsIncreasing(s);
  }
}
