/** Batches of bytes and the batches a log is modelled with: the same rewrite on both. */
module BatchViews {
  import opened Prelude
  import opened Records
  import opened RecordBatch
  import opened Framing
  import opened SegmentRewrite
  import L = Segments
  import K = Cleaning

  /** Whole, undamaged, and every record of it decodes. */
  ghost predicate Readable(b: Bytes) { Whole(V2, b) && Absolute(b).Some? }

  /** What the log makes of a header, a size and the records inside. */
  function Seen(header: BatchHeader, size: nat, records: seq<Record>): L.Batch {
    L.Batch(header.baseOffset, header.baseOffset + header.lastOffsetDelta, size, header.maxTimestamp, records)
  }

  /** A batch as the log sees it. */
  function ViewOf(b: Bytes): L.Batch
    requires Readable(b)
  {
    Seen(ParseHeader(b).value, |b|, Absolute(b).value)
  }

  ghost predicate AllReadable(bs: seq<Bytes>) { forall i :: 0 <= i < |bs| ==> Readable(bs[i]) }

  function ViewsOf(bs: seq<Bytes>): (out: seq<L.Batch>)
    requires AllReadable(bs)
    ensures |out| == |bs| && forall i :: 0 <= i < |bs| ==> out[i] == ViewOf(bs[i])
  {
    if bs == [] then [] else [ViewOf(bs[0])] + ViewsOf(bs[1..])
  }

  /** The size past its header of the batch these survivors are written in. */
  ghost function SizeOf(kept: seq<Record>): nat {
    if kept != [] && Rewritable(kept) then |NewBatchBytes(kept)| - HEADER_SIZE else 0
  }

  /** The batch written for these survivors is, to the log, the clean batch of them. */
  lemma {:induction false} NewBatchViews(kept: seq<Record>)
    requires kept != [] && Rewritable(kept)
    ensures Readable(NewBatchBytes(kept)) && ViewOf(NewBatchBytes(kept)) == K.NewBatch(SizeOf, kept)
  {
    NewBatchReadsBack(kept);
    SeenIs(ParseHeader(NewBatchBytes(kept)).value, kept, SizeOf(kept));
  }

  lemma {:induction false} SeenIs(header: BatchHeader, kept: seq<Record>, size: nat)
    requires kept != [] && header.baseOffset == kept[0].offset && header.maxTimestamp == LatestStamp(kept)
    requires header.lastOffsetDelta == kept[|kept| - 1].offset - kept[0].offset
    ensures Seen(header, HEADER_SIZE + size, kept)
         == L.Batch(kept[0].offset, kept[|kept| - 1].offset, HEADER_SIZE + size, LatestStamp(kept), kept)
  {
  }

  lemma {:induction false} CleanConcat(sizeOf: seq<Record> -> nat, keep: Record -> bool, a: seq<L.Batch>, b: seq<L.Batch>)
    ensures K.CleanBatches(sizeOf, keep, a + b) == K.CleanBatches(sizeOf, keep, a) + K.CleanBatches(sizeOf, keep, b)
  {
    if b == [] {
      assert a + b == a;
    } else {
      assert (a + b)[..|a + b| - 1] == a + b[..|b| - 1];
      CleanConcat(sizeOf, keep, a, b[..|b| - 1]);
    }
  }

  lemma {:induction false} CleanOfOne(sizeOf: seq<Record> -> nat, keep: Record -> bool, b: L.Batch)
    ensures var kept := Filter(b.records, keep);
            K.CleanBatches(sizeOf, keep, [b]) == if kept == [] then [] else [K.NewBatch(sizeOf, kept)]
  {
    assert [b][..0] == [];
  }

  lemma {:induction false} ViewsConcat(a: seq<Bytes>, b: seq<Bytes>)
    requires AllReadable(a) && AllReadable(b)
    ensures AllReadable(a + b) && ViewsOf(a + b) == ViewsOf(a) + ViewsOf(b)
  {
  }

  lemma {:induction false} BothView(a: seq<Bytes>, b: seq<Bytes>, keep: Record -> bool, x: seq<L.Batch>, y: seq<L.Batch>)
    requires AllReadable(a) && ViewsOf(a) == K.CleanBatches(SizeOf, keep, x)
    requires AllReadable(b) && ViewsOf(b) == K.CleanBatches(SizeOf, keep, y)
    ensures AllReadable(a + b) && ViewsOf(a + b) == K.CleanBatches(SizeOf, keep, x + y)
  {
    ViewsConcat(a, b);
    CleanConcat(SizeOf, keep, x, y);
  }

  /** Rewriting the bytes and then looking is looking and then rewriting the batches seen. */
  lemma {:induction false} RewriteAllViews(bs: seq<Bytes>, keep: Record -> bool)
    requires AllReadable(bs) && CanRewrite(bs, keep)
    ensures AllReadable(RewriteAll(bs, keep))
    ensures ViewsOf(RewriteAll(bs, keep)) == K.CleanBatches(SizeOf, keep, ViewsOf(bs))
    decreases |bs|
  {
    if bs != [] {
      var b, rest := bs[0], bs[1..];
      var kept := Filter(Absolute(b).value, keep);
      RewriteAllViews(rest, keep);
      OneViews(b, keep);
      BothView(Rewritten(kept), RewriteAll(rest, keep), keep, [ViewOf(b)], ViewsOf(rest));
    }
  }

  lemma {:induction false} OneViews(b: Bytes, keep: Record -> bool)
    requires Readable(b) && Rewritable(Filter(Absolute(b).value, keep))
    ensures var out := Rewritten(Filter(Absolute(b).value, keep));
            AllReadable(out) && ViewsOf(out) == K.CleanBatches(SizeOf, keep, [ViewOf(b)])
  {
    var kept := Filter(Absolute(b).value, keep);
    CleanOfOne(SizeOf, keep, ViewOf(b));
    if kept != [] {
      NewBatchViews(kept);
      ViewsOfOne(NewBatchBytes(kept));
    }
  }

  lemma {:induction false} ViewsOfOne(b: Bytes)
    requires Readable(b)
    ensures AllReadable([b]) && ViewsOf([b]) == [ViewOf(b)]
  {
  }

  /**
   The two models of a segment's rewrite agree: what the log sees in the file rewriteSegment writes is the
   clean batches of what it saw in the file it read.
   */
  lemma {:induction false} RewriteIsClean(file: Bytes, keep: Record -> bool)
    requires CanRewrite(ScanV2(file), keep)
    ensures var before, after := ScanV2(file), ScanV2(Flatten(RewriteAll(ScanV2(file), keep)));
            && AllReadable(before) && AllReadable(after)
            && ViewsOf(after) == K.CleanBatches(SizeOf, keep, ViewsOf(before))
  {
    V2IsLegal();
    ScannedAreWhole(V2, HEADER_SIZE, file);
    RewriteReadsAsFilter(file, keep);
    RewriteAllViews(ScanV2(file), keep);
  }
}
