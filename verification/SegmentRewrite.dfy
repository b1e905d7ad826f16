/** Rewriting a segment's bytes: read back, it is the filtered old one. */
module SegmentRewrite {
  // Every batch is decoded, the records retain rejects are left out, and the rest are re-encoded at their
  // own absolute offsets.

  import opened Prelude
  import opened Records
  import opened Buffer
  import opened RecordFields
  import opened RecordBatch
  import opened BatchFiles
  import opened Framing

  // ---------------------------------------------------------------- absolute records

  function ToRecord(base: int, first: int, r: Raw): Record {
    Record(base + r.offsetDelta, first + r.timestampDelta, r.key, r.value, r.headers)
  }

  function ToRecords(base: int, first: int, rs: seq<Raw>): (out: seq<Record>)
    ensures |out| == |rs|
    ensures forall i :: 0 <= i < |rs| ==> out[i] == ToRecord(base, first, rs[i])
  {
    if rs == [] then [] else [ToRecord(base, first, rs[0])] + ToRecords(base, first, rs[1..])
  }

  /** The records of a batch at their absolute offsets and timestamps; None where decoding throws. */
  function Absolute(b: Bytes): Option<seq<Record>> {
    match DecodeRecords(b)
    case None => None
    case Some(rs) =>
      match ParseHeader(b)
      case None => None
      case Some(header) => Some(ToRecords(header.baseOffset, header.firstTimestamp, rs))
  }

  function Passes(b: Bytes): bool { VerifyCrc(b) == Some(true) }

  /** The v2 record batch as a format a file can be scanned by. */
  const V2 := Format(TotalSizeOf, Passes, Absolute)

  lemma {:induction false} V2IsLegal()
    ensures Legal(V2, HEADER_SIZE)
  {
    forall b: Bytes, rest: Bytes | HEADER_SIZE <= |b| ensures TotalSizeOf(b + rest) == TotalSizeOf(b) {
      assert (b + rest)[8..12] == b[8..12];
    }
  }

  function Rebased(base: Record, r: Record): Raw {
    Raw(0, r.timestampMs - base.timestampMs, r.offset - base.offset, r.key, r.value, r.headers)
  }

  /** The records as deltas from the first of them. */
  function Rebase(base: Record, kept: seq<Record>): (out: seq<Raw>)
    ensures |out| == |kept|
    ensures forall i :: 0 <= i < |kept| ==> out[i] == Rebased(base, kept[i])
  {
    if kept == [] then [] else [Rebased(base, kept[0])] + Rebase(base, kept[1..])
  }

  lemma {:induction false} RebaseUndone(base: Record, kept: seq<Record>)
    ensures ToRecords(base.offset, base.timestampMs, Rebase(base, kept)) == kept
  {
    var rs := Rebase(base, kept);
    forall i | 0 <= i < |kept| ensures ToRecords(base.offset, base.timestampMs, rs)[i] == kept[i] {
      assert rs[i] == Rebased(base, kept[i]);
    }
  }

  /** Records that still fit a batch of their own: the sizes and distances its fields can hold. */
  ghost predicate Rewritable(kept: seq<Record>) {
    kept != [] ==>
      Fits(kept[0].offset, BASE_OFFSET) && Encodable(Rebase(kept[0], kept), kept[0].timestampMs, LatestStamp(kept))
  }

  ghost function NewBatchBytes(kept: seq<Record>): (b: Bytes)
    requires kept != [] && Rewritable(kept)
    ensures HEADER_SIZE <= |b|
  {
    var first := kept[0];
    StampBaseOffset(EncodeBatch(Rebase(first, kept), first.timestampMs, LatestStamp(kept)), first.offset)
  }

  /** What rewriteSegment writes for the records it kept: one batch, or none if it kept none. */
  ghost function Rewritten(kept: seq<Record>): seq<Bytes>
    requires Rewritable(kept)
  {
    if kept == [] then [] else [NewBatchBytes(kept)]
  }

  lemma {:induction false} SameReading(x: Bytes, y: Bytes)
    requires x == y
    ensures TotalSizeOf(x) == TotalSizeOf(y) && VerifyCrc(x) == VerifyCrc(y)
    ensures DecodeRecords(x) == DecodeRecords(y) && ParseHeader(x) == ParseHeader(y)
  {
  }

  lemma {:induction false} HeaderOfBuilt(rs: seq<Raw>, first: int, max: int, b: Bytes)
    requires Encodable(rs, first, max) && b == EncodeBatch(rs, first, max)
    ensures var h := ParseHeader(b + []);
            h.Some? && h.value.firstTimestamp == first && h.value.maxTimestamp == max && h.value.lastOffsetDelta == rs[|rs| - 1].offsetDelta
  {
    assert FitsRaw(rs[|rs| - 1]);
    HeaderRoundTrip(rs[|rs| - 1].offsetDelta, first, max, |rs|, PutRecords(rs), []);
  }

  lemma {:induction false} BuiltIsWhole(rs: seq<Raw>, first: int, max: int)
    requires Encodable(rs, first, max)
    ensures var b := EncodeBatch(rs, first, max);
            && TotalSizeOf(b) == Some(|b|) && VerifyCrc(b) == Some(true) && DecodeRecords(b) == Some(rs)
            && ParseHeader(b).Some? && ParseHeader(b).value.firstTimestamp == first && ParseHeader(b).value.maxTimestamp == max
            && ParseHeader(b).value.lastOffsetDelta == rs[|rs| - 1].offsetDelta
  {
    var b := EncodeBatch(rs, first, max);
    BatchRoundTrip(rs, first, max, []);
    HeaderOfBuilt(rs, first, max, b);
    SameReading(b + [], b);
  }

  lemma {:induction false} AbsoluteFrom(b: Bytes, base: int, first: int, rs: seq<Raw>)
    requires DecodeRecords(b) == Some(rs)
    requires ParseHeader(b).Some? && ParseHeader(b).value.baseOffset == base
    requires ParseHeader(b).value.firstTimestamp == first
    ensures Absolute(b) == Some(ToRecords(base, first, rs))
  {
  }

  /** Kept records come back from their new batch exactly as they were, from its first offset to its last. */
  lemma {:induction false} NewBatchReadsBack(kept: seq<Record>)
    requires kept != [] && Rewritable(kept)
    ensures var b := NewBatchBytes(kept);
            && Whole(V2, b) && Absolute(b) == Some(kept)
            && ParseHeader(b).Some?
            && ParseHeader(b).value.baseOffset == kept[0].offset
            && ParseHeader(b).value.lastOffsetDelta == kept[|kept| - 1].offset - kept[0].offset
            && ParseHeader(b).value.maxTimestamp == LatestStamp(kept)
  {
    var first := kept[0];
    var rs := Rebase(first, kept);
    var built := EncodeBatch(rs, first.timestampMs, LatestStamp(kept));
    BuiltIsWhole(rs, first.timestampMs, LatestStamp(kept));
    BaseOffsetOnly(built, first.offset);
    AbsoluteFrom(NewBatchBytes(kept), first.offset, first.timestampMs, rs);
    RebaseUndone(first, kept);
  }

  // ------------------------------------------------------------------ the whole file

  ghost predicate CanRewrite(bs: seq<Bytes>, keep: Record -> bool) {
    forall i :: 0 <= i < |bs| ==> V2.read(bs[i]).Some? && Rewritable(Filter(V2.read(bs[i]).value, keep))
  }

  ghost function RewriteAll(bs: seq<Bytes>, keep: Record -> bool): seq<Bytes>
    requires CanRewrite(bs, keep)
  {
    if bs == [] then []
    else Rewritten(Filter(V2.read(bs[0]).value, keep)) + RewriteAll(bs[1..], keep)
  }

  lemma {:induction false} RewrittenHolds(kept: seq<Record>)
    requires Rewritable(kept)
    ensures Holds(V2, Rewritten(kept), kept)
  {
    if kept != [] {
      NewBatchReadsBack(kept);
      HoldsOne(V2, NewBatchBytes(kept), kept);
    }
  }

  lemma {:induction false} HoldsOne<T>(f: Format<T>, b: Bytes, items: seq<T>)
    requires Whole(f, b) && f.read(b) == Some(items)
    ensures Holds(f, [b], items)
  {
    assert [b][1..] == [];
    assert items + [] == items;
  }

  /** Putting one batch's outcome ahead of the rest's. */
  lemma {:induction false} HoldsCons<T>(
      f: Format<T>, bs: seq<Bytes>, rs: seq<T>, more: seq<T>,
      a: seq<Bytes>, x: seq<T>, b: seq<Bytes>, y: seq<T>, all: seq<T>)
    requires bs != [] && f.read(bs[0]) == Some(rs) && Items(f, bs[1..]) == Some(more)
    requires Holds(f, a, x) && Holds(f, b, y) && all == x + y
    ensures Items(f, bs) == Some(rs + more) && Holds(f, a + b, all)
  {
    HoldsConcat(f, a, x, b, y);
  }

  lemma {:induction false} RewriteAllFilters(bs: seq<Bytes>, keep: Record -> bool)
    requires CanRewrite(bs, keep)
    ensures Items(V2, bs).Some?
    ensures Holds(V2, RewriteAll(bs, keep), Filter(Items(V2, bs).value, keep))
    decreases |bs|
  {
    if bs != [] {
      RewriteAllFilters(bs[1..], keep);
      var rs, more := V2.read(bs[0]).value, Items(V2, bs[1..]).value;
      RewrittenHolds(Filter(rs, keep));
      FilterConcat(rs, more, keep);
      HoldsCons(V2, bs, rs, more, Rewritten(Filter(rs, keep)), Filter(rs, keep),
                RewriteAll(bs[1..], keep), Filter(more, keep), Filter(rs + more, keep));
    }
  }

  /** The whole, undamaged batches of a segment file. */
  function ScanV2(file: Bytes): seq<Bytes> {
    V2IsLegal();
    Scan(V2, HEADER_SIZE, file)
  }

  /**
   rewriteSegment, end to end on bytes: scanning and decoding the file it writes gives the records of
   the file it read, in order, less exactly those the rule rejects.
   */
  lemma {:induction false} RewriteReadsAsFilter(file: Bytes, keep: Record -> bool)
    requires CanRewrite(ScanV2(file), keep)
    ensures var before := ScanV2(file);
            var after := ScanV2(Flatten(RewriteAll(before, keep)));
            && after == RewriteAll(before, keep)
            && Items(V2, before).Some?
            && Items(V2, after) == Some(Filter(Items(V2, before).value, keep))
  {
    var out := RewriteAll(ScanV2(file), keep);
    V2IsLegal();
    RewriteAllFilters(ScanV2(file), keep);
    ScanParts(V2, HEADER_SIZE, out, []);
    assert Flatten(out) + [] == Flatten(out);
    assert out + [] == out;
  }
}
