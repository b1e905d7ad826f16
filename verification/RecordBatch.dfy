/**
 The v2 record batch: Apache Kafka documentation, section 5.3.1 "Record Batch".
 Its prefix, the part the checksum covers, and the whole of it there and back.
 */
module RecordBatch {
  import opened Prelude
  import opened Records
  import opened Buffer
  import opened RecordFields
  import Varint
  import Crc32c

  const MAGIC_V2 := 2
  const UNCOUNTED: nat := 12
  const CRC_COVERAGE_START: nat := 21
  const NO_EPOCH := -1

  datatype BatchHeader = BatchHeader(
    baseOffset: int,
    batchLength: int,
    leaderEpoch: int,
    magic: int,
    crc: int,
    attributes: int,
    lastOffsetDelta: int,
    firstTimestamp: int,
    maxTimestamp: int,
    producerId: int,
    producerEpoch: int,
    baseSequence: int,
    recordCount: int)

  /** baseOffset, batchLength, partitionLeaderEpoch, magic, crc: what the checksum does not cover. */
  const PREFIX_FIELDS := [Field(8, true), Field(4, true), Field(4, true), Field(1, true), Field(4, false)]

  /** attributes, lastOffsetDelta, first and max timestamp, producer id and epoch, sequence, count. */
  const COVERED_FIELDS :=
    [Field(2, true), Field(4, true), Field(8, true), Field(8, true), Field(8, true), Field(2, true),
     Field(4, true), Field(4, true)]

  lemma {:induction false} PrefixWidth()
    ensures Width(PREFIX_FIELDS) == CRC_COVERAGE_START
  {
    var tail := [Field(1, true), Field(4, false)];
    assert PREFIX_FIELDS[1..][1..][1..] == tail;
    assert Width(tail) == 5;
    assert Width(PREFIX_FIELDS[1..]) == 13;
  }

  lemma {:induction false} CoveredWidth()
    ensures Width(COVERED_FIELDS) == HEADER_SIZE - CRC_COVERAGE_START
  {
    var last := [Field(4, true), Field(4, true)];
    assert Width(last) == 8 by { assert last[1..][1..] == []; }
    var f := COVERED_FIELDS;
    assert f[1..][1..][1..][1..][1..][1..] == last;
    assert Width(f[1..][1..][1..][1..]) == 18;
    assert Width(f[1..][1..]) == 34;
  }

  // ------------------------------------------------------------------- reading a batch

  /** None is CorruptData. */
  function ParseHeader(bytes: Bytes): Option<BatchHeader> {
    if |bytes| < HEADER_SIZE then None
    else
      PrefixWidth();
      CoveredWidth();
      var p := GetAll(bytes, PREFIX_FIELDS);
      var c := GetAll(bytes[CRC_COVERAGE_START..], COVERED_FIELDS);
      if p[3] != MAGIC_V2 || c[7] < 0 || p[1] < 0 then None
      else Some(BatchHeader(p[0], p[1], p[2], p[3], p[4], c[0], c[1], c[2], c[3], c[4], c[5], c[6], c[7]))
  }

  function TotalSizeOf(bytes: Bytes): (total: Option<nat>)
    ensures total.Some? ==> HEADER_SIZE <= total.value
  {
    if |bytes| < UNCOUNTED then None
    else
      var length := Get(bytes[8..12], Field(4, true));
      if length < HEADER_SIZE - UNCOUNTED then None else Some(length + UNCOUNTED)
  }

  function CrcOf(covered: Bytes): (crc: nat)
    ensures crc < 0x1_0000_0000
  {
    Crc32c.Checksum(Crc32c.Octets(covered)) as nat
  }

  function ComputeCrc(bytes: Bytes): Option<nat> {
    match TotalSizeOf(bytes)
    case None => None
    case Some(total) => if |bytes| < total then None else Some(CrcOf(bytes[CRC_COVERAGE_START..total]))
  }

  function VerifyCrc(bytes: Bytes): Option<bool> {
    match ParseHeader(bytes)
    case None => None
    case Some(header) =>
      match ComputeCrc(bytes)
      case None => None
      case Some(crc) => Some(crc == header.crc)
  }

  function DecodeRecords(bytes: Bytes): Option<seq<Raw>> {
    match ParseHeader(bytes)
    case None => None
    case Some(header) =>
      if header.attributes % 8 != 0 then None
      else
        match TotalSizeOf(bytes)
        case None => None
        case Some(total) =>
          if |bytes| < total then None
          else
            match TakeRecords(bytes[HEADER_SIZE..total], header.recordCount)
            case None => None
            case Some((rs, _)) => Some(rs)
  }

  // ------------------------------------------------------------------ writing a batch

  ghost predicate Ascending(rs: seq<Raw>) {
    forall i, j :: 0 <= i < j < |rs| ==> rs[i].offsetDelta < rs[j].offsetDelta
  }

  /** What a batch must satisfy to have an encoding: deltas in order from zero, every size in its field. */
  ghost predicate Encodable(rs: seq<Raw>, first: int, max: int) {
    && 0 < |rs| && FitsRaws(rs) && Ascending(rs) && 0 <= rs[0].offsetDelta
    && Varint.FitsSigned(first, Varint.W64) && Varint.FitsSigned(max, Varint.W64)
    && FitsLength(|rs|) && FitsLength(HEADER_SIZE + |PutRecords(rs)|)
  }

  lemma {:induction false} Spans()
    ensures Span(1) == 0x100 && Span(2) == 0x1_0000 && Span(4) == 0x1_0000_0000
    ensures Span(8) == 0x1_0000_0000_0000_0000
  {
    assert Span(3) == 0x100_0000;
    assert Span(5) == 0x100_0000_0000;
    assert Span(6) == 0x1_0000_0000_0000;
    assert Span(7) == 0x100_0000_0000_0000;
  }

  function CoveredValues(lastDelta: int, first: int, max: int, count: int): seq<int> {
    [0, lastDelta, first, max, -1, -1, -1, count]
  }

  lemma {:induction false} CoveredFit(lastDelta: int, first: int, max: int, count: int)
    requires Varint.FitsSigned(lastDelta, Varint.W32) && Varint.FitsSigned(count, Varint.W32)
    requires Varint.FitsSigned(first, Varint.W64) && Varint.FitsSigned(max, Varint.W64)
    ensures AllFit(CoveredValues(lastDelta, first, max, count), COVERED_FIELDS)
  {
    Spans();
    var vs := CoveredValues(lastDelta, first, max, count);
    forall i | 0 <= i < 8 ensures Fits(vs[i], COVERED_FIELDS[i]) {
      assert i == 0 || i == 1 || i == 2 || i == 3 || i == 4 || i == 5 || i == 6 || i == 7;
    }
  }

  function PrefixValues(covered: Bytes): seq<int> {
    [0, CRC_COVERAGE_START + |covered| - UNCOUNTED, NO_EPOCH, MAGIC_V2, CrcOf(covered)]
  }

  lemma {:induction false} PrefixFit(covered: Bytes)
    requires FitsLength(CRC_COVERAGE_START + |covered|)
    ensures AllFit(PrefixValues(covered), PREFIX_FIELDS)
  {
    Spans();
  }

  /** The uncovered prefix for these covered bytes, ahead of them. */
  function Assemble(covered: Bytes): (b: Bytes)
    requires FitsLength(CRC_COVERAGE_START + |covered|)
    ensures |b| == CRC_COVERAGE_START + |covered|
  {
    PrefixFit(covered);
    PrefixWidth();
    PutAll(PrefixValues(covered), PREFIX_FIELDS) + covered
  }

  function CoveredHead(lastDelta: int, first: int, max: int, count: int): (s: Bytes)
    requires Varint.FitsSigned(lastDelta, Varint.W32) && Varint.FitsSigned(count, Varint.W32)
    requires Varint.FitsSigned(first, Varint.W64) && Varint.FitsSigned(max, Varint.W64)
    ensures |s| == HEADER_SIZE - CRC_COVERAGE_START
  {
    CoveredFit(lastDelta, first, max, count);
    CoveredWidth();
    PutAll(CoveredValues(lastDelta, first, max, count), COVERED_FIELDS)
  }

  ghost function Covered(rs: seq<Raw>, first: int, max: int): (s: Bytes)
    requires Encodable(rs, first, max)
    ensures |s| == HEADER_SIZE - CRC_COVERAGE_START + |PutRecords(rs)|
  {
    assert FitsRaw(rs[|rs| - 1]);
    CoveredHead(rs[|rs| - 1].offsetDelta, first, max, |rs|) + PutRecords(rs)
  }

  /** The batch a builder holding these records builds. */
  ghost function EncodeBatch(rs: seq<Raw>, first: int, max: int): (b: Bytes)
    requires Encodable(rs, first, max)
    ensures |b| == HEADER_SIZE + |PutRecords(rs)|
  {
    Assemble(Covered(rs, first, max))
  }

  // ------------------------------------------------------------------- the round trip

  lemma {:induction false} LengthIsSecondField(bytes: Bytes)
    requires CRC_COVERAGE_START <= |bytes| && Width(PREFIX_FIELDS) == CRC_COVERAGE_START
    ensures GetAll(bytes, PREFIX_FIELDS)[1] == Get(bytes[8..12], Field(4, true))
  {
    var tail := GetAll(bytes[8..], PREFIX_FIELDS[1..]);
    assert GetAll(bytes, PREFIX_FIELDS)[1] == tail[0];
    assert bytes[8..][..4] == bytes[8..12];
  }

  lemma {:induction false} PrefixSlices(p: Bytes, covered: Bytes, rest: Bytes)
    ensures var b := p + covered;
            && b + rest == p + (covered + rest)
            && (b + rest)[|p|..|b|] == covered
            && (b + rest)[|p|..] == covered + rest
  {
  }

  lemma {:induction false} TotalFrom(bytes: Bytes, total: nat)
    requires CRC_COVERAGE_START <= |bytes| && Width(PREFIX_FIELDS) == CRC_COVERAGE_START
    requires GetAll(bytes, PREFIX_FIELDS)[1] == total - UNCOUNTED && HEADER_SIZE <= total
    ensures TotalSizeOf(bytes) == Some(total)
  {
    LengthIsSecondField(bytes);
  }

  /** Reading back the part of a batch the checksum does not cover. */
  lemma {:induction false} AssembleReads(covered: Bytes, rest: Bytes)
    requires FitsLength(CRC_COVERAGE_START + |covered|) && HEADER_SIZE - CRC_COVERAGE_START <= |covered|
    ensures Width(PREFIX_FIELDS) == CRC_COVERAGE_START
    ensures var b := Assemble(covered);
            && GetAll(b + rest, PREFIX_FIELDS) == PrefixValues(covered)
            && TotalSizeOf(b + rest) == Some(|b|)
            && (b + rest)[CRC_COVERAGE_START..|b|] == covered
            && (b + rest)[CRC_COVERAGE_START..] == covered + rest
  {
    PrefixWidth();
    PrefixFit(covered);
    var b := Assemble(covered);
    PrefixSlices(PutAll(PrefixValues(covered), PREFIX_FIELDS), covered, rest);
    PutAllGetAll(PrefixValues(covered), PREFIX_FIELDS, covered + rest);
    TotalFrom(b + rest, |b|);
  }

  lemma {:induction false} HeadReads(lastDelta: int, first: int, max: int, count: int, rest: Bytes)
    requires Varint.FitsSigned(lastDelta, Varint.W32) && Varint.FitsSigned(count, Varint.W32)
    requires Varint.FitsSigned(first, Varint.W64) && Varint.FitsSigned(max, Varint.W64)
    ensures Width(COVERED_FIELDS) == HEADER_SIZE - CRC_COVERAGE_START
    ensures GetAll(CoveredHead(lastDelta, first, max, count) + rest, COVERED_FIELDS)
         == CoveredValues(lastDelta, first, max, count)
  {
    CoveredWidth();
    CoveredFit(lastDelta, first, max, count);
    PutAllGetAll(CoveredValues(lastDelta, first, max, count), COVERED_FIELDS, rest);
  }

  /** A header's fields, from the two runs it is read in. */
  function HeaderOf(p: seq<int>, c: seq<int>): BatchHeader
    requires |p| == 5 && |c| == 8
  {
    BatchHeader(p[0], p[1], p[2], p[3], p[4], c[0], c[1], c[2], c[3], c[4], c[5], c[6], c[7])
  }

  lemma {:induction false} ParsesAs(bytes: Bytes, p: seq<int>, c: seq<int>)
    requires HEADER_SIZE <= |bytes|
    requires Width(PREFIX_FIELDS) == CRC_COVERAGE_START && Width(COVERED_FIELDS) == HEADER_SIZE - CRC_COVERAGE_START
    requires p == GetAll(bytes, PREFIX_FIELDS) && c == GetAll(bytes[CRC_COVERAGE_START..], COVERED_FIELDS)
    requires p[3] == MAGIC_V2 && 0 <= c[7] && 0 <= p[1]
    ensures ParseHeader(bytes) == Some(HeaderOf(p, c))
  {
  }

  lemma {:induction false} HeaderRoundTrip(lastDelta: int, first: int, max: int, count: nat, body: Bytes, rest: Bytes)
    requires Varint.FitsSigned(lastDelta, Varint.W32) && Varint.FitsSigned(count, Varint.W32)
    requires Varint.FitsSigned(first, Varint.W64) && Varint.FitsSigned(max, Varint.W64)
    requires FitsLength(HEADER_SIZE + |body|)
    ensures var covered := CoveredHead(lastDelta, first, max, count) + body;
            var b := Assemble(covered);
            && ParseHeader(b + rest)
               == Some(HeaderOf(PrefixValues(covered), CoveredValues(lastDelta, first, max, count)))
            && TotalSizeOf(b + rest) == Some(|b|)
            && (b + rest)[CRC_COVERAGE_START..|b|] == covered
            && (b + rest)[HEADER_SIZE..|b|] == body
  {
    var head := CoveredHead(lastDelta, first, max, count);
    var covered := head + body;
    var b := Assemble(covered);
    AssembleReads(covered, rest);
    PrefixSlices(head, body, rest);
    HeadReads(lastDelta, first, max, count, body + rest);
    ParsesAs(b + rest, PrefixValues(covered), CoveredValues(lastDelta, first, max, count));
    BodySlice(b + rest, head, body, |b|);
  }

  lemma {:induction false} BodySlice(bytes: Bytes, head: Bytes, body: Bytes, total: nat)
    requires |head| == HEADER_SIZE - CRC_COVERAGE_START && HEADER_SIZE <= total <= |bytes|
    requires bytes[CRC_COVERAGE_START..total] == head + body
    ensures bytes[HEADER_SIZE..total] == body
  {
    assert bytes[HEADER_SIZE..total] == bytes[CRC_COVERAGE_START..total][|head|..];
  }

  lemma {:induction false} ChecksOut(bytes: Bytes, header: BatchHeader, total: nat)
    requires ParseHeader(bytes) == Some(header) && TotalSizeOf(bytes) == Some(total) && total <= |bytes|
    requires header.crc == CrcOf(bytes[CRC_COVERAGE_START..total])
    ensures VerifyCrc(bytes) == Some(true)
  {
  }

  lemma {:induction false} DecodesTo(bytes: Bytes, header: BatchHeader, total: nat, rs: seq<Raw>)
    requires ParseHeader(bytes) == Some(header) && TotalSizeOf(bytes) == Some(total) && total <= |bytes|
    requires header.attributes == 0 && header.recordCount == |rs|
    requires TakeRecords(bytes[HEADER_SIZE..total], |rs|) == Some((rs, []))
    ensures DecodeRecords(bytes) == Some(rs)
  {
  }

  lemma {:induction false} TakesWhole(rs: seq<Raw>)
    requires FitsRaws(rs)
    ensures TakeRecords(PutRecords(rs), |rs|) == Some((rs, []))
  {
    TakePutRecords(rs, []);
    assert PutRecords(rs) + [] == PutRecords(rs);
  }

  /**
   Whatever follows it, a built batch says how long it is, passes its checksum, and decodes to the
   records it was built from: nulls and empties apart, holes in the offsets kept.
   */
  lemma {:induction false} BatchRoundTrip(rs: seq<Raw>, first: int, max: int, rest: Bytes)
    requires Encodable(rs, first, max)
    ensures var b := EncodeBatch(rs, first, max);
            && TotalSizeOf(b + rest) == Some(|b|)
            && VerifyCrc(b + rest) == Some(true)
            && DecodeRecords(b + rest) == Some(rs)
  {
    assert FitsRaw(rs[|rs| - 1]);
    var b := EncodeBatch(rs, first, max);
    var lastDelta := rs[|rs| - 1].offsetDelta;
    var covered := Covered(rs, first, max);
    var header := HeaderOf(PrefixValues(covered), CoveredValues(lastDelta, first, max, |rs|));
    HeaderRoundTrip(lastDelta, first, max, |rs|, PutRecords(rs), rest);
    TakesWhole(rs);
    ChecksOut(b + rest, header, |b|);
    DecodesTo(b + rest, header, |b|, rs);
  }
}
