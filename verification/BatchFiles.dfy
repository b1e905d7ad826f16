/**
 Batches laid end to end in a segment file, and what stamping one of them in place changes:
 the base offset and the leader epoch, and nothing that the checksum covers.
 */
module BatchFiles {
  import opened Prelude
  import opened Records
  import opened Buffer
  import opened RecordBatch

  // ------------------------------------------------------------------------- stamping

  const BASE_OFFSET := Field(8, true)
  const LEADER_EPOCH := Field(4, true)

  function StampBaseOffset(bytes: Bytes, offset: int): (r: Bytes)
    requires HEADER_SIZE <= |bytes| && Fits(offset, BASE_OFFSET)
    ensures |r| == |bytes|
  {
    Put(offset, BASE_OFFSET) + bytes[8..]
  }

  function StampLeaderEpoch(bytes: Bytes, epoch: int): (r: Bytes)
    requires HEADER_SIZE <= |bytes| && Fits(epoch, LEADER_EPOCH)
    ensures |r| == |bytes|
  {
    bytes[..12] + (Put(epoch, LEADER_EPOCH) + bytes[16..])
  }

  lemma {:induction false} BaseOffsetFields(bytes: Bytes, offset: int)
    requires HEADER_SIZE <= |bytes| && Fits(offset, BASE_OFFSET) && Width(PREFIX_FIELDS) == CRC_COVERAGE_START
    ensures var b := StampBaseOffset(bytes, offset);
            GetAll(b, PREFIX_FIELDS) == GetAll(bytes, PREFIX_FIELDS)[0 := offset]
  {
    var b := StampBaseOffset(bytes, offset);
    assert b[..8] == Put(offset, BASE_OFFSET) && b[8..] == bytes[8..];
    PutGet(offset, BASE_OFFSET);
  }

  lemma {:induction false} LeaderEpochFields(bytes: Bytes, epoch: int)
    requires HEADER_SIZE <= |bytes| && Fits(epoch, LEADER_EPOCH) && Width(PREFIX_FIELDS) == CRC_COVERAGE_START
    ensures var b := StampLeaderEpoch(bytes, epoch);
            GetAll(b, PREFIX_FIELDS) == GetAll(bytes, PREFIX_FIELDS)[2 := epoch]
  {
    var b := StampLeaderEpoch(bytes, epoch);
    var fs := PREFIX_FIELDS[1..][1..];
    assert b[..8] == bytes[..8];
    assert b[8..][..4] == bytes[8..][..4];
    assert b[8..][4..] == b[12..] && bytes[8..][4..] == bytes[12..];
    assert b[12..][..4] == Put(epoch, LEADER_EPOCH) && b[12..][4..] == bytes[12..][4..];
    PutGet(epoch, LEADER_EPOCH);
    assert GetAll(b[12..], fs) == GetAll(bytes[12..], fs)[0 := epoch];
    assert GetAll(b[8..], PREFIX_FIELDS[1..]) == GetAll(bytes[8..], PREFIX_FIELDS[1..])[1 := epoch];
  }

  lemma {:induction false} SameSlices(a: Bytes, b: Bytes, total: nat)
    requires |a| == |b| && HEADER_SIZE <= total <= |a| && a[CRC_COVERAGE_START..] == b[CRC_COVERAGE_START..]
    ensures a[CRC_COVERAGE_START..total] == b[CRC_COVERAGE_START..total]
    ensures a[HEADER_SIZE..total] == b[HEADER_SIZE..total]
  {
    forall i | CRC_COVERAGE_START <= i < total ensures a[i] == b[i] {
      assert a[i] == a[CRC_COVERAGE_START..][i - CRC_COVERAGE_START];
      assert b[i] == b[CRC_COVERAGE_START..][i - CRC_COVERAGE_START];
    }
  }

  lemma {:induction false} SameChecksum(a: Bytes, b: Bytes)
    requires |a| == |b| && HEADER_SIZE <= |a|
    requires a[8..12] == b[8..12] && a[CRC_COVERAGE_START..] == b[CRC_COVERAGE_START..]
    ensures TotalSizeOf(b) == TotalSizeOf(a) && ComputeCrc(b) == ComputeCrc(a)
  {
    var total := TotalSizeOf(a);
    if total.Some? && total.value <= |a| { SameSlices(a, b, total.value); }
  }

  lemma {:induction false} SameHeader(a: Bytes, b: Bytes, base: int, epoch: int)
    requires |a| == |b| && HEADER_SIZE <= |a| && Width(PREFIX_FIELDS) == CRC_COVERAGE_START
    requires a[CRC_COVERAGE_START..] == b[CRC_COVERAGE_START..]
    requires GetAll(b, PREFIX_FIELDS) == GetAll(a, PREFIX_FIELDS)[0 := base][2 := epoch]
    ensures ParseHeader(a).None? ==> ParseHeader(b).None?
    ensures ParseHeader(a).Some? ==>
              ParseHeader(b) == Some(ParseHeader(a).value.(baseOffset := base, leaderEpoch := epoch))
  {
  }

  /** Two byte strings alike but for header fields a reader of the records does not look at. */
  lemma {:induction false} SameContents(a: Bytes, b: Bytes)
    requires |a| == |b| && HEADER_SIZE <= |a|
    requires TotalSizeOf(b) == TotalSizeOf(a) && ComputeCrc(b) == ComputeCrc(a)
    requires a[CRC_COVERAGE_START..] == b[CRC_COVERAGE_START..]
    requires ParseHeader(a).None? ==> ParseHeader(b).None?
    requires ParseHeader(a).Some? ==>
               && ParseHeader(b).Some?
               && ParseHeader(b).value.crc == ParseHeader(a).value.crc
               && ParseHeader(b).value.attributes == ParseHeader(a).value.attributes
               && ParseHeader(b).value.recordCount == ParseHeader(a).value.recordCount
    ensures VerifyCrc(b) == VerifyCrc(a) && DecodeRecords(b) == DecodeRecords(a)
  {
    var total := TotalSizeOf(a);
    if total.Some? && total.value <= |a| { SameSlices(a, b, total.value); }
  }

  /** Equal from one place on, so equal from any later one. */
  lemma {:induction false} SameFrom(a: Bytes, b: Bytes, at: nat, later: nat)
    requires |a| == |b| && at + 4 <= later <= |a| && a[at..] == b[at..]
    ensures a[at..at + 4] == b[at..at + 4] && a[later..] == b[later..]
  {
    assert a[at..at + 4] == a[at..][..4] && b[at..at + 4] == b[at..][..4];
    assert a[later..] == a[at..][later - at..] && b[later..] == b[at..][later - at..];
  }

  /** Stamping a base offset changes that one header field and nothing else a reader sees. */
  lemma {:induction false} BaseOffsetOnly(bytes: Bytes, offset: int)
    requires HEADER_SIZE <= |bytes| && Fits(offset, BASE_OFFSET)
    ensures var b := StampBaseOffset(bytes, offset);
            && TotalSizeOf(b) == TotalSizeOf(bytes) && VerifyCrc(b) == VerifyCrc(bytes)
            && DecodeRecords(b) == DecodeRecords(bytes)
            && (ParseHeader(bytes).None? ==> ParseHeader(b).None?)
            && (ParseHeader(bytes).Some? ==>
                  ParseHeader(b) == Some(ParseHeader(bytes).value.(baseOffset := offset)))
  {
    var b := StampBaseOffset(bytes, offset);
    PrefixWidth();
    BaseOffsetFields(bytes, offset);
    SameFrom(bytes, b, 8, CRC_COVERAGE_START);
    var p := GetAll(bytes, PREFIX_FIELDS);
    assert p[0 := offset] == p[0 := offset][2 := p[2]];
    SameChecksum(bytes, b);
    SameHeader(bytes, b, offset, p[2]);
    SameContents(bytes, b);
  }

  /** So does stamping a leader epoch. */
  lemma {:induction false} LeaderEpochOnly(bytes: Bytes, epoch: int)
    requires HEADER_SIZE <= |bytes| && Fits(epoch, LEADER_EPOCH)
    ensures var b := StampLeaderEpoch(bytes, epoch);
            && TotalSizeOf(b) == TotalSizeOf(bytes) && VerifyCrc(b) == VerifyCrc(bytes)
            && DecodeRecords(b) == DecodeRecords(bytes)
            && (ParseHeader(bytes).None? ==> ParseHeader(b).None?)
            && (ParseHeader(bytes).Some? ==>
                  ParseHeader(b) == Some(ParseHeader(bytes).value.(leaderEpoch := epoch)))
  {
    var b := StampLeaderEpoch(bytes, epoch);
    PrefixWidth();
    LeaderEpochFields(bytes, epoch);
    assert bytes[8..12] == b[8..12];
    assert b[CRC_COVERAGE_START..] == bytes[CRC_COVERAGE_START..];
    var p := GetAll(bytes, PREFIX_FIELDS);
    assert p[2 := epoch] == p[0 := p[0]][2 := epoch];
    SameChecksum(bytes, b);
    SameHeader(bytes, b, p[0], epoch);
    SameContents(bytes, b);
  }

  /** v >> 8k. */
  function ShiftRight(v: nat, k: nat): nat { if k == 0 then v else ShiftRight(v / 256, k - 1) }

  lemma {:induction false} BigEndianAt(v: nat, n: nat, i: nat)
    requires i < n
    ensures BigEndian(v, n)[i] as int == ShiftRight(v, n - 1 - i) % 256
    decreases n
  {
    if i < n - 1 { BigEndianAt(v / 256, n - 1, i); }
  }

  /** The broker's write to a producer's bytes, in place; refused if they do not hold a header. */
  method StampInPlace(bytes: array<byte>, offset: int) returns (ok: bool)
    requires Fits(offset, BASE_OFFSET)
    modifies bytes
    ensures ok <==> HEADER_SIZE <= bytes.Length
    ensures bytes[..] == if ok then StampBaseOffset(old(bytes[..]), offset) else old(bytes[..])
  {
    if bytes.Length < HEADER_SIZE { return false; }
    Spans();
    var raw := if offset < 0 then offset + 0x1_0000_0000_0000_0000 else offset;
    for i := 0 to 8
      invariant forall k :: 0 <= k < i ==> bytes[k] == BigEndian(raw, 8)[k]
      invariant forall k :: i <= k < bytes.Length ==> bytes[k] == old(bytes[k])
    {
      BigEndianAt(raw, 8, i);
      bytes[i] := (ShiftRight(raw, 7 - i) % 256) as byte;
    }
    assert Put(offset, BASE_OFFSET) == BigEndian(raw, 8);
    return true;
  }
}
