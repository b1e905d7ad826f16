/**
 The code that builds and takes apart batches, step by step, against the encodings of the
 record batch and of the records inside.
 */
module BatchBuilder {
  import opened Prelude
  import opened Records
  import opened Buffer
  import opened RecordFields
  import opened RecordBatch
  import Varint

  class RecordBatchBuilder {
    var records: Bytes
    var count: nat
    var firstTimestamp: int
    var maxTimestamp: int
    var lastDelta: int

    /** Everything appended so far. */
    ghost var raws: seq<Raw>

    ghost predicate Valid()
      reads `raws, `records, `count, `lastDelta
    {
      Coherent(raws, records, count, lastDelta)
    }

    constructor ()
      ensures Valid() && raws == []
    {
      records, count, firstTimestamp, maxTimestamp, lastDelta := [], 0, 0, 0, -1;
      raws := [];
    }

    /** A producer's records are numbered 0, 1, 2. */
    method Append(timestamp: int, key: Option<Bytes>, value: Option<Bytes>, headers: seq<Header>)
      returns (ok: bool)
      requires Valid()
      requires FitsRaw(Raw(0, if raws == [] then 0 else timestamp - firstTimestamp, count, key, value, headers))
      modifies this
      ensures Valid()
      ensures ok <==> old(lastDelta) < old(count)
      ensures ok ==> raws == old(raws) + [Raw(0, timestamp - firstTimestamp, old(count), key, value, headers)]
      ensures !ok ==> unchanged(this)
    {
      ok := AppendAt(count, timestamp, key, value, headers);
    }

    /** A cleaner's records keep their distances. Refused exactly when the delta does not advance. */
    method AppendAt(
        offsetDelta: int, timestamp: int, key: Option<Bytes>, value: Option<Bytes>, headers: seq<Header>)
      returns (ok: bool)
      requires Valid()
      requires lastDelta < offsetDelta ==>
                 FitsRaw(Raw(0, if raws == [] then 0 else timestamp - firstTimestamp, offsetDelta, key, value, headers))
      modifies this
      ensures Valid()
      ensures ok <==> old(lastDelta) < offsetDelta
      ensures ok ==> raws == old(raws) + [Raw(0, timestamp - firstTimestamp, offsetDelta, key, value, headers)]
      ensures ok ==> firstTimestamp == if old(raws) == [] then timestamp else old(firstTimestamp)
      ensures ok ==> maxTimestamp == if old(raws) == [] then timestamp else Max(old(maxTimestamp), timestamp)
      ensures !ok ==> unchanged(this)
    {
      if offsetDelta <= lastDelta { return false; }
      assert count == |raws|;
      ghost var raw := Raw(0, if raws == [] then 0 else timestamp - firstTimestamp, offsetDelta, key, value, headers);
      assert FitsRaw(raw);
      NoteTimestamp(timestamp);
      assert raw.timestampDelta == timestamp - firstTimestamp;
      Push(Raw(0, timestamp - firstTimestamp, offsetDelta, key, value, headers));
      return true;
    }

    /** The first record's timestamp is the base the others are deltas from. */
    method NoteTimestamp(timestamp: int)
      requires count == |raws|
      modifies this`firstTimestamp, this`maxTimestamp
      ensures firstTimestamp == if raws == [] then timestamp else old(firstTimestamp)
      ensures maxTimestamp == if raws == [] then timestamp else Max(old(maxTimestamp), timestamp)
    {
      if count == 0 {
        firstTimestamp, maxTimestamp := timestamp, timestamp;
      } else if timestamp > maxTimestamp {
        maxTimestamp := timestamp;
      }
    }

    method Push(raw: Raw)
      requires Valid() && FitsRaw(raw) && lastDelta < raw.offsetDelta
      modifies this`records, this`lastDelta, this`count, this`raws
      ensures Valid() && raws == old(raws) + [raw]
    {
      AppendFacts(raws, records, count, lastDelta, raw);
      var encoded := EncodeInto(raw);
      records := records + encoded;
      lastDelta := raw.offsetDelta;
      count := count + 1;
      raws := raws + [raw];
    }

    /** Length and checksum are written as zeroes and patched once the bytes they describe exist. */
    method Build() returns (built: Option<Bytes>)
      requires Valid()
      requires raws != [] ==> Encodable(raws, firstTimestamp, maxTimestamp)
      ensures built.None? <==> raws == []
      ensures built.Some? ==> built.value == EncodeBatch(raws, firstTimestamp, maxTimestamp)
    {
      if count == 0 { return None; }
      LastFits(raws, firstTimestamp, maxTimestamp);
      var covered := CoveredHead(lastDelta, firstTimestamp, maxTimestamp, count) + records;
      var length := CRC_COVERAGE_START + |covered| - UNCOUNTED;
      var crc := CrcOf(covered);
      BlanksFit();
      PrefixFit(covered);
      var out := PutAll([0, 0, NO_EPOCH, MAGIC_V2, 0], PREFIX_FIELDS) + covered;
      PatchesMakePrefix(covered, length, crc);
      out := out[..8] + Put(length, Field(4, true)) + out[12..];
      out := out[..17] + Put(crc, Field(4, false)) + out[21..];
      return Some(out);
    }
  }

  /** The record's fields go into scratch first: its length prefix is only known once they exist. */
  method EncodeInto(raw: Raw) returns (encoded: Bytes)
    requires FitsRaw(raw)
    ensures encoded == PutRecord(raw)
  {
    var scratch := PutFields(raw);
    encoded := PutVarint(|scratch|) + scratch;
  }

  ghost predicate Coherent(raws: seq<Raw>, records: Bytes, count: nat, lastDelta: int) {
    && count == |raws|
    && FitsRaws(raws) && records == PutRecords(raws)
    && lastDelta == (if raws == [] then -1 else raws[|raws| - 1].offsetDelta)
    && Ascending(raws) && (raws != [] ==> 0 <= raws[0].offsetDelta)
  }

  lemma {:induction false} AppendFacts(raws: seq<Raw>, records: Bytes, count: nat, lastDelta: int, raw: Raw)
    requires Coherent(raws, records, count, lastDelta) && FitsRaw(raw) && lastDelta < raw.offsetDelta
    ensures Coherent(raws + [raw], records + PutRecord(raw), count + 1, raw.offsetDelta)
  {
    AscendingSnoc(raws, raw);
    PutRecordsSnoc(raws, raw);
  }

  lemma {:induction false} AscendingSnoc(rs: seq<Raw>, r: Raw)
    requires Ascending(rs) && (rs != [] ==> rs[|rs| - 1].offsetDelta < r.offsetDelta)
    ensures Ascending(rs + [r])
  {
    var all := rs + [r];
    forall i, j | 0 <= i < j < |all| ensures all[i].offsetDelta < all[j].offsetDelta {
      if j == |rs| { assert i < |rs| - 1 ==> rs[i].offsetDelta < rs[|rs| - 1].offsetDelta; }
    }
  }

  lemma {:induction false} LastFits(rs: seq<Raw>, first: int, max: int)
    requires Encodable(rs, first, max)
    ensures Varint.FitsSigned(rs[|rs| - 1].offsetDelta, Varint.W32)
  {
    assert FitsRaw(rs[|rs| - 1]);
  }

  lemma {:induction false} BlanksFit()
    ensures AllFit([0, 0, NO_EPOCH, MAGIC_V2, 0], PREFIX_FIELDS)
  {
    Spans();
  }

  /** The prefix, written out field by field. */
  lemma {:induction false} PrefixSpelled(vs: seq<int>)
    requires AllFit(vs, PREFIX_FIELDS)
    ensures PutAll(vs, PREFIX_FIELDS)
         == Put(vs[0], Field(8, true)) + (Put(vs[1], Field(4, true)) + (Put(vs[2], Field(4, true))
          + (Put(vs[3], Field(1, true)) + Put(vs[4], Field(4, false)))))
  {
    var f := PREFIX_FIELDS;
    assert f[1..] == [f[1], f[2], f[3], f[4]] && vs[1..] == [vs[1], vs[2], vs[3], vs[4]];
    assert f[1..][1..] == [f[2], f[3], f[4]] && vs[1..][1..] == [vs[2], vs[3], vs[4]];
    assert [f[2], f[3], f[4]][1..] == [f[3], f[4]] && [vs[2], vs[3], vs[4]][1..] == [vs[3], vs[4]];
    assert [f[3], f[4]][1..] == [f[4]] && [vs[3], vs[4]][1..] == [vs[4]];
    assert [f[4]][1..] == [] && [vs[4]][1..] == [];
    assert PutAll([vs[4]], [f[4]]) == Put(vs[4], f[4]);
    assert PutAll([vs[3], vs[4]], [f[3], f[4]]) == Put(vs[3], f[3]) + Put(vs[4], f[4]);
    assert PutAll([vs[2], vs[3], vs[4]], [f[2], f[3], f[4]]) == Put(vs[2], f[2]) + (Put(vs[3], f[3]) + Put(vs[4], f[4]));
  }

  lemma {:induction false} PatchSlices(a: Bytes, b: Bytes, c: Bytes, d: Bytes, e: Bytes, tail: Bytes, b': Bytes, e': Bytes)
    requires |a| == 8 && |b| == |b'| == 4 && |c| == 4 && |d| == 1 && |e| == |e'| == 4
    ensures var out := a + (b + (c + (d + e))) + tail;
            var out1 := out[..8] + b' + out[12..];
            var out2 := out1[..17] + e' + out1[21..];
            out2 == a + (b' + (c + (d + e'))) + tail
  {
    var out := a + (b + (c + (d + e))) + tail;
    var out1 := out[..8] + b' + out[12..];
    assert out1 == a + (b' + (c + (d + e))) + tail;
  }

  lemma {:induction false} PatchesMakePrefix(covered: Bytes, length: int, crc: int)
    requires FitsLength(CRC_COVERAGE_START + |covered|)
    requires length == CRC_COVERAGE_START + |covered| - UNCOUNTED && crc == CrcOf(covered)
    requires AllFit([0, 0, NO_EPOCH, MAGIC_V2, 0], PREFIX_FIELDS)
    ensures Fits(length, Field(4, true)) && Fits(crc, Field(4, false))
    ensures |PutAll([0, 0, NO_EPOCH, MAGIC_V2, 0], PREFIX_FIELDS)| == CRC_COVERAGE_START
    ensures var out := PutAll([0, 0, NO_EPOCH, MAGIC_V2, 0], PREFIX_FIELDS) + covered;
            var out1 := out[..8] + Put(length, Field(4, true)) + out[12..];
            out1[..17] + Put(crc, Field(4, false)) + out1[21..] == Assemble(covered)
  {
    Spans();
    PrefixWidth();
    PrefixFit(covered);
    PrefixSpelled([0, 0, NO_EPOCH, MAGIC_V2, 0]);
    PrefixSpelled(PrefixValues(covered));
    PatchSlices(Put(0, Field(8, true)), Put(0, Field(4, true)), Put(NO_EPOCH, Field(4, true)),
                Put(MAGIC_V2, Field(1, true)), Put(0, Field(4, false)), covered,
                Put(length, Field(4, true)), Put(crc, Field(4, false)));
  }

  function Extend<T>(xs: seq<T>, later: Option<(seq<T>, Bytes)>): Option<(seq<T>, Bytes)> {
    match later
    case None => None
    case Some((more, rest)) => Some((xs + more, rest))
  }

  lemma {:induction false} ExtendStep<T>(take: Bytes -> Option<(T, Bytes)>, xs: seq<T>, rest: Bytes, n: nat)
    requires 0 < n
    ensures take(rest).None? ==> TakeMany(take, rest, n) == None
    ensures take(rest).Some? ==>
              Extend(xs, TakeMany(take, rest, n))
              == Extend(xs + [take(rest).value.0], TakeMany(take, take(rest).value.1, n - 1))
  {
    if take(rest).Some? {
      var x := take(rest).value.0;
      var later := TakeMany(take, take(rest).value.1, n - 1);
      if later.Some? { assert xs + ([x] + later.value.0) == (xs + [x]) + later.value.0; }
    }
  }

  /** The decoding loop: one item at a time off the front of the body. */
  method TakeAll<T>(take: Bytes -> Option<(T, Bytes)>, body: Bytes, count: nat) returns (r: Option<seq<T>>)
    ensures TakeMany(take, body, count).None? ==> r == None
    ensures TakeMany(take, body, count).Some? ==> r == Some(TakeMany(take, body, count).value.0)
  {
    var xs: seq<T> := [];
    var rest := body;
    ghost var whole := TakeMany(take, body, count);
    if whole.Some? { assert [] + whole.value.0 == whole.value.0; }
    var i := 0;
    while i < count
      invariant i <= count && whole == Extend(xs, TakeMany(take, rest, count - i))
    {
      ExtendStep(take, xs, rest, count - i);
      var next := take(rest);
      if next.None? { return None; }
      xs, rest, i := xs + [next.value.0], next.value.1, i + 1;
    }
    assert xs + [] == xs;
    return Some(xs);
  }

  method DecodeBody(body: Bytes, count: nat) returns (r: Option<seq<Raw>>)
    ensures TakeRecords(body, count).None? ==> r == None
    ensures TakeRecords(body, count).Some? ==> r == Some(TakeRecords(body, count).value.0)
  {
    r := TakeAll(TakeRecord, body, count);
  }
}
