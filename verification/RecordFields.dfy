/** The records inside a v2 batch: Apache Kafka documentation, section 5.3.2 "Record". */
module RecordFields {
  // Decoders take a suffix of the input and return what they read with the suffix they leave.

  import opened Prelude
  import opened Records
  import Varint

  /** A record as the batch holds it: offset and timestamp relative to the batch's own. */
  datatype Raw = Raw(
    attributes: byte,
    timestampDelta: int,
    offsetDelta: int,
    key: Option<Bytes>,
    value: Option<Bytes>,
    headers: seq<Header>)

  // ------------------------------------------------------------ one record, out and in

  predicate FitsLength(n: nat) { Varint.FitsSigned(n, Varint.W32) }

  function PutVarint(v: int): Bytes
    requires Varint.FitsSigned(v, Varint.W32)
  {
    Varint.EncodeSigned(v, Varint.W32)
  }

  function TakeVarint(s: Bytes, w: Varint.Width): (r: Option<(int, Bytes)>)
    ensures r.Some? ==> |r.value.1| < |s|
  {
    match Varint.DecodeSigned(s, w)
    case None => None
    case Some((v, n)) => Some((v, s[n..]))
  }

  lemma {:induction false} TakePut(v: int, w: Varint.Width, rest: Bytes)
    requires Varint.FitsSigned(v, w)
    ensures TakeVarint(Varint.EncodeSigned(v, w) + rest, w) == Some((v, rest))
  {
    var e := Varint.EncodeSigned(v, w);
    Varint.SignedRoundTrip(v, w, rest);
    assert (e + rest)[|e|..] == rest;
  }

  function TakeBytes(s: Bytes, n: nat): (r: Option<(Bytes, Bytes)>)
    ensures r.Some? ==> |r.value.1| <= |s|
  {
    if |s| < n then None else Some((s[..n], s[n..]))
  }

  predicate FitsNullable(v: Option<Bytes>) { v.Some? ==> FitsLength(|v.value|) }

  /** Null is length -1, empty is length 0. */
  function PutNullable(v: Option<Bytes>): Bytes
    requires FitsNullable(v)
  {
    match v
    case None => PutVarint(-1)
    case Some(b) => PutVarint(|b|) + b
  }

  function TakeNullable(s: Bytes): (r: Option<(Option<Bytes>, Bytes)>)
    ensures r.Some? ==> |r.value.1| < |s|
  {
    match TakeVarint(s, Varint.W32)
    case None => None
    case Some((length, rest)) =>
      if length == -1 then Some((None, rest))
      else if length < 0 then None
      else
        match TakeBytes(rest, length)
        case None => None
        case Some((b, rest')) => Some((Some(b), rest'))
  }

  lemma {:induction false} TakePutNullable(v: Option<Bytes>, rest: Bytes)
    requires FitsNullable(v)
    ensures TakeNullable(PutNullable(v) + rest) == Some((v, rest))
  {
    match v
    case None => TakePut(-1, Varint.W32, rest);
    case Some(b) =>
      TakePut(|b|, Varint.W32, b + rest);
      assert PutVarint(|b|) + b + rest == PutVarint(|b|) + (b + rest);
      assert (b + rest)[..|b|] == b && (b + rest)[|b|..] == rest;
  }

  predicate FitsHeader(h: Header) { FitsLength(|h.key|) && FitsNullable(h.value) }

  function PutHeader(h: Header): Bytes
    requires FitsHeader(h)
  {
    PutVarint(|h.key|) + h.key + PutNullable(h.value)
  }

  /** A header key may be empty but never null. */
  function TakeHeader(s: Bytes): (r: Option<(Header, Bytes)>)
    ensures r.Some? ==> |r.value.1| < |s|
  {
    match TakeVarint(s, Varint.W32)
    case None => None
    case Some((length, rest)) =>
      if length < 0 then None
      else
        match TakeBytes(rest, length)
        case None => None
        case Some((key, rest')) =>
          match TakeNullable(rest')
          case None => None
          case Some((value, rest'')) => Some((Header(key, value), rest''))
  }

  lemma {:induction false} TakePutHeader(h: Header, rest: Bytes)
    requires FitsHeader(h)
    ensures TakeHeader(PutHeader(h) + rest) == Some((h, rest))
  {
    var tail := PutNullable(h.value) + rest;
    assert PutHeader(h) + rest == PutVarint(|h.key|) + (h.key + tail);
    TakePut(|h.key|, Varint.W32, h.key + tail);
    assert (h.key + tail)[..|h.key|] == h.key && (h.key + tail)[|h.key|..] == tail;
    TakePutNullable(h.value, rest);
  }

  function PutHeaders(hs: seq<Header>): Bytes
    requires forall i :: 0 <= i < |hs| ==> FitsHeader(hs[i])
  {
    if hs == [] then [] else PutHeader(hs[0]) + PutHeaders(hs[1..])
  }

  function TakeHeaders(s: Bytes, count: nat): (r: Option<(seq<Header>, Bytes)>)
    ensures r.Some? ==> |r.value.1| <= |s|
    decreases count
  {
    if count == 0 then Some(([], s))
    else
      match TakeHeader(s)
      case None => None
      case Some((h, rest)) =>
        match TakeHeaders(rest, count - 1)
        case None => None
        case Some((hs, rest')) => Some(([h] + hs, rest'))
  }

  lemma {:induction false} TakePutHeaders(hs: seq<Header>, rest: Bytes)
    requires forall i :: 0 <= i < |hs| ==> FitsHeader(hs[i])
    ensures TakeHeaders(PutHeaders(hs) + rest, |hs|) == Some((hs, rest))
    decreases |hs|
  {
    if hs == [] {
      assert PutHeaders(hs) + rest == rest;
    } else {
      assert PutHeaders(hs) + rest == PutHeader(hs[0]) + (PutHeaders(hs[1..]) + rest);
      TakePutHeader(hs[0], PutHeaders(hs[1..]) + rest);
      TakePutHeaders(hs[1..], rest);
      assert [hs[0]] + hs[1..] == hs;
    }
  }

  predicate FitsFields(r: Raw) {
    && Varint.FitsSigned(r.timestampDelta, Varint.W64)
    && Varint.FitsSigned(r.offsetDelta, Varint.W32)
    && FitsNullable(r.key) && FitsNullable(r.value)
    && FitsLength(|r.headers|) && forall i :: 0 <= i < |r.headers| ==> FitsHeader(r.headers[i])
  }

  function PutFields(r: Raw): Bytes
    requires FitsFields(r)
  {
    [r.attributes] + (Varint.EncodeSigned(r.timestampDelta, Varint.W64)
    + (PutVarint(r.offsetDelta) + (PutNullable(r.key) + (PutNullable(r.value)
    + (PutVarint(|r.headers|) + PutHeaders(r.headers))))))
  }

  function TakeFields(s: Bytes): (r: Option<(Raw, Bytes)>)
    ensures r.Some? ==> |r.value.1| < |s|
  {
    if s == [] then None
    else
      match TakeVarint(s[1..], Varint.W64)
      case None => None
      case Some((timestampDelta, s1)) =>
        match TakeVarint(s1, Varint.W32)
        case None => None
        case Some((offsetDelta, s2)) => TakeKeyed(s[0], timestampDelta, offsetDelta, s2)
  }

  function TakeKeyed(attributes: byte, timestampDelta: int, offsetDelta: int, s: Bytes): (r: Option<(Raw, Bytes)>)
    ensures r.Some? ==> |r.value.1| < |s|
  {
    match TakeNullable(s)
    case None => None
    case Some((key, s3)) =>
      match TakeNullable(s3)
      case None => None
      case Some((value, s4)) => TakeRest(attributes, timestampDelta, offsetDelta, key, value, s4)
  }

  function TakeRest(
      attributes: byte, timestampDelta: int, offsetDelta: int, key: Option<Bytes>, value: Option<Bytes>, s: Bytes)
    : (r: Option<(Raw, Bytes)>)
    ensures r.Some? ==> |r.value.1| < |s|
  {
    match TakeVarint(s, Varint.W32)
    case None => None
    case Some((headerCount, s5)) =>
      if headerCount < 0 then None
      else
        match TakeHeaders(s5, headerCount)
        case None => None
        case Some((headers, s6)) => Some((Raw(attributes, timestampDelta, offsetDelta, key, value, headers), s6))
  }

  lemma {:induction false} FieldsShape(r: Raw, rest: Bytes)
    requires FitsFields(r)
    ensures PutFields(r) + rest
         == [r.attributes] + (Varint.EncodeSigned(r.timestampDelta, Varint.W64)
          + (PutVarint(r.offsetDelta) + (PutNullable(r.key) + (PutNullable(r.value)
          + (PutVarint(|r.headers|) + (PutHeaders(r.headers) + rest))))))
  {
    Reassociate([r.attributes], Varint.EncodeSigned(r.timestampDelta, Varint.W64), PutVarint(r.offsetDelta),
                PutNullable(r.key), PutNullable(r.value), PutVarint(|r.headers|), PutHeaders(r.headers), rest);
  }

  lemma {:induction false} Reassociate(
      a: Bytes, b: Bytes, c: Bytes, d: Bytes, e: Bytes, f: Bytes, g: Bytes, rest: Bytes)
    ensures (a + (b + (c + (d + (e + (f + g)))))) + rest == a + (b + (c + (d + (e + (f + (g + rest))))))
  {
    assert (e + (f + g)) + rest == e + (f + (g + rest));
    assert (c + (d + (e + (f + g)))) + rest == c + (d + ((e + (f + g)) + rest));
  }

  lemma {:induction false} TakePutFields(r: Raw, rest: Bytes)
    requires FitsFields(r)
    ensures TakeFields(PutFields(r) + rest) == Some((r, rest))
  {
    var h := PutHeaders(r.headers) + rest;
    var c := PutVarint(|r.headers|) + h;
    var v := PutNullable(r.value) + c;
    var k := PutNullable(r.key) + v;
    var o := PutVarint(r.offsetDelta) + k;
    var t := Varint.EncodeSigned(r.timestampDelta, Varint.W64) + o;
    TakePut(r.timestampDelta, Varint.W64, o);
    TakePut(r.offsetDelta, Varint.W32, k);
    TakePutNullable(r.key, v);
    TakePutNullable(r.value, c);
    TakePut(|r.headers|, Varint.W32, h);
    TakePutHeaders(r.headers, rest);
    FieldsShape(r, rest);
    TakeLast(r, c, h, rest);
    TakeMiddle(r, k, v, c, rest);
    TakeFirst(r, [r.attributes] + t, t, o, k, rest);
  }

  lemma {:induction false} TakeLast(r: Raw, c: Bytes, h: Bytes, rest: Bytes)
    requires TakeVarint(c, Varint.W32) == Some((|r.headers|, h))
    requires TakeHeaders(h, |r.headers|) == Some((r.headers, rest))
    ensures TakeRest(r.attributes, r.timestampDelta, r.offsetDelta, r.key, r.value, c) == Some((r, rest))
  {
  }

  lemma {:induction false} TakeMiddle(r: Raw, k: Bytes, v: Bytes, c: Bytes, rest: Bytes)
    requires TakeNullable(k) == Some((r.key, v))
    requires TakeNullable(v) == Some((r.value, c))
    requires TakeRest(r.attributes, r.timestampDelta, r.offsetDelta, r.key, r.value, c) == Some((r, rest))
    ensures TakeKeyed(r.attributes, r.timestampDelta, r.offsetDelta, k) == Some((r, rest))
  {
  }

  lemma {:induction false} TakeFirst(r: Raw, s: Bytes, t: Bytes, o: Bytes, k: Bytes, rest: Bytes)
    requires s == [r.attributes] + t
    requires TakeVarint(t, Varint.W64) == Some((r.timestampDelta, o))
    requires TakeVarint(o, Varint.W32) == Some((r.offsetDelta, k))
    requires TakeKeyed(r.attributes, r.timestampDelta, r.offsetDelta, k) == Some((r, rest))
    ensures TakeFields(s) == Some((r, rest))
  {
    assert s[0] == r.attributes && s[1..] == t;
  }

  predicate FitsRaw(r: Raw) { FitsFields(r) && FitsLength(|PutFields(r)|) }

  function PutRecord(r: Raw): Bytes
    requires FitsRaw(r)
  {
    PutVarint(|PutFields(r)|) + PutFields(r)
  }

  /** The record's own length prefix is the authority on where it ends. */
  function TakeRecord(s: Bytes): (r: Option<(Raw, Bytes)>)
    ensures r.Some? ==> |r.value.1| < |s|
  {
    match TakeVarint(s, Varint.W32)
    case None => None
    case Some((length, rest)) =>
      if length < 0 then None
      else
        match TakeFields(rest)
        case None => None
        case Some((raw, rest')) => if |rest| - |rest'| != length then None else Some((raw, rest'))
  }

  lemma {:induction false} TakePutRecord(r: Raw, rest: Bytes)
    requires FitsRaw(r)
    ensures TakeRecord(PutRecord(r) + rest) == Some((r, rest))
  {
    assert PutRecord(r) + rest == PutVarint(|PutFields(r)|) + (PutFields(r) + rest);
    TakePut(|PutFields(r)|, Varint.W32, PutFields(r) + rest);
    TakePutFields(r, rest);
  }

  predicate FitsRaws(rs: seq<Raw>) { forall i :: 0 <= i < |rs| ==> FitsRaw(rs[i]) }

  function PutRecords(rs: seq<Raw>): Bytes
    requires FitsRaws(rs)
  {
    if rs == [] then [] else PutRecord(rs[0]) + PutRecords(rs[1..])
  }

  lemma {:induction false} FitsRawsSnoc(rs: seq<Raw>, r: Raw)
    requires FitsRaws(rs) && FitsRaw(r)
    ensures FitsRaws(rs + [r])
  {
  }

  lemma {:induction false} PutRecordsSnoc(rs: seq<Raw>, r: Raw)
    requires FitsRaws(rs) && FitsRaw(r)
    ensures FitsRaws(rs + [r]) && PutRecords(rs + [r]) == PutRecords(rs) + PutRecord(r)
    decreases |rs|
  {
    FitsRawsSnoc(rs, r);
    var last := PutRecord(r);
    if rs == [] {
      OneRecord(r);
      assert rs + [r] == [r];
    } else {
      var head, tail := PutRecord(rs[0]), PutRecords(rs[1..]);
      PutRecordsSnoc(rs[1..], r);
      SnocTail(rs, r);
      Associate(head, tail, last);
    }
  }

  lemma {:induction false} OneRecord(r: Raw)
    requires FitsRaw(r)
    ensures PutRecords([r]) == [] + PutRecord(r)
  {
    assert [r][1..] == [];
  }

  lemma {:induction false} SnocTail<T>(xs: seq<T>, x: T)
    requires xs != []
    ensures (xs + [x])[1..] == xs[1..] + [x] && (xs + [x])[0] == xs[0]
  {
  }

  /** Takes `count` items off the front, one after another. */
  function TakeMany<T>(take: Bytes -> Option<(T, Bytes)>, s: Bytes, count: nat): (r: Option<(seq<T>, Bytes)>)
    decreases count
  {
    if count == 0 then Some(([], s))
    else
      match take(s)
      case None => None
      case Some((x, rest)) =>
        match TakeMany(take, rest, count - 1)
        case None => None
        case Some((xs, rest')) => Some(([x] + xs, rest'))
  }

  function TakeRecords(s: Bytes, count: nat): (r: Option<(seq<Raw>, Bytes)>) {
    TakeMany(TakeRecord, s, count)
  }

  lemma {:induction false} TakeNext(r: Raw, rs: seq<Raw>, here: Bytes, rest: Bytes)
    requires FitsRaw(r) && TakeRecords(here, |rs|) == Some((rs, rest))
    ensures TakeRecords(PutRecord(r) + here, |rs| + 1) == Some(([r] + rs, rest))
  {
    TakePutRecord(r, here);
  }

  lemma {:induction false} TakePutRecords(rs: seq<Raw>, rest: Bytes)
    requires FitsRaws(rs)
    ensures TakeRecords(PutRecords(rs) + rest, |rs|) == Some((rs, rest))
    decreases |rs|
  {
    if rs == [] {
      assert PutRecords(rs) + rest == rest;
    } else {
      FirstRecord(rs, rest);
      TakePutRecords(rs[1..], rest);
      TakeNext(rs[0], rs[1..], PutRecords(rs[1..]) + rest, rest);
    }
  }

  lemma {:induction false} FirstRecord(rs: seq<Raw>, rest: Bytes)
    requires FitsRaws(rs) && rs != []
    ensures PutRecords(rs) + rest == PutRecord(rs[0]) + (PutRecords(rs[1..]) + rest)
    ensures [rs[0]] + rs[1..] == rs
  {
    Associate(PutRecord(rs[0]), PutRecords(rs[1..]), rest);
  }
}
