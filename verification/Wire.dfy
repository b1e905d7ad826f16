/**
 BufferWriter and BufferReader, and the strings and counts that are written and read with them.
 A reader never moves past a field it could not read.
 */
module Wire {
  import opened Prelude
  import opened Buffer

  const INT16 := Field(2, true)
  const INT32 := Field(4, true)
  const INT64 := Field(8, true)

  /** A value shifted right by n bytes. */
  function Shifted(v: nat, n: nat): nat { if n == 0 then v else Shifted(v, n - 1) / 256 }

  class BufferWriter {
    var bytes: Bytes
    var taken: bool

    constructor ()
      ensures bytes == [] && !taken
    {
      bytes, taken := [], false;
    }

    /** One fixed-width field, high byte first; a spent writer refuses. */
    method Write(v: int, f: Field) returns (ok: bool)
      requires Fits(v, f)
      modifies this
      ensures taken == old(taken) && ok == !taken
      ensures bytes == if ok then old(bytes) + Put(v, f) else old(bytes)
    {
      if taken { return false; }
      var raw: nat := if v < 0 then v + Span(f.width) else v;
      var k: nat := f.width;
      ghost var start := bytes;
      assert start + [] == start;
      while 0 < k
        invariant k <= f.width && taken == old(taken)
        invariant bytes == start + BigEndian(Shifted(raw, k), f.width - k)
      {
        k := k - 1;
        assert start + (BigEndian(Shifted(raw, k + 1), f.width - k - 1) + [(Shifted(raw, k) % 256) as byte])
            == (start + BigEndian(Shifted(raw, k + 1), f.width - k - 1)) + [(Shifted(raw, k) % 256) as byte];
        bytes := bytes + [(Shifted(raw, k) % 256) as byte];
      }
      assert Shifted(raw, 0) == raw;
      return true;
    }

    method WriteBytes(s: Bytes) returns (ok: bool)
      modifies this
      ensures taken == old(taken) && ok == !taken
      ensures bytes == if ok then old(bytes) + s else old(bytes)
    {
      if taken { return false; }
      bytes := bytes + s;
      return true;
    }

    /** Overwrites a field already written, and nothing beside it. */
    method Patch(at: nat, v: int, f: Field) returns (ok: bool)
      requires Fits(v, f)
      modifies this
      ensures taken == old(taken) && ok == (!taken && at + f.width <= |old(bytes)|)
      ensures !ok ==> bytes == old(bytes)
      ensures ok ==> bytes == old(bytes)[..at] + Put(v, f) + old(bytes)[at + f.width..]
    {
      if taken || |bytes| < at + f.width { return false; }
      bytes := bytes[..at] + Put(v, f) + bytes[at + f.width..];
      return true;
    }

    /** Hands the bytes over and ends the writer's life. */
    method Take() returns (out: Option<Bytes>)
      modifies this
      ensures taken
      ensures out == if old(taken) then None else Some(old(bytes))
    {
      if taken { return None; }
      taken := true;
      return Some(bytes);
    }
  }

  // ------------------------------------------------------------------------ the reader

  function TakeInt(s: Bytes, f: Field): (r: Option<(int, Bytes)>)
    ensures r.Some? <==> f.width <= |s|
    ensures r.Some? ==> |r.value.1| == |s| - f.width
  {
    if |s| < f.width then None else Some((Get(s[..f.width], f), s[f.width..]))
  }

  lemma {:induction false} TakePutInt(v: int, f: Field, rest: Bytes)
    requires Fits(v, f)
    ensures TakeInt(Put(v, f) + rest, f) == Some((v, rest))
  {
    var s := Put(v, f) + rest;
    assert s[..f.width] == Put(v, f) && s[f.width..] == rest;
    PutGet(v, f);
  }

  class BufferReader {
    const data: Bytes
    var position: nat

    ghost predicate Valid()
      reads this
    {
      position <= |data|
    }

    function Rest(): Bytes
      requires Valid()
      reads this
    {
      data[position..]
    }

    constructor (data: Bytes)
      ensures Valid() && this.data == data && Rest() == data
    {
      this.data, position := data, 0;
    }

    /** One fixed-width field; None is a buffer that ends early, and moves nothing. */
    method Read(f: Field) returns (v: Option<int>)
      requires Valid()
      modifies this
      ensures Valid()
      ensures match TakeInt(old(Rest()), f)
              case None => v == None && Rest() == old(Rest())
              case Some((x, rest)) => v == Some(x) && Rest() == rest
    {
      if |data| - position < f.width { return None; }
      ghost var s := data[position..][..f.width];
      var u, i := 0, 0;
      while i < f.width
        invariant i <= f.width && u == FromBigEndian(s[..i])
        invariant position == old(position)
      {
        assert s[..i + 1][..i] == s[..i];
        u := 256 * u + data[position + i] as nat;
        i := i + 1;
      }
      assert s[..i] == s;
      position := position + f.width;
      return Some(if f.signed && Span(f.width) <= 2 * u then u - Span(f.width) else u);
    }

    method ReadBytes(n: nat) returns (s: Option<Bytes>)
      requires Valid()
      modifies this
      ensures Valid()
      ensures if |old(Rest())| < n then s == None && Rest() == old(Rest())
              else s == Some(old(Rest())[..n]) && Rest() == old(Rest())[n..]
    {
      if |data| - position < n { return None; }
      ghost var rest := Rest();
      position := position + n;
      assert rest[..n] == data[position - n..position] && rest[n..] == Rest();
      return Some(data[position - n..position]);
    }
  }

  // ------------------------------------------------------------- strings and array counts

  predicate Narrow(s: string) { forall i :: 0 <= i < |s| ==> s[i] as int < 256 }

  /** A string of single-byte characters. */
  type Name = s: string | Narrow(s)

  const MAX_INT16 := 32767

  function ToBytes(s: Name): (b: Bytes)
    ensures |b| == |s| && forall i :: 0 <= i < |s| ==> b[i] as int == s[i] as int
  {
    seq(|s|, i requires 0 <= i < |s| => s[i] as int as byte)
  }

  function FromBytes(b: Bytes): (s: Name)
    ensures |s| == |b| && forall i :: 0 <= i < |b| ==> s[i] as int == b[i] as int
  {
    seq(|b|, i requires 0 <= i < |b| => b[i] as int as char)
  }

  lemma {:induction false} BytesRoundTrip(s: Name)
    ensures FromBytes(ToBytes(s)) == s
  {
    var t := FromBytes(ToBytes(s));
    forall i | 0 <= i < |s| ensures t[i] == s[i] {
      assert t[i] as int == s[i] as int;
    }
  }

  function PutString(s: Name): Bytes
    requires |s| <= MAX_INT16
  {
    Put(|s|, INT16) + ToBytes(s)
  }

  /** A length of -1 is the null string and reads as empty. */
  function TakeString(s: Bytes): (r: Option<(Name, Bytes)>)
    ensures r.Some? ==> |r.value.1| < |s|
  {
    match TakeInt(s, INT16)
    case None => None
    case Some((length, rest)) =>
      if length == -1 then Some(("", rest))
      else if length < 0 || |rest| < length then None
      else Some((FromBytes(rest[..length]), rest[length..]))
  }

  lemma {:induction false} TakePutString(s: Name, rest: Bytes)
    requires |s| <= MAX_INT16
    ensures TakeString(PutString(s) + rest) == Some((s, rest))
  {
    assert PutString(s) + rest == Put(|s|, INT16) + (ToBytes(s) + rest);
    TakePutInt(|s|, INT16, ToBytes(s) + rest);
    assert (ToBytes(s) + rest)[..|s|] == ToBytes(s) && (ToBytes(s) + rest)[|s|..] == rest;
    BytesRoundTrip(s);
  }

  /** An array's count: the null array reads as empty, and one the buffer could not hold is refused. */
  function TakeCount(s: Bytes): (r: Option<(nat, Bytes)>)
    ensures r.Some? ==> |r.value.1| < |s| && r.value.0 <= |r.value.1|
  {
    match TakeInt(s, INT32)
    case None => None
    case Some((count, rest)) =>
      if count == -1 then Some((0, rest)) else if count < 0 || |rest| < count then None else Some((count, rest))
  }

  method WriteString(out: BufferWriter, s: Name) returns (ok: bool)
    modifies out
    ensures out.taken == old(out.taken)
    ensures ok <==> !out.taken && |s| <= MAX_INT16
    ensures out.bytes == if ok then old(out.bytes) + PutString(s) else old(out.bytes)
  {
    if MAX_INT16 < |s| { return false; }
    ok := out.Write(|s|, INT16);
    if !ok { return; }
    ok := out.WriteBytes(ToBytes(s));
  }

  method ReadString(input: BufferReader) returns (s: Option<Name>)
    requires input.Valid()
    modifies input
    ensures input.Valid()
    ensures match TakeString(old(input.Rest()))
            case None => s == None
            case Some((x, rest)) => s == Some(x) && input.Rest() == rest
  {
    var length := input.Read(INT16);
    if length.None? { return None; }
    if length.value < 0 { return if length.value == -1 then Some("") else None; }
    var b := input.ReadBytes(length.value);
    return if b.None? then None else Some(FromBytes(b.value));
  }

  method ReadCount(input: BufferReader) returns (n: Option<nat>)
    requires input.Valid()
    modifies input
    ensures input.Valid()
    ensures match TakeCount(old(input.Rest()))
            case None => n == None
            case Some((x, rest)) => n == Some(x) && input.Rest() == rest
  {
    var count := input.Read(INT32);
    if count.None? || count.value < -1 { return None; }
    if count.value < 0 { return Some(0); }
    return if |input.data| - input.position < count.value then None else Some(count.value);
  }
}
