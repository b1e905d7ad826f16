/** Zigzag base-128 integers, as the Protocol Buffers encoding guide has them. */
module Varint {
  // The guide's sections "Base 128 Varints" and "Signed Integers". Machine words are naturals below the
  // width's modulus; a shift by k is a product or quotient by 2^k.

  import opened Prelude

  datatype Width = W32 | W64

  function Modulus(w: Width): int {
    if w.W32? then 0x1_0000_0000 else 0x1_0000_0000_0000_0000
  }

  /** kMaxVarintBytes and kMaxVarlongBytes. */
  function MaxBytes(w: Width): nat { if w.W32? then 5 else 10 }

  predicate FitsSigned(v: int, w: Width) { -Modulus(w) / 2 <= v < Modulus(w) / 2 }

  function ToUnsigned(v: int, w: Width): nat
    requires FitsSigned(v, w)
  {
    if v < 0 then v + Modulus(w) else v
  }

  function ToSigned(u: nat, w: Width): int
    requires u < Modulus(w)
  {
    if u < Modulus(w) / 2 then u else u - Modulus(w)
  }

  /** x XOR a mask of all ones, or of all zeroes. */
  function XorMask(x: nat, ones: bool, w: Width): nat
    requires x < Modulus(w)
  {
    if ones then Modulus(w) - 1 - x else x
  }

  function Zigzag(v: int, w: Width): nat
    requires FitsSigned(v, w)
  {
    XorMask((2 * ToUnsigned(v, w)) % Modulus(w), v < 0, w)
  }

  function Unzigzag(e: nat, w: Width): int
    requires e < Modulus(w)
  {
    ToSigned(XorMask(e / 2, e % 2 == 1, w), w)
  }

  /** Shifting left by one drops the top bit. */
  lemma {:induction false} ShiftDrops(u: nat, w: Width)
    requires u < Modulus(w)
    ensures (2 * u) % Modulus(w) == if 2 * u < Modulus(w) then 2 * u else 2 * u - Modulus(w)
  {
    match w
    case W32 =>
    case W64 =>
  }

  /** Zigzag is a bijection from signed to unsigned words that keeps small magnitudes small. */
  lemma {:induction false} ZigzagInterleaves(v: int, w: Width)
    requires FitsSigned(v, w)
    ensures Zigzag(v, w) == (if v < 0 then -2 * v - 1 else 2 * v) < Modulus(w)
    ensures Unzigzag(Zigzag(v, w), w) == v
  {
    ShiftDrops(ToUnsigned(v, w), w);
    var e := if v < 0 then -2 * v - 1 else 2 * v;
    assert Zigzag(v, w) == e;
    assert e / 2 == (if v < 0 then -v - 1 else v) && (e % 2 == 1 <==> v < 0);
  }

  lemma {:induction false} UnzigzagInverts(e: nat, w: Width)
    requires e < Modulus(w)
    ensures FitsSigned(Unzigzag(e, w), w) && Zigzag(Unzigzag(e, w), w) == e
  {
    var half := e / 2;
    if e % 2 == 0 {
      assert e == 2 * half && Unzigzag(e, w) == half;
    } else {
      assert e == 2 * half + 1 && Unzigzag(e, w) == -half - 1;
    }
    ZigzagInterleaves(Unzigzag(e, w), w);
  }

  // ------------------------------------------------------------------- encoding

  /** What writeBase128 leaves in its buffer. */
  function Encode(v: nat): (s: Bytes)
    ensures 0 < |s|
  {
    if v < 128 then [v as byte] else [(v % 128 + 128) as byte] + Encode(v / 128)
  }

  method Base128Size(value: nat) returns (bytes: nat)
    ensures bytes == |Encode(value)|
  {
    var v := value;
    bytes := 1;
    while 128 <= v
      invariant bytes + |Encode(v)| == |Encode(value)| + 1
    {
      v := v / 128;
      bytes := bytes + 1;
    }
  }

  /** Fails exactly when the buffer is too short, having written only within it. */
  method WriteBase128(value: nat, out: array<byte>) returns (written: Option<nat>)
    modifies out
    ensures written.None? <==> out.Length < |Encode(value)|
    ensures written.Some? ==> written.value == |Encode(value)| && out[..written.value] == Encode(value)
    ensures written.Some? ==> forall k :: written.value <= k < out.Length ==> out[k] == old(out[k])
  {
    var v := value;
    var n: nat := 0;
    while 128 <= v
      invariant n <= out.Length
      invariant out[..n] + Encode(v) == Encode(value)
      invariant forall k :: n <= k < out.Length ==> out[k] == old(out[k])
    {
      if out.Length <= n {
        assert |out[..n] + Encode(v)| == |Encode(value)|;
        return None;
      }
      ghost var done := out[..n];
      out[n] := (v % 128 + 128) as byte;
      assert out[..n + 1] == done + [out[n]];
      assert done + ([out[n]] + Encode(v / 128)) == (done + [out[n]]) + Encode(v / 128);
      n, v := n + 1, v / 128;
    }
    if out.Length <= n {
      assert |out[..n] + Encode(v)| == |Encode(value)|;
      return None;
    }
    ghost var done := out[..n];
    out[n] := v as byte;
    assert out[..n + 1] == done + [out[n]];
    return Some(n + 1);
  }

  // ------------------------------------------------------------------- decoding

  /** How large what is left of a word can be once i groups of seven bits are gone. */
  function Limit(i: nat, w: Width): nat {
    match w
    case W32 => if i < 5 then [0x1_0000_0000, 0x200_0000, 0x4_0000, 0x800, 0x10][i] else 0
    case W64 =>
      if i < 10 then
        [0x1_0000_0000_0000_0000, 0x200_0000_0000_0000, 0x4_0000_0000_0000, 0x800_0000_0000,
         0x10_0000_0000, 0x2000_0000, 0x40_0000, 0x8000, 0x100, 0x2][i]
      else 0
  }

  /** readBase128 from the i-th byte on: the value the rest denotes, and how many bytes it took. */
  function DecodeFrom(s: Bytes, i: nat, w: Width): Option<(nat, nat)>
    decreases |s|
  {
    if s == [] || MaxBytes(w) <= i then None
    else
      var payload := s[0] as int % 128;
      if Limit(i, w) <= payload then None
      else if s[0] < 128 then Some((payload, 1))
      else
        match DecodeFrom(s[1..], i + 1, w)
        case None => None
        case Some((rest, n)) => Some((payload + 128 * rest, n + 1))
  }

  function Decode(s: Bytes, w: Width): Option<(nat, nat)> { DecodeFrom(s, 0, w) }

  /** The unbounded number a string of base-128 digits denotes. */
  function Denote(s: Bytes): nat {
    if s == [] then 0 else s[0] as int % 128 + 128 * Denote(s[1..])
  }

  /** s is one complete number: every byte but the last says more follow. */
  ghost predicate Complete(s: Bytes) {
    0 < |s| && s[|s| - 1] < 128 && forall i :: 0 <= i < |s| - 1 ==> 128 <= s[i]
  }

  lemma {:induction false} CompleteTail(s: Bytes)
    requires Complete(s) && 1 < |s|
    ensures 128 <= s[0] && Complete(s[1..])
  {
  }

  lemma {:induction false} CompleteCons(b: byte, s: Bytes)
    requires Complete(s) && 128 <= b
    ensures Complete([b] + s)
  {
  }

  lemma {:induction false} AcceptedIsComplete(s: Bytes, i: nat, w: Width)
    ensures var d := DecodeFrom(s, i, w);
            d.Some? ==>
              && 1 <= d.value.1 <= |s| && i + d.value.1 <= MaxBytes(w)
              && Complete(s[..d.value.1]) && Denote(s[..d.value.1]) == d.value.0
              && d.value.0 < Limit(i, w)
    decreases |s|
  {
    var d := DecodeFrom(s, i, w);
    if d.Some? {
      var n := d.value.1;
      if s[0] < 128 {
        assert s[..1][1..] == [];
      } else {
        AcceptedIsComplete(s[1..], i + 1, w);
        assert s[..n] == [s[0]] + s[1..][..n - 1];
        assert s[..n][1..] == s[1..][..n - 1];
        CompleteCons(s[0], s[1..][..n - 1]);
      }
    }
  }

  lemma {:induction false} LimitStep(i: nat, w: Width)
    requires i + 1 < MaxBytes(w)
    ensures Limit(i, w) == 128 * Limit(i + 1, w)
  {
  }

  lemma {:induction false} CompleteIsAccepted(s: Bytes, n: nat, i: nat, w: Width)
    requires n <= |s| && i + n <= MaxBytes(w) && Complete(s[..n]) && Denote(s[..n]) < Limit(i, w)
    ensures DecodeFrom(s, i, w) == Some((Denote(s[..n]), n))
    decreases |s|
  {
    var p := s[..n];
    assert p[0] == s[0];
    if s[0] < 128 {
      assert n == 1;
      assert p[1..] == [];
    } else {
      assert p[1..] == s[1..][..n - 1];
      CompleteTail(p);
      LimitStep(i, w);
      CompleteIsAccepted(s[1..], n - 1, i + 1, w);
    }
  }

  /**
   A byte string is accepted if and only if it begins with a complete number that is not over-long and
   fits the type, and then the value read is that number, no bits discarded.
   */
  lemma {:induction false} DecodeAcceptsExactly(s: Bytes, v: nat, n: nat, w: Width)
    ensures Decode(s, w) == Some((v, n)) <==>
            n <= |s| && n <= MaxBytes(w) && Complete(s[..n]) && Denote(s[..n]) == v && v < Modulus(w)
  {
    AcceptedIsComplete(s, 0, w);
    if n <= |s| && n <= MaxBytes(w) && Complete(s[..n]) && Denote(s[..n]) == v && v < Modulus(w) {
      CompleteIsAccepted(s, n, 0, w);
    }
  }

  lemma {:induction false} EncodeIsShort(v: nat, i: nat, w: Width)
    requires v < Limit(i, w)
    ensures i + |Encode(v)| <= MaxBytes(w)
  {
    if 128 <= v {
      LimitStep(i, w);
      EncodeIsShort(v / 128, i + 1, w);
    }
  }

  lemma {:induction false} EncodeIsComplete(v: nat)
    ensures Complete(Encode(v)) && Denote(Encode(v)) == v
  {
    if v < 128 {
      assert Encode(v)[1..] == [];
    } else {
      EncodeIsComplete(v / 128);
      assert Encode(v)[1..] == Encode(v / 128);
      CompleteCons((v % 128 + 128) as byte, Encode(v / 128));
    }
  }

  /** Signed values: encodeVarint, decodeVarint and their 64-bit twins. */
  function EncodeSigned(v: int, w: Width): Bytes
    requires FitsSigned(v, w)
  {
    Encode(Zigzag(v, w))
  }

  function DecodeSigned(s: Bytes, w: Width): (r: Option<(int, nat)>)
    ensures r.Some? ==> FitsSigned(r.value.0, w) && 1 <= r.value.1 <= |s|
  {
    AcceptedIsComplete(s, 0, w);
    match Decode(s, w)
    case None => None
    case Some((e, n)) =>
      UnzigzagInverts(e, w);
      Some((Unzigzag(e, w), n))
  }

  /** Whatever follows it, an encoded value decodes to itself, within 5 or 10 bytes. */
  lemma {:induction false} SignedRoundTrip(v: int, w: Width, rest: Bytes)
    requires FitsSigned(v, w)
    ensures DecodeSigned(EncodeSigned(v, w) + rest, w) == Some((v, |EncodeSigned(v, w)|))
    ensures |EncodeSigned(v, w)| <= MaxBytes(w)
  {
    var e := EncodeSigned(v, w);
    ZigzagInterleaves(v, w);
    EncodeIsComplete(Zigzag(v, w));
    EncodeIsShort(Zigzag(v, w), 0, w);
    assert (e + rest)[..|e|] == e;
    DecodeAcceptsExactly(e + rest, Zigzag(v, w), |e|, w);
  }

  // ------------------------------------------------------- the decoding loop itself

  function Weight(i: nat): nat { if i == 0 then 1 else 128 * Weight(i - 1) }

  function BitWidth(w: Width): nat { if w.W32? then 32 else 64 }

  function Pow2(n: nat): nat { if n == 0 then 1 else 2 * Pow2(n - 1) }

  /** payload << 7i. */
  function Shifted(payload: nat, i: nat): nat { payload * Weight(i) }

  /** What the whole decode comes to, given what was read so far and the decoding of the rest. */
  function Resume(result: nat, read: nat, rest: Option<(nat, nat)>): Option<(nat, nat)> {
    if rest.None? then None else Some((result + Shifted(rest.value.0, read), read + rest.value.1))
  }

  lemma {:induction false} ResumeStep(result: nat, read: nat, payload: nat, rest: (nat, nat))
    ensures Resume(result, read, Some((payload + 128 * rest.0, rest.1 + 1)))
         == Resume(result + Shifted(payload, read), read + 1, Some(rest))
  {
    assert Weight(read) * (payload + 128 * rest.0) == Weight(read) * payload + Weight(read) * (128 * rest.0);
  }

  lemma {:induction false} ReadStep(s: Bytes, w: Width, read: nat, result: nat)
    requires read < |s| && read < MaxBytes(w)
    ensures var payload := s[read] as int % 128;
            var here := DecodeFrom(s[read..], read, w);
            var result' := result + Shifted(payload, read);
            && (Limit(read, w) <= payload ==> here.None?)
            && (payload < Limit(read, w) && s[read] < 128 ==> Resume(result, read, here) == Some((result', read + 1)))
            && (payload < Limit(read, w) && s[read] >= 128 ==>
                  Resume(result, read, here) == Resume(result', read + 1, DecodeFrom(s[read + 1..], read + 1, w)))
  {
    var payload := s[read] as int % 128;
    var rest := DecodeFrom(s[read + 1..], read + 1, w);
    assert s[read..][1..] == s[read + 1..];
    if rest.Some? { ResumeStep(result, read, payload, rest.value); }
  }

  method ReadBase128(s: Bytes, w: Width) returns (r: Option<(nat, nat)>)
    ensures r == Decode(s, w)
  {
    var result: nat, read: nat, shift: nat := 0, 0, 0;
    assert s[0..] == s;
    while true
      invariant read <= |s| && read <= MaxBytes(w) && shift == 7 * read
      invariant Decode(s, w) == Resume(result, read, DecodeFrom(s[read..], read, w))
      decreases |s| - read
    {
      if |s| <= read { return None; }
      if MaxBytes(w) <= read { return None; }
      var payload := s[read] as int % 128;
      AllowedIsLimit(read, w);
      ReadStep(s, w, read, result);
      if shift + 7 > BitWidth(w) {
        var allowed := if shift < BitWidth(w) then BitWidth(w) - shift else 0;
        if Pow2(allowed) <= payload { return None; }
      }
      result := result + Shifted(payload, read);
      read := read + 1;
      if s[read - 1] < 128 { return Some((result, read)); }
      shift := shift + 7;
    }
  }

  /** The width check on the last byte is exactly the limit on what is left of the word. */
  lemma {:induction false} AllowedIsLimit(i: nat, w: Width)
    requires i < MaxBytes(w)
    ensures 7 * i + 7 <= BitWidth(w) ==> 128 <= Limit(i, w)
    ensures 7 * i + 7 > BitWidth(w) ==> 7 * i < BitWidth(w) && Pow2(BitWidth(w) - 7 * i) == Limit(i, w)
  {
    assert Pow2(1) == 2 && Pow2(2) == 4 && Pow2(3) == 8 && Pow2(4) == 16;
  }
}
