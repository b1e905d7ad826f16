/** Big-endian integer fields, written and read one after another. */
module Buffer {
  import opened Prelude

  /** 256^n. */
  function Span(n: nat): nat { if n == 0 then 1 else 256 * Span(n - 1) }

  function BigEndian(v: nat, n: nat): (s: Bytes)
    ensures |s| == n
  {
    if n == 0 then [] else BigEndian(v / 256, n - 1) + [(v % 256) as byte]
  }

  function FromBigEndian(s: Bytes): nat {
    if s == [] then 0 else 256 * FromBigEndian(s[..|s| - 1]) + s[|s| - 1] as nat
  }

  lemma {:induction false} BigEndianRoundTrip(v: nat, n: nat)
    requires v < Span(n)
    ensures FromBigEndian(BigEndian(v, n)) == v
  {
    if n != 0 {
      var s := BigEndian(v, n);
      assert s[..n - 1] == BigEndian(v / 256, n - 1);
      BigEndianRoundTrip(v / 256, n - 1);
    }
  }

  lemma {:induction false} FromBigEndianFits(s: Bytes)
    ensures FromBigEndian(s) < Span(|s|)
  {
    if s != [] { FromBigEndianFits(s[..|s| - 1]); }
  }

  /** A fixed-width field; signed ones are two's complement. */
  datatype Field = Field(width: nat, signed: bool)

  predicate Fits(v: int, f: Field) {
    if f.signed then 2 * v < Span(f.width) && 0 <= 2 * v + Span(f.width) else 0 <= v < Span(f.width)
  }

  function Put(v: int, f: Field): (s: Bytes)
    requires Fits(v, f)
    ensures |s| == f.width
  {
    BigEndian(if v < 0 then v + Span(f.width) else v, f.width)
  }

  function Get(s: Bytes, f: Field): int
    requires |s| == f.width
  {
    var u := FromBigEndian(s);
    if f.signed && Span(f.width) <= 2 * u then u - Span(f.width) else u
  }

  lemma {:induction false} PutGet(v: int, f: Field)
    requires Fits(v, f)
    ensures Get(Put(v, f), f) == v
  {
    BigEndianRoundTrip(if v < 0 then v + Span(f.width) else v, f.width);
  }

  predicate AllFit(vs: seq<int>, fs: seq<Field>) {
    |vs| == |fs| && forall i :: 0 <= i < |vs| ==> Fits(vs[i], fs[i])
  }

  function Width(fs: seq<Field>): nat {
    if fs == [] then 0 else fs[0].width + Width(fs[1..])
  }

  /** A run of fields, as a BufferWriter writes them. */
  function PutAll(vs: seq<int>, fs: seq<Field>): (s: Bytes)
    requires AllFit(vs, fs)
    ensures |s| == Width(fs)
    decreases |fs|
  {
    if fs == [] then [] else Put(vs[0], fs[0]) + PutAll(vs[1..], fs[1..])
  }

  /** The same run, as a BufferReader reads it. */
  function GetAll(s: Bytes, fs: seq<Field>): (vs: seq<int>)
    requires Width(fs) <= |s|
    ensures |vs| == |fs|
    decreases |fs|
  {
    if fs == [] then []
    else [Get(s[..fs[0].width], fs[0])] + GetAll(s[fs[0].width..], fs[1..])
  }

  lemma {:induction false} TakeHead(head: Bytes, tail: Bytes, rest: Bytes)
    ensures ((head + tail) + rest)[..|head|] == head && ((head + tail) + rest)[|head|..] == tail + rest
  {
  }

  lemma {:induction false} PutAllGetAll(vs: seq<int>, fs: seq<Field>, rest: Bytes)
    requires AllFit(vs, fs)
    ensures GetAll(PutAll(vs, fs) + rest, fs) == vs
    decreases |fs|
  {
    if fs != [] {
      var head, tail := Put(vs[0], fs[0]), PutAll(vs[1..], fs[1..]);
      TakeHead(head, tail, rest);
      PutGet(vs[0], fs[0]);
      PutAllGetAll(vs[1..], fs[1..], rest);
    }
  }
}
