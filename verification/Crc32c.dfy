/** CRC-32C, section 12.1 and appendix B.4 of RFC 3720: a reflected shift register, one byte at a time. */
module Crc32c {
  import opened Prelude

  const REFLECTED_POLYNOMIAL: bv32 := 0x82F63B78
  const ALL_ONES: bv32 := 0xFFFF_FFFF

  // ------------------------------------------------------- the definition, bit by bit

  /** One step of the register: polynomial division by one more bit. */
  function Shift(crc: bv32): bv32 {
    if crc & 1 == 1 then (crc >> 1) ^ REFLECTED_POLYNOMIAL else crc >> 1
  }

  function Iterate<T>(f: T -> T, x: T, n: nat): T
    decreases n
  {
    if n == 0 then x else Iterate(f, f(x), n - 1)
  }

  function Shifts(crc: bv32, n: nat): bv32 { Iterate(Shift, crc, n) }

  function Octet(b: byte): bv8 { b as bv8 }

  function Octets(s: Bytes): seq<bv8> { seq(|s|, i requires 0 <= i < |s| => Octet(s[i])) }

  function Word(o: bv8): bv32 { o as bv32 }

  /** The register after one more byte, bit by bit. */
  function Feed(crc: bv32, o: bv8): bv32 { Shifts(crc ^ Word(o), 8) }

  function FeedAll(crc: bv32, data: seq<bv8>): bv32
    decreases |data|
  {
    if data == [] then crc else FeedAll(Feed(crc, data[0]), data[1..])
  }

  function Checksum(data: seq<bv8>): bv32 { FeedAll(ALL_ONES, data) ^ ALL_ONES }

  // ------------------------------------------------------------ the register is linear

  lemma {:induction false} XorParts(a: bv32, b: bv32)
    ensures (a ^ b) & 1 == (a & 1) ^ (b & 1)
    ensures (a ^ b) >> 1 == (a >> 1) ^ (b >> 1)
    ensures a & 1 == 0 || a & 1 == 1
    ensures b & 1 == 0 || b & 1 == 1
  {
  }

  lemma {:induction false} XorPolynomial(x: bv32, y: bv32)
    ensures (x ^ REFLECTED_POLYNOMIAL) ^ y == (x ^ y) ^ REFLECTED_POLYNOMIAL
    ensures x ^ (y ^ REFLECTED_POLYNOMIAL) == (x ^ y) ^ REFLECTED_POLYNOMIAL
    ensures (x ^ REFLECTED_POLYNOMIAL) ^ (y ^ REFLECTED_POLYNOMIAL) == x ^ y
  {
  }

  lemma {:induction false} ShiftLinear(a: bv32, b: bv32)
    ensures Shift(a ^ b) == Shift(a) ^ Shift(b)
  {
    XorParts(a, b);
    XorPolynomial(a >> 1, b >> 1);
  }

  function Xor(a: bv32, b: bv32): bv32 { a ^ b }

  ghost predicate Respects<T(!new)>(f: T -> T, op: (T, T) -> T) {
    forall a, b :: f(op(a, b)) == op(f(a), f(b))
  }

  ghost predicate OneToOne<T(!new)>(f: T -> T) {
    forall a, b :: f(a) == f(b) ==> a == b
  }

  lemma {:induction false} IterateRespects<T(!new)>(f: T -> T, op: (T, T) -> T, a: T, b: T, n: nat)
    requires Respects(f, op)
    ensures Iterate(f, op(a, b), n) == op(Iterate(f, a, n), Iterate(f, b, n))
    decreases n
  {
    if n != 0 { IterateRespects(f, op, f(a), f(b), n - 1); }
  }

  lemma {:induction false} IterateOneToOne<T(!new)>(f: T -> T, a: T, b: T, n: nat)
    requires OneToOne(f) && Iterate(f, a, n) == Iterate(f, b, n)
    ensures a == b
    decreases n
  {
    if n != 0 { IterateOneToOne(f, f(a), f(b), n - 1); }
  }

  lemma {:induction false} IterateAdd<T>(f: T -> T, x: T, m: nat, n: nat)
    ensures Iterate(f, x, m + n) == Iterate(f, Iterate(f, x, m), n)
    decreases m
  {
    if m != 0 { IterateAdd(f, f(x), m - 1, n); }
  }

  lemma {:induction false} ShiftRespects()
    ensures Respects(Shift, Xor)
  {
    forall a, b ensures Shift(Xor(a, b)) == Xor(Shift(a), Shift(b)) { ShiftLinear(a, b); }
  }

  lemma {:induction false} ShiftsLinear(a: bv32, b: bv32, n: nat)
    ensures Shifts(Xor(a, b), n) == Xor(Shifts(a, n), Shifts(b, n))
  {
    ShiftRespects();
    IterateRespects(Shift, Xor, a, b, n);
  }

  lemma {:induction false} ShiftIsInjective(a: bv32, b: bv32)
    requires Shift(a) == Shift(b)
    ensures a == b
  {
  }

  lemma {:induction false} ShiftsIsInjective(a: bv32, b: bv32, n: nat)
    requires Shifts(a, n) == Shifts(b, n)
    ensures a == b
  {
    assert OneToOne(Shift) by {
      forall a, b | Shift(a) == Shift(b) ensures a == b { ShiftIsInjective(a, b); }
    }
    IterateOneToOne(Shift, a, b, n);
  }

  lemma {:induction false} TwoMore<T>(f: T -> T, c: T, n: nat)
    ensures Iterate(f, c, n + 2) == Iterate(f, f(f(c)), n)
  {
    assert Iterate(f, c, n + 2) == Iterate(f, f(c), n + 1);
  }

  lemma {:induction false} IterateEight<T>(f: T -> T, c: T)
    ensures Iterate(f, c, 8) == f(f(f(f(f(f(f(f(c))))))))
  {
    TwoMore(f, c, 6);
    TwoMore(f, f(f(c)), 4);
    TwoMore(f, f(f(f(f(c)))), 2);
    TwoMore(f, f(f(f(f(f(f(c)))))), 0);
  }

  lemma {:induction false} EightShifts(c: bv32)
    ensures Shifts(c, 8) == Shift(Shift(Shift(Shift(Shift(Shift(Shift(Shift(c))))))))
  {
    IterateEight(Shift, c);
  }

  lemma {:induction false} HighBitsOnly(c: bv32)
    requires c & 0xFF == 0
    ensures Shift(Shift(Shift(Shift(Shift(Shift(Shift(Shift(c)))))))) == c >> 8
  {
  }

  lemma {:induction false} SplitLow(c: bv32)
    ensures c == Xor(c & 0xFF, c & 0xFFFF_FF00)
    ensures (c & 0xFFFF_FF00) & 0xFF == 0
    ensures (c & 0xFFFF_FF00) >> 8 == c >> 8
  {
  }

  lemma {:induction false} WordLow(crc: bv32, o: bv8)
    ensures (crc ^ Word(o)) >> 8 == crc >> 8
    ensures (crc ^ Word(o)) & 0xFF < 256
  {
  }

  lemma {:induction false} HighBits(c: bv32)
    requires c & 0xFF == 0
    ensures Shifts(c, 8) == c >> 8
  {
    EightShifts(c);
    HighBitsOnly(c);
  }

  lemma {:induction false} Combine(c: bv32, lo: bv32, hi: bv32, high: bv32)
    requires c == Xor(lo, hi) && Shifts(hi, 8) == high
    ensures Shifts(c, 8) == Xor(Shifts(lo, 8), high)
  {
    ShiftsLinear(lo, hi, 8);
  }

  lemma {:induction false} ByteAtATime(c: bv32)
    ensures Shifts(c, 8) == Xor(Shifts(c & 0xFF, 8), c >> 8)
  {
    SplitLow(c);
    HighBits(c & 0xFFFF_FF00);
    Combine(c, c & 0xFF, c & 0xFFFF_FF00, c >> 8);
  }

  /** What the table holds at an index is what eight shifts make of it. */
  lemma {:induction false} TableStep(crc: bv32, o: bv8)
    ensures Feed(crc, o) == Xor(Shifts((crc ^ Word(o)) & 0xFF, 8), crc >> 8)
  {
    ByteAtATime(crc ^ Word(o));
    WordLow(crc, o);
  }

  // -------------------------------------------------------------- the table-driven loops

  function Entry(i: nat): bv32
    requires i < 256
  {
    Shifts(i as bv32, 8)
  }

  method TableEntry(i: bv32) returns (crc: bv32)
    ensures crc == Shifts(i, 8)
  {
    crc := i;
    for bit := 0 to 8
      invariant Iterate(Shift, crc, 8 - bit) == Iterate(Shift, i, 8)
    {
      crc := Shift(crc);
    }
  }

  method MakeTable() returns (table: array<bv32>)
    ensures fresh(table) && table.Length == 256
    ensures forall i :: 0 <= i < 256 ==> table[i] == Entry(i)
  {
    table := new bv32[256];
    for i := 0 to 256
      invariant forall k :: 0 <= k < i ==> table[k] == Entry(k)
    {
      var entry := TableEntry(i as bv32);
      table[i] := entry;
    }
  }

  /** crc32cUpdate computes what feeding the bytes bit by bit would. */
  method Update(table: array<bv32>, crc: bv32, data: seq<bv8>) returns (r: bv32)
    requires table.Length == 256
    requires forall i :: 0 <= i < 256 ==> table[i] == Entry(i)
    ensures r == FeedAll(crc, data)
  {
    r := crc;
    assert data[0..] == data;
    for i := 0 to |data|
      invariant FeedAll(r, data[i..]) == FeedAll(crc, data)
    {
      r := Lookup(table, r, data[i]);
      assert data[i..][1..] == data[i + 1..];
    }
  }

  method Lookup(table: array<bv32>, crc: bv32, o: bv8) returns (r: bv32)
    requires table.Length == 256
    requires forall i :: 0 <= i < 256 ==> table[i] == Entry(i)
    ensures r == Feed(crc, o)
  {
    TableStep(crc, o);
    var at := (crc ^ Word(o)) & 0xFF;
    IndexBack(at);
    r := table[at as int] ^ (crc >> 8);
  }

  lemma {:induction false} IndexBack(at: bv32)
    requires at < 256
    ensures 0 <= at as int < 256 && (at as int) as bv32 == at
  {
  }

  /** The checksum of a whole is the checksum of its second part, started where the first left off. */
  lemma {:induction false} FeedConcat(crc: bv32, a: seq<bv8>, b: seq<bv8>)
    ensures FeedAll(crc, a + b) == FeedAll(FeedAll(crc, a), b)
    decreases |a|
  {
    if a == [] {
      assert a + b == b;
    } else {
      assert (a + b)[1..] == a[1..] + b;
      FeedConcat(Feed(crc, a[0]), a[1..], b);
    }
  }

  // --------------------------------------------------------------- what it detects

  lemma {:induction false} XorDistinct(c: bv32, d: bv32, x: bv32)
    requires c != d
    ensures c ^ x != d ^ x
  {
  }

  lemma {:induction false} ShiftsDistinct(p: bv32, q: bv32, n: nat)
    requires p != q
    ensures Shifts(p, n) != Shifts(q, n)
  {
    if Shifts(p, n) == Shifts(q, n) { ShiftsIsInjective(p, q, n); }
  }

  lemma {:induction false} FeedDistinct(c: bv32, d: bv32, o: bv8)
    requires c != d
    ensures Feed(c, o) != Feed(d, o)
  {
    XorDistinct(c, d, Word(o));
    ShiftsDistinct(c ^ Word(o), d ^ Word(o), 8);
  }

  lemma {:induction false} FeedAllDistinct(c: bv32, d: bv32, data: seq<bv8>)
    requires c != d
    ensures FeedAll(c, data) != FeedAll(d, data)
    decreases |data|
  {
    if data != [] {
      FeedDistinct(c, d, data[0]);
      FeedAllDistinct(Feed(c, data[0]), Feed(d, data[0]), data[1..]);
    }
  }

  /** The difference of two registers, carried over the difference of the bytes fed to them. */
  function Spread(diff: bv32, es: seq<bv32>): bv32
    decreases |es|
  {
    if es == [] then diff else Spread(Shifts(Xor(diff, es[0]), 8), es[1..])
  }

  function Differences(a: seq<bv8>, b: seq<bv8>): seq<bv32>
    requires |a| == |b|
  {
    if a == [] then [] else [Xor(Word(a[0]), Word(b[0]))] + Differences(a[1..], b[1..])
  }

  lemma {:induction false} XorSwap(c: bv32, d: bv32, x: bv32, y: bv32)
    ensures Xor(c ^ x, d ^ y) == Xor(Xor(c, d), Xor(x, y))
  {
  }

  lemma {:induction false} ShiftsOfXor(p: bv32, q: bv32, r: bv32)
    requires r == Xor(p, q)
    ensures Xor(Shifts(p, 8), Shifts(q, 8)) == Shifts(r, 8)
  {
    ShiftsLinear(p, q, 8);
  }

  lemma {:induction false} FeedDifference(c: bv32, d: bv32, a: bv8, b: bv8)
    ensures Xor(Feed(c, a), Feed(d, b)) == Shifts(Xor(Xor(c, d), Xor(Word(a), Word(b))), 8)
  {
    XorSwap(c, d, Word(a), Word(b));
    ShiftsOfXor(c ^ Word(a), d ^ Word(b), Xor(Xor(c, d), Xor(Word(a), Word(b))));
  }

  lemma {:induction false} FeedAllDifference(c: bv32, d: bv32, a: seq<bv8>, b: seq<bv8>)
    requires |a| == |b|
    ensures Xor(FeedAll(c, a), FeedAll(d, b)) == Spread(Xor(c, d), Differences(a, b))
    decreases |a|
  {
    if a != [] {
      FeedDifference(c, d, a[0], b[0]);
      FeedAllDifference(Feed(c, a[0]), Feed(d, b[0]), a[1..], b[1..]);
      assert Differences(a, b)[1..] == Differences(a[1..], b[1..]);
    }
  }

  lemma {:induction false} ShiftBack(e: bv32, k: bv32)
    requires e < 256 && (k == 8 || k == 16 || k == 24)
    ensures (e << k) & 0xFF == 0 && (e << k) >> 8 == e << (k - 8)
  {
  }

  lemma {:induction false} LoweredOnce(e: bv32, k: bv32)
    requires e < 256 && (k == 8 || k == 16 || k == 24)
    ensures Shifts(e << k, 8) == e << (k - 8)
  {
    ShiftBack(e, k);
    HighBits(e << k);
  }

  lemma {:induction false} ThenMore(x: bv32, y: bv32, z: bv32, n: nat)
    requires Shifts(x, 8) == y && Shifts(y, n) == z
    ensures Shifts(x, 8 + n) == z
  {
    IterateAdd(Shift, x, 8, n);
  }

  /** Eight shifts bring a byte placed eight bits up back down whole. */
  lemma {:induction false} Lowered8(e: bv32)
    requires e < 256
    ensures Shifts(e << 8, 8) == e
  {
    LoweredOnce(e, 8);
    assert e << 0 == e;
  }

  lemma {:induction false} Lowered16(e: bv32)
    requires e < 256
    ensures Shifts(e << 16, 16) == e
  {
    LoweredOnce(e, 16);
    Lowered8(e);
    ThenMore(e << 16, e << 8, e, 8);
  }

  lemma {:induction false} Lowered24(e: bv32)
    requires e < 256
    ensures Shifts(e << 24, 24) == e
  {
    LoweredOnce(e, 24);
    Lowered16(e);
    ThenMore(e << 24, e << 16, e, 16);
  }

  lemma {:induction false} Absorb(w: bv32, n: nat, raised: bv32, e: bv32)
    requires Shifts(raised, n) == e
    ensures Shifts(Xor(Shifts(w, n), e), 8) == Shifts(Xor(w, raised), n + 8)
  {
    ShiftsLinear(w, raised, n);
    IterateAdd(Shift, Xor(w, raised), n, 8);
  }

  function Pack(e0: bv32, e1: bv32, e2: bv32, e3: bv32): bv32 {
    Xor(Xor(Xor(Xor(0, e0), e1 << 8), e2 << 16), e3 << 24)
  }

  /** Four differing bytes act on the register as one 32-bit word does. */
  lemma {:induction false} SpreadFour(e0: bv32, e1: bv32, e2: bv32, e3: bv32)
    requires e0 < 256 && e1 < 256 && e2 < 256 && e3 < 256
    ensures Spread(0, [e0, e1, e2, e3]) == Shifts(Pack(e0, e1, e2, e3), 32)
  {
    var w0 := Xor(0, e0);
    var w1 := Xor(w0, e1 << 8);
    var w2 := Xor(w1, e2 << 16);
    Lowered8(e1);
    Lowered16(e2);
    Lowered24(e3);
    Absorb(w0, 8, e1 << 8, e1);
    Absorb(w1, 16, e2 << 16, e2);
    Absorb(w2, 24, e3 << 24, e3);
    SpreadUnrolled(e0, e1, e2, e3);
  }

  lemma {:induction false} SpreadUnrolled(e0: bv32, e1: bv32, e2: bv32, e3: bv32)
    ensures Spread(0, [e0, e1, e2, e3])
         == Shifts(Xor(Shifts(Xor(Shifts(Xor(Shifts(Xor(0, e0), 8), e1), 8), e2), 8), e3), 8)
  {
    var d0 := Shifts(Xor(0, e0), 8);
    var d1 := Shifts(Xor(d0, e1), 8);
    var d2 := Shifts(Xor(d1, e2), 8);
    var d3 := Shifts(Xor(d2, e3), 8);
    assert [e0, e1, e2, e3][1..] == [e1, e2, e3];
    assert [e1, e2, e3][1..] == [e2, e3];
    assert [e2, e3][1..] == [e3];
    assert [e3][1..] == [];
    assert Spread(d3, []) == d3;
    assert Spread(d2, [e3]) == d3;
    assert Spread(d1, [e2, e3]) == d3;
    assert Spread(d0, [e1, e2, e3]) == d3;
  }

  lemma {:induction false} PackIsZero(e0: bv32, e1: bv32, e2: bv32, e3: bv32)
    requires e0 < 256 && e1 < 256 && e2 < 256 && e3 < 256 && Pack(e0, e1, e2, e3) == 0
    ensures e0 == 0 && e1 == 0 && e2 == 0 && e3 == 0
  {
  }

  lemma {:induction false} ZeroStays(n: nat)
    ensures Shifts(0, n) == 0
    decreases n
  {
    if n != 0 {
      assert Shift(0) == 0;
      ZeroStays(n - 1);
    }
  }

  lemma {:induction false} ShortSpreadIsNonzero(es: seq<bv32>)
    requires |es| <= 4 && forall i :: 0 <= i < |es| ==> es[i] < 256
    requires Spread(0, es) == 0
    ensures forall i :: 0 <= i < |es| ==> es[i] == 0
    decreases 4 - |es|
  {
    if |es| == 4 {
      assert es == [es[0], es[1], es[2], es[3]];
      SpreadFour(es[0], es[1], es[2], es[3]);
      ZeroStays(32);
      ShiftsIsInjective(Pack(es[0], es[1], es[2], es[3]), 0, 32);
      PackIsZero(es[0], es[1], es[2], es[3]);
    } else {
      var padded := [0] + es;
      ZeroStays(8);
      assert padded[1..] == es;
      assert Xor(0, padded[0]) == 0;
      ShortSpreadIsNonzero(padded);
      assert forall i :: 0 <= i < |es| ==> es[i] == padded[i + 1];
    }
  }

  lemma {:induction false} DifferencesAt(a: seq<bv8>, b: seq<bv8>)
    requires |a| == |b|
    ensures |Differences(a, b)| == |a|
    ensures forall i :: 0 <= i < |a| ==> Differences(a, b)[i] == Xor(Word(a[i]), Word(b[i]))
  {
    if a != [] { DifferencesAt(a[1..], b[1..]); }
  }

  lemma {:induction false} XorOfWords(x: bv8, y: bv8)
    ensures Xor(Word(x), Word(y)) < 256
    ensures Xor(Word(x), Word(y)) == 0 ==> x == y
  {
  }

  /** Up to four consecutive bytes fed to one register: different bytes, different registers. */
  lemma {:induction false} ShortBurst(c: bv32, a: seq<bv8>, b: seq<bv8>)
    requires |a| == |b| <= 4 && FeedAll(c, a) == FeedAll(c, b)
    ensures a == b
  {
    FeedAllDifference(c, c, a, b);
    DifferencesAt(a, b);
    forall i | 0 <= i < |a|
      ensures Differences(a, b)[i] < 256 && (Differences(a, b)[i] == 0 ==> a[i] == b[i])
    {
      XorOfWords(a[i], b[i]);
    }
    SelfXor(c);
    SelfXor(FeedAll(c, a));
    ShortSpreadIsNonzero(Differences(a, b));
  }

  lemma {:induction false} SelfXor(c: bv32)
    ensures Xor(c, c) == 0
  {
  }

  lemma {:induction false} DistinctRegisters(before: seq<bv8>, a: seq<bv8>, b: seq<bv8>, after: seq<bv8>)
    requires |a| == |b| <= 4 && a != b
    ensures FeedAll(ALL_ONES, before + a + after) != FeedAll(ALL_ONES, before + b + after)
  {
    var c := FeedAll(ALL_ONES, before);
    FeedConcat(ALL_ONES, before + a, after);
    FeedConcat(ALL_ONES, before, a);
    FeedConcat(ALL_ONES, before + b, after);
    FeedConcat(ALL_ONES, before, b);
    ShortBurstDistinct(c, a, b);
    FeedAllDistinct(FeedAll(c, a), FeedAll(c, b), after);
  }

  lemma {:induction false} ShortBurstDistinct(c: bv32, a: seq<bv8>, b: seq<bv8>)
    requires |a| == |b| <= 4 && a != b
    ensures FeedAll(c, a) != FeedAll(c, b)
  {
    if FeedAll(c, a) == FeedAll(c, b) { ShortBurst(c, a, b); }
  }

  /** Damage confined to four consecutive bytes always changes the checksum. */
  lemma {:induction false} DetectsShortBursts(before: seq<bv8>, a: seq<bv8>, b: seq<bv8>, after: seq<bv8>)
    requires |a| == |b| <= 4 && a != b
    ensures Checksum(before + a + after) != Checksum(before + b + after)
  {
    DistinctRegisters(before, a, b, after);
    XorDistinct(FeedAll(ALL_ONES, before + a + after), FeedAll(ALL_ONES, before + b + after), ALL_ONES);
  }
}
