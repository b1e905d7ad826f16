/** The index file: eight big-endian bytes an entry. */
module OffsetIndexes {
  // Appended to in place, and searched where it lies.

  import opened Prelude
  import opened Records
  import opened Buffer
  import opened Segments
  import opened ActiveSegments

  const ENTRY_SIZE: nat := 8

  function EntryBytes(e: Entry): (s: Bytes)
    ensures |s| == ENTRY_SIZE
  {
    BigEndian(e.relative, 4) + BigEndian(e.position, 4)
  }

  /** entryAt: the i-th eight bytes. */
  function EntryAt(s: Bytes, i: nat): Entry
    requires ENTRY_SIZE * (i + 1) <= |s|
  {
    var at := ENTRY_SIZE * i;
    Entry(FromBigEndian(s[at..at + 4]), FromBigEndian(s[at + 4..at + 8]))
  }

  function Encode(es: seq<Entry>): (s: Bytes)
    ensures |s| == ENTRY_SIZE * |es|
  {
    if es == [] then [] else Encode(es[..|es| - 1]) + EntryBytes(es[|es| - 1])
  }

  predicate Describable(e: Entry) { e.relative <= MAX_UINT32 && 0 < e.position <= MAX_UINT32 }

  lemma {:induction false} FourBytes()
    ensures Span(4) == 0x1_0000_0000
  {
    assert Span(2) == 0x1_0000;
  }

  lemma {:induction false} EntryRoundTrip(e: Entry, s: Bytes, i: nat)
    requires Describable(e) && ENTRY_SIZE * (i + 1) <= |s|
    requires s[ENTRY_SIZE * i..ENTRY_SIZE * i + 8] == EntryBytes(e)
    ensures EntryAt(s, i) == e
  {
    var at := ENTRY_SIZE * i;
    FourBytes();
    BigEndianRoundTrip(e.relative, 4);
    BigEndianRoundTrip(e.position, 4);
    assert s[at..at + 4] == s[at..at + 8][..4] == BigEndian(e.relative, 4);
    assert s[at + 4..at + 8] == s[at..at + 8][4..] == BigEndian(e.position, 4);
  }

  lemma {:induction false} EncodeAt(es: seq<Entry>, tail: Bytes, i: nat)
    requires i < |es| && forall e :: e in es ==> Describable(e)
    ensures EntryAt(Encode(es) + tail, i) == es[i]
    decreases |es|
  {
    var init, last := es[..|es| - 1], es[|es| - 1];
    var s := Encode(es) + tail;
    assert s == Encode(init) + (EntryBytes(last) + tail);
    if i < |init| {
      assert forall e :: e in init ==> e in es;
      EncodeAt(init, EntryBytes(last) + tail, i);
    } else {
      assert s[ENTRY_SIZE * i..ENTRY_SIZE * i + 8] == EntryBytes(last);
      EntryRoundTrip(last, s, i);
    }
  }

  // ------------------------------------------------------------------------ reopening

  /** A file that begins with these entries, any further whole entry having position zero. */
  ghost predicate BeginsWith(s: Bytes, es: seq<Entry>) {
    && ENTRY_SIZE * |es| <= |s|
    && (forall i :: 0 <= i < |es| ==> EntryAt(s, i) == es[i] && 0 < es[i].position)
    && (forall i :: |es| <= i < |s| / ENTRY_SIZE ==> EntryAt(s, i).position == 0)
  }

  /** countEntries: where the entries stop, found by bisection on a zero position. */
  method CountEntries(s: Bytes, ghost es: seq<Entry>) returns (count: nat)
    requires BeginsWith(s, es)
    ensures count == |es|
  {
    var raw := |s| / ENTRY_SIZE;
    if raw == 0 { return 0; }
    if EntryAt(s, raw - 1).position != 0 { return raw; }
    var low: nat, high: nat := 0, raw - 1;
    while low < high
      invariant low <= |es| <= high < raw
    {
      var mid := low + (high - low) / 2;
      if EntryAt(s, mid).position == 0 {
        high := mid;
      } else {
        low := mid + 1;
      }
    }
    return low;
  }

  function Zeroes(n: nat): (s: Bytes)
    ensures |s| == n && forall i :: 0 <= i < n ==> s[i] == 0
  {
    seq(n, i => 0)
  }

  lemma {:induction false} ZeroReads(s: Bytes)
    requires forall i :: 0 <= i < |s| ==> s[i] == 0
    ensures FromBigEndian(s) == 0
  {
    if s != [] { ZeroReads(s[..|s| - 1]); }
  }

  /** Preallocated and never trimmed: what a crash leaves of a live index. */
  lemma {:induction false} ZeroPaddedReopens(es: seq<Entry>, padding: nat)
    requires forall e :: e in es ==> Describable(e)
    ensures BeginsWith(Encode(es) + Zeroes(padding), es)
  {
    var s := Encode(es) + Zeroes(padding);
    forall i | 0 <= i < |es| ensures EntryAt(s, i) == es[i] && 0 < es[i].position {
      assert es[i] in es;
      EncodeAt(es, Zeroes(padding), i);
    }
    forall i | |es| <= i < |s| / ENTRY_SIZE ensures EntryAt(s, i).position == 0 {
      ZeroReads(s[ENTRY_SIZE * i + 4..ENTRY_SIZE * i + 8]);
    }
  }

  /** Trimmed, or cut off part-way through writing one more entry. */
  lemma {:induction false} PartialReopens(es: seq<Entry>, part: Bytes)
    requires (forall e :: e in es ==> Describable(e)) && |part| < ENTRY_SIZE
    ensures BeginsWith(Encode(es) + part, es)
  {
    var s := Encode(es) + part;
    forall i | 0 <= i < |es| ensures EntryAt(s, i) == es[i] && 0 < es[i].position {
      assert es[i] in es;
      EncodeAt(es, part, i);
    }
  }

  // ------------------------------------------------------------------- the mapped index

  function Patched(bytes: Bytes, at: nat, s: Bytes): Bytes
    requires at + |s| <= |bytes|
  {
    bytes[..at] + s + bytes[at + |s|..]
  }

  /** A few bytes overwritten where they lie. */
  method PutBytes(bytes: array<byte>, at: nat, s: Bytes)
    requires at + |s| <= bytes.Length
    modifies bytes
    ensures bytes[..] == Patched(old(bytes[..]), at, s)
  {
    forall k | 0 <= k < |s| { bytes[at + k] := s[k]; }
  }

  /** The mapped file: these entries, and zeroes where the others will go. */
  function Laid(es: seq<Entry>, maxEntries: nat): (s: Bytes)
    requires |es| <= maxEntries
    ensures |s| == ENTRY_SIZE * maxEntries
  {
    Encode(es) + Zeroes(ENTRY_SIZE * (maxEntries - |es|))
  }

  /** Writing the next entry over the first of the zeroes. */
  lemma {:induction false} LaidGrows(es: seq<Entry>, e: Entry, maxEntries: nat)
    requires |es| < maxEntries
    ensures |EntryBytes(e)| == ENTRY_SIZE
    ensures Patched(Laid(es, maxEntries), ENTRY_SIZE * |es|, EntryBytes(e)) == Laid(es + [e], maxEntries)
  {
    var head, zeroes, s := Encode(es), Zeroes(ENTRY_SIZE * (maxEntries - |es|)), EntryBytes(e);
    assert (es + [e])[..|es + [e]| - 1] == es;
    assert zeroes[ENTRY_SIZE..] == Zeroes(ENTRY_SIZE * (maxEntries - |es| - 1));
    Overwrite(head, zeroes, s);
  }

  lemma {:induction false} Overwrite(head: Bytes, rest: Bytes, s: Bytes)
    requires |s| <= |rest|
    ensures (head + rest)[..|head|] + s + (head + rest)[|head| + |s|..] == (head + s) + rest[|s|..]
  {
  }

  lemma {:induction false} IndexGrows(es: seq<Entry>, e: Entry)
    requires IncreasingIndex(es) && (forall x :: x in es ==> Describable(x)) && Describable(e)
    requires es != [] ==> es[|es| - 1].relative < e.relative && es[|es| - 1].position < e.position
    ensures IncreasingIndex(es + [e]) && forall x :: x in es + [e] ==> Describable(x)
  {
    var all := es + [e];
    forall i, j | 0 <= i < j < |all| ensures all[i].relative < all[j].relative && all[i].position < all[j].position {
      if j == |es| && i < |es| - 1 { assert es[i].relative < es[|es| - 1].relative; }
    }
  }

  /** A mapped file with room for so many entries holds these, in strictly increasing order. */
  ghost predicate Mapped(s: Bytes, maxEntries: nat, count: nat, es: seq<Entry>) {
    && count == |es| <= maxEntries && s == Laid(es, maxEntries)
    && IncreasingIndex(es) && forall e :: e in es ==> Describable(e)
  }

  lemma {:induction false} MappedGrows(s: Bytes, maxEntries: nat, count: nat, es: seq<Entry>, e: Entry)
    requires Mapped(s, maxEntries, count, es) && Describable(e) && count < maxEntries
    requires es != [] ==> es[|es| - 1].relative < e.relative && es[|es| - 1].position < e.position
    ensures |EntryBytes(e)| == ENTRY_SIZE
    ensures Mapped(Patched(s, ENTRY_SIZE * count, EntryBytes(e)), maxEntries, count + 1, es + [e])
  {
    LaidGrows(es, e, maxEntries);
    IndexGrows(es, e);
  }

  class OffsetIndex {
    const base: int
    const bytes: array<byte>
    const maxEntries: nat
    var entryCount: nat
    ghost var entries: seq<Entry>

    ghost predicate Valid()
      reads this, bytes
    {
      bytes.Length == ENTRY_SIZE * maxEntries && Mapped(bytes[..], maxEntries, entryCount, entries)
    }

    constructor (base: int, maxEntries: nat)
      requires 0 < maxEntries
      ensures Valid() && fresh(bytes) && entries == [] && this.base == base && this.maxEntries == maxEntries
    {
      this.base, this.maxEntries, entryCount, entries := base, maxEntries, 0, [];
      bytes := new byte[ENTRY_SIZE * maxEntries](i => 0);
    }

    method ReadEntry(i: nat) returns (e: Entry)
      requires Valid() && i < entryCount
      ensures e == entries[i]
    {
      EncodeAt(entries, Zeroes(ENTRY_SIZE * (maxEntries - entryCount)), i);
      e := EntryAt(bytes[..], i);
    }

    /** Accepts, drops or refuses an entry exactly as AddEntry says. */
    method Append(offset: int, position: nat) returns (ok: bool)
      requires Valid() && position <= MAX_UINT32
      modifies this, bytes
      ensures Valid()
      ensures var policy := Policy(0, 0, 0, maxEntries);
              var added := AddEntry(policy, base, old(entries), offset, position);
              && (ok <==> added.Some?)
              && entries == if ok then added.value else old(entries)
    {
      if position == 0 { return false; }
      if offset < base { return false; }
      var relative := offset - base;
      if MAX_UINT32 < relative { return false; }
      if 0 < entryCount {
        var last := ReadEntry(entryCount - 1);
        if relative <= last.relative { return false; }
        if position <= last.position { return false; }
      }
      if maxEntries <= entryCount { return true; }
      var e := Entry(relative, position);
      WriteEntry(e);
      return true;
    }

    method WriteEntry(e: Entry)
      requires Valid() && Describable(e) && entryCount < maxEntries
      requires entries != [] ==> entries[|entries| - 1].relative < e.relative && entries[|entries| - 1].position < e.position
      modifies this, bytes
      ensures Valid() && entries == old(entries) + [e]
    {
      ghost var more := entries + [e];
      MappedGrows(bytes[..], maxEntries, entryCount, entries, e);
      PutBytes(bytes, ENTRY_SIZE * entryCount, EntryBytes(e));
      assert Mapped(bytes[..], maxEntries, entryCount + 1, more);
      entries, entryCount := more, entryCount + 1;
    }

    /** The greatest entry at or below the target, by bisection; saturating past 32 bits. */
    method Find(target: int) returns (e: Option<Entry>)
      requires Valid()
      ensures e.None? <==> target < base
      ensures e.Some? ==> e.value == Lookup(entries, Min(target - base, MAX_UINT32))
    {
      if target < base { return None; }
      if entryCount == 0 { return Some(START); }
      var relative := Min(target - base, MAX_UINT32);
      var first := ReadEntry(0);
      if relative < first.relative {
        NothingBelow(entries, relative);
        return Some(START);
      }
      var low, high := 0, entryCount - 1;
      while low < high
        invariant 0 <= low <= high < entryCount
        invariant entries[low].relative <= relative
        invariant forall k :: high < k < entryCount ==> relative < entries[k].relative
      {
        var mid := low + (high - low + 1) / 2;
        var probe := ReadEntry(mid);
        if probe.relative <= relative {
          low := mid;
        } else {
          high := mid - 1;
        }
      }
      GreatestBelow(entries, relative, low);
      var found := ReadEntry(low);
      return Some(found);
    }
  }

  lemma {:induction false} NothingBelow(index: seq<Entry>, relative: int)
    requires IncreasingIndex(index) && index != [] && relative < index[0].relative
    ensures Lookup(index, relative) == START
    decreases |index|
  {
    if 1 < |index| { NothingBelow(index[..|index| - 1], relative); }
  }

  lemma {:induction false} GreatestBelow(index: seq<Entry>, relative: int, i: nat)
    requires i < |index| && index[i].relative <= relative
    requires forall k :: i < k < |index| ==> relative < index[k].relative
    ensures Lookup(index, relative) == index[i]
    decreases |index|
  {
    if i < |index| - 1 { GreatestBelow(index[..|index| - 1], relative, i); }
  }
}
