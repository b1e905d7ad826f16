/** One segment: a file of batches, and a sparse index of hints. */
module Segments {
  // A batch here is what its header says of it, its size in bytes, and the records inside.

  import opened Prelude
  import opened Records

  const MAX_UINT32 := 0xFFFF_FFFF

  datatype Batch = Batch(base: int, last: int, size: nat, maxTimestamp: int, records: seq<Record>)

  /** Where a read's bytes are: zero length is a success with nothing to send. */
  datatype FileRange = FileRange(position: nat, length: nat)

  /** An index entry: the batch at this position starts this far past the segment's base. */
  datatype Entry = Entry(relative: nat, position: nat)

  const START := Entry(0, 0)

  // ------------------------------------------------------------------ the batches of a file

  function StartOf(bs: seq<Batch>, i: nat): nat
    requires i <= |bs|
  {
    if i == 0 then 0 else StartOf(bs, i - 1) + bs[i - 1].size
  }

  function Total(bs: seq<Batch>): nat { StartOf(bs, |bs|) }

  ghost predicate Sound(b: Batch) { b.base <= b.last && HEADER_SIZE <= b.size }

  /** Batches in offset order from `base` on, holes allowed: what compaction leaves. */
  ghost predicate Ordered(base: int, bs: seq<Batch>) {
    && (forall i :: 0 <= i < |bs| ==> Sound(bs[i]) && base <= bs[i].base)
    && (forall i, j :: 0 <= i < j < |bs| ==> bs[i].last < bs[j].base)
  }

  /** One past the last offset held, or the base of an empty segment. */
  function NextOffset(base: int, bs: seq<Batch>): int {
    if bs == [] then base else bs[|bs| - 1].last + 1
  }

  function LargestTimestamp(bs: seq<Batch>): int {
    if bs == [] then -1 else Max(LargestTimestamp(bs[..|bs| - 1]), bs[|bs| - 1].maxTimestamp)
  }

  lemma {:induction false} StartsIncrease(bs: seq<Batch>, i: nat, j: nat)
    requires i < j <= |bs| && forall k :: 0 <= k < |bs| ==> HEADER_SIZE <= bs[k].size
    ensures StartOf(bs, i) + bs[i].size <= StartOf(bs, j)
  {
    if i < j - 1 { StartsIncrease(bs, i, j - 1); }
  }

  lemma {:induction false} StartOfPrefix(bs: seq<Batch>, more: seq<Batch>, i: nat)
    requires i <= |bs|
    ensures StartOf(bs + more, i) == StartOf(bs, i)
  {
    if i != 0 { StartOfPrefix(bs, more, i - 1); }
  }

  /** Reading a header at a byte position: there is one only where a whole batch starts. */
  function BatchFrom(bs: seq<Batch>, i: nat, position: int): Option<nat>
    requires i <= |bs|
    decreases |bs| - i
  {
    if i == |bs| || position < 0 then None
    else if position == 0 then Some(i)
    else BatchFrom(bs, i + 1, position - bs[i].size)
  }

  lemma {:induction false} BatchFromAt(bs: seq<Batch>, i: nat, k: nat)
    requires i <= k <= |bs| && forall j :: 0 <= j < |bs| ==> HEADER_SIZE <= bs[j].size
    ensures BatchFrom(bs, i, StartOf(bs, k) - StartOf(bs, i)) == if k < |bs| then Some(k) else None
    decreases |bs| - i
  {
    if i < k {
      StartsIncrease(bs, i, k);
      BatchFromAt(bs, i + 1, k);
    }
  }

  // ------------------------------------------------------------------------ the index

  ghost predicate IncreasingIndex(index: seq<Entry>) {
    forall i, j :: 0 <= i < j < |index| ==> index[i].relative < index[j].relative && index[i].position < index[j].position
  }

  ghost predicate PointsAt(base: int, bs: seq<Batch>, e: Entry, i: nat) {
    i < |bs| && e.position == StartOf(bs, i) && bs[i].base == base + e.relative
  }

  /** Every entry names where some batch starts. Nothing says every batch has an entry. */
  ghost predicate ValidIndex(base: int, bs: seq<Batch>, index: seq<Entry>) {
    && IncreasingIndex(index)
    && forall e :: e in index ==> exists i :: PointsAt(base, bs, e, i)
  }

  /** The greatest entry at or below a relative offset, or the segment's start. */
  function Lookup(index: seq<Entry>, relative: int): Entry {
    if index == [] then START
    else if index[|index| - 1].relative <= relative then index[|index| - 1]
    else Lookup(index[..|index| - 1], relative)
  }

  lemma {:induction false} LookupIsGreatest(index: seq<Entry>, relative: int)
    requires IncreasingIndex(index)
    ensures var e := Lookup(index, relative);
            && (e == START || (e in index && e.relative <= relative))
            && (forall x :: x in index && x.relative <= relative ==> x.relative <= e.relative && e in index)
  {
    if index != [] {
      var init := index[..|index| - 1];
      assert index == init + [index[|index| - 1]];
      if relative < index[|index| - 1].relative {
        LookupIsGreatest(init, relative);
      } else {
        forall x | x in index ensures x.relative <= index[|index| - 1].relative {
          var k :| 0 <= k < |index| && index[k] == x;
        }
      }
    }
  }

  // -------------------------------------------------------------------------- reading

  /** The first batch whose last offset reaches the target; |bs| if none does. */
  function FirstReaching(bs: seq<Batch>, offset: int): (i: nat)
    ensures i <= |bs|
    ensures i < |bs| ==> offset <= bs[i].last
    ensures forall k :: 0 <= k < i ==> bs[k].last < offset
  {
    FirstReachingFrom(bs, 0, offset)
  }

  function FirstReachingFrom(bs: seq<Batch>, i: nat, offset: int): (r: nat)
    requires i <= |bs|
    ensures i <= r <= |bs|
    ensures r < |bs| ==> offset <= bs[r].last
    ensures forall k :: i <= k < r ==> bs[k].last < offset
    decreases |bs| - i
  {
    if i == |bs| || offset <= bs[i].last then i else FirstReachingFrom(bs, i + 1, offset)
  }

  /** What a read answers once the batch is found: at least all of it, at most what there is. */
  function RangeFrom(bs: seq<Batch>, i: nat, maxBytes: nat): FileRange
    requires i <= |bs|
  {
    if i == |bs| then FileRange(Total(bs), 0)
    else
      var available := Total(bs) - StartOf(bs, i);
      FileRange(StartOf(bs, i), Max(bs[i].size, Min(maxBytes, available)))
  }

  /** The read a scan from the first byte would answer, with no index at all. */
  function ReadRange(bs: seq<Batch>, offset: int, maxBytes: nat): FileRange {
    RangeFrom(bs, FirstReaching(bs, offset), maxBytes)
  }

  /** A found batch is returned whole, and the range never runs past the file. */
  lemma {:induction false} RangeHoldsBatch(bs: seq<Batch>, i: nat, maxBytes: nat)
    requires i < |bs| && forall k :: 0 <= k < |bs| ==> HEADER_SIZE <= bs[k].size
    ensures var r := RangeFrom(bs, i, maxBytes);
            && bs[i].size <= r.length && r.position + r.length <= Total(bs)
            && (r.length <= maxBytes || r.length == bs[i].size)
  {
    StartsIncrease(bs, i, |bs|);
  }

  lemma {:induction false} LookupPoints(base: int, bs: seq<Batch>, index: seq<Entry>, relative: int) returns (i: nat)
    requires ValidIndex(base, bs, index)
    ensures i <= |bs| && Lookup(index, relative).position == StartOf(bs, i)
    ensures i == 0 || (i < |bs| && bs[i].base <= base + relative)
  {
    LookupIsGreatest(index, relative);
    var e := Lookup(index, relative);
    if e in index && e.relative <= relative {
      i :| PointsAt(base, bs, e, i);
    } else {
      i := 0;
    }
  }

  ghost predicate Sized(bs: seq<Batch>) { forall k :: 0 <= k < |bs| ==> HEADER_SIZE <= bs[k].size }

  /** batchAt: reads the header at a byte position. */
  method HeaderAt(bs: seq<Batch>, position: nat, ghost i: nat) returns (at: Option<nat>)
    requires Sized(bs) && i <= |bs| && position == StartOf(bs, i)
    ensures at == if i < |bs| then Some(i) else None
  {
    BatchFromAt(bs, 0, i);
    at := BatchFrom(bs, 0, position);
  }

  lemma {:induction false} FirstReachingIs(bs: seq<Batch>, offset: int, i: nat)
    requires i <= |bs| && (i < |bs| ==> offset <= bs[i].last)
    requires forall k :: 0 <= k < i ==> bs[k].last < offset
    ensures FirstReaching(bs, offset) == i
  {
  }

  /** The forward walk over batch headers, from any batch that nothing before it outreaches. */
  method ScanForward(bs: seq<Batch>, start: nat, offset: int, maxBytes: nat, ghost from: nat)
    returns (range: FileRange)
    requires Sized(bs) && from <= |bs| && start == StartOf(bs, from)
    requires forall k :: 0 <= k < from ==> bs[k].last < offset
    ensures range == ReadRange(bs, offset, maxBytes)
  {
    var limit := Total(bs);
    var position := start;
    ghost var i := from;
    var at := HeaderAt(bs, position, i);
    while at.Some?
      invariant i <= |bs| && position == StartOf(bs, i)
      invariant at == if i < |bs| then Some(i) else None
      invariant forall k :: 0 <= k < i ==> bs[k].last < offset
      decreases |bs| - i
    {
      var b := bs[at.value];
      if offset <= b.last {
        FirstReachingIs(bs, offset, i);
        StartsIncrease(bs, i, |bs|);
        var available := limit - position;
        return FileRange(position, Max(b.size, Min(maxBytes, available)));
      }
      position, i := position + b.size, i + 1;
      at := HeaderAt(bs, position, i);
    }
    FirstReachingIs(bs, offset, i);
    return FileRange(limit, 0);
  }

  lemma {:induction false} SkippedFallShort(base: int, bs: seq<Batch>, i: nat, offset: int)
    requires Ordered(base, bs) && (i == 0 || (i < |bs| && bs[i].base <= offset))
    ensures Sized(bs) && forall k :: 0 <= k < i ==> bs[k].last < offset
  {
  }

  /**
   SegmentBase::read. The index picks where to start and nothing else: the answer is the one a scan
   of the whole file would give, for every index whose entries name real batches.
   */
  method Read(base: int, bs: seq<Batch>, index: seq<Entry>, offset: int, maxBytes: nat)
    returns (range: Option<FileRange>)
    requires Ordered(base, bs) && ValidIndex(base, bs, index)
    ensures range.None? <==> offset < base
    ensures range.Some? ==> range.value == ReadRange(bs, offset, maxBytes)
  {
    if offset < base { return None; }
    var target := Min(offset - base, MAX_UINT32);
    ghost var i := LookupPoints(base, bs, index, target);
    SkippedFallShort(base, bs, i, offset);
    var r := ScanForward(bs, Lookup(index, target).position, offset, maxBytes, i);
    return Some(r);
  }

  // ----------------------------------------------------------------- opening a sealed one

  function LastEntry(index: seq<Entry>): Entry {
    if index == [] then START else index[|index| - 1]
  }

  lemma {:induction false} LookupLast(index: seq<Entry>)
    requires forall e :: e in index ==> e.relative <= MAX_UINT32
    ensures Lookup(index, MAX_UINT32) == LastEntry(index)
  {
  }

  /** The batch the last index entry names; the first if there is none. */
  ghost predicate StartsTail(bs: seq<Batch>, index: seq<Entry>, i: nat) {
    i <= |bs| && StartOf(bs, i) == LastEntry(index).position
  }

  /**
   deriveEndStateFromLog. Starting at the last index entry finds the next offset a full scan would,
   but the largest timestamp of the tail only.
   */
  method DeriveEndState(base: int, bs: seq<Batch>, index: seq<Entry>)
    returns (next: int, largest: int, ghost from: nat)
    requires Ordered(base, bs) && ValidIndex(base, bs, index)
    requires forall e :: e in index ==> e.relative <= MAX_UINT32
    ensures next == NextOffset(base, bs)
    ensures StartsTail(bs, index, from) && largest == LargestTimestamp(bs[from..])
  {
    LookupLast(index);
    from := LookupPoints(base, bs, index, MAX_UINT32);
    SkippedFallShort(base, bs, from, base + MAX_UINT32);
    next, largest := WalkToEnd(base, bs, Lookup(index, MAX_UINT32).position, from);
  }

  method WalkToEnd(base: int, bs: seq<Batch>, start: nat, ghost from: nat) returns (next: int, largest: int)
    requires Sized(bs) && from <= |bs| && start == StartOf(bs, from) && (from == |bs| ==> bs == [])
    ensures next == NextOffset(base, bs) && largest == LargestTimestamp(bs[from..])
  {
    next, largest := base, -1;
    var position := start;
    ghost var i := from;
    var at := HeaderAt(bs, position, i);
    while at.Some?
      invariant from <= i <= |bs| && position == StartOf(bs, i)
      invariant at == if i < |bs| then Some(i) else None
      invariant next == if i == from then base else bs[i - 1].last + 1
      invariant largest == LargestTimestamp(bs[from..i])
      decreases |bs| - i
    {
      var b := bs[at.value];
      assert bs[from..i + 1][..i - from] == bs[from..i];
      next, largest := b.last + 1, Max(largest, b.maxTimestamp);
      position, i := position + b.size, i + 1;
      at := HeaderAt(bs, position, i);
    }
    assert bs[from..i] == bs[from..];
  }

  lemma {:induction false} LargestOfTail(bs: seq<Batch>, from: nat)
    requires from <= |bs|
    ensures LargestTimestamp(bs[from..]) <= LargestTimestamp(bs)
  {
    if from < |bs| {
      assert bs[from..][..|bs| - from - 1] == bs[..|bs| - 1][from..];
      LargestOfTail(bs[..|bs| - 1], from);
    } else {
      LargestAtLeast(bs);
    }
  }

  lemma {:induction false} LargestAtLeast(bs: seq<Batch>)
    ensures -1 <= LargestTimestamp(bs)
  {
    if bs != [] { LargestAtLeast(bs[..|bs| - 1]); }
  }

  lemma {:induction false} LargestOfConcat(a: seq<Batch>, b: seq<Batch>)
    ensures LargestTimestamp(a + b) == Max(LargestTimestamp(a), LargestTimestamp(b))
    decreases |b|
  {
    if b == [] {
      assert a + b == a;
      LargestAtLeast(a);
    } else {
      assert (a + b)[..|a + b| - 1] == a + b[..|b| - 1];
      LargestOfConcat(a, b[..|b| - 1]);
    }
  }

  lemma {:induction false} LargestAtMost(bs: seq<Batch>, t: int)
    requires -1 <= t
    ensures LargestTimestamp(bs) <= t <==> forall k :: 0 <= k < |bs| ==> bs[k].maxTimestamp <= t
  {
    if bs != [] {
      var init, last := bs[..|bs| - 1], bs[|bs| - 1];
      LargestAtMost(init, t);
      assert bs == init + [last];
      assert forall k :: 0 <= k < |init| ==> bs[k] == init[k];
    }
  }

  /**
   The timestamp derived on opening, from the batch the last index entry names on, is the segment's
   exactly when no batch before that one is newer than all from there on.
   */
  lemma {:induction false} DerivedTimestampIsRight(bs: seq<Batch>, index: seq<Entry>, from: nat)
    requires StartsTail(bs, index, from)
    ensures LargestTimestamp(bs[from..]) == LargestTimestamp(bs)
        <==> forall k :: 0 <= k < from ==> bs[k].maxTimestamp <= LargestTimestamp(bs[from..])
  {
    var before, tail := bs[..from], bs[from..];
    LargestOfConcat(before, tail);
    assert before + tail == bs;
    LargestAtLeast(tail);
    LargestAtMost(before, LargestTimestamp(tail));
    assert forall k :: 0 <= k < from ==> before[k] == bs[k];
  }
}
