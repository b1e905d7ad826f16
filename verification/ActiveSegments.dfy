/** The segment being written, and its recovery after a crash. */
module ActiveSegments {
  // Appends, the index they grow, and rebuilding both.

  import opened Prelude
  import opened Records
  import opened Segments

  datatype Policy = Policy(
    maxSegmentBytes: nat,
    maxSegmentAgeMs: int,
    indexIntervalBytes: nat,
    maxEntries: nat)

  /** Everything a segment derives from the batches appended to it. */
  datatype Derived = Derived(index: seq<Entry>, since: nat, next: int, largest: int)

  // ------------------------------------------------------------- what an append derives

  /** OffsetIndex::append: None throws; a full index drops the entry. */
  function AddEntry(policy: Policy, base: int, index: seq<Entry>, offset: int, position: nat): Option<seq<Entry>> {
    if position == 0 || offset < base || MAX_UINT32 < offset - base then None
    else if index != [] && (offset - base <= index[|index| - 1].relative || position <= index[|index| - 1].position)
    then None
    else if policy.maxEntries <= |index| then Some(index)
    else Some(index + [Entry(offset - base, position)])
  }

  /** maybeAddIndexEntry: an entry once an interval has gone by, never for the first batch. */
  function MaybeAddEntry(policy: Policy, base: int, d: Derived, offset: int, position: nat): Option<Derived> {
    if d.since < policy.indexIntervalBytes || position == 0 then Some(d)
    else if MAX_UINT32 < position then None
    else
      match AddEntry(policy, base, d.index, offset, position)
      case None => None
      case Some(index) => Some(d.(index := index, since := 0))
  }

  function AppendOne(policy: Policy, base: int, d: Derived, position: nat, b: Batch): Option<Derived> {
    match MaybeAddEntry(policy, base, d, b.base, position)
    case None => None
    case Some(d') => Some(Derived(d'.index, d'.since + b.size, b.last + 1, Max(d'.largest, b.maxTimestamp)))
  }

  /** A fresh segment to which these batches were appended in turn. */
  function AppendAll(policy: Policy, base: int, bs: seq<Batch>): Option<Derived> {
    if bs == [] then Some(Derived([], 0, base, -1))
    else
      var init := bs[..|bs| - 1];
      match AppendAll(policy, base, init)
      case None => None
      case Some(d) => AppendOne(policy, base, d, Total(init), bs[|bs| - 1])
  }

  /** Each batch starts exactly where the one before it ended. */
  ghost predicate Contiguous(base: int, bs: seq<Batch>) {
    bs == [] || (
      var init := bs[..|bs| - 1];
      var b := bs[|bs| - 1];
      Contiguous(base, init) && b.base == NextOffset(base, init) && Sound(b))
  }

  lemma {:induction false} ContiguousFacts(base: int, bs: seq<Batch>)
    requires Contiguous(base, bs)
    ensures Ordered(base, bs) && base <= NextOffset(base, bs)
    ensures bs != [] ==> base < NextOffset(base, bs)
    ensures forall i :: 0 <= i < |bs| ==> bs[i].last < NextOffset(base, bs)
  {
    if bs != [] {
      var init := bs[..|bs| - 1];
      ContiguousFacts(base, init);
      forall i | 0 <= i < |bs| ensures Sound(bs[i]) && base <= bs[i].base && bs[i].last < NextOffset(base, bs) {
        if i < |init| { assert bs[i] == init[i]; }
      }
      forall i, j | 0 <= i < j < |bs| ensures bs[i].last < bs[j].base {
        assert bs[i] == init[i];
        if j < |init| { assert bs[j] == init[j]; }
      }
    }
  }

  lemma {:induction false} PointsStill(base: int, bs: seq<Batch>, b: Batch, e: Entry, i: nat)
    requires PointsAt(base, bs, e, i)
    ensures PointsAt(base, bs + [b], e, i)
  {
    StartOfPrefix(bs, [b], i);
  }

  lemma {:induction false} ValidIndexGrows(base: int, bs: seq<Batch>, b: Batch, index: seq<Entry>, more: seq<Entry>)
    requires ValidIndex(base, bs, index)
    requires more == [] || (base <= b.base && more == [Entry(b.base - base, Total(bs))])
    requires more != [] && index != [] ==>
               index[|index| - 1].relative < more[0].relative && index[|index| - 1].position < more[0].position
    ensures ValidIndex(base, bs + [b], index + more)
  {
    var all := index + more;
    forall e | e in all ensures exists i :: PointsAt(base, bs + [b], e, i) {
      if e in index {
        var i :| PointsAt(base, bs, e, i);
        PointsStill(base, bs, b, e, i);
      } else {
        StartOfPrefix(bs, [b], |bs|);
        assert PointsAt(base, bs + [b], e, |bs|);
      }
    }
    forall i, j | 0 <= i < j < |all| ensures all[i].relative < all[j].relative && all[i].position < all[j].position {
      if j == |index| && i < |index| - 1 { assert index[i].relative < index[|index| - 1].relative; }
    }
  }

  lemma {:induction false} MaybeAddGrows(policy: Policy, base: int, d: Derived, offset: int, position: nat)
    requires MaybeAddEntry(policy, base, d, offset, position).Some?
    ensures var d' := MaybeAddEntry(policy, base, d, offset, position).value;
            && d'.next == d.next && d'.largest == d.largest
            && (d'.index == d.index || (
                  && d'.index == d.index + [Entry(offset - base, position)] && base <= offset
                  && offset - base <= MAX_UINT32
                  && (d.index != [] ==> d.index[|d.index| - 1].relative < offset - base
                                        && d.index[|d.index| - 1].position < position)))
  {
  }

  /** What a full scan of these batches would find, and an index whose entries name real ones. */
  ghost predicate Describes(policy: Policy, base: int, bs: seq<Batch>, d: Derived) {
    && ValidIndex(base, bs, d.index)
    && d.next == NextOffset(base, bs) && d.largest == LargestTimestamp(bs)
    && |d.index| <= policy.maxEntries
    && forall e :: e in d.index ==> e.relative <= MAX_UINT32
  }

  lemma {:induction false} DescribesOneMore(policy: Policy, base: int, bs: seq<Batch>, d: Derived, b: Batch, after: Derived)
    requires Describes(policy, base, bs, d) && AppendOne(policy, base, d, Total(bs), b) == Some(after)
    ensures Describes(policy, base, bs + [b], after)
  {
    MaybeAddGrows(policy, base, d, b.base, Total(bs));
    var more := if after.index == d.index then [] else [Entry(b.base - base, Total(bs))];
    assert after.index == d.index + more;
    ValidIndexGrows(base, bs, b, d.index, more);
    assert (bs + [b])[..|bs + [b]| - 1] == bs;
  }

  /** The index grown by appends names real batches, and the rest is what a full scan would find. */
  lemma {:induction false} AppendsDerive(policy: Policy, base: int, bs: seq<Batch>)
    requires AppendAll(policy, base, bs).Some?
    ensures var d := AppendAll(policy, base, bs).value;
            && ValidIndex(base, bs, d.index)
            && d.next == NextOffset(base, bs) && d.largest == LargestTimestamp(bs)
            && |d.index| <= policy.maxEntries
            && forall e :: e in d.index ==> e.relative <= MAX_UINT32
  {
    if bs != [] {
      var init, b := bs[..|bs| - 1], bs[|bs| - 1];
      AppendsDerive(policy, base, init);
      assert init + [b] == bs;
      DescribesOneMore(policy, base, init, AppendAll(policy, base, init).value, b, AppendAll(policy, base, bs).value);
    }
  }

  /**
   Appending batches in offset order, holes or none, never fails while the segment stays within what
   the index's 32 bits describe: a live segment's appends and a cleaner's rewrite alike.
   */
  lemma {:induction false} AppendsSucceed(policy: Policy, base: int, bs: seq<Batch>)
    requires Ordered(base, bs)
    requires Total(bs) <= MAX_UINT32 && NextOffset(base, bs) - base <= MAX_UINT32
    ensures AppendAll(policy, base, bs).Some?
  {
    if bs != [] {
      var init, b := bs[..|bs| - 1], bs[|bs| - 1];
      StartOfPrefix(init, [b], |init|);
      assert init + [b] == bs;
      OrderedInit(base, init, b);
      AppendsSucceed(policy, base, init);
      NextSucceeds(policy, base, init, b);
    }
  }

  lemma {:induction false} OrderedInit(base: int, init: seq<Batch>, b: Batch)
    requires Ordered(base, init + [b])
    ensures Ordered(base, init) && Sound(b) && base <= NextOffset(base, init) <= b.base
  {
    var bs := init + [b];
    assert bs[|init|] == b;
    forall i | 0 <= i < |init| ensures Sound(init[i]) && base <= init[i].base && init[i].last < b.base {
      assert bs[i] == init[i];
    }
    forall i, j | 0 <= i < j < |init| ensures init[i].last < init[j].base {
      assert bs[i] == init[i] && bs[j] == init[j];
    }
  }

  lemma {:induction false} NextSucceeds(policy: Policy, base: int, init: seq<Batch>, b: Batch)
    requires Ordered(base, init) && AppendAll(policy, base, init).Some? && NextOffset(base, init) <= b.base
    requires base <= b.base && b.base - base <= MAX_UINT32 && Total(init) <= MAX_UINT32
    ensures AppendOne(policy, base, AppendAll(policy, base, init).value, Total(init), b).Some?
  {
    LastEntryBehind(policy, base, init);
  }

  /** The newest index entry lies strictly behind the end of the segment. */
  lemma {:induction false} LastEntryBehind(policy: Policy, base: int, bs: seq<Batch>)
    requires Ordered(base, bs) && AppendAll(policy, base, bs).Some?
    ensures var index := AppendAll(policy, base, bs).value.index;
            index != [] ==>
              && index[|index| - 1].relative < NextOffset(base, bs) - base
              && index[|index| - 1].position < Total(bs)
  {
    AppendsDerive(policy, base, bs);
    var index := AppendAll(policy, base, bs).value.index;
    if index != [] {
      var e := index[|index| - 1];
      assert e in index;
      var i :| PointsAt(base, bs, e, i);
      StartsIncrease(bs, i, |bs|);
    }
  }

  /** One more batch: what it derives, and when it keeps the offsets gapless. */
  lemma {:induction false} AppendSnoc(policy: Policy, base: int, bs: seq<Batch>, b: Batch)
    requires AppendAll(policy, base, bs).Some?
    ensures var d := AppendAll(policy, base, bs).value;
            && d.next == NextOffset(base, bs)
            && AppendAll(policy, base, bs + [b]) == AppendOne(policy, base, d, Total(bs), b)
    ensures Contiguous(base, bs + [b]) <==> Contiguous(base, bs) && b.base == NextOffset(base, bs) && Sound(b)
  {
    var grown := bs + [b];
    assert grown[..|grown| - 1] == bs && grown[|grown| - 1] == b;
    AppendsDerive(policy, base, bs);
  }

  lemma {:induction false} AppendsPrefix(policy: Policy, base: int, bs: seq<Batch>, n: nat)
    requires AppendAll(policy, base, bs).Some? && n <= |bs|
    ensures AppendAll(policy, base, bs[..n]).Some?
  {
    if n < |bs| {
      AppendsPrefix(policy, base, bs[..|bs| - 1], n);
      assert bs[..|bs| - 1][..n] == bs[..n];
    } else {
      assert bs[..n] == bs;
    }
  }

  // ------------------------------------------------------------------------ the segment

  datatype AppendError = StampMissing | NotContiguous | IndexRefused

  class ActiveSegment {
    const base: int
    const policy: Policy
    var batches: seq<Batch>
    var index: seq<Entry>
    var bytesSinceIndexEntry: nat
    var nextOffset: int
    var largestTimestamp: int
    var firstAppendMs: int

    function Value(): Derived
      reads this
    {
      Derived(index, bytesSinceIndexEntry, nextOffset, largestTimestamp)
    }

    ghost predicate Valid()
      reads this
    {
      && Contiguous(base, batches)
      && AppendAll(policy, base, batches) == Some(Value())
      && (0 <= firstAppendMs <==> batches != [])
    }

    constructor (base: int, policy: Policy)
      ensures Valid() && this.base == base && this.policy == policy && batches == []
    {
      this.base, this.policy := base, policy;
      batches, index, bytesSinceIndexEntry, nextOffset := [], [], 0, base;
      largestTimestamp, firstAppendMs := -1, -1;
    }

    method Append(baseOffset: int, b: Batch, nowMs: int) returns (error: Option<AppendError>)
      requires Valid() && Sound(b) && 0 <= nowMs
      modifies this
      ensures Valid()
      ensures error == Some(StampMissing) <==> b.base != baseOffset
      ensures error == Some(NotContiguous) <==> b.base == baseOffset != old(nextOffset)
      ensures error == Some(IndexRefused) <==>
                b.base == baseOffset == old(nextOffset) && AppendAll(policy, base, old(batches) + [b]).None?
      ensures error.None? <==> b.base == baseOffset == old(nextOffset) && AppendAll(policy, base, old(batches) + [b]).Some?
      ensures error.None? ==> batches == old(batches) + [b]
      ensures error.Some? ==> unchanged(this)
      ensures error.None? ==> firstAppendMs == if old(batches) == [] then nowMs else old(firstAppendMs)
    {
      AppendSnoc(policy, base, batches, b);
      if b.base != baseOffset { return Some(StampMissing); }
      if baseOffset != nextOffset { return Some(NotContiguous); }
      var d := MaybeAddEntry(policy, base, Value(), baseOffset, Total(batches));
      if d.None? { return Some(IndexRefused); }
      index, bytesSinceIndexEntry := d.value.index, d.value.since + b.size;
      batches := batches + [b];
      if firstAppendMs < 0 { firstAppendMs := nowMs; }
      largestTimestamp := Max(largestTimestamp, b.maxTimestamp);
      nextOffset := b.last + 1;
      return None;
    }

    /** An empty segment never rolls; otherwise size, a full index, or age since the first append. */
    method ShouldRoll(nowMs: int) returns (roll: bool)
      requires Valid()
      ensures roll <==> RollDue(policy, base, batches, index, firstAppendMs, nowMs)
    {
      if nextOffset == base { ContiguousFacts(base, batches); AppendsDerive(policy, base, batches); return false; }
      AppendsDerive(policy, base, batches);
      return policy.maxSegmentBytes <= Total(batches) || policy.maxEntries <= |index|
          || policy.maxSegmentAgeMs <= nowMs - firstAppendMs;
    }
  }

  predicate RollDue(
    policy: Policy, base: int, batches: seq<Batch>, index: seq<Entry>, firstAppendMs: int, nowMs: int) {
    && batches != []
    && (|| policy.maxSegmentBytes <= Total(batches)
        || policy.maxEntries <= |index|
        || policy.maxSegmentAgeMs <= nowMs - firstAppendMs)
  }

  // --------------------------------------------------------------------------- recovery

  /** What a header walk finds at one place in a file after a crash. */
  datatype Found = Found(batch: Batch, intact: bool)

  function BatchesOf(file: seq<Found>): (bs: seq<Batch>)
    ensures |bs| == |file| && forall i :: 0 <= i < |file| ==> bs[i] == file[i].batch
  {
    if file == [] then [] else BatchesOf(file[..|file| - 1]) + [file[|file| - 1].batch]
  }

  /** The first n batches checksum, follow on from the base without a gap, and end below the ceiling. */
  ghost predicate Recoverable(base: int, file: seq<Found>, ceiling: Option<int>, n: nat)
    requires n <= |file|
  {
    && Contiguous(base, BatchesOf(file)[..n])
    && forall i :: 0 <= i < n ==> file[i].intact && (ceiling.Some? ==> file[i].batch.last < ceiling.value)
  }

  lemma {:induction false} RecoverableStep(base: int, file: seq<Found>, ceiling: Option<int>, n: nat)
    requires n < |file| && (forall f :: f in file ==> Sound(f.batch))
    ensures Recoverable(base, file, ceiling, n + 1) <==>
            && Recoverable(base, file, ceiling, n)
            && file[n].intact && file[n].batch.base == NextOffset(base, BatchesOf(file)[..n])
            && (ceiling.Some? ==> file[n].batch.last < ceiling.value)
  {
    var bs := BatchesOf(file);
    assert bs[..n + 1][..n] == bs[..n];
    assert file[n] in file;
  }

  lemma {:induction false} NotPast(base: int, file: seq<Found>, ceiling: Option<int>, n: nat, m: nat)
    requires n < m <= |file| && (forall f :: f in file ==> Sound(f.batch))
    requires !Recoverable(base, file, ceiling, n + 1)
    ensures !Recoverable(base, file, ceiling, m)
  {
    if n + 1 < m {
      NotPast(base, file, ceiling, n, m - 1);
      RecoverableStep(base, file, ceiling, m - 1);
    }
  }

  /** n is the longest recoverable prefix. */
  ghost predicate IsRecovered(base: int, file: seq<Found>, ceiling: Option<int>, n: nat) {
    && n <= |file| && Recoverable(base, file, ceiling, n)
    && forall m :: n < m <= |file| ==> !Recoverable(base, file, ceiling, m)
  }

  lemma {:induction false} IsLongest(base: int, file: seq<Found>, ceiling: Option<int>, n: nat)
    requires n <= |file| && (forall f :: f in file ==> Sound(f.batch))
    requires Recoverable(base, file, ceiling, n)
    requires n < |file| ==> !Recoverable(base, file, ceiling, n + 1)
    ensures IsRecovered(base, file, ceiling, n)
  {
    forall m | n < m <= |file| ensures !Recoverable(base, file, ceiling, m) {
      NotPast(base, file, ceiling, n, m);
    }
  }

  datatype Outcome = Kept | Stopped | Failed

  /** One turn of the recovery loop: keep the batch, stop before it, or let an index invariant escape. */
  method RecoverOne(segment: ActiveSegment, f: Found, ceiling: Option<int>, nowMs: int) returns (outcome: Outcome)
    requires segment.Valid() && Sound(f.batch) && 0 <= nowMs
    modifies segment
    ensures segment.Valid()
    ensures outcome.Stopped? <==>
              (ceiling.Some? && ceiling.value <= f.batch.last) || !f.intact
              || f.batch.base != NextOffset(segment.base, old(segment.batches))
    ensures outcome.Failed? ==> AppendAll(segment.policy, segment.base, old(segment.batches) + [f.batch]).None?
    ensures outcome.Kept? ==> segment.batches == old(segment.batches) + [f.batch]
    ensures !outcome.Kept? ==> unchanged(segment)
  {
    AppendSnoc(segment.policy, segment.base, segment.batches, f.batch);
    if ceiling.Some? && ceiling.value <= f.batch.last { return Stopped; }
    if !f.intact { return Stopped; }
    if f.batch.base != segment.nextOffset { return Stopped; }
    var error := segment.Append(segment.nextOffset, f.batch, nowMs);
    assert error.None? || error.value.StampMissing? || error.value.NotContiguous? || error.value.IndexRefused?;
    return if error.Some? then Failed else Kept;
  }

  /** The recovery loop: the first n batches are kept, and so far nothing has stopped it. */
  ghost predicate Recovering(base: int, file: seq<Found>, ceiling: Option<int>, n: nat, kept: seq<Batch>) {
    n <= |file| && kept == BatchesOf(file)[..n] && Recoverable(base, file, ceiling, n)
  }

  /** The next batch either ends the longest recoverable prefix or belongs to it. */
  lemma {:induction false} RecoverTurn(base: int, file: seq<Found>, ceiling: Option<int>, n: nat, kept: seq<Batch>)
    requires (forall f :: f in file ==> Sound(f.batch)) && n < |file| && Recovering(base, file, ceiling, n, kept)
    ensures var f := file[n];
            if (ceiling.Some? && ceiling.value <= f.batch.last) || !f.intact || f.batch.base != NextOffset(base, kept)
            then IsRecovered(base, file, ceiling, n)
            else Recovering(base, file, ceiling, n + 1, kept + [f.batch])
  {
    assert file[n] in file;
    RecoverableStep(base, file, ceiling, n);
    assert BatchesOf(file)[..n + 1] == BatchesOf(file)[..n] + [file[n].batch];
    if !Recoverable(base, file, ceiling, n + 1) { IsLongest(base, file, ceiling, n); }
  }

  /**
   ActiveSegment::recover. What it keeps is the longest recoverable prefix, and the segment it
   rebuilds is the one that appending those batches afresh would have made. Damage is its job; an index
   invariant escapes, and does so exactly when a batch it could keep has no place in the index.
   */
  method Recover(base: int, policy: Policy, file: seq<Found>, ceiling: Option<int>, nowMs: int)
    returns (segment: ActiveSegment?, ghost n: nat)
    requires (forall f :: f in file ==> Sound(f.batch)) && 0 <= nowMs
    ensures segment != null ==> fresh(segment) && segment.Valid()
    ensures segment != null ==> segment.base == base && segment.policy == policy
    ensures segment != null ==> IsRecovered(base, file, ceiling, n) && segment.batches == BatchesOf(file)[..n]
    ensures segment == null ==> Escapes(base, policy, file, ceiling, n)
    ensures segment == null <==> exists m: nat :: Escapes(base, policy, file, ceiling, m)
  {
    var live := new ActiveSegment(base, policy);
    var good := 0;
    while good < |file|
      invariant Recovering(base, file, ceiling, good, live.batches)
      invariant fresh(live) && live.Valid() && live.base == base && live.policy == policy
      decreases |file| - good
    {
      RecoverTurn(base, file, ceiling, good, live.batches);
      assert file[good] in file;
      var outcome := RecoverOne(live, file[good], ceiling, nowMs);
      if outcome.Failed? {
        assert Escapes(base, policy, file, ceiling, good);
        return null, good;
      }
      if outcome.Stopped? {
        NothingEscapes(base, policy, file, ceiling, good);
        return live, good;
      }
      good := good + 1;
    }
    NothingEscapes(base, policy, file, ceiling, good);
    return live, good;
  }

  /** Batch n could be kept, but the index its predecessors grew has no place for it. */
  ghost predicate Escapes(base: int, policy: Policy, file: seq<Found>, ceiling: Option<int>, n: nat) {
    n < |file| && Recoverable(base, file, ceiling, n + 1) && AppendAll(policy, base, BatchesOf(file)[..n + 1]).None?
  }

  lemma {:induction false} NothingEscapes(base: int, policy: Policy, file: seq<Found>, ceiling: Option<int>, n: nat)
    requires IsRecovered(base, file, ceiling, n) && AppendAll(policy, base, BatchesOf(file)[..n]).Some?
    ensures forall m: nat :: !Escapes(base, policy, file, ceiling, m)
  {
    forall m: nat ensures !Escapes(base, policy, file, ceiling, m) {
      if m < n {
        AppendsPrefix(policy, base, BatchesOf(file)[..n], m + 1);
        assert BatchesOf(file)[..n][..m + 1] == BatchesOf(file)[..m + 1];
      }
    }
  }

  function Intact(bs: seq<Batch>): (file: seq<Found>)
    ensures |file| == |bs| && forall i :: 0 <= i < |bs| ==> file[i] == Found(bs[i], true)
  {
    if bs == [] then [] else Intact(bs[..|bs| - 1]) + [Found(bs[|bs| - 1], true)]
  }

  /** Recovering what recovery left keeps all of it. */
  lemma {:induction false} RecoverTwice(base: int, file: seq<Found>, ceiling: Option<int>, n: nat)
    requires IsRecovered(base, file, ceiling, n)
    ensures IsRecovered(base, Intact(BatchesOf(file)[..n]), ceiling, n)
  {
    var again := Intact(BatchesOf(file)[..n]);
    assert BatchesOf(again)[..n] == BatchesOf(file)[..n];
  }

  /** The recovered prefix is the only longest one. */
  lemma {:induction false} RecoveredIsUnique(base: int, file: seq<Found>, ceiling: Option<int>, m: nat, n: nat)
    requires IsRecovered(base, file, ceiling, m) && IsRecovered(base, file, ceiling, n)
    ensures m == n
  {
  }
}
