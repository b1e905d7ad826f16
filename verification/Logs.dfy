/** One partition's log: sealed segments in offset order, one active segment, and the moves between them. */
module Logs {
  import opened Prelude
  import opened Records
  import opened Segments
  import opened ActiveSegments
  import opened Sealed
  import opened FlatLogs

  /** A read's three outcomes. Success names the segment file and where in it the bytes are. */
  datatype ReadResult = BelowLogStart | AboveLogEnd | Success(segment: int, range: FileRange)

  const NOTHING := FileRange(0, 0)

  datatype Buried = Buried(segment: SealedSegment, atMs: int)

  function Moved(r: Record, shift: int): Record { r.(offset := r.offset + shift) }

  function MovedAll(rs: seq<Record>, shift: int): (out: seq<Record>)
    ensures |out| == |rs| && forall i :: 0 <= i < |rs| ==> out[i] == Moved(rs[i], shift)
  {
    if rs == [] then [] else [Moved(rs[0], shift)] + MovedAll(rs[1..], shift)
  }

  /** A batch restamped: everything in it is a delta from its base, so it all moves together. */
  function Stamped(b: Batch, base: int): Batch {
    Batch(base, base + (b.last - b.base), b.size, b.maxTimestamp, MovedAll(b.records, base - b.base))
  }

  // ------------------------------------------------------------------ finding a segment

  /** The segment a read of this offset is routed to: the last one based at or below it. */
  ghost predicate Routes(gs: seq<SealedSegment>, offset: int, n: nat) {
    && n <= |gs|
    && (0 < n ==> gs[n - 1].base <= offset)
    && (n < |gs| ==> offset < gs[n].base)
  }

  /** upper_bound: how many segments are based at or below the offset. */
  method UpperBound(gs: seq<SealedSegment>, offset: int) returns (n: nat)
    requires forall i, j :: 0 <= i < j < |gs| ==> gs[i].base < gs[j].base
    ensures Routes(gs, offset, n)
  {
    var low: nat, high: nat := 0, |gs|;
    while low < high
      invariant low <= high <= |gs|
      invariant 0 < low ==> gs[low - 1].base <= offset
      invariant high < |gs| ==> offset < gs[high].base
    {
      var mid := (low + high) / 2;
      if gs[mid].base <= offset { low := mid + 1; } else { high := mid; }
    }
    return low;
  }

  // --------------------------------------------------------------------------- the log

  class Log {
    const policy: Policy
    const retention: Retention
    var sealed: seq<SealedSegment>
    var active: ActiveSegment
    var graveyard: seq<Buried>
    var logEndOffset: int
    var highWatermark: int

    function LogStart(): int
      reads this, active
    {
      if sealed != [] then sealed[0].base else active.base
    }

    ghost predicate Valid()
      reads this, active
    {
      && active.Valid() && active.policy == policy
      && Chained(sealed, LogStart(), active.base)
      && logEndOffset == active.nextOffset
      && highWatermark <= logEndOffset
    }

    /** No cleaner has been here: every offset from the log start to the log end is held. */
    ghost predicate Whole()
      reads this, active
    {
      Valid() && Gapless(policy, sealed, active.base)
    }

    /** The log as one flat sequence of batches. */
    ghost function Flat(): seq<Batch>
      reads this, active
    {
      Flatten(sealed) + active.batches
    }

    /** The batches of the segment file with this base. */
    function FileAt(base: int): seq<Batch>
      reads this, active
    {
      if base == active.base then active.batches else FileIn(sealed, base)
    }

    constructor (policy: Policy, retention: Retention)
      ensures Valid() && Whole() && fresh(active) && Flat() == [] && logEndOffset == highWatermark == 0
      ensures this.policy == policy && this.retention == retention
      ensures sealed == [] && graveyard == [] && active.base == 0 && active.batches == []
    {
      this.policy, this.retention := policy, retention;
      sealed, graveyard, logEndOffset, highWatermark := [], [], 0, 0;
      active := new ActiveSegment(0, policy);
    }

    /** A log over segments already on disk; both published offsets start where recovery left off. */
    constructor Over(policy: Policy, retention: Retention, sealed: seq<SealedSegment>, active: ActiveSegment)
      requires active.Valid() && active.policy == policy && Chained(sealed, StartOfLog(sealed, active.base), active.base)
      ensures Valid() && this.policy == policy && this.retention == retention
      ensures this.sealed == sealed && this.active == active
      ensures logEndOffset == highWatermark == active.nextOffset && graveyard == []
    {
      this.policy, this.retention := policy, retention;
      this.sealed, this.active, graveyard := sealed, active, [];
      logEndOffset, highWatermark := active.nextOffset, active.nextOffset;
    }

    // ---------------------------------------------------------------- appending, rolling

    predicate Due(nowMs: int)
      reads this, active
    {
      RollDue(policy, active.base, active.batches, active.index, active.firstAppendMs, nowMs)
    }

    /** What an append now would find active, once it has rolled if it is due to. */
    function LiveBase(nowMs: int): int
      reads this, active
    {
      if Due(nowMs) then logEndOffset else active.base
    }

    function LiveBatches(nowMs: int): seq<Batch>
      reads this, active
    {
      if Due(nowMs) then [] else active.batches
    }

    /** The batch has a place in the segment it would go to, and in that segment's index. */
    predicate Accepts(b: Batch, nowMs: int)
      reads this, active
    {
      AppendAll(policy, LiveBase(nowMs), LiveBatches(nowMs) + [Stamped(b, logEndOffset)]).Some?
    }

    /** The bytes and the offsets the active segment has used up. */
    function Used(): nat
      reads this, active
    {
      Total(active.batches)
    }

    function Span(): int
      reads this, active
    {
      active.nextOffset - active.base
    }

    /** This many bytes and offsets more, and 32 bits still describe the active segment. */
    predicate Room(bytes: nat, offsets: nat)
      reads this, active
    {
      Used() + bytes <= MAX_UINT32 && Span() + offsets <= MAX_UINT32
    }

    lemma {:induction false} RoomIsEnough(b: Batch, nowMs: int)
      requires Valid() && Sound(b) && Room(b.size, b.last - b.base + 1)
      ensures Accepts(b, nowMs)
    {
      AppendsDerive(policy, active.base, active.batches);
      ContiguousFacts(active.base, active.batches);
      RoomForOne(policy, LiveBase(nowMs), LiveBatches(nowMs), Stamped(b, logEndOffset));
    }

    lemma {:induction false} RollMakesRoom(nowMs: int, b: Batch)
      requires Valid()
      ensures active.base <= LiveBase(nowMs) <= logEndOffset == active.nextOffset && Total(LiveBatches(nowMs)) <= Used()
      ensures var live := LiveBatches(nowMs); Total(live + [Stamped(b, logEndOffset)]) == Total(live) + b.size
    {
      ContiguousFacts(active.base, active.batches);
      AppendsDerive(policy, active.base, active.batches);
      StartOfPrefix(LiveBatches(nowMs), [Stamped(b, logEndOffset)], |LiveBatches(nowMs)|);
    }

    /** Seals the active segment and starts another, if the policy says so. Readers see no change. */
    method MaybeRoll(nowMs: int)
      requires Valid()
      modifies this, active
      ensures Valid() && (active == old(active) || fresh(active))
      ensures Flat() == old(Flat()) && LogStart() == old(LogStart())
      ensures logEndOffset == old(logEndOffset) && highWatermark == old(highWatermark)
      ensures graveyard == old(graveyard)
      ensures old(Whole()) ==> Whole()
      ensures old(NoGaps(sealed, active.base)) ==> NoGaps(sealed, active.base)
      ensures old(Due(nowMs)) ==> fresh(active)
      ensures !old(Due(nowMs)) ==> unchanged(this) && unchanged(active)
      ensures active.base == old(LiveBase(nowMs)) && active.batches == old(LiveBatches(nowMs))
      ensures Rolled(old(Due(nowMs)), old(sealed), old(active.base), old(active.batches), old(active.nextOffset), sealed)
    {
      var due := active.ShouldRoll(nowMs);
      if !due { return; }
      var next := new ActiveSegment(active.nextOffset, policy);
      var g := Seal(active);
      RolledParts(policy, sealed, g);
      sealed := sealed + [g];
      active := next;
    }

    /** The append itself, under the shared lock: the stamped batch goes to the active segment. */
    method AppendStamped(stamped: Batch, nowMs: int) returns (done: bool)
      requires Valid() && Sound(stamped) && stamped.base == logEndOffset && 0 <= nowMs
      modifies active, this`logEndOffset, this`highWatermark
      ensures Valid() && (old(Whole()) ==> Whole())
      ensures done <==> AppendAll(policy, active.base, old(active.batches) + [stamped]).Some?
      ensures done ==> active.batches == old(active.batches) + [stamped]
      ensures done ==> Flat() == old(Flat()) + [stamped] && logEndOffset == stamped.last + 1 == highWatermark
      ensures !done ==> unchanged(this) && unchanged(active)
    {
      AppendSnoc(policy, active.base, active.batches, stamped);
      ghost var flat := Flat();
      var error := active.Append(stamped.base, stamped, nowMs);
      if error.Some? { return false; }
      assert Flat() == flat + [stamped];
      logEndOffset := active.nextOffset;
      highWatermark := active.nextOffset;
      return true;
    }

    /**
     Appends one batch at the end of the log and says where it landed. None is a batch with no place in
     the active segment's index, and never happens while 32 bits describe that segment.
     */
    method Append(b: Batch, nowMs: int) returns (base: Option<int>)
      requires Valid() && Sound(b) && 0 <= nowMs
      modifies this, active
      ensures Valid() && (active == old(active) || fresh(active))
      ensures old(Whole()) ==> Whole()
      ensures old(NoGaps(sealed, active.base)) ==> NoGaps(sealed, active.base)
      ensures base.Some? <==> old(Accepts(b, nowMs))
      ensures old(Room(b.size, b.last - b.base + 1)) ==> base.Some?
      ensures Used() <= old(Used()) + b.size && Span() <= old(Span()) + (b.last - b.base) + 1
      ensures Rolled(old(Due(nowMs)), old(sealed), old(active.base), old(active.batches), old(active.nextOffset), sealed)
      ensures active.base == old(LiveBase(nowMs))
      ensures active.batches == old(LiveBatches(nowMs)) + if base.Some? then [Stamped(b, base.value)] else []
      ensures base.Some? ==>
                && base.value == old(logEndOffset)
                && Flat() == old(Flat()) + [Stamped(b, base.value)]
                && logEndOffset == base.value + (b.last - b.base) + 1 == highWatermark
      ensures base.None? ==> Flat() == old(Flat()) && logEndOffset == old(logEndOffset)
                             && highWatermark == old(highWatermark)
      ensures LogStart() == old(LogStart()) && graveyard == old(graveyard)
    {
      if Room(b.size, b.last - b.base + 1) { RoomIsEnough(b, nowMs); }
      RollMakesRoom(nowMs, b);
      MaybeRoll(nowMs);
      var at := logEndOffset;
      var done := AppendStamped(Stamped(b, at), nowMs);
      return if done then Some(at) else None;
    }

    // -------------------------------------------------------------------------- reading

    /** A read below the active segment: routed by base offset to the last segment based at or below it. */
    method ReadSealed(offset: int, maxBytes: nat) returns (r: ReadResult, ghost n: nat)
      requires Valid() && offset < active.base
      ensures offset < LogStart() <==> r == BelowLogStart
      ensures LogStart() <= offset ==>
                0 < n && Routes(sealed, offset, n)
                && r == Success(sealed[n - 1].base, ReadRange(sealed[n - 1].batches, offset, maxBytes))
    {
      ChainedSpan(sealed, LogStart(), active.base);
      var above := UpperBound(sealed, offset);
      if above == 0 { return BelowLogStart, above; }
      var g := sealed[above - 1];
      var range := Segments.Read(g.base, g.batches, g.index, offset, maxBytes);
      return Success(g.base, range.value), above;
    }

    method ReadActive(offset: int, maxBytes: nat) returns (range: FileRange)
      requires Valid() && active.base <= offset
      ensures range == ReadRange(active.batches, offset, maxBytes)
    {
      ContiguousFacts(active.base, active.batches);
      AppendsDerive(policy, active.base, active.batches);
      var r := Segments.Read(active.base, active.batches, active.index, offset, maxBytes);
      return r.value;
    }

    /** The routing of a read, and the answer of the segment it is routed to. */
    method Read(offset: int, maxBytes: nat) returns (r: ReadResult, ghost n: nat)
      requires Valid()
      ensures r.AboveLogEnd? <==> logEndOffset < offset
      ensures offset == logEndOffset ==> r == Success(active.base, NOTHING)
      ensures r.BelowLogStart? <==> offset < LogStart() && offset < logEndOffset
      ensures active.base <= offset < logEndOffset ==>
                r == Success(active.base, ReadRange(active.batches, offset, maxBytes))
      ensures LogStart() <= offset < active.base ==>
                0 < n && Routes(sealed, offset, n)
                && r == Success(sealed[n - 1].base, ReadRange(sealed[n - 1].batches, offset, maxBytes))
      ensures Whole() && LogStart() <= offset < logEndOffset ==>
                r.Success? && Serves(FileAt(r.segment), Flat(), offset, maxBytes, r.range)
    {
      EndIsPastBase();
      n := 0;
      if logEndOffset < offset { return AboveLogEnd, n; }
      if offset == logEndOffset { return Success(active.base, NOTHING), n; }
      if active.base <= offset {
        var range := ReadActive(offset, maxBytes);
        ActiveServes(Flatten(sealed), active.base, active.batches, offset, maxBytes);
        return Success(active.base, range), n;
      }
      r, n := ReadSealed(offset, maxBytes);
      if Gapless(policy, sealed, active.base) && LogStart() <= offset { SealedReadServes(offset, maxBytes, n); }
    }

    lemma {:induction false} EndIsPastBase()
      requires Valid()
      ensures LogStart() <= active.base <= logEndOffset == NextOffset(active.base, active.batches)
    {
      ContiguousFacts(active.base, active.batches);
      AppendsDerive(policy, active.base, active.batches);
      ChainedBounds(sealed, LogStart(), active.base);
    }

    lemma {:induction false} SealedReadServes(offset: int, maxBytes: nat, n: nat)
      requires Whole() && offset < active.base && 0 < n && Routes(sealed, offset, n)
      ensures var g := sealed[n - 1];
              g.base != active.base && Serves(FileAt(g.base), Flat(), offset, maxBytes, ReadRange(g.batches, offset, maxBytes))
    {
      ChainedSpan(sealed, LogStart(), active.base);
      FileInAt(sealed, n - 1);
      SealedServes(policy, sealed, active.base, active.batches, n - 1, offset, maxBytes);
    }

    // ----------------------------------------------------------------------- truncation

    /**
     Discards everything from the offset on. What is left is everything below it up to the first hole in
     the segment the cut falls in, so all of it for an uncompacted log; offsets are never reused, so an
     emptied log restarts there. False is recovery letting an index invariant escape.
     */
    method TruncateTo(offset: int, nowMs: int) returns (ok: bool)
      requires Valid() && 0 <= nowMs
      modifies this
      ensures Valid() && (old(Whole()) ==> ok && Whole()) && graveyard == old(graveyard)
      ensures !ok || old(logEndOffset) <= offset ==> unchanged(this)
      ensures !ok ==> offset < logEndOffset && Unindexable(policy, sealed, active.base, offset)
      ensures ok && offset < old(logEndOffset) ==>
                && fresh(active)
                && Flat() <= Below(old(Flat()), offset)
                && (Flat() == Below(old(Flat()), offset) <==> old(CutIsClean(sealed, active.base, offset)))
                && (old(Whole()) ==> Flat() == Below(old(Flat()), offset) && logEndOffset == NextOffset(LogStart(), Flat()))
                && LogStart() == Min(old(LogStart()), offset)
                && logEndOffset <= offset
                && highWatermark == Min(old(highWatermark), logEndOffset)
    {
      if logEndOffset <= offset { return true; }
      if Gapless(policy, sealed, active.base) { WholeIsIndexable(policy, sealed, active.base, offset); }
      ok := CutAt(offset, nowMs);
    }

    method CutAt(offset: int, nowMs: int) returns (ok: bool)
      requires Valid() && 0 <= nowMs
      modifies this
      ensures Valid() && graveyard == old(graveyard)
      ensures !ok ==> unchanged(this) && Unindexable(policy, sealed, active.base, offset)
      ensures ok ==> fresh(active) && highWatermark == Min(old(highWatermark), logEndOffset)
      ensures ok ==> CutsTo(policy, old(sealed), old(active.base), old(active.batches), offset, sealed, active.base, active.batches)
      ensures logEndOffset == NextOffset(active.base, active.batches)
    {
      AppendsDerive(policy, active.base, active.batches);
      var kept, live := Cut(policy, sealed, active.base, active.batches, offset, nowMs);
      if live == null { return false; }
      AppendsDerive(policy, live.base, live.batches);
      sealed, active := kept, live;
      logEndOffset := active.nextOffset;
      if logEndOffset < highWatermark { highWatermark := logEndOffset; }
      return true;
    }

    // ------------------------------------------------------------------------ retention

    /** Takes the oldest sealed segment out of the log; its file stays readable until the graveyard is swept. */
    method BuryOldest(nowMs: int)
      requires sealed != []
      modifies this`sealed, this`graveyard
      ensures sealed == old(sealed)[1..]
      ensures graveyard == old(graveyard) + [Buried(old(sealed)[0], nowMs)]
    {
      graveyard := graveyard + [Buried(sealed[0], nowMs)];
      sealed := sealed[1..];
    }

    /** The age pass: stops at the first segment worth keeping. */
    method ExpireOld(nowMs: int) returns (ghost gone: seq<SealedSegment>)
      modifies this`sealed, this`graveyard
      ensures gone + sealed == old(sealed) && graveyard == old(graveyard) + BuriedAll(gone, nowMs)
      ensures sealed == old(sealed)[AgeCut(retention, old(sealed), nowMs)..]
    {
      gone := [];
      while sealed != [] && Expired(retention, sealed[0], nowMs)
        invariant gone + sealed == old(sealed) && graveyard == old(graveyard) + BuriedAll(gone, nowMs)
        invariant |gone| + AgeCut(retention, sealed, nowMs) == AgeCut(retention, old(sealed), nowMs)
        decreases |sealed|
      {
        BuriedSnoc(gone, sealed[0], nowMs);
        TakeOne(gone, sealed);
        gone := gone + [sealed[0]];
        BuryOldest(nowMs);
      }
      SplitAtGone(gone, sealed);
    }

    /** The size pass: takes segments for as long as the partition is over its limit. */
    method ShrinkToLimit(nowMs: int) returns (ghost gone: seq<SealedSegment>)
      modifies this`sealed, this`graveyard
      ensures gone + sealed == old(sealed) && graveyard == old(graveyard) + BuriedAll(gone, nowMs)
      ensures sealed == old(sealed)[SizeCut(retention, old(sealed), Total(active.batches))..]
    {
      gone := [];
      TakeNone(sealed);
      if retention.retentionBytes.None? { return; }
      ghost var live := Total(active.batches);
      var total := Total(active.batches) + Size(sealed);
      while retention.retentionBytes.value < total && sealed != []
        invariant gone + sealed == old(sealed) && graveyard == old(graveyard) + BuriedAll(gone, nowMs)
        invariant total == live + Size(sealed)
        invariant |gone| + SizeCut(retention, sealed, live) == SizeCut(retention, old(sealed), live)
        decreases |sealed|
      {
        BuriedSnoc(gone, sealed[0], nowMs);
        TakeOne(gone, sealed);
        gone := gone + [sealed[0]];
        total := total - Total(sealed[0].batches);
        BuryOldest(nowMs);
      }
      SplitAtGone(gone, sealed);
    }

    /** Deletes what the retention policy no longer wants, oldest first, and never the active segment. */
    method ApplyRetention(nowMs: int)
      requires Valid()
      modifies this`sealed, this`graveyard
      ensures Valid() && (old(Whole()) ==> Whole())
      ensures sealed == Keep(retention, old(sealed), Total(active.batches), nowMs)
      ensures |sealed| <= |old(sealed)|
      ensures var gone := old(sealed)[..|old(sealed)| - |sealed|];
              graveyard == old(graveyard) + BuriedAll(gone, nowMs) && old(Flat()) == Flatten(gone) + Flat()
    {
      ghost var start, lo := sealed, LogStart();
      ghost var gone := Discard(nowMs);
      RetainedParts(policy, start, lo, active.base, active.batches, gone, sealed);
    }

    /** The two passes, one after the other. */
    method Discard(nowMs: int) returns (ghost gone: seq<SealedSegment>)
      modifies this`sealed, this`graveyard
      ensures gone + sealed == old(sealed) && graveyard == old(graveyard) + BuriedAll(gone, nowMs)
      ensures sealed == Keep(retention, old(sealed), Total(active.batches), nowMs)
    {
      ghost var aged := ExpireOld(nowMs);
      ghost var shed := ShrinkToLimit(nowMs);
      BuriedConcat(aged, shed, nowMs);
      Associate(old(graveyard), BuriedAll(aged, nowMs), BuriedAll(shed, nowMs));
      Associate(aged, shed, sealed);
      gone := aged + shed;
    }

    // ------------------------------------------------------------------ what the cleaner does

    /** Swaps a cleaned segment in for the one based there, or reports that it is gone. */
    method ReplaceSegment(base: int, cleaned: SealedSegment, nowMs: int) returns (done: bool)
      requires Valid() && Opened(cleaned) && cleaned.base == base
      requires forall g :: g in sealed && g.base == base ==> cleaned.next <= g.next
      modifies this`sealed, this`graveyard
      ensures Valid()
      ensures done <==> exists g :: g in old(sealed) && g.base == base
      ensures sealed == Replaced(old(sealed), base, [cleaned])
      ensures !done ==> graveyard == old(graveyard)
      ensures done ==> exists g :: g in old(sealed) && g.base == base && graveyard == old(graveyard) + [Buried(g, nowMs)]
    {
      ReplacedIsChained(sealed, LogStart(), active.base, base, [cleaned]);
      var at := Find(base);
      ReplacedAt(sealed, base, [cleaned], at);
      if at == |sealed| { return false; }
      graveyard := graveyard + [Buried(sealed[at], nowMs)];
      sealed := sealed[..at] + [cleaned] + sealed[at + 1..];
      return true;
    }

    /** Drops the segment based there, for one compaction emptied. */
    method RemoveSegment(base: int, nowMs: int) returns (done: bool)
      requires Valid()
      modifies this`sealed, this`graveyard
      ensures Valid()
      ensures done <==> exists g :: g in old(sealed) && g.base == base
      ensures sealed == Replaced(old(sealed), base, [])
      ensures !done ==> graveyard == old(graveyard)
      ensures done ==> exists g :: g in old(sealed) && g.base == base && graveyard == old(graveyard) + [Buried(g, nowMs)]
    {
      ReplacedIsChained(sealed, LogStart(), active.base, base, []);
      var at := Find(base);
      ReplacedAt(sealed, base, [], at);
      if at == |sealed| { return false; }
      graveyard := graveyard + [Buried(sealed[at], nowMs)];
      sealed := sealed[..at] + [] + sealed[at + 1..];
      return true;
    }

    method Find(base: int) returns (at: nat)
      ensures at <= |sealed|
      ensures at < |sealed| ==> sealed[at].base == base
      ensures forall i :: 0 <= i < at ==> sealed[i].base != base
    {
      at := 0;
      while at < |sealed| && sealed[at].base != base
        invariant at <= |sealed|
        invariant forall i :: 0 <= i < at ==> sealed[i].base != base
      {
        at := at + 1;
      }
    }

    /** Frees what was buried long enough ago that no range handed out can still need it; the rest stay in order. */
    method SweepGraveyard(nowMs: int)
      modifies this`graveyard
      ensures graveyard == Unswept(old(graveyard), retention.segmentDeleteDelayMs, nowMs)
    {
      var rest := graveyard;
      var kept := [];
      while rest != []
        invariant kept + Unswept(rest, retention.segmentDeleteDelayMs, nowMs)
               == Unswept(old(graveyard), retention.segmentDeleteDelayMs, nowMs)
        decreases |rest|
      {
        if nowMs - rest[0].atMs < retention.segmentDeleteDelayMs { kept := kept + [rest[0]]; }
        rest := rest[1..];
      }
      graveyard := kept;
    }
  }

  // ---------------------------------------------------------------- what the methods rest on

  /** Sealed from an active segment that held these batches. */
  ghost predicate SealedFrom(g: SealedSegment, base: int, batches: seq<Batch>, next: int) {
    && Opened(g) && g.base == base && g.batches == batches && g.next == next
    && exists from: nat :: StartsTail(batches, g.index, from) && g.largest == LargestTimestamp(batches[from..])
  }

  /** The sealed segments after an active one was rolled, or was not due to be. */
  ghost predicate Rolled(
    due: bool, gs: seq<SealedSegment>, base: int, batches: seq<Batch>, next: int, gs': seq<SealedSegment>)
  {
    if due then |gs'| == |gs| + 1 && gs'[..|gs|] == gs && SealedFrom(gs'[|gs|], base, batches, next) else gs' == gs
  }

  lemma {:induction false} RoomForOne(policy: Policy, base: int, bs: seq<Batch>, b: Batch)
    requires Contiguous(base, bs) && Sound(b) && b.base == NextOffset(base, bs)
    requires Total(bs) + b.size <= MAX_UINT32 && b.last + 1 - base <= MAX_UINT32
    ensures AppendAll(policy, base, bs + [b]).Some?
  {
    var all := bs + [b];
    assert all[..|all| - 1] == bs;
    ContiguousFacts(base, all);
    StartOfPrefix(bs, [b], |bs|);
    AppendsSucceed(policy, base, all);
  }

  /** The buried segments not yet old enough to be freed. */
  function Unswept(xs: seq<Buried>, delayMs: int, nowMs: int): seq<Buried> {
    if xs == [] then []
    else (if nowMs - xs[0].atMs < delayMs then [xs[0]] else []) + Unswept(xs[1..], delayMs, nowMs)
  }

  function FileIn(gs: seq<SealedSegment>, base: int): seq<Batch> {
    if gs == [] then [] else if gs[0].base == base then gs[0].batches else FileIn(gs[1..], base)
  }

  lemma {:induction false} FileInAt(gs: seq<SealedSegment>, k: nat)
    requires k < |gs| && forall i :: 0 <= i < k ==> gs[i].base < gs[k].base
    ensures FileIn(gs, gs[k].base) == gs[k].batches
  {
    if 0 < k { FileInAt(gs[1..], k - 1); }
  }

  lemma {:induction false} ActiveServes(before: seq<Batch>, base: int, tail: seq<Batch>, offset: int, maxBytes: nat)
    requires Contiguous(base, tail) && base <= offset < NextOffset(base, tail)
    ensures Serves(tail, before + tail, offset, maxBytes, ReadRange(tail, offset, maxBytes))
  {
    assert tail + [] == tail;
    ContiguousServes(base, tail, before, [], offset, maxBytes);
  }

  /** Sealing closes the segment and reopens it, which derives its end from the last index entry on. */
  method Seal(active: ActiveSegment) returns (g: SealedSegment)
    requires active.Valid() && active.batches != []
    ensures Opened(g) && Uncompacted(active.policy, g)
    ensures g.base == active.base && g.batches == active.batches && g.index == active.index
    ensures g.next == active.nextOffset && g.largest <= active.largestTimestamp
    ensures SealedFrom(g, active.base, active.batches, active.nextOffset) && exists from :: SealedAs(active.policy, g, from)
  {
    AppendsDerive(active.policy, active.base, active.batches);
    ContiguousFacts(active.base, active.batches);
    ghost var from: nat;
    var next, largest;
    next, largest, from := DeriveEndState(active.base, active.batches, active.index);
    LargestOfTail(active.batches, from);
    g := SealedSegment(active.base, active.batches, active.index, next, largest);
    assert SealedAs(active.policy, g, from);
  }

  /** A roll, by its parts: the active segment's batches join the sealed ones and nothing else changes. */
  lemma {:induction false} RolledParts(policy: Policy, gs: seq<SealedSegment>, g: SealedSegment)
    requires Chained(gs, StartOfLog(gs, g.base), g.base) && Opened(g) && Uncompacted(policy, g)
    ensures StartOfLog(gs + [g], g.next) == StartOfLog(gs, g.base)
    ensures Chained(gs + [g], StartOfLog(gs, g.base), g.next)
    ensures Flatten(gs + [g]) + [] == Flatten(gs) + g.batches
    ensures Gapless(policy, gs, g.base) ==> Gapless(policy, gs + [g], g.next)
    ensures NoGaps(gs, g.base) ==> NoGaps(gs + [g], g.next)
  {
    ChainedSnoc(gs, StartOfLog(gs, g.base), g);
    if Gapless(policy, gs, g.base) { GaplessSnoc(policy, gs, g); }
    if NoGaps(gs, g.base) { NoGapsSnoc(gs, g); }
    FlattenConcat(gs, [g]);
    assert [g][1..] == [] && g.batches + [] == g.batches;
    assert Flatten(gs + [g]) + [] == Flatten(gs + [g]);
  }

  lemma {:induction false} TakeNone<T>(rest: seq<T>)
    ensures [] + rest == rest && rest[0..] == rest
  {
  }

  lemma {:induction false} TakeOne<T>(gone: seq<T>, rest: seq<T>)
    requires rest != []
    ensures (gone + [rest[0]]) + rest[1..] == gone + rest
  {
  }

  lemma {:induction false} SplitAtGone<T>(gone: seq<T>, rest: seq<T>)
    ensures (gone + rest)[|gone|..] == rest && (gone + rest)[..|gone|] == gone
  {
  }

  function BuriedAll(gs: seq<SealedSegment>, atMs: int): seq<Buried> {
    if gs == [] then [] else [Buried(gs[0], atMs)] + BuriedAll(gs[1..], atMs)
  }

  lemma {:induction false} BuriedConcat(a: seq<SealedSegment>, b: seq<SealedSegment>, atMs: int)
    ensures BuriedAll(a + b, atMs) == BuriedAll(a, atMs) + BuriedAll(b, atMs)
    decreases |a|
  {
    if a == [] {
      assert a + b == b;
    } else {
      assert (a + b)[1..] == a[1..] + b;
      BuriedConcat(a[1..], b, atMs);
    }
  }

  lemma {:induction false} BuriedSnoc(gs: seq<SealedSegment>, g: SealedSegment, atMs: int)
    ensures BuriedAll(gs + [g], atMs) == BuriedAll(gs, atMs) + [Buried(g, atMs)]
  {
    BuriedConcat(gs, [g], atMs);
    assert [g][1..] == [];
  }

  lemma {:induction false} RetainedIsValid(policy: Policy, gs: seq<SealedSegment>, lo: int, end: int, n: nat)
    requires Chained(gs, lo, end) && n <= |gs|
    ensures Chained(gs[n..], if gs[n..] != [] then gs[n].base else end, end)
    ensures Gapless(policy, gs, end) ==> Gapless(policy, gs[n..], end)
  {
    ChainedTail(gs, lo, end, n);
    ChainedRelo(gs[n..], lo, end);
    if Gapless(policy, gs, end) { GaplessTail(policy, gs, end, n); }
  }

  /** Retention, by its parts: the oldest segments gone, whole, and nothing else changed. */
  lemma {:induction false} RetainedParts(
    policy: Policy, gs: seq<SealedSegment>, lo: int, end: int, tail: seq<Batch>, gone: seq<SealedSegment>, rest: seq<SealedSegment>)
    requires Chained(gs, lo, end) && gs == gone + rest
    ensures Chained(rest, StartOfLog(rest, end), end)
    ensures Gapless(policy, gs, end) ==> Gapless(policy, rest, end)
    ensures gs[..|gs| - |rest|] == gone
    ensures Flatten(gs) + tail == Flatten(gone) + (Flatten(rest) + tail)
  {
    SplitAtGone(gone, rest);
    RetainedIsValid(policy, gs, lo, end, |gone|);
    FlattenConcat(gone, rest);
    Associate(Flatten(gone), Flatten(rest), tail);
  }

  lemma {:induction false} ChainedRelo(gs: seq<SealedSegment>, lo: int, end: int)
    requires Chained(gs, lo, end)
    ensures Chained(gs, if gs == [] then end else gs[0].base, end)
  {
  }

  /** The segments with the one based there, if any, replaced by these. */
  function Replaced(gs: seq<SealedSegment>, base: int, instead: seq<SealedSegment>): seq<SealedSegment> {
    if gs == [] then []
    else if gs[0].base == base then instead + gs[1..]
    else [gs[0]] + Replaced(gs[1..], base, instead)
  }

  lemma {:induction false} SpliceTail<T>(s: seq<T>, mid: seq<T>, at: nat)
    requires 0 < at < |s|
    ensures s[..at] + mid + s[at + 1..] == [s[0]] + (s[1..][..at - 1] + mid + s[1..][at..])
  {
  }

  lemma {:induction false} ReplacedAt(gs: seq<SealedSegment>, base: int, instead: seq<SealedSegment>, at: nat)
    requires at <= |gs| && (at < |gs| ==> gs[at].base == base)
    requires forall i :: 0 <= i < at ==> gs[i].base != base
    ensures Replaced(gs, base, instead) == if at == |gs| then gs else gs[..at] + instead + gs[at + 1..]
  {
    if at != 0 {
      ReplacedAt(gs[1..], base, instead, at - 1);
      if at < |gs| { SpliceTail(gs, instead, at); }
    }
  }

  lemma {:induction false} ReplacedChained(gs: seq<SealedSegment>, lo: int, end: int, base: int, instead: seq<SealedSegment>)
    requires Chained(gs, lo, end)
    requires |instead| <= 1 && forall w :: w in instead ==> Opened(w) && w.base == base
    requires forall g, w :: g in gs && g.base == base && w in instead ==> w.next <= g.next
    ensures Chained(Replaced(gs, base, instead), lo, end)
  {
    if gs != [] {
      OpenedSpan(gs[0]);
      if gs[0].base == base {
        if instead == [] {
          assert instead + gs[1..] == gs[1..];
          ChainedWiden(gs[1..], gs[0].next, end, lo, end);
        } else {
          var w := instead[0];
          assert gs[0] in gs && w in instead;
          assert instead + gs[1..] == [w] + gs[1..] && ([w] + gs[1..])[1..] == gs[1..];
          ChainedWiden(gs[1..], gs[0].next, end, w.next, end);
        }
      } else {
        ReplacedChained(gs[1..], gs[0].next, end, base, instead);
      }
    }
  }

  lemma {:induction false} ReplacedIsChained(gs: seq<SealedSegment>, lo: int, end: int, base: int, instead: seq<SealedSegment>)
    requires Chained(gs, lo, end)
    requires |instead| <= 1 && forall w :: w in instead ==> Opened(w) && w.base == base
    requires forall g, w :: g in gs && g.base == base && w in instead ==> w.next <= g.next
    ensures var out := Replaced(gs, base, instead); Chained(out, if out == [] then end else out[0].base, end)
  {
    ReplacedChained(gs, lo, end, base, instead);
    ChainedRelo(Replaced(gs, base, instead), lo, end);
  }
}
