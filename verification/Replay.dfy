/** Replaying a partition of committed offsets: what the read loop reaches, and where it stops. */
module Replay {
  import opened Prelude
  import opened Records
  import opened Segments
  import opened ActiveSegments
  import opened Sealed
  import opened FlatLogs
  import opened Logs
  import opened Cleaning
  import opened CommitRecords
  import opened CommitHistory

  const CHUNK: nat := 1048576

  // ------------------------------------------------------------- what a replay gets to read

  /** The batches from the log start to the first gap between segments. */
  ghost function Reached(gs: seq<SealedSegment>, end: int, tail: seq<Batch>): seq<Batch> {
    if gs == [] then tail
    else gs[0].batches + if Joined(gs, end, 0) then Reached(gs[1..], end, tail) else []
  }

  lemma {:induction false} JoinedTail(gs: seq<SealedSegment>, end: int, k: nat)
    requires k + 1 < |gs|
    ensures Joined(gs[1..], end, k) <==> Joined(gs, end, k + 1)
  {
  }

  /** With no gap between segments a replay reaches everything. */
  lemma {:induction false} NoGapsReachesAll(gs: seq<SealedSegment>, end: int, tail: seq<Batch>)
    requires NoGaps(gs, end)
    ensures Reached(gs, end, tail) == Flatten(gs) + tail
  {
    if gs == [] {
      assert Flatten(gs) + tail == tail;
    } else {
      forall k | 0 <= k < |gs[1..]| ensures Joined(gs[1..], end, k) { JoinedTail(gs, end, k); }
      NoGapsReachesAll(gs[1..], end, tail);
      assert gs[0].batches + (Flatten(gs[1..]) + tail) == (gs[0].batches + Flatten(gs[1..])) + tail;
    }
  }

  /** Past the first gap nothing at all is read. */
  lemma {:induction false} GapStopsReplay(gs: seq<SealedSegment>, end: int, tail: seq<Batch>, k: nat)
    requires k < |gs| && !Joined(gs, end, k) && forall i :: 0 <= i < k ==> Joined(gs, end, i)
    ensures Reached(gs, end, tail) == Flatten(gs[..k + 1])
  {
    if k == 0 {
      assert gs[..1][1..] == [] && gs[..1][0] == gs[0];
    } else {
      assert Joined(gs, end, 0);
      JoinedTail(gs, end, k - 1);
      forall i | 0 <= i < k - 1 ensures Joined(gs[1..], end, i) { JoinedTail(gs, end, i); }
      GapStopsReplay(gs[1..], end, tail, k - 1);
      assert gs[..k + 1][1..] == gs[1..][..k];
    }
  }

  lemma {:induction false} FirstGap(gs: seq<SealedSegment>, end: int) returns (k: nat)
    requires !NoGaps(gs, end)
    ensures k < |gs| && !Joined(gs, end, k) && forall i :: 0 <= i < k ==> Joined(gs, end, i)
  {
    k := 0;
    while Joined(gs, end, k)
      invariant k < |gs| && forall i :: 0 <= i < k ==> Joined(gs, end, i)
      decreases |gs| - k
    {
      if k + 1 == |gs| { assert NoGaps(gs, end); }
      k := k + 1;
    }
  }

  /** With its first gap at k, what a replay misses is what lies past it. */
  lemma {:induction false} MissedPastGap(gs: seq<SealedSegment>, end: int, tail: seq<Batch>, k: nat)
    requires k < |gs| && !Joined(gs, end, k) && forall i :: 0 <= i < k ==> Joined(gs, end, i)
    ensures Flatten(gs) + tail == Reached(gs, end, tail) + (Flatten(gs[k + 1..]) + tail)
  {
    GapStopsReplay(gs, end, tail, k);
    FlattenConcat(gs[..k + 1], gs[k + 1..]);
    SplitSeq(gs, k + 1);
    Associate(Flatten(gs[..k + 1]), Flatten(gs[k + 1..]), tail);
  }

  lemma {:induction false} NothingAdded<T>(a: seq<T>, b: seq<T>)
    ensures a == a + b <==> b == []
  {
    assert |a + b| == |a| + |b|;
  }

  /**
   A replay reaches the whole log if and only if nothing is kept past a gap: no two sealed segments have
   a gap between them, and one before the active segment only while that is empty.
   */
  lemma {:induction false} ReachesAllExactly(gs: seq<SealedSegment>, lo: int, end: int, tail: seq<Batch>)
    requires Chained(gs, lo, end)
    ensures Reached(gs, end, tail) == Flatten(gs) + tail
       <==> forall k :: 0 <= k < |gs| ==> Joined(gs, end, k) || (k == |gs| - 1 && tail == [])
  {
    if NoGaps(gs, end) {
      NoGapsReachesAll(gs, end, tail);
    } else {
      var k := FirstGap(gs, end);
      MissedPastGap(gs, end, tail, k);
      NothingAdded(Reached(gs, end, tail), Flatten(gs[k + 1..]) + tail);
      if k + 1 < |gs| { SpanAt(gs, lo, end, k + 1); }
      SomethingIsLost(gs, tail, k);
    }
  }

  lemma {:induction false} SomethingIsLost(gs: seq<SealedSegment>, tail: seq<Batch>, k: nat)
    requires k < |gs| && (k + 1 < |gs| ==> Opened(gs[k + 1]))
    ensures Flatten(gs[k + 1..]) + tail == [] <==> k == |gs| - 1 && tail == []
  {
    if k + 1 < |gs| { assert gs[k + 1..][0] == gs[k + 1]; }
  }

  // -------------------------------------------------------------------- reading one range

  method ReplayRecord(m: Committed, r: Record) returns (out: Option<Committed>)
    ensures out == ApplyCommit(m, r)
  {
    if r.key.None? { return Some(m); }
    var k := ReadKey(r.key.value);
    if k.None? { return None; }
    if r.value.None? { return Some(m - {k.value}); }
    var v := ReadValue(r.value.value);
    if v.None? { return None; }
    return Some(m[k.value := v.value]);
  }

  method ReplayBatch(m: Committed, rs: seq<Record>) returns (out: Option<Committed>)
    ensures out == Fold(m, rs)
  {
    out := Some(m);
    var i := 0;
    while i < |rs|
      invariant i <= |rs| && out.Some? && out == Fold(m, rs[..i])
    {
      assert rs[..i + 1][..i] == rs[..i];
      out := ReplayRecord(out.value, rs[i]);
      if out.None? {
        assert rs[..i + 1] + rs[i + 1..] == rs;
        FoldConcat(m, rs[..i + 1], rs[i + 1..]);
        return;
      }
      i := i + 1;
    }
    assert rs[..i] == rs;
  }

  /** How many whole batches from the i-th on fit in this many bytes. */
  function WholeBatches(bs: seq<Batch>, i: nat, bytes: int): (n: nat)
    requires i <= |bs|
    ensures i + n <= |bs|
    decreases |bs| - i
  {
    if i < |bs| && bs[i].size <= bytes then 1 + WholeBatches(bs, i + 1, bytes - bs[i].size) else 0
  }

  /** The batches wholly inside that many bytes from the i-th batch on. */
  function InRange(bs: seq<Batch>, i: nat, bytes: int): seq<Batch>
    requires i <= |bs|
  {
    bs[i..i + WholeBatches(bs, i, bytes)]
  }

  /** What replaying the batches of a range makes of a map. */
  function FoldRange(bs: seq<Batch>, i: nat, bytes: int, m: Committed): Option<Committed>
    requires i <= |bs|
    decreases |bs| - i
  {
    if i < |bs| && bs[i].size <= bytes then
      var out := Fold(m, bs[i].records);
      if out.None? then None else FoldRange(bs, i + 1, bytes - bs[i].size, out.value)
    else Some(m)
  }

  lemma {:induction false} FoldFirst(m: Committed, b: Batch, later: seq<Batch>)
    ensures var out := Fold(m, b.records);
            Fold(m, RecordsOf([b] + later)) == if out.None? then None else Fold(out.value, RecordsOf(later))
  {
    var all := [b] + later;
    assert all[0] == b && all[1..] == later;
    FoldConcat(m, b.records, RecordsOf(later));
  }

  /** Those are exactly the records of the batches wholly inside it. */
  lemma {:induction false} FoldsWholeBatches(bs: seq<Batch>, i: nat, bytes: int, m: Committed)
    requires i <= |bs|
    ensures FoldRange(bs, i, bytes, m) == Fold(m, RecordsOf(InRange(bs, i, bytes)))
    decreases |bs| - i
  {
    if i < |bs| && bs[i].size <= bytes {
      var out, left := Fold(m, bs[i].records), bytes - bs[i].size;
      assert InRange(bs, i, bytes) == [bs[i]] + InRange(bs, i + 1, left);
      FoldFirst(m, bs[i], InRange(bs, i + 1, left));
      if out.Some? { FoldsWholeBatches(bs, i + 1, left, out.value); }
    } else {
      assert InRange(bs, i, bytes) == [];
    }
  }

  /** Where a range's replay leaves the offset: past the last batch replayed, if any was. */
  function After(bs: seq<Batch>, i: nat, n: nat): Option<int>
    requires i + n <= |bs|
  {
    if n == 0 then None else Some(bs[i + n - 1].last + 1)
  }

  /** The loop over a range, come to batch j with so many bytes left: what is done and what is to do. */
  ghost predicate InsideRange(
    bs: seq<Batch>, i: nat, bytes: int, m: Committed, j: nat, left: int, out: Committed, next: Option<int>)
  {
    && i <= j <= |bs|
    && FoldRange(bs, i, bytes, m) == FoldRange(bs, j, left, out)
    && i + WholeBatches(bs, i, bytes) == j + WholeBatches(bs, j, left)
    && next == After(bs, i, j - i)
  }

  lemma {:induction false} InsideStep(
    bs: seq<Batch>, i: nat, bytes: int, m: Committed, j: nat, left: int, before: Committed, next: Option<int>,
    out: Option<Committed>)
    requires InsideRange(bs, i, bytes, m, j, left, before, next) && j < |bs| && bs[j].size <= left
    requires out == Fold(before, bs[j].records)
    ensures out.None? ==> FoldRange(bs, i, bytes, m) == None
    ensures out.Some? ==> InsideRange(bs, i, bytes, m, j + 1, left - bs[j].size, out.value, Some(bs[j].last + 1))
  {
  }

  lemma {:induction false} InsideEnds(
    bs: seq<Batch>, i: nat, bytes: int, m: Committed, j: nat, left: int, out: Committed, next: Option<int>)
    requires InsideRange(bs, i, bytes, m, j, left, out, next) && (j == |bs| || left < bs[j].size)
    ensures FoldRange(bs, i, bytes, m) == Some(out) && next == After(bs, i, WholeBatches(bs, i, bytes))
  {
  }

  /** On to the header of the next batch. */
  method HeaderAfter(bs: seq<Batch>, position: nat, ghost j: nat) returns (next: nat, at: Option<nat>)
    requires Sized(bs) && j < |bs| && position == StartOf(bs, j)
    ensures next == StartOf(bs, j + 1) && at == if j + 1 < |bs| then Some(j + 1) else None
  {
    var here := HeaderAt(bs, position, j);
    next := position + bs[here.value].size;
    at := HeaderAt(bs, next, j + 1);
  }

  /** One batch of a range replayed. */
  method ReplayNext(
    bs: seq<Batch>, at: nat, position: nat, left: int, before: Committed, ghost i: nat, ghost bytes: int, ghost m: Committed,
    ghost j: nat, ghost next: Option<int>)
    returns (out: Option<Committed>, end: int, position': nat, at': Option<nat>)
    requires Sized(bs) && j < |bs| && at == j && position == StartOf(bs, j) && bs[j].size <= left
    requires InsideRange(bs, i, bytes, m, j, left, before, next)
    ensures out.None? ==> FoldRange(bs, i, bytes, m) == None
    ensures out.Some? ==> InsideRange(bs, i, bytes, m, j + 1, left - bs[j].size, out.value, Some(end))
    ensures position' == StartOf(bs, j + 1) && at' == if j + 1 < |bs| then Some(j + 1) else None
  {
    var b := bs[at];
    out := ReplayBatch(before, b.records);
    end := b.last + 1;
    InsideStep(bs, i, bytes, m, j, left, before, next, out);
    position', at' := HeaderAfter(bs, position, j);
  }

  /** The batches wholly inside a range, replayed in order; a cut one at the end is left for the next read. */
  method ReplayRange(bs: seq<Batch>, range: FileRange, m: Committed, ghost i: nat)
    returns (out: Option<Committed>, next: Option<int>)
    requires Sized(bs) && i <= |bs| && range.position == StartOf(bs, i)
    ensures out == FoldRange(bs, i, range.length, m)
    ensures out.Some? ==> next == After(bs, i, WholeBatches(bs, i, range.length))
  {
    out, next := Some(m), None;
    ghost var j := i;
    var position: nat, left: int := range.position, range.length;
    var at := HeaderAt(bs, position, i);
    while at.Some? && bs[at.value].size <= left
      invariant j <= |bs| && position == StartOf(bs, j) && at == if j < |bs| then Some(j) else None
      invariant out.Some? && InsideRange(bs, i, range.length, m, j, left, out.value, next)
      decreases |bs| - j
    {
      var size, end := bs[at.value].size, 0;
      out, end, position, at := ReplayNext(bs, at.value, position, left, out.value, i, range.length, m, j, next);
      if out.None? { return; }
      left, next, j := left - size, Some(end), j + 1;
    }
    InsideEnds(bs, i, range.length, m, j, left, out.value, next);
  }

  // ------------------------------------------------------------------------- the read loop

  function FileOf(gs: seq<SealedSegment>, tail: seq<Batch>, k: nat): seq<Batch> {
    if k < |gs| then gs[k].batches else tail
  }

  /** The offset is where the j-th batch of segment k begins or, at its end, where the segment ends. */
  ghost predicate At(gs: seq<SealedSegment>, end: int, tail: seq<Batch>, k: nat, j: nat, offset: int) {
    && k <= |gs| && j <= |FileOf(gs, tail, k)|
    && offset == if j == 0 then EndAfter(gs, end, k) else FileOf(gs, tail, k)[j - 1].last + 1
  }

  /** What is reached from segment k on. */
  ghost function From(gs: seq<SealedSegment>, end: int, tail: seq<Batch>, k: nat): seq<Batch>
    requires k <= |gs|
    decreases |gs| - k
  {
    if k == |gs| then tail else gs[k].batches + if Joined(gs, end, k) then From(gs, end, tail, k + 1) else []
  }

  /** At the end of a segment whose successor begins right there. */
  ghost predicate AtJoin(gs: seq<SealedSegment>, end: int, k: nat, j: nat) {
    k < |gs| && j == |gs[k].batches| && Joined(gs, end, k)
  }

  ghost predicate Poised(gs: seq<SealedSegment>, end: int, tail: seq<Batch>, k: nat, j: nat, offset: int) {
    At(gs, end, tail, k, j, offset) && !AtJoin(gs, end, k, j)
  }

  lemma {:induction false} ReachedFrom(gs: seq<SealedSegment>, end: int, tail: seq<Batch>, k: nat)
    requires k <= |gs|
    ensures Reached(gs[k..], end, tail) == From(gs, end, tail, k)
    decreases |gs| - k
  {
    if k < |gs| {
      var rest := gs[k..];
      assert rest[0] == gs[k] && rest[1..] == gs[k + 1..];
      assert Joined(rest, end, 0) <==> Joined(gs, end, k);
      ReachedFrom(gs, end, tail, k + 1);
    }
  }

  lemma {:induction false} SegmentEnds(gs: seq<SealedSegment>, lo: int, end: int, k: nat)
    requires Chained(gs, lo, end) && k < |gs|
    ensures gs[k].batches != [] && gs[k].batches[|gs[k].batches| - 1].last + 1 == gs[k].next
  {
    SpanAt(gs, lo, end, k);
  }

  lemma {:induction false} CrossOver(gs: seq<SealedSegment>, lo: int, end: int, tail: seq<Batch>, k: nat, j: nat, offset: int)
    requires Chained(gs, lo, end) && At(gs, end, tail, k, j, offset) && AtJoin(gs, end, k, j)
    ensures Poised(gs, end, tail, k + 1, 0, offset)
  {
    SegmentEnds(gs, lo, end, k);
    if k + 1 < |gs| { SegmentEnds(gs, lo, end, k + 1); }
  }

  /** Each batch ends above everything before it. */
  ghost predicate Rising(file: seq<Batch>) {
    Sized(file) && forall a, b :: 0 <= a < b < |file| ==> file[a].last < file[b].last
  }

  lemma {:induction false} OrderedIsRising(base: int, bs: seq<Batch>)
    requires Ordered(base, bs)
    ensures Rising(bs) && forall i :: 0 <= i < |bs| ==> base <= bs[i].last
  {
  }

  lemma {:induction false} FileIsRising(gs: seq<SealedSegment>, lo: int, end: int, tail: seq<Batch>, k: nat)
    requires Chained(gs, lo, end) && Contiguous(end, tail) && k <= |gs|
    ensures Rising(FileOf(gs, tail, k))
    ensures forall i :: 0 <= i < |FileOf(gs, tail, k)| ==> EndAfter(gs, end, k) <= FileOf(gs, tail, k)[i].last
    ensures k < |gs| ==> gs[k].batches != [] && gs[k].base < gs[k].next <= EndAfter(gs, end, k + 1)
    ensures k < |gs| ==> gs[k].batches[|gs[k].batches| - 1].last + 1 == gs[k].next
  {
    if k < |gs| {
      SpanAt(gs, lo, end, k);
      OrderedIsRising(gs[k].base, gs[k].batches);
    } else {
      ContiguousFacts(end, tail);
      OrderedIsRising(end, tail);
    }
  }

  /** From a poised offset below the log's end, a read goes to segment k and starts at batch j. */
  lemma {:induction false} ReadsHere(gs: seq<SealedSegment>, lo: int, end: int, tail: seq<Batch>, k: nat, j: nat, offset: int)
    requires Chained(gs, lo, end) && Contiguous(end, tail) && Poised(gs, end, tail, k, j, offset)
    requires offset < NextOffset(end, tail)
    ensures k < |gs| ==> gs[k].base <= offset < EndAfter(gs, end, k + 1)
    ensures k == |gs| ==> end <= offset && j < |tail|
    ensures Rising(FileOf(gs, tail, k)) && FirstReaching(FileOf(gs, tail, k), offset) == j
  {
    FileIsRising(gs, lo, end, tail, k);
    FirstReachingIs(FileOf(gs, tail, k), offset, j);
  }

  lemma {:induction false} RoutedTo(gs: seq<SealedSegment>, lo: int, end: int, k: nat, offset: int, n: nat)
    requires Chained(gs, lo, end) && k < |gs| && gs[k].base <= offset < EndAfter(gs, end, k + 1)
    requires Routes(gs, offset, n)
    ensures n == k + 1
  {
    ChainedSpan(gs, lo, end);
  }

  lemma {:induction false} FileIs(gs: seq<SealedSegment>, lo: int, end: int, k: nat)
    requires Chained(gs, lo, end) && k < |gs|
    ensures lo <= gs[k].base < end && FileIn(gs, gs[k].base) == gs[k].batches
  {
    ChainedSpan(gs, lo, end);
    FileInAt(gs, k);
  }

  /** The read itself, with the batches of the segment file its range is in. */
  method ReadChunk(log: Log, offset: int, ghost k: nat, ghost j: nat) returns (file: seq<Batch>, range: FileRange)
    requires log.Valid() && offset < log.logEndOffset
    requires Poised(log.sealed, log.active.base, log.active.batches, k, j, offset)
    ensures Rising(file) && file == FileOf(log.sealed, log.active.batches, k)
    ensures range == RangeFrom(file, j, CHUNK)
    ensures k == |log.sealed| ==> j < |file|
    ensures j < |file| ==> offset <= file[j].last
  {
    ghost var gs, lo, end, tail := log.sealed, log.LogStart(), log.active.base, log.active.batches;
    AppendsDerive(log.policy, end, tail);
    ReadsHere(gs, lo, end, tail, k, j, offset);
    if k < |gs| {
      ChainedSpan(gs, lo, end);
      FileIs(gs, lo, end, k);
    }
    var r, n := log.Read(offset, CHUNK);
    if k < |gs| { RoutedTo(gs, lo, end, k, offset, n); }
    return log.FileAt(r.segment), r.range;
  }

  /** A range is empty past the last batch, and otherwise holds the batch it starts at whole. */
  lemma {:induction false} RangeHasWhole(file: seq<Batch>, j: nat, range: FileRange)
    requires Rising(file) && j <= |file| && range == RangeFrom(file, j, CHUNK)
    ensures j == |file| <==> range.length == 0
    ensures j < |file| ==> 0 < WholeBatches(file, j, range.length) && range.position == StartOf(file, j)
  {
    if j < |file| { RangeHoldsBatch(file, j, CHUNK); }
  }

  lemma {:induction false} Further(file: seq<Batch>, j: nat, n: nat, offset: int)
    requires 0 < n && j + n <= |file| && offset <= file[j].last && Rising(file)
    ensures offset < file[j + n - 1].last + 1
  {
  }

  /** Nothing to replay in an empty range. */
  method ReplayFile(file: seq<Batch>, range: FileRange, m: Committed, ghost j: nat)
    returns (out: Option<Committed>, next: Option<int>)
    requires Rising(file) && j <= |file| && range == RangeFrom(file, j, CHUNK)
    ensures out == FoldRange(file, j, range.length, m)
    ensures out.Some? ==> next == After(file, j, WholeBatches(file, j, range.length))
  {
    RangeHasWhole(file, j, range);
    if range.length == 0 {
      return Some(m), None;
    }
    out, next := ReplayRange(file, range, m, j);
  }

  /** One read and what the loop makes of its range: the batches it is over, and where in them. */
  method ReplayChunk(log: Log, offset: int, m: Committed, ghost k: nat, ghost j: nat)
    returns (out: Option<Committed>, next: Option<int>, ghost file: seq<Batch>, ghost range: FileRange)
    requires log.Valid() && offset < log.logEndOffset
    requires Poised(log.sealed, log.active.base, log.active.batches, k, j, offset)
    ensures Rising(file) && file == FileOf(log.sealed, log.active.batches, k) && range == RangeFrom(file, j, CHUNK)
    ensures j < |file| ==> offset <= file[j].last
    ensures out == FoldRange(file, j, range.length, m)
    ensures out.Some? ==> next == After(file, j, WholeBatches(file, j, range.length))
  {
    var bs, r := ReadChunk(log, offset, k, j);
    out, next := ReplayFile(bs, r, m, j);
    file, range := bs, r;
  }

  /** What replaying on from there makes of a map, batch after batch, to the first gap. */
  ghost function Rest(gs: seq<SealedSegment>, end: int, tail: seq<Batch>, k: nat, j: nat, m: Committed): Option<Committed>
    requires k <= |gs| && j <= |FileOf(gs, tail, k)|
    decreases |gs| - k, |FileOf(gs, tail, k)| - j
  {
    if j < |FileOf(gs, tail, k)| then
      var out := Fold(m, FileOf(gs, tail, k)[j].records);
      if out.None? then None else Rest(gs, end, tail, k, j + 1, out.value)
    else if k < |gs| && Joined(gs, end, k) then Rest(gs, end, tail, k + 1, 0, m)
    else Some(m)
  }

  /** Replaying a range of the segment is so much of what is left. */
  lemma {:induction false} RestOverRange(
    gs: seq<SealedSegment>, end: int, tail: seq<Batch>, k: nat, j: nat, bytes: int, m: Committed)
    requires k <= |gs| && j <= |FileOf(gs, tail, k)|
    ensures var file := FileOf(gs, tail, k); var out := FoldRange(file, j, bytes, m);
            Rest(gs, end, tail, k, j, m)
            == if out.None? then None else Rest(gs, end, tail, k, j + WholeBatches(file, j, bytes), out.value)
    decreases |FileOf(gs, tail, k)| - j
  {
    var file := FileOf(gs, tail, k);
    if j < |file| && file[j].size <= bytes {
      var out := Fold(m, file[j].records);
      if out.Some? { RestOverRange(gs, end, tail, k, j + 1, bytes - file[j].size, out.value); }
    }
  }

  /** What is ahead of batch j of segment k, to the first gap. */
  ghost function Ahead(gs: seq<SealedSegment>, end: int, tail: seq<Batch>, k: nat, j: nat): seq<Batch>
    requires k <= |gs| && j <= |FileOf(gs, tail, k)|
  {
    FileOf(gs, tail, k)[j..] + if k < |gs| && Joined(gs, end, k) then From(gs, end, tail, k + 1) else []
  }

  lemma {:induction false} DropFirst<T>(s: seq<T>, j: nat, t: seq<T>)
    requires j < |s|
    ensures s[j..] + t == [s[j]] + (s[j + 1..] + t)
  {
  }

  lemma {:induction false} DropNone<T>(s: seq<T>)
    ensures s[0..] == s && s[|s|..] == [] && s + [] == s && [] + s == s
  {
  }

  lemma {:induction false} AheadStep(gs: seq<SealedSegment>, end: int, tail: seq<Batch>, k: nat, j: nat)
    requires k <= |gs| && j < |FileOf(gs, tail, k)|
    ensures Ahead(gs, end, tail, k, j) == [FileOf(gs, tail, k)[j]] + Ahead(gs, end, tail, k, j + 1)
  {
    DropFirst(FileOf(gs, tail, k), j, if k < |gs| && Joined(gs, end, k) then From(gs, end, tail, k + 1) else []);
  }

  lemma {:induction false} AheadOfStart(gs: seq<SealedSegment>, end: int, tail: seq<Batch>, k: nat)
    requires k <= |gs|
    ensures Ahead(gs, end, tail, k, 0) == From(gs, end, tail, k)
  {
    DropNone(FileOf(gs, tail, k));
  }

  lemma {:induction false} AheadOfEnd(gs: seq<SealedSegment>, end: int, tail: seq<Batch>, k: nat)
    requires k <= |gs|
    ensures Ahead(gs, end, tail, k, |FileOf(gs, tail, k)|)
         == if k < |gs| && Joined(gs, end, k) then From(gs, end, tail, k + 1) else []
  {
    DropNone(FileOf(gs, tail, k));
    if k < |gs| && Joined(gs, end, k) { DropNone(From(gs, end, tail, k + 1)); }
  }

  ghost predicate IsFoldOf(out: Option<Committed>, m: Committed, bs: seq<Batch>) {
    out == Fold(m, RecordsOf(bs))
  }

  lemma {:induction false} RestStep(gs: seq<SealedSegment>, end: int, tail: seq<Batch>, k: nat, j: nat, m: Committed)
    requires k <= |gs| && j < |FileOf(gs, tail, k)|
    requires var out := Fold(m, FileOf(gs, tail, k)[j].records);
             out.Some? ==> IsFoldOf(Rest(gs, end, tail, k, j + 1, out.value), out.value, Ahead(gs, end, tail, k, j + 1))
    ensures IsFoldOf(Rest(gs, end, tail, k, j, m), m, Ahead(gs, end, tail, k, j))
  {
    AheadStep(gs, end, tail, k, j);
    FoldFirst(m, FileOf(gs, tail, k)[j], Ahead(gs, end, tail, k, j + 1));
  }

  lemma {:induction false} RestCrosses(gs: seq<SealedSegment>, end: int, tail: seq<Batch>, k: nat, m: Committed)
    requires k < |gs| && Joined(gs, end, k)
    requires IsFoldOf(Rest(gs, end, tail, k + 1, 0, m), m, Ahead(gs, end, tail, k + 1, 0))
    ensures IsFoldOf(Rest(gs, end, tail, k, |gs[k].batches|, m), m, Ahead(gs, end, tail, k, |gs[k].batches|))
  {
    AheadOfEnd(gs, end, tail, k);
    AheadOfStart(gs, end, tail, k + 1);
  }

  /** What is left to make of a map is the fold of everything ahead. */
  lemma {:induction false} RestIsAhead(gs: seq<SealedSegment>, end: int, tail: seq<Batch>, k: nat, j: nat, m: Committed)
    requires k <= |gs| && j <= |FileOf(gs, tail, k)|
    ensures IsFoldOf(Rest(gs, end, tail, k, j, m), m, Ahead(gs, end, tail, k, j))
    decreases |gs| - k, |FileOf(gs, tail, k)| - j
  {
    if j < |FileOf(gs, tail, k)| {
      var out := Fold(m, FileOf(gs, tail, k)[j].records);
      if out.Some? { RestIsAhead(gs, end, tail, k, j + 1, out.value); }
      RestStep(gs, end, tail, k, j, m);
    } else if k < |gs| && Joined(gs, end, k) {
      RestIsAhead(gs, end, tail, k + 1, 0, m);
      RestCrosses(gs, end, tail, k, m);
    } else {
      AheadOfEnd(gs, end, tail, k);
    }
  }

  /** The read loop: where it is, and that what it has yet to make of the map is all there is to make. */
  ghost predicate Reading(
    gs: seq<SealedSegment>, end: int, tail: seq<Batch>, all: Option<Committed>, k: nat, j: nat, offset: int, m: Committed)
  {
    At(gs, end, tail, k, j, offset) && all == Rest(gs, end, tail, k, j, m)
  }

  lemma {:induction false} Crosses(
    gs: seq<SealedSegment>, lo: int, end: int, tail: seq<Batch>, all: Option<Committed>, k: nat, j: nat, offset: int, m: Committed)
    requires Chained(gs, lo, end) && Reading(gs, end, tail, all, k, j, offset, m) && AtJoin(gs, end, k, j)
    ensures Reading(gs, end, tail, all, k + 1, 0, offset, m) && Poised(gs, end, tail, k + 1, 0, offset)
  {
    CrossOver(gs, lo, end, tail, k, j, offset);
  }

  /** What one turn comes to: failed, nothing more to reach, or some way further. */
  lemma {:induction false} Advances(
    gs: seq<SealedSegment>, end: int, tail: seq<Batch>, all: Option<Committed>, k: nat, j: nat, offset: int, m: Committed,
    file: seq<Batch>, range: FileRange, out: Option<Committed>, next: Option<int>)
    requires Reading(gs, end, tail, all, k, j, offset, m) && Poised(gs, end, tail, k, j, offset) && file == FileOf(gs, tail, k)
    requires Rising(file) && range == RangeFrom(file, j, CHUNK) && (j < |file| ==> offset <= file[j].last)
    requires out == FoldRange(file, j, range.length, m)
    requires out.Some? ==> next == After(file, j, WholeBatches(file, j, range.length))
    ensures out.None? ==> all == None
    ensures out.Some? && next.None? ==> all == Some(m)
    ensures out.Some? && next.Some? ==>
              && offset < next.value
              && Reading(gs, end, tail, all, k, j + WholeBatches(file, j, range.length), next.value, out.value)
  {
    RangeHasWhole(file, j, range);
    RestOverRange(gs, end, tail, k, j, range.length, m);
    if j < |file| {
      if out.Some? { Further(file, j, WholeBatches(file, j, range.length), offset); }
    }
  }

  /** One turn of the read loop. */
  method ReplayTurn(log: Log, offset: int, m: Committed, ghost all: Option<Committed>, ghost k: nat, ghost j: nat)
    returns (out: Option<Committed>, next: Option<int>, ghost k': nat, ghost j': nat)
    requires log.Valid() && offset < log.logEndOffset
    requires Reading(log.sealed, log.active.base, log.active.batches, all, k, j, offset, m)
    ensures out.None? ==> all == None
    ensures out.Some? && next.None? ==> all == Some(m)
    ensures out.Some? && next.Some? ==>
              && offset < next.value
              && Reading(log.sealed, log.active.base, log.active.batches, all, k', j', next.value, out.value)
  {
    ghost var gs, end, tail, i := log.sealed, log.active.base, log.active.batches, j;
    k', i := CrossIfDue(gs, log.LogStart(), end, tail, all, k, j, offset, m);
    ghost var file, range;
    out, next, file, range := ReplayChunk(log, offset, m, k', i);
    Advances(gs, end, tail, all, k', i, offset, m, file, range, out, next);
    j' := i + WholeBatches(file, i, range.length);
  }

  lemma {:induction false} CrossIfDue(
    gs: seq<SealedSegment>, lo: int, end: int, tail: seq<Batch>, all: Option<Committed>, k: nat, j: nat, offset: int, m: Committed)
    returns (k': nat, i: nat)
    requires Chained(gs, lo, end) && Reading(gs, end, tail, all, k, j, offset, m)
    ensures Reading(gs, end, tail, all, k', i, offset, m) && Poised(gs, end, tail, k', i, offset)
  {
    k', i := k, j;
    if AtJoin(gs, end, k, j) {
      Crosses(gs, lo, end, tail, all, k, j, offset, m);
      k', i := k + 1, 0;
    }
  }

  /**
   replayPartition. It ends, and leaves the fold of every record up to the first gap between segments;
   None is a key or value that does not decode.
   */
  method ReplayPartition(log: Log, start: Committed) returns (out: Option<Committed>)
    requires log.Valid()
    ensures out == Fold(start, RecordsOf(Reached(log.sealed, log.active.base, log.active.batches)))
  {
    ghost var gs, end, tail := log.sealed, log.active.base, log.active.batches;
    ghost var k: nat, j: nat := 0, 0;
    ghost var all := Fold(start, RecordsOf(Reached(gs, end, tail)));
    StartsReading(gs, log.LogStart(), end, tail, start);
    AppendsDerive(log.policy, end, tail);
    var offset := log.LogStart();
    var m := start;
    while offset < log.logEndOffset
      invariant Reading(gs, end, tail, all, k, j, offset, m)
      decreases log.logEndOffset - offset
    {
      var decoded, next;
      decoded, next, k, j := ReplayTurn(log, offset, m, all, k, j);
      if decoded.None? { return None; }
      if next.None? { return Some(m); }
      m, offset := decoded.value, next.value;
    }
    AtEnd(gs, log.LogStart(), end, tail, k, j, offset, m);
    return Some(m);
  }

  lemma {:induction false} StartsReading(gs: seq<SealedSegment>, lo: int, end: int, tail: seq<Batch>, m: Committed)
    requires Chained(gs, lo, end) && lo == StartOfLog(gs, end)
    ensures Reading(gs, end, tail, Fold(m, RecordsOf(Reached(gs, end, tail))), 0, 0, lo, m)
  {
    ReachedFrom(gs, end, tail, 0);
    AheadOfStart(gs, end, tail, 0);
    RestIsAhead(gs, end, tail, 0, 0, m);
    assert gs[0..] == gs;
  }

  /** An offset at the log's end has nothing ahead of it. */
  lemma {:induction false} AtEnd(
    gs: seq<SealedSegment>, lo: int, end: int, tail: seq<Batch>, k: nat, j: nat, offset: int, m: Committed)
    requires Chained(gs, lo, end) && Contiguous(end, tail) && At(gs, end, tail, k, j, offset)
    requires NextOffset(end, tail) <= offset
    ensures Rest(gs, end, tail, k, j, m) == Some(m)
  {
    ContiguousFacts(end, tail);
    if k < |gs| { FileIsRising(gs, lo, end, tail, k); }
    if k + 1 < |gs| { SpanAt(gs, lo, end, k + 1); }
  }
}
