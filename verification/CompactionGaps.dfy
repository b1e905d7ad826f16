/** A cleaning pass that leaves a gap, and what is lost in it. */
module CompactionGaps {
  // Five commits of two positions, two to a segment. The pass drops the second record of the first
  // segment; nothing is then held at that offset, though it lies between the log's start and its end.

  import opened Prelude
  import opened Records
  import opened Segments
  import opened ActiveSegments
  import opened Sealed
  import opened FlatLogs
  import opened Logs
  import opened Cleaning
  import opened CleanerPass
  import opened PassResults
  import opened CompactionRuns
  import opened CommitRecords
  import opened CommitHistory
  import opened OffsetStores
  import opened Replay
  import C = Compaction

  const POLICY := Policy(200, 1, 1000, 1000)
  const RETENTION := Retention(1, None, 1)

  /** A batch of one commit, a hundred bytes long. */
  function Commit(key: Bytes, value: Bytes): Batch { BatchFor(key, Some(value), 0, 39) }

  function At(key: Bytes, value: Bytes, offset: int): Record { Record(offset, 0, Some(key), Some(value), []) }

  function One(key: Bytes, value: Bytes, offset: int): Batch { Batch(offset, offset, 100, 0, [At(key, value, offset)]) }

  lemma {:induction false} StampedAt(key: Bytes, value: Bytes, offset: int)
    ensures Stamped(Commit(key, value), offset) == One(key, value, offset)
  {
    StampedCommit(key, Some(value), 0, 39, offset);
  }

  ghost predicate Hundreds(bs: seq<Batch>) { forall i :: 0 <= i < |bs| ==> bs[i].size == 100 }

  lemma {:induction false} TotalOfHundreds(bs: seq<Batch>, i: nat)
    requires Hundreds(bs) && i <= |bs|
    ensures StartOf(bs, i) == 100 * i
  {
    if 0 < i { TotalOfHundreds(bs, i - 1); }
  }

  /** Too little for an index entry. */
  lemma {:induction false} NoEntries(policy: Policy, base: int, bs: seq<Batch>)
    requires Hundreds(bs) && 100 * |bs| <= policy.indexIntervalBytes
    ensures AppendAll(policy, base, bs).Some?
    ensures AppendAll(policy, base, bs).value.index == [] && AppendAll(policy, base, bs).value.since == 100 * |bs|
  {
    if bs != [] {
      NoEntries(policy, base, bs[..|bs| - 1]);
      TotalOfHundreds(bs[..|bs| - 1], |bs| - 1);
    }
  }

  /** One append: two batches fill a segment, so the third rolls it. */
  method Put(log: Log, key: Bytes, value: Bytes)
    requires log.Valid() && log.policy == POLICY && Hundreds(log.active.batches) && |log.active.batches| <= 2
    modifies log, log.active
    ensures log.Valid() && (log.active == old(log.active) || fresh(log.active))
    ensures log.logEndOffset == old(log.logEndOffset) + 1
    ensures Rolled(|old(log.active.batches)| == 2, old(log.sealed), old(log.active.base), old(log.active.batches),
                   old(log.logEndOffset), log.sealed)
    ensures log.active.base == if |old(log.active.batches)| == 2 then old(log.logEndOffset) else old(log.active.base)
    ensures log.active.batches == (if |old(log.active.batches)| == 2 then [] else old(log.active.batches))
                                  + [One(key, value, old(log.logEndOffset))]
    ensures Hundreds(log.active.batches)
  {
    StampedAt(key, value, log.logEndOffset);
    NoEntries(POLICY, log.active.base, log.active.batches);
    TotalOfHundreds(log.active.batches, |log.active.batches|);
    assert log.Due(0) <==> |log.active.batches| == 2;
    var live := if log.Due(0) then [] else log.active.batches;
    NoEntries(POLICY, log.LiveBase(0), live + [Stamped(Commit(key, value), log.logEndOffset)]);
    var base := log.Append(Commit(key, value), 0);
  }

  /** The first two segments as they were sealed, and as the pass leaves them. */
  function Before(x: Bytes, y: Bytes, v: Bytes): seq<C.Segment> {
    [C.Segment(0, 2, [At(x, v, 0), At(y, v, 1)]), C.Segment(2, 4, [At(y, v, 2), At(y, v, 3)])]
  }

  function After(x: Bytes, y: Bytes, v: Bytes): seq<C.Segment> {
    [C.Segment(0, 1, [At(x, v, 0)]), C.Segment(2, 4, [At(y, v, 3)])]
  }

  lemma {:induction false} TwoRecords(a: Batch, b: Batch)
    requires |a.records| == 1 && |b.records| == 1
    ensures RecordsOf([a, b]) == [a.records[0], b.records[0]]
  {
    Pair(a, b);
    Pair(a.records[0], b.records[0]);
    assert RecordsOf([b]) == b.records + [];
    assert a.records == [a.records[0]] && b.records == [b.records[0]];
  }

  lemma {:induction false} Pair<T>(a: T, b: T)
    ensures [a, b][..1] == [a] && [a, b][1..] == [b] && [b][1..] == []
    ensures [a] + [b] == [a, b] && [b] + [] == [b]
  {
  }

  /** The first position once, the second once. */
  method FillFirst(x: Bytes, y: Bytes, v: Bytes) returns (log: Log)
    ensures fresh(log) && fresh(log.active) && log.Valid() && log.policy == POLICY && log.sealed == []
    ensures log.active.base == 0 && log.logEndOffset == 2 && Hundreds(log.active.batches)
    ensures log.active.batches == [One(x, v, 0), One(y, v, 1)]
  {
    log := new Log(POLICY, RETENTION);
    Put(log, x, v);
    assert log.active.batches == [One(x, v, 0)];
    Put(log, y, v);
    assert log.active.batches == [One(x, v, 0), One(y, v, 1)];
  }

  /** The second twice more, in a segment of its own. */
  method FillSecond(log: Log, x: Bytes, y: Bytes, v: Bytes)
    requires log.Valid() && log.policy == POLICY && log.sealed == []
    requires log.active.base == 0 && log.logEndOffset == 2 && log.active.batches == [One(x, v, 0), One(y, v, 1)]
    modifies log, log.active
    ensures log.Valid() && (log.active == old(log.active) || fresh(log.active))
    ensures |log.sealed| == 1 && SealedFrom(log.sealed[0], 0, [One(x, v, 0), One(y, v, 1)], 2)
    ensures log.active.base == 2 && log.logEndOffset == 4 && Hundreds(log.active.batches)
    ensures log.active.batches == [One(y, v, 2), One(y, v, 3)]
  {
    Put(log, y, v);
    assert log.active.batches == [One(y, v, 2)];
    Put(log, y, v);
    assert log.active.batches == [One(y, v, 2), One(y, v, 3)];
  }

  /** Five commits: two full segments sealed, the fifth batch in a third. */
  method Fill(x: Bytes, y: Bytes, v: Bytes) returns (log: Log)
    ensures fresh(log) && fresh(log.active) && log.Valid() && log.policy == POLICY
    ensures Segs(log.sealed) == Before(x, y, v) && SegmentsFormed(log.sealed)
    ensures forall g :: g in log.sealed ==> |g.batches| == 2
    ensures log.active.base == 4 && log.active.batches == [One(y, v, 4)] && log.logEndOffset == 5
  {
    log := FillFirst(x, y, v);
    FillSecond(log, x, y, v);
    ghost var first := log.sealed;
    Put(log, y, v);
    assert log.active.batches == [One(y, v, 4)];
    SealedTwo(first, log.sealed, x, y, v);
  }

  lemma {:induction false} SealedTwo(first: seq<SealedSegment>, gs: seq<SealedSegment>, x: Bytes, y: Bytes, v: Bytes)
    requires |first| == 1 && SealedFrom(first[0], 0, [One(x, v, 0), One(y, v, 1)], 2)
    requires Rolled(true, first, 2, [One(y, v, 2), One(y, v, 3)], 4, gs)
    ensures Segs(gs) == Before(x, y, v) && SegmentsFormed(gs) && forall g :: g in gs ==> |g.batches| == 2
  {
    TwoRecords(One(x, v, 0), One(y, v, 1));
    TwoRecords(One(y, v, 2), One(y, v, 3));
    assert gs == [first[0], gs[1]];
    assert Segs(gs) == [Seg(gs[0]), Seg(gs[1])];
  }

  // --------------------------------------------------------------------------- the pass

  /** The map of the pass: the first position at zero, the second at three. */
  lemma {:induction false} BothMapped(c: C.Config, x: Bytes, y: Bytes, v: Bytes)
    requires c.digest(x) != c.digest(y) && 2 <= c.maxEntries
    ensures MapOf(c, Before(x, y, v), 0) == Mapped(map[c.digest(x) := 0, c.digest(y) := 3], 4, false)
  {
    var a, b := c.digest(x), c.digest(y);
    var fs := Before(x, y, v);
    var m0: C.KeyMap, m1: C.KeyMap, m2: C.KeyMap, m3: C.KeyMap
      := map[a := 0], map[a := 0, b := 1], map[a := 0, b := 2], map[a := 0, b := 3];
    OnePut(c, map[], At(x, v, 0), m0);
    OnePut(c, m0, At(y, v, 1), m1);
    OnePut(c, m1, At(y, v, 2), m2);
    OnePut(c, m2, At(y, v, 3), m3);
    TwoPuts(c, map[], At(x, v, 0), At(y, v, 1), m0, m1);
    TwoPuts(c, m1, At(y, v, 2), At(y, v, 3), m2, m3);
    assert fs[1..] == [fs[1]] && fs[1..][1..] == [];
    assert MapDirtyFiles(c, fs[1..][1..], 0, m3, 4) == Mapped(m3, 4, false);
    assert MapDirtyFiles(c, fs[1..], 0, m1, 2) == Mapped(m3, 4, false);
  }

  lemma {:induction false} OnePut(c: C.Config, m: C.KeyMap, r: Record, m': C.KeyMap)
    requires r.key.Some? && m' == m[c.digest(r.key.value) := r.offset]
    requires if c.digest(r.key.value) in m then m[c.digest(r.key.value)] < r.offset else |m| < c.maxEntries
    ensures C.Put(c, m, r.key.value, r.offset) == (m', true)
  {
  }

  lemma {:induction false} TwoPuts(c: C.Config, m: C.KeyMap, r: Record, t: Record, m': C.KeyMap, m'': C.KeyMap)
    requires r.key.Some? && C.Put(c, m, r.key.value, r.offset) == (m', true)
    requires t.key.Some? && C.Put(c, m', t.key.value, t.offset) == (m'', true)
    ensures C.PutAll(c, m, [r, t]) == (m'', true)
  {
    assert [r, t][1..] == [t] && [t][1..] == [];
    assert C.PutAll(c, m'', []) == (m'', true);
    assert C.PutAll(c, m', [t]) == (m'', true);
  }

  lemma {:induction false} FilterPair(a: Record, b: Record, keep: Record -> bool)
    ensures Filter([a, b], keep) == (if keep(a) then [a] else []) + (if keep(b) then [b] else [])
  {
    FilterOne(a, keep);
    assert [a, b][..1] == [a];
  }

  /** Dealing with both segments drops the second position's older records, and with one of them an end. */
  lemma {:induction false} PassLeavesGap(c: C.Config, x: Bytes, y: Bytes, v: Bytes)
    requires c.digest(x) != c.digest(y)
    ensures var keep := C.Keeper(c, map[c.digest(x) := 0, c.digest(y) := 3], 0);
            RewrittenFirst(Before(x, y, v), FilesBelow(Before(x, y, v), 4), keep) == After(x, y, v)
  {
    var fs, keep := Before(x, y, v), C.Keeper(c, map[c.digest(x) := 0, c.digest(y) := 3], 0);
    var one, two := C.Segment(0, 1, [At(x, v, 0)]), C.Segment(2, 4, [At(y, v, 3)]);
    KeptOfEach(c, x, y, v);
    FilesBelowIs(fs, 4, 2);
    SwapFirst(fs[0], fs[1], one);
    SwapSecond(one, fs[1], two);
    assert RewrittenFirst(fs, 0, keep) == fs;
    assert RewrittenFirst(fs, 1, keep) == [one, fs[1]];
  }

  lemma {:induction false} KeptOfEach(c: C.Config, x: Bytes, y: Bytes, v: Bytes)
    requires c.digest(x) != c.digest(y)
    ensures var keep := C.Keeper(c, map[c.digest(x) := 0, c.digest(y) := 3], 0);
            && Filter([At(x, v, 0), At(y, v, 1)], keep) == [At(x, v, 0)]
            && Filter([At(y, v, 2), At(y, v, 3)], keep) == [At(y, v, 3)]
  {
    var keep := C.Keeper(c, map[c.digest(x) := 0, c.digest(y) := 3], 0);
    FilterPair(At(x, v, 0), At(y, v, 1), keep);
    FilterPair(At(y, v, 2), At(y, v, 3), keep);
  }

  lemma {:induction false} SwapFirst(a: C.Segment, b: C.Segment, a': C.Segment)
    requires a'.base == a.base && a'.records != [] && a'.next == a'.records[|a'.records| - 1].offset + 1
    ensures C.Swap([a, b], a.base, a'.records) == [a', b]
  {
    Pair(a, b);
    Pair(a', b);
  }

  lemma {:induction false} SwapSecond(a: C.Segment, b: C.Segment, b': C.Segment)
    requires a.base != b.base == b'.base && b'.records != [] && b'.next == b'.records[|b'.records| - 1].offset + 1
    ensures C.Swap([a, b], b.base, b'.records) == [a, b']
  {
    Pair(a, b);
    Pair(a, b');
    Pair(b, b');
    assert C.Swap([b], b.base, b'.records) == [b'] + [];
  }

  const SIZE_OF: seq<Record> -> nat := (rs: seq<Record>) => 39

  lemma {:induction false} CleanIsHundreds(keep: Record -> bool, bs: seq<Batch>)
    ensures Hundreds(CleanBatches(SIZE_OF, keep, bs)) && |CleanBatches(SIZE_OF, keep, bs)| <= |bs|
  {
    if bs != [] { CleanIsHundreds(keep, bs[..|bs| - 1]); }
  }

  lemma {:induction false} NothingStuck(keep: Record -> bool, g: SealedSegment)
    requires |g.batches| <= 2
    ensures !Stuck(POLICY, SIZE_OF, keep, g)
  {
    CleanIsHundreds(keep, g.batches);
    NoEntries(POLICY, g.base, CleanBatches(SIZE_OF, keep, g.batches));
  }

  lemma {:induction false} AllOfBefore(x: Bytes, y: Bytes, v: Bytes)
    ensures C.All(Before(x, y, v)) == [At(x, v, 0), At(y, v, 1), At(y, v, 2), At(y, v, 3)]
    ensures RecordsOf([One(y, v, 4)]) == [At(y, v, 4)]
  {
    var fs := Before(x, y, v);
    Pair(fs[0], fs[1]);
    Pair(One(y, v, 4), One(y, v, 4));
    assert C.All([fs[1]]) == fs[1].records + [];
    assert fs[0].records + fs[1].records == [At(x, v, 0), At(y, v, 1), At(y, v, 2), At(y, v, 3)];
  }

  lemma {:induction false} TwoKeys(c: C.Config, rs: seq<Record>, x: Bytes, y: Bytes)
    requires c.digest(x) != c.digest(y) && forall r :: r in rs ==> r.key == Some(x) || r.key == Some(y)
    ensures C.Injective(c, rs)
  {
  }

  lemma {:induction false} KeysTellApart(c: C.Config, s: C.State, x: Bytes, y: Bytes, v: Bytes)
    requires c.digest(x) != c.digest(y) && s.sealed == Before(x, y, v) && s.active.records == [At(y, v, 4)]
    ensures C.Injective(c, C.Recs(s))
  {
    AllOfBefore(x, y, v);
    TwoKeys(c, C.Recs(s), x, y);
  }

  /** What any ended pass makes of that log. */
  lemma {:induction false} PassOverBoth(c: C.Config, x: Bytes, y: Bytes, v: Bytes, gs: seq<SealedSegment>)
    requires c.digest(x) != c.digest(y) && 2 <= c.maxEntries
    requires Segs(gs) == Before(x, y, v) && forall g :: g in gs ==> |g.batches| == 2
    ensures PassCanEnd(POLICY, c, SIZE_OF, gs, 0, 0)
    ensures forall after, mark :: PassEnded(c, Before(x, y, v), after, 0, mark, 0) ==> after == After(x, y, v)
  {
    var keep := C.Keeper(c, map[c.digest(x) := 0, c.digest(y) := 3], 0);
    BothMapped(c, x, y, v);
    PassLeavesGap(c, x, y, v);
    forall j | 0 <= j < |gs| ensures !Stuck(POLICY, SIZE_OF, keep, gs[j]) { NothingStuck(keep, gs[j]); }
  }

  /** One pass of a new cleaner over that log. */
  method CleanBoth(log: Log, c: C.Config, ghost x: Bytes, ghost y: Bytes, ghost v: Bytes)
    requires c.digest(x) != c.digest(y) && 2 <= c.maxEntries
    requires log.Valid() && log.policy == POLICY && Segs(log.sealed) == Before(x, y, v) && SegmentsFormed(log.sealed)
    requires (forall g :: g in log.sealed ==> |g.batches| == 2) && log.active.batches == [One(y, v, 4)]
    modifies log`sealed, log`graveyard
    ensures log.Valid() && Segs(log.sealed) == After(x, y, v)
  {
    assert log.sealed[0].base == Segs(log.sealed)[0].base;
    AllOfBefore(x, y, v);
    KeysTellApart(c, AbstractOf(log, 0), x, y, v);
    PassOverBoth(c, x, y, v, log.sealed);
    CleanAll(log, c);
  }

  method CleanAll(log: Log, c: C.Config)
    requires Fit(log) && AllFormed(log.active.batches) && 0 <= log.LogStart() && C.Injective(c, C.Recs(AbstractOf(log, 0)))
    requires PassCanEnd(log.policy, c, SIZE_OF, log.sealed, 0, 0)
    modifies log`sealed, log`graveyard
    ensures Fit(log) && exists mark :: PassEnded(c, Segs(old(log.sealed)), Segs(log.sealed), 0, mark, 0)
  {
    var cleaner := new LogCleaner(log, c, SIZE_OF);
    var done := cleaner.CleanOnce(0);
  }

  /** The same log after one pass of its cleaner. */
  method FillAndClean(c: C.Config, x: Bytes, y: Bytes, v: Bytes) returns (log: Log)
    requires c.digest(x) != c.digest(y) && 2 <= c.maxEntries
    ensures fresh(log) && log.Valid() && Segs(log.sealed) == After(x, y, v)
    ensures log.active.base == 4 && log.active.batches == [One(y, v, 4)] && log.logEndOffset == 5
  {
    log := Fill(x, y, v);
    CleanBoth(log, c, x, y, v);
  }

  // ------------------------------------------------------------------------ what is lost

  /** Where the log's segments stand after the pass: the first ends one short of the second. */
  lemma {:induction false} GapAfter(gs: seq<SealedSegment>, x: Bytes, y: Bytes, v: Bytes)
    requires Segs(gs) == After(x, y, v)
    ensures |gs| == 2 && gs[0].base == 0 && gs[0].next == 1 && gs[1].base == 2 && RecordsOf(gs[0].batches) == [At(x, v, 0)]
    ensures RecordsOf(gs[1].batches) == [At(y, v, 3)]
  {
    assert Seg(gs[0]) == After(x, y, v)[0] && Seg(gs[1]) == After(x, y, v)[1];
  }

  /**
   An offset inside the log that reads as nothing: not below its start, not past its end, and yet an
   empty success, with records the cleaner kept on both sides.
   */
  method GapReadsEmpty(c: C.Config, x: Bytes, y: Bytes, v: Bytes) returns (log: Log, r: ReadResult)
    requires c.digest(x) != c.digest(y) && 2 <= c.maxEntries
    ensures log.Valid() && log.LogStart() <= 1 < log.logEndOffset
    ensures r.Success? && r.range.length == 0
    ensures exists early, late :: early in RecordsOf(log.Flat()) && late in RecordsOf(log.Flat()) && early.offset < 1 < late.offset
  {
    log := FillAndClean(c, x, y, v);
    ghost var gs := log.sealed;
    GapAfter(gs, x, y, v);
    ChainedSpan(gs, 0, 4);
    ghost var n;
    r, n := log.Read(1, 1000);
    EmptyExactlyInHole(gs[0], 1, 1000);
    BothHeld(gs, log.active.batches, x, y, v);
  }

  lemma {:induction false} BothHeld(gs: seq<SealedSegment>, tail: seq<Batch>, x: Bytes, y: Bytes, v: Bytes)
    requires Segs(gs) == After(x, y, v) && tail == [One(y, v, 4)]
    ensures RecordsOf(Flatten(gs) + tail) == [At(x, v, 0), At(y, v, 3), At(y, v, 4)]
  {
    GapAfter(gs, x, y, v);
    assert gs == [gs[0], gs[1]];
    Pair(gs[0], gs[1]);
    assert Flatten([gs[1]]) == gs[1].batches + [];
    assert Flatten(gs) == gs[0].batches + gs[1].batches;
    RecordsConcat(Flatten(gs), tail);
    RecordsConcat(gs[0].batches, gs[1].batches);
    AllOfBefore(x, y, v);
    assert ([At(x, v, 0)] + [At(y, v, 3)]) + [At(y, v, 4)] == [At(x, v, 0), At(y, v, 3), At(y, v, 4)];
  }

  /**
   And a commit that replay then misses: the log still holds the second position's newest commit, and the
   map replayed from it does not have that position at all.
   */
  method GapLosesCommit(c: C.Config, a: CommitKey, b: CommitKey, value: CommitValue) returns (log: Log, out: Option<Committed>)
    requires KeyFits(a) && KeyFits(b) && ValueFits(value) && 0 <= value.nextOffset
    requires c.digest(EncodeKey(a)) != c.digest(EncodeKey(b)) && 2 <= c.maxEntries
    ensures log.Valid() && out == Some(map[a := value])
    ensures Fold(map[], RecordsOf(log.Flat())) == Some(map[a := value, b := value])
  {
    var x, y, v := EncodeKey(a), EncodeKey(b), EncodeValue(value);
    log := FillAndClean(c, x, y, v);
    out := ReplayPartition(log, map[]);
    GapAfter(log.sealed, x, y, v);
    BothHeld(log.sealed, log.active.batches, x, y, v);
    GapStopsReplay(log.sealed, 4, log.active.batches, 0);
    FirstOnly(log.sealed);
    KeyRoundTrip(a);
    KeyRoundTrip(b);
    ValueRoundTrip(value);
    Replayed(x, y, v, a, b, value);
  }

  lemma {:induction false} FirstOnly(gs: seq<SealedSegment>)
    requires |gs| == 2
    ensures Flatten(gs[..1]) == gs[0].batches
  {
    assert gs[..1] == [gs[0]] && [gs[0]][1..] == [] && gs[0].batches + [] == gs[0].batches;
  }

  lemma {:induction false} Replayed(x: Bytes, y: Bytes, v: Bytes, a: CommitKey, b: CommitKey, value: CommitValue)
    requires DecodeKey(x) == Some(a) && DecodeKey(y) == Some(b) && DecodeValue(v) == Some(value)
    ensures Fold(map[], [At(x, v, 0)]) == Some(map[a := value])
    ensures Fold(map[], [At(x, v, 0), At(y, v, 3), At(y, v, 4)]) == Some(map[a := value, b := value])
  {
    var one, two, three := [At(x, v, 0)], [At(x, v, 0), At(y, v, 3)], [At(x, v, 0), At(y, v, 3), At(y, v, 4)];
    var m: Committed, n: Committed := map[a := value], map[a := value, b := value];
    assert one[..0] == [] && two[..1] == one && three[..2] == two;
    OneFolded(one, map[], a, value);
    OneFolded(two, m, b, value);
    OneFolded(three, n, b, value);
    assert m[b := value] == n && n[b := value] == n;
  }

  lemma {:induction false} OneFolded(rs: seq<Record>, m: Committed, k: CommitKey, value: CommitValue)
    requires rs != [] && Fold(map[], rs[..|rs| - 1]) == Some(m)
    requires var r := rs[|rs| - 1];
             r.key.Some? && DecodeKey(r.key.value) == Some(k) && r.value.Some? && DecodeValue(r.value.value) == Some(value)
    ensures Fold(map[], rs) == Some(m[k := value])
  {
  }
}
