/**
 A whole cleaning pass over a log, and its place among the runs of the compaction state machine:
 the loops over its segments, the maps between them, and the mark it leaves.
 */
module CleanerPass {
  import opened Prelude
  import opened Records
  import opened Segments
  import opened ActiveSegments
  import opened Sealed
  import opened Logs
  import opened Cleaning
  import opened Cleaner
  import opened CompactionRuns
  import opened PassResults
  import C = Compaction

  // ------------------------------------------------------------------- one file of a pass

  lemma {:induction false} SwapReplaced(gs: seq<SealedSegment>, base: int, instead: seq<SealedSegment>, kept: seq<Record>)
    requires if kept == [] then instead == []
             else |instead| == 1 && Seg(instead[0]) == C.Segment(base, kept[|kept| - 1].offset + 1, kept)
    ensures Segs(Replaced(gs, base, instead)) == C.Swap(Segs(gs), base, kept)
  {
    if gs != [] {
      assert Segs(gs)[0] == Seg(gs[0]) && Segs(gs)[1..] == Segs(gs[1..]);
      if gs[0].base == base {
        if instead == [] { assert instead + gs[1..] == gs[1..]; } else { assert instead == [instead[0]]; }
      } else {
        SwapReplaced(gs[1..], base, instead, kept);
      }
    }
  }

  lemma {:induction false} ReplacedKeepsOthers(gs: seq<SealedSegment>, base: int, instead: seq<SealedSegment>)
    ensures forall h :: h in gs && h.base != base ==> h in Replaced(gs, base, instead)
    ensures forall h :: h in Replaced(gs, base, instead) ==> h in gs || h in instead
  {
    if gs != [] { ReplacedKeepsOthers(gs[1..], base, instead); }
  }

  lemma {:induction false} BasesDiffer(gs: seq<SealedSegment>, lo: int, end: int)
    requires Chained(gs, lo, end)
    ensures forall g, h :: g in gs && h in gs && g.base == h.base ==> g == h
  {
    ChainedSpan(gs, lo, end);
  }

  /** Where the rewritten batches of a segment end: one past the newest record kept. */
  lemma {:induction false} CleanedEnd(sizeOf: seq<Record> -> nat, keep: Record -> bool, base: int, bs: seq<Batch>)
    requires CleanBatches(sizeOf, keep, bs) != []
    ensures var out, kept := CleanBatches(sizeOf, keep, bs), Filter(RecordsOf(bs), keep);
            kept != [] && NextOffset(base, out) == kept[|kept| - 1].offset + 1
  {
    var out, kept := CleanBatches(sizeOf, keep, bs), Filter(RecordsOf(bs), keep);
    CleanIsFilter(sizeOf, keep, bs);
    var last := out[|out| - 1];
    LastEnds(sizeOf, keep, bs);
    assert out[..|out| - 1] + [last] == out;
    RecordsSnoc(out[..|out| - 1], last);
    assert last in out;
  }

  lemma {:induction false} LastEnds(sizeOf: seq<Record> -> nat, keep: Record -> bool, bs: seq<Batch>)
    requires CleanBatches(sizeOf, keep, bs) != []
    ensures var out := CleanBatches(sizeOf, keep, bs); var last := out[|out| - 1];
            last.records != [] && last.last == last.records[|last.records| - 1].offset
  {
    if Filter(bs[|bs| - 1].records, keep) == [] { LastEnds(sizeOf, keep, bs[..|bs| - 1]); }
  }

  lemma {:induction false} EmptiedExactly(sizeOf: seq<Record> -> nat, keep: Record -> bool, bs: seq<Batch>)
    ensures CleanBatches(sizeOf, keep, bs) == [] <==> Filter(RecordsOf(bs), keep) == []
  {
    CleanIsFilter(sizeOf, keep, bs);
    var out := CleanBatches(sizeOf, keep, bs);
    if out != [] { assert out[0] in out; }
  }

  /** These take the place of segment g once only the kept records are left: nothing, or one segment. */
  ghost predicate StandsFor(instead: seq<SealedSegment>, g: SealedSegment, kept: seq<Record>) {
    && (instead == [] <==> kept == [])
    && |instead| <= 1
    && forall w :: w in instead ==>
         && Opened(w) && AllFormed(w.batches) && w.base == g.base && w.next <= g.next
         && Seg(w) == C.Segment(g.base, kept[|kept| - 1].offset + 1, kept)
  }

  lemma {:induction false} OneStandsFor(
    g: SealedSegment, sizeOf: seq<Record> -> nat, keep: Record -> bool, w: SealedSegment)
    requires Opened(g) && AllFormed(g.batches)
    requires Opened(w) && w.base == g.base && w.batches == CleanBatches(sizeOf, keep, g.batches)
    ensures StandsFor([w], g, Filter(RecordsOf(g.batches), keep))
  {
    CleanIsOrdered(sizeOf, keep, g.base, g.batches);
    CleanIsFilter(sizeOf, keep, g.batches);
    CleanedEnd(sizeOf, keep, g.base, g.batches);
  }

  /** Rewriting a segment and opening the result; an emptied segment has none. */
  method CleanSegment(policy: Policy, g: SealedSegment, sizeOf: seq<Record> -> nat, keep: Record -> bool)
    returns (cleaned: Option<seq<SealedSegment>>)
    requires Opened(g) && AllFormed(g.batches)
    ensures cleaned.Some? ==> StandsFor(cleaned.value, g, Filter(RecordsOf(g.batches), keep))
    ensures cleaned.None? <==> AppendAll(policy, g.base, CleanBatches(sizeOf, keep, g.batches)).None?
  {
    var out, derived := RewriteSegment(policy, g.base, g.batches, sizeOf, keep);
    if derived.None? { return None; }
    if out == [] {
      EmptiedExactly(sizeOf, keep, g.batches);
      return Some([]);
    }
    var w := OpenCleaned(policy, g, sizeOf, keep, out, derived.value);
    OneStandsFor(g, sizeOf, keep, w);
    return Some([w]);
  }

  method OpenCleaned(
    policy: Policy, g: SealedSegment, sizeOf: seq<Record> -> nat, keep: Record -> bool, out: seq<Batch>, derived: Derived)
    returns (w: SealedSegment)
    requires Opened(g) && AllFormed(g.batches)
    requires out == CleanBatches(sizeOf, keep, g.batches) != [] && AppendAll(policy, g.base, out) == Some(derived)
    ensures Opened(w) && w.base == g.base && w.batches == out
  {
    CleanIsOrdered(sizeOf, keep, g.base, g.batches);
    AppendsDerive(policy, g.base, out);
    w := OpenSealed(g.base, out, derived.index);
  }

  /** Putting the stand-in in g's place, for a log that holds g. */
  lemma {:induction false} StandInFits(
    gs: seq<SealedSegment>, lo: int, end: int, g: SealedSegment, instead: seq<SealedSegment>, kept: seq<Record>)
    requires Chained(gs, lo, end) && SegmentsFormed(gs) && g in gs && StandsFor(instead, g, kept)
    ensures SegmentsFormed(Replaced(gs, g.base, instead))
    ensures Segs(Replaced(gs, g.base, instead)) == C.Swap(Segs(gs), g.base, kept)
    ensures forall h :: h in gs && h.base != g.base ==> h in Replaced(gs, g.base, instead)
    ensures forall h :: h in gs && h.base == g.base ==> h == g
  {
    BasesDiffer(gs, lo, end);
    SwapReplaced(gs, g.base, instead, kept);
    ReplacedKeepsOthers(gs, g.base, instead);
  }

  datatype FileOutcome = Untouched | Rewritten | Removed | Threw

  /** A rewrite of this segment is called for, and fails: a batch of it would have no place in its index. */
  predicate Stuck(policy: Policy, sizeOf: seq<Record> -> nat, keep: Record -> bool, g: SealedSegment) {
    && |Filter(RecordsOf(g.batches), keep)| != |RecordsOf(g.batches)|
    && AppendAll(policy, g.base, CleanBatches(sizeOf, keep, g.batches)).None?
  }

  /** Phase two for one segment: nothing to drop, an emptied segment removed, or a rewrite swapped in. */
  method CleanFile(log: Log, g: SealedSegment, sizeOf: seq<Record> -> nat, keep: Record -> bool, nowMs: int)
    returns (outcome: FileOutcome)
    requires log.Valid() && SegmentsFormed(log.sealed) && g in log.sealed
    modifies log`sealed, log`graveyard
    ensures log.Valid() && SegmentsFormed(log.sealed)
    ensures outcome.Threw? <==> Stuck(log.policy, sizeOf, keep, g)
    ensures outcome.Untouched? <==> |Filter(RecordsOf(g.batches), keep)| == |RecordsOf(g.batches)|
    ensures outcome.Threw? || outcome.Untouched? ==> unchanged(log)
    ensures !outcome.Threw? ==> Segs(log.sealed) == AfterFile(Segs(old(log.sealed)), Seg(g), keep)
    ensures outcome.Removed? <==> !outcome.Threw? && RecordsOf(g.batches) != [] && Filter(RecordsOf(g.batches), keep) == []
    ensures forall h :: h in old(log.sealed) && h.base != g.base ==> h in log.sealed
  {
    ghost var before, lo := log.sealed, log.LogStart();
    ChainedSpan(before, lo, log.active.base);
    assert SegmentsFormed(before);
    var drops := WouldDropAnything(g.batches, keep);
    if !drops { return Untouched; }
    var cleaned := CleanSegment(log.policy, g, sizeOf, keep);
    if cleaned.None? { return Threw; }
    StandInFits(before, lo, log.active.base, g, cleaned.value, Filter(RecordsOf(g.batches), keep));
    if cleaned.value == [] {
      var _ := log.RemoveSegment(g.base, nowMs);
      return Removed;
    }
    assert cleaned.value == [cleaned.value[0]] && cleaned.value[0] in cleaned.value;
    var _ := log.ReplaceSegment(g.base, cleaned.value[0], nowMs);
    return Rewritten;
  }

  // ------------------------------------------------------------ the machine beside the pass

  predicate CleanerOnly(e: C.Event) {
    e.Begin? || e.MapFile? || e.EndMap? || e.RewriteFile? || e.Finish? || e.Abort?
  }

  /** The machine gets from s to s' by the cleaner's own steps. */
  ghost predicate Reaches(c: C.Config, s: C.State, s': C.State) {
    exists es: seq<C.Event> ::
      (forall e :: e in es ==> CleanerOnly(e)) && Possible(c, s, es) && Run(c, s, es) == s'
  }

  lemma {:induction false} RunSnoc(c: C.Config, s: C.State, es: seq<C.Event>, e: C.Event)
    requires Possible(c, s, es) && C.Enabled(Run(c, s, es), e)
    ensures Possible(c, s, es + [e]) && Run(c, s, es + [e]) == C.Step(c, Run(c, s, es), e)
    decreases |es|
  {
    if es == [] {
      assert es + [e] == [e] && [e][1..] == [];
    } else {
      RunSnoc(c, C.Step(c, s, es[0]), es[1..], e);
      assert (es + [e])[1..] == es[1..] + [e];
    }
  }

  lemma {:induction false} ReachesSelf(c: C.Config, s: C.State)
    ensures Reaches(c, s, s)
  {
    assert Possible(c, s, []) && Run(c, s, []) == s;
  }

  lemma {:induction false} ReachesStep(c: C.Config, s: C.State, m: C.State, e: C.Event)
    requires Reaches(c, s, m) && C.Enabled(m, e) && CleanerOnly(e)
    ensures Reaches(c, s, C.Step(c, m, e))
  {
    var es: seq<C.Event> :| (forall e :: e in es ==> CleanerOnly(e)) && Possible(c, s, es) && Run(c, s, es) == m;
    RunSnoc(c, s, es, e);
    assert forall x :: x in es + [e] ==> CleanerOnly(x);
  }

  /** A pass, however far it got, changes no key's value and never moves the mark back. */
  lemma {:induction false} PassIsInvisible(c: C.Config, s: C.State, s': C.State)
    requires C.Inv(c, s) && C.Injective(c, C.Recs(s)) && Reaches(c, s, s')
    ensures C.Inv(c, s') && View(C.Recs(s')) == View(C.Recs(s))
    ensures s.mark <= s'.mark && C.OnePerKey(C.Recs(s'), s'.mark)
  {
    var es: seq<C.Event> :| (forall e :: e in es ==> CleanerOnly(e)) && Possible(c, s, es) && Run(c, s, es) == s';
    var h := C.Recs(s);
    CleanerIsLossless(c, s, es);
    NothingMore(h);
    OwnTwin(c, s);
    C.RecsIncreasing(s);
    RunTwin(c, s, h, es);
    UncleanedIsHistory(c, s, h, es);
    MarkNeverFalls(c, s, h, es);
    SameViewAsTwin(c, s', h);
  }

  lemma {:induction false} SameViewAsTwin(c: C.Config, s: C.State, h: seq<Record>)
    requires Twin(c, s, h)
    ensures View(C.Recs(s)) == View(h)
  {
    TwinRecs(c, s, h);
    C.RecsIncreasing(s);
    RepresentsSameView(C.Recs(s), h);
  }

  lemma {:induction false} CleanerIsLossless(c: C.Config, s: C.State, es: seq<C.Event>)
    requires (forall e :: e in es ==> CleanerOnly(e)) && Possible(c, s, es)
    ensures Written(es) == [] && Lossless(c, s, es) && forall i :: 0 <= i < |es| ==> !es[i].Restart?
    decreases |es|
  {
    if es != [] {
      assert es[0] in es && forall e :: e in es[1..] ==> e in es;
      CleanerIsLossless(c, C.Step(c, s, es[0]), es[1..]);
      forall i | 0 <= i < |es| ensures !es[i].Restart? {
        if 0 < i { assert es[i] == es[1..][i - 1]; }
      }
    }
  }

  // ------------------------------------------------------------------------- the pass

  function Mapping(s: C.State, files: seq<SealedSegment>, i: nat, m: C.KeyMap, through: int, nowMs: int): C.State {
    s.(pass := Some(C.Mapping(Segs(files), i, m, through, nowMs)))
  }

  function Rewriting(s: C.State, files: seq<SealedSegment>, i: nat, m: C.KeyMap, through: int, nowMs: int): C.State {
    s.(pass := Some(C.Rewriting(Segs(files), i, m, through, nowMs)))
  }

  /** Phase one: maps the dirty files in order until the budget refuses a key part-way through one. */
  method MapDirty(c: C.Config, files: seq<SealedSegment>, firstDirty: int, nowMs: int, ghost s: C.State)
    returns (keys: KeyOffsetMap, through: int, ghost full: bool)
    requires s.sealed == Segs(files) && s.mark == firstDirty && s.pass == None
    ensures fresh(keys) && keys.config == c
    ensures Mapped(keys.entries, through, full) == MapOf(c, Segs(files), firstDirty)
    ensures Reaches(c, s, Rewriting(s, files, 0, keys.entries, through, nowMs))
  {
    keys := new KeyOffsetMap(c);
    through, full := firstDirty, false;
    var i := 0;
    ReachesSelf(c, s);
    ReachesStep(c, s, s, C.Begin(nowMs));
    while i < |files|
      invariant i <= |files| && fresh(keys) && keys.config == c && !full
      invariant Reaches(c, s, Mapping(s, files, i, keys.entries, through, nowMs))
      invariant MapDirtyFiles(c, Segs(files)[i..], firstDirty, keys.entries, through) == MapOf(c, Segs(files), firstDirty)
    {
      assert Segs(files)[i..][1..] == Segs(files)[i + 1..] && Segs(files)[i..][0] == Seg(files[i]);
      ReachesStep(c, s, Mapping(s, files, i, keys.entries, through, nowMs), C.MapFile);
      if firstDirty < files[i].next {
        var refused := MapFile(keys, files[i].batches);
        if refused {
          full := true;
          return;
        }
        through := files[i].next;
      }
      i := i + 1;
    }
    ReachesStep(c, s, Mapping(s, files, i, keys.entries, through, nowMs), C.EndMap);
  }

  /** The machine's account of one segment dealt with, one pass ended, or one abandoned. */
  lemma {:induction false} FileDone(
    c: C.Config, s: C.State, a: C.State, a': C.State, files: seq<SealedSegment>, i: nat, m: C.KeyMap, through: int, nowMs: int)
    requires Reaches(c, s, Rewriting(a, files, i, m, through, nowMs)) && m != map[]
    requires i < |files| && files[i].base < through
    requires a' == a.(sealed := AfterFile(a.sealed, Seg(files[i]), C.Keeper(c, m, nowMs)))
    ensures Reaches(c, s, Rewriting(a', files, i + 1, m, through, nowMs))
  {
    ReachesStep(c, s, Rewriting(a, files, i, m, through, nowMs), C.RewriteFile);
  }

  lemma {:induction false} PassDone(
    c: C.Config, s: C.State, a: C.State, files: seq<SealedSegment>, i: nat, m: C.KeyMap, through: int, nowMs: int)
    requires Reaches(c, s, Rewriting(a, files, i, m, through, nowMs)) && a.pass.None? && i <= |files|
    ensures Reaches(c, s, a)
    ensures (i < |files| && m != map[] ==> through <= files[i].base) ==> Reaches(c, s, a.(mark := through))
  {
    ReachesStep(c, s, Rewriting(a, files, i, m, through, nowMs), C.Abort);
    if i < |files| && m != map[] ==> through <= files[i].base {
      ReachesStep(c, s, Rewriting(a, files, i, m, through, nowMs), C.Finish);
    }
  }

  lemma {:induction false} OthersRemain(before: seq<SealedSegment>, after: seq<SealedSegment>, files: seq<SealedSegment>, i: nat)
    requires i < |files| && forall j :: i < j < |files| ==> files[j].base != files[i].base
    requires forall j :: i <= j < |files| ==> files[j] in before
    requires forall h :: h in before && h.base != files[i].base ==> h in after
    ensures forall j :: i < j < |files| ==> files[j] in after
  {
  }

  /** The files from here on are all still in the log. */
  ghost predicate StillThere(files: seq<SealedSegment>, i: nat, gs: seq<SealedSegment>) {
    forall j :: i <= j < |files| ==> files[j] in gs
  }

  lemma {:induction false} AllThere(files: seq<SealedSegment>)
    ensures StillThere(files, 0, files)
  {
  }

  ghost predicate Ascending(files: seq<SealedSegment>) {
    forall i, j :: 0 <= i < j < |files| ==> files[i].base < files[j].base
  }

  ghost predicate Fit(log: Log)
    reads log, log.active
  {
    log.Valid() && SegmentsFormed(log.sealed)
  }

  /** The log is what dealing with the first i files makes of the one the pass began with. */
  ghost predicate Halfway(gs: seq<SealedSegment>, files: seq<SealedSegment>, i: nat, keep: Record -> bool) {
    i <= |files| && Segs(gs) == RewrittenFirst(Segs(files), i, keep)
  }

  /** Phase two with i files dealt with: the log is fit, what is ahead is untouched, the machine is here too. */
  ghost predicate Working(
    log: Log, c: C.Config, files: seq<SealedSegment>, i: nat, m: C.KeyMap, through: int, nowMs: int, mark: int, s: C.State)
    reads log, log.active
  {
    && i <= |files| && Fit(log) && StillThere(files, i, log.sealed)
    && Halfway(log.sealed, files, i, C.Keeper(c, m, nowMs))
    && Reaches(c, s, Rewriting(AbstractOf(log, mark), files, i, m, through, nowMs))
  }

  lemma {:induction false} StartsWorking(
    log: Log, c: C.Config, files: seq<SealedSegment>, m: C.KeyMap, through: int, nowMs: int, mark: int, s: C.State)
    requires Fit(log) && log.sealed == files && m != map[]
    requires Reaches(c, s, Rewriting(AbstractOf(log, mark), files, 0, m, through, nowMs))
    ensures Working(log, c, files, 0, m, through, nowMs, mark, s) && Ascending(files)
  {
    BasesIncrease(files, log.LogStart(), log.active.base);
    AllThere(files);
  }

  /** Phase two after i files: still at work, or stopped by the last of them, whose rewrite threw. */
  ghost predicate Underway(
    log: Log, c: C.Config, sizeOf: seq<Record> -> nat, files: seq<SealedSegment>, i: nat, m: C.KeyMap, through: int,
    nowMs: int, mark: int, s: C.State, going: bool)
    reads log, log.active
  {
    var keep := C.Keeper(c, m, nowMs);
    if going then Working(log, c, files, i, m, through, nowMs, mark, s)
    else
      && 0 < i <= |files| && Stuck(log.policy, sizeOf, keep, files[i - 1])
      && Halfway(log.sealed, files, i - 1, keep)
      && Fit(log) && Reaches(c, s, AbstractOf(log, mark))
  }

  /** One turn of phase two's loop. */
  method RewriteOne(
    log: Log, c: C.Config, sizeOf: seq<Record> -> nat, files: seq<SealedSegment>, i: nat,
    m: C.KeyMap, through: int, nowMs: int, ghost mark: int, ghost s: C.State)
    returns (done: bool)
    requires Working(log, c, files, i, m, through, nowMs, mark, s) && i < |files| && files[i].base < through
    requires m != map[] && Ascending(files)
    modifies log`sealed, log`graveyard
    ensures done <==> !Stuck(log.policy, sizeOf, C.Keeper(c, m, nowMs), files[i])
    ensures Underway(log, c, sizeOf, files, i + 1, m, through, nowMs, mark, s, done)
  {
    ghost var a, before := AbstractOf(log, mark), log.sealed;
    var outcome := CleanFile(log, files[i], sizeOf, C.Keeper(c, m, nowMs), nowMs);
    if outcome.Threw? {
      PassDone(c, s, a, files, i, m, through, nowMs);
      return false;
    }
    OthersRemain(before, log.sealed, files, i);
    assert Segs(files)[i] == Seg(files[i]);
    FileDone(c, s, a, AbstractOf(log, mark), files, i, m, through, nowMs);
    return true;
  }

  /** The first i files begin below the end of the mapped range, and while the pass goes on none was stuck. */
  predicate Passed(
    policy: Policy, sizeOf: seq<Record> -> nat, keep: Record -> bool, files: seq<SealedSegment>, i: nat, through: int,
    going: bool)
  {
    && i <= |files| && (forall j :: 0 <= j < i ==> files[j].base < through)
    && (going ==> forall j :: 0 <= j < i ==> !Stuck(policy, sizeOf, keep, files[j]))
  }

  /** Phase two's loop: on to the end of the mapped range, or to a rewrite that throws. */
  method RewriteUpTo(
    log: Log, c: C.Config, sizeOf: seq<Record> -> nat, files: seq<SealedSegment>,
    m: C.KeyMap, through: int, nowMs: int, ghost mark: int, ghost s: C.State)
    returns (done: bool, ghost i: nat)
    requires Working(log, c, files, 0, m, through, nowMs, mark, s) && m != map[] && Ascending(files)
    modifies log`sealed, log`graveyard
    ensures Underway(log, c, sizeOf, files, i, m, through, nowMs, mark, s, done)
    ensures Passed(log.policy, sizeOf, C.Keeper(c, m, nowMs), files, i, through, done)
    ensures done && i < |files| ==> through <= files[i].base
  {
    var at := 0;
    done := true;
    while done && at < |files| && files[at].base < through
      invariant Underway(log, c, sizeOf, files, at, m, through, nowMs, mark, s, done)
      invariant Passed(log.policy, sizeOf, C.Keeper(c, m, nowMs), files, at, through, done)
    {
      done := RewriteOne(log, c, sizeOf, files, at, m, through, nowMs, mark, s);
      at := at + 1;
    }
    i := at;
  }

  /** Some file the pass has to rewrite cannot be rewritten. */
  predicate AnyStuck(
    policy: Policy, sizeOf: seq<Record> -> nat, keep: Record -> bool, files: seq<SealedSegment>, through: int) {
    exists j :: 0 <= j < |files| && files[j].base < through && Stuck(policy, sizeOf, keep, files[j])
  }

  /** The pass stopped at a file whose rewrite throws; the rule has been applied to the ones before it. */
  ghost predicate StoppedAt(
    policy: Policy, sizeOf: seq<Record> -> nat, keep: Record -> bool, files: seq<SealedSegment>, through: int,
    gs: seq<SealedSegment>)
  {
    exists j: nat :: j < |files| && files[j].base < through && Stuck(policy, sizeOf, keep, files[j])
                     && Halfway(gs, files, j, keep)
  }

  /** Phase two: rewrites from the log start to the end of the mapped range, one swap at a time. */
  method RewriteMapped(
    log: Log, c: C.Config, sizeOf: seq<Record> -> nat, files: seq<SealedSegment>,
    m: C.KeyMap, through: int, nowMs: int, ghost mark: int, ghost s: C.State)
    returns (finished: bool)
    requires Fit(log) && log.sealed == files && m != map[]
    requires Reaches(c, s, Rewriting(AbstractOf(log, mark), files, 0, m, through, nowMs))
    modifies log`sealed, log`graveyard
    ensures Fit(log)
    ensures Reaches(c, s, AbstractOf(log, if finished then through else mark))
    ensures finished <==> !AnyStuck(log.policy, sizeOf, C.Keeper(c, m, nowMs), files, through)
    ensures finished ==>
              Segs(log.sealed) == RewrittenFirst(Segs(files), FilesBelow(Segs(files), through), C.Keeper(c, m, nowMs))
    ensures !finished ==> StoppedAt(log.policy, sizeOf, C.Keeper(c, m, nowMs), files, through, log.sealed)
  {
    StartsWorking(log, c, files, m, through, nowMs, mark, s);
    ghost var i;
    finished, i := RewriteUpTo(log, c, sizeOf, files, m, through, nowMs, mark, s);
    if finished {
      EndsMapped(log, c, sizeOf, files, i, m, through, nowMs, mark, s);
    } else {
      StopsMapped(log, c, sizeOf, files, i, m, through, nowMs, mark, s);
    }
  }

  lemma {:induction false} EndsMapped(
    log: Log, c: C.Config, sizeOf: seq<Record> -> nat, files: seq<SealedSegment>, i: nat, m: C.KeyMap, through: int,
    nowMs: int, mark: int, s: C.State)
    requires Working(log, c, files, i, m, through, nowMs, mark, s) && Ascending(files)
    requires Passed(log.policy, sizeOf, C.Keeper(c, m, nowMs), files, i, through, true)
    requires i < |files| ==> through <= files[i].base
    ensures Fit(log) && Reaches(c, s, AbstractOf(log, through))
    ensures !AnyStuck(log.policy, sizeOf, C.Keeper(c, m, nowMs), files, through)
    ensures Segs(log.sealed) == RewrittenFirst(Segs(files), FilesBelow(Segs(files), through), C.Keeper(c, m, nowMs))
  {
    Finished(c, s, log, mark, files, i, m, through, nowMs);
    FilesBelowIs(Segs(files), through, i);
  }

  lemma {:induction false} StopsMapped(
    log: Log, c: C.Config, sizeOf: seq<Record> -> nat, files: seq<SealedSegment>, i: nat, m: C.KeyMap, through: int,
    nowMs: int, mark: int, s: C.State)
    requires Underway(log, c, sizeOf, files, i, m, through, nowMs, mark, s, false)
    requires Passed(log.policy, sizeOf, C.Keeper(c, m, nowMs), files, i, through, false)
    ensures Fit(log) && Reaches(c, s, AbstractOf(log, mark))
    ensures AnyStuck(log.policy, sizeOf, C.Keeper(c, m, nowMs), files, through)
    ensures StoppedAt(log.policy, sizeOf, C.Keeper(c, m, nowMs), files, through, log.sealed)
  {
  }

  lemma {:induction false} Finished(
    c: C.Config, s: C.State, log: Log, mark: int, files: seq<SealedSegment>, i: nat, m: C.KeyMap, through: int, nowMs: int)
    requires Reaches(c, s, Rewriting(AbstractOf(log, mark), files, i, m, through, nowMs))
    requires i <= |files| && (i < |files| ==> through <= files[i].base)
    ensures Reaches(c, s, AbstractOf(log, through))
  {
    var a := AbstractOf(log, mark);
    PassDone(c, s, a, files, i, m, through, nowMs);
    assert a.(mark := through) == AbstractOf(log, through);
  }

  lemma {:induction false} BasesIncrease(gs: seq<SealedSegment>, lo: int, end: int)
    requires Chained(gs, lo, end)
    ensures Ascending(gs)
  {
    ChainedSpan(gs, lo, end);
  }

  /** A log between passes, as the compaction machine sees it. */
  ghost function AbstractOf(log: Log, mark: int): C.State
    reads log, log.active
  {
    Abstract(log.sealed, log.active.base, log.active.nextOffset, log.active.batches, mark)
  }

  /** A pass that ended: the mark is where its map got to, and the segments below it have been dealt with. */
  ghost predicate PassEnded(
    c: C.Config, before: seq<C.Segment>, after: seq<C.Segment>, mark: int, mark': int, nowMs: int)
  {
    var mapped := MapOf(c, before, mark);
    && mark' == mapped.through
    && after == if mapped.m == map[] then before
                else RewrittenFirst(before, FilesBelow(before, mark'), C.Keeper(c, mapped.m, nowMs))
  }

  /** A pass that threw: it had a file to rewrite that cannot be, and dealt with the files before it only. */
  ghost predicate PassThrew(
    policy: Policy, c: C.Config, sizeOf: seq<Record> -> nat, files: seq<SealedSegment>, gs: seq<SealedSegment>,
    mark: int, nowMs: int)
  {
    var mapped := MapOf(c, Segs(files), mark);
    mapped.m != map[] && StoppedAt(policy, sizeOf, C.Keeper(c, mapped.m, nowMs), files, mapped.through, gs)
  }

  predicate PassCanEnd(
    policy: Policy, c: C.Config, sizeOf: seq<Record> -> nat, files: seq<SealedSegment>, mark: int, nowMs: int)
  {
    var mapped := MapOf(c, Segs(files), mark);
    mapped.m == map[] || !AnyStuck(policy, sizeOf, C.Keeper(c, mapped.m, nowMs), files, mapped.through)
  }

  /**
   cleanLog. It ends unless some file it has to rewrite cannot be; then the mark is the end of what was
   mapped whole, and each segment below it has lost what the rule rejects. Ended or thrown, the pass is a
   run of the compaction machine's cleaner steps.
   */
  method CleanLog(log: Log, c: C.Config, sizeOf: seq<Record> -> nat, firstDirty: int, nowMs: int)
    returns (nextDirty: Option<int>)
    requires Fit(log)
    modifies log`sealed, log`graveyard
    ensures Fit(log)
    ensures nextDirty.Some? <==> PassCanEnd(log.policy, c, sizeOf, old(log.sealed), firstDirty, nowMs)
    ensures nextDirty.Some? ==>
              PassEnded(c, Segs(old(log.sealed)), Segs(log.sealed), firstDirty, nextDirty.value, nowMs)
    ensures nextDirty.None? ==>
              PassThrew(log.policy, c, sizeOf, old(log.sealed), log.sealed, firstDirty, nowMs)
    ensures Reaches(c, old(AbstractOf(log, firstDirty)),
                    AbstractOf(log, if nextDirty.Some? then nextDirty.value else firstDirty))
  {
    ghost var s := AbstractOf(log, firstDirty);
    ReachesSelf(c, s);
    var files := log.sealed;
    if files == [] { return Some(firstDirty); }
    ghost var full;
    var keys, through;
    keys, through, full := MapDirty(c, files, firstDirty, nowMs, s);
    nextDirty := FinishPass(log, c, sizeOf, files, keys.entries, through, nowMs, firstDirty, full, s);
  }

  /** What is left of a pass once its map is built. */
  method FinishPass(
    log: Log, c: C.Config, sizeOf: seq<Record> -> nat, files: seq<SealedSegment>,
    m: C.KeyMap, through: int, nowMs: int, ghost mark: int, ghost full: bool, ghost s: C.State)
    returns (nextDirty: Option<int>)
    requires Fit(log) && log.sealed == files && Mapped(m, through, full) == MapOf(c, Segs(files), mark)
    requires Reaches(c, s, Rewriting(AbstractOf(log, mark), files, 0, m, through, nowMs))
    modifies log`sealed, log`graveyard
    ensures Fit(log)
    ensures nextDirty.Some? <==> PassCanEnd(log.policy, c, sizeOf, files, mark, nowMs)
    ensures nextDirty.Some? ==> PassEnded(c, Segs(files), Segs(log.sealed), mark, nextDirty.value, nowMs)
    ensures nextDirty.None? ==> PassThrew(log.policy, c, sizeOf, files, log.sealed, mark, nowMs)
    ensures Reaches(c, s, AbstractOf(log, if nextDirty.Some? then nextDirty.value else mark))
  {
    if m == map[] {
      PassDone(c, s, AbstractOf(log, mark), files, 0, m, through, nowMs);
      return Some(through);
    }
    var finished := RewriteMapped(log, c, sizeOf, files, m, through, nowMs, mark, s);
    return if finished then Some(through) else None;
  }

  /**
   What an ended pass means. The mark moves to the end of a sealed segment, and of the last one when the
   dirty keys fit the map; every sealed record below it is one the rule retains, by a map that knows every
   key of the segments just mapped at its newest; nothing at or past the mark is touched, and nothing the
   rule retains is lost.
   */
  lemma {:induction false} EndedPassMeans(
    c: C.Config, before: seq<C.Segment>, after: seq<C.Segment>, end: int, mark: int, mark': int, nowMs: int)
    requires C.Chain(before, 0, end) && C.Aligned(before, mark) && PassEnded(c, before, after, mark, mark', nowMs)
    ensures mark <= mark' && (mark' == mark || exists f :: f in before && f.next == mark')
    ensures |DirtyKeys(c, before, mark)| <= c.maxEntries && before != [] ==> mark' == Max(mark, before[|before| - 1].next)
    ensures var m := MapOf(c, before, mark).m;
            && (m != map[] ==> C.All(after) == Filter(C.All(before), RuleBelow(mark', C.Keeper(c, m, nowMs))))
            && forall r :: r in C.All(after) <==>
                 r in C.All(before) && (mark' <= r.offset || m == map[] || C.Retain(c, m, nowMs, r))
    ensures var m := MapOf(c, before, mark).m;
            forall r :: r in C.All(before) && r.key.Some? && mark <= r.offset < mark' ==>
              c.digest(r.key.value) in m && r.offset <= m[c.digest(r.key.value)]
  {
    MapMeans(c, before, end, mark);
    RewrittenBelow(before, end, mark', C.Keeper(c, MapOf(c, before, mark).m, nowMs));
    FilterMembers(C.All(before), RuleBelow(mark', C.Keeper(c, MapOf(c, before, mark).m, nowMs)));
    MappedBelow(c, before, end, mark);
  }

  /** The map has every keyed record between the old mark and the new. */
  lemma {:induction false} MappedBelow(c: C.Config, before: seq<C.Segment>, end: int, mark: int)
    requires C.Chain(before, 0, end)
    ensures var mapped := MapOf(c, before, mark);
            forall r :: r in C.All(before) && r.key.Some? && mark <= r.offset < mapped.through ==>
              c.digest(r.key.value) in mapped.m && r.offset <= mapped.m[c.digest(r.key.value)]
  {
    var mapped := MapOf(c, before, mark);
    MapMeans(c, before, end, mark);
    C.AllMembers(before);
    C.ChainOrder(before, 0, end);
    forall r | r in C.All(before) && r.key.Some? && mark <= r.offset < mapped.through
      ensures c.digest(r.key.value) in mapped.m && r.offset <= mapped.m[c.digest(r.key.value)]
    {
      var f :| f in before && r in f.records;
      var g :| g in before && mark < g.next == mapped.through;
      EndsBy(before, end, f, g);
    }
  }

  lemma {:induction false} EndsBy(gs: seq<C.Segment>, end: int, f: C.Segment, g: C.Segment)
    requires C.Chain(gs, 0, end) && f in gs && g in gs && f.base < g.next
    ensures f.next <= g.next
  {
    C.ChainFacts(gs, 0, end);
    var i :| 0 <= i < |gs| && gs[i] == f;
    var j :| 0 <= j < |gs| && gs[j] == g;
    if i < j { assert gs[i].next <= gs[j].base; }
  }

  class LogCleaner {
    const log: Log
    const config: C.Config
    const sizeOf: seq<Record> -> nat
    var firstDirty: int

    ghost predicate Valid()
      reads this, log, log.active
    {
      && Fit(log)
      && C.Inv(config, AbstractOf(log, firstDirty))
    }

    constructor (log: Log, config: C.Config, sizeOf: seq<Record> -> nat)
      requires log.Valid() && SegmentsFormed(log.sealed) && AllFormed(log.active.batches) && 0 <= log.LogStart()
      ensures Valid() && this.log == log && this.config == config && this.sizeOf == sizeOf && firstDirty == 0
    {
      this.log, this.config, this.sizeOf, firstDirty := log, config, sizeOf, 0;
      ContiguousFacts(log.active.base, log.active.batches);
      AppendsDerive(log.policy, log.active.base, log.active.batches);
      UnmarkedIsInv(config, log.sealed, log.LogStart(), log.active.base, log.active.batches);
    }

    /**
     cleanOnce. It does what cleanLog does and keeps the mark it returns, or leaves the mark alone if that
     throws. While the digest tells the keys apart no key's value changes, the mark never moves back, and
     below it there is at most one record per key.
     */
    method CleanOnce(nowMs: int) returns (done: bool)
      requires Valid() && C.Injective(config, C.Recs(AbstractOf(log, firstDirty)))
      modifies this, log`sealed, log`graveyard
      ensures Valid() && Reaches(config, old(AbstractOf(log, firstDirty)), AbstractOf(log, firstDirty))
      ensures done <==> PassCanEnd(log.policy, config, sizeOf, old(log.sealed), old(firstDirty), nowMs)
      ensures done ==> PassEnded(config, Segs(old(log.sealed)), Segs(log.sealed), old(firstDirty), firstDirty, nowMs)
      ensures !done ==>
                && firstDirty == old(firstDirty)
                && PassThrew(log.policy, config, sizeOf, old(log.sealed), log.sealed, firstDirty, nowMs)
      ensures View(C.Recs(AbstractOf(log, firstDirty))) == View(old(C.Recs(AbstractOf(log, firstDirty))))
      ensures old(firstDirty) <= firstDirty && C.OnePerKey(C.Recs(AbstractOf(log, firstDirty)), firstDirty)
    {
      ghost var s := AbstractOf(log, firstDirty);
      var next := CleanLog(log, config, sizeOf, firstDirty, nowMs);
      if next.Some? { firstDirty := next.value; }
      PassIsInvisible(config, s, AbstractOf(log, firstDirty));
      done := next.Some?;
    }
  }
}
