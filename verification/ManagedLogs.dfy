/** A compacted partition as the broker runs it, call by call. */
module ManagedLogs {
  // Every call on the log and on its cleaner is a step, or a few, of the compaction machine; so whatever
  // is proved of the machine's runs is proved of the classes.

  import opened Prelude
  import opened Records
  import opened Segments
  import opened ActiveSegments
  import opened Sealed
  import opened FlatLogs
  import opened Logs
  import opened LogOpening
  import opened Cleaning
  import opened CompactionRuns
  import opened CleanerPass
  import C = Compaction

  // ------------------------------------------------------------- what each call is a step of

  /** Restamping a well-formed batch leaves it one. */
  lemma {:induction false} StampedFormed(b: Batch, base: int)
    requires WellFormed(b)
    ensures WellFormed(Stamped(b, base))
  {
  }

  lemma {:induction false} FormedSnoc(bs: seq<Batch>, b: Batch)
    requires AllFormed(bs) && WellFormed(b)
    ensures AllFormed(bs + [b])
  {
  }

  /** An append to the active segment is the machine's append of the batch's records. */
  lemma {:induction false} AppendIsStep(c: C.Config, gs: seq<SealedSegment>, base: int, next: int, tail: seq<Batch>, b: Batch, mark: int)
    requires WellFormed(b) && b.base == next
    ensures var s, e := Abstract(gs, base, next, tail, mark), C.Append(b.records, b.last + 1);
            C.Enabled(s, e) && C.Step(c, s, e) == Abstract(gs, base, b.last + 1, tail + [b], mark)
  {
    RecordsSnoc(tail, b);
  }

  lemma {:induction false} SegsSnoc(gs: seq<SealedSegment>, g: SealedSegment)
    ensures Segs(gs + [g]) == Segs(gs) + [Seg(g)]
  {
  }

  /** A roll is the machine's roll. */
  lemma {:induction false} RollIsStep(
    c: C.Config, gs: seq<SealedSegment>, base: int, next: int, tail: seq<Batch>, mark: int, gs': seq<SealedSegment>)
    requires Rolled(true, gs, base, tail, next, gs') && base < next
    ensures var s := Abstract(gs, base, next, tail, mark);
            C.Enabled(s, C.Roll) && C.Step(c, s, C.Roll) == Abstract(gs', next, next, [], mark)
  {
    var g := gs'[|gs|];
    assert gs' == gs + [g];
    SegsSnoc(gs, g);
  }

  /** Retention is the machine's retirement of as many segments. */
  lemma {:induction false} RetireIsStep(
    c: C.Config, gs: seq<SealedSegment>, base: int, next: int, tail: seq<Batch>, mark: int, n: nat)
    requires n <= |gs|
    ensures var s := Abstract(gs, base, next, tail, mark);
            C.Enabled(s, C.Retire(n)) && C.Step(c, s, C.Retire(n)) == Abstract(gs[n..], base, next, tail, mark)
  {
    assert Segs(gs)[n..] == Segs(gs[n..]);
  }

  /** A restart that recovers the first n batches of the active segment is the machine's, at where they end. */
  lemma {:induction false} RestartIsStep(
    c: C.Config, gs: seq<SealedSegment>, gs': seq<SealedSegment>, base: int, tail: seq<Batch>, n: nat, mark: int)
    requires OpenedFrom(gs', FilesOf(gs)) && Chained(gs, StartOfLog(gs, base), base)
    requires Contiguous(base, tail) && AllFormed(tail) && n <= |tail|
    ensures var s, next := Abstract(gs, base, NextOffset(base, tail), tail, mark), NextOffset(base, tail[..n]);
            && C.Enabled(s, C.Restart(next))
            && C.Step(c, s, C.Restart(next)) == Abstract(gs', base, next, tail[..n], 0)
  {
    var next := NextOffset(base, tail[..n]);
    SameSegs(gs, gs', base);
    ContiguousPrefix(base, tail, n);
    ContiguousFacts(base, tail[..n]);
    ContiguousFacts(base, tail);
    RecoveredRecords(base, tail, n);
    RestStarts(base, tail, n);
  }

  lemma {:induction false} SameSegs(gs: seq<SealedSegment>, gs': seq<SealedSegment>, base: int)
    requires OpenedFrom(gs', FilesOf(gs)) && Chained(gs, StartOfLog(gs, base), base)
    ensures Segs(gs') == Segs(gs)
  {
    ChainedSpan(gs, StartOfLog(gs, base), base);
    forall i | 0 <= i < |gs| ensures Segs(gs')[i] == Segs(gs)[i] {
      assert FilesOf(gs)[i].base == gs[i].base;
    }
  }

  /** The records of the first batches are the ones below where those end. */
  lemma {:induction false} RecoveredRecords(base: int, tail: seq<Batch>, n: nat)
    requires Contiguous(base, tail) && AllFormed(tail) && n <= |tail|
    ensures Filter(RecordsOf(tail), C.Until(NextOffset(base, tail[..n]))) == RecordsOf(tail[..n])
  {
    var a, b, next := tail[..n], tail[n..], NextOffset(base, tail[..n]);
    RestStarts(base, tail, n);
    RecordsOfTwo(base, a, next, b);
    SplitSeq(tail, n);
  }

  lemma {:induction false} RecordsOfTwo(base: int, a: seq<Batch>, next: int, b: seq<Batch>)
    requires Ordered(base, a) && next == NextOffset(base, a) && Ordered(next, b) && AllFormed(a) && AllFormed(b)
    ensures Filter(RecordsOf(a + b), C.Until(next)) == RecordsOf(a)
  {
    RecordsConcat(a, b);
    FormedRecords(base, a);
    FormedRecords(next, b);
    HeadOfTwo(RecordsOf(a), RecordsOf(b), base, next, NextOffset(next, b));
  }

  lemma {:induction false} HeadOfTwo(x: seq<Record>, y: seq<Record>, lo: int, at: int, hi: int)
    requires Within(x, lo, at) && Within(y, at, hi)
    ensures Filter(x + y, C.Until(at)) == x
  {
    FilterConcat(x, y, C.Until(at));
    FilterAll(x, C.Until(at));
    FilterNone(y, C.Until(at));
    NothingMore(x);
  }

  lemma {:induction false} RestStarts(base: int, tail: seq<Batch>, n: nat)
    requires Contiguous(base, tail) && n <= |tail|
    ensures Ordered(base, tail[..n]) && Ordered(NextOffset(base, tail[..n]), tail[n..])
    ensures NextOffset(base, tail[..n]) <= NextOffset(base, tail)
  {
    ContiguousFacts(base, tail);
    ContiguousPrefix(base, tail, n);
    ContiguousFacts(base, tail[..n]);
    if n < |tail| {
      ContiguousPrefix(base, tail, n + 1);
      assert tail[..n + 1][..n] == tail[..n];
    }
  }

  // ----------------------------------------------------------------------- runs of calls

  lemma {:induction false} RunConcat(c: C.Config, s: C.State, a: seq<C.Event>, b: seq<C.Event>)
    requires Possible(c, s, a) && Possible(c, Run(c, s, a), b)
    ensures Possible(c, s, a + b) && Run(c, s, a + b) == Run(c, Run(c, s, a), b)
    decreases |a|
  {
    if a == [] {
      assert a + b == b;
    } else {
      RunConcat(c, C.Step(c, s, a[0]), a[1..], b);
      assert (a + b)[1..] == a[1..] + b;
    }
  }

  lemma {:induction false} UncleanedWithin(c: C.Config, s: C.State, h: seq<Record>, es: seq<C.Event>)
    requires Possible(c, s, es)
    ensures forall r :: r in RunUncleaned(c, s, h, es) ==> r in h || r in Written(es)
    decreases |es|
  {
    if es != [] {
      var s' := C.Step(c, s, es[0]);
      UncleanedWithin(c, s', Uncleaned(h, s', es[0]), es[1..]);
      FilterMembers(h, C.From(LogStart(s')));
      if es[0].Restart? { FilterMembers(h, C.Until(es[0].next)); }
    }
  }

  /** A reachable state: the invariant holds, and it has no record nobody wrote. */
  lemma {:induction false} RunIsGood(c: C.Config, es: seq<C.Event>)
    requires Possible(c, FRESH, es) && C.Injective(c, Written(es))
    ensures C.Inv(c, Run(c, FRESH, es)) && C.Injective(c, C.Recs(Run(c, FRESH, es)))
  {
    var s, h := Run(c, FRESH, es), RunUncleaned(c, FRESH, [], es);
    assert C.Recs(FRESH) == [] && [] + Written(es) == Written(es);
    RunTwin(c, FRESH, [], es);
    TwinRecs(c, s, h);
    UncleanedWithin(c, FRESH, [], es);
    InjectiveWithin(c, C.Recs(s), Written(es));
  }

  /** What an append does to the machine: a roll if one was due, and the batch if it was taken. */
  function AppendEvents(due: bool, b: Option<Batch>): seq<C.Event> {
    (if due then [C.Roll] else []) + if b.Some? then [C.Append(b.value.records, b.value.last + 1)] else []
  }

  /** These parts of a log, with this mark, are where the machine is after these events. */
  ghost predicate PartsInStep(
    c: C.Config, gs: seq<SealedSegment>, base: int, next: int, tail: seq<Batch>, mark: int, es: seq<C.Event>)
  {
    && SegmentsFormed(gs) && AllFormed(tail) && 0 <= StartOfLog(gs, base)
    && Possible(c, FRESH, es) && Run(c, FRESH, es) == Abstract(gs, base, next, tail, mark)
  }

  lemma {:induction false} RollRuns(
    c: C.Config, es: seq<C.Event>, gs: seq<SealedSegment>, base: int, next: int, tail: seq<Batch>, mark: int, due: bool,
    gs': seq<SealedSegment>)
    requires PartsInStep(c, gs, base, next, tail, mark, es)
    requires Rolled(due, gs, base, tail, next, gs') && (due ==> base < next)
    ensures PartsInStep(c, gs', if due then next else base, next, if due then [] else tail, mark, es + AppendEvents(due, None))
  {
    if due {
      RollIsStep(c, gs, base, next, tail, mark, gs');
      RunSnoc(c, FRESH, es, C.Roll);
      assert AppendEvents(due, None) == [C.Roll];
      assert gs' == gs + [gs'[|gs|]];
    } else {
      assert es + AppendEvents(due, None) == es;
    }
  }

  lemma {:induction false} AppendRuns(
    c: C.Config, es: seq<C.Event>, gs: seq<SealedSegment>, base: int, next: int, tail: seq<Batch>, mark: int, due: bool,
    gs': seq<SealedSegment>, b: Batch)
    requires PartsInStep(c, gs, base, next, tail, mark, es)
    requires Rolled(due, gs, base, tail, next, gs') && (due ==> base < next) && WellFormed(b) && b.base == next
    ensures PartsInStep(c, gs', if due then next else base, b.last + 1, (if due then [] else tail) + [b], mark,
                        es + AppendEvents(due, Some(b)))
  {
    RollRuns(c, es, gs, base, next, tail, mark, due, gs');
    AppendIsStep(c, gs', if due then next else base, next, if due then [] else tail, b, mark);
    RunSnoc(c, FRESH, es + AppendEvents(due, None), C.Append(b.records, b.last + 1));
    FormedSnoc(if due then [] else tail, b);
    EventsJoin(es, due, b);
  }

  lemma {:induction false} EventsJoin(es: seq<C.Event>, due: bool, b: Batch)
    ensures es + AppendEvents(due, Some(b)) == (es + AppendEvents(due, None)) + [C.Append(b.records, b.last + 1)]
  {
  }

  /** The log and this mark are where the machine is after these events. */
  ghost predicate InStep(c: C.Config, log: Log, mark: int, es: seq<C.Event>)
    reads log, log.active
  {
    log.Valid() && PartsInStep(c, log.sealed, log.active.base, log.logEndOffset, log.active.batches, mark, es)
  }

  /** The log after an append that took this batch, or took none, by its parts. */
  lemma {:induction false} AppendKeepsStep(
    c: C.Config, es: seq<C.Event>, gs: seq<SealedSegment>, base: int, next: int, tail: seq<Batch>, mark: int, due: bool,
    gs': seq<SealedSegment>, b: Option<Batch>)
    requires PartsInStep(c, gs, base, next, tail, mark, es)
    requires Rolled(due, gs, base, tail, next, gs') && (due ==> base < next)
    requires b.Some? ==> WellFormed(b.value) && b.value.base == next
    ensures PartsInStep(c, gs', if due then next else base, if b.Some? then b.value.last + 1 else next,
                        (if due then [] else tail) + (if b.Some? then [b.value] else []), mark, es + AppendEvents(due, b))
  {
    if b.Some? {
      AppendRuns(c, es, gs, base, next, tail, mark, due, gs', b.value);
    } else {
      RollRuns(c, es, gs, base, next, tail, mark, due, gs');
      assert (if due then [] else tail) + [] == if due then [] else tail;
    }
  }

  /** An append: a roll if one is due, and the batch, its records moved to the log end. */
  method AppendInStep(log: Log, b: Batch, nowMs: int, ghost c: C.Config, ghost mark: int, ghost es: seq<C.Event>)
    returns (base: Option<int>, ghost es': seq<C.Event>)
    requires InStep(c, log, mark, es) && WellFormed(b) && 0 <= nowMs
    modifies log, log.active
    ensures InStep(c, log, mark, es') && (log.active == old(log.active) || fresh(log.active))
    ensures base.Some? <==> old(log.Accepts(b, nowMs))
    ensures es' == es + AppendEvents(old(log.Due(nowMs)),
                                     if base.Some? then Some(Stamped(b, old(log.logEndOffset))) else None)
  {
    ghost var gs, start, next, tail, due := log.sealed, log.active.base, log.logEndOffset, log.active.batches, log.Due(nowMs);
    if due { DueIsPast(log, nowMs); }
    StampedFormed(b, next);
    base := log.Append(b, nowMs);
    ghost var taken := if base.Some? then Some(Stamped(b, next)) else None;
    AppendKeepsStep(c, es, gs, start, next, tail, mark, due, log.sealed, taken);
    es' := es + AppendEvents(due, taken);
  }

  /** What retention took of these sealed segments: as many of the oldest as are missing. */
  lemma {:induction false} RetireRuns(
    c: C.Config, es: seq<C.Event>, gs: seq<SealedSegment>, base: int, next: int, tail: seq<Batch>, mark: int, n: nat)
    requires PartsInStep(c, gs, base, next, tail, mark, es) && n <= |gs| && Chained(gs, StartOfLog(gs, base), base)
    ensures PartsInStep(c, gs[n..], base, next, tail, mark, es + [C.Retire(n)])
  {
    RetireIsStep(c, gs, base, next, tail, mark, n);
    ChainedSpan(gs, StartOfLog(gs, base), base);
    RunSnoc(c, FRESH, es, C.Retire(n));
  }

  lemma {:induction false} KeepIsTail(r: Retention, gs: seq<SealedSegment>, active: nat, nowMs: int) returns (n: nat)
    ensures n <= |gs| && Keep(r, gs, active, nowMs) == gs[n..]
  {
    n := RetentionTakesPrefix(r, gs, active, nowMs);
  }

  /** The maintenance thread's turn at one partition: roll if due, retire what retention no longer wants, sweep. */
  method MaintainInStep(log: Log, nowMs: int, ghost c: C.Config, ghost mark: int, ghost es: seq<C.Event>)
    returns (ghost es': seq<C.Event>, ghost n: nat)
    requires InStep(c, log, mark, es)
    modifies log, log.active
    ensures InStep(c, log, mark, es') && (log.active == old(log.active) || fresh(log.active))
    ensures es' == es + AppendEvents(old(log.Due(nowMs)), None) + [C.Retire(n)]
  {
    es' := RollIfDue(log, nowMs, c, mark, es);
    n := Retain(log, nowMs, c, mark, es');
    es' := es' + [C.Retire(n)];
    log.SweepGraveyard(nowMs);
  }

  method RollIfDue(log: Log, nowMs: int, ghost c: C.Config, ghost mark: int, ghost es: seq<C.Event>)
    returns (ghost es': seq<C.Event>)
    requires InStep(c, log, mark, es)
    modifies log, log.active
    ensures InStep(c, log, mark, es') && (log.active == old(log.active) || fresh(log.active))
    ensures es' == es + AppendEvents(old(log.Due(nowMs)), None)
  {
    ghost var gs, start, next, tail, due := log.sealed, log.active.base, log.logEndOffset, log.active.batches, log.Due(nowMs);
    if due { DueIsPast(log, nowMs); }
    log.MaybeRoll(nowMs);
    RollRuns(c, es, gs, start, next, tail, mark, due, log.sealed);
    es' := es + AppendEvents(due, None);
  }

  method Retain(log: Log, nowMs: int, ghost c: C.Config, ghost mark: int, ghost es: seq<C.Event>) returns (ghost n: nat)
    requires InStep(c, log, mark, es)
    modifies log`sealed, log`graveyard
    ensures InStep(c, log, mark, es + [C.Retire(n)])
  {
    ghost var gs := log.sealed;
    n := KeepIsTail(log.retention, gs, Total(log.active.batches), nowMs);
    RetireRuns(c, es, gs, log.active.base, log.logEndOffset, log.active.batches, mark, n);
    log.ApplyRetention(nowMs);
  }

  lemma {:induction false} WrittenConcat(a: seq<C.Event>, b: seq<C.Event>)
    ensures Written(a + b) == Written(a) + Written(b)
    decreases |a|
  {
    if a == [] {
      assert a + b == b;
    } else {
      WrittenConcat(a[1..], b);
      assert (a + b)[1..] == a[1..] + b;
      Associate(Appended(a[0]), Written(a[1..]), Written(b));
    }
  }

  /** The machine's steps for a pass over a log that is in step. */
  lemma {:induction false} PassRuns(c: C.Config, es: seq<C.Event>, s: C.State) returns (more: seq<C.Event>)
    requires Possible(c, FRESH, es) && Reaches(c, Run(c, FRESH, es), s)
    ensures (forall e :: e in more ==> CleanerOnly(e)) && Written(es + more) == Written(es)
    ensures Possible(c, FRESH, es + more) && Run(c, FRESH, es + more) == s
  {
    more :| (forall e :: e in more ==> CleanerOnly(e)) && Possible(c, Run(c, FRESH, es), more)
            && Run(c, Run(c, FRESH, es), more) == s;
    RunConcat(c, FRESH, es, more);
    CleanerIsLossless(c, Run(c, FRESH, es), more);
    WrittenConcat(es, more);
    NothingMore(Written(es));
  }

  lemma {:induction false} StartsAtZero(c: C.Config, s: C.State)
    requires C.Inv(c, s)
    ensures 0 <= if s.sealed != [] then s.sealed[0].base else s.active.base
  {
  }

  /** A cleaning pass, ended or thrown: the cleaner's own steps and nobody else's. */
  method CleanInStep(cleaner: LogCleaner, nowMs: int, ghost es: seq<C.Event>) returns (done: bool, ghost more: seq<C.Event>)
    requires InStep(cleaner.config, cleaner.log, cleaner.firstDirty, es) && C.Injective(cleaner.config, Written(es))
    modifies cleaner, cleaner.log`sealed, cleaner.log`graveyard
    ensures InStep(cleaner.config, cleaner.log, cleaner.firstDirty, es + more)
    ensures (forall e :: e in more ==> CleanerOnly(e)) && Written(es + more) == Written(es)
    ensures done ==> PassEnded(cleaner.config, Segs(old(cleaner.log.sealed)), Segs(cleaner.log.sealed),
                               old(cleaner.firstDirty), cleaner.firstDirty, nowMs)
  {
    RunIsGood(cleaner.config, es);
    done := cleaner.CleanOnce(nowMs);
    more := PassRuns(cleaner.config, es, AbstractOf(cleaner.log, cleaner.firstDirty));
    RunIsGood(cleaner.config, es + more);
    StartsAtZero(cleaner.config, AbstractOf(cleaner.log, cleaner.firstDirty));
  }

  // ---------------------------------------------------------------------------- restarting

  /** What a restart finds of the active segment: some whole batches, then whatever is damaged. */
  ghost predicate Damaged(fs: seq<Found>) {
    (forall f :: f in fs ==> Sound(f.batch)) && (fs != [] ==> !fs[0].intact)
  }

  lemma {:induction false} SurvivorsAreKept(policy: Policy, base: int, bs: seq<Batch>, damaged: seq<Found>)
    requires Contiguous(base, bs) && AppendAll(policy, base, bs).Some? && Damaged(damaged)
    ensures var found := Intact(bs) + damaged;
            && IsRecovered(base, found, None, |bs|) && BatchesOf(found)[..|bs|] == bs
            && (forall m: nat :: !Escapes(base, policy, found, None, m))
            && forall f :: f in found ==> Sound(f.batch)
  {
    var found := Intact(bs) + damaged;
    ContiguousFacts(base, bs);
    assert BatchesOf(found)[..|bs|] == bs;
    forall m | |bs| < m <= |found| ensures !Recoverable(base, found, None, m) {
      assert found[|bs|] == damaged[0];
    }
    NothingEscapes(base, policy, found, None, |bs|);
  }

  lemma {:induction false} OneRecovered(base: int, found: seq<Found>, m: nat, n: nat)
    requires IsRecovered(base, found, None, m) && IsRecovered(base, found, None, n)
    ensures m == n
  {
    RecoveredIsUnique(base, found, None, m, n);
  }

  /**
   The process stops, and the partition is opened again from its files: the sealed segments as they are,
   and of the active one the batches that reached the disk whole.
   */
  method Reopen(log: Log, survived: nat, damaged: seq<Found>, nowMs: int) returns (again: Log)
    requires log.Valid() && survived <= |log.active.batches| && Damaged(damaged) && 0 <= nowMs
    ensures fresh(again) && again.Valid() && fresh(again.active)
    ensures again.policy == log.policy && again.retention == log.retention && OpenedFrom(again.sealed, FilesOf(log.sealed))
    ensures again.active.base == log.active.base && again.active.batches == log.active.batches[..survived]
    ensures again.logEndOffset == NextOffset(log.active.base, log.active.batches[..survived])
  {
    var found := Intact(log.active.batches[..survived]) + damaged;
    OwnFilesOpen(log.policy, log.sealed, log.active.base, log.active.batches, survived, damaged);
    var opening, _, n := Open(log.policy, log.retention, true, FilesOf(log.sealed), log.active.base, found, nowMs);
    OneRecovered(log.active.base, found, n, survived);
    again := opening;
  }

  /** A log's own files always open. */
  lemma {:induction false} OwnFilesOpen(
    policy: Policy, gs: seq<SealedSegment>, base: int, tail: seq<Batch>, survived: nat, damaged: seq<Found>)
    requires Chained(gs, StartOfLog(gs, base), base) && Contiguous(base, tail) && AppendAll(policy, base, tail).Some?
    requires survived <= |tail| && Damaged(damaged)
    ensures Listed(FilesOf(gs), base) && AllFollow(true, FilesOf(gs), base)
    ensures var found := Intact(tail[..survived]) + damaged;
            && IsRecovered(base, found, None, survived) && BatchesOf(found)[..survived] == tail[..survived]
            && (forall m: nat :: !Escapes(base, policy, found, None, m))
            && forall f :: f in found ==> Sound(f.batch)
  {
    ContiguousPrefix(base, tail, survived);
    AppendsPrefix(policy, base, tail, survived);
    SurvivorsAreKept(policy, base, tail[..survived], damaged);
    OwnFilesListed(gs, StartOfLog(gs, base), base);
    OwnFilesFollow(policy, gs, StartOfLog(gs, base), base);
  }

  lemma {:induction false} RestartRuns(
    c: C.Config, es: seq<C.Event>, gs: seq<SealedSegment>, gs': seq<SealedSegment>, base: int, tail: seq<Batch>, n: nat,
    mark: int)
    requires PartsInStep(c, gs, base, NextOffset(base, tail), tail, mark, es) && n <= |tail|
    requires OpenedFrom(gs', FilesOf(gs)) && Chained(gs, StartOfLog(gs, base), base) && Contiguous(base, tail)
    ensures var next := NextOffset(base, tail[..n]);
            PartsInStep(c, gs', base, next, tail[..n], 0, es + [C.Restart(next)])
  {
    RestartIsStep(c, gs, gs', base, tail, n, mark);
    RunSnoc(c, FRESH, es, C.Restart(NextOffset(base, tail[..n])));
    forall g | g in gs' ensures AllFormed(g.batches) {
      var i :| 0 <= i < |gs'| && gs'[i] == g;
      assert g.batches == FilesOf(gs)[i].batches == gs[i].batches && gs[i] in gs;
    }
  }

  method ReopenInStep(
    log: Log, c: C.Config, sizeOf: seq<Record> -> nat, survived: nat, damaged: seq<Found>, nowMs: int,
    ghost mark: int, ghost es: seq<C.Event>)
    returns (again: Log, cleaner: LogCleaner)
    requires InStep(c, log, mark, es) && survived <= |log.active.batches| && Damaged(damaged) && 0 <= nowMs
    ensures fresh(again) && fresh(again.active) && fresh(cleaner)
    ensures again.policy == log.policy && again.retention == log.retention
    ensures again.active.batches == log.active.batches[..survived]
    ensures cleaner.log == again && cleaner.config == c && cleaner.sizeOf == sizeOf
    ensures InStep(c, again, cleaner.firstDirty, es + [C.Restart(again.logEndOffset)])
  {
    again := Reopen(log, survived, damaged, nowMs);
    AppendsDerive(log.policy, log.active.base, log.active.batches);
    RestartRuns(c, es, log.sealed, again.sealed, log.active.base, log.active.batches, survived, mark);
    cleaner := new LogCleaner(again, c, sizeOf);
  }

  // -------------------------------------------------------------------------- the class

  /** A new partition and a cleaner for it. */
  method Start(policy: Policy, retention: Retention, config: C.Config, sizeOf: seq<Record> -> nat)
    returns (log: Log, cleaner: LogCleaner)
    ensures fresh(log) && fresh(log.active) && fresh(cleaner) && log.policy == policy && log.retention == retention
    ensures cleaner.log == log && cleaner.config == config && cleaner.sizeOf == sizeOf
    ensures Fit(log) && AllFormed(log.active.batches) && AbstractOf(log, cleaner.firstDirty) == FRESH
  {
    log := new Log(policy, retention);
    assert AbstractOf(log, 0) == FRESH;
    cleaner := new LogCleaner(log, config, sizeOf);
  }

  /** One compacted partition, its cleaner, and all that has been done to it so far. */
  class ManagedLog {
    const policy: Policy
    const retention: Retention
    const config: C.Config
    const sizeOf: seq<Record> -> nat
    var log: Log
    var cleaner: LogCleaner
    ghost var events: seq<C.Event>

    ghost function Value(): C.State
      reads this, log, log.active, cleaner
    {
      AbstractOf(log, cleaner.firstDirty)
    }

    /** The log and the mark are where the machine is after these events. */
    ghost predicate Valid()
      reads this, log, log.active, cleaner
    {
      && cleaner.log == log && cleaner.config == config && cleaner.sizeOf == sizeOf
      && log.policy == policy && log.retention == retention
      && InStep(config, log, cleaner.firstDirty, events)
    }

    constructor (policy: Policy, retention: Retention, config: C.Config, sizeOf: seq<Record> -> nat)
      ensures Valid() && fresh(log) && fresh(log.active) && fresh(cleaner) && events == []
    {
      this.policy, this.retention, this.config, this.sizeOf := policy, retention, config, sizeOf;
      var empty, its := Start(policy, retention, config, sizeOf);
      log, cleaner, events := empty, its, [];
      new;
      assert Run(config, FRESH, []) == Value();
    }

    /** An append: a roll if one is due, and the batch, its records moved to the log end. */
    method Append(b: Batch, nowMs: int) returns (base: Option<int>)
      requires Valid() && WellFormed(b) && 0 <= nowMs
      modifies this`events, log, log.active
      ensures Valid() && log == old(log) && cleaner == old(cleaner) && (log.active == old(log.active) || fresh(log.active))
      ensures base.Some? <==> old(log.Accepts(b, nowMs))
      ensures events == old(events) + AppendEvents(old(log.Due(nowMs)),
                                                   if base.Some? then Some(Stamped(b, old(log.logEndOffset))) else None)
    {
      base, events := AppendInStep(log, b, nowMs, config, cleaner.firstDirty, events);
    }

    /** The maintenance thread's turn. */
    method Maintain(nowMs: int)
      requires Valid()
      modifies this`events, log, log.active
      ensures Valid() && log == old(log) && cleaner == old(cleaner) && (log.active == old(log.active) || fresh(log.active))
      ensures exists n: nat :: events == old(events) + AppendEvents(old(log.Due(nowMs)), None) + [C.Retire(n)]
    {
      ghost var n;
      events, n := MaintainInStep(log, nowMs, config, cleaner.firstDirty, events);
    }

    /** One cleaning pass. */
    method Clean(nowMs: int) returns (done: bool)
      requires Valid() && C.Injective(config, Written(events))
      modifies this`events, cleaner, log`sealed, log`graveyard
      ensures Valid() && log == old(log) && cleaner == old(cleaner) && Written(events) == old(Written(events))
      ensures exists more :: events == old(events) + more && forall e :: e in more ==> CleanerOnly(e)
      ensures done ==> PassEnded(config, Segs(old(log.sealed)), Segs(log.sealed), old(cleaner.firstDirty), cleaner.firstDirty, nowMs)
    {
      ghost var more;
      done, more := CleanInStep(cleaner, nowMs, events);
      events := events + more;
    }

    /** A restart, clean or not: the log is opened again from its files, and the mark starts from zero. */
    method Restart(survived: nat, damaged: seq<Found>, nowMs: int)
      requires Valid() && survived <= |log.active.batches| && Damaged(damaged) && 0 <= nowMs
      modifies this`events, this`log, this`cleaner
      ensures Valid() && fresh(log) && fresh(log.active) && fresh(cleaner)
      ensures events == old(events) + [C.Restart(log.logEndOffset)]
      ensures log.active.batches == old(log.active.batches)[..survived]
    {
      var again, its := ReopenInStep(log, config, sizeOf, survived, damaged, nowMs, cleaner.firstDirty, events);
      log, cleaner := again, its;
      events := events + [C.Restart(again.logEndOffset)];
    }

    /**
     What all of it comes to: the view of the log is that of one no cleaner ever touched, and the mark
     has at most one record per key below it.
     */
    lemma {:induction false} CleaningIsUnseen()
      requires Valid() && C.Injective(config, Written(events))
      ensures View(C.Recs(Value())) == View(RunUncleaned(config, FRESH, [], events))
      ensures C.OnePerKey(C.Recs(Value()), cleaner.firstDirty)
    {
      CleaningIsInvisible(config, events);
    }
  }

  lemma {:induction false} DueIsPast(log: Log, nowMs: int)
    requires log.Valid() && log.Due(nowMs)
    ensures log.active.base < log.logEndOffset
  {
    ContiguousFacts(log.active.base, log.active.batches);
    AppendsDerive(log.policy, log.active.base, log.active.batches);
  }
}
