/** Whole runs of a compacted partition. */
module CompactionRuns {
  // Appends, rolls, retention, restarts, and a cleaner whose passes interleave with all of them, fill
  // their key map part-way, or abort.

  import opened Prelude
  import opened Records
  import opened Compaction
  import opened CompactionSteps
  import opened CompactionRewrite

  const FRESH := State([], Segment(0, 0, []), 0, None)

  ghost predicate Possible(c: Config, s: State, es: seq<Event>)
    decreases |es|
  {
    es == [] || (Enabled(s, es[0]) && Possible(c, Step(c, s, es[0]), es[1..]))
  }

  ghost function Run(c: Config, s: State, es: seq<Event>): State
    requires Possible(c, s, es)
    decreases |es|
  {
    if es == [] then s else Run(c, Step(c, s, es[0]), es[1..])
  }

  function LogStart(s: State): int {
    if s.sealed != [] then s.sealed[0].base else s.active.base
  }

  function Appended(e: Event): seq<Record> { if e.Append? then e.records else [] }

  function Written(es: seq<Event>): seq<Record> {
    if es == [] then [] else Appended(es[0]) + Written(es[1..])
  }

  /** The same partition with no cleaner: retention takes from the front, a crash from the end, nothing else. */
  function Uncleaned(h: seq<Record>, s': State, e: Event): seq<Record> {
    match e
    case Append(rs, _) => h + rs
    case Retire(_) => Filter(h, From(LogStart(s')))
    case Restart(next) => Filter(h, Until(next))
    case _ => h
  }

  ghost function RunUncleaned(c: Config, s: State, h: seq<Record>, es: seq<Event>): seq<Record>
    requires Possible(c, s, es)
    decreases |es|
  {
    if es == [] then h
    else
      var s' := Step(c, s, es[0]);
      RunUncleaned(c, s', Uncleaned(h, s', es[0]), es[1..])
  }

  ghost predicate NewestOf(h: seq<Record>, n: Record) {
    n in h && n.key.Some? && forall r :: r in h && r.key == n.key ==> r.offset <= n.offset
  }

  /** rs is what cleaning may leave of h: each key's newest record, or a tombstone gone with its key. */
  ghost predicate Represents(rs: seq<Record>, h: seq<Record>) {
    && (forall r :: r in rs ==> r in h)
    && (forall n :: NewestOf(h, n) ==> n in rs || (IsTombstone(n) && forall r :: r in rs ==> r.key != n.key))
  }

  lemma {:induction false} NewestIsNewestOf(h: seq<Record>, i: int)
    requires Increasing(h) && 0 <= i < |h| && IsNewest(h, i)
    ensures NewestOf(h, h[i])
  {
    forall r | r in h && r.key == h[i].key ensures r.offset <= h[i].offset {
      var j :| 0 <= j < |h| && h[j] == r;
    }
  }

  lemma {:induction false} RepresentsSameView(rs: seq<Record>, h: seq<Record>)
    requires Increasing(rs) && Increasing(h) && Represents(rs, h)
    ensures View(rs) == View(h)
  {
    var a, b := View(rs), View(h);
    forall k: Bytes ensures (k in a <==> k in b) && (k in a ==> a[k] == b[k]) {
      var at := NewestExists(h, k);
      if at.None? {
        ViewOfAbsent(h, k);
        forall i | 0 <= i < |rs| ensures rs[i].key != Some(k) {
          assert rs[i] in rs;
          var j :| 0 <= j < |h| && h[j] == rs[i];
        }
        ViewOfAbsent(rs, k);
      } else {
        ViewOfNewest(h, at.value);
        NewestIsNewestOf(h, at.value);
        NewestSurvives(rs, h, at.value);
      }
    }
  }

  lemma {:induction false} NewestSurvives(rs: seq<Record>, h: seq<Record>, i: int)
    requires Increasing(rs) && Increasing(h) && Represents(rs, h)
    requires 0 <= i < |h| && IsNewest(h, i) && NewestOf(h, h[i])
    ensures h[i].key.value in View(rs) <==> !IsTombstone(h[i])
    ensures !IsTombstone(h[i]) ==> View(rs)[h[i].key.value] == h[i].value.value
  {
    var n := h[i];
    if n in rs {
      var j :| 0 <= j < |rs| && rs[j] == n;
      forall j' | j < j' < |rs| ensures rs[j'].key != n.key {
        assert rs[j'] in rs;
      }
      ViewOfNewest(rs, j);
    } else {
      assert forall j :: 0 <= j < |rs| ==> rs[j] in rs;
      ViewOfAbsent(rs, n.key.value);
    }
  }

  // ------------------------------------------------------ the relation, step by step

  lemma {:induction false} RepresentsAppend(rs: seq<Record>, h: seq<Record>, more: seq<Record>)
    requires Represents(rs, h)
    requires forall a, b :: a in h && b in more ==> a.offset < b.offset
    ensures Represents(rs + more, h + more)
  {
    forall n | NewestOf(h + more, n)
      ensures n in rs + more || (IsTombstone(n) && forall r :: r in rs + more ==> r.key != n.key)
    {
      if n !in more {
        assert NewestOf(h, n);
        forall r | r in more ensures r.key != n.key {
          assert r in h + more;
        }
      }
    }
  }

  lemma {:induction false} RepresentsFrom(rs: seq<Record>, rest: seq<Record>, h: seq<Record>, at: int)
    requires Represents(rs, h)
    requires forall r :: r in rest <==> r in rs && at <= r.offset
    ensures Represents(rest, Filter(h, From(at)))
  {
    var h' := Filter(h, From(at));
    FilterMembers(h, From(at));
    forall n | NewestOf(h', n) ensures n in rest || (IsTombstone(n) && forall r :: r in rest ==> r.key != n.key) {
      assert NewestOf(h, n) by {
        forall r | r in h && r.key == n.key ensures r.offset <= n.offset {
          if at <= r.offset { assert r in h'; }
        }
      }
    }
  }

  lemma {:induction false} RepresentsSafeFilter(rs: seq<Record>, h: seq<Record>, keep: Record -> bool)
    requires Increasing(rs) && Represents(rs, h)
    requires forall i :: 0 <= i < |rs| && !keep(rs[i]) ==> SafeToDrop(rs, keep, i)
    ensures Represents(Filter(rs, keep), h)
  {
    var out := Filter(rs, keep);
    FilterMembers(rs, keep);
    forall n | NewestOf(h, n) ensures n in out || (IsTombstone(n) && forall r :: r in out ==> r.key != n.key) {
      if n in rs && !keep(n) {
        var i :| 0 <= i < |rs| && rs[i] == n;
        assert SafeToDrop(rs, keep, i);
        forall j | 0 <= j < |rs| && rs[j].key == n.key ensures !keep(rs[j]) && IsTombstone(n) {
          assert rs[j] in rs && rs[j] in h;
          assert j <= i;
          assert forall l :: i < l < |rs| ==> rs[l] in rs;
        }
        forall r | r in out ensures r.key != n.key {
          var j :| 0 <= j < |rs| && rs[j] == r;
        }
        assert rs[i].key == n.key;
      }
    }
  }

  /** What is true of a pass about the whole log is true of it about the sealed segments alone. */
  lemma {:induction false} SealedPoised(c: Config, s: State, p: Pass)
    requires Inv(c, s) && s.pass == Some(p) && Enabled(s, RewriteFile)
    ensures Poised(c, All(s.sealed), p.files[p.i], p, s.mark)
  {
    var f, sealed := p.files[p.i], All(s.sealed);
    IsPoised(c, s, p);
    AllIncreasing(s.sealed, 0, s.active.base);
    forall d, r | d in p.m && r in sealed && DigestOf(c, r) == Some(d) && r.offset < p.m[d]
      ensures Witnessed(c, sealed, d, p.m[d])
    {
      assert r in Recs(s);
      var w :| w in Recs(s) && w.offset == p.m[d] && DigestOf(c, w) == Some(d);
      assert w !in s.active.records;
    }
  }

  lemma {:induction false} SameEnd<T>(a: seq<T>, b: seq<T>, tail: seq<T>)
    requires a + tail == b + tail
    ensures a == b
  {
    assert |a + tail| == |b + tail|;
    assert (a + tail)[..|a|] == a && (b + tail)[..|a|] == b;
  }

  /** A pass rewrites sealed segments: those alone become the filter, and the active one is untouched. */
  lemma {:induction false} SealedFilters(c: Config, s: State, p: Pass)
    requires Inv(c, s) && s.pass == Some(p) && Enabled(s, RewriteFile)
    ensures All(Step(c, s, RewriteFile).sealed) == Filter(All(s.sealed), Outside(p.files[p.i], Keeper(c, p.m, p.nowMs)))
  {
    var out, s' := Outside(p.files[p.i], Keeper(c, p.m, p.nowMs)), Step(c, s, RewriteFile);
    FileIsBelow(s, p);
    RewriteFilters(c, s, p);
    FilterConcat(All(s.sealed), s.active.records, out);
    FilterAll(s.active.records, out);
    SameEnd(All(s'.sealed), Filter(All(s.sealed), out), s.active.records);
  }

  lemma {:induction false} RewriteRepresents(c: Config, s: State, h: seq<Record>)
    requires Inv(c, s) && Enabled(s, RewriteFile) && Injective(c, All(s.sealed)) && Represents(All(s.sealed), h)
    ensures Represents(All(Step(c, s, RewriteFile).sealed), h)
  {
    var p, sealed := s.pass.value, All(s.sealed);
    var f := p.files[p.i];
    var keep := Outside(f, Keeper(c, p.m, p.nowMs));
    SealedPoised(c, s, p);
    SealedFilters(c, s, p);
    forall i | 0 <= i < |sealed| && !keep(sealed[i]) ensures SafeToDrop(sealed, keep, i) {
      RewriteIsSafe(c, sealed, f, p, s.mark, i);
    }
    RepresentsSafeFilter(sealed, h, keep);
  }

  lemma {:induction false} RetireCuts(c: Config, s: State, n: nat)
    requires Inv(c, s) && Enabled(s, Retire(n))
    ensures var s' := Step(c, s, Retire(n));
            forall r :: r in Recs(s') <==> r in Recs(s) && LogStart(s') <= r.offset
  {
    var s' := Step(c, s, Retire(n));
    var at := LogStart(s');
    var gone := All(s.sealed[..n]);
    RetireKeeps(c, s, n);
    RecsIncreasing(s);
    ChainDrop(s.sealed, 0, s.active.base, n);
    ChainFacts(s.sealed, 0, s.active.base);
    FirstBase(s.sealed[n..], s.active.base);
    AllIncreasing(s.sealed[n..], at, s.active.base);
    assert forall r :: r in Recs(s') ==> at <= r.offset;
    forall r | r in gone ensures r.offset < at {
      AllMembers(s.sealed[..n]);
      var g :| g in s.sealed[..n] && r in g.records;
      ChainOrder(s.sealed, 0, s.active.base);
      if n < |s.sealed| { assert s.sealed[n..][0] in s.sealed[n..]; }
    }
  }

  lemma {:induction false} FirstBase(gs: seq<Segment>, end: int)
    requires Chain(gs, 0, end)
    ensures Chain(gs, if gs == [] then end else gs[0].base, end)
  {
  }

  // ----------------------------------------------------------------- whole runs

  /**
   A reachable partition beside its uncleaned twin: the active segments are the same, and the sealed
   ones are a faithful remainder on their own, whatever becomes of the active one.
   */
  ghost predicate Twin(c: Config, s: State, h: seq<Record>) {
    && Inv(c, s)
    && Increasing(h) && Within(h, 0, s.active.next)
    && s.active.records == Filter(h, From(s.active.base))
    && Represents(All(s.sealed), Filter(h, Until(s.active.base)))
  }

  lemma {:induction false} InjectiveWithin(c: Config, a: seq<Record>, b: seq<Record>)
    requires Injective(c, b) && forall r :: r in a ==> r in b
    ensures Injective(c, a)
  {
  }

  // Cutting an increasing history at an offset.

  lemma {:induction false} CutAt(h: seq<Record>, at: int)
    requires Increasing(h)
    ensures Filter(h, Until(at)) + Filter(h, From(at)) == h
  {
    if h != [] {
      var init, r := h[..|h| - 1], h[|h| - 1];
      CutAt(init, at);
      assert init + [r] == h;
      if at <= r.offset {
        Associate(Filter(init, Until(at)), Filter(init, From(at)), [r]);
      } else {
        FilterAll(h, Until(at));
        FilterNone(h, From(at));
      }
    }
  }

  lemma {:induction false} FilterNone(rs: seq<Record>, keep: Record -> bool)
    requires forall i :: 0 <= i < |rs| ==> !keep(rs[i])
    ensures Filter(rs, keep) == []
  {
    if rs != [] { FilterNone(rs[..|rs| - 1], keep); }
  }

  lemma {:induction false} FilterSwap(rs: seq<Record>, p: Record -> bool, q: Record -> bool)
    ensures Filter(Filter(rs, p), q) == Filter(Filter(rs, q), p)
  {
    if rs != [] {
      var init, r := rs[..|rs| - 1], rs[|rs| - 1];
      FilterSwap(init, p, q);
      if p(r) { FilterConcat(Filter(init, p), [r], q); FilterOne(r, q); }
      if q(r) { FilterConcat(Filter(init, q), [r], p); FilterOne(r, p); }
    }
  }

  lemma {:induction false} FilterOne(r: Record, keep: Record -> bool)
    ensures Filter([r], keep) == if keep(r) then [r] else []
  {
    assert [r][..0] == [];
  }

  /** Cutting twice on the same side is cutting once. */
  lemma {:induction false} CutTwice(h: seq<Record>, a: int, b: int)
    requires a <= b
    ensures Filter(Filter(h, From(a)), From(b)) == Filter(h, From(b))
    ensures Filter(Filter(h, Until(b)), Until(a)) == Filter(h, Until(a))
  {
    if h != [] {
      var init, r := h[..|h| - 1], h[|h| - 1];
      CutTwice(init, a, b);
      if a <= r.offset { FilterConcat(Filter(init, From(a)), [r], From(b)); FilterOne(r, From(b)); }
      if r.offset < b { FilterConcat(Filter(init, Until(b)), [r], Until(a)); FilterOne(r, Until(a)); }
    }
  }

  lemma {:induction false} TwinRecs(c: Config, s: State, h: seq<Record>)
    requires Twin(c, s, h)
    ensures Represents(Recs(s), h) && forall r :: r in Recs(s) ==> r in h
  {
    CutAt(h, s.active.base);
    var below, above := Filter(h, Until(s.active.base)), Filter(h, From(s.active.base));
    FilterMembers(h, Until(s.active.base));
    FilterMembers(h, From(s.active.base));
    RepresentsAppend(All(s.sealed), below, above);
  }

  /** With no cleaner so far, a partition is its own twin. */
  lemma {:induction false} OwnTwin(c: Config, s: State)
    requires Inv(c, s)
    ensures Twin(c, s, Recs(s))
  {
    var sealed, tail, base := All(s.sealed), s.active.records, s.active.base;
    RecsIncreasing(s);
    AllIncreasing(s.sealed, 0, base);
    FilterConcat(sealed, tail, From(base));
    FilterConcat(sealed, tail, Until(base));
    FilterNone(sealed, From(base));
    FilterAll(tail, From(base));
    FilterAll(sealed, Until(base));
    FilterNone(tail, Until(base));
    NothingMore(sealed);
    assert Represents(sealed, sealed);
  }

  lemma {:induction false} TwinAppend(c: Config, s: State, h: seq<Record>, rs: seq<Record>, next: int)
    requires Twin(c, s, h) && Enabled(s, Append(rs, next))
    ensures Twin(c, Step(c, s, Append(rs, next)), h + rs)
  {
    var base := s.active.base;
    AppendKeeps(c, s, rs, next);
    assert Increasing(h + rs) && Within(h + rs, 0, next);
    FilterConcat(h, rs, From(base));
    FilterConcat(h, rs, Until(base));
    FilterAll(rs, From(base));
    FilterNone(rs, Until(base));
    NothingMore(Filter(h, Until(base)));
  }

  lemma {:induction false} TwinRoll(c: Config, s: State, h: seq<Record>)
    requires Twin(c, s, h) && Enabled(s, Roll)
    ensures Twin(c, Step(c, s, Roll), h)
  {
    RollKeeps(c, s);
    AllConcat(s.sealed, [s.active]);
    NothingMore(s.active.records);
    assert All([s.active]) == s.active.records;
    TwinRecs(c, s, h);
    FilterAll(h, Until(s.active.next));
    FilterNone(h, From(s.active.next));
  }

  lemma {:induction false} TwinRetire(c: Config, s: State, h: seq<Record>, n: nat)
    requires Twin(c, s, h) && Enabled(s, Retire(n))
    ensures var s' := Step(c, s, Retire(n));
            Twin(c, s', Filter(h, From(LogStart(s'))))
  {
    var s' := Step(c, s, Retire(n));
    var at, base := LogStart(s'), s.active.base;
    RetireKeeps(c, s, n);
    RetireCutsSealed(c, s, n);
    RepresentsFrom(All(s.sealed), All(s'.sealed), Filter(h, Until(base)), at);
    FilterSwap(h, Until(base), From(at));
    CutTwice(h, at, base);
    FilterIncreasing(h, From(at), 0, s.active.next);
  }

  lemma {:induction false} RetireCutsSealed(c: Config, s: State, n: nat)
    requires Inv(c, s) && Enabled(s, Retire(n))
    ensures var s' := Step(c, s, Retire(n));
            LogStart(s') <= s.active.base
            && forall r :: r in All(s'.sealed) <==> r in All(s.sealed) && LogStart(s') <= r.offset
  {
    var s' := Step(c, s, Retire(n));
    RetireCuts(c, s, n);
    ChainDrop(s.sealed, 0, s.active.base, n);
    ChainFacts(s.sealed, 0, s.active.base);
    AllIncreasing(s.sealed, 0, s.active.base);
    AllIncreasing(s.sealed[n..], 0, s.active.base);
    FirstBase(s.sealed[n..], s.active.base);
    forall r ensures r in All(s'.sealed) <==> r in All(s.sealed) && LogStart(s') <= r.offset {
      assert r in Recs(s') <==> r in Recs(s) && LogStart(s') <= r.offset;
    }
  }

  /** A crash takes as much from the twin's tail as from the log's, and sealed segments lose nothing. */
  lemma {:induction false} TwinRestart(c: Config, s: State, h: seq<Record>, next: int)
    requires Twin(c, s, h) && Enabled(s, Restart(next))
    ensures Twin(c, Step(c, s, Restart(next)), Filter(h, Until(next)))
  {
    RestartKeeps(c, s, next);
    CutTwice(h, s.active.base, next);
    FilterSwap(h, From(s.active.base), Until(next));
    FilterIncreasing(h, Until(next), 0, s.active.next);
    FilterMembers(h, Until(next));
    var h' := Filter(h, Until(next));
    forall i | 0 <= i < |h'| ensures 0 <= h'[i].offset < next {
      assert h'[i] in h';
    }
  }

  lemma {:induction false} TwinStep(c: Config, s: State, h: seq<Record>, e: Event)
    requires Twin(c, s, h) && Enabled(s, e) && Injective(c, h)
    ensures var s' := Step(c, s, e); Twin(c, s', Uncleaned(h, s', e))
  {
    match e
    case Append(rs, next) => TwinAppend(c, s, h, rs, next);
    case Retire(n) => TwinRetire(c, s, h, n);
    case Roll => TwinRoll(c, s, h);
    case Begin(nowMs) => BeginKeeps(c, s, nowMs);
    case MapFile => MapKeeps(c, s);
    case EndMap => EndMapKeeps(c, s);
    case RewriteFile => TwinRewrite(c, s, h);
    case Finish => FinishKeeps(c, s);
    case Abort => DropPass(c, s);
    case Restart(next) => TwinRestart(c, s, h, next);
  }

  lemma {:induction false} TwinRewrite(c: Config, s: State, h: seq<Record>)
    requires Twin(c, s, h) && Enabled(s, RewriteFile) && Injective(c, h)
    ensures Twin(c, Step(c, s, RewriteFile), h)
  {
    TwinRecs(c, s, h);
    InjectiveWithin(c, Recs(s), h);
    InjectiveWithin(c, All(s.sealed), h);
    RewriteKeeps(c, s);
    RewriteRepresents(c, s, Filter(h, Until(s.active.base)));
  }

  lemma {:induction false} RestartKeeps(c: Config, s: State, next: int)
    requires Inv(c, s) && Enabled(s, Restart(next))
    ensures Inv(c, Step(c, s, Restart(next)))
  {
    var s' := Step(c, s, Restart(next));
    FilterIncreasing(s.active.records, Until(next), s.active.base, s.active.next);
    FilterMembers(s.active.records, Until(next));
    forall i | 0 <= i < |s'.active.records| ensures s.active.base <= s'.active.records[i].offset < next {
      assert s'.active.records[i] in s'.active.records;
    }
    RecsIncreasing(s');
    ChainOrder(s.sealed, 0, s.active.base);
  }

  lemma {:induction false} RunTwin(c: Config, s: State, h: seq<Record>, es: seq<Event>)
    requires Twin(c, s, h) && Possible(c, s, es) && Injective(c, h + Written(es))
    ensures Twin(c, Run(c, s, es), RunUncleaned(c, s, h, es))
    decreases |es|
  {
    if es != [] {
      var s' := Step(c, s, es[0]);
      var h' := Uncleaned(h, s', es[0]);
      InjectiveWithin(c, h, h + Written(es));
      TwinStep(c, s, h, es[0]);
      FilterMembers(h, From(LogStart(s')));
      if es[0].Restart? { FilterMembers(h, Until(es[0].next)); }
      InjectiveWithin(c, h' + Written(es[1..]), h + Written(es));
      RunTwin(c, s', h', es[1..]);
    }
  }

  /**
   The compacted log means what the uncompacted one does. After any run whatsoever, including in the
   middle of a pass and after a crash that loses the tail of the active segment, every key has the value
   it would have if the cleaner had never run, and below the dirty mark no key has two records.
   */
  lemma {:induction false} CleaningIsInvisible(c: Config, es: seq<Event>)
    requires Possible(c, FRESH, es) && Injective(c, Written(es))
    ensures View(Recs(Run(c, FRESH, es))) == View(RunUncleaned(c, FRESH, [], es))
    ensures Inv(c, Run(c, FRESH, es))
    ensures OnePerKey(Recs(Run(c, FRESH, es)), Run(c, FRESH, es).mark)
  {
    assert Recs(FRESH) == [];
    assert [] + Written(es) == Written(es);
    RunTwin(c, FRESH, [], es);
    TwinRecs(c, Run(c, FRESH, es), RunUncleaned(c, FRESH, [], es));
    RecsIncreasing(Run(c, FRESH, es));
    RepresentsSameView(Recs(Run(c, FRESH, es)), RunUncleaned(c, FRESH, [], es));
  }

  lemma {:induction false} NothingMore<T>(h: seq<T>)
    ensures h + [] == h
  {
  }

  /** No retention, and every restart finds all of the active segment. */
  ghost predicate Lossless(c: Config, s: State, es: seq<Event>)
    requires Possible(c, s, es)
    decreases |es|
  {
    es == [] || (!es[0].Retire? && (es[0].Restart? ==> es[0].next == s.active.next) && Lossless(c, Step(c, s, es[0]), es[1..]))
  }

  /** Then the uncleaned log is simply everything ever written. */
  lemma {:induction false} UncleanedIsHistory(c: Config, s: State, h: seq<Record>, es: seq<Event>)
    requires Possible(c, s, es) && Lossless(c, s, es) && forall r :: r in h ==> r.offset < s.active.next
    ensures RunUncleaned(c, s, h, es) == h + Written(es)
    decreases |es|
  {
    if es == [] {
      NothingMore(h);
    } else {
      var s' := Step(c, s, es[0]);
      var h' := Uncleaned(h, s', es[0]);
      if es[0].Restart? { FilterAll(h, Until(es[0].next)); }
      UncleanedIsHistory(c, s', h', es[1..]);
      NothingMore(h);
      Associate(h, Appended(es[0]), Written(es[1..]));
    }
  }

  lemma {:induction false} MarkStep(c: Config, s: State, e: Event)
    requires Inv(c, s) && Enabled(s, e) && !e.Restart?
    ensures s.mark <= Step(c, s, e).mark
  {
  }

  /** Within one process the dirty mark never moves back. */
  lemma {:induction false} MarkNeverFalls(c: Config, s: State, h: seq<Record>, es: seq<Event>)
    requires Twin(c, s, h) && Possible(c, s, es) && Injective(c, h + Written(es))
    requires forall i :: 0 <= i < |es| ==> !es[i].Restart?
    ensures s.mark <= Run(c, s, es).mark
    decreases |es|
  {
    if es != [] {
      var s' := Step(c, s, es[0]);
      var h' := Uncleaned(h, s', es[0]);
      InjectiveWithin(c, h, h + Written(es));
      TwinStep(c, s, h, es[0]);
      MarkStep(c, s, es[0]);
      FilterMembers(h, From(LogStart(s')));
      InjectiveWithin(c, h' + Written(es[1..]), h + Written(es));
      MarkNeverFalls(c, s', h', es[1..]);
    }
  }
}
