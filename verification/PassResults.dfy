/** What one cleaning pass comes to, as a function of the log. */
module PassResults {
  // The map it builds and the mark it maps through; the records it leaves.

  import opened Prelude
  import opened Records
  import opened Compaction
  import opened CompactionSteps
  import opened CompactionRuns

  // ------------------------------------------------------------------------- phase one

  /** The map, the end of the last dirty file mapped whole, and whether the budget refused a key. */
  datatype Mapped = Mapped(m: KeyMap, through: int, refused: bool)

  function MapDirtyFiles(c: Config, fs: seq<Segment>, mark: int, m: KeyMap, through: int): Mapped {
    if fs == [] then Mapped(m, through, false)
    else if fs[0].next <= mark then MapDirtyFiles(c, fs[1..], mark, m, through)
    else
      var (m', taken) := PutAll(c, m, fs[0].records);
      if taken then MapDirtyFiles(c, fs[1..], mark, m', fs[0].next) else Mapped(m', through, true)
  }

  /** Phase one over a whole log. */
  function MapOf(c: Config, fs: seq<Segment>, mark: int): Mapped { MapDirtyFiles(c, fs, mark, map[], mark) }

  predicate InDirty(fs: seq<Segment>, mark: int, r: Record) { exists f :: f in fs && mark < f.next && r in f.records }

  /** The keys, by digest, of the records a pass would have to map. */
  function DirtyKeys(c: Config, fs: seq<Segment>, mark: int): set<Digest> {
    set f, r | f in fs && mark < f.next && r in f.records && r.key.Some? :: c.digest(r.key.value)
  }

  lemma {:induction false} PutAllWithin(c: Config, m: KeyMap, rs: seq<Record>, keys: set<Digest>)
    requires m.Keys <= keys && forall r :: r in rs && r.key.Some? ==> c.digest(r.key.value) in keys
    ensures PutAll(c, m, rs).0.Keys <= keys
    ensures |keys| <= c.maxEntries ==> PutAll(c, m, rs).1
    decreases |rs|
  {
    if rs != [] {
      assert rs[0] in rs && forall r :: r in rs[1..] ==> r in rs;
      if rs[0].key.None? {
        PutAllWithin(c, m, rs[1..], keys);
      } else {
        var d := c.digest(rs[0].key.value);
        if d !in m { Fewer(m.Keys, keys, d); }
        var n := Put(c, m, rs[0].key.value, rs[0].offset);
        if n.1 { PutAllWithin(c, n.0, rs[1..], keys); }
      }
    }
  }

  lemma {:induction false} Fewer<T>(a: set<T>, b: set<T>, x: T)
    requires a <= b && x in b && x !in a
    ensures |a| < |b|
  {
    NoMore(a, b - {x});
  }

  lemma {:induction false} NoMore<T>(a: set<T>, b: set<T>)
    requires a <= b
    ensures |a| <= |b|
  {
    if a != {} {
      var x :| x in a;
      NoMore(a - {x}, b - {x});
    }
  }

  lemma {:induction false} PutAllHasKeys(c: Config, m: KeyMap, rs: seq<Record>)
    ensures m.Keys <= PutAll(c, m, rs).0.Keys
    ensures PutAll(c, m, rs).1 ==> forall r :: r in rs && r.key.Some? ==> c.digest(r.key.value) in PutAll(c, m, rs).0
  {
    PutAllGrows(c, m, rs);
    PutAllTakes(c, m, rs);
  }

  /** The digests in the map and in the dirty files from here on, against those of all dirty files. */
  lemma {:induction false} MapKeys(c: Config, fs: seq<Segment>, mark: int, m: KeyMap, through: int, keys: set<Digest>)
    requires m.Keys <= keys && DirtyKeys(c, fs, mark) <= keys
    ensures var out := MapDirtyFiles(c, fs, mark, m, through);
            && m.Keys <= out.m.Keys <= keys
            && (|keys| <= c.maxEntries ==> !out.refused)
            && (!out.refused ==> DirtyKeys(c, fs, mark) <= out.m.Keys)
            && (|m| <= c.maxEntries ==> |out.m| <= c.maxEntries)
  {
    if fs != [] {
      var f, rest := fs[0], fs[1..];
      assert fs == [f] + rest;
      assert DirtyKeys(c, rest, mark) <= DirtyKeys(c, fs, mark);
      if f.next <= mark {
        MapKeys(c, rest, mark, m, through, keys);
        assert DirtyKeys(c, fs, mark) <= DirtyKeys(c, rest, mark);
      } else {
        forall r | r in f.records && r.key.Some? ensures c.digest(r.key.value) in keys {
          assert c.digest(r.key.value) in DirtyKeys(c, fs, mark);
        }
        PutAllWithin(c, m, f.records, keys);
        PutAllHasKeys(c, m, f.records);
        PutAllGrows(c, m, f.records);
        var (m', taken) := PutAll(c, m, f.records);
        if taken {
          MapKeys(c, rest, mark, m', f.next, keys);
          KeysSplit(c, f, rest, mark);
        }
      }
    }
  }

  lemma {:induction false} KeysSplit(c: Config, f: Segment, rest: seq<Segment>, mark: int)
    ensures forall d :: d in DirtyKeys(c, [f] + rest, mark) ==>
              d in DirtyKeys(c, rest, mark) || exists r :: r in f.records && r.key.Some? && c.digest(r.key.value) == d
  {
    var all := [f] + rest;
    forall d | d in DirtyKeys(c, all, mark) && d !in DirtyKeys(c, rest, mark)
      ensures exists r :: r in f.records && r.key.Some? && c.digest(r.key.value) == d
    {
      var g, r :| g in all && mark < g.next && r in g.records && r.key.Some? && c.digest(r.key.value) == d;
      assert g == f || g in rest;
    }
  }

  /** The budget refuses a pass exactly when the dirty segments hold more keys than it has room for. */
  lemma {:induction false} RefusedExactly(c: Config, fs: seq<Segment>, mark: int)
    ensures MapOf(c, fs, mark).refused <==> c.maxEntries < |DirtyKeys(c, fs, mark)|
    ensures !MapOf(c, fs, mark).refused ==> MapOf(c, fs, mark).m.Keys == DirtyKeys(c, fs, mark)
  {
    var keys := DirtyKeys(c, fs, mark);
    MapKeys(c, fs, mark, map[], mark, keys);
    var out := MapOf(c, fs, mark);
    if !out.refused {
      assert out.m.Keys == keys;
      assert |out.m| == |out.m.Keys|;
    }
  }

  /** Where the mapping gets to: the end of a dirty segment, of the last one unless a key was refused. */
  lemma {:induction false} MapReaches(c: Config, fs: seq<Segment>, lo: int, end: int, mark: int, m: KeyMap, through: int)
    requires Chain(fs, lo, end)
    ensures var out := MapDirtyFiles(c, fs, mark, m, through);
            && (out.through == through || exists f :: f in fs && mark < f.next == out.through)
            && (!out.refused ==>
                  out.through == if fs != [] && mark < fs[|fs| - 1].next then fs[|fs| - 1].next else through)
  {
    if fs != [] {
      var f, rest := fs[0], fs[1..];
      assert fs == [f] + rest;
      ChainFacts(rest, f.next, end);
      if rest != [] { assert rest[|rest| - 1] in rest; }
      if f.next <= mark {
        MapReaches(c, rest, f.next, end, mark, m, through);
      } else {
        var (m', taken) := PutAll(c, m, f.records);
        if taken { MapReaches(c, rest, f.next, end, mark, m', f.next); }
      }
    }
  }

  /** Every keyed record of a dirty segment mapped whole is in the map, at its offset or above. */
  lemma {:induction false} MapTakes(c: Config, fs: seq<Segment>, lo: int, end: int, mark: int, m: KeyMap, through: int)
    requires Chain(fs, lo, end) && through <= Max(mark, lo)
    ensures var out := MapDirtyFiles(c, fs, mark, m, through);
            && (forall d :: d in m ==> d in out.m && m[d] <= out.m[d])
            && forall f, r :: f in fs && mark < f.next <= out.through && r in f.records && r.key.Some? ==>
                 c.digest(r.key.value) in out.m && r.offset <= out.m[c.digest(r.key.value)]
  {
    if fs != [] {
      var f, rest := fs[0], fs[1..];
      assert fs == [f] + rest;
      ChainFacts(rest, f.next, end);
      if f.next <= mark {
        MapTakes(c, rest, f.next, end, mark, m, through);
      } else {
        var (m', taken) := PutAll(c, m, f.records);
        PutAllGrows(c, m, f.records);
        PutAllTakes(c, m, f.records);
        if taken { MapTakes(c, rest, f.next, end, mark, m', f.next); }
      }
    }
  }

  /** Every entry of the map is the offset of a record of that key in a dirty segment. */
  lemma {:induction false} MapWitnessed(c: Config, fs: seq<Segment>, mark: int, m: KeyMap, through: int)
    ensures var out := MapDirtyFiles(c, fs, mark, m, through);
            forall d :: d in out.m ==>
              (d in m && out.m[d] == m[d]) || exists f :: f in fs && mark < f.next && Witnessed(c, f.records, d, out.m[d])
  {
    if fs != [] {
      var f, rest := fs[0], fs[1..];
      assert fs == [f] + rest;
      if f.next <= mark {
        MapWitnessed(c, rest, mark, m, through);
      } else {
        var (m', taken) := PutAll(c, m, f.records);
        PutAllWitnessed(c, m, f.records);
        if taken { MapWitnessed(c, rest, mark, m', f.next); }
        assert f in fs;
      }
    }
  }

  /**
   What phase one leaves behind. The mark moves to the end of the last dirty segment mapped whole, and of
   the last segment there is if the dirty keys fit the budget; below it the map has every key's newest
   dirty record or something newer, and nothing in the map is made up.
   */
  lemma {:induction false} MapMeans(c: Config, fs: seq<Segment>, end: int, mark: int)
    requires Chain(fs, 0, end)
    ensures var out := MapOf(c, fs, mark);
            && (out.through == mark || exists f :: f in fs && mark < f.next == out.through)
            && (|DirtyKeys(c, fs, mark)| <= c.maxEntries ==>
                  out.through == if fs != [] && mark < fs[|fs| - 1].next then fs[|fs| - 1].next else mark)
            && (Aligned(fs, mark) ==> Aligned(fs, out.through))
            && (forall f, r :: f in fs && mark < f.next <= out.through && r in f.records && r.key.Some? ==>
                  c.digest(r.key.value) in out.m && r.offset <= out.m[c.digest(r.key.value)])
            && forall d :: d in out.m ==> exists f :: f in fs && mark < f.next && Witnessed(c, f.records, d, out.m[d])
  {
    MapReaches(c, fs, 0, end, mark, map[], mark);
    MapTakes(c, fs, 0, end, mark, map[], mark);
    MapWitnessed(c, fs, mark, map[], mark);
    RefusedExactly(c, fs, mark);
    var out := MapOf(c, fs, mark);
    if out.through != mark {
      var f :| f in fs && mark < f.next == out.through;
      var i :| 0 <= i < |fs| && fs[i] == f;
      AlignedAfter(fs, end, i);
    }
  }

  // ------------------------------------------------------------------------- phase two

  /** The sealed segments after the cleaner has dealt with this one. */
  function AfterFile(gs: seq<Segment>, f: Segment, keep: Record -> bool): seq<Segment> {
    var kept := Filter(f.records, keep);
    if |kept| == |f.records| then gs else Swap(gs, f.base, kept)
  }

  lemma {:induction false} AfterFileFilters(gs: seq<Segment>, end: int, f: Segment, keep: Record -> bool)
    requires Chain(gs, 0, end) && f in gs
    ensures All(AfterFile(gs, f, keep)) == Filter(All(gs), Outside(f, keep)) && Chain(AfterFile(gs, f, keep), 0, end)
  {
    ChainFacts(gs, 0, end);
    if |Filter(f.records, keep)| == |f.records| {
      FilterFixed(f.records, keep);
      AllMembers(gs);
      ChainOrder(gs, 0, end);
      forall i | 0 <= i < |All(gs)| ensures Outside(f, keep)(All(gs)[i]) {
        var r := All(gs)[i];
        assert r in All(gs);
        if f.base <= r.offset < f.next { InSameFile(gs, end, f, r); }
      }
      FilterAll(All(gs), Outside(f, keep));
    } else {
      SwapFilters(gs, 0, end, f, keep);
      FilterIncreasing(f.records, keep, f.base, f.next);
      SwapChain(gs, 0, end, f, Filter(f.records, keep));
    }
  }

  lemma {:induction false} InSameFile(gs: seq<Segment>, end: int, f: Segment, r: Record)
    requires Chain(gs, 0, end) && f in gs && r in All(gs) && f.base <= r.offset < f.next
    ensures exists k :: 0 <= k < |f.records| && f.records[k] == r
  {
    AllMembers(gs);
    ChainOrder(gs, 0, end);
    var g :| g in gs && r in g.records;
    var i :| 0 <= i < |gs| && gs[i] == g;
    var j :| 0 <= j < |gs| && gs[j] == f;
    assert i == j;
  }

  /** Where the files before i end. */
  function LimitOf(fs: seq<Segment>, i: nat): int
    requires i <= |fs|
  {
    if i == 0 then 0 else fs[i - 1].next
  }

  /** The rule applied to the files before i, and to nothing else. */
  function RuleUpTo(fs: seq<Segment>, i: nat, keep: Record -> bool): Record -> bool
    requires i <= |fs|
  {
    var limit := LimitOf(fs, i);
    (r: Record) => limit <= r.offset || keep(r)
  }

  /** The rule applied below an offset. */
  function RuleBelow(through: int, keep: Record -> bool): Record -> bool {
    (r: Record) => through <= r.offset || keep(r)
  }

  lemma {:induction false} FilterTwice(rs: seq<Record>, p: Record -> bool, q: Record -> bool, both: Record -> bool)
    requires forall i :: 0 <= i < |rs| ==> (both(rs[i]) <==> p(rs[i]) && q(rs[i]))
    ensures Filter(Filter(rs, p), q) == Filter(rs, both)
  {
    if rs != [] {
      var init, r := rs[..|rs| - 1], rs[|rs| - 1];
      FilterTwice(init, p, q, both);
      if p(r) { FilterConcat(Filter(init, p), [r], q); FilterOne(r, q); }
      NothingMore(Filter(init, both));
    }
  }

  lemma {:induction false} OneFileMore(fs: seq<Segment>, end: int, i: nat, keep: Record -> bool)
    requires Chain(fs, 0, end) && i < |fs|
    ensures Filter(Filter(All(fs), RuleUpTo(fs, i, keep)), Outside(fs[i], keep)) == Filter(All(fs), RuleUpTo(fs, i + 1, keep))
  {
    var rs := All(fs);
    AllMembers(fs);
    ChainOrder(fs, 0, end);
    forall k | 0 <= k < |rs|
      ensures RuleUpTo(fs, i + 1, keep)(rs[k]) <==> RuleUpTo(fs, i, keep)(rs[k]) && Outside(fs[i], keep)(rs[k])
    {
      assert rs[k] in rs;
      NotBetween(fs, end, i, rs[k]);
    }
    FilterTwice(rs, RuleUpTo(fs, i, keep), Outside(fs[i], keep), RuleUpTo(fs, i + 1, keep));
  }

  /** No record lies in a gap between two files. */
  lemma {:induction false} NotBetween(fs: seq<Segment>, end: int, i: nat, r: Record)
    requires Chain(fs, 0, end) && i < |fs| && r in All(fs)
    ensures r.offset < LimitOf(fs, i) || fs[i].base <= r.offset
    ensures LimitOf(fs, i) <= fs[i].base
  {
    AllMembers(fs);
    ChainOrder(fs, 0, end);
    var g :| g in fs && r in g.records;
    var j :| 0 <= j < |fs| && fs[j] == g;
    if 0 < i && j < i - 1 { assert fs[j].next <= fs[i - 1].base; }
    if i < j { assert fs[i].next <= fs[j].base; }
    assert fs[i] in fs;
  }

  /** With every file that begins below the mark dealt with, the rule has been applied to all below it. */
  lemma {:induction false} AllFilesDone(fs: seq<Segment>, end: int, i: nat, through: int, keep: Record -> bool)
    requires Chain(fs, 0, end) && i <= |fs| && Aligned(fs, through)
    requires (forall j :: 0 <= j < i ==> fs[j].base < through) && (i < |fs| ==> through <= fs[i].base)
    ensures Filter(All(fs), RuleUpTo(fs, i, keep)) == Filter(All(fs), RuleBelow(through, keep))
  {
    var rs := All(fs);
    AllMembers(fs);
    ChainOrder(fs, 0, end);
    forall k | 0 <= k < |rs| ensures RuleUpTo(fs, i, keep)(rs[k]) == RuleBelow(through, keep)(rs[k]) {
      var r := rs[k];
      assert r in rs;
      if i < |fs| { NotBetween(fs, end, i, r); }
      if 0 < i { assert fs[i - 1] in fs; }
      if i == |fs| { InLastOrBefore(fs, end, r); }
    }
    FilterAgrees(rs, RuleUpTo(fs, i, keep), RuleBelow(through, keep));
  }

  lemma {:induction false} InLastOrBefore(fs: seq<Segment>, end: int, r: Record)
    requires Chain(fs, 0, end) && r in All(fs)
    ensures fs != [] && r.offset < fs[|fs| - 1].next
  {
    AllMembers(fs);
    ChainOrder(fs, 0, end);
    var g :| g in fs && r in g.records;
    var j :| 0 <= j < |fs| && fs[j] == g;
    if j < |fs| - 1 { assert fs[|fs| - 1] in fs && fs[j].next <= fs[|fs| - 1].base; }
  }

  /** The segments with the first i files of the pass dealt with, one after another. */
  function RewrittenFirst(fs: seq<Segment>, i: nat, keep: Record -> bool): seq<Segment>
    requires i <= |fs|
  {
    if i == 0 then fs else AfterFile(RewrittenFirst(fs, i - 1, keep), fs[i - 1], keep)
  }

  /** They hold what the rule leaves of those files; the rest are as they were. */
  lemma {:induction false} RewrittenFilters(fs: seq<Segment>, end: int, i: nat, keep: Record -> bool)
    requires Chain(fs, 0, end) && i <= |fs|
    ensures var gs := RewrittenFirst(fs, i, keep);
            && Chain(gs, 0, end) && All(gs) == Filter(All(fs), RuleUpTo(fs, i, keep))
            && forall j :: i <= j < |fs| ==> fs[j] in gs
  {
    if i == 0 {
      AllIncreasing(fs, 0, end);
      FilterAll(All(fs), RuleUpTo(fs, 0, keep));
    } else {
      var gs, f := RewrittenFirst(fs, i - 1, keep), fs[i - 1];
      RewrittenFilters(fs, end, i - 1, keep);
      AfterFileFilters(gs, end, f, keep);
      OneFileMore(fs, end, i - 1, keep);
      OthersStay(fs, end, gs, i - 1, keep);
    }
  }

  lemma {:induction false} OthersStay(fs: seq<Segment>, end: int, gs: seq<Segment>, i: nat, keep: Record -> bool)
    requires Chain(fs, 0, end) && Chain(gs, 0, end) && i < |fs| && forall j :: i <= j < |fs| ==> fs[j] in gs
    ensures forall j :: i < j < |fs| ==> fs[j] in AfterFile(gs, fs[i], keep)
  {
    ChainFacts(fs, 0, end);
    SwapMembers(gs, 0, end, fs[i], Filter(fs[i].records, keep));
    forall j | i < j < |fs| ensures fs[j] != fs[i] {
      assert fs[i].next <= fs[j].base && fs[i] in fs;
    }
  }

  /** How many files begin below an offset. */
  function FilesBelow(fs: seq<Segment>, at: int): (n: nat)
    ensures n <= |fs|
  {
    if fs == [] || at <= fs[0].base then 0 else 1 + FilesBelow(fs[1..], at)
  }

  lemma {:induction false} FilesBelowIs(fs: seq<Segment>, at: int, n: nat)
    requires n <= |fs| && (forall j :: 0 <= j < n ==> fs[j].base < at) && (n < |fs| ==> at <= fs[n].base)
    ensures FilesBelow(fs, at) == n
  {
    if 0 < n { FilesBelowIs(fs[1..], at, n - 1); }
  }

  lemma {:induction false} FilesBelowMeans(fs: seq<Segment>, at: int)
    ensures var n := FilesBelow(fs, at);
            (forall j :: 0 <= j < n ==> fs[j].base < at) && (n < |fs| ==> at <= fs[n].base)
  {
    if fs != [] && fs[0].base < at {
      FilesBelowMeans(fs[1..], at);
      forall j | 0 <= j < FilesBelow(fs, at) ensures fs[j].base < at {
        if 0 < j { assert fs[j] == fs[1..][j - 1]; }
      }
    }
  }

  /** A finished pass leaves exactly what the rule, applied below the mark, leaves of the old records. */
  lemma {:induction false} RewrittenBelow(fs: seq<Segment>, end: int, through: int, keep: Record -> bool)
    requires Chain(fs, 0, end) && Aligned(fs, through)
    ensures var gs := RewrittenFirst(fs, FilesBelow(fs, through), keep);
            Chain(gs, 0, end) && All(gs) == Filter(All(fs), RuleBelow(through, keep))
  {
    FilesBelowMeans(fs, through);
    RewrittenFilters(fs, end, FilesBelow(fs, through), keep);
    AllFilesDone(fs, end, FilesBelow(fs, through), through, keep);
  }
}
