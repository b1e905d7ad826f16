/** Every step of the compacted partition, cleaner's or not, keeps the invariant. */
module CompactionSteps {
  import opened Prelude
  import opened Records
  import opened Compaction

  // ------------------------------------------------ what happens to the records

  lemma {:induction false} FactsAppend(c: Config, rs: seq<Record>, more: seq<Record>, p: Pass, mark: int, bound: int)
    requires Facts(c, rs, p, mark, bound) && OnePerKey(rs, mark) && mark <= bound
    requires forall r :: r in more ==> bound <= r.offset
    ensures Facts(c, rs + more, p, mark, bound)
  {
    var all := rs + more;
    forall d, r | d in p.m && r in all && DigestOf(c, r) == Some(d) && r.offset < p.m[d]
      ensures Witnessed(c, all, d, p.m[d])
    {
      assert r in rs;
      var w :| w in rs && w.offset == p.m[d] && DigestOf(c, w) == Some(d);
      assert w in all;
    }
  }

  lemma {:induction false} FactsRetire(c: Config, gone: seq<Record>, rest: seq<Record>, p: Pass, mark: int, bound: int)
    requires Facts(c, gone + rest, p, mark, bound)
    requires Increasing(gone + rest)
    ensures Facts(c, rest, p, mark, bound)
  {
    var all := gone + rest;
    forall d, r | d in p.m && r in rest && DigestOf(c, r) == Some(d) && r.offset < p.m[d]
      ensures Witnessed(c, rest, d, p.m[d])
    {
      assert r in all;
      var w :| w in all && w.offset == p.m[d] && DigestOf(c, w) == Some(d);
      var i :| 0 <= i < |rest| && rest[i] == r;
      var j :| 0 <= j < |all| && all[j] == w;
      assert all[|gone| + i] == r;
      assert w == rest[j - |gone|];
    }
  }

  lemma {:induction false} FactsWiden(c: Config, rs: seq<Record>, p: Pass, mark: int, bound: int, bound': int)
    requires Facts(c, rs, p, mark, bound) && bound <= bound'
    ensures Facts(c, rs, p, mark, bound')
  {
  }

  // ---------------------------------------------- steps other than the cleaner's

  lemma {:induction false} OnePerKeyAppend(rs: seq<Record>, more: seq<Record>, mark: int)
    requires OnePerKey(rs, mark)
    requires forall r :: r in more ==> mark <= r.offset && forall a :: a in rs ==> a.offset < r.offset
    ensures OnePerKey(rs + more, mark)
  {
  }

  lemma {:induction false} AppendOk(g: Segment, rs: seq<Record>, next: int)
    requires Ok(g) && g.next < next && Increasing(rs) && Within(rs, g.next, next)
    ensures Ok(Segment(g.base, next, g.records + rs))
    ensures forall r :: r in rs ==> g.next <= r.offset
  {
  }

  lemma {:induction false} AppendKeeps(c: Config, s: State, rs: seq<Record>, next: int)
    requires Inv(c, s) && Enabled(s, Append(rs, next))
    ensures Inv(c, Step(c, s, Append(rs, next)))
    ensures Recs(Step(c, s, Append(rs, next))) == Recs(s) + rs
  {
    var s' := Step(c, s, Append(rs, next));
    AppendOk(s.active, rs, next);
    assert Recs(s') == Recs(s) + rs;
    RecsIncreasing(s);
    OnePerKeyAppend(Recs(s), rs, s.mark);
    if s.pass.Some? {
      FactsAppend(c, Recs(s), rs, s.pass.value, s.mark, s.active.base);
    }
  }

  lemma {:induction false} RollTracks(sealed: seq<Segment>, g: Segment, files: seq<Segment>, i: nat, through: int)
    requires Tracks(sealed, files, i, through) && Newer(g, files, through)
    ensures Tracks(sealed + [g], files, i, through)
  {
    forall j | i <= j < |files| ensures files[j] in sealed + [g] || Retired(files[j], sealed + [g]) {
      assert files[j] in files;
    }
  }

  lemma {:induction false} RollShape(sealed: seq<Segment>, g: Segment, mark: int, p: Pass)
    requires Shape(sealed, g.base, mark, p) && p.through <= g.base < g.next
    ensures Shape(sealed + [g], g.next, mark, p)
  {
    ChainOrder(p.files, 0, g.base);
    ChainWiden(p.files, 0, g.base, 0, g.next);
    RollTracks(sealed, g, p.files, if p.Mapping? then 0 else p.i, p.through);
  }

  lemma {:induction false} RollKeeps(c: Config, s: State)
    requires Inv(c, s) && Enabled(s, Roll)
    ensures Inv(c, Step(c, s, Roll))
    ensures Recs(Step(c, s, Roll)) == Recs(s)
  {
    var s' := Step(c, s, Roll);
    AllConcat(s.sealed, [s.active]);
    assert All([s.active]) == s.active.records;
    assert Recs(s') == Recs(s);
    ChainSnoc(s.sealed, 0, s.active);
    if s.pass.Some? {
      FactsWiden(c, Recs(s), s.pass.value, s.mark, s.active.base, s'.active.base);
      RollShape(s.sealed, s.active, s.mark, s.pass.value);
    }
  }

  lemma {:induction false} RetireShape(sealed: seq<Segment>, end: int, mark: int, p: Pass, n: nat)
    requires Chain(sealed, 0, end) && Shape(sealed, end, mark, p) && n <= |sealed|
    ensures Shape(sealed[n..], end, mark, p)
  {
    ChainDrop(sealed, 0, end, n);
    forall j | (if p.Mapping? then 0 else p.i) <= j < |p.files|
      ensures p.files[j] in sealed[n..] || Retired(p.files[j], sealed[n..])
    {
      if p.files[j] in sealed && p.files[j] !in sealed[n..] {
        assert p.files[j] in sealed[..n];
      }
    }
  }

  lemma {:induction false} RetireKeeps(c: Config, s: State, n: nat)
    requires Inv(c, s) && Enabled(s, Retire(n))
    ensures Inv(c, Step(c, s, Retire(n)))
    ensures Recs(s) == All(s.sealed[..n]) + Recs(Step(c, s, Retire(n)))
  {
    var s' := Step(c, s, Retire(n));
    var gone := All(s.sealed[..n]);
    AllConcat(s.sealed[..n], s.sealed[n..]);
    SplitSeq(s.sealed, n);
    Associate(gone, All(s.sealed[n..]), s.active.records);
    RecsIncreasing(s);
    ChainDrop(s.sealed, 0, s.active.base, n);
    if s.pass.Some? {
      FactsRetire(c, gone, Recs(s'), s.pass.value, s.mark, s.active.base);
      RetireShape(s.sealed, s.active.base, s.mark, s.pass.value, n);
    }
  }

  lemma {:induction false} BeginKeeps(c: Config, s: State, nowMs: int)
    requires Inv(c, s) && Enabled(s, Begin(nowMs))
    ensures Inv(c, Step(c, s, Begin(nowMs)))
  {
    ChainOrder(s.sealed, 0, s.active.base);
    forall g | g in s.sealed ensures FromFile(g, s.sealed, 0) {
      var j :| 0 <= j < |s.sealed| && s.sealed[j] == g;
    }
  }

  // ------------------------------------------------------------------- mapping

  /** Nothing mapped is lost or lowered, and a map within its budget stays there. */
  lemma {:induction false} PutAllGrows(c: Config, m: KeyMap, rs: seq<Record>)
    ensures var (m', taken) := PutAll(c, m, rs);
            && (forall d :: d in m ==> d in m' && m[d] <= m'[d])
            && (|m| <= c.maxEntries ==> |m'| <= c.maxEntries)
    decreases |rs|
  {
    if rs != [] {
      var n := if rs[0].key.None? then (m, true) else Put(c, m, rs[0].key.value, rs[0].offset);
      if n.1 { PutAllGrows(c, n.0, rs[1..]); }
    }
  }

  /** Every record taken is in the map, at its offset or above. */
  lemma {:induction false} PutAllTakes(c: Config, m: KeyMap, rs: seq<Record>)
    ensures var (m', taken) := PutAll(c, m, rs);
            taken ==> forall r :: r in rs && r.key.Some? ==>
              c.digest(r.key.value) in m' && r.offset <= m'[c.digest(r.key.value)]
    decreases |rs|
  {
    if rs != [] {
      var n := if rs[0].key.None? then (m, true) else Put(c, m, rs[0].key.value, rs[0].offset);
      assert rs == [rs[0]] + rs[1..];
      if n.1 {
        PutAllGrows(c, n.0, rs[1..]);
        PutAllTakes(c, n.0, rs[1..]);
      }
    }
  }

  /** What is new in the map is some record's. */
  lemma {:induction false} PutAllWitnessed(c: Config, m: KeyMap, rs: seq<Record>)
    ensures var m' := PutAll(c, m, rs).0;
            forall d :: d in m' ==> (d in m && m'[d] == m[d]) || Witnessed(c, rs, d, m'[d])
    decreases |rs|
  {
    if rs != [] {
      var rest := rs[1..];
      var n := if rs[0].key.None? then (m, true) else Put(c, m, rs[0].key.value, rs[0].offset);
      assert rs == [rs[0]] + rest;
      if n.1 {
        PutAllWitnessed(c, n.0, rest);
        var m' := PutAll(c, n.0, rest).0;
        forall d | d in m' ensures (d in m && m'[d] == m[d]) || Witnessed(c, rs, d, m'[d]) {
          if Witnessed(c, rest, d, m'[d]) {
            var w :| w in rest && w.offset == m'[d] && DigestOf(c, w) == Some(d);
            assert w in rs;
          } else if d !in m || m'[d] != m[d] {
            assert rs[0] in rs && DigestOf(c, rs[0]) == Some(d);
          }
        }
      }
    }
  }

  lemma {:induction false} OwnerSegment(s: State, r: Record) returns (g: Segment)
    requires Chain(s.sealed, 0, s.active.base) && Ok(s.active)
    requires r in Recs(s) && r.offset < s.active.base
    ensures g in s.sealed && r in g.records && g.base <= r.offset < g.next
  {
    RecsMembers(s);
    assert r !in s.active.records;
    g :| g in s.sealed && r in g.records;
    ChainOrder(s.sealed, 0, s.active.base);
  }

  /** The file whose offsets a record falls in; unless already rewritten, the file holds it. */
  lemma {:induction false} OwnerFile(s: State, files: seq<Segment>, i: nat, through: int, r: Record) returns (j: int)
    requires Chain(s.sealed, 0, s.active.base) && Chain(files, 0, s.active.base)
    requires Ok(s.active) && Tracks(s.sealed, files, i, through) && through <= s.active.base
    requires r in Recs(s) && (r.offset < through || exists f :: f in files && r.offset < f.next)
    ensures 0 <= j < |files| && files[j].base <= r.offset < files[j].next
    ensures i <= j ==> r in files[j].records
  {
    ChainOrder(files, 0, s.active.base);
    var g := OwnerSegment(s, r);
    assert FromFile(g, files, i);
    j :| 0 <= j < |files| && g.base == files[j].base && g.next <= files[j].next && (i <= j ==> g == files[j]);
  }

  lemma {:induction false} MapStaysSound(c: Config, s: State, p: Pass, m': KeyMap)
    requires Chain(s.sealed, 0, s.active.base) && Chain(p.files, 0, s.active.base) && Ok(s.active)
    requires p.Mapping? && p.i < |p.files|
    requires p.files[p.i] in s.sealed || Retired(p.files[p.i], s.sealed)
    requires Sound(c, Recs(s), p.m)
    requires forall d :: d in m' ==> (d in p.m && m'[d] == p.m[d]) || Witnessed(c, p.files[p.i].records, d, m'[d])
    ensures Sound(c, Recs(s), m')
  {
    var f := p.files[p.i];
    ChainOrder(p.files, 0, s.active.base);
    ChainOrder(s.sealed, 0, s.active.base);
    RecsMembers(s);
    forall d, r | d in m' && r in Recs(s) && DigestOf(c, r) == Some(d) && r.offset < m'[d]
      ensures Witnessed(c, Recs(s), d, m'[d])
    {
      if !(d in p.m && m'[d] == p.m[d]) {
        var w :| w in f.records && w.offset == m'[d] && DigestOf(c, w) == Some(d);
        assert f in p.files;
        // Retention may have taken the file, but only with everything older than it.
        assert f in s.sealed;
        assert w in Recs(s);
      }
    }
  }

  lemma {:induction false} MapBounds(c: Config, s: State, p: Pass, m': KeyMap)
    requires Chain(p.files, 0, s.active.base) && p.i < |p.files|
    requires forall d :: d in p.m ==> p.m[d] < s.active.base
    requires forall d :: d in m' ==> (d in p.m && m'[d] == p.m[d]) || Witnessed(c, p.files[p.i].records, d, m'[d])
    ensures forall d :: d in m' ==> m'[d] < s.active.base
  {
    var f := p.files[p.i];
    assert f in p.files;
    ChainOrder(p.files, 0, s.active.base);
    forall d | d in m' && Witnessed(c, f.records, d, m'[d]) ensures m'[d] < s.active.base {
      var w :| w in f.records && w.offset == m'[d];
    }
  }

  lemma {:induction false} MapFacts(c: Config, s: State)
    requires Inv(c, s) && Enabled(s, MapFile)
    ensures Facts(c, Recs(s), MapStep(c, s.mark, s.pass.value), s.mark, s.active.base)
  {
    var p := s.pass.value;
    var f := p.files[p.i];
    if s.mark < f.next {
      var (m', taken) := PutAll(c, p.m, f.records);
      PutAllGrows(c, p.m, f.records);
      PutAllTakes(c, p.m, f.records);
      PutAllWitnessed(c, p.m, f.records);
      MapStaysSound(c, s, p, m');
      MapBounds(c, s, p, m');
      if taken {
        MapCompletes(c, s, p, m');
        ChainOrder(p.files, 0, s.active.base);
        assert f in p.files;
      } else {
        assert Complete(c, Recs(s), m', s.mark, p.through);
      }
    }
  }

  lemma {:induction false} MapCompletes(c: Config, s: State, p: Pass, m': KeyMap)
    requires Chain(s.sealed, 0, s.active.base) && Ok(s.active)
    requires Shape(s.sealed, s.active.base, s.mark, p) && p.Mapping? && p.i < |p.files| && s.mark < p.files[p.i].next
    requires p.through <= s.active.base && Complete(c, Recs(s), p.m, s.mark, p.through)
    requires forall d :: d in p.m ==> d in m' && p.m[d] <= m'[d]
    requires forall r :: r in p.files[p.i].records && r.key.Some? ==>
               c.digest(r.key.value) in m' && r.offset <= m'[c.digest(r.key.value)]
    ensures Complete(c, Recs(s), m', s.mark, p.files[p.i].next)
  {
    var f := p.files[p.i];
    ChainOrder(p.files, 0, s.active.base);
    forall r | r in Recs(s) && r.key.Some? && s.mark <= r.offset < f.next
      ensures c.digest(r.key.value) in m' && r.offset <= m'[c.digest(r.key.value)]
    {
      if p.through <= r.offset {
        assert f in p.files;
        var j := OwnerFile(s, p.files, 0, p.through, r);
        assert j == p.i;
      }
    }
  }

  lemma {:induction false} TracksFurther(sealed: seq<Segment>, files: seq<Segment>, through: int, f: Segment)
    requires Tracks(sealed, files, 0, through) && f in files
    ensures Tracks(sealed, files, 0, f.next)
  {
  }

  /** The map has taken all of a dirty file. */
  lemma {:induction false} MapShapeFurther(sealed: seq<Segment>, end: int, mark: int, p: Pass, p': Pass)
    requires Shape(sealed, end, mark, p) && p.Mapping? && p.i < |p.files| && p'.files == p.files
    requires p'.Mapping? && p'.i == p.i + 1 && p'.through == p.files[p.i].next && mark < p.files[p.i].next
    ensures Shape(sealed, end, mark, p')
  {
    var f := p.files[p.i];
    assert f in p.files;
    TracksFurther(sealed, p.files, p.through, f);
    AlignedAfter(p.files, end, p.i);
    MappedAfter(p.files, end, p.i, p.through);
  }

  lemma {:induction false} AlignedAfter(files: seq<Segment>, end: int, i: nat)
    requires Chain(files, 0, end) && i < |files|
    ensures Aligned(files, files[i].next)
  {
    ChainFacts(files, 0, end);
    forall g | g in files ensures g.next <= files[i].next || files[i].next <= g.base {
      var j :| 0 <= j < |files| && files[j] == g;
      assert j < i || j == i || i < j;
    }
  }

  lemma {:induction false} MappedAfter(files: seq<Segment>, end: int, i: nat, through: int)
    requires Chain(files, 0, end) && i < |files| && forall j :: 0 <= j < i ==> files[j].next <= through
    ensures forall j :: 0 <= j < i + 1 ==> files[j].next <= files[i].next
    ensures forall j :: i + 1 <= j < |files| ==> files[i].next <= files[j].base
  {
    ChainFacts(files, 0, end);
    forall j | 0 <= j < i ensures files[j].next <= files[i].next {
      assert files[i] in files;
    }
  }

  lemma {:induction false} MapShape(sealed: seq<Segment>, end: int, mark: int, p: Pass, p': Pass)
    requires Shape(sealed, end, mark, p) && p.Mapping? && p.i < |p.files| && p'.files == p.files
    requires var f := p.files[p.i];
             || (p' == p.(i := p.i + 1) && f.next <= mark <= p.through)
             || (p'.Mapping? && p'.i == p.i + 1 && p'.through == f.next && mark < f.next)
             || (p'.Rewriting? && p'.i == 0 && p'.through == p.through)
    ensures Shape(sealed, end, mark, p')
  {
    if p'.Mapping? && mark < p.files[p.i].next { MapShapeFurther(sealed, end, mark, p, p'); }
  }

  lemma {:induction false} MapStepShape(c: Config, sealed: seq<Segment>, end: int, mark: int, p: Pass)
    requires Shape(sealed, end, mark, p) && p.Mapping? && p.i < |p.files| && mark <= p.through
    ensures Shape(sealed, end, mark, MapStep(c, mark, p))
  {
    var p' := MapStep(c, mark, p);
    assert p'.files == p.files;
    MapShape(sealed, end, mark, p, p');
  }

  lemma {:induction false} SetPass(c: Config, s: State, p: Pass)
    requires Inv(c, s.(pass := None))
    requires Shape(s.sealed, s.active.base, s.mark, p) && Facts(c, Recs(s), p, s.mark, s.active.base)
    ensures Inv(c, s.(pass := Some(p)))
  {
    assert Recs(s.(pass := Some(p))) == Recs(s) == Recs(s.(pass := None));
  }

  lemma {:induction false} DropPass(c: Config, s: State)
    requires Inv(c, s)
    ensures Inv(c, s.(pass := None))
  {
    assert Recs(s.(pass := None)) == Recs(s);
  }

  lemma {:induction false} MapLands(c: Config, s: State, p: Pass)
    requires Inv(c, s.(pass := None)) && Enabled(s, MapFile) && p == MapStep(c, s.mark, s.pass.value)
    requires Shape(s.sealed, s.active.base, s.mark, p) && Facts(c, Recs(s), p, s.mark, s.active.base)
    ensures Inv(c, Step(c, s, MapFile))
  {
    SetPass(c, s, p);
  }

  lemma {:induction false} MapKeeps(c: Config, s: State)
    requires Inv(c, s) && Enabled(s, MapFile)
    ensures Inv(c, Step(c, s, MapFile))
  {
    var p := MapStep(c, s.mark, s.pass.value);
    assert Facts(c, Recs(s), p, s.mark, s.active.base) by { MapFacts(c, s); }
    assert Shape(s.sealed, s.active.base, s.mark, p) by {
      MapStepShape(c, s.sealed, s.active.base, s.mark, s.pass.value);
    }
    assert Inv(c, s.(pass := None)) by { DropPass(c, s); }
    MapLands(c, s, p);
  }

  lemma {:induction false} EndMapKeeps(c: Config, s: State)
    requires Inv(c, s) && Enabled(s, EndMap)
    ensures Inv(c, Step(c, s, EndMap))
  {
  }
}
