/**
 The cleaner as a state machine over one compacted partition.

 A pass works outside the log's lock: it snapshots the sealed segments, maps the keys written since
 the dirty mark, then rewrites segments oldest first, swapping each in on its own. Appends, rolls
 and retention run between any two of its steps, and it may abort at any point. The process may stop at
 any point too: what a restart then finds of the active segment, which unlike a sealed one need not have
 reached the disk, ends wherever it ends, and the mark starts again at zero.
 */
module Compaction {
  import opened Prelude
  import opened Records

  datatype Digest = Digest(high: nat, low: nat)

  type KeyMap = map<Digest, int>

  datatype Config = Config(digest: Bytes -> Digest, maxEntries: nat, deleteRetentionMs: int)

  /** One segment: the offsets it owns, [base, next), and the records left in it. */
  datatype Segment = Segment(base: int, next: int, records: seq<Record>)

  datatype Pass =
    | Mapping(files: seq<Segment>, i: nat, m: KeyMap, through: int, nowMs: int)
    | Rewriting(files: seq<Segment>, i: nat, m: KeyMap, through: int, nowMs: int)

  datatype State = State(sealed: seq<Segment>, active: Segment, mark: int, pass: Option<Pass>)

  datatype Event =
    | Append(records: seq<Record>, next: int)
    | Roll
    | Retire(count: nat)
    | Begin(nowMs: int)
    | MapFile
    | EndMap
    | RewriteFile
    | Finish
    | Abort
    | Restart(next: int)

  // ------------------------------------------------------------- the key map

  function Put(c: Config, m: KeyMap, key: Bytes, offset: int): (KeyMap, bool) {
    var d := c.digest(key);
    if d in m then (if offset > m[d] then m[d := offset] else m, true)
    else if |m| >= c.maxEntries then (m, false)
    else (m[d := offset], true)
  }

  /** Maps records in order until one is refused; false means one was. */
  function PutAll(c: Config, m: KeyMap, rs: seq<Record>): (KeyMap, bool)
    decreases |rs|
  {
    if rs == [] then (m, true)
    else if rs[0].key.None? then PutAll(c, m, rs[1..])
    else
      var (m', taken) := Put(c, m, rs[0].key.value, rs[0].offset);
      if taken then PutAll(c, m', rs[1..]) else (m, false)
  }

  predicate IsLatest(c: Config, m: KeyMap, key: Bytes, offset: int) {
    var d := c.digest(key);
    d in m ==> offset >= m[d]
  }

  predicate Retain(c: Config, m: KeyMap, nowMs: int, r: Record) {
    || r.key.None?
    || (&& IsLatest(c, m, r.key.value, r.offset)
        && (IsTombstone(r) ==> nowMs - r.timestampMs < c.deleteRetentionMs))
  }

  function Keeper(c: Config, m: KeyMap, nowMs: int): Record -> bool {
    r => Retain(c, m, nowMs, r)
  }

  // ------------------------------------------------------------- the segments

  function From(at: int): Record -> bool { (r: Record) => at <= r.offset }

  function Until(at: int): Record -> bool { (r: Record) => r.offset < at }

  function All(gs: seq<Segment>): seq<Record> {
    if gs == [] then [] else gs[0].records + All(gs[1..])
  }

  function Recs(s: State): seq<Record> { All(s.sealed) + s.active.records }

  /** replaceSegment or removeSegment, for the segment based at `base` if it is still there. */
  function Swap(gs: seq<Segment>, base: int, kept: seq<Record>): seq<Segment> {
    if gs == [] then []
    else if gs[0].base != base then [gs[0]] + Swap(gs[1..], base, kept)
    else if kept == [] then gs[1..]
    else [Segment(base, kept[|kept| - 1].offset + 1, kept)] + gs[1..]
  }

  // ----------------------------------------------------------------- the steps

  predicate Enabled(s: State, e: Event) {
    match e
    case Append(rs, next) =>
      && s.active.next < next
      && (forall i :: 0 <= i < |rs| ==> s.active.next <= rs[i].offset < next)
      && (forall i, j :: 0 <= i < j < |rs| ==> rs[i].offset < rs[j].offset)
    case Roll => s.active.base < s.active.next
    case Retire(n) => n <= |s.sealed|
    case Begin(_) => s.pass.None?
    case MapFile => s.pass.Some? && s.pass.value.Mapping? && s.pass.value.i < |s.pass.value.files|
    case EndMap => s.pass.Some? && s.pass.value.Mapping? && s.pass.value.i == |s.pass.value.files|
    case RewriteFile =>
      && s.pass.Some? && s.pass.value.Rewriting? && s.pass.value.m != map[]
      && s.pass.value.i < |s.pass.value.files|
      && s.pass.value.files[s.pass.value.i].base < s.pass.value.through
    case Finish =>
      && s.pass.Some? && s.pass.value.Rewriting?
      && s.pass.value.i <= |s.pass.value.files|
      && (s.pass.value.i < |s.pass.value.files| && s.pass.value.m != map[]
          ==> s.pass.value.through <= s.pass.value.files[s.pass.value.i].base)
    case Abort => true
    case Restart(next) => s.active.base <= next <= s.active.next
  }

  function MapStep(c: Config, mark: int, p: Pass): Pass
    requires p.Mapping? && p.i < |p.files|
  {
    var file := p.files[p.i];
    if file.next <= mark then p.(i := p.i + 1)
    else
      var (m, taken) := PutAll(c, p.m, file.records);
      if taken then p.(i := p.i + 1, m := m, through := file.next)
      else Rewriting(p.files, 0, m, p.through, p.nowMs)
  }

  function RewriteStep(c: Config, sealed: seq<Segment>, p: Pass): seq<Segment>
    requires p.Rewriting? && p.i < |p.files|
  {
    var file := p.files[p.i];
    var kept := Filter(file.records, Keeper(c, p.m, p.nowMs));
    if |kept| == |file.records| then sealed else Swap(sealed, file.base, kept)
  }

  function Step(c: Config, s: State, e: Event): State
    requires Enabled(s, e)
  {
    match e
    case Append(rs, next) => s.(active := Segment(s.active.base, next, s.active.records + rs))
    case Roll => s.(sealed := s.sealed + [s.active], active := Segment(s.active.next, s.active.next, []))
    case Retire(n) => s.(sealed := s.sealed[n..])
    case Begin(nowMs) => s.(pass := Some(Mapping(s.sealed, 0, map[], s.mark, nowMs)))
    case MapFile => s.(pass := Some(MapStep(c, s.mark, s.pass.value)))
    case EndMap =>
      var p := s.pass.value;
      s.(pass := Some(Rewriting(p.files, 0, p.m, p.through, p.nowMs)))
    case RewriteFile =>
      s.(sealed := RewriteStep(c, s.sealed, s.pass.value),
         pass := Some(s.pass.value.(i := s.pass.value.i + 1)))
    case Finish => s.(mark := s.pass.value.through, pass := None)
    case Abort => s.(pass := None)
    case Restart(next) =>
      s.(active := Segment(s.active.base, next, Filter(s.active.records, Until(next))), mark := 0, pass := None)
  }

  // ------------------------------------------------------------- the invariant

  ghost predicate Ok(g: Segment) {
    && 0 <= g.base <= g.next
    && Increasing(g.records)
    && Within(g.records, g.base, g.next)
  }

  /** Segments in offset order, each non-empty in offsets, all inside [lo, end); gaps are allowed. */
  ghost predicate Chain(gs: seq<Segment>, lo: int, end: int) {
    if gs == [] then lo <= end
    else Ok(gs[0]) && lo <= gs[0].base < gs[0].next && Chain(gs[1..], gs[0].next, end)
  }

  function DigestOf(c: Config, r: Record): Option<Digest> {
    if r.key.Some? then Some(c.digest(r.key.value)) else None
  }

  /** The digest tells the keys of these records apart. */
  ghost predicate Injective(c: Config, rs: seq<Record>) {
    forall a, b ::
      (a in rs && b in rs && a.key.Some? && b.key.Some? && c.digest(a.key.value) == c.digest(b.key.value))
      ==> a.key == b.key
  }

  ghost predicate Witnessed(c: Config, rs: seq<Record>, d: Digest, offset: int) {
    exists w :: w in rs && w.offset == offset && DigestOf(c, w) == Some(d)
  }

  /** Whatever a mapped offset outranks, the record it stands for is still in the log. */
  ghost predicate Sound(c: Config, rs: seq<Record>, m: KeyMap) {
    forall d, r :: d in m && r in rs && DigestOf(c, r) == Some(d) && r.offset < m[d]
                   ==> Witnessed(c, rs, d, m[d])
  }

  ghost predicate Complete(c: Config, rs: seq<Record>, m: KeyMap, lo: int, hi: int) {
    forall r :: r in rs && r.key.Some? && lo <= r.offset < hi
                ==> c.digest(r.key.value) in m && r.offset <= m[c.digest(r.key.value)]
  }

  /** Below the mark a key has at most one record. */
  ghost predicate OnePerKey(rs: seq<Record>, mark: int) {
    forall a, b :: a in rs && b in rs && a.key.Some? && a.key == b.key && a.offset < b.offset
                   ==> mark <= b.offset
  }

  predicate Aligned(gs: seq<Segment>, at: int) {
    forall g :: g in gs ==> g.next <= at || at <= g.base
  }

  /** A segment sealed after the pass took its snapshot. */
  ghost predicate Newer(g: Segment, files: seq<Segment>, through: int) {
    through <= g.base && forall f :: f in files ==> f.next <= g.base
  }

  /** A segment of the snapshot, as it was or, before file i, as a rewrite left it. */
  ghost predicate FromFile(g: Segment, files: seq<Segment>, i: nat) {
    exists j :: 0 <= j < |files| && g.base == files[j].base && g.next <= files[j].next && (i <= j ==> g == files[j])
  }

  /** Retention took this segment, and everything older. */
  ghost predicate Retired(f: Segment, sealed: seq<Segment>) {
    forall g :: g in sealed ==> f.next <= g.base
  }

  /** Where the pass's files have got to: before i they may have been rewritten, from i on not. */
  ghost predicate Tracks(sealed: seq<Segment>, files: seq<Segment>, i: nat, through: int) {
    && (forall g :: g in sealed ==> Newer(g, files, through) || FromFile(g, files, i))
    && (forall j :: i <= j < |files| ==> files[j] in sealed || Retired(files[j], sealed))
  }

  /** The pass has already rewritten the segment this record would be in. */
  predicate Judged(p: Pass, r: Record) {
    p.Rewriting? && 0 < p.i <= |p.files| && r.offset < p.files[p.i - 1].next
  }

  ghost predicate Retained(c: Config, rs: seq<Record>, p: Pass) {
    forall r :: r in rs && Judged(p, r) ==> Retain(c, p.m, p.nowMs, r)
  }

  /** What a pass's map says about the records, all of it confined to offsets below `bound`. */
  ghost predicate Facts(c: Config, rs: seq<Record>, p: Pass, mark: int, bound: int) {
    && mark <= p.through <= bound
    && (p.Rewriting? && 0 < p.i <= |p.files| ==> p.files[p.i - 1].next <= bound)
    && (forall d :: d in p.m ==> p.m[d] < bound)
    && Sound(c, rs, p.m)
    && Complete(c, rs, p.m, mark, p.through)
    && Retained(c, rs, p)
  }

  /** Where a pass stands among its files, and how those relate to the sealed segments now. */
  ghost predicate Shape(sealed: seq<Segment>, end: int, mark: int, p: Pass) {
    && p.i <= |p.files|
    && Chain(p.files, 0, end)
    && Aligned(p.files, mark) && Aligned(p.files, p.through)
    && Tracks(sealed, p.files, if p.Mapping? then 0 else p.i, p.through)
    && (p.Mapping? ==>
          && (forall j :: 0 <= j < p.i ==> p.files[j].next <= p.through)
          && (forall j :: p.i <= j < |p.files| && mark < p.files[j].next ==> p.through <= p.files[j].base))
    && (p.Rewriting? ==> forall j :: 0 <= j < p.i ==> p.files[j].base < p.through)
  }

  ghost predicate Inv(c: Config, s: State) {
    && Ok(s.active)
    && Chain(s.sealed, 0, s.active.base)
    && 0 <= s.mark <= s.active.base
    && Aligned(s.sealed, s.mark)
    && OnePerKey(Recs(s), s.mark)
    && (s.pass.Some? ==>
          && Shape(s.sealed, s.active.base, s.mark, s.pass.value)
          && Facts(c, Recs(s), s.pass.value, s.mark, s.active.base))
  }

  // --------------------------------------------------------- facts about segments

  lemma {:induction false} AllMembers(gs: seq<Segment>)
    ensures forall r :: r in All(gs) <==> exists g :: g in gs && r in g.records
  {
    if gs != [] {
      AllMembers(gs[1..]);
      assert gs == [gs[0]] + gs[1..];
    }
  }

  lemma {:induction false} RecsMembers(s: State)
    ensures forall r :: r in Recs(s) <==> r in s.active.records || exists g :: g in s.sealed && r in g.records
  {
    AllMembers(s.sealed);
  }

  lemma {:induction false} AllConcat(a: seq<Segment>, b: seq<Segment>)
    ensures All(a + b) == All(a) + All(b)
  {
    if a == [] {
      assert a + b == b;
    } else {
      assert (a + b)[1..] == a[1..] + b;
      AllConcat(a[1..], b);
    }
  }

  lemma {:induction false} ChainFacts(gs: seq<Segment>, lo: int, end: int)
    requires Chain(gs, lo, end)
    ensures lo <= end
    ensures forall g :: g in gs ==> Ok(g) && lo <= g.base < g.next <= end
    ensures forall i, j :: 0 <= i < j < |gs| ==> gs[i].next <= gs[j].base
  {
    if gs != [] {
      ChainFacts(gs[1..], gs[0].next, end);
      assert gs == [gs[0]] + gs[1..];
      forall i, j | 0 <= i < j < |gs| ensures gs[i].next <= gs[j].base {
        assert gs[j] == gs[1..][j - 1] && gs[j] in gs[1..];
        if 0 < i { assert gs[i] == gs[1..][i - 1]; }
      }
    }
  }

  lemma {:induction false} ChainOrder(gs: seq<Segment>, lo: int, end: int)
    requires Chain(gs, lo, end)
    ensures lo <= end
    ensures forall g :: g in gs ==> lo <= g.base < g.next <= end
    ensures forall i, j :: 0 <= i < j < |gs| ==> gs[i].next <= gs[j].base
    ensures forall g, r :: g in gs && r in g.records ==> g.base <= r.offset < g.next
  {
    ChainFacts(gs, lo, end);
    forall g, r | g in gs && r in g.records ensures g.base <= r.offset < g.next {
      var k :| 0 <= k < |g.records| && g.records[k] == r;
    }
  }

  lemma {:induction false} ChainWiden(gs: seq<Segment>, lo: int, end: int, lo': int, end': int)
    requires Chain(gs, lo, end) && lo' <= lo && end <= end'
    ensures Chain(gs, lo', end')
  {
    if gs != [] { ChainWiden(gs[1..], gs[0].next, end, gs[0].next, end'); }
  }

  lemma {:induction false} ChainSnoc(gs: seq<Segment>, lo: int, g: Segment)
    requires Chain(gs, lo, g.base) && Ok(g) && g.base < g.next
    ensures Chain(gs + [g], lo, g.next)
  {
    if gs == [] {
      assert gs + [g] == [g] && [g][1..] == [];
    } else {
      ChainSnoc(gs[1..], gs[0].next, g);
      assert (gs + [g])[1..] == gs[1..] + [g];
    }
  }

  lemma {:induction false} ChainDrop(gs: seq<Segment>, lo: int, end: int, n: nat)
    requires Chain(gs, lo, end) && n <= |gs|
    ensures Chain(gs[n..], lo, end)
    ensures forall g :: g in gs[n..] ==> g in gs
    ensures forall g, d :: g in gs[..n] && d in gs[n..] ==> g.next <= d.base
  {
    ChainFacts(gs, lo, end);
    if 0 < n {
      ChainDrop(gs[1..], gs[0].next, end, n - 1);
      assert gs[1..][n - 1..] == gs[n..];
      ChainWiden(gs[n..], gs[0].next, end, lo, end);
    }
  }

  lemma {:induction false} AllIncreasing(gs: seq<Segment>, lo: int, end: int)
    requires Chain(gs, lo, end)
    ensures Increasing(All(gs)) && Within(All(gs), lo, end)
  {
    if gs != [] {
      AllIncreasing(gs[1..], gs[0].next, end);
      ChainFacts(gs, lo, end);
    }
  }

  lemma {:induction false} RecsIncreasing(s: State)
    requires Ok(s.active) && Chain(s.sealed, 0, s.active.base)
    ensures Increasing(Recs(s)) && Within(Recs(s), 0, s.active.next)
    ensures forall r :: r in Recs(s) ==> 0 <= r.offset < s.active.next
  {
    AllIncreasing(s.sealed, 0, s.active.base);
  }

  function Outside(f: Segment, keep: Record -> bool): Record -> bool {
    (r: Record) => r.offset < f.base || f.next <= r.offset || keep(r)
  }

  lemma {:induction false} BaseIsUnique(gs: seq<Segment>, lo: int, end: int, f: Segment)
    requires Chain(gs, lo, end) && f in gs && gs[0].base == f.base
    ensures gs[0] == f
  {
    ChainFacts(gs, lo, end);
  }

  /** Swapping one segment filters the whole log, touching no offset outside that segment. */
  lemma {:induction false} SwapFilters(gs: seq<Segment>, lo: int, end: int, f: Segment, keep: Record -> bool)
    requires Chain(gs, lo, end) && f in gs
    ensures All(Swap(gs, f.base, Filter(f.records, keep))) == Filter(All(gs), Outside(f, keep))
  {
    var p := Outside(f, keep);
    FilterConcat(gs[0].records, All(gs[1..]), p);
    if gs[0].base != f.base {
      BelowIsOutside(gs, lo, end, f, keep);
      SwapFilters(gs[1..], gs[0].next, end, f, keep);
    } else {
      BaseIsUnique(gs, lo, end, f);
      AboveIsOutside(gs, lo, end, keep);
    }
  }

  lemma {:induction false} BelowIsOutside(gs: seq<Segment>, lo: int, end: int, f: Segment, keep: Record -> bool)
    requires Chain(gs, lo, end) && f in gs && gs[0].base != f.base
    ensures f in gs[1..] && Filter(gs[0].records, Outside(f, keep)) == gs[0].records
  {
    assert f in gs[1..];
    ChainFacts(gs[1..], gs[0].next, end);
    FilterAll(gs[0].records, Outside(f, keep));
  }

  lemma {:induction false} AboveIsOutside(gs: seq<Segment>, lo: int, end: int, keep: Record -> bool)
    requires Chain(gs, lo, end) && gs != []
    ensures Filter(gs[0].records, Outside(gs[0], keep)) == Filter(gs[0].records, keep)
    ensures Filter(All(gs[1..]), Outside(gs[0], keep)) == All(gs[1..])
  {
    FilterAgrees(gs[0].records, keep, Outside(gs[0], keep));
    AllIncreasing(gs[1..], gs[0].next, end);
    FilterAll(All(gs[1..]), Outside(gs[0], keep));
  }

  lemma {:induction false} SwapAbsent(gs: seq<Segment>, base: int, kept: seq<Record>)
    requires forall g :: g in gs ==> g.base != base
    ensures Swap(gs, base, kept) == gs
  {
    if gs != [] { SwapAbsent(gs[1..], base, kept); }
  }

  function Cleaned(base: int, kept: seq<Record>): Segment
    requires kept != []
  {
    Segment(base, kept[|kept| - 1].offset + 1, kept)
  }

  lemma {:induction false} SwapMembers(gs: seq<Segment>, lo: int, end: int, f: Segment, kept: seq<Record>)
    requires Chain(gs, lo, end) && f in gs
    ensures forall g :: g in Swap(gs, f.base, kept) ==>
              (g in gs && g != f) || (kept != [] && g == Cleaned(f.base, kept))
    ensures forall g :: g in gs && g != f ==> g in Swap(gs, f.base, kept)
  {
    assert gs == [gs[0]] + gs[1..];
    ChainFacts(gs, lo, end);
    if gs[0].base != f.base {
      SwapMembers(gs[1..], gs[0].next, end, f, kept);
    }
  }

  lemma {:induction false} SwapChain(gs: seq<Segment>, lo: int, end: int, f: Segment, kept: seq<Record>)
    requires Chain(gs, lo, end) && f in gs
    requires Increasing(kept) && Within(kept, f.base, f.next)
    ensures Chain(Swap(gs, f.base, kept), lo, end)
  {
    var out := Swap(gs, f.base, kept);
    if gs[0].base != f.base {
      SwapChain(gs[1..], gs[0].next, end, f, kept);
      assert out[1..] == Swap(gs[1..], f.base, kept);
    } else {
      BaseIsUnique(gs, lo, end, f);
      if kept == [] {
        ChainWiden(gs[1..], f.next, end, lo, end);
      } else {
        var g := Cleaned(f.base, kept);
        assert out[1..] == gs[1..];
        ChainWiden(gs[1..], f.next, end, g.next, end);
      }
    }
  }
}
