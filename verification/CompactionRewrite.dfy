/** Rewriting one segment: what it may drop, and why dropping it is invisible. */
module CompactionRewrite {
  import opened Prelude
  import opened Records
  import opened Compaction
  import opened CompactionSteps

  /** A pass about to rewrite file f, over records in offset order, everything older already judged. */
  ghost predicate Poised(c: Config, rs: seq<Record>, f: Segment, p: Pass, mark: int) {
    && Increasing(rs)
    && f.base <= f.next <= p.through
    && Sound(c, rs, p.m)
    && Complete(c, rs, p.m, mark, p.through)
    && OnePerKey(rs, mark)
    && (forall r :: r in rs && r.offset < f.base ==> Retain(c, p.m, p.nowMs, r))
  }

  /** An expired tombstone's older records are outranked by the map, or there are none. */
  lemma {:induction false} OlderAreOutranked(c: Config, rs: seq<Record>, f: Segment, p: Pass, mark: int, a: Record, b: Record)
    requires Poised(c, rs, f, p, mark)
    requires a in rs && b in rs && a.key.Some? && a.key == b.key && a.offset < b.offset < f.next
    ensures !IsLatest(c, p.m, a.key.value, a.offset)
  {
    assert mark <= b.offset;
    assert c.digest(b.key.value) in p.m;
  }

  lemma {:induction false} RewriteIsSafe(c: Config, rs: seq<Record>, f: Segment, p: Pass, mark: int, i: int)
    requires Poised(c, rs, f, p, mark) && Injective(c, rs)
    requires 0 <= i < |rs| && !Outside(f, Keeper(c, p.m, p.nowMs))(rs[i])
    ensures SafeToDrop(rs, Outside(f, Keeper(c, p.m, p.nowMs)), i)
  {
    var keep := Outside(f, Keeper(c, p.m, p.nowMs));
    var r := rs[i];
    var d := c.digest(r.key.value);
    assert r in rs;
    if !IsLatest(c, p.m, r.key.value, r.offset) {
      assert Witnessed(c, rs, d, p.m[d]);
      var w :| w in rs && w.offset == p.m[d] && DigestOf(c, w) == Some(d);
      var j :| 0 <= j < |rs| && rs[j] == w;
      assert w.key == r.key;
      assert i < j;
    } else {
      forall j | 0 <= j < i && rs[j].key == r.key ensures !keep(rs[j]) {
        assert rs[j] in rs;
        OlderAreOutranked(c, rs, f, p, mark, rs[j], r);
      }
    }
  }

  /** Dropping what retain rejects from one segment leaves the key view of the whole log alone. */
  lemma {:induction false} RewriteKeepsView(c: Config, rs: seq<Record>, f: Segment, p: Pass, mark: int)
    requires Poised(c, rs, f, p, mark) && Injective(c, rs)
    ensures View(Filter(rs, Outside(f, Keeper(c, p.m, p.nowMs)))) == View(rs)
  {
    var keep := Outside(f, Keeper(c, p.m, p.nowMs));
    forall i | 0 <= i < |rs| && !keep(rs[i]) ensures SafeToDrop(rs, keep, i) {
      RewriteIsSafe(c, rs, f, p, mark, i);
    }
    SafeFilterKeepsView(rs, keep);
  }

  lemma {:induction false} RewriteStaysSound(c: Config, rs: seq<Record>, f: Segment, p: Pass, mark: int)
    requires Poised(c, rs, f, p, mark)
    ensures Sound(c, Filter(rs, Outside(f, Keeper(c, p.m, p.nowMs))), p.m)
  {
    var keep := Outside(f, Keeper(c, p.m, p.nowMs));
    var out := Filter(rs, keep);
    FilterMembers(rs, keep);
    forall d, r | d in p.m && r in out && DigestOf(c, r) == Some(d) && r.offset < p.m[d]
      ensures Witnessed(c, out, d, p.m[d])
    {
      assert Witnessed(c, rs, d, p.m[d]);
      var w :| w in rs && w.offset == p.m[d] && DigestOf(c, w) == Some(d);
      assert !IsLatest(c, p.m, r.key.value, r.offset);
      assert keep(w);
    }
  }

  lemma {:induction false} RewriteFacts(c: Config, rs: seq<Record>, f: Segment, p: Pass, mark: int, bound: int)
    requires Poised(c, rs, f, p, mark) && Facts(c, rs, p, mark, bound)
    requires p.Rewriting? && p.i < |p.files| && p.files[p.i] == f
    ensures var out := Filter(rs, Outside(f, Keeper(c, p.m, p.nowMs)));
            OnePerKey(out, mark) && Facts(c, out, p.(i := p.i + 1), mark, bound)
  {
    FilterMembers(rs, Outside(f, Keeper(c, p.m, p.nowMs)));
    RewriteStaysSound(c, rs, f, p, mark);
  }

  lemma {:induction false} NewerOutranks(c: Config, rs: seq<Record>, m: KeyMap, nowMs: int, mark: int, through: int, a: Record, b: Record)
    requires OnePerKey(rs, mark) && Complete(c, rs, m, mark, through)
    requires a in rs && b in rs && a.key.Some? && a.key == b.key && a.offset < b.offset < through
    ensures m != map[] && !Retain(c, m, nowMs, a)
  {
    assert mark <= b.offset;
    assert c.digest(b.key.value) in m;
  }

  /** When the last file is done, a key has at most one record below the new mark. */
  lemma {:induction false} FinishOnePerKey(c: Config, rs: seq<Record>, m: KeyMap, nowMs: int, mark: int, through: int)
    requires OnePerKey(rs, mark) && Complete(c, rs, m, mark, through)
    requires m != map[] ==> forall r :: r in rs && r.offset < through ==> Retain(c, m, nowMs, r)
    ensures OnePerKey(rs, through)
  {
    forall a, b | a in rs && b in rs && a.key.Some? && a.key == b.key && a.offset < b.offset
      ensures through <= b.offset
    {
      if b.offset < through { NewerOutranks(c, rs, m, nowMs, mark, through, a, b); }
    }
  }

  // -------------------------------------------------------- the segments themselves

  lemma {:induction false} StillFromFile(g: Segment, files: seq<Segment>, i: nat)
    requires i < |files| && FromFile(g, files, i)
    ensures FromFile(g, files, i + 1)
  {
    var j :| 0 <= j < |files| && g.base == files[j].base && g.next <= files[j].next && (i <= j ==> g == files[j]);
  }

  lemma {:induction false} RewriteTracks(
      sealed: seq<Segment>, end: int, files: seq<Segment>, i: nat, through: int, kept: seq<Record>)
    requires Chain(sealed, 0, end) && Tracks(sealed, files, i, through) && i < |files|
    requires kept != [] ==> kept[|kept| - 1].offset < files[i].next
    requires forall k :: i < k < |files| ==> files[k] != files[i]
    requires files[i].base < files[i].next
    ensures Tracks(Swap(sealed, files[i].base, kept), files, i + 1, through)
  {
    var f := files[i];
    var out := Swap(sealed, f.base, kept);
    if f in sealed {
      SwapMembers(sealed, 0, end, f, kept);
    } else {
      SwapAbsent(sealed, f.base, kept);
    }
    forall g | g in out ensures Newer(g, files, through) || FromFile(g, files, i + 1) {
      if g in sealed && FromFile(g, files, i) {
        StillFromFile(g, files, i);
      } else if g !in sealed {
        assert g.base == files[i].base && g.next <= files[i].next;
      }
    }
    forall j | i + 1 <= j < |files| ensures files[j] in out || Retired(files[j], out) {
    }
  }

  lemma {:induction false} RewriteShape(sealed: seq<Segment>, end: int, mark: int, p: Pass, kept: seq<Record>)
    requires Chain(sealed, 0, end) && Shape(sealed, end, mark, p) && p.Rewriting? && p.i < |p.files|
    requires p.files[p.i].base < p.through
    requires kept != [] ==> kept[|kept| - 1].offset < p.files[p.i].next
    ensures Shape(Swap(sealed, p.files[p.i].base, kept), end, mark, p.(i := p.i + 1))
  {
    ChainOrder(p.files, 0, end);
    assert p.files[p.i] in p.files;
    RewriteTracks(sealed, end, p.files, p.i, p.through, kept);
  }

  lemma {:induction false} SkipShape(sealed: seq<Segment>, end: int, mark: int, p: Pass)
    requires Shape(sealed, end, mark, p) && p.Rewriting? && p.i < |p.files|
    requires p.files[p.i].base < p.through
    ensures Shape(sealed, end, mark, p.(i := p.i + 1))
  {
    SkipTracks(sealed, p.files, p.i, p.through);
  }

  lemma {:induction false} SkipTracks(sealed: seq<Segment>, files: seq<Segment>, i: nat, through: int)
    requires Tracks(sealed, files, i, through) && i < |files|
    ensures Tracks(sealed, files, i + 1, through)
  {
    forall g | g in sealed ensures Newer(g, files, through) || FromFile(g, files, i + 1) {
      if !Newer(g, files, through) { StillFromFile(g, files, i); }
    }
  }

  lemma {:induction false} SwapAligned(sealed: seq<Segment>, end: int, f: Segment, kept: seq<Record>, mark: int)
    requires Chain(sealed, 0, end) && Aligned(sealed, mark)
    requires kept != [] ==> kept[|kept| - 1].offset < f.next
    requires f in sealed
    ensures Aligned(Swap(sealed, f.base, kept), mark)
  {
    SwapMembers(sealed, 0, end, f, kept);
  }

  lemma {:induction false} FileIsBelow(s: State, p: Pass)
    requires Shape(s.sealed, s.active.base, s.mark, p) && p.i < |p.files| && p.files[p.i].base < p.through
    requires p.through <= s.active.base
    ensures Ok(p.files[p.i]) && p.files[p.i].base < p.files[p.i].next <= p.through
  {
    ChainFacts(p.files, 0, s.active.base);
    assert p.files[p.i] in p.files;
  }

  /** A file nothing was dropped from: the rule keeps every record of the log that falls in its offsets. */
  lemma {:induction false} UntouchedFilters(c: Config, s: State, p: Pass)
    requires Inv(c, s) && s.pass == Some(p) && Enabled(s, RewriteFile)
    requires var f, keep := p.files[p.i], Keeper(c, p.m, p.nowMs); |Filter(f.records, keep)| == |f.records|
    ensures Recs(s) == Filter(Recs(s), Outside(p.files[p.i], Keeper(c, p.m, p.nowMs)))
  {
    var f := p.files[p.i];
    var keep := Keeper(c, p.m, p.nowMs);
    var out := Outside(f, keep);
    FilterFixed(f.records, keep);
    forall i | 0 <= i < |Recs(s)| ensures out(Recs(s)[i]) {
      var r := Recs(s)[i];
      assert r in Recs(s);
      if f.base <= r.offset < f.next {
        var j := OwnerFile(s, p.files, p.i, p.through, r);
        ChainOrder(p.files, 0, s.active.base);
        assert j == p.i;
        var k :| 0 <= k < |f.records| && f.records[k] == r;
      }
    }
    FilterAll(Recs(s), out);
  }

  /** A swap filters the sealed segments, whether or not retention has taken this one meanwhile. */
  lemma {:induction false} SwapOrAbsentFilters(sealed: seq<Segment>, end: int, f: Segment, keep: Record -> bool)
    requires Chain(sealed, 0, end) && f.base < f.next && (f in sealed || Retired(f, sealed))
    ensures All(Swap(sealed, f.base, Filter(f.records, keep))) == Filter(All(sealed), Outside(f, keep))
  {
    if f in sealed {
      SwapFilters(sealed, 0, end, f, keep);
    } else {
      SwapGone(sealed, end, f, keep);
    }
  }

  lemma {:induction false} SwapGone(sealed: seq<Segment>, end: int, f: Segment, keep: Record -> bool)
    requires Chain(sealed, 0, end) && f.base < f.next && Retired(f, sealed)
    ensures All(Swap(sealed, f.base, Filter(f.records, keep))) == Filter(All(sealed), Outside(f, keep))
  {
    var out := Outside(f, keep);
    SwapAbsent(sealed, f.base, Filter(f.records, keep));
    AllMembers(sealed);
    ChainOrder(sealed, 0, end);
    forall i | 0 <= i < |All(sealed)| ensures out(All(sealed)[i]) {
      assert All(sealed)[i] in All(sealed);
    }
    FilterAll(All(sealed), out);
  }

  /** Whatever the pass does with file i, the log's records become exactly the ones retain keeps. */
  lemma {:induction false} RewriteFilters(c: Config, s: State, p: Pass)
    requires Inv(c, s) && s.pass == Some(p) && Enabled(s, RewriteFile)
    ensures var s' := Step(c, s, RewriteFile);
            Recs(s') == Filter(Recs(s), Outside(p.files[p.i], Keeper(c, p.m, p.nowMs)))
  {
    var f := p.files[p.i];
    var keep := Keeper(c, p.m, p.nowMs);
    var out := Outside(f, keep);
    FileIsBelow(s, p);
    if |Filter(f.records, keep)| == |f.records| {
      UntouchedFilters(c, s, p);
    } else {
      FilterConcat(All(s.sealed), s.active.records, out);
      FilterAll(s.active.records, out);
      SwapOrAbsentFilters(s.sealed, s.active.base, f, keep);
    }
  }

  /** Below the file the pass has reached, every record has been judged and kept. */
  lemma {:induction false} BelowIsRetained(c: Config, s: State, p: Pass, limit: int)
    requires Chain(s.sealed, 0, s.active.base) && Ok(s.active)
    requires Shape(s.sealed, s.active.base, s.mark, p) && p.Rewriting?
    requires limit <= p.through <= s.active.base && Retained(c, Recs(s), p)
    requires p.i < |p.files| ==> limit <= p.files[p.i].base
    ensures forall r :: r in Recs(s) && r.offset < limit ==> Retain(c, p.m, p.nowMs, r)
  {
    forall r | r in Recs(s) && r.offset < limit ensures Retain(c, p.m, p.nowMs, r) {
      var j := OwnerFile(s, p.files, p.i, p.through, r);
      ChainOrder(p.files, 0, s.active.base);
      assert j < p.i;
      assert Judged(p, r);
    }
  }

  lemma {:induction false} IsPoised(c: Config, s: State, p: Pass)
    requires Inv(c, s) && s.pass == Some(p) && Enabled(s, RewriteFile)
    ensures Poised(c, Recs(s), p.files[p.i], p, s.mark)
  {
    FileIsBelow(s, p);
    RecsIncreasing(s);
    BelowIsRetained(c, s, p, p.files[p.i].base);
  }

  lemma {:induction false} RewriteSealed(c: Config, s: State, p: Pass)
    requires Inv(c, s) && s.pass == Some(p) && Enabled(s, RewriteFile)
    ensures var out := RewriteStep(c, s.sealed, p);
            && Chain(out, 0, s.active.base) && Aligned(out, s.mark)
            && Shape(out, s.active.base, s.mark, p.(i := p.i + 1))
  {
    var f := p.files[p.i];
    var kept := Filter(f.records, Keeper(c, p.m, p.nowMs));
    FileIsBelow(s, p);
    FilterIncreasing(f.records, Keeper(c, p.m, p.nowMs), f.base, f.next);
    if |kept| == |f.records| {
      SkipShape(s.sealed, s.active.base, s.mark, p);
    } else {
      RewriteShape(s.sealed, s.active.base, s.mark, p, kept);
      if f in s.sealed {
        SwapChain(s.sealed, 0, s.active.base, f, kept);
        SwapAligned(s.sealed, s.active.base, f, kept, s.mark);
      } else {
        assert Retired(f, s.sealed);
        SwapAbsent(s.sealed, f.base, kept);
      }
    }
  }

  /** One segment swapped in, dropped or left: the invariant stands and no key's value moves. */
  lemma {:induction false} RewriteKeeps(c: Config, s: State)
    requires Inv(c, s) && Enabled(s, RewriteFile) && Injective(c, Recs(s))
    ensures Inv(c, Step(c, s, RewriteFile))
    ensures View(Recs(Step(c, s, RewriteFile))) == View(Recs(s))
  {
    var p := s.pass.value;
    var f := p.files[p.i];
    IsPoised(c, s, p);
    RewriteFilters(c, s, p);
    RewriteSealed(c, s, p);
    RewriteFacts(c, Recs(s), f, p, s.mark, s.active.base);
    RewriteKeepsView(c, Recs(s), f, p, s.mark);
  }

  lemma {:induction false} FinishAligned(sealed: seq<Segment>, end: int, mark: int, p: Pass)
    requires Shape(sealed, end, mark, p) && p.Rewriting?
    ensures Aligned(sealed, p.through)
  {
    forall g | g in sealed ensures g.next <= p.through || p.through <= g.base {
      if FromFile(g, p.files, p.i) {
        var j :| 0 <= j < |p.files| && g.base == p.files[j].base && g.next <= p.files[j].next;
        assert p.files[j] in p.files;
      }
    }
  }

  lemma {:induction false} FinishKeeps(c: Config, s: State)
    requires Inv(c, s) && Enabled(s, Finish)
    ensures Inv(c, Step(c, s, Finish))
  {
    var p := s.pass.value;
    if p.m != map[] { BelowIsRetained(c, s, p, p.through); }
    FinishOnePerKey(c, Recs(s), p.m, p.nowMs, s.mark, p.through);
    FinishAligned(s.sealed, s.active.base, s.mark, p);
    assert Recs(Step(c, s, Finish)) == Recs(s);
  }
}
