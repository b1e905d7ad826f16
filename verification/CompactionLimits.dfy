/** Where compaction's promises stop. */
module CompactionLimits {
  // Retention on a compacted log, the tombstone window, colliding digests.

  import opened Prelude
  import opened Records
  import opened Compaction
  import opened CompactionRuns

  predicate Mentions(rs: seq<Record>, k: Bytes) { exists i :: 0 <= i < |rs| && rs[i].key == Some(k) }

  function At(rs: seq<Record>, k: Bytes): Option<Bytes> { if k in View(rs) then Some(View(rs)[k]) else None }

  lemma {:induction false} OlderMatter(older: seq<Record>, rest: seq<Record>, k: Bytes)
    ensures At(older + rest, k) == if Mentions(rest, k) then At(rest, k) else At(older, k)
  {
    if rest == [] {
      assert older + rest == older;
    } else {
      var init, r := rest[..|rest| - 1], rest[|rest| - 1];
      assert (older + rest)[..|older + rest| - 1] == older + init;
      OlderMatter(older, init, k);
      if r.key == Some(k) {
        assert rest[|rest| - 1].key == Some(k);
      } else if Mentions(init, k) {
        var i :| 0 <= i < |init| && init[i].key == Some(k);
        assert rest[i].key == Some(k);
      } else {
        assert !Mentions(rest, k);
      }
      if !Mentions(init, k) { ViewOfAbsent(init, k); }
    }
  }

  /**
   Retention deletes the oldest segments of a compacted log too. A key keeps its value through that if
   and only if something newer mentions it, or it had none to lose.
   */
  lemma {:induction false} RetentionKeepsKeyExactly(older: seq<Record>, rest: seq<Record>, k: Bytes)
    ensures At(rest, k) == At(older + rest, k) <==> Mentions(rest, k) || At(older, k) == None
  {
    OlderMatter(older, rest, k);
    if !Mentions(rest, k) { ViewOfAbsent(rest, k); }
  }

  /** One step of a run, put in front of the rest of it. */
  lemma {:induction false} Follow(c: Config, s: State, e: Event, s': State, es: seq<Event>)
    requires Enabled(s, e) && Step(c, s, e) == s' && Possible(c, s', es)
    ensures Possible(c, s, [e] + es) && Run(c, s, [e] + es) == Run(c, s', es)
    ensures Written([e] + es) == Appended(e) + Written(es)
  {
    assert ([e] + es)[1..] == es;
  }

  lemma {:induction false} ViewOfOne(r: Record)
    ensures View([r]) == Apply(map[], r)
  {
    assert [r][..0] == [];
  }

  /** The newest record of a key does not stay for ever: one write, one roll, one retention sweep. */
  lemma {:induction false} NewestCanGo(c: Config, k: Bytes, v: Bytes) returns (es: seq<Event>)
    ensures Possible(c, FRESH, es) && (forall e :: e in es ==> e.Append? || e.Roll? || e.Retire?)
    ensures At(Written(es), k) == Some(v) && At(Recs(Run(c, FRESH, es)), k) == None
  {
    var r := Record(0, 0, Some(k), Some(v), []);
    var file := Segment(0, 1, [r]);
    var s1 := State([], file, 0, None);
    var s2 := State([file], Segment(1, 1, []), 0, None);
    var s3 := State([], Segment(1, 1, []), 0, None);
    assert [] + [r] == [r] && [] + [file] == [file] && [file][1..] == [] && [r] + [] == [r];
    es := [];
    Follow(c, s2, Retire(1), s3, es); es := [Retire(1)] + es;
    Follow(c, s1, Roll, s2, es); es := [Roll] + es;
    Follow(c, FRESH, Append([r], 1), s1, es); es := [Append([r], 1)] + es;
    assert Written(es) == [r];
    assert Recs(s3) == [];
    ViewOfOne(r);
  }

  /**
   The window a tombstone is kept for runs from its own timestamp, not from the pass that could first
   have dropped it: it outlives that pass by the full window only if it is stamped no earlier.
   */
  lemma {:induction false} TombstoneWindow(c: Config, m: KeyMap, r: Record, pass: int)
    requires r.key.Some? && IsTombstone(r) && IsLatest(c, m, r.key.value, r.offset) && 0 < c.deleteRetentionMs
    ensures (forall q :: pass <= q < pass + c.deleteRetentionMs ==> Retain(c, m, q, r)) <==> pass <= r.timestampMs
  {
    var last := pass + c.deleteRetentionMs - 1;
    assert Retain(c, m, last, r) <==> pass <= r.timestampMs;
  }

  /** Two keys with one digest: a pass takes the older key's only record for a stale copy of the newer's. */
  lemma {:induction false} CollisionLosesKey(c: Config, a: Bytes, b: Bytes, v: Bytes) returns (es: seq<Event>)
    requires a != b && c.digest(a) == c.digest(b) && 0 < c.maxEntries
    ensures Possible(c, FRESH, es) && (forall e :: e in es ==> !e.Retire?)
    ensures At(Written(es), a) == Some(v) && At(Recs(Run(c, FRESH, es)), a) == None
  {
    var x, y := Record(0, 0, Some(a), Some(v), []), Record(1, 0, Some(b), Some(v), []);
    var file := Segment(0, 2, [x, y]);
    var m := map[c.digest(a) := 1];
    es := CollisionRewrites(c, file, x, y, m);
    es := CollisionMaps(c, file, x, y, m, es);
    es := CollisionStarts(c, file, es);
    ViewsOfPair(x, y, a, b, v);
  }

  lemma {:induction false} CollisionStarts(c: Config, file: Segment, more: seq<Event>) returns (es: seq<Event>)
    requires file.base == 0 && file.next == 2 && Enabled(FRESH, Append(file.records, 2))
    requires Possible(c, State([file], Segment(2, 2, []), 0, None), more) && Written(more) == []
    requires forall e :: e in more ==> !e.Retire?
    ensures Possible(c, FRESH, es) && Run(c, FRESH, es) == Run(c, State([file], Segment(2, 2, []), 0, None), more)
    ensures Written(es) == file.records && forall e :: e in es ==> !e.Retire?
  {
    var s1 := State([], file, 0, None);
    var s2 := State([file], Segment(2, 2, []), 0, None);
    assert [] + file.records == file.records && [] + [file] == [file] && file.records + [] == file.records;
    es := more;
    Follow(c, s1, Roll, s2, es); es := [Roll] + es;
    Follow(c, FRESH, Append(file.records, 2), s1, es); es := [Append(file.records, 2)] + es;
  }

  lemma {:induction false} ViewsOfPair(x: Record, y: Record, a: Bytes, b: Bytes, v: Bytes)
    requires x.key == Some(a) && y.key == Some(b) && a != b && x.value == Some(v) && y.value.Some?
    ensures At([x, y], a) == Some(v) && At([y], a) == None
  {
    ViewOfOne(x);
    ViewOfOne(y);
    assert [x, y][..1] == [x];
  }

  /** The map the pass builds has one entry for the two of them, at the newer one's offset. */
  lemma {:induction false} CollisionMaps(c: Config, file: Segment, x: Record, y: Record, m: KeyMap, more: seq<Event>)
    returns (es: seq<Event>)
    requires file == Segment(0, 2, [x, y]) && x.key.Some? && y.key.Some? && 0 < c.maxEntries
    requires x.offset == 0 && y.offset == 1 && c.digest(x.key.value) == c.digest(y.key.value) && m == map[c.digest(x.key.value) := 1]
    requires var s5 := State([file], Segment(2, 2, []), 0, Some(Rewriting([file], 0, m, 2, 0))); Possible(c, s5, more)
    requires Written(more) == [] && forall e :: e in more ==> !e.Retire?
    ensures var s2 := State([file], Segment(2, 2, []), 0, None); var s5 := s2.(pass := Some(Rewriting([file], 0, m, 2, 0)));
            Possible(c, s2, es) && Run(c, s2, es) == Run(c, s5, more)
    ensures Written(es) == [] && forall e :: e in es ==> !e.Retire?
  {
    var s2 := State([file], Segment(2, 2, []), 0, None);
    var s3 := s2.(pass := Some(Mapping([file], 0, map[], 0, 0)));
    var s4 := s2.(pass := Some(Mapping([file], 1, m, 2, 0)));
    var s5 := s2.(pass := Some(Rewriting([file], 0, m, 2, 0)));
    es := more;
    Follow(c, s4, EndMap, s5, es); es := [EndMap] + es;
    BothMapped(c, x, y, c.digest(x.key.value));
    Follow(c, s3, MapFile, s4, es); es := [MapFile] + es;
    Follow(c, s2, Begin(0), s3, es); es := [Begin(0)] + es;
  }

  lemma {:induction false} CollisionRewrites(c: Config, file: Segment, x: Record, y: Record, m: KeyMap) returns (es: seq<Event>)
    requires file == Segment(0, 2, [x, y]) && x.key.Some? && y.key.Some?
    requires x.offset == 0 && y.offset == 1 && y.value.Some?
    requires c.digest(x.key.value) == c.digest(y.key.value) && m == map[c.digest(x.key.value) := 1]
    ensures var s5 := State([file], Segment(2, 2, []), 0, Some(Rewriting([file], 0, m, 2, 0)));
            Possible(c, s5, es) && Recs(Run(c, s5, es)) == [y]
    ensures Written(es) == [] && forall e :: e in es ==> !e.Retire?
  {
    var s5 := State([file], Segment(2, 2, []), 0, Some(Rewriting([file], 0, m, 2, 0)));
    var s6 := State([Segment(0, 2, [y])], Segment(2, 2, []), 0, Some(Rewriting([file], 1, m, 2, 0)));
    OneKept(c, x, y, c.digest(x.key.value));
    assert [file][1..] == [] && [Segment(0, 2, [y])] + [] == [Segment(0, 2, [y])];
    es := [];
    Follow(c, s5, RewriteFile, s6, es); es := [RewriteFile] + es;
    AllOfOne(Segment(0, 2, [y]));
    assert Recs(s6) == [y] + [] == [y];
  }

  lemma {:induction false} BothMapped(c: Config, x: Record, y: Record, d: Digest)
    requires x.key.Some? && y.key.Some? && c.digest(x.key.value) == d == c.digest(y.key.value)
    requires x.offset == 0 && y.offset == 1 && 0 < c.maxEntries
    ensures PutAll(c, map[], [x, y]) == (map[d := 1], true)
  {
    var one: KeyMap, two: KeyMap := map[d := 0], map[d := 1];
    assert one[d := 1] == two;
    assert [x, y][1..] == [y] && [y][1..] == [];
    assert PutAll(c, two, []) == (two, true);
    assert PutAll(c, one, [y]) == (two, true);
    var none: KeyMap := map[];
    assert none[d := 0] == one;
    assert Put(c, none, x.key.value, 0) == (one, true);
  }

  lemma {:induction false} AllOfOne(g: Segment)
    ensures All([g]) == g.records
  {
    assert [g][1..] == [] && g.records + [] == g.records;
  }

  lemma {:induction false} OneKept(c: Config, x: Record, y: Record, d: Digest)
    requires x.key.Some? && y.key.Some? && c.digest(x.key.value) == d == c.digest(y.key.value)
    requires x.offset == 0 && y.offset == 1 && y.value.Some?
    ensures Filter([x, y], Keeper(c, map[d := 1], 0)) == [y]
  {
    assert [x, y][..1] == [x] && [x][..0] == [];
    assert [] + [y] == [y];
  }
}
