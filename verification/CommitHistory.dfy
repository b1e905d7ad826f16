/** The map a history of commits leaves, and the key view of the topic they were written to. */
module CommitHistory {
  import opened Prelude
  import opened Records
  import opened CommitRecords

  type Committed = map<CommitKey, CommitValue>

  /** One record replayed: a keyless one is no commit, a null value forgets, bytes that do not decode throw. */
  function ApplyCommit(m: Committed, r: Record): Option<Committed> {
    if r.key.None? then Some(m)
    else
      match DecodeKey(r.key.value)
      case None => None
      case Some(k) =>
        if r.value.None? then Some(m - {k})
        else
          match DecodeValue(r.value.value)
          case None => None
          case Some(v) => Some(m[k := v])
  }

  function Fold(m: Committed, rs: seq<Record>): Option<Committed> {
    if rs == [] then Some(m)
    else
      match Fold(m, rs[..|rs| - 1])
      case None => None
      case Some(m') => ApplyCommit(m', rs[|rs| - 1])
  }

  lemma {:induction false} FoldConcat(m: Committed, a: seq<Record>, b: seq<Record>)
    ensures Fold(m, a + b) == match Fold(m, a) case None => None case Some(m') => Fold(m', b)
  {
    if b == [] {
      assert a + b == a;
    } else {
      assert (a + b)[..|a + b| - 1] == a + b[..|b| - 1];
      FoldConcat(m, a, b[..|b| - 1]);
    }
  }

  // ---------------------------------------------------------------- records that are commits

  predicate Valued(r: Record, v: CommitValue) {
    ValueFits(v) && 0 <= v.nextOffset && r.value == Some(EncodeValue(v))
  }

  /** This record commits or forgets position k. */
  ghost predicate IsCommit(r: Record, k: CommitKey) {
    KeyFits(k) && r.key == Some(EncodeKey(k)) && (r.value.Some? ==> exists v :: Valued(r, v))
  }

  ghost predicate Proper(r: Record) { r.key.Some? ==> exists k :: IsCommit(r, k) }

  ghost predicate AllProper(rs: seq<Record>) { forall i :: 0 <= i < |rs| ==> Proper(rs[i]) }

  /** The map and the view say the same of one position. */
  ghost predicate AgreesAt(m: Committed, view: map<Bytes, Bytes>, k: CommitKey) {
    && KeyFits(k)
    && (k in m <==> EncodeKey(k) in view)
    && (k in m ==> ValueFits(m[k]) && 0 <= m[k].nextOffset && EncodeValue(m[k]) == view[EncodeKey(k)])
  }

  lemma {:induction false} ProperApplies(m: Committed, r: Record)
    requires Proper(r)
    ensures ApplyCommit(m, r).Some?
    ensures r.key.Some? ==>
              exists k :: IsCommit(r, k) && if r.value.None? then ApplyCommit(m, r).value == m - {k}
                                            else exists v :: Valued(r, v) && ApplyCommit(m, r).value == m[k := v]
  {
    if r.key.Some? {
      var k :| IsCommit(r, k);
      KeyRoundTrip(k);
      if r.value.Some? {
        var v :| Valued(r, v);
        ValueRoundTrip(v);
        assert ApplyCommit(m, r).value == m[k := v];
      }
    }
  }

  lemma {:induction false} ApplyAgrees(m: Committed, view: map<Bytes, Bytes>, r: Record, k: CommitKey)
    requires Proper(r) && AgreesAt(m, view, k)
    ensures ApplyCommit(m, r).Some? && AgreesAt(ApplyCommit(m, r).value, Apply(view, r), k)
  {
    ProperApplies(m, r);
    if r.key.Some? {
      var j :| IsCommit(r, j) && if r.value.None? then ApplyCommit(m, r).value == m - {j}
                                 else exists v :: Valued(r, v) && ApplyCommit(m, r).value == m[j := v];
      if j != k && EncodeKey(j) == EncodeKey(k) { KeysDiffer(j, k); }
    }
  }

  /** A record of another position says nothing of this one. */
  lemma {:induction false} ApplySkips(m: Committed, r: Record, k: CommitKey)
    requires Proper(r) && KeyFits(k) && r.key != Some(EncodeKey(k))
    ensures ApplyCommit(m, r).Some?
    ensures var out := ApplyCommit(m, r).value; (k in out <==> k in m) && (k in m ==> out[k] == m[k])
  {
    ProperApplies(m, r);
  }

  lemma {:induction false} FoldAgrees(m: Committed, rs: seq<Record>, k: CommitKey)
    requires AllProper(rs) && KeyFits(k) && k !in m
    ensures Fold(m, rs).Some? && AgreesAt(Fold(m, rs).value, View(rs), k)
  {
    if rs != [] {
      var init := rs[..|rs| - 1];
      FoldAgrees(m, init, k);
      ApplyAgrees(Fold(m, init).value, View(init), rs[|rs| - 1], k);
    }
  }

  lemma {:induction false} FoldSkips(m: Committed, rs: seq<Record>, k: CommitKey)
    requires AllProper(rs) && KeyFits(k) && forall i :: 0 <= i < |rs| ==> rs[i].key != Some(EncodeKey(k))
    ensures Fold(m, rs).Some?
    ensures var out := Fold(m, rs).value; (k in out <==> k in m) && (k in m ==> out[k] == m[k])
  {
    if rs != [] {
      var init := rs[..|rs| - 1];
      FoldSkips(m, init, k);
      ApplySkips(Fold(m, init).value, rs[|rs| - 1], k);
    }
  }

  ghost predicate KeysFit(m: Committed) { forall k :: k in m ==> KeyFits(k) }

  lemma {:induction false} FoldKeysFit(m: Committed, rs: seq<Record>)
    requires AllProper(rs) && KeysFit(m)
    ensures Fold(m, rs).Some? && KeysFit(Fold(m, rs).value)
  {
    if rs != [] {
      FoldKeysFit(m, rs[..|rs| - 1]);
      ProperApplies(Fold(m, rs[..|rs| - 1]).value, rs[|rs| - 1]);
    }
  }

  // --------------------------------------------------------------------- many partitions

  /** Every keyed record is a commit of a group that belongs in this partition. */
  ghost predicate Routed(rs: seq<Record>, route: string -> nat, p: nat) {
    forall i :: 0 <= i < |rs| && rs[i].key.Some? ==> exists k :: IsCommit(rs[i], k) && route(k.group) == p
  }

  /** The map is what the topic's views say, each position read from its group's own partition. */
  ghost predicate Mirrors(m: Committed, views: seq<map<Bytes, Bytes>>, route: string -> nat) {
    && KeysFit(m)
    && forall k :: KeyFits(k) ==> route(k.group) < |views| && AgreesAt(m, views[route(k.group)], k)
  }

  /** There is only one such map. */
  lemma {:induction false} MirrorIsUnique(a: Committed, b: Committed, views: seq<map<Bytes, Bytes>>, route: string -> nat)
    requires Mirrors(a, views, route) && Mirrors(b, views, route)
    ensures a == b
  {
    forall k: CommitKey ensures (k in a <==> k in b) && (k in a ==> a[k] == b[k]) {
      if KeyFits(k) {
        assert AgreesAt(a, views[route(k.group)], k) && AgreesAt(b, views[route(k.group)], k);
        if k in a {
          ValueRoundTrip(a[k]);
          ValueRoundTrip(b[k]);
        }
      }
    }
  }

  lemma {:induction false} RoutedIsProper(rs: seq<Record>, route: string -> nat, p: nat)
    requires Routed(rs, route, p)
    ensures AllProper(rs)
  {
  }

  lemma {:induction false} ElsewhereSkips(rs: seq<Record>, route: string -> nat, p: nat, k: CommitKey)
    requires Routed(rs, route, p) && KeyFits(k) && route(k.group) != p
    ensures forall i :: 0 <= i < |rs| ==> rs[i].key != Some(EncodeKey(k))
  {
    forall i | 0 <= i < |rs| ensures rs[i].key != Some(EncodeKey(k)) {
      if rs[i].key.Some? {
        var j :| IsCommit(rs[i], j) && route(j.group) == p;
        if EncodeKey(j) == EncodeKey(k) { KeysDiffer(j, k); }
      }
    }
  }

  /** The map after the first n partitions: right for groups in those, empty for the rest. */
  ghost predicate MirrorsFirst(m: Committed, views: seq<map<Bytes, Bytes>>, route: string -> nat, n: nat) {
    && KeysFit(m) && n <= |views|
    && forall k :: KeyFits(k) ==> if route(k.group) < n then AgreesAt(m, views[route(k.group)], k) else k !in m
  }

  lemma {:induction false} MirrorsOneMore(
    m: Committed, views: seq<map<Bytes, Bytes>>, route: string -> nat, n: nat, rs: seq<Record>)
    requires MirrorsFirst(m, views, route, n) && n < |views| && views[n] == View(rs) && Routed(rs, route, n)
    ensures Fold(m, rs).Some? && MirrorsFirst(Fold(m, rs).value, views, route, n + 1)
  {
    RoutedIsProper(rs, route, n);
    FoldKeysFit(m, rs);
    var out := Fold(m, rs).value;
    forall k | KeyFits(k) ensures if route(k.group) < n + 1 then AgreesAt(out, views[route(k.group)], k) else k !in out {
      if route(k.group) == n {
        FoldAgrees(m, rs, k);
      } else {
        ElsewhereSkips(rs, route, n, k);
        FoldSkips(m, rs, k);
      }
    }
  }

  /** One commit or forget appended to its partition, and the same done to the map. */
  lemma {:induction false} CommitMirrors(
    m: Committed, views: seq<map<Bytes, Bytes>>, route: string -> nat, p: nat, r: Record, k: CommitKey)
    requires Mirrors(m, views, route) && p < |views| && IsCommit(r, k) && route(k.group) == p
    ensures ApplyCommit(m, r).Some? && Mirrors(ApplyCommit(m, r).value, views[p := Apply(views[p], r)], route)
  {
    var views' := views[p := Apply(views[p], r)];
    assert Proper(r);
    ProperApplies(m, r);
    var out := ApplyCommit(m, r).value;
    forall j | KeyFits(j) ensures route(j.group) < |views'| && AgreesAt(out, views'[route(j.group)], j) {
      assert AgreesAt(m, views[route(j.group)], j);
      if route(j.group) == p {
        ApplyAgrees(m, views[p], r, j);
      } else {
        if EncodeKey(j) == EncodeKey(k) { KeysDiffer(j, k); }
        ApplySkips(m, r, j);
      }
    }
  }
}
