/**
 Strings in the order an ordered map keeps its keys, and the walk over such a map.
 Characters are compared as the unsigned bytes they stand for.
 */
module Names {

  /** Lexicographic, a proper prefix first. */
  predicate Less(a: string, b: string) {
    if b == "" then false
    else if a == "" then true
    else a[0] < b[0] || (a[0] == b[0] && Less(a[1..], b[1..]))
  }

  lemma {:induction false} LessIsTotal(a: string, b: string)
    ensures a == b || Less(a, b) || Less(b, a)
    decreases |a|
  {
    if a != "" && b != "" && a[0] == b[0] {
      LessIsTotal(a[1..], b[1..]);
      if a[1..] == b[1..] { assert a == [a[0]] + a[1..] && b == [b[0]] + b[1..]; }
    }
  }

  lemma {:induction false} LessIsStrict(a: string, b: string)
    ensures !(Less(a, b) && Less(b, a)) && !Less(a, a)
    decreases |a|
  {
    if a != "" {
      LessIsStrict(a[1..], a[1..]);
      if b != "" { LessIsStrict(a[1..], b[1..]); }
    }
  }

  lemma {:induction false} LessIsTransitive(a: string, b: string, c: string)
    requires Less(a, b) && Less(b, c)
    ensures Less(a, c)
    decreases |a|
  {
    if a != "" && a[0] == b[0] == c[0] { LessIsTransitive(a[1..], b[1..], c[1..]); }
  }

  ghost predicate IsLeast(s: set<string>, k: string) { k in s && forall x :: x in s ==> x == k || Less(k, x) }

  lemma {:induction false} LeastExists(s: set<string>) returns (k: string)
    requires s != {}
    ensures IsLeast(s, k)
  {
    var x :| x in s;
    if s == {x} {
      k := x;
    } else {
      var rest := s - {x};
      assert s == {x} + rest;
      var m := LeastExists(rest);
      LessIsTotal(x, m);
      k := if Less(x, m) then x else m;
      forall y | y in s ensures y == k || Less(k, y) {
        if y in rest && y != m && Less(x, m) { LessIsTransitive(x, m, y); }
      }
    }
  }

  lemma {:induction false} HasLeast(s: set<string>)
    requires s != {}
    ensures exists k :: IsLeast(s, k)
  {
    var k := LeastExists(s);
  }

  lemma {:induction false} LeastIsUnique(s: set<string>, a: string, b: string)
    requires IsLeast(s, a) && IsLeast(s, b)
    ensures a == b
  {
    LessIsStrict(a, b);
  }

  ghost function Least(s: set<string>): (k: string)
    requires s != {}
    ensures IsLeast(s, k)
  {
    HasLeast(s);
    var k :| IsLeast(s, k);
    k
  }

  // ---------------------------------------------------------------- walking an ordered map

  ghost predicate Ascending(ks: seq<string>) { forall i, j :: 0 <= i < j < |ks| ==> Less(ks[i], ks[j]) }

  /** The keys in the order an ordered map is walked in. */
  ghost predicate IsWalk(ks: seq<string>, s: set<string>) {
    Ascending(ks) && forall k :: k in ks <==> k in s
  }

  lemma {:induction false} WalkHasNoRepeats(ks: seq<string>, i: nat, j: nat)
    requires Ascending(ks) && i < |ks| && j < |ks| && ks[i] == ks[j]
    ensures i == j
  {
    LessIsStrict(ks[i], ks[j]);
  }

  lemma {:induction false} WalkStartsLeast(ks: seq<string>, s: set<string>)
    requires IsWalk(ks, s) && s != {}
    ensures ks != [] && IsLeast(s, ks[0])
  {
    var x :| x in s;
    assert x in ks;
  }

  lemma {:induction false} HeadIsMember(ks: seq<string>)
    requires ks != []
    ensures ks[0] in ks
  {
  }

  lemma {:induction false} NothingToWalk(ks: seq<string>)
    requires forall k :: k !in ks
    ensures ks == []
  {
    if ks != [] { HeadIsMember(ks); }
  }

  /** Two walks of one map agree. */
  lemma {:induction false} WalkIsUnique(a: seq<string>, b: seq<string>, s: set<string>)
    requires IsWalk(a, s) && IsWalk(b, s)
    ensures a == b
    decreases |a|
  {
    if s == {} {
      NothingToWalk(a);
      NothingToWalk(b);
    } else {
      WalkStartsLeast(a, s);
      WalkStartsLeast(b, s);
      LeastIsUnique(s, a[0], b[0]);
      WalkTail(a, s);
      WalkTail(b, s);
      WalkIsUnique(a[1..], b[1..], s - {a[0]});
      assert a == [a[0]] + a[1..] && b == [b[0]] + b[1..];
    }
  }

  lemma {:induction false} WalkTail(ks: seq<string>, s: set<string>)
    requires IsWalk(ks, s) && ks != []
    ensures IsWalk(ks[1..], s - {ks[0]})
  {
    assert ks == [ks[0]] + ks[1..];
    forall k | k in ks[1..] ensures k in s && k != ks[0] {
      var i :| 0 <= i < |ks[1..]| && ks[1..][i] == k;
      assert ks[i + 1] == k && k in ks;
      if k == ks[0] { WalkHasNoRepeats(ks, 0, i + 1); }
    }
  }

  /** begin(): the least key. */
  method First(s: set<string>) returns (k: string)
    requires s != {}
    ensures IsLeast(s, k)
  {
    k :| k in s;
    var rest := s - {k};
    while rest != {}
      invariant k in s && rest <= s && forall x :: x in s && x !in rest ==> x == k || Less(k, x)
      decreases |rest|
    {
      var x :| x in rest;
      LessIsTotal(x, k);
      if Less(x, k) {
        forall y | y in s && y !in rest && y != k ensures Less(x, y) { LessIsTransitive(x, k, y); }
        k := x;
      }
      rest := rest - {x};
    }
  }

  /** Every key in order. */
  method Walk(s: set<string>) returns (ks: seq<string>)
    ensures IsWalk(ks, s)
  {
    ks := [];
    var rest := s;
    while rest != {}
      invariant rest <= s && Ascending(ks)
      invariant forall k :: k in ks <==> k in s && k !in rest
      invariant forall a, b :: a in ks && b in rest ==> Less(a, b)
      decreases |rest|
    {
      var k := First(rest);
      ks := ks + [k];
      rest := rest - {k};
    }
  }
}
