/** Decoded records, and the value a log of them gives each key. */
module Records {
  // Offsets and timestamps are absolute, as `Record::offsetFrom` and `Record::timestampFrom` give them.

  import opened Prelude

  datatype Header = Header(key: Bytes, value: Option<Bytes>)

  datatype Record = Record(
    offset: int,
    timestampMs: int,
    key: Option<Bytes>,
    value: Option<Bytes>,
    headers: seq<Header>)

  predicate IsTombstone(r: Record) { r.value.None? }

  /** The latest timestamp of these records. */
  function LatestStamp(rs: seq<Record>): int
    requires rs != []
  {
    if |rs| == 1 then rs[0].timestampMs else Max(rs[0].timestampMs, LatestStamp(rs[1..]))
  }

  ghost predicate Increasing(rs: seq<Record>) {
    forall i, j :: 0 <= i < j < |rs| ==> rs[i].offset < rs[j].offset
  }

  ghost predicate Within(rs: seq<Record>, lo: int, hi: int) {
    forall i :: 0 <= i < |rs| ==> lo <= rs[i].offset < hi
  }

  /** One record applied to a key view: last write wins, a null value forgets the key. */
  function Apply(view: map<Bytes, Bytes>, r: Record): map<Bytes, Bytes> {
    match r.key
    case None => view
    case Some(k) => if IsTombstone(r) then view - {k} else view[k := r.value.value]
  }

  /** The key view of a log: what reading it from the beginning leaves behind. */
  function View(rs: seq<Record>): map<Bytes, Bytes> {
    if rs == [] then map[] else Apply(View(rs[..|rs| - 1]), rs[|rs| - 1])
  }

  /** Record i is the newest record of its key. */
  ghost predicate IsNewest(rs: seq<Record>, i: int)
    requires 0 <= i < |rs|
  {
    rs[i].key.Some? && forall j :: i < j < |rs| ==> rs[j].key != rs[i].key
  }

  lemma {:induction false} ViewOfNewest(rs: seq<Record>, i: int)
    requires 0 <= i < |rs| && IsNewest(rs, i)
    ensures rs[i].key.value in View(rs) <==> !IsTombstone(rs[i])
    ensures !IsTombstone(rs[i]) ==> View(rs)[rs[i].key.value] == rs[i].value.value
  {
    if i < |rs| - 1 {
      ViewOfNewest(rs[..|rs| - 1], i);
      assert rs[|rs| - 1].key != rs[i].key;
    }
  }

  lemma {:induction false} ViewOfAbsent(rs: seq<Record>, k: Bytes)
    requires forall i :: 0 <= i < |rs| ==> rs[i].key != Some(k)
    ensures k !in View(rs)
  {
    if rs != [] { ViewOfAbsent(rs[..|rs| - 1], k); }
  }

  /** Either no record carries k, or the newest one that does has an index. */
  lemma {:induction false} NewestExists(rs: seq<Record>, k: Bytes) returns (at: Option<int>)
    ensures at.None? ==> forall i :: 0 <= i < |rs| ==> rs[i].key != Some(k)
    ensures at.Some? ==> 0 <= at.value < |rs| && rs[at.value].key == Some(k) && IsNewest(rs, at.value)
  {
    if rs == [] {
      at := None;
    } else if rs[|rs| - 1].key == Some(k) {
      at := Some(|rs| - 1);
    } else {
      at := NewestExists(rs[..|rs| - 1], k);
    }
  }

  // ------------------------------------------------------------------ filtering

  function Filter(rs: seq<Record>, keep: Record -> bool): (out: seq<Record>)
    ensures |out| <= |rs|
  {
    if rs == [] then []
    else
      var front := Filter(rs[..|rs| - 1], keep);
      if keep(rs[|rs| - 1]) then front + [rs[|rs| - 1]] else front
  }

  lemma {:induction false} FilterMembers(rs: seq<Record>, keep: Record -> bool)
    ensures forall r :: r in Filter(rs, keep) <==> r in rs && keep(r)
  {
    if rs != [] {
      FilterMembers(rs[..|rs| - 1], keep);
      assert rs == rs[..|rs| - 1] + [rs[|rs| - 1]];
    }
  }

  lemma {:induction false} FilterIncreasing(rs: seq<Record>, keep: Record -> bool, lo: int, hi: int)
    requires Increasing(rs) && Within(rs, lo, hi)
    ensures Increasing(Filter(rs, keep)) && Within(Filter(rs, keep), lo, hi)
  {
    if rs != [] {
      var init := rs[..|rs| - 1];
      FilterIncreasing(init, keep, lo, rs[|rs| - 1].offset);
    }
  }

  lemma {:induction false} FilterConcat(a: seq<Record>, b: seq<Record>, keep: Record -> bool)
    ensures Filter(a + b, keep) == Filter(a, keep) + Filter(b, keep)
  {
    if b == [] {
      assert a + b == a;
    } else {
      var c := a + b;
      assert c[..|c| - 1] == a + b[..|b| - 1];
      FilterConcat(a, b[..|b| - 1], keep);
    }
  }

  lemma {:induction false} FilterAgrees(rs: seq<Record>, p: Record -> bool, q: Record -> bool)
    requires forall i :: 0 <= i < |rs| ==> p(rs[i]) == q(rs[i])
    ensures Filter(rs, p) == Filter(rs, q)
  {
    if rs != [] { FilterAgrees(rs[..|rs| - 1], p, q); }
  }

  lemma {:induction false} FilterAll(rs: seq<Record>, keep: Record -> bool)
    requires forall i :: 0 <= i < |rs| ==> keep(rs[i])
    ensures Filter(rs, keep) == rs
  {
    if rs != [] { FilterAll(rs[..|rs| - 1], keep); }
  }

  /** A filter that changes nothing kept everything. */
  lemma {:induction false} FilterFixed(rs: seq<Record>, keep: Record -> bool)
    ensures |Filter(rs, keep)| == |rs| ==> forall i :: 0 <= i < |rs| ==> keep(rs[i])
  {
    if rs != [] { FilterFixed(rs[..|rs| - 1], keep); }
  }

  // ------------------------------------------------- when filtering is invisible

  lemma {:induction false} FilteredNewest(rs: seq<Record>, keep: Record -> bool, i: int)
    requires 0 <= i < |rs| && IsNewest(rs, i) && keep(rs[i])
    ensures var k := rs[i].key.value;
            (k in View(Filter(rs, keep)) <==> !IsTombstone(rs[i])) &&
            (!IsTombstone(rs[i]) ==> View(Filter(rs, keep))[k] == rs[i].value.value)
  {
    var front := Filter(rs[..|rs| - 1], keep);
    if keep(rs[|rs| - 1]) {
      assert (front + [rs[|rs| - 1]])[..|front|] == front;
    }
    if i < |rs| - 1 {
      assert rs[|rs| - 1].key != rs[i].key;
      FilteredNewest(rs[..|rs| - 1], keep, i);
    }
  }

  lemma {:induction false} FilteredAbsent(rs: seq<Record>, keep: Record -> bool, k: Bytes)
    requires forall i :: 0 <= i < |rs| && keep(rs[i]) ==> rs[i].key != Some(k)
    ensures k !in View(Filter(rs, keep))
  {
    FilterMembers(rs, keep);
    var out := Filter(rs, keep);
    forall i | 0 <= i < |out| ensures out[i].key != Some(k) {
      assert out[i] in out;
      var j :| 0 <= j < |rs| && rs[j] == out[i];
    }
    ViewOfAbsent(out, k);
  }

  /**
   Record i may be dropped: a newer record of its key exists, or it is a tombstone and
   every older record of its key is dropped along with it.
   */
  ghost predicate SafeToDrop(rs: seq<Record>, keep: Record -> bool, i: int)
    requires 0 <= i < |rs|
  {
    && rs[i].key.Some?
    && ((exists j :: i < j < |rs| && rs[j].key == rs[i].key)
        || (IsTombstone(rs[i]) && forall j :: 0 <= j < i && rs[j].key == rs[i].key ==> !keep(rs[j])))
  }

  lemma {:induction false} SafeFilterKeepsView(rs: seq<Record>, keep: Record -> bool)
    requires forall i :: 0 <= i < |rs| && !keep(rs[i]) ==> SafeToDrop(rs, keep, i)
    ensures View(Filter(rs, keep)) == View(rs)
  {
    var before, after := View(rs), View(Filter(rs, keep));
    forall k: Bytes
      ensures (k in before <==> k in after) && (k in before ==> before[k] == after[k])
    {
      var at := NewestExists(rs, k);
      if at.None? {
        ViewOfAbsent(rs, k);
        FilteredAbsent(rs, keep, k);
      } else {
        ViewOfNewest(rs, at.value);
        if keep(rs[at.value]) {
          FilteredNewest(rs, keep, at.value);
        } else {
          assert SafeToDrop(rs, keep, at.value);
          FilteredAbsent(rs, keep, k);
        }
      }
    }
  }

  /** Reading on from equal views gives equal views. */
  lemma {:induction false} ViewExtends(a: seq<Record>, b: seq<Record>, more: seq<Record>)
    requires View(a) == View(b)
    ensures View(a + more) == View(b + more)
  {
    if more == [] {
      assert a + more == a && b + more == b;
    } else {
      var init := more[..|more| - 1];
      ViewExtends(a, b, init);
      assert (a + more)[..|a + more| - 1] == a + init;
      assert (b + more)[..|b + more| - 1] == b + init;
    }
  }
}
