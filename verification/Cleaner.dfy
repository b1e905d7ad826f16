/** The cleaner itself: its key map, its rewrite of one segment, and a whole pass over one log. */
module Cleaner {
  import opened Prelude
  import opened Records
  import opened Segments
  import opened ActiveSegments
  import opened Sealed
  import opened Logs
  import opened Cleaning
  import C = Compaction

  // ------------------------------------------------------------------------ the key map

  class KeyOffsetMap {
    const config: C.Config
    var entries: C.KeyMap

    constructor (config: C.Config)
      ensures this.config == config && entries == map[]
    {
      this.config, entries := config, map[];
    }

    /** Remembers the newest offset of a key; a full map refuses new keys but still updates known ones. */
    method Put(key: Bytes, offset: int) returns (taken: bool)
      modifies this
      ensures (entries, taken) == C.Put(config, old(entries), key, offset)
    {
      var d := config.digest(key);
      if d in entries {
        if offset > entries[d] { entries := entries[d := offset]; }
        return true;
      }
      if |entries| >= config.maxEntries { return false; }
      entries := entries[d := offset];
      return true;
    }
  }

  lemma {:induction false} PutAllConcat(c: C.Config, m: C.KeyMap, a: seq<Record>, b: seq<Record>)
    ensures var (m', taken) := C.PutAll(c, m, a);
            C.PutAll(c, m, a + b) == if taken then C.PutAll(c, m', b) else (m', false)
    decreases |a|
  {
    if a == [] {
      assert a + b == b;
    } else {
      assert (a + b)[1..] == a[1..] + b;
      if a[0].key.None? {
        PutAllConcat(c, m, a[1..], b);
      } else {
        PutAllConcat(c, C.Put(c, m, a[0].key.value, a[0].offset).0, a[1..], b);
      }
    }
  }

  method MapBatch(keys: KeyOffsetMap, rs: seq<Record>) returns (refused: bool)
    modifies keys
    ensures (keys.entries, !refused) == C.PutAll(keys.config, old(keys.entries), rs)
  {
    ghost var all := C.PutAll(keys.config, keys.entries, rs);
    var rest := rs;
    while rest != []
      invariant C.PutAll(keys.config, keys.entries, rest) == all
      decreases |rest|
    {
      if rest[0].key.Some? {
        var taken := keys.Put(rest[0].key.value, rest[0].offset);
        if !taken { return true; }
      }
      rest := rest[1..];
    }
    return false;
  }

  /** The mapping scan over one file: every keyed record in order, until the budget refuses one. */
  method MapFile(keys: KeyOffsetMap, bs: seq<Batch>) returns (refused: bool)
    modifies keys
    ensures (keys.entries, !refused) == C.PutAll(keys.config, old(keys.entries), RecordsOf(bs))
  {
    ghost var all := C.PutAll(keys.config, keys.entries, RecordsOf(bs));
    var rest := bs;
    while rest != []
      invariant C.PutAll(keys.config, keys.entries, RecordsOf(rest)) == all
      decreases |rest|
    {
      PutAllConcat(keys.config, keys.entries, rest[0].records, RecordsOf(rest[1..]));
      refused := MapBatch(keys, rest[0].records);
      if refused { return; }
      rest := rest[1..];
    }
    return false;
  }

  // ----------------------------------------------------------------- one segment's rewrite

  /** Whether rewriting this file would remove anything. */
  method WouldDropAnything(bs: seq<Batch>, keep: Record -> bool) returns (any: bool)
    ensures any <==> |Filter(RecordsOf(bs), keep)| != |RecordsOf(bs)|
  {
    ghost var rs := RecordsOf(bs);
    FilterFixed(rs, keep);
    var i := 0;
    while i < |bs|
      invariant i <= |bs| && Filter(RecordsOf(bs[..i]), keep) == RecordsOf(bs[..i])
    {
      var any := AnyDropped(bs[i].records, keep);
      assert bs[..i + 1] == bs[..i] + [bs[i]];
      RecordsSnoc(bs[..i], bs[i]);
      FilterConcat(RecordsOf(bs[..i]), bs[i].records, keep);
      if any {
        assert bs[..i + 1] + bs[i + 1..] == bs;
        RecordsConcat(bs[..i + 1], bs[i + 1..]);
        FilterConcat(RecordsOf(bs[..i + 1]), RecordsOf(bs[i + 1..]), keep);
        FilterShorter(RecordsOf(bs[i + 1..]), keep);
        return true;
      }
      i := i + 1;
    }
    assert bs[..i] == bs;
    return false;
  }

  lemma {:induction false} FilterShorter(rs: seq<Record>, keep: Record -> bool)
    ensures |Filter(rs, keep)| <= |rs|
  {
  }

  method AnyDropped(rs: seq<Record>, keep: Record -> bool) returns (any: bool)
    ensures !any ==> Filter(rs, keep) == rs
    ensures any ==> |Filter(rs, keep)| < |rs|
  {
    var i := 0;
    while i < |rs|
      invariant i <= |rs| && forall k :: 0 <= k < i ==> keep(rs[k])
    {
      if !keep(rs[i]) {
        FilterFixed(rs, keep);
        return true;
      }
      i := i + 1;
    }
    FilterAll(rs, keep);
    return false;
  }

  /** The survivors of one batch, in order. */
  method Survivors(rs: seq<Record>, keep: Record -> bool) returns (kept: seq<Record>)
    ensures kept == Filter(rs, keep)
  {
    kept := [];
    var i := 0;
    while i < |rs|
      invariant i <= |rs| && kept == Filter(rs[..i], keep)
    {
      assert rs[..i + 1][..i] == rs[..i];
      if keep(rs[i]) { kept := kept + [rs[i]]; }
      i := i + 1;
    }
    assert rs[..i] == rs;
  }

  lemma {:induction false} CleanOfNext(sizeOf: seq<Record> -> nat, keep: Record -> bool, bs: seq<Batch>, i: nat)
    requires i < |bs|
    ensures var kept, sofar := Filter(bs[i].records, keep), CleanBatches(sizeOf, keep, bs[..i]);
            CleanBatches(sizeOf, keep, bs[..i + 1]) == if kept == [] then sofar else sofar + [NewBatch(sizeOf, kept)]
  {
    assert bs[..i + 1][..i] == bs[..i];
  }

  /** An append that fails part-way through the clean batches fails over all of them. */
  lemma {:induction false} FailureStays(
    policy: Policy, base: int, sizeOf: seq<Record> -> nat, keep: Record -> bool, bs: seq<Batch>, n: nat)
    requires n <= |bs| && AppendAll(policy, base, CleanBatches(sizeOf, keep, bs[..n])).None?
    ensures AppendAll(policy, base, CleanBatches(sizeOf, keep, bs)).None?
  {
    var some, all := CleanBatches(sizeOf, keep, bs[..n]), CleanBatches(sizeOf, keep, bs);
    CleanOfPrefix(sizeOf, keep, bs, n);
    assert all[..|some|] == some;
    if AppendAll(policy, base, all).Some? { AppendsPrefix(policy, base, all, |some|); }
  }

  /**
   rewriteSegment. The batches written hold exactly the surviving records, and the sparse index grown
   beside them is the one a live segment appending those batches would have grown. None is an index
   append that throws, or a position past what the index's 32 bits can name.
   */
  method RewriteSegment(policy: Policy, base: int, bs: seq<Batch>, sizeOf: seq<Record> -> nat, keep: Record -> bool)
    returns (out: seq<Batch>, derived: Option<Derived>)
    ensures derived.Some? ==> out == CleanBatches(sizeOf, keep, bs)
    ensures derived == AppendAll(policy, base, CleanBatches(sizeOf, keep, bs))
  {
    out, derived := [], Some(Derived([], 0, base, -1));
    var i := 0;
    while i < |bs|
      invariant i <= |bs| && out == CleanBatches(sizeOf, keep, bs[..i])
      invariant derived.Some? && derived == AppendAll(policy, base, out)
    {
      CleanOfNext(sizeOf, keep, bs, i);
      var kept := Survivors(bs[i].records, keep);
      if kept != [] {
        var b := NewBatch(sizeOf, kept);
        AppendSnoc(policy, base, out, b);
        derived := AppendOne(policy, base, derived.value, Total(out), b);
        out := out + [b];
        if derived.None? {
          FailureStays(policy, base, sizeOf, keep, bs, i + 1);
          return;
        }
      }
      i := i + 1;
    }
    assert bs[..i] == bs;
  }

  /** SealedSegment::open on a file and the index beside it. */
  method OpenSealed(base: int, bs: seq<Batch>, index: seq<Entry>) returns (g: SealedSegment)
    requires Ordered(base, bs) && ValidIndex(base, bs, index) && bs != []
    requires forall e :: e in index ==> e.relative <= MAX_UINT32
    ensures Opened(g) && g.base == base && g.batches == bs && g.index == index
  {
    var next, largest, from := DeriveEndState(base, bs, index);
    g := SealedSegment(base, bs, index, next, largest);
  }
}
