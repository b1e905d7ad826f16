/** A file of self-describing batches, whatever the batch format. */
module Framing {
  // How it is walked, where the walk stops, and what rewriting it does to the items it holds.

  import opened Prelude

  /** How long a batch says it is, whether it is undamaged, and the items it holds. */
  datatype Format<!T> = Format(
    total: Bytes -> Option<nat>,
    intact: Bytes -> bool,
    read: Bytes -> Option<seq<T>>)

  /** A length never depends on bytes after the first `header`, and is never shorter than that. */
  ghost predicate Legal<T>(f: Format<T>, header: nat) {
    && 0 < header
    && (forall b :: f.total(b).Some? ==> header <= f.total(b).value)
    && (forall b: Bytes, rest: Bytes :: header <= |b| ==> f.total(b + rest) == f.total(b))
  }

  /** Complete batches from the front of a file, stopping at the first that is torn or damaged. */
  function Scan<T>(f: Format<T>, header: nat, file: Bytes): seq<Bytes>
    requires Legal(f, header)
    decreases |file|
  {
    if |file| < header then []
    else
      match f.total(file)
      case None => []
      case Some(total) =>
        if |file| < total || !f.intact(file[..total]) then []
        else [file[..total]] + Scan(f, header, file[total..])
  }

  /** One turn of the walk, at any position: a batch and the rest, or the end. */
  lemma {:induction false} ScanFrom<T>(f: Format<T>, header: nat, file: Bytes, position: nat)
    requires Legal(f, header) && position <= |file|
    ensures var rest := file[position..];
            Scan(f, header, rest) ==
              if |rest| < header || f.total(rest).None? || |rest| < f.total(rest).value then []
              else
                var n := f.total(rest).value;
                if f.intact(rest[..n]) then [rest[..n]] + Scan(f, header, file[position + n..]) else []
  {
    var rest := file[position..];
    if header <= |rest| && f.total(rest).Some? && f.total(rest).value <= |rest| {
      assert rest[f.total(rest).value..] == file[position + f.total(rest).value..];
    }
  }

  method ScanFile<T>(f: Format<T>, header: nat, file: Bytes) returns (batches: seq<Bytes>)
    requires Legal(f, header)
    ensures batches == Scan(f, header, file)
  {
    batches := [];
    var position := 0;
    ghost var all := Scan(f, header, file);
    assert file[0..] == file;
    while position + header <= |file|
      invariant position <= |file| && batches + Scan(f, header, file[position..]) == all
    {
      ScanFrom(f, header, file, position);
      var rest := file[position..];
      var total := f.total(rest);
      if total.None? || |file| < position + total.value { return; }
      var batch := rest[..total.value];
      if !f.intact(batch) { return; }
      Associate(batches, [batch], Scan(f, header, file[position + total.value..]));
      batches := batches + [batch];
      position := position + total.value;
    }
  }

  function Flatten(bs: seq<Bytes>): Bytes {
    if bs == [] then [] else bs[0] + Flatten(bs[1..])
  }

  predicate Whole<T>(f: Format<T>, b: Bytes) { f.total(b) == Some(|b|) && f.intact(b) }

  lemma {:induction false} ScanOne<T>(f: Format<T>, header: nat, b: Bytes, rest: Bytes)
    requires Legal(f, header) && Whole(f, b)
    ensures Scan(f, header, b + rest) == [b] + Scan(f, header, rest)
  {
    assert f.total(b + rest) == f.total(b);
    assert (b + rest)[..|b|] == b && (b + rest)[|b|..] == rest;
  }

  lemma {:induction false} PutBack<T>(xs: seq<T>, ys: seq<T>)
    requires xs != []
    ensures [xs[0]] + (xs[1..] + ys) == xs + ys
  {
  }

  lemma {:induction false} FlattenFirst(bs: seq<Bytes>, tail: Bytes)
    requires bs != []
    ensures Flatten(bs) + tail == bs[0] + (Flatten(bs[1..]) + tail)
  {
  }

  /** Walking any concatenation of batches gives back its parts, then whatever the tail scans to. */
  lemma {:induction false} ScanParts<T>(f: Format<T>, header: nat, bs: seq<Bytes>, tail: Bytes)
    requires Legal(f, header)
    requires forall i :: 0 <= i < |bs| ==> Whole(f, bs[i])
    ensures Scan(f, header, Flatten(bs) + tail) == bs + Scan(f, header, tail)
    decreases |bs|
  {
    if bs == [] {
      assert Flatten(bs) + tail == tail;
    } else {
      var rest := Flatten(bs[1..]) + tail;
      FlattenFirst(bs, tail);
      ScanOne(f, header, bs[0], rest);
      ScanParts(f, header, bs[1..], tail);
      PutBack(bs, Scan(f, header, tail));
    }
  }

  /** A batch cut short scans to nothing, wherever it is cut. */
  lemma {:induction false} TornTailIsIgnored<T>(f: Format<T>, header: nat, b: Bytes, cut: nat)
    requires Legal(f, header) && Whole(f, b) && cut < |b|
    ensures Scan(f, header, b[..cut]) == []
  {
    if header <= cut {
      assert b == b[..cut] + b[cut..];
    }
  }

  /** What a scan finds is whole. */
  lemma {:induction false} ScannedAreWhole<T>(f: Format<T>, header: nat, file: Bytes)
    requires Legal(f, header)
    ensures forall i :: 0 <= i < |Scan(f, header, file)| ==> Whole(f, Scan(f, header, file)[i])
    decreases |file|
  {
    if header <= |file| && f.total(file).Some? {
      var total := f.total(file).value;
      if total <= |file| && f.intact(file[..total]) {
        assert file == file[..total] + file[total..];
        ScannedAreWhole(f, header, file[total..]);
      }
    }
  }

  // ----------------------------------------------------------------------- the items

  /** Every item of these batches, in order; a batch that does not decode throws. */
  function Items<T>(f: Format<T>, bs: seq<Bytes>): Option<seq<T>> {
    if bs == [] then Some([])
    else
      match f.read(bs[0])
      case None => None
      case Some(here) =>
        match Items(f, bs[1..])
        case None => None
        case Some(more) => Some(here + more)
  }

  lemma {:induction false} ItemsConcat<T>(f: Format<T>, a: seq<Bytes>, b: seq<Bytes>)
    requires Items(f, a).Some? && Items(f, b).Some?
    ensures Items(f, a + b) == Some(Items(f, a).value + Items(f, b).value)
    decreases |a|
  {
    if a == [] {
      assert a + b == b;
      assert [] + Items(f, b).value == Items(f, b).value;
    } else {
      assert (a + b)[1..] == a[1..] + b;
      ItemsConcat(f, a[1..], b);
      var x, y, z := f.read(a[0]).value, Items(f, a[1..]).value, Items(f, b).value;
      assert (x + y) + z == x + (y + z);
    }
  }

  /** These batches are whole and hold exactly these items. */
  predicate Holds<T(==)>(f: Format<T>, bs: seq<Bytes>, items: seq<T>) {
    Items(f, bs) == Some(items) && forall i :: 0 <= i < |bs| ==> Whole(f, bs[i])
  }

  lemma {:induction false} HoldsConcat<T>(f: Format<T>, a: seq<Bytes>, x: seq<T>, b: seq<Bytes>, y: seq<T>)
    requires Holds(f, a, x) && Holds(f, b, y)
    ensures Holds(f, a + b, x + y)
  {
    ItemsConcat(f, a, b);
  }
}
