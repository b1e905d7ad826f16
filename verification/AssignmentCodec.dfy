/**
 A member's assignment on the wire: partitions grouped by topic, topics in order.
 Encoded, then decoded, it is its own stable grouping.
 */
module AssignmentCodec {
  import opened Prelude
  import opened Names
  import opened Buffer
  import opened Wire
  import opened Assignor
  import opened RecordFields

  const VERSION := 1

  /** One topic's partitions, in the order they were given. */
  function Only(held: seq<TopicPartition>, topic: string): seq<int> {
    if held == [] then []
    else
      var front, tp := Only(held[..|held| - 1], topic), held[|held| - 1];
      if tp.topic == topic then front + [tp.partition] else front
  }

  function Topics(held: seq<TopicPartition>): set<string> { set tp | tp in held :: tp.topic }

  datatype Entry = Entry(topic: string, partitions: seq<int>)

  function Entries(held: seq<TopicPartition>, topics: seq<string>): (es: seq<Entry>)
    ensures |es| == |topics| && forall i :: 0 <= i < |es| ==> es[i] == Entry(topics[i], Only(held, topics[i]))
  {
    seq(|topics|, i requires 0 <= i < |topics| => Entry(topics[i], Only(held, topics[i])))
  }

  function Expand(e: Entry): (out: seq<TopicPartition>)
    ensures |out| == |e.partitions| && forall i :: 0 <= i < |out| ==> out[i] == TopicPartition(e.topic, e.partitions[i])
  {
    seq(|e.partitions|, i requires 0 <= i < |e.partitions| => TopicPartition(e.topic, e.partitions[i]))
  }

  function ExpandAll(es: seq<Entry>): seq<TopicPartition> {
    if es == [] then [] else Expand(es[0]) + ExpandAll(es[1..])
  }

  // --------------------------------------------------------------------------- encoding

  predicate FitsPartitions(ps: seq<int>) { forall i :: 0 <= i < |ps| ==> Fits(ps[i], INT32) }

  predicate FitsEntry(e: Entry) {
    Narrow(e.topic) && |e.topic| <= MAX_INT16 && FitsPartitions(e.partitions) && Fits(|e.partitions|, INT32)
  }

  predicate FitsEntries(es: seq<Entry>) { forall i :: 0 <= i < |es| ==> FitsEntry(es[i]) }

  function PutPartitions(ps: seq<int>): (s: Bytes)
    requires FitsPartitions(ps)
    ensures |s| == 4 * |ps|
  {
    if ps == [] then [] else Put(ps[0], INT32) + PutPartitions(ps[1..])
  }

  function PutEntry(e: Entry): (s: Bytes)
    requires FitsEntry(e)
    ensures 0 < |s|
  {
    PutString(e.topic) + (Put(|e.partitions|, INT32) + PutPartitions(e.partitions))
  }

  function PutEntries(es: seq<Entry>): (s: Bytes)
    requires FitsEntries(es)
    ensures |es| <= |s|
  {
    if es == [] then [] else PutEntry(es[0]) + PutEntries(es[1..])
  }

  function Encode(es: seq<Entry>): Bytes
    requires FitsEntries(es) && Fits(|es|, INT32)
  {
    Put(VERSION, INT16) + (Put(|es|, INT32) + PutEntries(es))
  }

  // --------------------------------------------------------------------------- decoding

  function TakePartition(s: Bytes): Option<(int, Bytes)> { TakeInt(s, INT32) }

  function TakeEntry(s: Bytes): Option<(Entry, Bytes)> {
    match TakeString(s)
    case None => None
    case Some((topic, rest)) =>
      match TakeCount(rest)
      case None => None
      case Some((n, rest')) =>
        match TakeMany(TakePartition, rest', n)
        case None => None
        case Some((ps, rest'')) => Some((Entry(topic, ps), rest''))
  }

  /** The topics, past the version; anything left over is corrupt. */
  function DecodeTopics(s: Bytes): Option<seq<TopicPartition>> {
    match TakeCount(s)
    case None => None
    case Some((n, rest)) =>
      match TakeMany(TakeEntry, rest, n)
      case None => None
      case Some((es, rest')) => if rest' == [] then Some(ExpandAll(es)) else None
  }

  /** No bytes at all is an empty assignment. */
  function Decode(s: Bytes): Option<seq<TopicPartition>> {
    if s == [] then Some([])
    else
      match TakeInt(s, INT16)
      case None => None
      case Some((version, rest)) => if version != VERSION then None else DecodeTopics(rest)
  }

  // ------------------------------------------------------------------------- round trip

  lemma {:induction false} TakePutPartitions(ps: seq<int>, rest: Bytes)
    requires FitsPartitions(ps)
    ensures TakeMany(TakePartition, PutPartitions(ps) + rest, |ps|) == Some((ps, rest))
    decreases |ps|
  {
    if ps == [] {
      assert PutPartitions(ps) + rest == rest;
    } else {
      Associate(Put(ps[0], INT32), PutPartitions(ps[1..]), rest);
      TakePutInt(ps[0], INT32, PutPartitions(ps[1..]) + rest);
      TakePutPartitions(ps[1..], rest);
      assert [ps[0]] + ps[1..] == ps;
    }
  }

  lemma {:induction false} TakePutCount(n: nat, rest: Bytes)
    requires Fits(n, INT32) && n <= |rest|
    ensures TakeCount(Put(n, INT32) + rest) == Some((n, rest))
  {
    TakePutInt(n, INT32, rest);
  }

  lemma {:induction false} TakePutEntry(e: Entry, rest: Bytes)
    requires FitsEntry(e)
    ensures TakeEntry(PutEntry(e) + rest) == Some((e, rest))
  {
    var count, ps := Put(|e.partitions|, INT32), PutPartitions(e.partitions);
    Associate(PutString(e.topic), count + ps, rest);
    Associate(count, ps, rest);
    TakePutString(e.topic, count + (ps + rest));
    TakePutCount(|e.partitions|, ps + rest);
    TakePutPartitions(e.partitions, rest);
  }

  lemma {:induction false} TakePutEntries(es: seq<Entry>, rest: Bytes)
    requires FitsEntries(es)
    ensures TakeMany(TakeEntry, PutEntries(es) + rest, |es|) == Some((es, rest))
    decreases |es|
  {
    if es == [] {
      assert PutEntries(es) + rest == rest;
    } else {
      Associate(PutEntry(es[0]), PutEntries(es[1..]), rest);
      TakePutEntry(es[0], PutEntries(es[1..]) + rest);
      TakePutEntries(es[1..], rest);
      assert [es[0]] + es[1..] == es;
    }
  }

  lemma {:induction false} EncodedDecodes(es: seq<Entry>)
    requires FitsEntries(es) && Fits(|es|, INT32)
    ensures Decode(Encode(es)) == Some(ExpandAll(es))
  {
    var body := PutEntries(es);
    assert body + [] == body;
    TakePutInt(VERSION, INT16, Put(|es|, INT32) + body);
    TakePutCount(|es|, body);
    TakePutEntries(es, []);
  }

  // ---------------------------------------------------------------- what the grouping keeps

  lemma {:induction false} OnlyConcat(a: seq<TopicPartition>, b: seq<TopicPartition>, t: string)
    ensures Only(a + b, t) == Only(a, t) + Only(b, t)
  {
    if b == [] {
      assert a + b == a;
    } else {
      assert (a + b)[..|a + b| - 1] == a + b[..|b| - 1];
      OnlyConcat(a, b[..|b| - 1], t);
    }
  }

  lemma {:induction false} OnlyOfExpand(e: Entry, t: string)
    ensures Only(Expand(e), t) == if e.topic == t then e.partitions else []
  {
    OnlyOfPrefix(e, t, |e.partitions|);
    assert Expand(e)[..|e.partitions|] == Expand(e) && e.partitions[..|e.partitions|] == e.partitions;
  }

  lemma {:induction false} OnlyOfPrefix(e: Entry, t: string, n: nat)
    requires n <= |e.partitions|
    ensures Only(Expand(e)[..n], t) == if e.topic == t then e.partitions[..n] else []
  {
    if 0 < n {
      OnlyOfPrefix(e, t, n - 1);
      assert Expand(e)[..n][..n - 1] == Expand(e)[..n - 1];
      assert e.partitions[..n] == e.partitions[..n - 1] + [e.partitions[n - 1]];
    }
  }

  lemma {:induction false} OnlyElsewhere(es: seq<Entry>, t: string)
    requires forall i :: 0 <= i < |es| ==> es[i].topic != t
    ensures Only(ExpandAll(es), t) == []
    decreases |es|
  {
    if es != [] {
      OnlyConcat(Expand(es[0]), ExpandAll(es[1..]), t);
      OnlyOfExpand(es[0], t);
      OnlyElsewhere(es[1..], t);
    }
  }

  /** A topic's partitions, expanded among other topics', are the ones its entry holds. */
  lemma {:induction false} OnlyOfExpandAll(es: seq<Entry>, k: nat)
    requires k < |es| && forall i :: 0 <= i < |es| && i != k ==> es[i].topic != es[k].topic
    ensures Only(ExpandAll(es), es[k].topic) == es[k].partitions
    decreases |es|
  {
    var t := es[k].topic;
    OnlyConcat(Expand(es[0]), ExpandAll(es[1..]), t);
    OnlyOfExpand(es[0], t);
    if k == 0 {
      OnlyElsewhere(es[1..], t);
    } else {
      OnlyOfExpandAll(es[1..], k - 1);
    }
  }

  lemma {:induction false} AbsentIsEmpty(held: seq<TopicPartition>, t: string)
    requires forall i :: 0 <= i < |held| ==> held[i].topic != t
    ensures Only(held, t) == []
  {
    if held != [] { AbsentIsEmpty(held[..|held| - 1], t); }
  }

  /** Grouping is stable: each topic keeps its partitions, in the order they were given. */
  lemma {:induction false} GroupingIsStable(held: seq<TopicPartition>, topics: seq<string>, t: string)
    requires IsWalk(topics, Topics(held))
    ensures Only(ExpandAll(Entries(held, topics)), t) == Only(held, t)
  {
    var es := Entries(held, topics);
    WalkNoRepeats(topics);
    if t in topics {
      OnlyOfExpandAll(es, IndexOf(topics, t));
    } else {
      OnlyElsewhere(es, t);
      AbsentIsEmpty(held, t);
    }
  }

  lemma {:induction false} OnlyMembers(held: seq<TopicPartition>, t: string)
    ensures forall p :: p in Only(held, t) <==> TopicPartition(t, p) in held
  {
    if held != [] {
      OnlyMembers(held[..|held| - 1], t);
      assert held == held[..|held| - 1] + [held[|held| - 1]];
    }
  }

  /** Two lists that agree topic by topic hold the same partitions. */
  lemma {:induction false} SameMembers(a: seq<TopicPartition>, b: seq<TopicPartition>)
    requires forall t :: Only(a, t) == Only(b, t)
    ensures forall tp :: tp in a <==> tp in b
  {
    forall tp ensures tp in a <==> tp in b {
      OnlyMembers(a, tp.topic);
      OnlyMembers(b, tp.topic);
      assert tp == TopicPartition(tp.topic, tp.partition);
      assert tp.partition in Only(a, tp.topic) <==> tp.partition in Only(b, tp.topic);
    }
  }

  predicate Encodable(held: seq<TopicPartition>) {
    && Fits(|held|, INT32)
    && forall i :: 0 <= i < |held| ==>
         && Narrow(held[i].topic) && |held[i].topic| <= MAX_INT16 && Fits(held[i].partition, INT32)
  }

  lemma {:induction false} OnlyFits(held: seq<TopicPartition>, t: string)
    requires forall i :: 0 <= i < |held| ==> Fits(held[i].partition, INT32)
    ensures FitsPartitions(Only(held, t)) && |Only(held, t)| <= |held|
  {
    if held != [] { OnlyFits(held[..|held| - 1], t); }
  }

  lemma {:induction false} FewTopics(held: seq<TopicPartition>, topics: seq<string>)
    requires IsWalk(topics, Topics(held))
    ensures |topics| <= |held|
  {
    WalkNoRepeats(topics);
    DistinctFit(topics, Topics(held));
    TopicsAreFew(held);
  }

  lemma {:induction false} DistinctFit(ks: seq<string>, s: set<string>)
    requires NoRepeats(ks) && forall k :: k in ks ==> k in s
    ensures |ks| <= |s|
  {
    if ks != [] {
      var init, k := ks[..|ks| - 1], ks[|ks| - 1];
      assert ks == init + [k];
      DistinctFit(init, s - {k});
    }
  }

  lemma {:induction false} TopicsAreFew(held: seq<TopicPartition>)
    ensures |Topics(held)| <= |held|
  {
    if held != [] {
      var init, tp := held[..|held| - 1], held[|held| - 1];
      assert held == init + [tp];
      TopicsAreFew(init);
      assert Topics(held) == Topics(init) + {tp.topic};
    }
  }

  lemma {:induction false} EntriesFit(held: seq<TopicPartition>, topics: seq<string>)
    requires Encodable(held) && IsWalk(topics, Topics(held))
    ensures FitsEntries(Entries(held, topics)) && Fits(|topics|, INT32)
  {
    FewTopics(held, topics);
    forall i | 0 <= i < |topics| ensures FitsEntry(Entries(held, topics)[i]) {
      assert topics[i] in topics;
      var tp :| tp in held && tp.topic == topics[i];
      OnlyFits(held, topics[i]);
    }
  }

  /** What a member decodes is what the leader gave it, grouped by topic, each topic in the order given. */
  lemma {:induction false} AssignmentRoundTrip(held: seq<TopicPartition>, topics: seq<string>)
    requires Encodable(held) && IsWalk(topics, Topics(held))
    ensures var es := Entries(held, topics);
            && FitsEntries(es) && Fits(|es|, INT32)
            && Decode(Encode(es)) == Some(ExpandAll(es))
            && (forall t :: Only(ExpandAll(es), t) == Only(held, t))
            && (forall tp :: tp in ExpandAll(es) <==> tp in held)
  {
    EntriesFit(held, topics);
    EncodedDecodes(Entries(held, topics));
    forall t ensures Only(ExpandAll(Entries(held, topics)), t) == Only(held, t) {
      GroupingIsStable(held, topics, t);
    }
    SameMembers(ExpandAll(Entries(held, topics)), held);
  }

  // ------------------------------------------------------------------------ the encoder

  lemma {:induction false} PutPartitionsSnoc(ps: seq<int>, p: int)
    requires FitsPartitions(ps) && Fits(p, INT32)
    ensures PutPartitions(ps + [p]) == PutPartitions(ps) + Put(p, INT32)
  {
    if ps == [] {
      assert ps + [p] == [p] && [p][1..] == [];
      assert Put(p, INT32) + [] == Put(p, INT32) && [] + Put(p, INT32) == Put(p, INT32);
    } else {
      assert (ps + [p])[1..] == ps[1..] + [p];
      PutPartitionsSnoc(ps[1..], p);
      Associate(Put(ps[0], INT32), PutPartitions(ps[1..]), Put(p, INT32));
    }
  }

  lemma {:induction false} PutEntriesSnoc(es: seq<Entry>, e: Entry)
    requires FitsEntries(es) && FitsEntry(e)
    ensures PutEntries(es + [e]) == PutEntries(es) + PutEntry(e)
  {
    if es == [] {
      assert es + [e] == [e] && [e][1..] == [];
      assert PutEntry(e) + [] == PutEntry(e) && [] + PutEntry(e) == PutEntry(e);
    } else {
      assert (es + [e])[1..] == es[1..] + [e];
      PutEntriesSnoc(es[1..], e);
      Associate(PutEntry(es[0]), PutEntries(es[1..]), PutEntry(e));
    }
  }

  /** The map the encoder groups into. */
  method GroupByTopic(held: seq<TopicPartition>) returns (byTopic: map<string, seq<int>>)
    ensures byTopic.Keys == Topics(held)
    ensures forall t :: t in byTopic ==> byTopic[t] == Only(held, t)
  {
    byTopic := map[];
    var i := 0;
    while i < |held|
      invariant i <= |held| && byTopic.Keys == Topics(held[..i])
      invariant forall t :: t in byTopic ==> byTopic[t] == Only(held[..i], t)
    {
      var tp := held[i];
      assert held[..i + 1][..i] == held[..i] && held[..i + 1] == held[..i] + [tp];
      if tp.topic !in byTopic {
        AbsentIsEmpty(held[..i], tp.topic);
        byTopic := byTopic[tp.topic := []];
      }
      byTopic := byTopic[tp.topic := byTopic[tp.topic] + [tp.partition]];
      i := i + 1;
    }
    assert held[..i] == held;
  }

  method WriteEntry(out: BufferWriter, e: Entry)
    requires !out.taken && FitsEntry(e)
    modifies out
    ensures !out.taken && out.bytes == old(out.bytes) + PutEntry(e)
  {
    ghost var start := out.bytes;
    var _ := WriteString(out, e.topic);
    var _ := out.Write(|e.partitions|, INT32);
    ghost var head := PutString(e.topic) + Put(|e.partitions|, INT32);
    assert out.bytes == start + head;
    var i := 0;
    assert head + PutPartitions(e.partitions[..0]) == head;
    while i < |e.partitions|
      invariant i <= |e.partitions| && !out.taken
      invariant out.bytes == start + (head + PutPartitions(e.partitions[..i]))
    {
      assert e.partitions[..i + 1] == e.partitions[..i] + [e.partitions[i]];
      PutPartitionsSnoc(e.partitions[..i], e.partitions[i]);
      Associate(head, PutPartitions(e.partitions[..i]), Put(e.partitions[i], INT32));
      Associate(start, head + PutPartitions(e.partitions[..i]), Put(e.partitions[i], INT32));
      var _ := out.Write(e.partitions[i], INT32);
      i := i + 1;
    }
    assert e.partitions[..i] == e.partitions;
    Associate(PutString(e.topic), Put(|e.partitions|, INT32), PutPartitions(e.partitions));
  }

  lemma {:induction false} EntryAppended(start: Bytes, es: seq<Entry>, i: nat)
    requires i < |es| && FitsEntries(es)
    ensures (start + PutEntries(es[..i])) + PutEntry(es[i]) == start + PutEntries(es[..i + 1])
  {
    assert es[..i + 1] == es[..i] + [es[i]];
    PutEntriesSnoc(es[..i], es[i]);
    Associate(start, PutEntries(es[..i]), PutEntry(es[i]));
  }

  /** The loop over the grouped topics, in order. */
  method WriteEntries(out: BufferWriter, names: seq<string>, byTopic: map<string, seq<int>>, ghost es: seq<Entry>)
    requires !out.taken && FitsEntries(es) && |es| == |names|
    requires forall i :: 0 <= i < |names| ==> names[i] in byTopic && es[i] == Entry(names[i], byTopic[names[i]])
    modifies out
    ensures !out.taken && out.bytes == old(out.bytes) + PutEntries(es)
  {
    ghost var start := out.bytes;
    var i := 0;
    assert es[..0] == [] && start + [] == start;
    while i < |names|
      invariant i <= |names| && !out.taken && out.bytes == start + PutEntries(es[..i])
    {
      WriteEntry(out, Entry(names[i], byTopic[names[i]]));
      EntryAppended(start, es, i);
      i := i + 1;
    }
    assert es[..i] == es;
  }

  /** These bytes are an assignment written out, its topics in this order. */
  ghost predicate EncodedAs(held: seq<TopicPartition>, topics: seq<string>, s: Bytes) {
    && IsWalk(topics, Topics(held)) && FitsEntries(Entries(held, topics)) && Fits(|topics|, INT32)
    && s == Encode(Entries(held, topics))
  }

  method EncodeAssignment(held: seq<TopicPartition>) returns (s: Bytes)
    requires Encodable(held)
    ensures exists topics :: EncodedAs(held, topics, s)
  {
    var byTopic := GroupByTopic(held);
    var names := Walk(byTopic.Keys);
    EntriesFit(held, names);
    ghost var es := Entries(held, names);
    forall i | 0 <= i < |names| ensures names[i] in byTopic && es[i] == Entry(names[i], byTopic[names[i]]) {
      assert names[i] in names;
    }
    var out := new BufferWriter();
    var _ := out.Write(VERSION, INT16);
    var _ := out.Write(|names|, INT32);
    WriteEntries(out, names, byTopic, es);
    StartsEmpty(Put(VERSION, INT16), Put(|names|, INT32), PutEntries(es));
    var bytes := out.Take();
    s := bytes.value;
    assert EncodedAs(held, names, s);
  }

  lemma {:induction false} StartsEmpty(a: Bytes, b: Bytes, c: Bytes)
    ensures (([] + a) + b) + c == a + (b + c)
  {
  }

  // ------------------------------------------------------------------------ the decoder

  /** Items already taken, and then whatever taking the rest gives. */
  function After<T>(done: seq<T>, r: Option<(seq<T>, Bytes)>): Option<(seq<T>, Bytes)> {
    match r
    case None => None
    case Some((xs, rest)) => Some((done + xs, rest))
  }

  lemma {:induction false} AfterStep<T>(take: Bytes -> Option<(T, Bytes)>, done: seq<T>, s: Bytes, n: nat, x: T, rest: Bytes)
    requires 0 < n && take(s) == Some((x, rest))
    ensures After(done, TakeMany(take, s, n)) == After(done + [x], TakeMany(take, rest, n - 1))
  {
    match TakeMany(take, rest, n - 1)
    case None =>
    case Some((xs, _)) => assert done + ([x] + xs) == (done + [x]) + xs;
  }

  lemma {:induction false} AfterNone<T>(r: Option<(seq<T>, Bytes)>)
    ensures After([], r) == r
  {
    match r
    case None =>
    case Some((xs, _)) => assert [] + xs == xs;
  }

  lemma {:induction false} AfterAll<T>(take: Bytes -> Option<(T, Bytes)>, done: seq<T>, s: Bytes)
    ensures After(done, TakeMany(take, s, 0)) == Some((done, s))
  {
    assert done + [] == done;
  }

  method ReadPartitions(input: BufferReader, count: nat) returns (ps: Option<seq<int>>)
    requires input.Valid()
    modifies input
    ensures input.Valid()
    ensures match TakeMany(TakePartition, old(input.Rest()), count)
            case None => ps == None
            case Some((xs, rest)) => ps == Some(xs) && input.Rest() == rest
  {
    var out: seq<int>, k := [], 0;
    ghost var all := TakeMany(TakePartition, input.Rest(), count);
    AfterNone(all);
    while k < count
      invariant k <= count && input.Valid()
      invariant all == After(out, TakeMany(TakePartition, input.Rest(), count - k))
    {
      ghost var s := input.Rest();
      var p := input.Read(INT32);
      if p.None? { return None; }
      AfterStep(TakePartition, out, s, count - k, p.value, input.Rest());
      out, k := out + [p.value], k + 1;
    }
    AfterAll(TakePartition, out, input.Rest());
    return Some(out);
  }

  method ReadEntry(input: BufferReader) returns (e: Option<Entry>)
    requires input.Valid()
    modifies input
    ensures input.Valid()
    ensures match TakeEntry(old(input.Rest()))
            case None => e == None
            case Some((x, rest)) => e == Some(x) && input.Rest() == rest
  {
    var topic := ReadString(input);
    if topic.None? { return None; }
    var count := ReadCount(input);
    if count.None? { return None; }
    var ps := ReadPartitions(input, count.value);
    return if ps.None? then None else Some(Entry(topic.value, ps.value));
  }

  lemma {:induction false} ExpandSnoc(es: seq<Entry>, e: Entry)
    ensures ExpandAll(es + [e]) == ExpandAll(es) + Expand(e)
  {
    if es == [] {
      assert es + [e] == [e] && [e][1..] == [];
    } else {
      assert (es + [e])[1..] == es[1..] + [e];
      ExpandSnoc(es[1..], e);
    }
  }

  /** Taking items one after another from `s` gave these and left `rest`. */
  ghost predicate Took<T(!new)>(take: Bytes -> Option<(T, Bytes)>, s: Bytes, xs: seq<T>, rest: Bytes) {
    if xs == [] then s == rest
    else exists mid :: Took(take, s, xs[..|xs| - 1], mid) && take(mid) == Some((xs[|xs| - 1], rest))
  }

  lemma {:induction false} TookOneMore<T(!new)>(
    take: Bytes -> Option<(T, Bytes)>, s: Bytes, xs: seq<T>, mid: Bytes, x: T, rest: Bytes)
    requires Took(take, s, xs, mid) && take(mid) == Some((x, rest))
    ensures Took(take, s, xs + [x], rest)
  {
    assert (xs + [x])[..|xs + [x]| - 1] == xs;
  }

  lemma {:induction false} TookThen<T(!new)>(take: Bytes -> Option<(T, Bytes)>, s: Bytes, xs: seq<T>, rest: Bytes, n: nat)
    requires Took(take, s, xs, rest)
    ensures TakeMany(take, s, |xs| + n) == After(xs, TakeMany(take, rest, n))
  {
    if xs == [] {
      AfterNone(TakeMany(take, rest, n));
    } else {
      var init, x := xs[..|xs| - 1], xs[|xs| - 1];
      var mid :| Took(take, s, init, mid) && take(mid) == Some((x, rest));
      TookThen(take, s, init, mid, n + 1);
      AfterStep(take, init, mid, n + 1, x, rest);
      assert init + [x] == xs;
    }
  }

  /** The loop itself: all of them, or those before one that does not decode, which begins at `mid`. */
  method ReadUpTo(input: BufferReader, count: nat)
    returns (held: Option<seq<TopicPartition>>, ghost es: seq<Entry>, ghost mid: Bytes)
    requires input.Valid()
    modifies input
    ensures input.Valid()
    ensures Took(TakeEntry, old(input.Rest()), es, mid)
    ensures held.Some? ==> |es| == count && held.value == ExpandAll(es) && input.Rest() == mid
    ensures held.None? ==> |es| < count && TakeEntry(mid) == None
  {
    var out: seq<TopicPartition>, k := [], 0;
    es, mid := [], input.Rest();
    ghost var s := mid;
    while k < count
      invariant k == |es| <= count && input.Valid() && out == ExpandAll(es)
      invariant input.Rest() == mid && Took(TakeEntry, s, es, mid)
    {
      var e := ReadEntry(input);
      if e.None? { return None, es, mid; }
      TookOneMore(TakeEntry, s, es, mid, e.value, input.Rest());
      ExpandSnoc(es, e.value);
      es, mid := es + [e.value], input.Rest();
      out, k := out + Expand(e.value), k + 1;
    }
    return Some(out), es, mid;
  }

  lemma {:induction false} TookAll<T(!new)>(take: Bytes -> Option<(T, Bytes)>, s: Bytes, xs: seq<T>, mid: Bytes, n: nat)
    requires Took(take, s, xs, mid) && |xs| <= n
    ensures |xs| == n ==> TakeMany(take, s, n) == Some((xs, mid))
    ensures |xs| < n && take(mid) == None ==> TakeMany(take, s, n) == None
  {
    TookThen(take, s, xs, mid, n - |xs|);
    AfterAll(take, xs, mid);
  }

  method ReadEntries(input: BufferReader, count: nat) returns (held: Option<seq<TopicPartition>>)
    requires input.Valid()
    modifies input
    ensures input.Valid()
    ensures match TakeMany(TakeEntry, old(input.Rest()), count)
            case None => held == None
            case Some((es, rest)) => held == Some(ExpandAll(es)) && input.Rest() == rest
  {
    ghost var s := input.Rest();
    ghost var es, mid;
    held, es, mid := ReadUpTo(input, count);
    TookAll(TakeEntry, s, es, mid, count);
  }

  method ReadTopics(input: BufferReader) returns (held: Option<seq<TopicPartition>>)
    requires input.Valid()
    modifies input
    ensures held == DecodeTopics(old(input.Rest()))
  {
    var count := ReadCount(input);
    if count.None? { return None; }
    held := ReadEntries(input, count.value);
    if held.Some? && input.position < |input.data| { return None; }
  }

  /** decodeAssignment; None is corrupt data. */
  method DecodeAssignment(s: Bytes) returns (held: Option<seq<TopicPartition>>)
    ensures held == Decode(s)
  {
    if s == [] { return Some([]); }
    var input := new BufferReader(s);
    var version := input.Read(INT16);
    if version != Some(VERSION) { return None; }
    held := ReadTopics(input);
  }
}
