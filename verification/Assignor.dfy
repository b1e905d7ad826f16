/** The two client-side strategies for sharing partitions out among a group's members. */
module Assignor {
  import opened Prelude
  import opened Names

  datatype TopicPartition = TopicPartition(topic: string, partition: int)

  /** Member ids with their subscriptions, and the partition counts the leader was told. */
  datatype Input = Input(members: map<string, seq<string>>, counts: map<string, int>)

  type Assignment = map<string, seq<TopicPartition>>

  predicate Wants(input: Input, id: string, topic: string) { id in input.members && topic in input.members[id] }

  predicate Exists(input: Input, tp: TopicPartition) {
    tp.topic in input.counts && 0 <= tp.partition < input.counts[tp.topic]
  }

  predicate Holds(a: Assignment, id: string, tp: TopicPartition) { id in a && tp in a[id] }

  /** Of these partitions each goes once, to one member that wants it, if any does; nothing else is given. */
  ghost predicate SharesOut(input: Input, given: set<TopicPartition>, a: Assignment) {
    && a.Keys == input.members.Keys
    && (forall id, tp :: Holds(a, id, tp) ==> Wants(input, id, tp.topic) && tp in given)
    && (forall id, other, tp :: Holds(a, id, tp) && Holds(a, other, tp) ==> id == other)
    && (forall id :: id in a ==> NoRepeats(a[id]))
    && (forall id, tp :: tp in given && Wants(input, id, tp.topic) ==> exists h :: Holds(a, h, tp))
  }

  /** The same over every partition there is. */
  ghost predicate IsAssignment(input: Input, a: Assignment) {
    && a.Keys == input.members.Keys
    && (forall id, tp :: Holds(a, id, tp) ==> Wants(input, id, tp.topic) && Exists(input, tp))
    && (forall id, other, tp :: Holds(a, id, tp) && Holds(a, other, tp) ==> id == other)
    && (forall id :: id in a ==> NoRepeats(a[id]))
    && (forall id, tp :: Exists(input, tp) && Wants(input, id, tp.topic) ==> exists h :: Holds(a, h, tp))
  }

  lemma {:induction false} SharedAll(input: Input, given: set<TopicPartition>, a: Assignment)
    requires SharesOut(input, given, a) && forall tp :: tp in given <==> Exists(input, tp)
    ensures IsAssignment(input, a)
  {
  }

  // ------------------------------------------------------------------------------ range

  /** Where member j's block of a topic starts: everyone gets `each`, and the earliest `extra` one more. */
  function BlockStart(each: nat, extra: nat, j: nat): nat {
    if j == 0 then 0 else BlockStart(each, extra, j - 1) + each + (if j - 1 < extra then 1 else 0)
  }

  function Block(topic: string, lo: int, hi: int): seq<TopicPartition>
    decreases hi - lo
  {
    if hi <= lo then [] else Block(topic, lo, hi - 1) + [TopicPartition(topic, hi - 1)]
  }

  lemma {:induction false} BlockMembers(topic: string, lo: int, hi: int)
    ensures forall tp :: tp in Block(topic, lo, hi) <==> tp.topic == topic && lo <= tp.partition < hi
    ensures NoRepeats(Block(topic, lo, hi))
    decreases hi - lo
  {
    if lo < hi { BlockMembers(topic, lo, hi - 1); }
  }

  lemma {:induction false} StartInClosedForm(each: nat, extra: nat, j: nat)
    ensures BlockStart(each, extra, j) == j * each + Min(j, extra)
  {
    if 0 < j {
      StartInClosedForm(each, extra, j - 1);
      assert j * each == (j - 1) * each + each;
    }
  }

  /** The blocks of a topic cover it exactly, and their sizes differ by at most one. */
  lemma {:induction false} BlocksAreEven(count: nat, members: nat, i: nat, j: nat)
    requires i < members && j < members
    ensures var each, extra := count / members, count % members;
            && BlockStart(each, extra, members) == count
            && BlockStart(each, extra, j + 1) - BlockStart(each, extra, j)
               <= BlockStart(each, extra, i + 1) - BlockStart(each, extra, i) + 1
  {
    StartInClosedForm(count / members, count % members, members);
    assert members * (count / members) + count % members == count;
  }

  lemma {:induction false} BlockOf(each: nat, extra: nat, p: nat, n: nat) returns (j: nat)
    requires 0 < n && p < BlockStart(each, extra, n)
    ensures j < n && BlockStart(each, extra, j) <= p < BlockStart(each, extra, j + 1)
  {
    if BlockStart(each, extra, n - 1) <= p {
      j := n - 1;
    } else {
      j := BlockOf(each, extra, p, n - 1);
    }
  }

  lemma {:induction false} BlocksAscend(each: nat, extra: nat, i: nat, j: nat)
    requires i <= j
    ensures BlockStart(each, extra, i) <= BlockStart(each, extra, j)
  {
    if i < j { BlocksAscend(each, extra, i, j - 1); }
  }

  lemma {:induction false} BlocksDiffer(each: nat, extra: nat, i: nat, j: nat, p: int)
    requires BlockStart(each, extra, i) <= p < BlockStart(each, extra, i + 1)
    requires BlockStart(each, extra, j) <= p < BlockStart(each, extra, j + 1)
    ensures i == j
  {
    if i < j { BlocksAscend(each, extra, i + 1, j); }
    if j < i { BlocksAscend(each, extra, j + 1, i); }
  }

  /** The members that asked for a topic, in the order they are walked. */
  function Interested(input: Input, ids: seq<string>, topic: string): seq<string> {
    if ids == [] then []
    else
      var front := Interested(input, ids[..|ids| - 1], topic);
      if Wants(input, ids[|ids| - 1], topic) then front + [ids[|ids| - 1]] else front
  }

  lemma {:induction false} InterestedMembers(input: Input, ids: seq<string>, topic: string)
    requires NoRepeats(ids)
    ensures forall id :: id in Interested(input, ids, topic) <==> id in ids && Wants(input, id, topic)
    ensures NoRepeats(Interested(input, ids, topic))
  {
    if ids != [] {
      var init := ids[..|ids| - 1];
      InterestedMembers(input, init, topic);
      assert ids == init + [ids[|ids| - 1]];
    }
  }

  function IndexOf(ids: seq<string>, id: string): (j: nat)
    ensures j <= |ids| && (j < |ids| <==> id in ids) && (j < |ids| ==> ids[j] == id)
  {
    if ids == [] || ids[0] == id then 0 else 1 + IndexOf(ids[1..], id)
  }

  lemma {:induction false} IndexOfAt(ids: seq<string>, j: nat)
    requires NoRepeats(ids) && j < |ids|
    ensures IndexOf(ids, ids[j]) == j
  {
  }

  /** One member's block of a topic, by its place among the interested. */
  function Share(keen: seq<string>, topic: string, each: nat, extra: nat, id: string): seq<TopicPartition> {
    if id !in keen then []
    else
      var j := IndexOf(keen, id);
      Block(topic, BlockStart(each, extra, j), BlockStart(each, extra, j + 1))
  }

  /** What one member gets of one topic, with these members interested. */
  function TopicShare(keen: seq<string>, topic: string, count: int, id: string): seq<TopicPartition> {
    if keen == [] || count <= 0 then [] else Share(keen, topic, count / |keen|, count % |keen|, id)
  }

  /** What one member gets of these topics, in order. */
  function RangeShare(input: Input, ids: seq<string>, topics: seq<string>, id: string): seq<TopicPartition>
    requires forall t :: t in topics ==> t in input.counts
  {
    if topics == [] then []
    else
      var t := topics[|topics| - 1];
      RangeShare(input, ids, topics[..|topics| - 1], id) + TopicShare(Interested(input, ids, t), t, input.counts[t], id)
  }

  lemma {:induction false} ShareMembers(input: Input, ids: seq<string>, topics: seq<string>, id: string)
    requires (forall t :: t in topics ==> t in input.counts) && NoRepeats(topics)
    ensures forall tp :: tp in RangeShare(input, ids, topics, id) <==>
              tp.topic in topics && tp in TopicShare(Interested(input, ids, tp.topic), tp.topic, input.counts[tp.topic], id)
    ensures NoRepeats(RangeShare(input, ids, topics, id))
  {
    if topics != [] {
      var init, t := topics[..|topics| - 1], topics[|topics| - 1];
      assert topics == init + [t];
      ShareMembers(input, ids, init, id);
      TopicShareMembers(Interested(input, ids, t), t, input.counts[t], id);
      OtherTopics(input, ids, init, t, id);
    }
  }

  lemma {:induction false} OtherTopics(input: Input, ids: seq<string>, init: seq<string>, t: string, id: string)
    requires (forall x :: x in init + [t] ==> x in input.counts) && t !in init && NoRepeats(init)
    ensures forall a, b ::
              (a in RangeShare(input, ids, init, id) && b in TopicShare(Interested(input, ids, t), t, input.counts[t], id))
              ==> a != b
  {
    TopicShareMembers(Interested(input, ids, t), t, input.counts[t], id);
    TopicsOfShare(input, ids, init, id);
  }

  lemma {:induction false} TopicsOfShare(input: Input, ids: seq<string>, topics: seq<string>, id: string)
    requires forall t :: t in topics ==> t in input.counts
    ensures forall tp :: tp in RangeShare(input, ids, topics, id) ==> tp.topic in topics
  {
    if topics != [] {
      var t := topics[|topics| - 1];
      TopicsOfShare(input, ids, topics[..|topics| - 1], id);
      TopicShareMembers(Interested(input, ids, t), t, input.counts[t], id);
    }
  }

  /** Partition p is in the block of the member with this id. */
  ghost predicate InBlock(keen: seq<string>, each: nat, extra: nat, id: string, p: int) {
    id in keen && BlockStart(each, extra, IndexOf(keen, id)) <= p < BlockStart(each, extra, IndexOf(keen, id) + 1)
  }

  lemma {:induction false} ShareOfTopic(keen: seq<string>, topic: string, each: nat, extra: nat, id: string)
    ensures forall tp :: tp in Share(keen, topic, each, extra, id) <==>
              tp.topic == topic && InBlock(keen, each, extra, id, tp.partition)
    ensures NoRepeats(Share(keen, topic, each, extra, id))
  {
    var j := IndexOf(keen, id);
    var lo, hi := BlockStart(each, extra, j), BlockStart(each, extra, j + 1);
    BlockMembers(topic, lo, hi);
    if id in keen { assert Share(keen, topic, each, extra, id) == Block(topic, lo, hi); }
  }

  lemma {:induction false} TopicShareMembers(keen: seq<string>, topic: string, count: int, id: string)
    ensures forall tp :: tp in TopicShare(keen, topic, count, id) ==> tp.topic == topic && id in keen && 0 < count
    ensures NoRepeats(TopicShare(keen, topic, count, id))
  {
    if keen != [] && 0 < count { ShareOfTopic(keen, topic, count / |keen|, count % |keen|, id); }
  }

  /** The range assignment: every member's share of every topic. */
  ghost predicate IsRange(input: Input, ids: seq<string>, topics: seq<string>, a: Assignment) {
    && IsWalk(ids, input.members.Keys) && IsWalk(topics, input.counts.Keys)
    && a.Keys == input.members.Keys
    && forall id :: id in a ==> a[id] == RangeShare(input, ids, topics, id)
  }

  /** A member's block if it is among the first n interested, the ones served so far. */
  function SoFar(keen: seq<string>, n: nat, topic: string, each: nat, extra: nat, id: string): seq<TopicPartition> {
    if IndexOf(keen, id) < n then Share(keen, topic, each, extra, id) else []
  }

  /** Appends `take` partitions from `next` on to one member's list. */
  method GiveBlock(a: Assignment, id: string, topic: string, next: int, take: nat) returns (out: Assignment)
    requires id in a
    ensures out == a[id := a[id] + Block(topic, next, next + take)]
  {
    out := a;
    var n := 0;
    assert a[id] + [] == a[id];
    while n < take
      invariant n <= take && out == a[id := a[id] + Block(topic, next, next + n)]
    {
      out := out[id := out[id] + [TopicPartition(topic, next + n)]];
      assert a[id] + Block(topic, next, next + n + 1) == (a[id] + Block(topic, next, next + n)) + [TopicPartition(topic, next + n)];
      n := n + 1;
    }
  }

  lemma {:induction false} SoFarStep(keen: seq<string>, i: nat, topic: string, each: nat, extra: nat, id: string)
    requires NoRepeats(keen) && i < |keen|
    ensures SoFar(keen, i + 1, topic, each, extra, id)
         == SoFar(keen, i, topic, each, extra, id)
            + if id == keen[i] then Block(topic, BlockStart(each, extra, i), BlockStart(each, extra, i + 1)) else []
  {
    IndexOfAt(keen, i);
  }

  /** Every list has what it had and what the first n blocks of this topic give it. */
  ghost predicate Given(a: Assignment, out: Assignment, keen: seq<string>, n: nat, topic: string, each: nat, extra: nat) {
    out.Keys == a.Keys && forall id :: id in a ==> out[id] == a[id] + SoFar(keen, n, topic, each, extra, id)
  }

  lemma {:induction false} GivenStep(
    a: Assignment, before: Assignment, out: Assignment, keen: seq<string>, i: nat, topic: string, each: nat, extra: nat)
    requires Given(a, before, keen, i, topic, each, extra) && NoRepeats(keen) && i < |keen| && keen[i] in a
    requires out == before[keen[i] := before[keen[i]] + Block(topic, BlockStart(each, extra, i), BlockStart(each, extra, i + 1))]
    ensures Given(a, out, keen, i + 1, topic, each, extra)
  {
    var block := Block(topic, BlockStart(each, extra, i), BlockStart(each, extra, i + 1));
    forall id | id in a ensures out[id] == a[id] + SoFar(keen, i + 1, topic, each, extra, id) {
      SoFarStep(keen, i, topic, each, extra, id);
      Longer(a[id], SoFar(keen, i, topic, each, extra, id), if id == keen[i] then block else []);
    }
  }

  lemma {:induction false} Longer<T>(a: seq<T>, b: seq<T>, c: seq<T>)
    ensures a + (b + c) == (a + b) + c && a + b + [] == a + b
  {
  }

  lemma {:induction false} GivenEnds(
    a: Assignment, out: Assignment, keen: seq<string>, topic: string, each: nat, extra: nat)
    ensures Given(a, a, keen, 0, topic, each, extra)
    ensures Given(a, out, keen, |keen|, topic, each, extra) ==>
              forall id :: id in a ==> out[id] == a[id] + Share(keen, topic, each, extra, id)
  {
  }

  /** One interested member's turn. */
  method GiveNext(
    out: Assignment, keen: seq<string>, i: nat, topic: string, each: nat, extra: nat, next: nat, ghost a: Assignment)
    returns (given: Assignment, after: nat)
    requires Given(a, out, keen, i, topic, each, extra) && NoRepeats(keen) && i < |keen| && keen[i] in a
    requires next == BlockStart(each, extra, i)
    ensures Given(a, given, keen, i + 1, topic, each, extra) && after == BlockStart(each, extra, i + 1)
  {
    var take := each + (if i < extra then 1 else 0);
    given := GiveBlock(out, keen[i], topic, next, take);
    after := next + take;
    GivenStep(a, out, given, keen, i, topic, each, extra);
  }

  /** One topic's turn: block by block down the list of interested members. */
  method GiveTopic(a: Assignment, keen: seq<string>, topic: string, each: nat, extra: nat) returns (out: Assignment)
    requires NoRepeats(keen) && forall id :: id in keen ==> id in a
    ensures out.Keys == a.Keys
    ensures forall id :: id in a ==> out[id] == a[id] + Share(keen, topic, each, extra, id)
  {
    var next: nat := 0;
    out := a;
    var i := 0;
    GivenEnds(a, a, keen, topic, each, extra);
    while i < |keen|
      invariant i <= |keen| && next == BlockStart(each, extra, i)
      invariant Given(a, out, keen, i, topic, each, extra)
    {
      assert keen[i] in keen;
      out, next := GiveNext(out, keen, i, topic, each, extra, next, a);
      i := i + 1;
    }
    GivenEnds(a, out, keen, topic, each, extra);
  }

  method FindInterested(input: Input, ids: seq<string>, topic: string) returns (keen: seq<string>)
    ensures keen == Interested(input, ids, topic)
  {
    keen := [];
    var i := 0;
    while i < |ids|
      invariant i <= |ids| && keen == Interested(input, ids[..i], topic)
    {
      assert ids[..i + 1][..i] == ids[..i];
      if Wants(input, ids[i], topic) { keen := keen + [ids[i]]; }
      i := i + 1;
    }
    assert ids[..i] == ids;
  }

  lemma {:induction false} WalkNoRepeats(ks: seq<string>)
    requires Ascending(ks)
    ensures NoRepeats(ks)
  {
    forall i, j | 0 <= i < j < |ks| ensures ks[i] != ks[j] {
      LessIsStrict(ks[i], ks[j]);
    }
  }

  /** The lists after the first k topics have had their turn. */
  ghost predicate RangeSoFar(input: Input, ids: seq<string>, topics: seq<string>, a: Assignment) {
    && (forall t :: t in topics ==> t in input.counts)
    && a.Keys == input.members.Keys
    && forall id :: id in a ==> a[id] == RangeShare(input, ids, topics, id)
  }

  lemma {:induction false} RangeStep(
    input: Input, ids: seq<string>, topics: seq<string>, t: string, before: Assignment, a: Assignment)
    requires RangeSoFar(input, ids, topics, before) && t in input.counts && a.Keys == before.Keys
    requires forall id :: id in before ==> a[id] == before[id] + TopicShare(Interested(input, ids, t), t, input.counts[t], id)
    ensures RangeSoFar(input, ids, topics + [t], a)
  {
    assert (topics + [t])[..|topics|] == topics;
  }

  /** One topic's turn, skipped if nobody is interested or there is nothing to give. */
  method ServeTopic(input: Input, ids: seq<string>, t: string, before: Assignment) returns (a: Assignment)
    requires t in input.counts && before.Keys == input.members.Keys && NoRepeats(ids)
    ensures a.Keys == before.Keys
    ensures forall id :: id in before ==> a[id] == before[id] + TopicShare(Interested(input, ids, t), t, input.counts[t], id)
  {
    var keen := FindInterested(input, ids, t);
    InterestedMembers(input, ids, t);
    var count := input.counts[t];
    if keen == [] || count <= 0 { return before; }
    a := GiveTopic(before, keen, t, count / |keen|, count % |keen|);
  }

  method AssignRange(input: Input) returns (a: Assignment)
    ensures exists ids, topics :: IsRange(input, ids, topics, a)
  {
    var members := Walk(input.members.Keys);
    var names := Walk(input.counts.Keys);
    a := map id | id in input.members :: [];
    WalkNoRepeats(members);
    var k := 0;
    while k < |names|
      invariant k <= |names| && RangeSoFar(input, members, names[..k], a)
    {
      assert names[k] in names && names[..k + 1] == names[..k] + [names[k]];
      ghost var before := a;
      a := ServeTopic(input, members, names[k], a);
      RangeStep(input, members, names[..k], names[k], before, a);
      k := k + 1;
    }
    assert names[..k] == names && IsRange(input, members, names, a);
  }

  lemma {:induction false} InBlockIsWithin(keen: seq<string>, count: nat, id: string, p: int)
    requires keen != [] && InBlock(keen, count / |keen|, count % |keen|, id, p)
    ensures 0 <= p < count
  {
    var j := IndexOf(keen, id);
    BlocksAreEven(count, |keen|, j, j);
    BlocksAscend(count / |keen|, count % |keen|, j + 1, |keen|);
  }

  lemma {:induction false} TopicShareIsBlock(keen: seq<string>, topic: string, count: int, id: string, tp: TopicPartition)
    requires keen != [] && tp.topic == topic
    ensures tp in TopicShare(keen, topic, count, id) <==>
              0 < count && InBlock(keen, count / |keen|, count % |keen|, id, tp.partition)
    ensures tp in TopicShare(keen, topic, count, id) ==> 0 <= tp.partition < count
  {
    if 0 < count {
      ShareOfTopic(keen, topic, count / |keen|, count % |keen|, id);
      if tp in TopicShare(keen, topic, count, id) { InBlockIsWithin(keen, count, id, tp.partition); }
    }
  }

  /** The partition exists and is in this member's block of its topic. */
  ghost predicate InOwnBlock(input: Input, ids: seq<string>, id: string, tp: TopicPartition) {
    var keen := Interested(input, ids, tp.topic);
    Exists(input, tp) && keen != []
    && InBlock(keen, input.counts[tp.topic] / |keen|, input.counts[tp.topic] % |keen|, id, tp.partition)
  }

  /** Range gives the j-th interested member of a topic exactly block j of it, and nobody else anything. */
  lemma {:induction false} RangeGivesBlocks(
    input: Input, ids: seq<string>, topics: seq<string>, a: Assignment, id: string, tp: TopicPartition)
    requires IsRange(input, ids, topics, a) && id in a
    ensures tp in a[id] <==> InOwnBlock(input, ids, id, tp)
  {
    WalkNoRepeats(topics);
    ShareMembers(input, ids, topics, id);
    var keen := Interested(input, ids, tp.topic);
    if tp.topic in input.counts && keen != [] {
      TopicShareIsBlock(keen, tp.topic, input.counts[tp.topic], id, tp);
    }
  }

  lemma {:induction false} RangeGivesWanted(
    input: Input, ids: seq<string>, topics: seq<string>, a: Assignment, id: string, tp: TopicPartition)
    requires IsRange(input, ids, topics, a) && Holds(a, id, tp)
    ensures Wants(input, id, tp.topic) && Exists(input, tp)
  {
    WalkNoRepeats(ids);
    RangeGivesBlocks(input, ids, topics, a, id, tp);
    InterestedMembers(input, ids, tp.topic);
  }

  lemma {:induction false} RangeGivesOnce(
    input: Input, ids: seq<string>, topics: seq<string>, a: Assignment, id: string, other: string, tp: TopicPartition)
    requires IsRange(input, ids, topics, a) && Holds(a, id, tp) && Holds(a, other, tp)
    ensures id == other
  {
    RangeGivesBlocks(input, ids, topics, a, id, tp);
    RangeGivesBlocks(input, ids, topics, a, other, tp);
    var keen := Interested(input, ids, tp.topic);
    var count := input.counts[tp.topic];
    BlocksDiffer(count / |keen|, count % |keen|, IndexOf(keen, id), IndexOf(keen, other), tp.partition);
  }

  lemma {:induction false} RangeGivesAll(
    input: Input, ids: seq<string>, topics: seq<string>, a: Assignment, id: string, tp: TopicPartition)
    requires IsRange(input, ids, topics, a) && Exists(input, tp) && Wants(input, id, tp.topic)
    ensures exists h :: Holds(a, h, tp)
  {
    WalkNoRepeats(ids);
    InterestedMembers(input, ids, tp.topic);
    var keen, count := Interested(input, ids, tp.topic), input.counts[tp.topic];
    assert id in keen;
    BlocksAreEven(count, |keen|, 0, 0);
    var j := BlockOf(count / |keen|, count % |keen|, tp.partition, |keen|);
    IndexOfAt(keen, j);
    assert keen[j] in keen;
    RangeGivesBlocks(input, ids, topics, a, keen[j], tp);
    assert Holds(a, keen[j], tp);
  }

  lemma {:induction false} RangeIsAssignment(input: Input, ids: seq<string>, topics: seq<string>, a: Assignment)
    requires IsRange(input, ids, topics, a)
    ensures IsAssignment(input, a)
  {
    forall id, tp | Holds(a, id, tp) ensures Wants(input, id, tp.topic) && Exists(input, tp) {
      RangeGivesWanted(input, ids, topics, a, id, tp);
    }
    forall id, other, tp | Holds(a, id, tp) && Holds(a, other, tp) ensures id == other {
      RangeGivesOnce(input, ids, topics, a, id, other, tp);
    }
    WalkNoRepeats(topics);
    forall id | id in a ensures NoRepeats(a[id]) {
      ShareMembers(input, ids, topics, id);
    }
    forall id, tp | Exists(input, tp) && Wants(input, id, tp.topic) ensures exists h :: Holds(a, h, tp) {
      RangeGivesAll(input, ids, topics, a, id, tp);
    }
  }
}
