/** Round robin: every partition dealt in turn to the next member that wants its topic. */
module RoundRobin {
  import opened Prelude
  import opened Names
  import opened Assignor

  /** Every partition of these topics, topic by topic and counting up. */
  function AllOf(input: Input, topics: seq<string>): seq<TopicPartition>
    requires forall t :: t in topics ==> t in input.counts
  {
    if topics == [] then []
    else
      var t := topics[|topics| - 1];
      AllOf(input, topics[..|topics| - 1]) + Block(t, 0, input.counts[t])
  }

  lemma {:induction false} AllOfMembers(input: Input, topics: seq<string>)
    requires (forall t :: t in topics ==> t in input.counts) && NoRepeats(topics)
    ensures forall tp :: tp in AllOf(input, topics) <==> tp.topic in topics && Exists(input, tp)
    ensures NoRepeats(AllOf(input, topics))
  {
    if topics != [] {
      var init, t := topics[..|topics| - 1], topics[|topics| - 1];
      assert topics == init + [t];
      AllOfMembers(input, init);
      BlockMembers(t, 0, input.counts[t]);
      assert forall tp :: tp in AllOf(input, init) ==> tp.topic != t;
    }
  }

  method ListAll(input: Input, topics: seq<string>) returns (all: seq<TopicPartition>)
    requires forall t :: t in topics ==> t in input.counts
    ensures all == AllOf(input, topics)
  {
    all := [];
    var k := 0;
    while k < |topics|
      invariant k <= |topics| && all == AllOf(input, topics[..k])
    {
      var t := topics[k];
      assert topics[..k + 1][..k] == topics[..k];
      ghost var before := all;
      var p := 0;
      while p < input.counts[t]
        invariant 0 <= p && (p <= input.counts[t] || p == 0)
        invariant all == before + Block(t, 0, p)
      {
        all := all + [TopicPartition(t, p)];
        p := p + 1;
      }
      k := k + 1;
    }
    assert topics[..k] == topics;
  }

  // ---------------------------------------------------------------------------- dealing

  /** The first member from `next` round that wants the topic, as a distance; n if none does. */
  method Choose(input: Input, ids: seq<string>, next: nat, topic: string) returns (tried: nat)
    requires next < |ids|
    ensures tried <= |ids|
    ensures tried < |ids| ==> Wants(input, ids[(next + tried) % |ids|], topic)
    ensures tried == |ids| ==> forall id :: id in ids ==> !Wants(input, id, topic)
    ensures Wants(input, ids[next], topic) ==> tried == 0
  {
    tried := 0;
    while tried < |ids|
      invariant tried <= |ids|
      invariant forall k :: 0 <= k < tried ==> !Wants(input, ids[Seat(next, k, |ids|)], topic)
    {
      SeatIsRemainder(next, tried, |ids|);
      if Wants(input, ids[(next + tried) % |ids|], topic) {
        if 0 < tried { assert Seat(next, 0, |ids|) == next; }
        return;
      }
      tried := tried + 1;
    }
    forall id | id in ids ensures !Wants(input, id, topic) {
      var j := IndexOf(ids, id);
      assert Seat(next, if next <= j then j - next else j + |ids| - next, |ids|) == j;
    }
    assert Seat(next, 0, |ids|) == next;
  }

  /** Going round a table of n from one seat. */
  function Seat(next: nat, tried: nat, n: nat): int { if next + tried < n then next + tried else next + tried - n }

  lemma {:induction false} SeatIsRemainder(next: nat, tried: nat, n: nat)
    requires next < n && tried < n
    ensures (next + tried) % n == Seat(next, tried, n) < n
    ensures (next + tried + 1) % n == (if Seat(next, tried, n) + 1 == n then 0 else Seat(next, tried, n) + 1)
  {
    var s := Seat(next, tried, n);
    Remainder(next + tried, n, s, if next + tried < n then 0 else 1);
    if s + 1 == n {
      Remainder(next + tried + 1, n, 0, if next + tried < n then 1 else 2);
    } else {
      Remainder(next + tried + 1, n, s + 1, if next + tried < n then 0 else 1);
    }
  }

  lemma {:induction false} Remainder(x: nat, n: nat, r: nat, q: nat)
    requires r < n && x == q * n + r
    ensures x % n == r
  {
    var d := x / n - q;
    assert x == (x / n) * n + x % n;
    assert d * n == r - x % n;
    FarFromZero(d, n);
  }

  lemma {:induction false} FarFromZero(d: int, n: int)
    requires 0 <= n
    ensures 1 <= d ==> n <= d * n
    ensures d <= -1 ==> d * n <= -n
  {
  }

  function Prefix(all: seq<TopicPartition>, q: nat): set<TopicPartition>
    requires q <= |all|
  {
    set tp | tp in all[..q]
  }

  /** One more partition dealt: to a member that wants it. */
  lemma {:induction false} DealtTo(input: Input, all: seq<TopicPartition>, q: nat, before: Assignment, c: string, a: Assignment)
    requires q < |all| && NoRepeats(all) && SharesOut(input, Prefix(all, q), before)
    requires Wants(input, c, all[q].topic) && a == before[c := before[c] + [all[q]]]
    ensures SharesOut(input, Prefix(all, q + 1), a)
  {
    var tp := all[q];
    assert all[..q + 1] == all[..q] + [tp];
    assert tp !in Prefix(all, q);
    assert forall id :: !Holds(before, id, tp);
    assert !Holds(before, c, tp);
    assert Holds(a, c, tp);
    forall id, x | x in Prefix(all, q + 1) && Wants(input, id, x.topic) ensures exists h :: Holds(a, h, x) {
      if x != tp {
        var h :| Holds(before, h, x);
        assert Holds(a, h, x);
      }
    }
    OnlyNew(before, c, tp, a);
  }

  /** Who holds what after one is dealt: as before, and the new one. */
  lemma {:induction false} OnlyNew(before: Assignment, c: string, tp: TopicPartition, a: Assignment)
    requires c in before && a == before[c := before[c] + [tp]]
    ensures forall id, x :: Holds(a, id, x) <==> Holds(before, id, x) || (id == c && x == tp)
  {
  }

  /** One more partition that nobody wants. */
  lemma {:induction false} DealtToNobody(input: Input, all: seq<TopicPartition>, q: nat, a: Assignment)
    requires q < |all| && SharesOut(input, Prefix(all, q), a)
    requires forall id :: !Wants(input, id, all[q].topic)
    ensures SharesOut(input, Prefix(all, q + 1), a)
  {
    assert all[..q + 1] == all[..q] + [all[q]];
  }

  // ---------------------------------------------------------------------------- evenness

  ghost predicate EveryoneWantsAll(input: Input) {
    forall id, t :: id in input.members && t in input.counts ==> Wants(input, id, t)
  }

  /** After whole rounds and part of one, everyone before `next` holds one more. */
  ghost predicate Level(ids: seq<string>, a: Assignment, next: nat, rounds: nat) {
    forall j :: 0 <= j < |ids| ==> ids[j] in a && |a[ids[j]]| == rounds + (if j < next then 1 else 0)
  }

  lemma {:induction false} LevelStep(
    ids: seq<string>, before: Assignment, next: nat, rounds: nat, tp: TopicPartition, a: Assignment)
    requires NoRepeats(ids) && next < |ids| && Level(ids, before, next, rounds)
    requires a == before[ids[next] := before[ids[next]] + [tp]]
    ensures if next + 1 < |ids| then Level(ids, a, next + 1, rounds) else Level(ids, a, 0, rounds + 1)
  {
    forall j | 0 <= j < |ids| ensures ids[j] in a && |a[ids[j]]| == rounds + (if j <= next then 1 else 0) {
    }
  }

  method AssignRoundRobin(input: Input) returns (a: Assignment)
    ensures IsAssignment(input, a)
    ensures EveryoneWantsAll(input) ==> forall id, other :: id in a && other in a ==> |a[id]| <= |a[other]| + 1
  {
    a := map id | id in input.members :: [];
    var topics := Walk(input.counts.Keys);
    var all := ListAll(input, topics);
    WalkNoRepeats(topics);
    AllOfMembers(input, topics);
    var ids := Walk(input.members.Keys);
    WalkNoRepeats(ids);
    if ids == [] {
      if input.members.Keys != {} { WalkStartsLeast(ids, input.members.Keys); }
      return;
    }
    ghost var next: nat, rounds: nat;
    a, next, rounds := DealAll(input, ids, all, a);
    SharedAll(input, Prefix(all, |all|), a);
    if EveryoneWantsAll(input) { LevelIsEven(input, ids, a, next, rounds); }
  }

  /** The dealing loop. */
  method DealAll(input: Input, ids: seq<string>, all: seq<TopicPartition>, empty: Assignment)
    returns (a: Assignment, ghost last: nat, ghost rounds: nat)
    requires ids != [] && NoRepeats(all) && NoRepeats(ids) && IsWalk(ids, input.members.Keys)
    requires forall tp :: tp in all ==> Exists(input, tp)
    requires empty.Keys == input.members.Keys && forall id :: id in empty ==> empty[id] == []
    ensures SharesOut(input, Prefix(all, |all|), a)
    ensures EveryoneWantsAll(input) ==> Level(ids, a, last, rounds)
  {
    var next: nat := 0;
    a, rounds := empty, 0;
    var q := 0;
    assert forall j :: 0 <= j < |ids| ==> ids[j] in ids;
    while q < |all|
      invariant q <= |all| && next < |ids|
      invariant SharesOut(input, Prefix(all, q), a)
      invariant EveryoneWantsAll(input) ==> Level(ids, a, next, rounds)
    {
      assert all[q] in all;
      a, next, rounds := DealNext(input, ids, all, q, a, next, rounds);
      q := q + 1;
    }
    last := next;
  }

  lemma {:induction false} LevelIsEven(input: Input, ids: seq<string>, a: Assignment, next: nat, rounds: nat)
    requires Level(ids, a, next, rounds) && IsWalk(ids, a.Keys)
    ensures forall id, other :: id in a && other in a ==> |a[id]| <= |a[other]| + 1
  {
    forall id, other | id in a && other in a ensures |a[id]| <= |a[other]| + 1 {
      assert id in ids && other in ids;
      assert ids[IndexOf(ids, id)] == id && ids[IndexOf(ids, other)] == other;
    }
  }

  /** One turn of the dealing loop. */
  method DealNext(
    input: Input, ids: seq<string>, all: seq<TopicPartition>, q: nat, before: Assignment, next: nat, ghost rounds: nat)
    returns (a: Assignment, after: nat, ghost roundsAfter: nat)
    requires q < |all| && next < |ids| && NoRepeats(all) && NoRepeats(ids) && IsWalk(ids, input.members.Keys)
    requires Exists(input, all[q]) && SharesOut(input, Prefix(all, q), before)
    requires EveryoneWantsAll(input) ==> Level(ids, before, next, rounds)
    ensures after < |ids| && SharesOut(input, Prefix(all, q + 1), a)
    ensures EveryoneWantsAll(input) ==> Level(ids, a, after, roundsAfter)
  {
    var tp := all[q];
    assert ids[next] in ids;
    var tried := Choose(input, ids, next, tp.topic);
    if tried == |ids| {
      assert forall id :: Wants(input, id, tp.topic) ==> id in ids;
      DealtToNobody(input, all, q, before);
      return before, next, rounds;
    }
    SeatIsRemainder(next, tried, |ids|);
    var c := ids[(next + tried) % |ids|];
    a := before[c := before[c] + [tp]];
    after := (next + tried + 1) % |ids|;
    DealtTo(input, all, q, before, c, a);
    roundsAfter := if after == 0 then rounds + 1 else rounds;
    if EveryoneWantsAll(input) {
      LevelStep(ids, before, next, rounds, tp, a);
    }
  }
}
