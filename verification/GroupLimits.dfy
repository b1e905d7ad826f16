/** Where the group protocol's promises stop. */
module GroupLimits {
  // Two members, the first of which leads: a topic only the follower wants, and a leader that leaves
  // itself out of its own sync.

  import opened Prelude
  import opened Names
  import opened Groups
  import opened MemberIds
  import opened GroupRuns
  import A = Assignor
  import K = AssignmentCodec

  const FIRST := "a-1"
  const SECOND := "b-2"

  function Ask(clientId: string, topic: string): Request { Request(clientId, [topic], ["range"], 0, 0) }

  function Joined(clientId: string, topic: string, assignment: Bytes, rejoined: bool): Member {
    Member(clientId, [topic], ["range"], assignment, DEFAULT_SESSION_TIMEOUT, 0, rejoined)
  }

  /** The first member alone, at generation one. */
  function Alone(state: GroupState, topic: string, held: Bytes): Group {
    Group(state, 1, FIRST, "range", map[FIRST := Joined("a", topic, held, true)])
  }

  /** Both of them; the first has rejoined or is still to. */
  function Both(state: GroupState, generation: int, first: Member, second: Member): Group {
    Group(state, generation, FIRST, "range", map[FIRST := first, SECOND := second])
  }

  lemma {:induction false} Ids()
    ensures MemberId("a", 1) == FIRST && MemberId("b", 2) == SECOND && FIRST != SECOND && Less(FIRST, SECOND)
  {
    assert Decimal(1) == "1" && Decimal(2) == "2";
    assert FIRST[0] == 'a' && SECOND[0] == 'b';
  }

  lemma {:induction false} FirstJoins(topic: string)
    ensures JoinGroup(NEW_GROUP, FIRST, Ask("a", topic)) == Alone(CompletingRebalance, topic, [])
  {
    var q := Ask("a", topic);
    var b := Enroll(BeginRebalance(NEW_GROUP), FIRST, q);
    assert b.members == map[FIRST := Joined("a", topic, [], true)];
    LeastIsUnique({FIRST}, Least({FIRST}), FIRST);
    assert b.members.Keys == {FIRST};
    assert EveryoneSupports(b.members, "range");
    assert CommonProtocol(b.members, ["range"]) == "range";
  }

  lemma {:induction false} SecondJoins(g: Group, topic: string, held: Bytes, other: string)
    requires g == Alone(CompletingRebalance, topic, held) || g == Alone(Stable, topic, held)
    ensures JoinGroup(g, SECOND, Ask("b", other))
         == Both(PreparingRebalance, 1, Joined("a", topic, held, false), Joined("b", other, [], true))
  {
    Ids();
    var h := Enroll(BeginRebalance(g), SECOND, Ask("b", other));
    assert BeginRebalance(g).members == map[FIRST := Joined("a", topic, held, false)];
    assert !h.members[FIRST].rejoined;
    assert h == Both(PreparingRebalance, 1, Joined("a", topic, held, false), Joined("b", other, [], true));
  }

  lemma {:induction false} FirstRejoins(topic: string, held: Bytes, other: string)
    ensures var g := Both(PreparingRebalance, 1, Joined("a", topic, held, false), Joined("b", other, [], true));
            var h := Both(CompletingRebalance, 2, Joined("a", topic, held, true), Joined("b", other, [], true));
            JoinGroup(g, FIRST, Ask("a", topic)) == h && JoinAnswer(g, FIRST, Ask("a", topic)) == ResultFor(h, FIRST)
  {
    Ids();
    var g := Both(PreparingRebalance, 1, Joined("a", topic, held, false), Joined("b", other, [], true));
    var b := Enroll(g, FIRST, Ask("a", topic));
    assert b.members == map[FIRST := Joined("a", topic, held, true), SECOND := Joined("b", other, [], true)];
    assert b.members.Keys == {FIRST, SECOND};
    LeastIsUnique({FIRST, SECOND}, Least({FIRST, SECOND}), FIRST);
    assert EveryoneSupports(b.members, "range");
    assert CommonProtocol(b.members, ["range"]) == "range";
  }

  /** One call, put in front of the rest of a run. */
  lemma {:induction false} Then(w: World, cluster: map<string, int>, e: Event, es: seq<Event>)
    ensures RunFrom(w, [e] + es) == RunFrom(Advance(w, e), es)
    ensures Honest(w, cluster, e) && Possible(Advance(w, e), cluster, es) ==> Possible(w, cluster, [e] + es)
  {
    assert ([e] + es)[1..] == es;
  }

  function Only(gid: string, g: Group, next: nat): Coordinator { Coordinator(map[gid := g], next) }

  lemma {:induction false} FirstIn(gid: string, topic: string)
    requires gid != ""
    ensures MemberIds.Step(FRESH, Joining(gid, "", Ask("a", topic))) == Only(gid, Alone(CompletingRebalance, topic, []), 2)
  {
    Ids();
    FirstJoins(topic);
  }

  lemma {:induction false} SecondIn(gid: string, g: Group, topic: string, held: Bytes, other: string)
    requires gid != "" && (g == Alone(CompletingRebalance, topic, held) || g == Alone(Stable, topic, held))
    ensures MemberIds.Step(Only(gid, g, 2), Joining(gid, "", Ask("b", other)))
         == Only(gid, Both(PreparingRebalance, 1, Joined("a", topic, held, false), Joined("b", other, [], true)), 3)
  {
    Ids();
    SecondJoins(g, topic, held, other);
  }

  lemma {:induction false} FirstBack(gid: string, topic: string, held: Bytes, other: string)
    requires gid != ""
    ensures var c := Only(gid, Both(PreparingRebalance, 1, Joined("a", topic, held, false), Joined("b", other, [], true)), 3);
            var g := Both(CompletingRebalance, 2, Joined("a", topic, held, true), Joined("b", other, [], true));
            && MemberIds.Step(c, Joining(gid, FIRST, Ask("a", topic))) == Only(gid, g, 3)
            && Heard(c, Joining(gid, FIRST, Ask("a", topic))) == {Told(gid, FIRST, 2, SubsOf(g.members))}
  {
    FirstRejoins(topic, held, other);
  }

  const T0 := A.TopicPartition("t", 0)
  const U0 := A.TopicPartition("u", 0)
  const CLUSTER: map<string, int> := map["t" := 1, "u" := 1]

  /** The bytes that carry the one partition of the first topic. */
  ghost function OneHeld(): Bytes
    ensures Carries(OneHeld(), [T0])
  {
    assert IsWalk(["t"], K.Topics([T0])) by { assert ["t"][0] in ["t"]; }
    EncodedCarries([T0], ["t"]);
    K.Encode(K.Entries([T0], ["t"]))
  }

  /** The leader's sync: what it sends is stored, and everyone else keeps what they have. */
  lemma {:induction false} FirstSyncs(gid: string, g: Group, next: nat, assignments: map<string, Bytes>)
    requires g.state == CompletingRebalance && g.leaderId == FIRST && FIRST in g.members
    requires g.members[FIRST].lastHeartbeatMs == 0
    ensures MemberIds.Step(Only(gid, g, next), Syncing(gid, FIRST, g.generation, assignments, 0))
         == Only(gid, g.(state := Stable, members := Assigned(g.members, assignments)), next)
  {
    assert Touch(g, FIRST, 0) == g;
  }

  lemma {:induction false} AssignedBoth(g: Group, assignments: map<string, Bytes>, first: Member, second: Member)
    requires g == Both(g.state, g.generation, first, second)
    ensures Assigned(g.members, assignments)
         == map[FIRST := if FIRST in assignments then first.(assignment := assignments[FIRST]) else first,
                SECOND := if SECOND in assignments then second.(assignment := assignments[SECOND]) else second]
  {
    Ids();
  }

  /** The one hosted partition of the leader's topic, to the leader, who alone wants it. */
  lemma {:induction false} OneShare()
    ensures A.IsAssignment(A.Input(map[FIRST := ["t"], SECOND := ["u"]], map["t" := 1]), map[FIRST := [T0], SECOND := []])
  {
    Ids();
    var input := A.Input(map[FIRST := ["t"], SECOND := ["u"]], map["t" := 1]);
    var a: A.Assignment := map[FIRST := [T0], SECOND := []];
    forall id, tp ensures A.Holds(a, id, tp) <==> id == FIRST && tp == T0 {
    }
    forall id, tp | A.Exists(input, tp) && A.Wants(input, id, tp.topic) ensures A.Holds(a, FIRST, tp) {
      assert tp == T0;
    }
  }

  /** What the leader sends for it. */
  function Sent(bytes: Bytes): map<string, Bytes> { map[FIRST := bytes, SECOND := []] }

  lemma {:induction false} OneComputed(gid: string, subs: Subscriptions, bytes: Bytes)
    requires subs == map[FIRST := ["t"], SECOND := ["u"]] && Carries(bytes, [T0])
    ensures Computed(Told(gid, FIRST, 2, subs), CLUSTER, map[FIRST := [T0], SECOND := []], Sent(bytes))
  {
    Ids();
    assert Described(CLUSTER, ["t"]) == map["t" := 1];
    OneShare();
    NothingCarried();
  }

  lemma {:induction false} BothSubscribe(g: Group)
    requires g == Both(CompletingRebalance, 2, Joined("a", "t", [], true), Joined("b", "u", [], true))
    ensures SubsOf(g.members) == map[FIRST := ["t"], SECOND := ["u"]]
  {
    Ids();
  }

  /** An honest sync at the second generation: the leader shares out its own topic, which only it wants. */
  lemma {:induction false} HonestSync(w: World, gid: string, g: Group, bytes: Bytes)
    requires g == Both(CompletingRebalance, 2, Joined("a", "t", [], true), Joined("b", "u", [], true))
    requires Told(gid, FIRST, 2, SubsOf(g.members)) in w.told && Carries(bytes, [T0])
    ensures Honest(w, CLUSTER, Syncing(gid, FIRST, 2, Sent(bytes), 0))
  {
    BothSubscribe(g);
    OneComputed(gid, SubsOf(g.members), bytes);
    assert Matches(Told(gid, FIRST, 2, SubsOf(g.members)), Syncing(gid, FIRST, 2, Sent(bytes), 0));
  }

  lemma {:induction false} NothingCarried()
    ensures Carries([], [])
  {
    assert K.Decode([]) == Some([]);
  }

  /**
   Honest all the way, and yet a hosted partition a member subscribes to goes to nobody: the leader
   asks about its own topic only.
   */
  lemma {:induction false} FollowersTopicIsLost(gid: string) returns (es: seq<Event>)
    requires gid != ""
    ensures Possible(BEGIN, CLUSTER, es)
    ensures var c := RunFrom(BEGIN, es).c;
            && gid in c.groups && c.groups[gid].state == Stable
            && Wanted(c.groups[gid], CLUSTER, U0) && !Owned(c.groups[gid], U0)
            && Owned(c.groups[gid], T0)
  {
    var bytes := OneHeld();
    var sent := Sent(bytes);
    var one, two := Joining(gid, "", Ask("a", "t")), Joining(gid, "", Ask("b", "u"));
    var three, four := Joining(gid, FIRST, Ask("a", "t")), Syncing(gid, FIRST, 2, sent, 0);
    var g := Both(CompletingRebalance, 2, Joined("a", "t", [], true), Joined("b", "u", [], true));
    var w1 := Advance(BEGIN, one);
    var w2 := Advance(w1, two);
    var w3 := Advance(w2, three);
    var w4 := Advance(w3, four);
    FirstIn(gid, "t");
    SecondIn(gid, Alone(CompletingRebalance, "t", []), "t", [], "u");
    FirstBack(gid, "t", [], "u");
    assert w3.c == Only(gid, g, 3);
    FirstSyncs(gid, g, 3, sent);
    AssignedBoth(g, sent, Joined("a", "t", [], true), Joined("b", "u", [], true));
    HonestSync(w3, gid, g, bytes);
    es := [];
    assert Possible(w4, CLUSTER, es) && RunFrom(w4, es) == w4;
    Then(w3, CLUSTER, four, es); es := [four] + es;
    Then(w2, CLUSTER, three, es); es := [three] + es;
    Then(w1, CLUSTER, two, es); es := [two] + es;
    Then(BEGIN, CLUSTER, one, es); es := [one] + es;
    LostIn(w4.c.groups[gid], bytes);
  }

  lemma {:induction false} LostIn(g: Group, bytes: Bytes)
    requires g.members == map[FIRST := Joined("a", "t", bytes, true), SECOND := Joined("b", "u", [], true)]
    requires Carries(bytes, [T0])
    ensures Wanted(g, CLUSTER, U0) && !Owned(g, U0) && Owned(g, T0)
  {
    Ids();
    assert K.Decode([]) == Some([]);
    assert "u" in g.members[SECOND].subscription;
    assert Owns(g, FIRST, T0);
    forall id ensures !Owns(g, id, U0) {
    }
  }

  /** The calls of the run below, one by one. */
  lemma {:induction false} OmissionSteps(gid: string, bytes: Bytes)
    requires gid != ""
    ensures var early: map<string, Bytes>, late: map<string, Bytes> := map[FIRST := bytes], map[SECOND := bytes];
            var a, b := Joined("a", "t", bytes, true), Joined("b", "t", [], true);
            var c1 := Only(gid, Alone(CompletingRebalance, "t", []), 2);
            var c2 := Only(gid, Alone(Stable, "t", bytes), 2);
            var c3 := Only(gid, Both(PreparingRebalance, 1, a.(rejoined := false), b), 3);
            var c4 := Only(gid, Both(CompletingRebalance, 2, a, b), 3);
            && MemberIds.Step(FRESH, Joining(gid, "", Ask("a", "t"))) == c1
            && MemberIds.Step(c1, Syncing(gid, FIRST, 1, early, 0)) == c2
            && MemberIds.Step(c2, Joining(gid, "", Ask("b", "t"))) == c3
            && MemberIds.Step(c3, Joining(gid, FIRST, Ask("a", "t"))) == c4
            && MemberIds.Step(c4, Syncing(gid, FIRST, 2, late, 0))
               == Only(gid, Both(Stable, 2, a, Joined("b", "t", bytes, true)), 3)
  {
    var early: map<string, Bytes>, late: map<string, Bytes> := map[FIRST := bytes], map[SECOND := bytes];
    var a, b := Joined("a", "t", bytes, true), Joined("b", "t", [], true);
    Ids();
    FirstIn(gid, "t");
    var alone := Alone(CompletingRebalance, "t", []);
    FirstSyncs(gid, alone, 2, early);
    assert Assigned(alone.members, early) == map[FIRST := a];
    SecondIn(gid, Alone(Stable, "t", bytes), "t", bytes, "t");
    FirstBack(gid, "t", bytes, "t");
    var both := Both(CompletingRebalance, 2, a, b);
    FirstSyncs(gid, both, 3, late);
    AssignedBoth(both, late, a, b);
  }

  /**
   A leader that leaves a member out: the first member shares its topic out to itself, a second joins,
   and the next sync names the second only. Nothing clears what the first had, and now both own it.
   */
  lemma {:induction false} OmissionCollides(gid: string) returns (es: seq<Event>)
    requires gid != ""
    ensures var c := RunFrom(BEGIN, es).c;
            && gid in c.groups && c.groups[gid].state == Stable
            && Owns(c.groups[gid], FIRST, T0) && Owns(c.groups[gid], SECOND, T0) && FIRST != SECOND
  {
    var bytes := OneHeld();
    OmissionSteps(gid, bytes);
    es := Five(Joining(gid, "", Ask("a", "t")), Syncing(gid, FIRST, 1, map[FIRST := bytes], 0),
               Joining(gid, "", Ask("b", "t")), Joining(gid, FIRST, Ask("a", "t")),
               Syncing(gid, FIRST, 2, map[SECOND := bytes], 0));
    BothOwn(Both(Stable, 2, Joined("a", "t", bytes, true), Joined("b", "t", bytes, true)), bytes);
  }

  lemma {:induction false} BothOwn(g: Group, bytes: Bytes)
    requires g == Both(g.state, 2, Joined("a", "t", bytes, true), Joined("b", "t", bytes, true)) && Carries(bytes, [T0])
    ensures Owns(g, FIRST, T0) && Owns(g, SECOND, T0)
  {
    Ids();
    assert T0 in [T0];
  }

  /** Five calls, one after another. */
  lemma {:induction false} Five(a: Event, b: Event, c: Event, d: Event, e: Event) returns (es: seq<Event>)
    ensures RunFrom(BEGIN, es).c
         == MemberIds.Step(MemberIds.Step(MemberIds.Step(MemberIds.Step(MemberIds.Step(FRESH, a), b), c), d), e)
  {
    var w1 := Advance(BEGIN, a);
    var w2 := Advance(w1, b);
    var w3 := Advance(w2, c);
    var w4 := Advance(w3, d);
    es := [];
    Then(w4, map[], e, es); es := [e] + es;
    Then(w3, map[], d, es); es := [d] + es;
    Then(w2, map[], c, es); es := [c] + es;
    Then(w1, map[], b, es); es := [b] + es;
    Then(BEGIN, map[], a, es); es := [a] + es;
  }
}
