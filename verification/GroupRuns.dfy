/** Coordinator, leaders and assignors together, over whole runs. */
module GroupRuns {
  // Anyone may call anything at any time, except that whoever syncs as a leader sends what its assignor
  // made of the member list its join returned.

  import opened Prelude
  import opened Names
  import opened Groups
  import opened MemberIds
  import A = Assignor
  import K = AssignmentCodec
  import Buffer
  import Wire

  type Subscriptions = map<string, seq<string>>

  function SubsOf(ms: Members): Subscriptions { map id | id in ms :: ms[id].subscription }

  /** A member list a join returned to a leader. */
  datatype Told = Told(groupId: string, memberId: string, generation: int, subs: Subscriptions)

  datatype World = World(c: Coordinator, told: set<Told>)

  const BEGIN := World(FRESH, {})

  // --------------------------------------------------------------------- what leaders send

  /** These bytes decode to exactly these partitions. */
  ghost predicate Carries(bytes: Bytes, held: seq<A.TopicPartition>) {
    K.Decode(bytes).Some? && forall tp :: tp in K.Decode(bytes).value <==> tp in held
  }

  /** What encodeAssignment produces does. */
  lemma {:induction false} EncodedCarries(held: seq<A.TopicPartition>, topics: seq<string>)
    requires K.Encodable(held) && IsWalk(topics, K.Topics(held))
    ensures var es := K.Entries(held, topics);
            K.FitsEntries(es) && Buffer.Fits(|es|, Wire.INT32) && Carries(K.Encode(es), held)
  {
    K.AssignmentRoundTrip(held, topics);
  }

  /** What the broker describes when asked about these topics: the counts of those it hosts. */
  function Described(cluster: map<string, int>, topics: seq<string>): map<string, int> {
    map t | t in cluster && t in topics :: cluster[t]
  }

  /**
   The leader's sync: an assignment of the members it was told of, over the hosted partitions of the
   topics it subscribes to itself, which are the only ones it asks about.
   */
  ghost predicate Computed(t: Told, cluster: map<string, int>, a: A.Assignment, assignments: map<string, Bytes>) {
    && t.memberId in t.subs
    && A.IsAssignment(A.Input(t.subs, Described(cluster, t.subs[t.memberId])), a)
    && assignments.Keys == a.Keys
    && forall id :: id in a ==> Carries(assignments[id], a[id])
  }

  /** A sync that the coordinator would take as the leader's. */
  predicate LeadsSync(c: Coordinator, e: Event) {
    && e.Syncing? && e.groupId in c.groups
    && SyncError(c.groups[e.groupId], e.memberId, e.generation) == NoError
    && c.groups[e.groupId].state == CompletingRebalance && c.groups[e.groupId].leaderId == e.memberId
  }

  ghost predicate Matches(t: Told, e: Event) {
    e.Syncing? && t.groupId == e.groupId && t.memberId == e.memberId && t.generation == e.generation
  }

  ghost predicate Honest(w: World, cluster: map<string, int>, e: Event) {
    LeadsSync(w.c, e) ==>
      exists t: Told, a: A.Assignment :: t in w.told && Matches(t, e) && Computed(t, cluster, a, e.assignments)
  }

  ghost function Heard(c: Coordinator, e: Event): set<Told> {
    if !e.Joining? then {}
    else
      var r := Join(c, e.groupId, e.memberId, e.q).1;
      if r.error == NoError && r.members != map[] then {Told(e.groupId, r.memberId, r.generation, SubsOf(r.members))} else {}
  }

  ghost function Advance(w: World, e: Event): World { World(MemberIds.Step(w.c, e), w.told + Heard(w.c, e)) }

  /** A run in which every leader is honest about the partitions hosted. */
  ghost predicate Possible(w: World, cluster: map<string, int>, es: seq<Event>)
    decreases |es|
  {
    es == [] || (Honest(w, cluster, es[0]) && Possible(Advance(w, es[0]), cluster, es[1..]))
  }

  ghost function RunFrom(w: World, es: seq<Event>): World
    decreases |es|
  {
    if es == [] then w else RunFrom(Advance(w, es[0]), es[1..])
  }

  // ------------------------------------------------------------------ how a group can move

  /** Same generation, same leader, same members, each with the same subscription. */
  ghost predicate Frozen(g: Group, h: Group) {
    h.generation == g.generation && h.leaderId == g.leaderId && SubsOf(h.members) == SubsOf(g.members)
  }

  ghost predicate SameAssignments(g: Group, h: Group) {
    h.members.Keys == g.members.Keys && forall id :: id in g.members ==> h.members[id].assignment == g.members[id].assignment
  }

  ghost predicate Synced(g: Group, h: Group, assignments: map<string, Bytes>) {
    && g.state == CompletingRebalance && h.state == Stable && Frozen(g, h)
    && h.members.Keys == g.members.Keys
    && forall id :: id in g.members && id in assignments ==> h.members[id].assignment == assignments[id]
  }

  /** The only ways on: stay as you are, start waiting, complete with a new generation, or be synced. */
  ghost predicate Moves(c: Coordinator, e: Event, g: Group, h: Group) {
    || (h.state == g.state && Frozen(g, h) && SameAssignments(g, h))
    || (h.state == PreparingRebalance && h.generation == g.generation)
    || (h.state == CompletingRebalance && h.generation == g.generation + 1)
    || (h.state == Empty && h.members == map[])
    || (LeadsSync(c, e) && Synced(g, h, e.assignments))
  }

  lemma {:induction false} CompleteMoves(b: Group)
    requires b.state == PreparingRebalance
    ensures var h := MaybeComplete(b);
            || (h.state == PreparingRebalance && h.generation == b.generation)
            || (h.state == CompletingRebalance && h.generation == b.generation + 1)
            || (h.state == Empty && h.members == map[])
  {
  }

  lemma {:induction false} TouchIsStill(g: Group, id: string, nowMs: int)
    requires id in g.members
    ensures var h := Touch(g, id, nowMs); h.state == g.state && Frozen(g, h) && SameAssignments(g, h)
  {
    var h := Touch(g, id, nowMs);
    assert h.members.Keys == g.members.Keys;
    assert SubsOf(h.members) == SubsOf(g.members);
  }

  lemma {:induction false} JoinMoves(c: Coordinator, e: Event, g: Group, id: string, q: Request)
    ensures Moves(c, e, g, JoinGroup(g, id, q))
  {
    if IsRetry(g, id, q) {
      TouchIsStill(g, id, q.nowMs);
    } else {
      CompleteMoves(Enroll(if g.state == PreparingRebalance then g else BeginRebalance(g), id, q));
    }
  }

  lemma {:induction false} SyncMoves(c: Coordinator, e: Event, g: Group)
    requires e.Syncing? && e.groupId in c.groups && g == c.groups[e.groupId]
    ensures Moves(c, e, g, SyncGroup(g, e.memberId, e.generation, e.assignments, e.nowMs))
  {
    var h := SyncGroup(g, e.memberId, e.generation, e.assignments, e.nowMs);
    if SyncError(g, e.memberId, e.generation) == NoError {
      var t := Touch(g, e.memberId, e.nowMs);
      TouchIsStill(g, e.memberId, e.nowMs);
      if LeadsSync(c, e) {
        assert h.members.Keys == g.members.Keys;
        assert SubsOf(h.members) == SubsOf(t.members);
      }
    }
  }

  lemma {:induction false} Stays(c: Coordinator, e: Event, g: Group)
    ensures Moves(c, e, g, g)
  {
  }

  lemma {:induction false} LeaveMoves(c: Coordinator, e: Event, g: Group, id: string)
    ensures Moves(c, e, g, LeaveGroup(g, id))
  {
    CompleteMoves(BeginRebalance(g.(members := g.members - {id})));
  }

  lemma {:induction false} ExpireMoves(c: Coordinator, e: Event, g: Group, nowMs: int)
    ensures Moves(c, e, g, ExpireGroup(g, nowMs))
  {
    CompleteMoves(BeginRebalance(g.(members := Survivors(g.members, nowMs))));
  }

  lemma {:induction false} GroupMoves(c: Coordinator, e: Event, gid: string)
    requires gid in MemberIds.Step(c, e).groups
    ensures Moves(c, e, GroupOf(c, gid), MemberIds.Step(c, e).groups[gid])
  {
    Stays(c, e, GroupOf(c, gid));
    match e
    case Joining(g, mid, q) =>
      if gid == g { JoinMoves(c, e, GroupOf(c, g), if mid == "" then MemberId(q.clientId, c.nextMemberId) else mid, q); }
    case Syncing(g, mid, n, assignments, nowMs) =>
      if gid == g && g in c.groups { SyncMoves(c, e, c.groups[g]); }
    case Beating(g, mid, n, nowMs) =>
      if gid == g && SyncError(c.groups[g], mid, n) == NoError { TouchIsStill(c.groups[g], mid, nowMs); }
    case Leaving(g, mid) =>
      if gid == g { LeaveMoves(c, e, c.groups[g], mid); }
    case Expiring(nowMs) => ExpireMoves(c, e, c.groups[gid], nowMs);
  }

  // --------------------------------------------------------------------- the invariant

  /**
   A list a leader was told: as long as that leader is a member and its generation is the group's
   settled one, it is still exactly who is there and what they subscribe to.
   */
  ghost predicate StillTrue(c: Coordinator, t: Told) {
    && Issued(c, t.memberId)
    && (MemberOf(c, t.groupId, t.memberId) ==>
          var g := c.groups[t.groupId];
          && t.generation <= g.generation
          && (t.generation == g.generation && Settled(g) ==> t.subs == SubsOf(g.members)))
  }

  /** What the leader's assignor was given: the members' subscriptions, and the leader's own topics as hosted. */
  ghost function InputOf(g: Group, cluster: map<string, int>): A.Input
    requires g.leaderId in g.members
  {
    A.Input(SubsOf(g.members), Described(cluster, g.members[g.leaderId].subscription))
  }

  /** The members' stored assignments are this one. */
  ghost predicate SharedBy(g: Group, cluster: map<string, int>, a: A.Assignment) {
    && g.leaderId in g.members && A.IsAssignment(InputOf(g, cluster), a)
    && forall id :: id in g.members ==> id in a && Carries(g.members[id].assignment, a[id])
  }

  ghost predicate StableShares(g: Group, cluster: map<string, int>) {
    g.state == Stable ==> exists a: A.Assignment :: SharedBy(g, cluster, a)
  }

  ghost predicate WorldInv(w: World, cluster: map<string, int>) {
    && CoordInv(w.c)
    && (forall t :: t in w.told ==> StillTrue(w.c, t))
    && (forall gid :: gid in w.c.groups ==> StableShares(w.c.groups[gid], cluster))
  }

  lemma {:induction false} StayTrue(w: World, cluster: map<string, int>, e: Event, t: Told)
    requires WorldInv(w, cluster) && t in w.told
    ensures StillTrue(MemberIds.Step(w.c, e), t)
  {
    var c, c' := w.c, MemberIds.Step(w.c, e);
    StillIssued(c, e, t.memberId);
    if MemberOf(c', t.groupId, t.memberId) {
      MembersBefore(c, e, t.groupId, t.memberId);
      if e.Joining? { NewIdIsNew(c, e.q.clientId); }
      assert MemberOf(c, t.groupId, t.memberId);
      GroupMoves(c, e, t.groupId);
    }
  }

  /** What a join tells a leader is true when told. */
  lemma {:induction false} ToldIsTrue(c: Coordinator, e: Event, t: Told)
    requires CoordInv(c) && t in Heard(c, e)
    ensures StillTrue(MemberIds.Step(c, e), t)
  {
    var c' := MemberIds.Step(c, e);
    StepKeeps(c, e);
    var id := if e.memberId == "" then MemberId(e.q.clientId, c.nextMemberId) else e.memberId;
    JoinGroupKeys(GroupOf(c, e.groupId), id, e.q);
    assert MemberOf(c', t.groupId, t.memberId);
  }

  lemma {:induction false} SubsFix(ms: Members, ns: Members, id: string)
    requires SubsOf(ms) == SubsOf(ns) && id in ms
    ensures id in ns && ns[id].subscription == ms[id].subscription
  {
    assert id in SubsOf(ms) && SubsOf(ms)[id] == ms[id].subscription;
  }

  lemma {:induction false} FrozenShares(g: Group, h: Group, cluster: map<string, int>, a: A.Assignment)
    requires SharedBy(g, cluster, a) && Frozen(g, h) && SameAssignments(g, h)
    ensures SharedBy(h, cluster, a)
  {
    SubsFix(g.members, h.members, g.leaderId);
  }

  lemma {:induction false} SyncedShares(
    g: Group, h: Group, t: Told, assignments: map<string, Bytes>, cluster: map<string, int>, a: A.Assignment)
    requires Synced(g, h, assignments) && Computed(t, cluster, a, assignments)
    requires t.memberId == g.leaderId && t.subs == SubsOf(g.members)
    ensures SharedBy(h, cluster, a)
  {
    assert SubsOf(g.members).Keys == g.members.Keys;
    SubsFix(g.members, h.members, g.leaderId);
  }

  lemma {:induction false} SharesStep(w: World, cluster: map<string, int>, e: Event, gid: string)
    requires WorldInv(w, cluster) && Honest(w, cluster, e) && gid in MemberIds.Step(w.c, e).groups
    ensures StableShares(MemberIds.Step(w.c, e).groups[gid], cluster)
  {
    var g, h := GroupOf(w.c, gid), MemberIds.Step(w.c, e).groups[gid];
    if h.state == Stable {
      GroupMoves(w.c, e, gid);
      if g.state == Stable {
        var a: A.Assignment :| SharedBy(g, cluster, a);
        StableOnlyStays(w.c, e, g, h);
        FrozenShares(g, h, cluster, a);
      } else {
        assert LeadsSync(w.c, e) && Synced(g, h, e.assignments);
        SyncedHere(w, e, gid);
        var t: Told, a: A.Assignment :| t in w.told && Matches(t, e) && Computed(t, cluster, a, e.assignments);
        assert MemberOf(w.c, t.groupId, t.memberId) && StillTrue(w.c, t);
        SyncedShares(g, h, t, e.assignments, cluster, a);
      }
    }
  }

  lemma {:induction false} StableOnlyStays(c: Coordinator, e: Event, g: Group, h: Group)
    requires Moves(c, e, g, h) && g.state == Stable && h.state == Stable
    ensures Frozen(g, h) && SameAssignments(g, h)
  {
  }

  /** A sync moves its own group only. */
  lemma {:induction false} SyncedHere(w: World, e: Event, gid: string)
    requires LeadsSync(w.c, e) && gid in MemberIds.Step(w.c, e).groups
    requires GroupOf(w.c, gid).state != Stable && MemberIds.Step(w.c, e).groups[gid].state == Stable
    ensures gid == e.groupId
  {
  }

  lemma {:induction false} AdvanceKeeps(w: World, cluster: map<string, int>, e: Event)
    requires WorldInv(w, cluster) && Honest(w, cluster, e)
    ensures WorldInv(Advance(w, e), cluster)
  {
    StepKeeps(w.c, e);
    forall t | t in w.told + Heard(w.c, e) ensures StillTrue(MemberIds.Step(w.c, e), t) {
      if t in w.told { StayTrue(w, cluster, e, t); } else { ToldIsTrue(w.c, e, t); }
    }
    forall gid | gid in MemberIds.Step(w.c, e).groups ensures StableShares(MemberIds.Step(w.c, e).groups[gid], cluster) {
      SharesStep(w, cluster, e, gid);
    }
  }

  lemma {:induction false} RunKeepsWorld(w: World, cluster: map<string, int>, es: seq<Event>)
    requires WorldInv(w, cluster) && Possible(w, cluster, es)
    ensures WorldInv(RunFrom(w, es), cluster)
    decreases |es|
  {
    if es != [] {
      AdvanceKeeps(w, cluster, es[0]);
      RunKeepsWorld(Advance(w, es[0]), cluster, es[1..]);
    }
  }

  /** Member id's stored assignment has this partition. */
  ghost predicate Owns(g: Group, id: string, tp: A.TopicPartition) {
    id in g.members && K.Decode(g.members[id].assignment).Some? && tp in K.Decode(g.members[id].assignment).value
  }

  ghost predicate Subscribed(g: Group, topic: string) {
    exists id :: id in g.members && topic in g.members[id].subscription
  }

  predicate Hosted(cluster: map<string, int>, tp: A.TopicPartition) {
    tp.topic in cluster && 0 <= tp.partition < cluster[tp.topic]
  }

  /** One hosted partition of a topic somebody subscribes to. */
  ghost predicate Wanted(g: Group, cluster: map<string, int>, tp: A.TopicPartition) {
    Hosted(cluster, tp) && Subscribed(g, tp.topic)
  }

  ghost predicate Owned(g: Group, tp: A.TopicPartition) { exists id :: Owns(g, id, tp) }

  /**
   In every reachable stable group no partition is in two members' stored assignments, nobody has one
   that is not hosted or of a topic it did not ask for, and a hosted partition somebody wants is in
   somebody's if and only if the leader subscribes to its topic.
   */
  lemma {:induction false} StableGroupsShareOut(cluster: map<string, int>, es: seq<Event>, gid: string)
    requires Possible(BEGIN, cluster, es)
    requires var c := RunFrom(BEGIN, es).c; gid in c.groups && c.groups[gid].state == Stable
    ensures var g := RunFrom(BEGIN, es).c.groups[gid];
            && g.leaderId in g.members
            && (forall id, other, tp :: Owns(g, id, tp) && Owns(g, other, tp) ==> id == other)
            && (forall id, tp :: Owns(g, id, tp) ==> Hosted(cluster, tp) && tp.topic in g.members[id].subscription)
            && (forall tp :: Wanted(g, cluster, tp) ==>
                  (Owned(g, tp) <==> tp.topic in g.members[g.leaderId].subscription))
  {
    RunKeepsWorld(BEGIN, cluster, es);
    var g := RunFrom(BEGIN, es).c.groups[gid];
    var a: A.Assignment :| SharedBy(g, cluster, a);
    SharedOut(g, cluster, a);
  }

  lemma {:induction false} OwnsIsHolds(g: Group, cluster: map<string, int>, a: A.Assignment, id: string, tp: A.TopicPartition)
    requires SharedBy(g, cluster, a)
    ensures Owns(g, id, tp) <==> A.Holds(a, id, tp)
  {
  }

  lemma {:induction false} SharedOut(g: Group, cluster: map<string, int>, a: A.Assignment)
    requires SharedBy(g, cluster, a)
    ensures forall id, other, tp :: Owns(g, id, tp) && Owns(g, other, tp) ==> id == other
    ensures forall id, tp :: Owns(g, id, tp) ==> Hosted(cluster, tp) && tp.topic in g.members[id].subscription
    ensures forall tp :: Wanted(g, cluster, tp) ==> (Owned(g, tp) <==> tp.topic in g.members[g.leaderId].subscription)
  {
    var input := InputOf(g, cluster);
    forall id, tp ensures Owns(g, id, tp) <==> A.Holds(a, id, tp) { OwnsIsHolds(g, cluster, a, id, tp); }
    forall id, tp | Owns(g, id, tp)
      ensures Hosted(cluster, tp) && tp.topic in g.members[id].subscription && A.Exists(input, tp)
    {
      assert A.Holds(a, id, tp) && A.Wants(input, id, tp.topic);
    }
    forall tp | Wanted(g, cluster, tp) ensures Owned(g, tp) <==> tp.topic in g.members[g.leaderId].subscription {
      if tp.topic in g.members[g.leaderId].subscription {
        assert A.Exists(input, tp);
        var id :| id in g.members && tp.topic in g.members[id].subscription;
        assert A.Wants(input, id, tp.topic);
        var h :| A.Holds(a, h, tp);
        assert Owns(g, h, tp);
      }
    }
  }

  /** So all that is wanted is owned exactly when every hosted topic anybody wants is one of the leader's. */
  lemma {:induction false} AllSharedExactly(cluster: map<string, int>, es: seq<Event>, gid: string)
    requires Possible(BEGIN, cluster, es)
    requires var c := RunFrom(BEGIN, es).c; gid in c.groups && c.groups[gid].state == Stable
    ensures var g := RunFrom(BEGIN, es).c.groups[gid];
            && g.leaderId in g.members
            && ((forall tp :: Wanted(g, cluster, tp) ==> Owned(g, tp))
                <==> forall topic :: topic in cluster && 0 < cluster[topic] && Subscribed(g, topic)
                       ==> topic in g.members[g.leaderId].subscription)
  {
    StableGroupsShareOut(cluster, es, gid);
    var g := RunFrom(BEGIN, es).c.groups[gid];
    forall topic | topic in cluster && 0 < cluster[topic] && Subscribed(g, topic)
      ensures Wanted(g, cluster, A.TopicPartition(topic, 0))
    {
    }
  }

  /** There are such runs: a first member joins, leads itself, and syncs. */
  lemma {:induction false} StableIsReachable(gid: string, q: Request) returns (es: seq<Event>)
    requires gid != ""
    ensures Possible(BEGIN, map[], es)
    ensures var c := RunFrom(BEGIN, es).c; gid in c.groups && c.groups[gid].state == Stable
  {
    var id := MemberId(q.clientId, 1);
    var join, sync := Joining(gid, "", q), Syncing(gid, id, 1, map[id := []], q.nowMs);
    var joined := FirstJoin(gid, q);
    var w := Advance(BEGIN, join);
    var t := Told(gid, id, 1, map[id := q.subscription]);
    assert SubsOf(joined.members) == t.subs;
    assert t in w.told;
    var a: A.Assignment := map[id := []];
    assert K.Decode([]) == Some([]);
    assert Computed(t, map[], a, sync.assignments) && Matches(t, sync);
    assert Honest(w, map[], sync);
    es := [join, sync];
    assert es[1..] == [sync] && es[1..][1..] == [];
    assert Possible(Advance(w, sync), map[], []) && RunFrom(Advance(w, sync), []) == Advance(w, sync);
  }

  lemma {:induction false} FirstJoin(gid: string, q: Request) returns (g: Group)
    requires gid != ""
    ensures Advance(BEGIN, Joining(gid, "", q)).c.groups == map[gid := g]
    ensures var id := MemberId(q.clientId, 1);
            && Join(FRESH, gid, "", q).1 == ResultFor(g, id) && g.leaderId == id && g.generation == 1
            && g.state == CompletingRebalance && g.members.Keys == {id} && g.members[id].subscription == q.subscription
  {
    var id := MemberId(q.clientId, 1);
    g := JoinGroup(NEW_GROUP, id, q);
    var b := Enroll(BeginRebalance(NEW_GROUP), id, q);
    assert b.members.Keys == {id};
    LeastIsUnique({id}, Least({id}), id);
    assert g == MaybeComplete(b);
  }

  // ------------------------------------------------------- when a leader leaves members out

  /**
   sync never clears an old assignment. The members hold exactly what the leader sent, and nothing when
   it sent nothing, if and only if everyone it left out held nothing before.
   */
  lemma {:induction false} OmittedKeepStale(g: Group, assignments: map<string, Bytes>, nowMs: int)
    requires g.state == CompletingRebalance && g.leaderId in g.members
    ensures var h := SyncGroup(g, g.leaderId, g.generation, assignments, nowMs);
            (forall id :: id in h.members ==> h.members[id].assignment == if id in assignments then assignments[id] else [])
            <==> (forall id :: id in g.members && id !in assignments ==> g.members[id].assignment == [])
  {
    var h := SyncGroup(g, g.leaderId, g.generation, assignments, nowMs);
    var t := Touch(g, g.leaderId, nowMs);
    assert h.members == Assigned(t.members, assignments);
    assert forall id :: id in g.members ==> id in h.members && t.members[id].assignment == g.members[id].assignment;
    assert forall id :: id in h.members ==> id in g.members;
  }
}
