/**
 The client's side: joining, and as leader computing everyone's share out and encoding it.
 Network calls go straight to the coordinator.
 */
module GroupConsumers {
  import opened Prelude
  import opened Names
  import opened Wire
  import opened GroupCoordinators
  import A = Assignor
  import Buffer
  import G = Groups
  import K = AssignmentCodec
  import M = MemberIds
  import R = GroupRuns
  import RoundRobin

  const MAX_ROUNDS: nat := 50

  /** The partitions there are. */
  ghost function Partitions(counts: map<string, int>): set<A.TopicPartition> {
    set t, p | t in counts && 0 <= p < counts[t] :: A.TopicPartition(t, p)
  }

  /** Topic names, partition numbers and counts within what the assignment's fields can carry. */
  ghost predicate Carriable(counts: map<string, int>) {
    && (forall t :: t in counts ==> Narrow(t) && |t| <= MAX_INT16 && Buffer.Fits(counts[t], INT32))
    && Buffer.Fits(|Partitions(counts)|, INT32)
  }

  lemma {:induction false} NoMoreThan<T>(s: seq<T>, all: set<T>)
    requires NoRepeats(s) && forall x :: x in s ==> x in all
    ensures |s| <= |all|
  {
    if s != [] {
      var init, x := s[..|s| - 1], s[|s| - 1];
      assert s == init + [x];
      NoMoreThan(init, all - {x});
    }
  }

  /** Every member's share of an assignment can be encoded. */
  lemma {:induction false} SharesAreEncodable(input: A.Input, a: A.Assignment, id: string)
    requires A.IsAssignment(input, a) && Carriable(input.counts) && id in a
    ensures K.Encodable(a[id])
  {
    forall tp | tp in a[id] ensures A.Exists(input, tp) && tp in Partitions(input.counts) {
      assert A.Holds(a, id, tp);
      assert tp == A.TopicPartition(tp.topic, tp.partition);
    }
    NoMoreThan(a[id], Partitions(input.counts));
    forall i | 0 <= i < |a[id]|
      ensures Narrow(a[id][i].topic) && |a[id][i].topic| <= MAX_INT16 && Buffer.Fits(a[id][i].partition, INT32)
    {
      var tp := a[id][i];
      assert tp in a[id] && A.Exists(input, tp);
    }
  }

  /** One entry per member, each encoded. */
  method EncodeAll(input: A.Input, a: A.Assignment) returns (assignments: map<string, Bytes>)
    requires A.IsAssignment(input, a) && Carriable(input.counts)
    ensures assignments.Keys == a.Keys && forall id :: id in a ==> R.Carries(assignments[id], a[id])
  {
    assignments := map[];
    var todo := a.Keys;
    while todo != {}
      invariant todo <= a.Keys && assignments.Keys == a.Keys - todo
      invariant forall id :: id in assignments ==> R.Carries(assignments[id], a[id])
      decreases |todo|
    {
      var id :| id in todo;
      SharesAreEncodable(input, a, id);
      var bytes := K.EncodeAssignment(a[id]);
      ghost var topics :| K.EncodedAs(a[id], topics, bytes);
      R.EncodedCarries(a[id], topics);
      assignments := assignments[id := bytes];
      todo := todo - {id};
    }
  }

  /** The counts the leader is told: of its own topics, those described without an error. */
  method CountsOf(topics: seq<string>, described: map<string, int>) returns (counts: map<string, int>)
    ensures counts == R.Described(described, topics)
  {
    counts := map[];
    var i := 0;
    while i < |topics|
      invariant i <= |topics|
      invariant forall t :: t in counts <==> t in topics[..i] && t in described
      invariant forall t :: t in counts ==> counts[t] == described[t]
    {
      assert topics[..i + 1] == topics[..i] + [topics[i]];
      if topics[i] in described { counts := counts[topics[i] := described[topics[i]]]; }
      i := i + 1;
    }
    assert topics[..i] == topics;
    assert counts == R.Described(described, topics);
  }

  method Compute(strategy: string, input: A.Input) returns (a: A.Assignment)
    ensures A.IsAssignment(input, a)
  {
    if strategy == "roundrobin" {
      a := RoundRobin.AssignRoundRobin(input);
    } else {
      a := A.AssignRange(input);
      ghost var ids, topics :| A.IsRange(input, ids, topics, a);
      A.RangeIsAssignment(input, ids, topics, a);
    }
  }

  /** The member a settled group took in is the one that asked, with what it asked for. */
  lemma {:induction false} JoinedAsAsked(g: G.Group, id: string, q: G.Request)
    requires G.JoinAnswer(g, id, q).error == G.NoError
    ensures var h := G.JoinGroup(g, id, q);
            id in h.members && h.members[id].subscription == q.subscription && G.JoinAnswer(g, id, q) == G.ResultFor(h, id)
  {
    if !G.IsRetry(g, id, q) {
      M.CompleteKeys(G.Enroll(if g.state == G.PreparingRebalance then g else G.BeginRebalance(g), id, q));
    }
  }

  class GroupConsumer {
    const groupId: string
    const clientId: string
    const topics: seq<string>
    const strategy: string
    const sessionTimeoutMs: int
    var memberId: string
    var generation: int
    var isLeader: bool
    var assignment: seq<A.TopicPartition>

    constructor (groupId: string, clientId: string, topics: seq<string>, strategy: string, sessionTimeoutMs: int)
      ensures memberId == "" && generation == -1 && !isLeader && assignment == []
    {
      this.groupId, this.clientId, this.topics, this.strategy := groupId, clientId, topics, strategy;
      this.sessionTimeoutMs := sessionTimeoutMs;
      memberId, generation, isLeader, assignment := "", -1, false, [];
    }

    /** Whether this member's stored assignment, as the coordinator has it, is this list. */
    ghost predicate Given(c: G.Coordinator, held: seq<A.TopicPartition>)
      reads this
    {
      && M.MemberOf(c, groupId, memberId) && c.groups[groupId].generation == generation
      && K.Decode(c.groups[groupId].members[memberId].assignment) == Some(held)
    }

    /**
     syncAsLeader. What it sends is what the coordinator's runs assume of an honest leader: its
     assignor's output for the list it was told. A refusal by reason of expiry forgets the member id.
     */
    method SyncAsLeader(coordinator: GroupCoordinator, members: map<string, seq<string>>, described: map<string, int>, nowMs: int)
      returns (held: Option<seq<A.TopicPartition>>, ghost a: A.Assignment, ghost sent: map<string, Bytes>)
      requires memberId in members && members[memberId] == topics && Carriable(described)
      modifies this`memberId, coordinator
      ensures R.Computed(R.Told(groupId, old(memberId), generation, members), described, a, sent)
      ensures var (c, r) := G.Sync(old(coordinator.Value()), groupId, old(memberId), generation, sent, nowMs);
              && coordinator.Value() == c
              && held == (if r.error == G.NoError then K.Decode(r.assignment) else None)
              && memberId == if r.error == G.UnknownMemberId then "" else old(memberId)
    {
      var told := CountsOf(topics, described);
      FewerIsCarriable(told, described);
      var input := A.Input(members, told);
      var computed := Compute(strategy, input);
      a := computed;
      var assignments := EncodeAll(input, computed);
      sent := assignments;
      var r := coordinator.Sync(groupId, memberId, generation, assignments, nowMs);
      if r.error != G.NoError {
        if r.error == G.UnknownMemberId { memberId := ""; }
        return None, a, sent;
      }
      held := K.DecodeAssignment(r.assignment);
    }

    /** A follower's wait for its slice, a bounded number of rounds long. */
    method SyncAsFollower(coordinator: GroupCoordinator, nowMs: int) returns (held: Option<seq<A.TopicPartition>>)
      modifies this`memberId, coordinator
      ensures memberId == old(memberId) || memberId == ""
      ensures held.Some? ==> memberId == old(memberId) && Given(coordinator.Value(), held.value)
    {
      var wait := 0;
      while wait < MAX_ROUNDS
        invariant memberId == old(memberId)
      {
        ghost var before := coordinator.Value();
        var r := coordinator.Sync(groupId, memberId, generation, map[], nowMs);
        if r.error == G.RebalanceInProgress {
          wait := wait + 1;
          continue;
        }
        if r.error != G.NoError {
          if r.error == G.UnknownMemberId { memberId := ""; }
          return None;
        }
        SyncedIsStored(before, groupId, memberId, generation, map[], nowMs);
        held := K.DecodeAssignment(r.assignment);
        return;
      }
      return None;
    }

    /** Nobody else is there: this consumer has no id yet and its group no members. */
    ghost predicate Sole(c: G.Coordinator)
      reads this
    {
      memberId == "" && groupId != "" && G.GroupOf(c, groupId).members == map[]
    }

    /**
     join. Retries until it holds an assignment, for a bounded number of rounds; what it then holds is
     what the coordinator has stored for it in the group's present generation. None is the failure after
     the last round, or a request refused for good. A consumer alone in its group joins at once, and
     holds every hosted partition of its topics and nothing else.
     */
    method Join(coordinator: GroupCoordinator, described: map<string, int>, nowMs: int) returns (held: Option<seq<A.TopicPartition>>)
      requires Carriable(described)
      modifies this, coordinator
      ensures held.Some? ==> assignment == held.value && Given(coordinator.Value(), held.value)
      ensures old(Sole(coordinator.Value())) ==> held.Some? && IsAllOf(held.value, described, topics)
    {
      var round := 0;
      while round < MAX_ROUNDS
        invariant old(Sole(coordinator.Value())) ==> round == 0 && coordinator.Value() == old(coordinator.Value()) && memberId == ""
      {
        var q := G.Request(clientId, topics, [strategy], sessionTimeoutMs, nowMs);
        ghost var before, asked := coordinator.Value(), memberId;
        var r := coordinator.Join(groupId, memberId, q);
        if old(Sole(coordinator.Value())) { SoleJoins(before, groupId, q); }
        if r.memberId != "" { memberId := r.memberId; }
        round := round + 1;
        if r.error == G.RebalanceInProgress { continue; }
        if r.error == G.UnknownMemberId {
          memberId := "";
          continue;
        }
        if r.error != G.NoError { return None; }
        AcceptedJoin(before, groupId, asked, q);
        generation, isLeader := r.generation, r.memberId == r.leaderId;
        if isLeader {
          held := LeadOnce(coordinator, r.members, described, nowMs);
        } else {
          held := SyncAsFollower(coordinator, nowMs);
        }
        if held.Some? {
          assignment := held.value;
          return;
        }
      }
      return None;
    }

    /** One turn of leading: told who is there, the leader computes, syncs, and holds its own share. */
    method LeadOnce(coordinator: GroupCoordinator, members: G.Members, described: map<string, int>, nowMs: int)
      returns (held: Option<seq<A.TopicPartition>>)
      requires memberId in members && members[memberId].subscription == topics && Carriable(described)
      modifies this`memberId, coordinator
      ensures held.Some? ==> Given(coordinator.Value(), held.value)
      ensures old(Leads(coordinator.Value(), groupId, memberId, generation)) && members.Keys == {old(memberId)}
              ==> held.Some? && IsAllOf(held.value, described, topics)
    {
      ghost var before, id := coordinator.Value(), memberId;
      ghost var a, sent;
      var told := map m | m in members :: members[m].subscription;
      held, a, sent := SyncAsLeader(coordinator, told, described, nowMs);
      if Leads(before, groupId, id, generation) && members.Keys == {id} {
        LeaderIsGiven(before, groupId, id, generation, sent, nowMs);
        SoleShare(R.Told(groupId, id, generation, told), described, a, sent);
      }
      if held.Some? { SyncedIsStored(before, groupId, id, generation, sent, nowMs); }
    }
  }

  /** Exactly the hosted partitions of these topics. */
  ghost predicate IsAllOf(held: seq<A.TopicPartition>, described: map<string, int>, topics: seq<string>) {
    forall tp :: tp in held <==> R.Hosted(described, tp) && tp.topic in topics
  }

  /** The group waits for this member's sync as its leader. */
  ghost predicate Leads(c: G.Coordinator, groupId: string, id: string, generation: int) {
    && M.MemberOf(c, groupId, id) && c.groups[groupId].state == G.CompletingRebalance
    && c.groups[groupId].leaderId == id && c.groups[groupId].generation == generation
  }

  /** A first join completes at once, with the member that made it as leader. */
  lemma {:induction false} SoleJoins(c: G.Coordinator, groupId: string, q: G.Request)
    requires groupId != "" && G.GroupOf(c, groupId).members == map[]
    ensures var (c', r) := G.Join(c, groupId, "", q);
            && r.error == G.NoError && r.memberId != "" && r.leaderId == r.memberId
            && r.members.Keys == {r.memberId} && Leads(c', groupId, r.memberId, r.generation)
  {
    var g, id := G.GroupOf(c, groupId), G.MemberId(q.clientId, c.nextMemberId);
    var b := G.Enroll(if g.state == G.PreparingRebalance then g else G.BeginRebalance(g), id, q);
    assert b.members.Keys == {id};
    LeastIsUnique({id}, Least({id}), id);
    assert G.JoinGroup(g, id, q) == G.MaybeComplete(b);
  }

  lemma {:induction false} LeaderIsGiven(
    c: G.Coordinator, groupId: string, id: string, generation: int, sent: map<string, Bytes>, nowMs: int)
    requires Leads(c, groupId, id, generation) && id in sent
    ensures G.Sync(c, groupId, id, generation, sent, nowMs).1 == G.SyncResult(G.NoError, sent[id])
  {
  }

  /** Alone, the leader's share is everything of its topics that is hosted, and decodes to that. */
  lemma {:induction false} SoleShare(t: R.Told, described: map<string, int>, a: A.Assignment, sent: map<string, Bytes>)
    requires R.Computed(t, described, a, sent) && t.subs.Keys == {t.memberId}
    ensures t.memberId in sent && K.Decode(sent[t.memberId]).Some?
    ensures IsAllOf(K.Decode(sent[t.memberId]).value, described, t.subs[t.memberId])
  {
    var id := t.memberId;
    var input := A.Input(t.subs, R.Described(described, t.subs[id]));
    assert A.IsAssignment(input, a) && id in a && R.Carries(sent[id], a[id]);
    forall tp ensures tp in a[id] <==> R.Hosted(described, tp) && tp.topic in t.subs[id] {
      assert tp in a[id] <==> A.Holds(a, id, tp);
      if R.Hosted(described, tp) && tp.topic in t.subs[id] {
        assert A.Exists(input, tp) && A.Wants(input, id, tp.topic);
        var h :| A.Holds(a, h, tp);
      }
    }
  }

  /** A join that is accepted leaves its member in the group, and tells a leader who subscribes to what. */
  lemma {:induction false} AcceptedJoin(c: G.Coordinator, groupId: string, memberId: string, q: G.Request)
    requires G.Join(c, groupId, memberId, q).1.error == G.NoError
    ensures var r := G.Join(c, groupId, memberId, q).1;
            && r.memberId != ""
            && (r.memberId == r.leaderId ==> r.memberId in r.members && r.members[r.memberId].subscription == q.subscription)
  {
    var g := G.GroupOf(c, groupId);
    var id := if memberId == "" then G.MemberId(q.clientId, c.nextMemberId) else memberId;
    JoinedAsAsked(g, id, q);
  }

  lemma {:induction false} FewerIsCarriable(counts: map<string, int>, described: map<string, int>)
    requires Carriable(described) && forall t :: t in counts ==> t in described && counts[t] == described[t]
    ensures Carriable(counts)
  {
    assert Partitions(counts) <= Partitions(described);
    SubsetIsSmaller(Partitions(counts), Partitions(described));
  }

  lemma {:induction false} SubsetIsSmaller<T>(a: set<T>, b: set<T>)
    requires a <= b
    ensures |a| <= |b|
  {
    if a != {} {
      var x :| x in a;
      SubsetIsSmaller(a - {x}, b - {x});
    }
  }

  /** A sync that succeeds answers with what the coordinator now has stored for that member. */
  lemma {:induction false} SyncedIsStored(
    c: G.Coordinator, groupId: string, id: string, generation: int, assignments: map<string, Bytes>, nowMs: int)
    requires G.Sync(c, groupId, id, generation, assignments, nowMs).1.error == G.NoError
    ensures var (c', r) := G.Sync(c, groupId, id, generation, assignments, nowMs);
            && M.MemberOf(c', groupId, id) && c'.groups[groupId].generation == generation
            && c'.groups[groupId].members[id].assignment == r.assignment
  {
    var g := c.groups[groupId];
    G.SyncedHas(g, id, generation, assignments, nowMs);
  }
}
