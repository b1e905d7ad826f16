/** The coordinator as it runs: its groups and its id counter updated in place, call by call. */
module GroupCoordinators {
  import opened Prelude
  import opened Names
  import G = Groups

  /** beginRebalanceLocked: everyone must rejoin. */
  method BeginRebalance(g: G.Group) returns (out: G.Group)
    ensures out == G.BeginRebalance(g)
  {
    var members := g.members;
    var todo := g.members.Keys;
    while todo != {}
      invariant todo <= g.members.Keys && members.Keys == g.members.Keys
      invariant forall id :: id in members ==>
                  members[id] == if id in todo then g.members[id] else g.members[id].(rejoined := false)
      decreases |todo|
    {
      var id :| id in todo;
      members := members[id := members[id].(rejoined := false)];
      todo := todo - {id};
    }
    assert members == G.BeginRebalance(g).members;
    out := g.(state := G.PreparingRebalance, members := members);
  }

  method SomeoneMissing(ms: G.Members) returns (missing: bool)
    ensures missing <==> !G.AllRejoined(ms)
  {
    var todo := ms.Keys;
    while todo != {}
      invariant todo <= ms.Keys && forall id :: id in ms && id !in todo ==> ms[id].rejoined
      decreases |todo|
    {
      var id :| id in todo;
      if !ms[id].rejoined { return true; }
      todo := todo - {id};
    }
    return false;
  }

  method Supported(ms: G.Members, p: string) returns (everyone: bool)
    ensures everyone <==> G.EveryoneSupports(ms, p)
  {
    var todo := ms.Keys;
    while todo != {}
      invariant todo <= ms.Keys && forall id :: id in ms && id !in todo ==> p in ms[id].protocols
      decreases |todo|
    {
      var id :| id in todo;
      if p !in ms[id].protocols { return false; }
      todo := todo - {id};
    }
    return true;
  }

  method ChooseProtocol(ms: G.Members, list: seq<string>) returns (p: string)
    ensures p == G.CommonProtocol(ms, list)
  {
    var rest := list;
    while rest != []
      invariant G.CommonProtocol(ms, rest) == G.CommonProtocol(ms, list)
      decreases |rest|
    {
      var everyone := Supported(ms, rest[0]);
      if everyone { return rest[0]; }
      rest := rest[1..];
    }
    return "";
  }

  /** maybeCompleteJoinLocked: if nobody is missing, the next generation starts and its leader is chosen. */
  method MaybeComplete(g: G.Group) returns (out: G.Group)
    ensures out == G.MaybeComplete(g)
  {
    if g.members == map[] { return g.(state := G.Empty, leaderId := ""); }
    var missing := SomeoneMissing(g.members);
    if missing { return g; }
    assert g.members.Keys != {};
    var leader := First(g.members.Keys);
    LeastIsUnique(g.members.Keys, leader, Least(g.members.Keys));
    var p := ChooseProtocol(g.members, g.members[leader].protocols);
    return g.(state := G.CompletingRebalance, generation := g.generation + 1, leaderId := leader, protocolName := p);
  }

  lemma {:induction false} Overwrite<K, V>(m: map<K, V>, k: K, a: V, b: V)
    ensures m[k := a][k := b] == m[k := b]
  {
  }

  /** join, past the checks. A retry collects the result; anything else is a rebalance, finished if nobody is missing. */
  method JoinOne(was: G.Group, id: string, q: G.Request) returns (g: G.Group, r: G.JoinResult)
    ensures g == G.JoinGroup(was, id, q) && r == G.JoinAnswer(was, id, q)
  {
    g := was;
    var settled := g.state == G.CompletingRebalance || g.state == G.Stable;
    var same := id in g.members && g.members[id].subscription == q.subscription && g.members[id].protocols == q.protocols;
    var isRetry := settled && same && g.members[id].rejoined;
    if isRetry {
      g := g.(members := g.members[id := g.members[id].(lastHeartbeatMs := q.nowMs)]);
      return g, G.ResultFor(g, id);
    }
    if g.state != G.PreparingRebalance { g := BeginRebalance(g); }
    var assignment := if id in g.members then g.members[id].assignment else [];
    var timeout := if 0 < q.sessionTimeoutMs then q.sessionTimeoutMs else G.DEFAULT_SESSION_TIMEOUT;
    var member := G.Member(q.clientId, q.subscription, q.protocols, assignment, timeout, q.nowMs, true);
    g := g.(members := g.members[id := member]);
    assert g == G.Enroll(if was.state == G.PreparingRebalance then was else G.BeginRebalance(was), id, q);
    g := MaybeComplete(g);
    return g, if g.state == G.PreparingRebalance then G.Rejected(G.RebalanceInProgress, id) else G.ResultFor(g, id);
  }

  method ToDecimal(n: nat) returns (s: string)
    ensures s == G.Decimal(n)
  {
    s := "";
    var rest: nat := n;
    while 10 <= rest
      invariant G.Decimal(n) == G.Decimal(rest) + s
    {
      assert G.Decimal(rest) + s == G.Decimal(rest / 10) + ([G.DIGITS[rest % 10]] + s);
      s := [G.DIGITS[rest % 10]] + s;
      rest := rest / 10;
    }
    s := [G.DIGITS[rest]] + s;
  }

  class GroupCoordinator {
    var groups: map<string, G.Group>
    var nextMemberId: nat

    function Value(): G.Coordinator
      reads this
    {
      G.Coordinator(groups, nextMemberId)
    }

    constructor ()
      ensures Value() == G.Coordinator(map[], 1)
    {
      groups, nextMemberId := map[], 1;
    }

    /** groupFor: the group of this name, created empty if there is none. */
    method GroupFor(groupId: string) returns (g: G.Group)
      modifies this`groups
      ensures g == G.GroupOf(old(Value()), groupId) && groups == old(groups)[groupId := g]
    {
      if groupId !in groups { groups := groups[groupId := G.NEW_GROUP]; }
      g := groups[groupId];
      assert groups == old(groups)[groupId := g];
    }

    method Join(groupId: string, memberId: string, q: G.Request) returns (r: G.JoinResult)
      modifies this
      ensures (Value(), r) == G.Join(old(Value()), groupId, memberId, q)
    {
      if groupId == "" { return G.Rejected(G.InvalidGroupId, ""); }
      var found := GroupFor(groupId);
      var id := memberId;
      if id == "" {
        var n := ToDecimal(nextMemberId);
        id := q.clientId + ("-" + n);
        nextMemberId := nextMemberId + 1;
      } else if id !in found.members {
        return G.Rejected(G.UnknownMemberId, "");
      }
      var g;
      g, r := JoinOne(found, id, q);
      Overwrite(old(groups), groupId, found, g);
      groups := groups[groupId := g];
    }

    /** sync. The leader's first sync of a generation stores what it sent; everyone collects their own. */
    method Sync(groupId: string, memberId: string, generation: int, assignments: map<string, Bytes>, nowMs: int)
      returns (r: G.SyncResult)
      modifies this
      ensures (Value(), r) == G.Sync(old(Value()), groupId, memberId, generation, assignments, nowMs)
    {
      if groupId !in groups { return G.SyncResult(G.UnknownMemberId, []); }
      var g := groups[groupId];
      assert groups == groups[groupId := g];
      if memberId !in g.members { return G.SyncResult(G.UnknownMemberId, []); }
      if generation != g.generation { return G.SyncResult(G.IllegalGeneration, []); }
      if g.state == G.PreparingRebalance { return G.SyncResult(G.RebalanceInProgress, []); }
      g := g.(members := g.members[memberId := g.members[memberId].(lastHeartbeatMs := nowMs)]);
      groups := groups[groupId := g];
      if g.state == G.CompletingRebalance {
        if memberId != g.leaderId { return G.SyncResult(G.RebalanceInProgress, []); }
        var stored := StoreAssignments(g.members, assignments);
        g := g.(members := stored, state := G.Stable);
        groups := groups[groupId := g];
      }
      assert groups == old(groups)[groupId := g];
      return G.SyncResult(G.NoError, g.members[memberId].assignment);
    }

    method Heartbeat(groupId: string, memberId: string, generation: int, nowMs: int) returns (e: G.ErrorCode)
      modifies this
      ensures (Value(), e) == G.Heartbeat(old(Value()), groupId, memberId, generation, nowMs)
    {
      if groupId !in groups { return G.UnknownMemberId; }
      var g := groups[groupId];
      if memberId !in g.members { return G.UnknownMemberId; }
      if generation != g.generation { return G.IllegalGeneration; }
      if g.state == G.PreparingRebalance { return G.RebalanceInProgress; }
      groups := groups[groupId := g.(members := g.members[memberId := g.members[memberId].(lastHeartbeatMs := nowMs)])];
      return G.NoError;
    }

    method Leave(groupId: string, memberId: string) returns (e: G.ErrorCode)
      modifies this
      ensures (Value(), e) == G.Leave(old(Value()), groupId, memberId)
    {
      if groupId !in groups { return G.UnknownMemberId; }
      var g := groups[groupId];
      if memberId !in g.members { return G.UnknownMemberId; }
      g := g.(members := g.members - {memberId});
      g := BeginRebalance(g);
      g := MaybeComplete(g);
      groups := if g.members == map[] then groups - {groupId} else groups[groupId := g];
      return G.NoError;
    }

    /** expire. Drops every member not heard from within its own timeout, group by group. */
    method Expire(nowMs: int)
      modifies this
      ensures Value() == G.Expire(old(Value()), nowMs)
    {
      ghost var before := groups;
      var todo := groups.Keys;
      while todo != {}
        invariant todo <= before.Keys && nextMemberId == old(nextMemberId)
        invariant Swept(before, groups, todo, nowMs)
        decreases |todo|
      {
        var id :| id in todo;
        ghost var was := groups;
        var g := ExpireOne(groups[id], nowMs);
        groups := if g.members == map[] then groups - {id} else groups[id := g];
        SweptStep(before, was, groups, todo, id, nowMs);
        todo := todo - {id};
      }
      assert groups == G.Expire(G.Coordinator(before, nextMemberId), nowMs).groups;
    }
  }

  /** Part-way through a sweep: the groups still to do are as they were, the others done. */
  ghost predicate Swept(before: map<string, G.Group>, groups: map<string, G.Group>, todo: set<string>, nowMs: int) {
    && (forall id :: id in groups <==> id in before && (id in todo || G.ExpireGroup(before[id], nowMs).members != map[]))
    && (forall id :: id in groups ==> groups[id] == if id in todo then before[id] else G.ExpireGroup(before[id], nowMs))
  }

  lemma {:induction false} SweptStep(
    before: map<string, G.Group>, was: map<string, G.Group>, groups: map<string, G.Group>, todo: set<string>, id: string, nowMs: int)
    requires Swept(before, was, todo, nowMs) && id in todo && id in before
    requires var g := G.ExpireGroup(before[id], nowMs); groups == if g.members == map[] then was - {id} else was[id := g]
    ensures Swept(before, groups, todo - {id}, nowMs)
  {
  }

  method StoreAssignments(ms: G.Members, assignments: map<string, Bytes>) returns (out: G.Members)
    ensures out == G.Assigned(ms, assignments)
  {
    out := ms;
    var todo := assignments.Keys;
    while todo != {}
      invariant todo <= assignments.Keys && out.Keys == ms.Keys
      invariant forall id :: id in ms ==>
                  out[id] == if id in assignments && id !in todo then ms[id].(assignment := assignments[id]) else ms[id]
      decreases |todo|
    {
      var id :| id in todo;
      if id in out { out := out[id := out[id].(assignment := assignments[id])]; }
      todo := todo - {id};
    }
  }

  method ExpireOne(g: G.Group, nowMs: int) returns (out: G.Group)
    ensures out == G.ExpireGroup(g, nowMs)
  {
    var members, lost := g.members, false;
    var todo := g.members.Keys;
    while todo != {}
      invariant todo <= g.members.Keys
      invariant forall id :: id in members <==> id in g.members && (id in todo || !G.TimedOut(g.members[id], nowMs))
      invariant forall id :: id in members ==> members[id] == g.members[id]
      invariant lost <==> exists id :: id in g.members && id !in members
      decreases |todo|
    {
      var id :| id in todo;
      if G.TimedOut(members[id], nowMs) {
        members, lost := members - {id}, true;
      }
      todo := todo - {id};
    }
    assert members == G.Survivors(g.members, nowMs);
    if !lost {
      assert members == g.members;
      return g;
    }
    var waiting := BeginRebalance(g.(members := members));
    out := MaybeComplete(waiting);
  }
}
