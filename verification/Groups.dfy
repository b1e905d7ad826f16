/** The consumer-group protocol, call by call, on one group. */
module Groups {
  // Assignments are opaque bytes; members are keyed by id, in an ordered map.

  import opened Prelude
  import opened Names

  datatype GroupState = Empty | PreparingRebalance | CompletingRebalance | Stable

  datatype ErrorCode = NoError | InvalidGroupId | UnknownMemberId | IllegalGeneration | RebalanceInProgress

  datatype Member = Member(
    clientId: string,
    subscription: seq<string>,
    protocols: seq<string>,
    assignment: Bytes,
    sessionTimeoutMs: int,
    lastHeartbeatMs: int,
    rejoined: bool)

  type Members = map<string, Member>

  datatype Group = Group(
    state: GroupState,
    generation: int,
    leaderId: string,
    protocolName: string,
    members: Members)

  datatype Coordinator = Coordinator(groups: map<string, Group>, nextMemberId: nat)

  const NEW_GROUP := Group(Empty, 0, "", "", map[])
  const DEFAULT_SESSION_TIMEOUT := 10000

  /** What a join asks for. */
  datatype Request = Request(
    clientId: string,
    subscription: seq<string>,
    protocols: seq<string>,
    sessionTimeoutMs: int,
    nowMs: int)

  datatype JoinResult = JoinResult(
    error: ErrorCode,
    memberId: string,
    generation: int,
    leaderId: string,
    protocolName: string,
    members: Members)

  datatype SyncResult = SyncResult(error: ErrorCode, assignment: Bytes)

  function Rejected(e: ErrorCode, id: string): JoinResult { JoinResult(e, id, -1, "", "", map[]) }

  // ---------------------------------------------------------------------- the two helpers

  function BeginRebalance(g: Group): Group {
    g.(state := PreparingRebalance, members := map id | id in g.members :: g.members[id].(rejoined := false))
  }

  predicate AllRejoined(ms: Members) { forall id :: id in ms ==> ms[id].rejoined }

  predicate EveryoneSupports(ms: Members, p: string) { forall id :: id in ms ==> p in ms[id].protocols }

  /** The first of these strategies that every member supports, or none. */
  function CommonProtocol(ms: Members, list: seq<string>): string {
    if list == [] then "" else if EveryoneSupports(ms, list[0]) then list[0] else CommonProtocol(ms, list[1..])
  }

  ghost function MaybeComplete(g: Group): Group {
    if g.members == map[] then g.(state := Empty, leaderId := "")
    else if !AllRejoined(g.members) then g
    else
      var leader := Least(g.members.Keys);
      g.(state := CompletingRebalance, generation := g.generation + 1, leaderId := leader,
         protocolName := CommonProtocol(g.members, g.members[leader].protocols))
  }

  // ------------------------------------------------------------------------- one group

  predicate Settled(g: Group) { g.state == CompletingRebalance || g.state == Stable }

  function ResultFor(g: Group, id: string): JoinResult {
    JoinResult(NoError, id, g.generation, g.leaderId, g.protocolName, if id == g.leaderId then g.members else map[])
  }

  /** A member asking again for what it already has, in a group that is not waiting for it. */
  predicate IsRetry(g: Group, id: string, q: Request) {
    && Settled(g) && id in g.members && g.members[id].rejoined
    && g.members[id].subscription == q.subscription && g.members[id].protocols == q.protocols
  }

  function Touch(g: Group, id: string, nowMs: int): Group
    requires id in g.members
  {
    g.(members := g.members[id := g.members[id].(lastHeartbeatMs := nowMs)])
  }

  function Enrolled(was: Option<Member>, q: Request): Member {
    Member(q.clientId, q.subscription, q.protocols, if was.Some? then was.value.assignment else [],
           if 0 < q.sessionTimeoutMs then q.sessionTimeoutMs else DEFAULT_SESSION_TIMEOUT, q.nowMs, true)
  }

  function Enroll(g: Group, id: string, q: Request): Group {
    var was := if id in g.members then Some(g.members[id]) else None;
    g.(members := g.members[id := Enrolled(was, q)])
  }

  /** join, once the member's id is known to be this group's own or newly issued. */
  ghost function JoinGroup(g: Group, id: string, q: Request): Group {
    if IsRetry(g, id, q) then Touch(g, id, q.nowMs)
    else MaybeComplete(Enroll(if g.state == PreparingRebalance then g else BeginRebalance(g), id, q))
  }

  ghost function JoinAnswer(g: Group, id: string, q: Request): JoinResult {
    var g' := JoinGroup(g, id, q);
    if !IsRetry(g, id, q) && g'.state == PreparingRebalance then Rejected(RebalanceInProgress, id) else ResultFor(g', id)
  }

  /** The leader's assignments stored, for those members named that are in the group. */
  function Assigned(ms: Members, assignments: map<string, Bytes>): Members {
    map id | id in ms :: if id in assignments then ms[id].(assignment := assignments[id]) else ms[id]
  }

  function SyncError(g: Group, id: string, generation: int): ErrorCode {
    if id !in g.members then UnknownMemberId
    else if generation != g.generation then IllegalGeneration
    else if g.state == PreparingRebalance then RebalanceInProgress
    else NoError
  }

  function SyncGroup(g: Group, id: string, generation: int, assignments: map<string, Bytes>, nowMs: int): Group {
    if SyncError(g, id, generation) != NoError then g
    else
      var t := Touch(g, id, nowMs);
      if g.state == CompletingRebalance && id == g.leaderId
      then t.(state := Stable, members := Assigned(t.members, assignments)) else t
  }

  function SyncAnswer(g: Group, id: string, generation: int, assignments: map<string, Bytes>, nowMs: int): SyncResult {
    var e := SyncError(g, id, generation);
    if e != NoError then SyncResult(e, [])
    else if g.state == CompletingRebalance && id != g.leaderId then SyncResult(RebalanceInProgress, [])
    else
      SyncedHas(g, id, generation, assignments, nowMs);
      SyncResult(NoError, SyncGroup(g, id, generation, assignments, nowMs).members[id].assignment)
  }

  lemma {:induction false} SyncedHas(g: Group, id: string, generation: int, assignments: map<string, Bytes>, nowMs: int)
    requires SyncError(g, id, generation) == NoError
    ensures id in SyncGroup(g, id, generation, assignments, nowMs).members
  {
  }

  ghost function LeaveGroup(g: Group, id: string): Group {
    MaybeComplete(BeginRebalance(g.(members := g.members - {id})))
  }

  predicate TimedOut(m: Member, nowMs: int) { m.sessionTimeoutMs <= nowMs - m.lastHeartbeatMs }

  function Survivors(ms: Members, nowMs: int): Members {
    map id | id in ms && !TimedOut(ms[id], nowMs) :: ms[id]
  }

  ghost function ExpireGroup(g: Group, nowMs: int): Group {
    var kept := Survivors(g.members, nowMs);
    if kept == g.members then g else MaybeComplete(BeginRebalance(g.(members := kept)))
  }

  // --------------------------------------------------------------------- the coordinator

  function Decimal(n: nat): string {
    if n < 10 then [DIGITS[n]] else Decimal(n / 10) + [DIGITS[n % 10]]
  }

  const DIGITS := "0123456789"

  function MemberId(clientId: string, n: nat): string { clientId + ("-" + Decimal(n)) }

  function GroupOf(c: Coordinator, groupId: string): Group {
    if groupId in c.groups then c.groups[groupId] else NEW_GROUP
  }

  ghost function Join(c: Coordinator, groupId: string, memberId: string, q: Request): (Coordinator, JoinResult) {
    if groupId == "" then (c, Rejected(InvalidGroupId, ""))
    else
      var g := GroupOf(c, groupId);
      if memberId == "" then
        var id := MemberId(q.clientId, c.nextMemberId);
        (Coordinator(c.groups[groupId := JoinGroup(g, id, q)], c.nextMemberId + 1), JoinAnswer(g, id, q))
      else if memberId !in g.members then (c.(groups := c.groups[groupId := g]), Rejected(UnknownMemberId, ""))
      else (c.(groups := c.groups[groupId := JoinGroup(g, memberId, q)]), JoinAnswer(g, memberId, q))
  }

  function Sync(c: Coordinator, groupId: string, id: string, generation: int, assignments: map<string, Bytes>, nowMs: int)
    : (Coordinator, SyncResult)
  {
    if groupId !in c.groups then (c, SyncResult(UnknownMemberId, []))
    else
      var g := c.groups[groupId];
      (c.(groups := c.groups[groupId := SyncGroup(g, id, generation, assignments, nowMs)]),
       SyncAnswer(g, id, generation, assignments, nowMs))
  }

  function Heartbeat(c: Coordinator, groupId: string, id: string, generation: int, nowMs: int): (Coordinator, ErrorCode) {
    if groupId !in c.groups then (c, UnknownMemberId)
    else
      var g := c.groups[groupId];
      var e := SyncError(g, id, generation);
      if e != NoError then (c, e) else (c.(groups := c.groups[groupId := Touch(g, id, nowMs)]), NoError)
  }

  ghost function Leave(c: Coordinator, groupId: string, id: string): (Coordinator, ErrorCode) {
    if groupId !in c.groups || id !in c.groups[groupId].members then (c, UnknownMemberId)
    else
      var g := LeaveGroup(c.groups[groupId], id);
      (c.(groups := if g.members == map[] then c.groups - {groupId} else c.groups[groupId := g]), NoError)
  }

  ghost function Expire(c: Coordinator, nowMs: int): Coordinator {
    c.(groups := map id | id in c.groups && ExpireGroup(c.groups[id], nowMs).members != map[] :: ExpireGroup(c.groups[id], nowMs))
  }

  // ---------------------------------------------------------------- what every call keeps

  /** Each state says exactly who is there and who has rejoined. */
  ghost predicate GroupInv(g: Group) {
    && 0 <= g.generation
    && (g.state == Empty <==> g.members == map[])
    && (g.state == PreparingRebalance <==> exists id :: id in g.members && !g.members[id].rejoined)
    && (Settled(g) ==> AllRejoined(g.members) && IsLeast(g.members.Keys, g.leaderId))
  }

  lemma {:induction false} CompleteKeeps(g: Group)
    requires 0 <= g.generation && g.state == PreparingRebalance
    ensures GroupInv(MaybeComplete(g))
    ensures MaybeComplete(g).members == g.members
    ensures MaybeComplete(g).generation == g.generation + (if g.members != map[] && AllRejoined(g.members) then 1 else 0)
  {
    if g.members == map[] {
    } else if AllRejoined(g.members) {
      assert g.members.Keys != {};
    } else {
      var id :| id in g.members && !g.members[id].rejoined;
    }
  }

  lemma {:induction false} JoinKeeps(g: Group, id: string, q: Request)
    requires GroupInv(g)
    ensures GroupInv(JoinGroup(g, id, q))
  {
    if IsRetry(g, id, q) {
      TouchKeeps(g, id, q.nowMs);
    } else {
      CompleteKeeps(Enroll(if g.state == PreparingRebalance then g else BeginRebalance(g), id, q));
    }
  }

  lemma {:induction false} TouchKeeps(g: Group, id: string, nowMs: int)
    requires GroupInv(g) && id in g.members
    ensures GroupInv(Touch(g, id, nowMs)) && Touch(g, id, nowMs).members.Keys == g.members.Keys
  {
    var t := Touch(g, id, nowMs);
    assert t.members.Keys == g.members.Keys;
    assert forall x :: x in g.members ==> t.members[x].rejoined == g.members[x].rejoined;
    if g.state == PreparingRebalance {
      var x :| x in g.members && !g.members[x].rejoined;
      assert !t.members[x].rejoined;
    }
  }

  lemma {:induction false} SyncKeeps(g: Group, id: string, generation: int, assignments: map<string, Bytes>, nowMs: int)
    requires GroupInv(g)
    ensures GroupInv(SyncGroup(g, id, generation, assignments, nowMs))
  {
    if SyncError(g, id, generation) == NoError {
      TouchKeeps(g, id, nowMs);
      var t := Touch(g, id, nowMs);
      assert Assigned(t.members, assignments).Keys == t.members.Keys;
    }
  }

  lemma {:induction false} LeaveKeeps(g: Group, id: string)
    requires GroupInv(g)
    ensures GroupInv(LeaveGroup(g, id))
  {
    CompleteKeeps(BeginRebalance(g.(members := g.members - {id})));
  }

  lemma {:induction false} ExpireKeeps(g: Group, nowMs: int)
    requires GroupInv(g)
    ensures GroupInv(ExpireGroup(g, nowMs))
  {
    var kept := Survivors(g.members, nowMs);
    if kept != g.members { CompleteKeeps(BeginRebalance(g.(members := kept))); }
  }

  /** The strategy chosen is the leader's first that everyone supports; with none in common it is empty. */
  lemma {:induction false} CommonIsFirst(ms: Members, list: seq<string>)
    ensures var p := CommonProtocol(ms, list);
            || (p == "" && forall x :: x in list ==> !EveryoneSupports(ms, x))
            || (exists i :: 0 <= i < |list| && list[i] == p && EveryoneSupports(ms, p)
                            && forall k :: 0 <= k < i ==> !EveryoneSupports(ms, list[k]))
  {
    if list != [] && !EveryoneSupports(ms, list[0]) {
      CommonIsFirst(ms, list[1..]);
      var p := CommonProtocol(ms, list[1..]);
      if exists i :: 0 <= i < |list[1..]| && list[1..][i] == p && EveryoneSupports(ms, p)
                     && forall k :: 0 <= k < i ==> !EveryoneSupports(ms, list[1..][k])
      {
        var i :| 0 <= i < |list[1..]| && list[1..][i] == p && EveryoneSupports(ms, p)
                 && forall k :: 0 <= k < i ==> !EveryoneSupports(ms, list[1..][k]);
        forall k | 0 <= k < i + 1 ensures !EveryoneSupports(ms, list[k]) {
          if 0 < k { assert list[k] == list[1..][k - 1]; }
        }
        assert list[i + 1] == p;
      }
    }
  }
}
