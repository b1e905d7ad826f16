/** Member ids over the coordinator's whole life. */
module MemberIds {
  // Issued once, in one group at a time, dead for good once removed.

  import opened Prelude
  import opened Groups

  // ------------------------------------------------------------------ ids never collide

  predicate AllDigits(s: string) { forall i :: 0 <= i < |s| ==> s[i] in DIGITS }

  lemma {:induction false} DecimalIsDigits(n: nat)
    ensures AllDigits(Decimal(n)) && Decimal(n) != ""
  {
    if 10 <= n {
      DecimalIsDigits(n / 10);
      assert DIGITS[n % 10] in DIGITS;
    } else {
      assert DIGITS[n] in DIGITS;
    }
  }

  lemma {:induction false} DecimalIsLong(n: nat)
    requires 10 <= n
    ensures 1 < |Decimal(n)|
  {
    DecimalIsDigits(n / 10);
  }

  lemma {:induction false} DigitsDiffer(i: nat, j: nat)
    requires i < 10 && j < 10 && DIGITS[i] == DIGITS[j]
    ensures i == j
  {
  }

  lemma {:induction false} DecimalIsInjective(m: nat, n: nat)
    requires Decimal(m) == Decimal(n)
    ensures m == n
  {
    var s := Decimal(m);
    if m < 10 <= n {
      DecimalIsLong(n);
    } else if n < 10 <= m {
      DecimalIsLong(m);
    } else if m < 10 {
      assert s[0] == DIGITS[m] == DIGITS[n];
      DigitsDiffer(m, n);
    } else {
      assert s[..|s| - 1] == Decimal(m / 10) && s[..|s| - 1] == Decimal(n / 10);
      assert s[|s| - 1] == DIGITS[m % 10] == DIGITS[n % 10];
      DecimalIsInjective(m / 10, n / 10);
      DigitsDiffer(m % 10, n % 10);
    }
  }

  /** Whatever client ids were given, different counters give different member ids. */
  lemma {:induction false} MemberIdsDiffer(a: string, m: nat, b: string, n: nat)
    requires MemberId(a, m) == MemberId(b, n)
    ensures m == n
  {
    DecimalIsDigits(m);
    DecimalIsDigits(n);
    SuffixAgrees(a, Decimal(m), b, Decimal(n));
    DecimalIsInjective(m, n);
  }

  /** A dash before digits is the last dash there is. */
  lemma {:induction false} SuffixAgrees(a: string, x: string, b: string, y: string)
    requires a + ("-" + x) == b + ("-" + y) && AllDigits(x) && AllDigits(y)
    ensures x == y
  {
    var s := a + ("-" + x);
    assert s[|a|] == '-' && s[|b|] == '-';
    assert '-' !in DIGITS;
    assert s[|a| + 1..] == x && s[|b| + 1..] == y;
  }

  // ------------------------------------------------------------------------ whole runs

  datatype Event =
    | Joining(groupId: string, memberId: string, q: Request)
    | Syncing(groupId: string, memberId: string, generation: int, assignments: map<string, Bytes>, nowMs: int)
    | Beating(groupId: string, memberId: string, generation: int, nowMs: int)
    | Leaving(groupId: string, memberId: string)
    | Expiring(nowMs: int)

  ghost function Step(c: Coordinator, e: Event): Coordinator {
    match e
    case Joining(g, id, q) => Join(c, g, id, q).0
    case Syncing(g, id, n, assignments, nowMs) => Sync(c, g, id, n, assignments, nowMs).0
    case Beating(g, id, n, nowMs) => Heartbeat(c, g, id, n, nowMs).0
    case Leaving(g, id) => Leave(c, g, id).0
    case Expiring(nowMs) => Expire(c, nowMs)
  }

  ghost function Run(c: Coordinator, es: seq<Event>): Coordinator {
    if es == [] then c else Step(Run(c, es[..|es| - 1]), es[|es| - 1])
  }

  const FRESH := Coordinator(map[], 1)

  ghost predicate Issued(c: Coordinator, id: string) { exists a: string, n: nat :: n < c.nextMemberId && id == MemberId(a, n) }

  predicate MemberOf(c: Coordinator, groupId: string, id: string) {
    groupId in c.groups && id in c.groups[groupId].members
  }

  /** The coordinator's invariant: each group's own, and every id issued and in one group only. */
  ghost predicate CoordInv(c: Coordinator) {
    && (forall g :: g in c.groups ==> GroupInv(c.groups[g]))
    && (forall g, id :: MemberOf(c, g, id) ==> Issued(c, id))
    && (forall g, h, id :: MemberOf(c, g, id) && MemberOf(c, h, id) ==> g == h)
  }

  lemma {:induction false} CompleteKeys(g: Group)
    ensures MaybeComplete(g).members.Keys == g.members.Keys
  {
  }

  lemma {:induction false} JoinGroupKeys(g: Group, id: string, q: Request)
    ensures JoinGroup(g, id, q).members.Keys == g.members.Keys + {id}
  {
  }

  lemma {:induction false} SyncGroupKeys(g: Group, id: string, n: int, assignments: map<string, Bytes>, nowMs: int)
    ensures SyncGroup(g, id, n, assignments, nowMs).members.Keys == g.members.Keys
  {
    if SyncError(g, id, n) == NoError {
      var t := Touch(g, id, nowMs);
      assert t.members.Keys == g.members.Keys;
      assert Assigned(t.members, assignments).Keys == t.members.Keys;
    }
  }

  lemma {:induction false} LeaveGroupKeys(g: Group, id: string)
    ensures LeaveGroup(g, id).members.Keys == g.members.Keys - {id}
  {
    var b := BeginRebalance(g.(members := g.members - {id}));
    CompleteKeys(b);
    assert b.members.Keys == g.members.Keys - {id};
  }

  lemma {:induction false} ExpireGroupKeys(g: Group, nowMs: int)
    ensures ExpireGroup(g, nowMs).members.Keys <= g.members.Keys
  {
    var b := BeginRebalance(g.(members := Survivors(g.members, nowMs)));
    CompleteKeys(b);
    assert b.members.Keys <= g.members.Keys;
  }

  /** Whoever is a member after a call was one of the same group before it, or was issued an id by it. */
  lemma {:induction false} MembersBefore(c: Coordinator, e: Event, g: string, id: string)
    requires MemberOf(Step(c, e), g, id)
    ensures || MemberOf(c, g, id)
            || (e.Joining? && e.memberId == "" && g == e.groupId && id == MemberId(e.q.clientId, c.nextMemberId)
                && Step(c, e).nextMemberId == c.nextMemberId + 1)
  {
    match e
    case Joining(gid, mid, q) =>
      JoinGroupKeys(GroupOf(c, gid), if mid == "" then MemberId(q.clientId, c.nextMemberId) else mid, q);
    case Syncing(gid, mid, n, assignments, nowMs) =>
      if gid in c.groups { SyncGroupKeys(c.groups[gid], mid, n, assignments, nowMs); }
    case Beating(_, _, _, _) =>
    case Leaving(gid, mid) =>
      if gid in c.groups { LeaveGroupKeys(c.groups[gid], mid); }
    case Expiring(nowMs) => ExpireGroupKeys(c.groups[g], nowMs);
  }

  lemma {:induction false} GroupsKeep(c: Coordinator, e: Event, g: string)
    requires CoordInv(c) && g in Step(c, e).groups
    ensures GroupInv(Step(c, e).groups[g])
  {
    match e
    case Joining(gid, mid, q) =>
      JoinKeeps(GroupOf(c, gid), if mid == "" then MemberId(q.clientId, c.nextMemberId) else mid, q);
    case Syncing(gid, mid, n, assignments, nowMs) =>
      if gid in c.groups { SyncKeeps(c.groups[gid], mid, n, assignments, nowMs); }
    case Beating(gid, mid, n, nowMs) =>
      if gid in c.groups && SyncError(c.groups[gid], mid, n) == NoError { TouchKeeps(c.groups[gid], mid, nowMs); }
    case Leaving(gid, mid) =>
      if gid in c.groups { LeaveKeeps(c.groups[gid], mid); }
    case Expiring(nowMs) => ExpireKeeps(c.groups[g], nowMs);
  }

  lemma {:induction false} CounterRises(c: Coordinator, e: Event)
    ensures c.nextMemberId <= Step(c, e).nextMemberId
  {
  }

  lemma {:induction false} StillIssued(c: Coordinator, e: Event, id: string)
    requires Issued(c, id)
    ensures Issued(Step(c, e), id)
  {
    CounterRises(c, e);
  }

  /** A freshly issued id has never been issued before. */
  lemma {:induction false} NewIdIsNew(c: Coordinator, clientId: string)
    ensures !Issued(c, MemberId(clientId, c.nextMemberId))
  {
    forall a: string, n: nat | n < c.nextMemberId ensures MemberId(clientId, c.nextMemberId) != MemberId(a, n) {
      if MemberId(clientId, c.nextMemberId) == MemberId(a, n) { MemberIdsDiffer(clientId, c.nextMemberId, a, n); }
    }
  }

  lemma {:induction false} StepKeeps(c: Coordinator, e: Event)
    requires CoordInv(c)
    ensures CoordInv(Step(c, e))
  {
    var c' := Step(c, e);
    forall g | g in c'.groups ensures GroupInv(c'.groups[g]) { GroupsKeep(c, e, g); }
    forall g, id | MemberOf(c', g, id) ensures Issued(c', id) {
      MembersBefore(c, e, g, id);
      if MemberOf(c, g, id) { StillIssued(c, e, id); }
    }
    forall g, h, id | MemberOf(c', g, id) && MemberOf(c', h, id) ensures g == h {
      MembersBefore(c, e, g, id);
      MembersBefore(c, e, h, id);
      if e.Joining? { NewIdIsNew(c, e.q.clientId); }
    }
  }

  /** In every reachable state every group's state describes its members, and ids live in one group. */
  lemma {:induction false} RunKeeps(es: seq<Event>)
    ensures CoordInv(Run(FRESH, es))
  {
    if es != [] {
      RunKeeps(es[..|es| - 1]);
      StepKeeps(Run(FRESH, es[..|es| - 1]), es[|es| - 1]);
    }
  }

  /** Issued, and in no group any more. */
  ghost predicate Dead(c: Coordinator, id: string) { Issued(c, id) && forall g :: !MemberOf(c, g, id) }

  lemma {:induction false} DeadStaysDead(c: Coordinator, e: Event, id: string)
    requires Dead(c, id)
    ensures Dead(Step(c, e), id)
  {
    StillIssued(c, e, id);
    forall g ensures !MemberOf(Step(c, e), g, id) {
      if MemberOf(Step(c, e), g, id) {
        MembersBefore(c, e, g, id);
        NewIdIsNew(c, e.q.clientId);
      }
    }
  }

  /** Removal is for good: an id that was in a group and no longer is, is in none. */
  lemma {:induction false} RemovalIsDeath(c: Coordinator, e: Event, home: string, id: string)
    requires CoordInv(c) && MemberOf(c, home, id) && !MemberOf(Step(c, e), home, id)
    ensures Dead(Step(c, e), id)
  {
    StillIssued(c, e, id);
    forall g ensures !MemberOf(Step(c, e), g, id) {
      if MemberOf(Step(c, e), g, id) {
        MembersBefore(c, e, g, id);
        NewIdIsNew(c, e.q.clientId);
      }
    }
  }

  /** A member at some point of a run that is not one at the end of it has an id that is dead by then. */
  lemma {:induction false} GoneIsDead(es: seq<Event>, k: nat, home: string, id: string)
    requires k <= |es| && MemberOf(Run(FRESH, es[..k]), home, id) && !MemberOf(Run(FRESH, es), home, id)
    ensures Dead(Run(FRESH, es), id)
  {
    assert es[..|es|] == es;
    if k < |es| {
      var init := es[..|es| - 1];
      assert init[..k] == es[..k];
      if MemberOf(Run(FRESH, init), home, id) {
        RunKeeps(init);
        RemovalIsDeath(Run(FRESH, init), es[|es| - 1], home, id);
      } else {
        GoneIsDead(init, k, home, id);
        DeadStaysDead(Run(FRESH, init), es[|es| - 1], id);
      }
    }
  }

  /** Every call refuses this id, in every group and generation. */
  ghost predicate Fenced(c: Coordinator, id: string) {
    && (forall groupId, q :: groupId != "" ==> Join(c, groupId, id, q).1 == Rejected(UnknownMemberId, ""))
    && (forall groupId, generation, assignments, nowMs ::
          Sync(c, groupId, id, generation, assignments, nowMs).1.error == UnknownMemberId)
    && (forall groupId, generation, nowMs :: Heartbeat(c, groupId, id, generation, nowMs).1 == UnknownMemberId)
    && (forall groupId :: Leave(c, groupId, id).1 == UnknownMemberId)
  }

  lemma {:induction false} DeadIsFenced(c: Coordinator, id: string)
    requires Dead(c, id)
    ensures Fenced(c, id)
  {
    IssuedIsNamed(c, id);
    forall groupId ensures groupId in c.groups ==> id !in c.groups[groupId].members {
      assert !MemberOf(c, groupId, id);
    }
  }

  /**
   Once removed, an id is refused by every call for ever: whoever was a member at any point of a run
   and is not one now is fenced in every group, its own included, erased and begun again or not.
   */
  lemma {:induction false} RemovedIsFenced(es: seq<Event>, k: nat, home: string, id: string)
    requires k <= |es| && MemberOf(Run(FRESH, es[..k]), home, id) && !MemberOf(Run(FRESH, es), home, id)
    ensures Fenced(Run(FRESH, es), id) && forall g :: !MemberOf(Run(FRESH, es), g, id)
  {
    GoneIsDead(es, k, home, id);
    DeadIsFenced(Run(FRESH, es), id);
  }

  lemma {:induction false} IssuedIsNamed(c: Coordinator, id: string)
    requires Issued(c, id)
    ensures id != ""
  {
  }
}
