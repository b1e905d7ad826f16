/** A rebalance ends, and asking again changes nothing. */
module GroupSettling {
  // It ends once everyone has asked again.

  import opened Prelude
  import opened Groups

  /** These members join again, one after another, each asking what it asks for. */
  ghost function RejoinAll(g: Group, order: seq<string>, ask: string -> Request): Group {
    if order == [] then g
    else
      var id := order[|order| - 1];
      JoinGroup(RejoinAll(g, order[..|order| - 1], ask), id, ask(id))
  }

  predicate Pending(g: Group, id: string) { id in g.members && !g.members[id].rejoined }

  /** One pending member rejoining: it alone stops being pending, and the last one completes the rebalance. */
  lemma {:induction false} OneRejoins(g: Group, id: string, q: Request)
    requires GroupInv(g) && g.state == PreparingRebalance && Pending(g, id)
    ensures var g' := JoinGroup(g, id, q);
            && g'.members.Keys == g.members.Keys
            && (forall x :: Pending(g', x) <==> Pending(g, x) && x != id)
            && (if exists x :: Pending(g, x) && x != id
                then g'.state == PreparingRebalance && g'.generation == g.generation
                else g'.state == CompletingRebalance && g'.generation == g.generation + 1)
  {
    var e := Enroll(g, id, q);
    assert e.members.Keys == g.members.Keys;
    assert forall x :: Pending(e, x) <==> Pending(g, x) && x != id;
    assert MaybeComplete(e).members == e.members;
    if exists x :: Pending(g, x) && x != id {
      var x :| Pending(g, x) && x != id;
      assert Pending(e, x);
    } else {
      assert AllRejoined(e.members) by {
        forall x | x in e.members ensures e.members[x].rejoined { assert !Pending(e, x); }
      }
    }
  }

  lemma {:induction false} LastIsNew(order: seq<string>)
    requires NoRepeats(order) && order != []
    ensures order[|order| - 1] !in order[..|order| - 1] && order[|order| - 1] in order
  {
  }

  /**
   Once nothing else happens, the pending members rejoining once each, in any order, complete the
   rebalance: with anyone still missing the group waits at the same generation, and the last one to
   ask brings the next generation, exactly one up.
   */
  lemma {:induction false} RejoinsSettle(g: Group, order: seq<string>, ask: string -> Request)
    requires GroupInv(g) && g.state == PreparingRebalance
    requires NoRepeats(order) && forall id :: id in order ==> Pending(g, id)
    ensures var g' := RejoinAll(g, order, ask);
            && GroupInv(g') && g'.members.Keys == g.members.Keys
            && (forall x :: Pending(g', x) <==> Pending(g, x) && x !in order)
            && (if exists x :: Pending(g, x) && x !in order
                then g'.state == PreparingRebalance && g'.generation == g.generation
                else g'.state == CompletingRebalance && g'.generation == g.generation + 1)
  {
    if order == [] {
      var x :| x in g.members && !g.members[x].rejoined;
      assert Pending(g, x);
    } else {
      var init, id := order[..|order| - 1], order[|order| - 1];
      assert order == init + [id];
      RejoinsSettle(g, init, ask);
      var mid := RejoinAll(g, init, ask);
      LastIsNew(order);
      assert Pending(mid, id);
      OneRejoins(mid, id, ask(id));
      JoinKeeps(mid, id, ask(id));
      assert forall x :: Pending(mid, x) && x != id <==> Pending(g, x) && x !in order;
    }
  }

  /** The same group, but for when members were last heard from. */
  ghost predicate SameButHeartbeats(g: Group, h: Group) {
    && h.(members := g.members) == g
    && h.members.Keys == g.members.Keys
    && forall id :: id in g.members ==> h.members[id] == g.members[id].(lastHeartbeatMs := h.members[id].lastHeartbeatMs)
  }

  predicate Unchanged(g: Group, id: string, q: Request) {
    id in g.members && q.subscription == g.members[id].subscription && q.protocols == g.members[id].protocols
  }

  /** A settled group's member asking for what it already has is told the outcome and disturbs nothing. */
  lemma {:induction false} RetryIsAnswered(g: Group, id: string, q: Request)
    requires GroupInv(g) && Settled(g) && Unchanged(g, id, q)
    ensures SameButHeartbeats(g, JoinGroup(g, id, q))
    ensures var r := JoinAnswer(g, id, q);
            r.error == NoError && r.generation == g.generation && r.leaderId == g.leaderId
            && (r.members != map[] <==> id == g.leaderId)
  {
    assert IsRetry(g, id, q);
  }

  /** After that any number of unchanged re-joins, by anyone, leaves state and generation alone. */
  lemma {:induction false} RetriesChangeNothing(g: Group, order: seq<string>, ask: string -> Request)
    requires GroupInv(g) && Settled(g) && forall id :: id in order ==> Unchanged(g, id, ask(id))
    ensures SameButHeartbeats(g, RejoinAll(g, order, ask)) && GroupInv(RejoinAll(g, order, ask))
  {
    if order != [] {
      var init, id := order[..|order| - 1], order[|order| - 1];
      assert order == init + [id];
      RetriesChangeNothing(g, init, ask);
      var mid := RejoinAll(g, init, ask);
      assert Unchanged(mid, id, ask(id));
      RetryIsAnswered(mid, id, ask(id));
      JoinKeeps(mid, id, ask(id));
    }
  }

  /** A genuinely different request from anyone does start another rebalance. */
  lemma {:induction false} ChangeRebalances(g: Group, id: string, q: Request)
    requires GroupInv(g) && Settled(g) && id in g.members && !Unchanged(g, id, q)
    ensures var g' := JoinGroup(g, id, q);
            if g.members.Keys == {id} then g'.state == CompletingRebalance && g'.generation == g.generation + 1
            else g'.state == PreparingRebalance && g'.generation == g.generation
                 && forall x :: x in g.members && x != id ==> Pending(g', x)
  {
    var e := Enroll(BeginRebalance(g), id, q);
    assert e.members.Keys == g.members.Keys;
    if g.members.Keys == {id} {
      assert AllRejoined(e.members);
    } else {
      assert g.members.Keys == {id} + (g.members.Keys - {id});
      var x :| x in g.members.Keys - {id};
      assert !e.members[x].rejoined;
    }
  }
}
