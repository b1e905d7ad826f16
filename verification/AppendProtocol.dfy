/** Several appenders on one log, cut at its lock points. */
module AppendProtocol {
  // Beside them run maintenance rolls, retention and the cleaner.
  // An append holds the append mutex throughout. It rolls if due under the exclusive segments lock, lets
  // that go, loads the log end offset and stamps its batch, and only then takes the segments lock shared
  // for the append and the two stores. Anything may run between those points that the locks allow.

  import opened Prelude

  /** Offsets [base, next). */
  datatype Range = Range(base: int, next: int)

  datatype Phase =
    | Idle
    | Locked(span: nat)
    | Rolled(span: nat)
    | Loaded(span: nat, base: int)
    | Written(base: int)
    | Ended(base: int)

  /** `issued` is every range handed out and kept, in order; `refused` is the contiguity check firing. */
  datatype State = State(
    sealed: seq<Range>,
    active: Range,
    logEnd: int,
    highWatermark: int,
    holder: Option<nat>,
    phases: seq<Phase>,
    issued: seq<Range>,
    refused: bool)

  datatype Event =
    | Lock(t: nat, span: nat)
    | AppenderRoll(t: nat, due: bool)
    | Load(t: nat)
    | Write(t: nat)
    | IndexThrows(t: nat)
    | StoreLogEnd(t: nat)
    | StoreWatermark(t: nat)
    | MaintenanceRoll(due: bool)
    | Retire(count: nat)
    | Swap(i: nat, next: int)
    | Remove(i: nat)
    | Truncate(keep: nat, sealedKept: nat)

  /** Some appender is inside the shared segments lock. */
  predicate SharedHeld(s: State) {
    exists t :: 0 <= t < |s.phases| && (s.phases[t].Written? || s.phases[t].Ended?)
  }

  predicate At(s: State, t: nat) { t < |s.phases| && s.holder == Some(t) }

  function EndOf(rs: seq<Range>): int { if rs == [] then 0 else rs[|rs| - 1].next }

  predicate Enabled(s: State, e: Event) {
    match e
    case Lock(t, span) => t < |s.phases| && s.holder.None? && 0 < span
    case AppenderRoll(t, _) => At(s, t) && s.phases[t].Locked? && !SharedHeld(s)
    case Load(t) => At(s, t) && s.phases[t].Rolled?
    case Write(t) => At(s, t) && s.phases[t].Loaded?
    case IndexThrows(t) => At(s, t) && s.phases[t].Loaded?
    case StoreLogEnd(t) => At(s, t) && s.phases[t].Written?
    case StoreWatermark(t) => At(s, t) && s.phases[t].Ended?
    case MaintenanceRoll(_) => !SharedHeld(s)
    case Retire(count) => !SharedHeld(s) && count <= |s.sealed|
    case Swap(i, next) => !SharedHeld(s) && i < |s.sealed| && s.sealed[i].base < next <= s.sealed[i].next
    case Remove(i) => !SharedHeld(s) && i < |s.sealed|
    case Truncate(keep, n) =>
      && !SharedHeld(s) && keep <= |s.issued| && n <= |s.sealed|
      && CutBase(s, n) <= EndOf(s.issued[..keep]) < s.logEnd
  }

  /** Where the segment that becomes active after a truncation is based. */
  function CutBase(s: State, n: nat): int
    requires n <= |s.sealed|
  {
    if n < |s.sealed| then s.sealed[n].base else s.active.base
  }

  function Roll(s: State, due: bool): State {
    if due && s.active.base < s.active.next
    then s.(sealed := s.sealed + [s.active], active := Range(s.active.next, s.active.next))
    else s
  }

  function Move(s: State, t: nat, p: Phase): State
    requires t < |s.phases|
  {
    s.(phases := s.phases[t := p])
  }

  function Step(s: State, e: Event): State
    requires Enabled(s, e)
  {
    match e
    case Lock(t, span) => Move(s, t, Locked(span)).(holder := Some(t))
    case AppenderRoll(t, due) => Move(Roll(s, due), t, Rolled(s.phases[t].span))
    case Load(t) => Move(s, t, Loaded(s.phases[t].span, s.logEnd))
    case Write(t) =>
      var p := s.phases[t];
      if p.base != s.active.next then Move(s, t, Idle).(holder := None, refused := true)
      else
        Move(s, t, Written(p.base)).(
          active := Range(s.active.base, p.base + p.span),
          issued := s.issued + [Range(p.base, p.base + p.span)])
    case IndexThrows(t) => Move(s, t, Idle).(holder := None)
    case StoreLogEnd(t) => Move(s, t, Ended(s.phases[t].base)).(logEnd := s.active.next)
    case StoreWatermark(t) => Move(s, t, Idle).(holder := None, highWatermark := s.active.next)
    case MaintenanceRoll(due) => Roll(s, due)
    case Retire(count) => s.(sealed := s.sealed[count..])
    case Swap(i, next) => s.(sealed := s.sealed[i := Range(s.sealed[i].base, next)])
    case Remove(i) => s.(sealed := s.sealed[..i] + s.sealed[i + 1..])
    case Truncate(keep, n) =>
      var end := EndOf(s.issued[..keep]);
      s.(sealed := s.sealed[..n], active := Range(CutBase(s, n), end),
         logEnd := end, highWatermark := Min(s.highWatermark, end), issued := s.issued[..keep])
  }

  // ---------------------------------------------------------------------- the invariant

  /** Ranges in order, none empty, each from at least where the one before ended, all below `end`. */
  ghost predicate Ordered(rs: seq<Range>, end: int) {
    && (forall i :: 0 <= i < |rs| ==> 0 <= rs[i].base < rs[i].next <= end)
    && (forall i, j :: 0 <= i < j < |rs| ==> rs[i].next <= rs[j].base)
  }

  /** Each range handed out starts exactly where the one before it ended, the first at zero. */
  ghost predicate Consecutive(rs: seq<Range>) {
    rs == [] || (
      var init, r := rs[..|rs| - 1], rs[|rs| - 1];
      Consecutive(init) && r.base == EndOf(init) < r.next)
  }

  /** What the mutex holder's phase says of the published offsets; with no holder they all agree. */
  ghost predicate Published(s: State) {
    match s.holder
    case None => s.highWatermark <= s.logEnd == s.active.next
    case Some(t) =>
      && t < |s.phases|
      && match s.phases[t]
         case Idle => false
         case Locked(span) => 0 < span && s.highWatermark <= s.logEnd == s.active.next
         case Rolled(span) => 0 < span && s.highWatermark <= s.logEnd == s.active.next
         case Loaded(span, base) => 0 < span && s.highWatermark <= s.logEnd == s.active.next == base
         case Written(base) => s.highWatermark <= s.logEnd == base < s.active.next
         case Ended(base) => s.highWatermark <= s.logEnd == s.active.next
  }

  ghost predicate Inv(s: State) {
    && !s.refused
    && (forall t: nat :: t < |s.phases| && s.holder != Some(t) ==> s.phases[t].Idle?)
    && Published(s)
    && 0 <= s.active.base <= s.active.next
    && Ordered(s.sealed, s.active.base)
    && Consecutive(s.issued) && s.active.next == EndOf(s.issued)
  }

  function Start(appenders: nat): State {
    State([], Range(0, 0), 0, 0, None, seq(appenders, _ => Idle), [], false)
  }

  /** A truncation that falls between an appender's load of the log end and its append. */
  predicate Races(s: State, e: Event) {
    e.Truncate? && s.holder.Some? && s.holder.value < |s.phases| && s.phases[s.holder.value].Loaded?
  }

  lemma {:induction false} RollKeeps(s: State, due: bool)
    requires Inv(s)
    ensures Inv(Roll(s, due)) && Roll(s, due).issued == s.issued
  {
  }

  lemma {:induction false} IssueNext(rs: seq<Range>, r: Range)
    requires Consecutive(rs) && r.base == EndOf(rs) < r.next
    ensures Consecutive(rs + [r]) && EndOf(rs + [r]) == r.next
  {
    assert (rs + [r])[..|rs + [r]| - 1] == rs;
  }

  lemma {:induction false} IssuedPrefix(rs: seq<Range>, n: nat)
    requires Consecutive(rs) && n <= |rs|
    ensures Consecutive(rs[..n])
  {
    if n < |rs| {
      IssuedPrefix(rs[..|rs| - 1], n);
      assert rs[..|rs| - 1][..n] == rs[..n];
    } else {
      assert rs[..n] == rs;
    }
  }

  lemma {:induction false} MovedPhases(s: State, t: nat, p: Phase)
    requires t < |s.phases| && forall u: nat :: u < |s.phases| && s.holder != Some(u) ==> s.phases[u].Idle?
    requires s.holder == Some(t)
    ensures forall u: nat :: u < |s.phases| && u != t ==> Move(s, t, p).phases[u].Idle?
    ensures Move(s, t, p).phases[t] == p
  {
  }

  lemma {:induction false} WriteKeeps(s: State, t: nat)
    requires Inv(s) && Enabled(s, Write(t))
    ensures Inv(Step(s, Write(t)))
  {
    var p := s.phases[t];
    assert p.base == s.active.next && 0 < p.span;
    IssueNext(s.issued, Range(p.base, p.base + p.span));
    MovedPhases(s, t, Written(p.base));
  }

  lemma {:induction false} OrderedTail(rs: seq<Range>, end: int, n: nat)
    requires Ordered(rs, end) && n <= |rs|
    ensures Ordered(rs[n..], end)
  {
  }

  lemma {:induction false} OrderedSwap(rs: seq<Range>, end: int, i: nat, next: int)
    requires Ordered(rs, end) && i < |rs| && rs[i].base < next <= rs[i].next
    ensures Ordered(rs[i := Range(rs[i].base, next)], end)
  {
  }

  lemma {:induction false} OrderedRemove(rs: seq<Range>, end: int, i: nat)
    requires Ordered(rs, end) && i < |rs|
    ensures Ordered(rs[..i] + rs[i + 1..], end)
  {
    var out := rs[..i] + rs[i + 1..];
    assert forall k :: 0 <= k < |out| ==> out[k] == if k < i then rs[k] else rs[k + 1];
  }

  /** Retention and the cleaner touch sealed segments only. */
  lemma {:induction false} SealedKeeps(s: State, e: Event)
    requires Inv(s) && Enabled(s, e) && (e.Retire? || e.Swap? || e.Remove?)
    ensures Inv(Step(s, e))
  {
    match e
    case Retire(count) => OrderedTail(s.sealed, s.active.base, count);
    case Swap(i, next) => OrderedSwap(s.sealed, s.active.base, i, next);
    case Remove(i) => OrderedRemove(s.sealed, s.active.base, i);
  }

  lemma {:induction false} TruncateKeeps(s: State, e: Event)
    requires Inv(s) && Enabled(s, e) && e.Truncate? && !Races(s, e)
    ensures Inv(Step(s, e))
  {
    IssuedPrefix(s.issued, e.keep);
    OrderedHead(s.sealed, s.active.base, e.sealedKept);
    assert 0 <= CutBase(s, e.sealedKept);
  }

  lemma {:induction false} OrderedHead(rs: seq<Range>, end: int, n: nat)
    requires Ordered(rs, end) && n <= |rs|
    ensures Ordered(rs[..n], if n < |rs| then rs[n].base else end)
  {
  }

  lemma {:induction false} StepKeeps(s: State, e: Event)
    requires Inv(s) && Enabled(s, e) && !Races(s, e)
    ensures Inv(Step(s, e))
  {
    match e
    case AppenderRoll(t, due) => RollKeeps(s, due);
    case MaintenanceRoll(due) => RollKeeps(s, due);
    case Write(t) => WriteKeeps(s, t);
    case Retire(_) => SealedKeeps(s, e);
    case Swap(_, _) => SealedKeeps(s, e);
    case Remove(_) => SealedKeeps(s, e);
    case Truncate(_, _) => TruncateKeeps(s, e);
    case _ =>
  }

  // ----------------------------------------------------------------------- whole runs

  ghost predicate Possible(s: State, es: seq<Event>)
    decreases |es|
  {
    es == [] || (Enabled(s, es[0]) && Possible(Step(s, es[0]), es[1..]))
  }

  ghost function Run(s: State, es: seq<Event>): State
    requires Possible(s, es)
    decreases |es|
  {
    if es == [] then s else Run(Step(s, es[0]), es[1..])
  }

  ghost predicate RaceFree(s: State, es: seq<Event>)
    requires Possible(s, es)
    decreases |es|
  {
    es == [] || (!Races(s, es[0]) && RaceFree(Step(s, es[0]), es[1..]))
  }

  lemma {:induction false} RunKeeps(s: State, es: seq<Event>)
    requires Inv(s) && Possible(s, es) && RaceFree(s, es)
    ensures Inv(Run(s, es))
    decreases |es|
  {
    if es != [] {
      StepKeeps(s, es[0]);
      RunKeeps(Step(s, es[0]), es[1..]);
    }
  }

  /**
   Under every interleaving the contiguity check never fires, the ranges handed out are consecutive,
   and highWatermark <= logEnd <= the active segment's next offset, as long as no truncation falls
   between an appender's load of the log end and its append.
   */
  lemma {:induction false} AppendsNeverCollide(appenders: nat, es: seq<Event>)
    requires Possible(Start(appenders), es) && RaceFree(Start(appenders), es)
    ensures var s := Run(Start(appenders), es);
            && !s.refused
            && Consecutive(s.issued) && EndOf(s.issued) == s.active.next
            && s.highWatermark <= s.logEnd <= s.active.next
            && (s.holder.None? ==> s.logEnd == s.active.next)
  {
    RunKeeps(Start(appenders), es);
  }

  /** Consecutive ranges are disjoint and ascending. */
  lemma {:induction false} ConsecutiveAreDisjoint(rs: seq<Range>, i: nat, j: nat)
    requires Consecutive(rs) && i < j < |rs|
    ensures rs[i].next <= rs[j].base
  {
    var init := rs[..|rs| - 1];
    if j < |rs| - 1 {
      ConsecutiveAreDisjoint(init, i, j);
    } else {
      assert rs[j].base == EndOf(init) == init[|init| - 1].next;
      if i < j - 1 {
        ConsecutiveAreDisjoint(init, i, j - 1);
        RangesAreNotEmpty(init, j - 1);
      }
    }
  }

  lemma {:induction false} RangesAreNotEmpty(rs: seq<Range>, i: nat)
    requires Consecutive(rs) && i < |rs|
    ensures rs[i].base < rs[i].next
  {
    if i < |rs| - 1 { RangesAreNotEmpty(rs[..|rs| - 1], i); }
  }

  /** The exception is exact: after such a truncation the appender's own append is refused. */
  lemma {:induction false} RaceIsRefused(s: State, e: Event)
    requires Inv(s) && Enabled(s, e) && Races(s, e)
    ensures var s' := Step(s, e); var t := s.holder.value;
            Enabled(s', Write(t)) && Step(s', Write(t)).refused
  {
  }

  lemma {:induction false} Follow(s: State, e: Event, s': State, es: seq<Event>)
    requires Enabled(s, e) && Step(s, e) == s' && Possible(s', es)
    ensures Possible(s, [e] + es) && Run(s, [e] + es) == Run(s', es)
  {
    assert ([e] + es)[1..] == es;
  }

  function Lone(next: int, logEnd: int, holder: Option<nat>, p: Phase, issued: seq<Range>, refused: bool): State {
    State([], Range(0, next), logEnd, Min(logEnd, next), holder, [p], issued, refused)
  }

  /** A run that gets there: one batch, then an appender that loses its place to a truncation. */
  lemma {:induction false} RaceIsReachable() returns (es: seq<Event>)
    ensures Possible(Start(1), es) && Run(Start(1), es).refused
  {
    var one := [Range(0, 3)];
    var s6 := Lone(3, 3, None, Idle, one, false);
    var s7 := Lone(3, 3, Some(0), Locked(2), one, false);
    var s8 := Lone(3, 3, Some(0), Rolled(2), one, false);
    var s9 := Lone(3, 3, Some(0), Loaded(2, 3), one, false);
    var s10 := Lone(0, 0, Some(0), Loaded(2, 3), [], false);
    var s11 := Lone(0, 0, None, Idle, [], true);
    assert one[..0] == [];
    es := [];
    assert Possible(s11, es) && Run(s11, es) == s11;
    Follow(s10, Write(0), s11, es); es := [Write(0)] + es;
    Follow(s9, Truncate(0, 0), s10, es); es := [Truncate(0, 0)] + es;
    Follow(s8, Load(0), s9, es); es := [Load(0)] + es;
    Follow(s7, AppenderRoll(0, false), s8, es); es := [AppenderRoll(0, false)] + es;
    Follow(s6, Lock(0, 2), s7, es); es := [Lock(0, 2)] + es;
    es := FirstAppend(s6, es);
  }

  lemma {:induction false} FirstAppend(s6: State, more: seq<Event>) returns (es: seq<Event>)
    requires s6 == Lone(3, 3, None, Idle, [Range(0, 3)], false) && Possible(s6, more)
    ensures Possible(Start(1), es) && Run(Start(1), es) == Run(s6, more)
  {
    var one := [Range(0, 3)];
    var s0 := Start(1);
    var s1 := Lone(0, 0, Some(0), Locked(3), [], false);
    var s2 := Lone(0, 0, Some(0), Rolled(3), [], false);
    var s3 := Lone(0, 0, Some(0), Loaded(3, 0), [], false);
    var s4 := Lone(3, 0, Some(0), Written(0), one, false);
    var s5 := s4.(logEnd := 3, phases := [Ended(0)]);
    assert [] + one == one;
    es := more;
    Follow(s5, StoreWatermark(0), s6, es); es := [StoreWatermark(0)] + es;
    Follow(s4, StoreLogEnd(0), s5, es); es := [StoreLogEnd(0)] + es;
    Follow(s3, Write(0), s4, es); es := [Write(0)] + es;
    Follow(s2, Load(0), s3, es); es := [Load(0)] + es;
    Follow(s1, AppenderRoll(0, false), s2, es); es := [AppenderRoll(0, false)] + es;
    Follow(s0, Lock(0, 3), s1, es); es := [Lock(0, 3)] + es;
  }
}
