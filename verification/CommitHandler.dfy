/**
 The broker's side of an offset commit: who may move a group's position, and what each of the
 partitions asked for gets in return.
 */
module CommitHandler {
  import opened Prelude
  import opened Buffer
  import opened Wire
  import opened CommitRecords
  import opened CommitHistory
  import opened OffsetStores
  import opened GroupCoordinators
  import G = Groups

  datatype Ask = Ask(topic: Name, partition: int, nextOffset: int, metadata: Name)

  /** The request's topics and partitions, one after another. */
  datatype CommitRequest = CommitRequest(groupId: Name, generation: int, memberId: string, asks: seq<Ask>)

  datatype Answer = Fenced(error: G.ErrorCode) | Failed | Committed

  /** What the request decoder lets through. */
  predicate Decoded(q: CommitRequest) {
    forall i :: 0 <= i < |q.asks| ==>
      Fits(q.asks[i].partition, INT32) && Fits(q.asks[i].nextOffset, INT64) && 0 <= q.asks[i].nextOffset
  }

  /** A member must prove it is current; a consumer with neither id nor generation has nothing to prove. */
  function Membership(c: G.Coordinator, q: CommitRequest, nowMs: int): G.ErrorCode {
    if q.memberId != "" || 0 <= q.generation then G.Heartbeat(c, q.groupId, q.memberId, q.generation, nowMs).1 else G.NoError
  }

  function KeyOf(q: CommitRequest, ask: Ask): CommitKey { CommitKey(q.groupId, ask.topic, ask.partition) }

  function ValueOf(ask: Ask, nowMs: int): CommitValue { CommitValue(ask.nextOffset, ask.metadata, nowMs) }

  /** The map after the first n asks: those answered as committed are in it, in order. */
  function After(m: Committed, q: CommitRequest, answers: seq<Answer>, nowMs: int, n: nat): Committed
    requires n <= |q.asks| && n <= |answers|
  {
    if n == 0 then m
    else
      var before := After(m, q, answers, nowMs, n - 1);
      if answers[n - 1] == Committed then before[KeyOf(q, q.asks[n - 1]) := ValueOf(q.asks[n - 1], nowMs)] else before
  }

  lemma {:induction false} AfterIsPrefix(m: Committed, q: CommitRequest, a: seq<Answer>, more: seq<Answer>, nowMs: int, n: nat)
    requires n <= |q.asks| && n <= |a|
    ensures After(m, q, a + more, nowMs, n) == After(m, q, a, nowMs, n)
  {
    if 0 < n { AfterIsPrefix(m, q, a, more, nowMs, n - 1); }
  }

  /** Names short enough for the record's length fields. */
  predicate AskFits(q: CommitRequest, ask: Ask, nowMs: int) {
    KeyFits(KeyOf(q, ask)) && ValueFits(ValueOf(ask, nowMs))
  }

  /** The bytes the asks from the i-th on would take in the group's partition. */
  function NeedFrom(sizeOf: (Bytes, Option<Bytes>) -> nat, q: CommitRequest, nowMs: int, i: nat): nat
    decreases |q.asks| - i
  {
    if i >= |q.asks| then 0
    else NeedOf(sizeOf, q, q.asks[i], nowMs) + NeedFrom(sizeOf, q, nowMs, i + 1)
  }

  function NeedOf(sizeOf: (Bytes, Option<Bytes>) -> nat, q: CommitRequest, ask: Ask, nowMs: int): nat {
    if AskFits(q, ask, nowMs) then Takes(sizeOf, EncodeKey(KeyOf(q, ask)), Some(EncodeValue(ValueOf(ask, nowMs)))) else 0
  }

  /** One ask committed, or failed without moving anything. */
  method CommitOne(offsets: OffsetStore, q: CommitRequest, ask: Ask, nowMs: int) returns (answer: Answer)
    requires offsets.Valid() && Fits(ask.partition, INT32) && Fits(ask.nextOffset, INT64) && 0 <= ask.nextOffset
    requires 0 <= nowMs && Fits(nowMs, INT64)
    modifies offsets`history, offsets`committed
    modifies offsets.logs[offsets.route(q.groupId)], ActiveOf(offsets.logs[offsets.route(q.groupId)])
    ensures offsets.Valid() && !answer.Fenced? && SegmentMoved(offsets.logs[offsets.route(q.groupId)])
    ensures offsets.committed == if answer == Committed then old(offsets.committed)[KeyOf(q, ask) := ValueOf(ask, nowMs)] else old(offsets.committed)
    ensures answer == Committed ==> AskFits(q, ask, nowMs)
    ensures AskFits(q, ask, nowMs) && old(HasRoom(offsets.logs[offsets.route(q.groupId)], NeedOf(offsets.sizeOf, q, ask, nowMs), 1))
            ==> answer == Committed
    ensures Grown(offsets.logs[offsets.route(q.groupId)], NeedOf(offsets.sizeOf, q, ask, nowMs))
  {
    var ok := offsets.Commit(KeyOf(q, ask), ValueOf(ask, nowMs), nowMs);
    return if ok then Committed else Failed;
  }

  /** The answers to the first asks, and the map they leave, for a requester with this standing. */
  ghost predicate Answered(
    start: Committed, m: Committed, q: CommitRequest, answers: seq<Answer>, nowMs: int, membership: G.ErrorCode, roomy: bool)
  {
    && |answers| <= |q.asks|
    && if membership != G.NoError
       then m == start && forall k :: 0 <= k < |answers| ==> answers[k] == Fenced(membership)
       else
         && m == After(start, q, answers, nowMs, |answers|)
         && (forall k :: 0 <= k < |answers| ==>
               !answers[k].Fenced? && (answers[k] == Committed ==> AskFits(q, q.asks[k], nowMs)))
         && (roomy ==> forall k :: 0 <= k < |answers| ==> (answers[k] == Committed <==> AskFits(q, q.asks[k], nowMs)))
  }

  lemma {:induction false} OneMoreAnswered(
    start: Committed, before: Committed, m: Committed, q: CommitRequest, answers: seq<Answer>, answer: Answer, nowMs: int,
    membership: G.ErrorCode, roomy: bool)
    requires Answered(start, before, q, answers, nowMs, membership, roomy) && |answers| < |q.asks|
    requires var ask := q.asks[|answers|];
             if membership != G.NoError then answer == Fenced(membership) && m == before
             else
               && !answer.Fenced? && (answer == Committed ==> AskFits(q, ask, nowMs))
               && (roomy && AskFits(q, ask, nowMs) ==> answer == Committed)
               && m == if answer == Committed then before[KeyOf(q, ask) := ValueOf(ask, nowMs)] else before
    ensures Answered(start, m, q, answers + [answer], nowMs, membership, roomy)
  {
    AfterIsPrefix(start, q, answers, [answer], nowMs, |answers|);
  }

  /**
   handleOffsetCommit. A stale or unknown member moves nothing and is told why for every partition;
   otherwise each ask answered as committed is what the store then holds, and nothing else changed. With
   room left in the group's partition the asks committed are exactly those whose names fit.
   */
  method HandleOffsetCommit(groups: GroupCoordinator, offsets: OffsetStore, q: CommitRequest, nowMs: int)
    returns (answers: seq<Answer>)
    requires offsets.Valid() && Decoded(q) && 0 <= nowMs && Fits(nowMs, INT64)
    modifies groups, offsets`history, offsets`committed
    modifies offsets.logs[offsets.route(q.groupId)], ActiveOf(offsets.logs[offsets.route(q.groupId)])
    ensures offsets.Valid() && |answers| == |q.asks|
    ensures var e := Membership(old(groups.Value()), q, nowMs);
            if e != G.NoError
            then offsets.committed == old(offsets.committed) && forall i :: 0 <= i < |answers| ==> answers[i] == Fenced(e)
            else offsets.committed == After(old(offsets.committed), q, answers, nowMs, |q.asks|)
                 && (forall i :: 0 <= i < |answers| ==> !answers[i].Fenced?)
                 && (old(HasRoom(offsets.logs[offsets.route(q.groupId)], NeedFrom(offsets.sizeOf, q, nowMs, 0), |q.asks|)) ==>
                      forall i :: 0 <= i < |answers| ==> (answers[i] == Committed <==> AskFits(q, q.asks[i], nowMs)))
  {
    var membership := G.NoError;
    if q.memberId != "" || 0 <= q.generation {
      membership := groups.Heartbeat(q.groupId, q.memberId, q.generation, nowMs);
    }
    answers := AnswerAll(offsets, q, nowMs, membership);
  }

  /** Where the loop over the asks is: what it has answered, and the room it has left. */
  ghost predicate Answering(
    offsets: OffsetStore, start: Committed, q: CommitRequest, answers: seq<Answer>, nowMs: int, membership: G.ErrorCode,
    roomy: bool)
    reads offsets, offsets.logs, set l | l in offsets.logs && l != null :: l.active
  {
    && offsets.Valid() && Answered(start, offsets.committed, q, answers, nowMs, membership, roomy)
    && (roomy ==> HasRoom(offsets.logs[offsets.route(q.groupId)],
                          NeedFrom(offsets.sizeOf, q, nowMs, |answers|), |q.asks| - |answers|))
  }

  method AnswerNext(
    offsets: OffsetStore, q: CommitRequest, answers: seq<Answer>, nowMs: int, membership: G.ErrorCode,
    ghost start: Committed, ghost roomy: bool)
    returns (more: seq<Answer>)
    requires Answering(offsets, start, q, answers, nowMs, membership, roomy) && |answers| < |q.asks|
    requires Decoded(q) && 0 <= nowMs && Fits(nowMs, INT64)
    modifies offsets`history, offsets`committed
    modifies offsets.logs[offsets.route(q.groupId)], ActiveOf(offsets.logs[offsets.route(q.groupId)])
    ensures Answering(offsets, start, q, more, nowMs, membership, roomy) && |more| == |answers| + 1
    ensures SegmentMoved(offsets.logs[offsets.route(q.groupId)])
  {
    ghost var before := offsets.committed;
    var ask := q.asks[|answers|];
    var answer := Fenced(membership);
    if membership == G.NoError { answer := CommitOne(offsets, q, ask, nowMs); }
    OneMoreAnswered(start, before, offsets.committed, q, answers, answer, nowMs, membership, roomy);
    more := answers + [answer];
  }

  /** The loop over the asks. */
  method AnswerAll(offsets: OffsetStore, q: CommitRequest, nowMs: int, membership: G.ErrorCode) returns (answers: seq<Answer>)
    requires offsets.Valid() && Decoded(q) && 0 <= nowMs && Fits(nowMs, INT64)
    modifies offsets`history, offsets`committed
    modifies offsets.logs[offsets.route(q.groupId)], ActiveOf(offsets.logs[offsets.route(q.groupId)])
    ensures offsets.Valid() && |answers| == |q.asks|
    ensures Answered(old(offsets.committed), offsets.committed, q, answers, nowMs, membership,
                     old(HasRoom(offsets.logs[offsets.route(q.groupId)], NeedFrom(offsets.sizeOf, q, nowMs, 0), |q.asks|)))
  {
    answers := [];
    ghost var start, p := offsets.committed, offsets.route(q.groupId);
    ghost var roomy := HasRoom(offsets.logs[p], NeedFrom(offsets.sizeOf, q, nowMs, 0), |q.asks|);
    while |answers| < |q.asks|
      invariant |answers| <= |q.asks| && Answering(offsets, start, q, answers, nowMs, membership, roomy)
      invariant SegmentMoved(offsets.logs[p])
      decreases |q.asks| - |answers|
    {
      answers := AnswerNext(offsets, q, answers, nowMs, membership, start, roomy);
    }
  }
}
