/**
 Where every group has got to: a map in memory, kept in step with the partitions of commits
 it is replayed from.
 */
module OffsetStores {
  import opened Prelude
  import opened Records
  import opened Segments
  import opened ActiveSegments
  import opened Sealed
  import opened FlatLogs
  import opened Logs
  import opened Cleaning
  import opened CommitRecords
  import opened CommitHistory
  import opened Replay

  /** A log's records, and the key view they leave. */
  ghost function RecordsIn(log: Log): seq<Record>
    reads log, log.active
  {
    RecordsOf(log.Flat())
  }

  /** The batch of one commit, as the builder leaves it: one record at delta zero. */
  function BatchFor(key: Bytes, value: Option<Bytes>, stampMs: int, size: nat): Batch {
    Batch(0, 0, HEADER_SIZE + size, stampMs, [Record(0, stampMs, Some(key), value, [])])
  }

  /** Stamping moves the record's offset and nothing else. */
  function Landed(key: Bytes, value: Option<Bytes>, stampMs: int, offset: int): Record {
    Record(offset, stampMs, Some(key), value, [])
  }

  lemma {:induction false} StampedCommit(key: Bytes, value: Option<Bytes>, stampMs: int, size: nat, base: int)
    ensures Stamped(BatchFor(key, value, stampMs, size), base).records == [Landed(key, value, stampMs, base)]
  {
    var rs := BatchFor(key, value, stampMs, size).records;
    assert rs[1..] == [];
  }

  /** A partition fit to be replayed: no gaps, and every keyed record a commit of a group that belongs here. */
  ghost predicate Replayable(log: Log, route: string -> nat, p: nat)
    reads log, log.active
  {
    log.Valid() && NoGaps(log.sealed, log.active.base) && Routed(RecordsIn(log), route, p)
  }

  lemma {:induction false} RoutedSnoc(rs: seq<Record>, route: string -> nat, p: nat, r: Record, k: CommitKey)
    requires Routed(rs, route, p) && IsCommit(r, k) && route(k.group) == p
    ensures Routed(rs + [r], route, p)
  {
    assert IsCommit((rs + [r])[|rs|], k);
  }

  /** The bytes a commit or a tombstone takes, once framed as a batch. */
  function Takes(sizeOf: (Bytes, Option<Bytes>) -> nat, key: Bytes, value: Option<Bytes>): nat {
    HEADER_SIZE + sizeOf(key, value)
  }

  /** Appends one commit or tombstone to its partition's log. */
  method AppendCommit(
    log: Log, key: CommitKey, value: Option<Bytes>, stampMs: int, size: nat, nowMs: int, ghost route: string -> nat, ghost p: nat)
    returns (done: bool, ghost r: Record)
    requires Replayable(log, route, p) && KeyFits(key) && route(key.group) == p && 0 <= nowMs
    requires value.Some? ==> exists v :: ValueFits(v) && 0 <= v.nextOffset && value == Some(EncodeValue(v))
    modifies log, log.active
    ensures Replayable(log, route, p) && (log.active == old(log.active) || fresh(log.active))
    ensures RecordsIn(log) == old(RecordsIn(log)) + if done then [r] else []
    ensures IsCommit(r, key) && r.value == value
    ensures done <==> old(log.Accepts(BatchFor(EncodeKey(key), value, stampMs, size), nowMs))
    ensures old(log.Room(HEADER_SIZE + size, 1)) ==> done
    ensures log.Used() <= old(log.Used()) + HEADER_SIZE + size && log.Span() <= old(log.Span()) + 1
  {
    var b := BatchFor(EncodeKey(key), value, stampMs, size);
    ghost var flat := log.Flat();
    r := Landed(EncodeKey(key), value, stampMs, log.logEndOffset);
    LandedIsCommit(r, key, value);
    StampedCommit(EncodeKey(key), value, stampMs, size, log.logEndOffset);
    RecordsSnoc(flat, Stamped(b, log.logEndOffset));
    RoutedSnoc(RecordsOf(flat), route, p, r, key);
    var base := log.Append(b, nowMs);
    done := base.Some?;
    assert RecordsOf(flat) + [] == RecordsOf(flat);
  }

  lemma {:induction false} LandedIsCommit(r: Record, key: CommitKey, value: Option<Bytes>)
    requires KeyFits(key) && r.key == Some(EncodeKey(key)) && r.value == value
    requires value.Some? ==> exists v :: ValueFits(v) && 0 <= v.nextOffset && value == Some(EncodeValue(v))
    ensures IsCommit(r, key)
  {
    if value.Some? {
      var v :| ValueFits(v) && 0 <= v.nextOffset && value == Some(EncodeValue(v));
      assert Valued(r, v);
    }
  }

  /** An append may have rolled: the active segment is the same object or a new one. */
  twostate predicate SegmentMoved(log: Log?)
    reads log
  {
    log != null ==> log.active == old(log.active) || fresh(log.active)
  }

  /** The active segment of a partition that is hosted. */
  function ActiveOf(log: Log?): set<ActiveSegment>
    reads log
  {
    set l: Log | l == log :: l.active
  }

  /** A partition that is hosted is fit to be replayed and holds these records; one that is not holds none. */
  ghost predicate Keeps(log: Log?, route: string -> nat, p: nat, records: seq<Record>)
    reads log, ActiveOf(log)
  {
    if log == null then records == [] else Replayable(log, route, p) && RecordsIn(log) == records
  }

  ghost predicate Apart(a: Log?, b: Log?)
    reads a, b
  {
    a != null && b != null ==> a != b && a.active != b.active
  }

  /** Every group's partition exists, no two are one log, and this is what each holds. */
  ghost predicate Holding(logs: seq<Log?>, route: string -> nat, history: seq<seq<Record>>)
    reads logs, set l | l in logs && l != null :: l.active
  {
    && |history| == |logs|
    && (forall g :: route(g) < |logs|)
    && (forall i: nat, j: nat :: i < j < |logs| ==> Apart(logs[i], logs[j]))
    && forall p: nat :: p < |logs| ==> Keeps(logs[p], route, p, history[p])
  }

  /** All of that but for one partition. */
  ghost predicate OthersHold(logs: seq<Log?>, route: string -> nat, history: seq<seq<Record>>, p: nat)
    reads set i | 0 <= i < |logs| && i != p :: logs[i], set i | 0 <= i < |logs| && i != p && logs[i] != null :: logs[i].active
  {
    && |history| == |logs|
    && (forall i: nat, j: nat :: i < j < |logs| && i != p && j != p ==> Apart(logs[i], logs[j]))
    && forall q: nat :: q < |logs| && q != p ==> Keeps(logs[q], route, q, history[q])
  }

  ghost predicate ApartFrom(logs: seq<Log?>, p: nat)
    requires p < |logs|
    reads logs
  {
    forall q: nat :: q < |logs| && q != p ==> Apart(logs[q], logs[p])
  }

  lemma {:induction false} HoldingSplits(logs: seq<Log?>, route: string -> nat, history: seq<seq<Record>>, p: nat)
    requires p < |logs| && forall g :: route(g) < |logs|
    ensures Holding(logs, route, history)
       <==> OthersHold(logs, route, history, p) && ApartFrom(logs, p) && Keeps(logs[p], route, p, history[p])
  {
    if Holding(logs, route, history) {
      forall q: nat | q < |logs| && q != p ensures Apart(logs[q], logs[p]) {
        assert if q < p then Apart(logs[q], logs[p]) else Apart(logs[p], logs[q]);
      }
    } else if OthersHold(logs, route, history, p) && ApartFrom(logs, p) && Keeps(logs[p], route, p, history[p]) {
      forall i: nat, j: nat | i < j < |logs| ensures Apart(logs[i], logs[j]) {
        if i == p { assert Apart(logs[j], logs[p]); }
      }
      assert false;
    }
  }

  lemma {:induction false} OthersAgree(
    logs: seq<Log?>, route: string -> nat, history: seq<seq<Record>>, grown: seq<seq<Record>>, p: nat)
    requires OthersHold(logs, route, history, p)
    requires |grown| == |history| && forall q: nat :: q < |history| && q != p ==> grown[q] == history[q]
    ensures OthersHold(logs, route, grown, p)
  {
  }

  /** One hosted partition gains one commit; the others are not touched. */
  method AppendTo(
    logs: seq<Log?>, log: Log, p: nat, key: CommitKey, value: Option<Bytes>, stampMs: int, size: nat, nowMs: int,
    ghost route: string -> nat, ghost history: seq<seq<Record>>)
    returns (done: bool, ghost r: Record)
    requires p < |logs| && logs[p] == log && p == route(key.group) && p < |history|
    requires OthersHold(logs, route, history, p) && ApartFrom(logs, p) && Keeps(log, route, p, history[p])
    requires KeyFits(key) && 0 <= nowMs
    requires value.Some? ==> exists v :: ValueFits(v) && 0 <= v.nextOffset && value == Some(EncodeValue(v))
    modifies log, log.active
    ensures IsCommit(r, key) && r.value == value && SegmentMoved(log)
    ensures done <==> old(log.Accepts(BatchFor(EncodeKey(key), value, stampMs, size), nowMs))
    ensures old(log.Room(HEADER_SIZE + size, 1)) ==> done
    ensures log.Used() <= old(log.Used()) + HEADER_SIZE + size && log.Span() <= old(log.Span()) + 1
    ensures OthersHold(logs, route, history, p) && ApartFrom(logs, p)
    ensures Keeps(log, route, p, history[p] + if done then [r] else [])
  {
    done, r := AppendCommit(log, key, value, stampMs, size, nowMs, route, p);
  }

  /** The partition is hosted, and the commit's batch has a place in its log. */
  ghost predicate Accepted(log: Log?, key: CommitKey, value: Option<Bytes>, stampMs: int, size: nat, nowMs: int)
    requires KeyFits(key)
    reads log, ActiveOf(log)
  {
    log != null && log.Accepts(BatchFor(EncodeKey(key), value, stampMs, size), nowMs)
  }

  ghost predicate HasRoom(log: Log?, bytes: nat, offsets: nat)
    reads log, ActiveOf(log)
  {
    log != null && log.Room(bytes, offsets)
  }

  /** No more of the active segment is used up than this. */
  twostate predicate Grown(log: Log?, bytes: nat)
    reads log, ActiveOf(log)
  {
    log != null ==> log.Used() <= old(log.Used()) + bytes && log.Span() <= old(log.Span()) + 1
  }

  /** The append behind a commit or a tombstone: one partition gains one record, the rest stay. */
  method Write(
    logs: seq<Log?>, route: string -> nat, key: CommitKey, value: Option<Bytes>, stampMs: int, size: nat, nowMs: int,
    ghost history: seq<seq<Record>>)
    returns (done: bool, ghost r: Record, ghost grown: seq<seq<Record>>)
    requires Holding(logs, route, history) && KeyFits(key) && 0 <= nowMs
    requires value.Some? ==> exists v :: ValueFits(v) && 0 <= v.nextOffset && value == Some(EncodeValue(v))
    modifies logs[route(key.group)], ActiveOf(logs[route(key.group)])
    ensures Holding(logs, route, grown) && IsCommit(r, key) && r.value == value
    ensures SegmentMoved(logs[route(key.group)])
    ensures done <==> old(Accepted(logs[route(key.group)], key, value, stampMs, size, nowMs))
    ensures old(HasRoom(logs[route(key.group)], HEADER_SIZE + size, 1)) ==> done
    ensures Grown(logs[route(key.group)], HEADER_SIZE + size)
    ensures var p := route(key.group); grown == if done then history[p := history[p] + [r]] else history
  {
    var p := route(key.group);
    var log := logs[p];
    if log == null {
      r := Landed(EncodeKey(key), value, stampMs, 0);
      LandedIsCommit(r, key, value);
      return false, r, history;
    }
    HoldingSplits(logs, route, history, p);
    done, r := AppendTo(logs, log, p, key, value, stampMs, size, nowMs, route, history);
    grown := history[p := history[p] + if done then [r] else []];
    OthersAgree(logs, route, history, grown, p);
    HoldingSplits(logs, route, grown, p);
    assert history[p] + [] == history[p];
  }

  function ViewsOf(history: seq<seq<Record>>): (vs: seq<map<Bytes, Bytes>>)
    ensures |vs| == |history| && forall p: nat :: p < |history| ==> vs[p] == View(history[p])
  {
    seq(|history|, p requires 0 <= p < |history| => View(history[p]))
  }

  lemma {:induction false} ViewsStep(history: seq<seq<Record>>, p: nat, r: Record)
    requires p < |history|
    ensures ViewsOf(history[p := history[p] + [r]]) == ViewsOf(history)[p := Apply(View(history[p]), r)]
  {
    var rs := history[p] + [r];
    assert rs[..|rs| - 1] == history[p];
  }

  /** What commit and forget share: the append, and then the map. */
  method Remember(
    logs: seq<Log?>, route: string -> nat, key: CommitKey, value: Option<CommitValue>, bytes: Option<Bytes>,
    stampMs: int, size: nat, nowMs: int, m: Committed, ghost history: seq<seq<Record>>)
    returns (ok: bool, m': Committed, ghost grown: seq<seq<Record>>)
    requires Holding(logs, route, history) && Mirrors(m, ViewsOf(history), route) && KeyFits(key) && 0 <= nowMs
    requires match value
             case None => bytes == None
             case Some(v) => ValueFits(v) && 0 <= v.nextOffset && bytes == Some(EncodeValue(v))
    modifies logs[route(key.group)], ActiveOf(logs[route(key.group)])
    ensures Holding(logs, route, grown) && Mirrors(m', ViewsOf(grown), route)
    ensures SegmentMoved(logs[route(key.group)])
    ensures m' == if ok then Updated(m, key, value) else m
    ensures ok <==> old(Accepted(logs[route(key.group)], key, bytes, stampMs, size, nowMs))
    ensures old(HasRoom(logs[route(key.group)], HEADER_SIZE + size, 1)) ==> ok
    ensures Grown(logs[route(key.group)], HEADER_SIZE + size)
  {
    ghost var r;
    ok, r, grown := Write(logs, route, key, bytes, stampMs, size, nowMs, history);
    m' := m;
    if ok {
      Remembered(m, history, route, key, r, value);
      m' := Updated(m, key, value);
    }
  }

  class OffsetStore {
    const logs: seq<Log?>
    const route: string -> nat
    const sizeOf: (Bytes, Option<Bytes>) -> nat
    var committed: Committed
    ghost var history: seq<seq<Record>>

    ghost predicate Hosted()
      reads `history, logs, set l | l in logs && l != null :: l.active
    {
      Holding(logs, route, history)
    }

    /** The map in memory is exactly what the topic says. */
    ghost predicate Valid()
      reads this, logs, set l | l in logs && l != null :: l.active
    {
      Hosted() && Mirrors(committed, ViewsOf(history), route)
    }

    /** A store over partitions that hold these records; it knows of no position until it replays them. */
    constructor (logs: seq<Log?>, route: string -> nat, sizeOf: (Bytes, Option<Bytes>) -> nat, ghost history: seq<seq<Record>>)
      requires Holding(logs, route, history)
      ensures Hosted() && committed == map[] && this.history == history
      ensures this.logs == logs && this.route == route && this.sizeOf == sizeOf
      ensures (forall p: nat :: p < |logs| ==> history[p] == []) ==> Valid()
    {
      this.logs, this.route, this.sizeOf, committed, this.history := logs, route, sizeOf, map[], history;
    }

    method Become(m: Committed, ghost grown: seq<seq<Record>>)
      requires Holding(logs, route, grown) && Mirrors(m, ViewsOf(grown), route)
      modifies this`history, this`committed
      ensures Valid() && committed == m && history == grown
    {
      committed, history := m, grown;
    }

    /** A commit or a tombstone, once encoded. */
    method Land(key: CommitKey, value: Option<CommitValue>, bytes: Option<Bytes>, stampMs: int, size: nat, nowMs: int)
      returns (ok: bool)
      requires Valid() && KeyFits(key) && 0 <= nowMs
      requires match value
               case None => bytes == None
               case Some(v) => ValueFits(v) && 0 <= v.nextOffset && bytes == Some(EncodeValue(v))
      modifies this`history, this`committed, logs[route(key.group)], ActiveOf(logs[route(key.group)])
      ensures Valid() && SegmentMoved(logs[route(key.group)])
      ensures committed == if ok then Updated(old(committed), key, value) else old(committed)
      ensures ok <==> old(Accepted(logs[route(key.group)], key, bytes, stampMs, size, nowMs))
      ensures old(HasRoom(logs[route(key.group)], HEADER_SIZE + size, 1)) ==> ok
      ensures Grown(logs[route(key.group)], HEADER_SIZE + size)
    {
      var m := committed;
      ghost var grown := history;
      ok, m, grown := Remember(logs, route, key, value, bytes, stampMs, size, nowMs, m, grown);
      Become(m, grown);
    }

    /**
     commit. Appended first, then remembered: nothing is reported that would not survive a restart. It
     lands exactly when the names fit their fields, the group's partition is hosted, and its log takes it.
     */
    method Commit(key: CommitKey, value: CommitValue, nowMs: int) returns (ok: bool)
      requires Valid() && KeyTyped(key) && ValueTyped(value) && 0 <= value.nextOffset && 0 <= nowMs
      modifies this`history, this`committed, logs[route(key.group)], ActiveOf(logs[route(key.group)])
      ensures Valid() && SegmentMoved(logs[route(key.group)])
      ensures committed == if ok then old(committed)[key := value] else old(committed)
      ensures ok <==> KeyFits(key) && ValueFits(value) && old(CommitLands(key, value, nowMs))
      ensures KeyFits(key) && ValueFits(value) && old(HasRoom(logs[route(key.group)], CommitBytes(key, value), 1)) ==> ok
      ensures Grown(logs[route(key.group)], if KeyFits(key) && ValueFits(value) then CommitBytes(key, value) else 0)
    {
      var keyBytes := WriteKey(key);
      var valueBytes := WriteValue(value);
      if keyBytes.None? || valueBytes.None? { return false; }
      ok := Land(key, Some(value), valueBytes, value.commitTimestampMs, sizeOf(keyBytes.value, valueBytes), nowMs);
    }

    function CommitBytes(key: CommitKey, value: CommitValue): nat
      requires KeyFits(key) && ValueFits(value)
    {
      Takes(sizeOf, EncodeKey(key), Some(EncodeValue(value)))
    }

    ghost predicate CommitLands(key: CommitKey, value: CommitValue, nowMs: int)
      requires KeyFits(key) && ValueFits(value) && route(key.group) < |logs|
      reads logs[route(key.group)], ActiveOf(logs[route(key.group)])
    {
      var bytes := Some(EncodeValue(value));
      Accepted(logs[route(key.group)], key, bytes, value.commitTimestampMs, sizeOf(EncodeKey(key), bytes), nowMs)
    }

    ghost predicate ForgetLands(key: CommitKey, nowMs: int)
      requires KeyFits(key) && route(key.group) < |logs|
      reads logs[route(key.group)], ActiveOf(logs[route(key.group)])
    {
      Accepted(logs[route(key.group)], key, None, nowMs, sizeOf(EncodeKey(key), None), nowMs)
    }

    /** forget. A tombstone: a null value, never an empty one. It lands exactly when a commit of that key would. */
    method Forget(key: CommitKey, nowMs: int) returns (ok: bool)
      requires Valid() && KeyTyped(key) && 0 <= nowMs
      modifies this`history, this`committed, logs[route(key.group)], ActiveOf(logs[route(key.group)])
      ensures Valid() && SegmentMoved(logs[route(key.group)])
      ensures committed == if ok then old(committed) - {key} else old(committed)
      ensures ok <==> KeyFits(key) && old(ForgetLands(key, nowMs))
      ensures KeyFits(key) && old(HasRoom(logs[route(key.group)], Takes(sizeOf, EncodeKey(key), None), 1)) ==> ok
    {
      var keyBytes := WriteKey(key);
      if keyBytes.None? { return false; }
      ok := Land(key, None, None, nowMs, sizeOf(keyBytes.value, None), nowMs);
    }

    /**
     replay. Whatever the map held before, it ends as the fold of what each hosted partition's replay
     reaches, or fails on bytes that do not decode. Over partitions fit to be replayed that is exactly the
     map the topic describes; a map that was in step is rebuilt as it was.
     */
    method Replay() returns (ok: bool, ghost reached: seq<seq<Record>>)
      requires forall l: Log? :: l in logs && l != null ==> l.Valid()
      modifies this`committed
      ensures |reached| == |logs| && forall p: nat :: p < |logs| ==> reached[p] == ReachedIn(logs[p])
      ensures FoldAll(map[], reached) == if ok then Some(committed) else None
      ensures Hosted() ==> ok && Valid()
      ensures old(Valid()) ==> committed == old(committed)
    {
      ghost var was := committed;
      var m;
      ok, m, reached := ReplayAll(logs);
      if Hosted() { HostedIsReplayed(was, m, logs, route, history, reached); }
      committed := m;
    }
  }

  /** What a replay of this partition reads: nothing if it is not hosted. */
  ghost function ReachedIn(log: Log?): seq<Record>
    reads log, ActiveOf(log)
  {
    if log == null then [] else RecordsOf(Reached(log.sealed, log.active.base, log.active.batches))
  }

  lemma {:induction false} ReachedIsKept(log: Log?, route: string -> nat, p: nat, records: seq<Record>)
    requires Keeps(log, route, p, records)
    ensures ReachedIn(log) == records && Routed(records, route, p)
  {
    if log != null { NoGapsReachesAll(log.sealed, log.active.base, log.active.batches); }
  }

  /** The partitions replayed one after another. */
  function FoldAll(m: Committed, rss: seq<seq<Record>>): Option<Committed> {
    if rss == [] then Some(m)
    else
      match FoldAll(m, rss[..|rss| - 1])
      case None => None
      case Some(m') => Fold(m', rss[|rss| - 1])
  }

  lemma {:induction false} FoldAllSnoc(m: Committed, rss: seq<seq<Record>>, p: nat, before: Committed)
    requires p < |rss| && FoldAll(m, rss[..p]) == Some(before)
    ensures FoldAll(m, rss[..p + 1]) == Fold(before, rss[p])
  {
    assert rss[..p + 1][..p] == rss[..p];
  }

  lemma {:induction false} FoldAllFails(m: Committed, rss: seq<seq<Record>>, p: nat)
    requires p <= |rss| && FoldAll(m, rss[..p]) == None
    ensures FoldAll(m, rss) == None
  {
    if p < |rss| {
      FoldAllFails(m, rss[..|rss| - 1], p - 0) by { assert rss[..|rss| - 1][..p] == rss[..p]; }
    } else {
      assert rss[..p] == rss;
    }
  }

  /** The loop over the partitions, into an empty map. */
  method ReplayAll(logs: seq<Log?>) returns (ok: bool, m: Committed, ghost reached: seq<seq<Record>>)
    requires forall l: Log? :: l in logs && l != null ==> l.Valid()
    ensures |reached| == |logs| && forall p: nat :: p < |logs| ==> reached[p] == ReachedIn(logs[p])
    ensures FoldAll(map[], reached) == if ok then Some(m) else None
  {
    ghost var all := seq(|logs|, p requires 0 <= p < |logs| reads logs, set l | l in logs && l != null :: l.active => ReachedIn(logs[p]));
    reached, m := all, map[];
    var p := 0;
    while p < |logs|
      invariant p <= |logs| && FoldAll(map[], all[..p]) == Some(m)
    {
      FoldAllSnoc(map[], all, p, m);
      var log := logs[p];
      if log != null {
        var out := ReplayPartition(log, m);
        if out.None? {
          FoldAllFails(map[], all, p + 1);
          return false, m, all;
        }
        m := out.value;
      }
      p := p + 1;
    }
    assert all[..p] == all;
    return true, m, all;
  }

  /** Partition after partition, each fit to be replayed, the map comes to be what the topic says. */
  lemma {:induction false} FoldAllMirrors(history: seq<seq<Record>>, route: string -> nat, n: nat)
    requires n <= |history| && forall p: nat :: p < |history| ==> Routed(history[p], route, p)
    ensures FoldAll(map[], history[..n]).Some?
    ensures MirrorsFirst(FoldAll(map[], history[..n]).value, ViewsOf(history), route, n)
  {
    if 0 < n {
      FoldAllMirrors(history, route, n - 1);
      var m := FoldAll(map[], history[..n - 1]).value;
      FoldAllSnoc(map[], history, n - 1, m);
      MirrorsOneMore(m, ViewsOf(history), route, n - 1, history[n - 1]);
    }
  }

  lemma {:induction false} HostedIsReplayed(
    was: Committed, m: Committed, logs: seq<Log?>, route: string -> nat, history: seq<seq<Record>>, reached: seq<seq<Record>>)
    requires Holding(logs, route, history)
    requires |reached| == |logs| && forall p: nat :: p < |logs| ==> reached[p] == ReachedIn(logs[p])
    ensures FoldAll(map[], reached).Some?
    ensures FoldAll(map[], reached) == Some(m) ==>
              Mirrors(m, ViewsOf(history), route) && (Mirrors(was, ViewsOf(history), route) ==> m == was)
  {
    forall p: nat | p < |logs| ensures reached[p] == history[p] && Routed(history[p], route, p) {
      ReachedIsKept(logs[p], route, p, history[p]);
    }
    assert reached == history && history[..|history|] == history;
    FoldAllMirrors(history, route, |history|);
    if FoldAll(map[], reached) == Some(m) && Mirrors(was, ViewsOf(history), route) {
      MirrorIsUnique(was, m, ViewsOf(history), route);
    }
  }

  /** Hosted, empty, and no two of them one. */
  ghost predicate Empties(logs: seq<Log?>)
    reads logs, set l | l in logs && l != null :: l.active
  {
    && (forall p: nat :: p < |logs| ==> IsEmpty(logs[p]))
    && (forall i: nat, j: nat :: i < j < |logs| ==> Apart(logs[i], logs[j]))
  }

  ghost predicate IsEmpty(log: Log?)
    reads log, ActiveOf(log)
  {
    log != null && log.Valid() && log.Flat() == [] && log.sealed == []
  }

  lemma {:induction false} EmptiesSnoc(logs: seq<Log?>, l: Log)
    requires Empties(logs) && IsEmpty(l) && forall p: nat :: p < |logs| ==> Apart(logs[p], l)
    ensures Empties(logs + [l])
  {
  }

  /** Partitions newly created. */
  method EmptyLogs(n: nat, policy: Policy, retention: Retention) returns (logs: seq<Log?>)
    ensures |logs| == n && Empties(logs) && forall l :: l in logs ==> fresh(l)
  {
    logs := [];
    while |logs| < n
      invariant |logs| <= n && Empties(logs) && forall l :: l in logs ==> fresh(l)
    {
      logs := OneMore(logs, policy, retention);
    }
  }

  method OneMore(logs: seq<Log?>, policy: Policy, retention: Retention) returns (more: seq<Log?>)
    requires Empties(logs)
    ensures Empties(more) && |more| == |logs| + 1 && forall l :: l in more ==> l in logs || fresh(l)
  {
    var l := new Log(policy, retention);
    assert IsEmpty(l);
    EmptiesSnoc(logs, l);
    more := logs + [l];
  }

  /** A store over new partitions: nothing is committed, and the empty map says so. */
  method OpenEmpty(n: nat, policy: Policy, retention: Retention, route: string -> nat, sizeOf: (Bytes, Option<Bytes>) -> nat)
    returns (store: OffsetStore)
    requires forall g :: route(g) < n
    ensures fresh(store) && store.Valid() && store.committed == map[] && |store.logs| == n
    ensures forall l :: l in store.logs ==> l != null && fresh(l)
  {
    var logs := EmptyLogs(n, policy, retention);
    ghost var history: seq<seq<Record>> := seq(n, _ => []);
    forall p: nat | p < n ensures Keeps(logs[p], route, p, history[p]) {
      assert IsEmpty(logs[p]);
    }
    store := new OffsetStore(logs, route, sizeOf, history);
  }

  function Updated(m: Committed, k: CommitKey, v: Option<CommitValue>): Committed {
    if v.Some? then m[k := v.value] else m - {k}
  }

  lemma {:induction false} Remembered(
    m: Committed, history: seq<seq<Record>>, route: string -> nat, k: CommitKey, r: Record, v: Option<CommitValue>)
    requires Mirrors(m, ViewsOf(history), route) && IsCommit(r, k) && route(k.group) < |history|
    requires match v
             case None => r.value == None
             case Some(x) => ValueFits(x) && 0 <= x.nextOffset && r.value == Some(EncodeValue(x))
    ensures var p := route(k.group); Mirrors(Updated(m, k, v), ViewsOf(history[p := history[p] + [r]]), route)
  {
    var p := route(k.group);
    CommitMirrors(m, ViewsOf(history), route, p, r, k);
    ViewsStep(history, p, r);
    KeyRoundTrip(k);
    if v.Some? { ValueRoundTrip(v.value); }
    assert ApplyCommit(m, r) == Some(Updated(m, k, v));
  }
}
