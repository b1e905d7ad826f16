/** Reopening a partition from the segments found on disk. */
module LogOpening {
  // The check on how they follow each other, and recovery of the last.

  import opened Prelude
  import opened Records
  import opened Segments
  import opened ActiveSegments
  import opened Sealed
  import opened FlatLogs
  import opened Logs
  import opened Cleaner

  /** A segment file with the index beside it. */
  datatype SegmentFile = SegmentFile(base: int, batches: seq<Batch>, index: seq<Entry>)

  ghost predicate WellKept(f: SegmentFile) {
    && Ordered(f.base, f.batches) && ValidIndex(f.base, f.batches, f.index) && f.batches != []
    && forall e :: e in f.index ==> e.relative <= MAX_UINT32
  }

  /** The directory's files are listed by base offset. */
  ghost predicate Listed(older: seq<SegmentFile>, newest: int) {
    && (forall i :: 0 <= i < |older| ==> WellKept(older[i]) && older[i].base < newest)
    && (forall i, j :: 0 <= i < j < |older| ==> older[i].base < older[j].base)
  }

  function NextBase(older: seq<SegmentFile>, newest: int, i: nat): int
    requires i < |older|
  {
    if i + 1 < |older| then older[i + 1].base else newest
  }

  /** A compacted log may have gaps but no overlaps; any other must follow on exactly. */
  predicate Follows(compacted: bool, ends: int, next: int) { if compacted then ends <= next else ends == next }

  ghost predicate AllFollow(compacted: bool, older: seq<SegmentFile>, newest: int) {
    forall i :: 0 <= i < |older| ==>
      Follows(compacted, NextOffset(older[i].base, older[i].batches), NextBase(older, newest, i))
  }

  /** These sealed segments are those files, opened. */
  ghost predicate OpenedFrom(gs: seq<SealedSegment>, older: seq<SegmentFile>) {
    && |gs| == |older|
    && forall i :: 0 <= i < |gs| ==>
         Opened(gs[i]) && gs[i].base == older[i].base && gs[i].batches == older[i].batches && gs[i].index == older[i].index
  }

  lemma {:induction false} FollowIsChained(
    compacted: bool, gs: seq<SealedSegment>, older: seq<SegmentFile>, newest: int, k: nat)
    requires OpenedFrom(gs, older) && AllFollow(compacted, older, newest) && k <= |gs|
    ensures Chained(gs[k..], if k < |gs| then gs[k].base else newest, newest)
    decreases |gs| - k
  {
    if k < |gs| {
      FollowIsChained(compacted, gs, older, newest, k + 1);
      assert gs[k..][1..] == gs[k + 1..] && gs[k..][0] == gs[k];
      ChainedWiden(gs[k + 1..], if k + 1 < |gs| then gs[k + 1].base else newest, newest, gs[k].next, newest);
    }
  }

  method OpenAll(older: seq<SegmentFile>) returns (gs: seq<SealedSegment>)
    requires forall i :: 0 <= i < |older| ==> WellKept(older[i])
    ensures OpenedFrom(gs, older)
  {
    gs := [];
    var i := 0;
    while i < |older|
      invariant i <= |older| && OpenedFrom(gs, older[..i])
    {
      var g := OpenSealed(older[i].base, older[i].batches, older[i].index);
      assert older[..i + 1] == older[..i] + [older[i]];
      gs := gs + [g];
      i := i + 1;
    }
    assert older[..i] == older;
  }

  method CheckFollowing(compacted: bool, gs: seq<SealedSegment>, ghost older: seq<SegmentFile>, newest: int) returns (ok: bool)
    requires OpenedFrom(gs, older)
    ensures ok <==> AllFollow(compacted, older, newest)
  {
    var i := 0;
    while i < |gs|
      invariant i <= |gs|
      invariant forall k :: 0 <= k < i ==>
                  Follows(compacted, NextOffset(older[k].base, older[k].batches), NextBase(older, newest, k))
    {
      var next := if i + 1 < |gs| then gs[i + 1].base else newest;
      assert gs[i].next == NextOffset(older[i].base, older[i].batches) && next == NextBase(older, newest, i);
      if !Follows(compacted, gs[i].next, next) { return false; }
      i := i + 1;
    }
    return true;
  }

  datatype OpenError = Broken | RecoveryFailed

  /**
   Log::open, for a directory with at least one segment. It refuses exactly the sequences its cleanup
   policy does not explain, and a newest segment with a batch its index has no place for; otherwise it
   holds the sealed files as they are and the longest prefix of the newest that recovery can stand behind.
   */
  method Open(
    policy: Policy, retention: Retention, compacted: bool, older: seq<SegmentFile>, newest: int, found: seq<Found>, nowMs: int)
    returns (log: Log?, error: Option<OpenError>, ghost n: nat)
    requires Listed(older, newest) && (forall f :: f in found ==> Sound(f.batch)) && 0 <= nowMs
    ensures log == null <==> error.Some?
    ensures log != null <==> AllFollow(compacted, older, newest) && forall m: nat :: !Escapes(newest, policy, found, None, m)
    ensures error == Some(Broken) <==> !AllFollow(compacted, older, newest)
    ensures error == Some(RecoveryFailed) <==>
              AllFollow(compacted, older, newest) && exists m: nat :: Escapes(newest, policy, found, None, m)
    ensures log != null ==>
              && fresh(log) && fresh(log.active) && log.policy == policy && log.retention == retention
              && log.Valid() && OpenedFrom(log.sealed, older)
              && log.active.base == newest && IsRecovered(newest, found, None, n)
              && log.active.batches == BatchesOf(found)[..n]
              && log.logEndOffset == log.highWatermark == NextOffset(newest, log.active.batches)
  {
    n := 0;
    var gs := OpenAll(older);
    var ok := CheckFollowing(compacted, gs, older, newest);
    if !ok { return null, Some(Broken), n; }
    var active, kept := Recover(newest, policy, found, None, nowMs);
    n := kept;
    if active == null { return null, Some(RecoveryFailed), n; }
    FollowIsChained(compacted, gs, older, newest, 0);
    assert gs[0..] == gs;
    AppendsDerive(policy, newest, active.batches);
    log := new Log.Over(policy, retention, gs, active);
    return log, None, n;
  }

  /** The files of a log, as a clean shutdown leaves them. */
  function FilesOf(gs: seq<SealedSegment>): (fs: seq<SegmentFile>)
    ensures |fs| == |gs| && forall i :: 0 <= i < |gs| ==> fs[i] == SegmentFile(gs[i].base, gs[i].batches, gs[i].index)
  {
    seq(|gs|, i requires 0 <= i < |gs| => SegmentFile(gs[i].base, gs[i].batches, gs[i].index))
  }

  /** Two logs of the same files hold the same batches. */
  lemma {:induction false} SameFilesSameBatches(a: seq<SealedSegment>, b: seq<SealedSegment>)
    requires OpenedFrom(b, FilesOf(a))
    ensures Flatten(a) == Flatten(b)
  {
    if a != [] {
      assert b[0].batches == a[0].batches;
      forall i | 0 <= i < |a| - 1 ensures b[1..][i].batches == a[1..][i].batches {
        assert b[i + 1].batches == a[i + 1].batches;
      }
      SameFilesSameBatches(a[1..], b[1..]);
    }
  }

  lemma {:induction false} FileEnds(gs: seq<SealedSegment>, lo: int, end: int, i: nat)
    requires Chained(gs, lo, end) && i < |gs|
    ensures var fs := FilesOf(gs);
            && NextOffset(fs[i].base, fs[i].batches) == gs[i].next
            && NextBase(fs, end, i) == EndAfter(gs, end, i + 1) && gs[i].next <= EndAfter(gs, end, i + 1)
  {
    ChainedSpan(gs, lo, end);
  }

  lemma {:induction false} OwnFilesListed(gs: seq<SealedSegment>, lo: int, end: int)
    requires Chained(gs, lo, end)
    ensures Listed(FilesOf(gs), end)
  {
    ChainedSpan(gs, lo, end);
  }

  /**
   Any log's own files pass the check of a compacted log. They pass the stricter one exactly when the
   cleaner has left no gap between segments, so an uncompacted log always reopens.
   */
  lemma {:induction false} OwnFilesFollow(policy: Policy, gs: seq<SealedSegment>, lo: int, end: int)
    requires Chained(gs, lo, end)
    ensures AllFollow(true, FilesOf(gs), end)
    ensures AllFollow(false, FilesOf(gs), end) <==> NoGaps(gs, end)
    ensures Gapless(policy, gs, end) ==> AllFollow(false, FilesOf(gs), end)
  {
    forall i | 0 <= i < |gs|
      ensures var fs := FilesOf(gs);
              && Follows(true, NextOffset(fs[i].base, fs[i].batches), NextBase(fs, end, i))
              && (Follows(false, NextOffset(fs[i].base, fs[i].batches), NextBase(fs, end, i)) <==> Joined(gs, end, i))
    {
      FileEnds(gs, lo, end, i);
    }
    if Gapless(policy, gs, end) { WholeHasNoGaps(policy, gs, end); }
  }

  /** Nothing of an undamaged newest segment is lost on the way. */
  lemma {:induction false} IntactIsKept(base: int, bs: seq<Batch>, n: nat)
    requires Contiguous(base, bs) && IsRecovered(base, Intact(bs), None, n)
    ensures n == |bs|
  {
    IntactBatches(bs);
    assert bs[..|bs|] == bs;
    assert Recoverable(base, Intact(bs), None, |bs|);
  }

  /** A clean restart, of a compacted log or any other, finds every batch it left. */
  lemma {:induction false} RestartKeepsBatches(
    gs: seq<SealedSegment>, base: int, tail: seq<Batch>, gs': seq<SealedSegment>, tail': seq<Batch>, n: nat)
    requires Contiguous(base, tail) && OpenedFrom(gs', FilesOf(gs))
    requires IsRecovered(base, Intact(tail), None, n) && tail' == BatchesOf(Intact(tail))[..n]
    ensures Flatten(gs') + tail' == Flatten(gs) + tail
  {
    SameFilesSameBatches(gs, gs');
    IntactIsKept(base, tail, n);
    IntactBatches(tail);
    assert tail[..n] == tail;
  }
}
