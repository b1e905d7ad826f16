# DariyaKyu: a verified model of the log, the cleaner, the group protocol and the bytes under them

DariyaKyu is a single-node, Kafka-like broker. This project models its hard parts in Dafny and proves
what they promise.

* **The partition log.** Sealed segments and one active segment over batches, each segment with a sparse
  index that only hints. `Segments`, `ActiveSegments`, `OffsetIndexes`, `Sealed`, `FlatLogs`, `Logs` and
  `LogOpening` hold the segment read, append, recovery, the log class and reopening; an uncompacted log is
  proved to refine one flat sequence of batches. `AppendProtocol` is the log's locking, cut at its lock points.
* **The cleaner.** `Records` gives the meaning of a log: its last-write-wins key view. `Compaction` is the
  cleaner as a state machine beside appends, rolls, retention, aborts and restarts; `CompactionSteps`,
  `CompactionRewrite` and `CompactionRuns` prove it invisible over every run. `Cleaning`, `Cleaner` and
  `CleanerPass` are the code's own loops over the log class, proved to be runs of that machine and to
  leave what `PassResults` says a pass leaves. `ManagedLogs` is a compacted log as the broker runs it, every
  call on the classes a step of the machine. `CompactionLimits` and `CompactionGaps` say where compaction's
  promises stop.
* **The group protocol.** `Groups` is each request as a function of one group and of the coordinator,
  `GroupCoordinators` the class that updates them in place, `MemberIds` and `GroupSettling` what holds over
  runs, `Assignor`, `RoundRobin`, `AssignmentCodec` and `GroupConsumers` the client's half, and `GroupRuns`
  all of it composed. `GroupLimits` has the runs in which it falls short.
* **Committed offsets.** `CommitRecords`, `CommitHistory`, `Replay`, `OffsetStores` and `CommitHandler`: the
  map in memory against the topic it is replayed from, and the fencing in front of it.
* **Bytes.** `Varint` (Protocol Buffers encoding guide, "Base 128 Varints" and "Signed Integers"), `Crc32c`
  (section 12.1 and appendix B.4 of RFC 3720), `Buffer`, `Wire`, and the v2 record batch (Apache Kafka
  documentation, sections 5.3.1 and 5.3.2) in `RecordFields`, `RecordBatch`, `BatchFiles`, `BatchBuilder`,
  `Framing`, `SegmentRewrite` and `BatchViews`.

A batch is modelled twice. The log and the cleaner work on a batch's offsets, size, largest timestamp and
records; the byte layer works on encoded batches. `BatchViews.RewriteIsClean` joins the two: what the log sees
in a rewritten file of bytes is the clean batches of what it saw in the old one. Time is a parameter of every
call that reads the clock.

## Where the code and its documentation part

* A read of an offset the cleaner removed returns the next surviving batch, says `DESIGN.md`. It does so
  exactly while the segment it is routed to still holds something at or past the offset; in a gap between two
  segments it is an empty success (`FlatLogs.EmptyExactlyInHole`). `CompactionGaps.GapReadsEmpty` is a run of
  the log and its cleaner that gets there.
* Replay stops at such a gap, so it rebuilds the whole map exactly when nothing is kept past one
  (`Replay.ReachesAllExactly`). In `CompactionGaps.GapLosesCommit` it leaves out a position the log still holds.
* A tombstone's window is measured from its own timestamp, not from the pass that could first have dropped
  it (`CompactionLimits.TombstoneWindow`).
* `src/storage/log.hpp` says a compacted topic keeps each key's newest record for ever. Retention does not
  look at the cleanup policy, so a key is kept exactly while something newer mentions it
  (`CompactionLimits.RetentionKeepsKeyExactly`, `CompactionLimits.NewestCanGo`).
* The largest timestamp derived on opening a sealed segment may be too low
  (`Segments.DerivedTimestampIsRight`), and then age retention takes the segment too early
  (`Sealed.ExpiresEarlyExactly`, `Sealed.ExpiresEarly`).
* A leader asks about the partitions of its own topics only, so every subscribed partition is owned exactly
  when every hosted topic anybody wants is the leader's too (`GroupRuns.AllSharedExactly`);
  `GroupLimits.FollowersTopicIsLost` is a run in which a follower's topic goes to nobody.
* A leader's sync never clears the assignment of a member it leaves out (`GroupRuns.OmittedKeepStale`), so two
  members can come to own one partition (`GroupLimits.OmissionCollides`).
* The comment in `maybeCompleteJoinLocked` says the leader's list wins when members share no strategy; the
  code leaves the name empty (`Groups.CommonIsFirst`).
* A truncation between an appender's load of the log end and its append makes the contiguity check refuse
  that append (`AppendProtocol.RaceIsRefused`). Nothing in the broker calls `truncateTo` yet.

## Model

| member | source | states |
|---|---|---|
| CompactionRuns.CleaningIsInvisible | src/storage/log_cleaner.cpp:195-281 | after any run of appends, rolls, retention, aborts, restarts and cleaner steps, part-way through a pass and after crashes that lose the tail of the active segment included, every key has the value it would have had with no cleaner, and below the dirty mark no key has two records |
| CompactionRuns.RunTwin | src/storage/log_cleaner.cpp:195-281 | every such run keeps the sealed segments, by themselves, a faithful remainder of the uncleaned twin's: each key's newest sealed record is there, or it is a tombstone gone together with its key |
| CompactionRuns.UncleanedIsHistory | src/storage/log_cleaner.cpp:195-281 | without retention or a lossy restart that twin is simply everything ever written |
| CompactionRuns.TwinRestart | src/storage/segment.cpp:488-502 | sealing flushes, so a crash takes the same tail from the cleaned log and from its twin, whatever the cleaner had done by then |
| CompactionRuns.MarkNeverFalls | src/storage/log_cleaner.cpp:316-334 | within one process the dirty mark never moves back |
| CompactionRuns.RetireCuts | src/storage/log.cpp:369-429 | retention removes exactly the records below the new log start |
| CompactionRewrite.RewriteIsSafe | src/storage/log_cleaner.cpp:60-74 | every record a rewrite drops, an expired tombstone this pass never mapped included, is outranked by one still in the log or goes with everything older of its key |
| CompactionRewrite.RewriteFilters | src/storage/log_cleaner.cpp:244-278 | whatever a pass does with one file, retention having taken it meanwhile or not, the whole log becomes the filter of itself by the retain rule within that file's offsets |
| CompactionRewrite.RewriteKeepsView | src/storage/log_cleaner.cpp:244-278 | each single swap or removal leaves the key view unchanged |
| CompactionRewrite.RewriteKeeps | src/storage/log_cleaner.cpp:244-278 | each swap keeps the invariant across passes and the key view |
| CompactionRewrite.FinishKeeps | src/storage/log_cleaner.cpp:320-331 | moving the mark at the end of a pass keeps at most one record per key below it |
| CompactionSteps.PutAllGrows | src/storage/key_offset_map.cpp:32-47 | the map never forgets or lowers an entry and never outgrows its budget |
| CompactionSteps.PutAllTakes | src/storage/key_offset_map.cpp:32-47 | a scan nothing refused leaves every keyed record's key mapped, at that record's offset or above |
| CompactionSteps.PutAllWitnessed | src/storage/key_offset_map.cpp:32-47 | every new or raised entry is the offset of a record of that key |
| CompactionSteps.MapKeeps | src/storage/log_cleaner.cpp:203-239 | mapping one more dirty segment, or being refused part-way through it, keeps the invariant |
| CompactionSteps.AppendKeeps | src/storage/log.cpp:166-222 | an append during a pass keeps the invariant and extends the records by exactly its own |
| CompactionSteps.RetireKeeps | src/storage/log.cpp:369-429 | retention during a pass keeps the invariant and removes a prefix of the records |
| CompactionLimits.RetentionKeepsKeyExactly | src/storage/log.cpp:369-429 | a key keeps its value through retention if and only if something newer mentions it or it had none |
| CompactionLimits.NewestCanGo | src/storage/log.cpp:369-429 | a run of one write, one roll and one retention sweep that loses a key's newest record |
| CompactionLimits.TombstoneWindow | src/storage/log_cleaner.cpp:66-73 | a tombstone outlives a pass by the whole window if and only if it is stamped no earlier than that pass |
| CompactionLimits.CollisionLosesKey | src/storage/key_offset_map.cpp:28-47 | if two keys share a digest there is a run whose pass loses one of them: injectivity on the keys present is needed |
| Records.SafeFilterKeepsView | src/storage/log_cleaner.cpp:60-74 | dropping only records that are outranked, or are tombstones that go with everything older of their key, leaves the key view unchanged |
| Cleaner.KeyOffsetMap.Put | src/storage/key_offset_map.cpp:32-47 | the class's update is the machine's: a known key rises even when full, a new one is refused once the budget is spent |
| Cleaner.MapFile | src/storage/log_cleaner.cpp:206-223 | the scan of one file maps its keyed records in order up to the first the budget refuses, and keeps what it had mapped |
| Cleaner.WouldDropAnything | src/storage/log_cleaner.cpp:177-191 | true exactly when the filter would be shorter than the file |
| Cleaner.RewriteSegment | src/storage/log_cleaner.cpp:76-155 | the batches written are exactly the clean batches, and the index beside them is the one a live segment appending those batches would have grown; it fails exactly when such an append would |
| Cleaning.CleanIsFilter | src/storage/log_cleaner.cpp:95-145 | the records of a rewritten file are the order-preserving filter of the file's, and no empty batch is written |
| Cleaning.CleanIsOrdered | src/storage/log_cleaner.cpp:95-145 | rewritten batches stay in order, well formed, and inside the offsets the segment had |
| Cleaning.UnmarkedIsInv | src/storage/log_cleaner.cpp:288-292 | any well-formed log with the mark at zero satisfies the machine's invariant |
| CleanerPass.CleanFile | src/storage/log_cleaner.cpp:257-278 | one turn of phase two over the log class: untouched exactly when nothing would be dropped, thrown exactly when a rewritten batch has no place in its index, else rewritten or removed; the segments are what the machine's step gives |
| CleanerPass.MapDirty | src/storage/log_cleaner.cpp:203-239 | phase one's map, and where it got to, and that it is a run of the machine's mapping steps, whether the map fills or not |
| PassResults.MapMeans | src/storage/log_cleaner.cpp:203-239 | the mark moves to the end of the last dirty segment mapped whole, and of the last segment when the dirty keys fit the budget; the map has every key below it at its newest and nothing made up |
| PassResults.RefusedExactly | src/storage/key_offset_map.cpp:32-47 | the budget refuses a pass if and only if the dirty segments hold more keys than it has room for |
| PassResults.RewrittenBelow | src/storage/log_cleaner.cpp:244-278 | the segments of a finished pass hold exactly what the rule, applied below the mark, leaves of the old records |
| CleanerPass.CleanLog | src/storage/log_cleaner.cpp:195-281 | a whole pass over the log class: it ends if and only if no file it has to rewrite is stuck, and then with the mark phase one mapped through and every segment below it dealt with; otherwise only the files before the stuck one are; either way it is a run of the machine's cleaner steps |
| CleanerPass.EndedPassMeans | src/storage/log_cleaner.cpp:195-281 | what an ended pass leaves: every sealed record below the mark is one the rule retains by a map that knows each mapped key's newest offset, nothing retained is lost, nothing past the mark is touched |
| CleanerPass.PassIsInvisible | src/storage/log_cleaner.cpp:195-281 | any run of cleaner steps from a good state keeps every key's value, never lowers the mark, and leaves one record per key below it |
| CleanerPass.LogCleaner.CleanOnce | src/storage/log_cleaner.cpp:316-334 | the same, for the class that owns the mark and the log it cleans; an ended pass moves the mark, a thrown one leaves it, and neither changes a key's value |
| ManagedLogs.AppendInStep | src/storage/log.cpp:166-222 | a well-formed append on the log class is the machine's roll, if one was due, and its append of the batch's records at the log end |
| ManagedLogs.MaintainInStep | src/storage/log_manager.cpp:246-268 | the maintenance thread's turn on the log class is the machine's roll, if due, and its retirement of as many segments as retention takes |
| ManagedLogs.CleanInStep | src/storage/log_cleaner.cpp:316-334 | a pass on the cleaner class is a run of the machine's cleaner steps and writes nothing |
| ManagedLogs.Reopen | src/storage/log.cpp:85-164 | a log opened again from its own files, the newest cut short anywhere, always opens, with its sealed files as they were and exactly the batches that survived |
| ManagedLogs.RestartIsStep | src/storage/log.cpp:85-164 | that is the machine's restart at the offset the survivors end |
| ManagedLogs.ManagedLog.CleaningIsUnseen | src/storage/log_cleaner.cpp:195-281 | whatever calls have been made on the log, its cleaner and its restarts, the view of the log is that of one no cleaner ever touched |
| CompactionGaps.GapReadsEmpty | src/storage/log.cpp:253-262 | a run of appends and one pass after which an offset between the log start and the log end reads as an empty success |
| CompactionGaps.GapLosesCommit | src/group/offset_store.cpp:96-99 | and one after which the log holds a position's newest commit and replay ends without that position |
| SegmentRewrite.V2IsLegal | src/storage/record_batch.cpp:88-108 | a batch's length is read from its own first bytes, whatever follows |
| SegmentRewrite.NewBatchReadsBack | src/storage/log_cleaner.cpp:98-134 | survivors put through the builder and stamped read back with the same absolute offsets, timestamps, keys, values and headers, in a batch from the first offset kept to the last |
| SegmentRewrite.RewriteReadsAsFilter | src/storage/log_cleaner.cpp:76-155 | end to end on bytes: scanning and decoding the rewritten file gives the records of the file read, less exactly those the rule rejects |
| BatchViews.RewriteIsClean | src/storage/log_cleaner.cpp:76-155 | decoding a rewritten file of bytes into the log's batches gives exactly the clean batches of the old file's: same offsets, sizes, largest timestamps and records |
| Framing.ScanFile | src/storage/log_cleaner.cpp:15-58 | the position loop computes the scan of the file's bytes |
| Framing.ScanParts | src/storage/record_batch.cpp:88-108 | batch lengths walk any concatenation of whole batches back to its parts, and go on into what follows |
| Framing.TornTailIsIgnored | src/storage/log_cleaner.cpp:31-42 | a batch cut short anywhere scans to nothing |
| Segments.Read | src/storage/segment.cpp:141-196 | for every index whose entries name real batches, holes or dropped entries notwithstanding, an indexed read answers what a scan from byte zero would; it fails only below the base |
| Segments.ScanForward | src/storage/segment.cpp:163-195 | the forward walk finds the first batch whose last offset reaches the target, and an empty range if none does |
| Segments.RangeHoldsBatch | src/storage/segment.cpp:176-188 | a range is never less than its first batch, never past the file, and over the limit only to hold that one batch |
| Segments.DeriveEndState | src/storage/segment.cpp:111-139 | opening at the last index entry finds the next offset a full scan would, and the largest timestamp of the tail from there |
| Segments.DerivedTimestampIsRight | src/storage/segment.cpp:124-138 | that timestamp is right if and only if no batch before the one the last index entry names is newer than all from there on |
| Sealed.ExpiresEarlyExactly | src/storage/log.cpp:386-404 | a segment goes by age before its newest record has aged out if and only if everything from its last index entry on has and some batch before that has not |
| Sealed.ExpiresEarly | src/storage/log.cpp:386-404 | such a segment, as two appends and a seal leave it |
| Segments.LookupIsGreatest | src/storage/offset_index.cpp:193-224 | a lookup is the greatest entry at or below the target, or the segment's start |
| ActiveSegments.ActiveSegment.Append | src/storage/segment.cpp:428-482 | which check refuses a batch and when, and that an accepted one leaves the segment exactly as appending all its batches afresh would |
| ActiveSegments.ActiveSegment.ShouldRoll | src/storage/segment.cpp:513-540 | an empty segment never rolls; size, a full index or age since the first append roll any other |
| ActiveSegments.AppendsDerive | src/storage/segment.cpp:398-482 | the index grown by appends is valid and within its capacity, and next offset and largest timestamp are those of a full scan |
| ActiveSegments.AppendsSucceed | src/storage/segment.cpp:398-426 | appending batches in offset order, holes or none, never fails while the segment stays within what 32 bits describe |
| ActiveSegments.Recover | src/storage/segment.cpp:322-396 | recovery keeps the longest prefix that parses, checksums, is contiguous and ends below the ceiling, and rebuilds the segment that appending those batches afresh would make; it fails if and only if a batch of that prefix has no place in the index |
| ActiveSegments.RecoverTwice | src/storage/segment.cpp:322-396 | recovering what recovery left keeps all of it |
| ActiveSegments.RecoveredIsUnique | src/storage/segment.cpp:322-396 | that longest prefix is the only one |
| FlatLogs.RecoveredIsBelow | src/storage/segment.cpp:351-371 | on an undamaged file recovery with a ceiling keeps everything below it if and only if those batches are contiguous, so not on a compacted segment |
| OffsetIndexes.CountEntries | src/storage/offset_index.cpp:44-67 | bisection finds how many entries any file beginning with them holds |
| OffsetIndexes.ZeroPaddedReopens | src/storage/offset_index.cpp:44-67 | an index left preallocated by a crash reopens with exactly its entries |
| OffsetIndexes.PartialReopens | src/storage/offset_index.cpp:44-67 | so does one trimmed, or cut part-way through another entry |
| OffsetIndexes.OffsetIndex.Append | src/storage/offset_index.cpp:135-191 | an entry is accepted, dropped when full, or refused, and the mapped bytes follow |
| OffsetIndexes.OffsetIndex.Find | src/storage/offset_index.cpp:193-224 | bisection over the mapped bytes answers the greatest entry at or below the target |
| Sealed.RetentionTakesPrefix | src/storage/log.cpp:369-429 | what retention takes is a prefix of whole sealed segments, each expired with everything older or gone while over the byte limit; what is left is within the limits |
| Logs.Log.MaybeRoll | src/storage/log.cpp:265-299 | a roll happens exactly when due, seals the active segment as it stood and starts the next where it ended, and no reader can tell: same flat log, start, end and watermark |
| Logs.Log.Append | src/storage/log.cpp:166-222 | after the roll, if one is due, the batch is taken if and only if it has a place in the active segment's index, always while 32 bits describe that segment; it lands at the log end with everything in it moved by one distance, and flat log, end and watermark grow by exactly it |
| Logs.Log.Read | src/storage/log.cpp:224-263 | below the start, past the end, caught up, or the answer of the one segment the offset is routed to; on an uncompacted log that range starts with all of the flat batch holding the offset |
| Logs.Log.TruncateTo | src/storage/log.cpp:301-357 | what is left is everything below the offset up to the first hole in the segment the cut falls in, so all of it exactly when there is none, as in an uncompacted log; it restarts at the offset if nothing is left, never leads with its watermark, and fails only on a segment whose index has no place for a batch |
| Logs.Log.ApplyRetention | src/storage/log.cpp:369-429 | the flat log loses exactly the batches of the segments the policy takes, which go to the graveyard, oldest first |
| Logs.Log.ReplaceSegment | src/storage/log.cpp:450-478 | exactly the segment with that base is swapped and buried, or nothing changes and the caller is told |
| Logs.Log.RemoveSegment | src/storage/log.cpp:480-489 | exactly the segment with that base goes to the graveyard, or nothing changes and the caller is told |
| Logs.Log.SweepGraveyard | src/storage/log.cpp:491-501 | exactly the segments buried long enough are freed, and the rest stay in order |
| Logs.Seal | src/storage/segment.cpp:488-511 | sealing keeps base, batches, index and next offset; the timestamp is never too high |
| FlatLogs.WholeIsContiguous | src/storage/log.cpp:265-299 | an uncompacted log's flat batches are contiguous from the log start to the log end |
| FlatLogs.EmptyExactlyInHole | src/storage/segment.cpp:163-195 | a routed read is empty if and only if everything its segment still holds lies below the offset; otherwise it starts at the oldest surviving batch that reaches it |
| FlatLogs.Cut | src/storage/log.cpp:301-345 | which segment becomes active again, and what of everything below the offset is left, compacted log or not |
| LogOpening.Open | src/storage/log.cpp:85-164 | a directory is refused exactly when its segments follow each other in a way the cleanup policy does not explain, and opening fails exactly when a recoverable batch has no place in its index; otherwise the log holds the sealed files as they are and the recoverable prefix of the newest |
| LogOpening.OwnFilesFollow | src/storage/log.cpp:145-158 | any log reopens as a compacted one; it passes the stricter check if and only if no gap was left between segments |
| LogOpening.RestartKeepsBatches | src/storage/log.cpp:85-164 | a clean restart finds every batch the log had |
| AppendProtocol.AppendsNeverCollide | src/storage/log.cpp:166-222 | under every interleaving of appenders, maintenance rolls, retention and swaps the contiguity check never fires, ranges handed out are consecutive, and watermark <= log end <= the active segment's next offset |
| AppendProtocol.ConsecutiveAreDisjoint | src/storage/log.cpp:193-221 | ranges handed out never overlap |
| AppendProtocol.StepKeeps | src/storage/log.cpp:265-299 | every step of every thread keeps that invariant, a truncation racing an append excepted |
| AppendProtocol.RaceIsRefused | src/storage/log.cpp:301-357 | a truncation between an appender's load and its append makes that append be refused |
| AppendProtocol.RaceIsReachable | src/storage/log.cpp:301-357 | such a run exists |
| Groups.CompleteKeeps | src/group/group_coordinator.cpp:40-77 | completing a join leaves a group whose state says who is there, and raises the generation by one exactly when nobody is missing |
| Groups.JoinKeeps | src/group/group_coordinator.cpp:95-181 | after any join: empty means no members, preparing means someone has not rejoined, settled means all have and the leader is the least id |
| Groups.SyncKeeps | src/group/group_coordinator.cpp:183-237 | the same after any sync |
| Groups.LeaveKeeps | src/group/group_coordinator.cpp:261-279 | the same after a member leaves |
| Groups.ExpireKeeps | src/group/group_coordinator.cpp:281-313 | the same after members expire |
| Groups.CommonIsFirst | src/group/group_coordinator.cpp:58-74 | the strategy chosen is the leader's first that everyone supports, and empty when there is none |
| GroupCoordinators.BeginRebalance | src/group/group_coordinator.cpp:30-38 | the loop leaves every member to rejoin and nothing else changed |
| GroupCoordinators.MaybeComplete | src/group/group_coordinator.cpp:40-77 | the loops decide completion, leader and strategy as the protocol's function does |
| GroupCoordinators.GroupCoordinator.Join | src/group/group_coordinator.cpp:95-181 | the class's new state and answer to a join are the protocol's, for every request |
| GroupCoordinators.GroupCoordinator.Sync | src/group/group_coordinator.cpp:183-237 | likewise for a sync |
| GroupCoordinators.GroupCoordinator.Heartbeat | src/group/group_coordinator.cpp:239-259 | likewise for a heartbeat |
| GroupCoordinators.GroupCoordinator.Leave | src/group/group_coordinator.cpp:261-279 | likewise for a departure, the emptied group erased |
| GroupCoordinators.GroupCoordinator.Expire | src/group/group_coordinator.cpp:281-313 | the sweep expires each group as its function says, whatever order they are visited in |
| MemberIds.MemberIdsDiffer | src/group/group_coordinator.cpp:107-112 | whatever the client ids, different counters give different member ids |
| MemberIds.RunKeeps | src/group/group_coordinator.cpp:95-313 | in every reachable coordinator each group's state describes its members, every id was issued, and no id is in two groups |
| MemberIds.RemovedIsFenced | src/group/group_coordinator.cpp:113-118 | an id that was a member at any point of a run and is not one now is refused by every join, sync, heartbeat and leave, in every group and generation, its own group erased and begun again or not |
| MemberIds.RemovalIsDeath | src/group/group_coordinator.cpp:261-313 | whatever call removes an id from its group leaves it in no group |
| GroupSettling.RejoinsSettle | src/group/group_coordinator.cpp:40-77 | pending members rejoining once each in any order: the group waits at its generation until the last, which brings exactly the next one |
| GroupSettling.RetriesChangeNothing | src/group/group_coordinator.cpp:120-156 | after that any number of unchanged re-joins by anyone leaves everything but heartbeats alone |
| GroupSettling.RetryIsAnswered | src/group/group_coordinator.cpp:143-156 | such a re-join is told the outcome, the member list going to the leader only |
| GroupSettling.ChangeRebalances | src/group/group_coordinator.cpp:143-170 | a request for something different does start a rebalance everyone else must rejoin |
| GroupRuns.GroupMoves | src/group/group_coordinator.cpp:30-313 | under any call a group stays as it is, waits, completes one generation up, empties, or is synced by its leader: membership and subscriptions are frozen from completion to the next rebalance |
| GroupRuns.StableGroupsShareOut | src/group/group_coordinator.cpp:203-236 | in every reachable stable group whose leaders send their assignor's output no partition is in two members' assignments, none goes to a member that did not ask or is not hosted, and a hosted partition somebody subscribes to is in one if and only if the leader subscribes to its topic |
| GroupRuns.AllSharedExactly | src/cli/group_consumer.cpp:42-58 | every subscribed hosted partition is owned if and only if every hosted topic a member subscribes to is one of the leader's |
| GroupLimits.FollowersTopicIsLost | src/cli/group_consumer.cpp:42-58 | an honest run of two members that ends stable with a subscribed, hosted partition nobody owns |
| GroupRuns.StableIsReachable | src/group/group_coordinator.cpp:95-236 | stable groups are reachable from nothing |
| GroupRuns.OmittedKeepStale | src/group/group_coordinator.cpp:217-227 | after a leader's sync members hold exactly what it sent if and only if those it left out held nothing before |
| GroupLimits.OmissionCollides | src/group/group_coordinator.cpp:217-227 | a run in which the leader leaves a member out and two members end up owning one partition |
| Assignor.AssignRange | src/cli/assignor.cpp:66-96 | the nested loops give each member its share of every topic in order |
| Assignor.RangeGivesBlocks | src/cli/assignor.cpp:78-92 | a member holds a partition if and only if it lies in that member's block of the topic, by its place among the interested |
| Assignor.BlocksAreEven | src/cli/assignor.cpp:80-90 | the blocks cover a topic exactly and differ in size by at most one |
| Assignor.RangeIsAssignment | src/cli/assignor.cpp:66-96 | range gives each wanted partition to exactly one member that wants it, once, and nothing else to anyone |
| RoundRobin.AssignRoundRobin | src/cli/assignor.cpp:98-130 | round robin does the same, and when all want everything no two totals differ by more than one |
| AssignmentCodec.EncodeAssignment | src/cli/assignor.cpp:20-35 | the encoder's bytes are the topics in order, each with its partitions |
| AssignmentCodec.DecodeAssignment | src/cli/assignor.cpp:37-64 | the decoder accepts no bytes, or one version, plausible counts and no trailing bytes |
| AssignmentCodec.AssignmentRoundTrip | src/cli/assignor.cpp:20-64 | decoding an encoded assignment gives its stable grouping by topic, with the same members |
| GroupConsumers.GroupConsumer.SyncAsLeader | src/cli/group_consumer.cpp:40-78 | what the client sends as leader is an assignment of the list it was told over its own topics' counts, encoded so that each member decodes its own: the honesty the runs assume |
| GroupConsumers.GroupConsumer.Join | src/cli/group_consumer.cpp:84-160 | a join that returns holds what the coordinator has stored for it in the group's present generation; alone in its group it always returns, with every hosted partition of its topics and nothing else |
| CommitRecords.KeyRoundTrip | src/group/commit_record.cpp:20-46 | a commit key decodes to itself |
| CommitRecords.KeysDiffer | src/group/commit_record.cpp:20-27 | different positions encode to different keys |
| CommitRecords.ValueRoundTrip | src/group/commit_record.cpp:48-81 | a commit value decodes to itself, and is refused when its offset is negative |
| CommitRecords.WriteKey | src/group/commit_record.cpp:20-27 | the writer's bytes are the key's encoding, refused exactly for a name too long for its length field |
| CommitHistory.MirrorIsUnique | src/group/offset_store.cpp:90-164 | a topic's key views determine the map of positions |
| CommitHistory.MirrorsOneMore | src/group/offset_store.cpp:153-164 | folding one more partition's records makes the map right for that partition's groups and disturbs no other's |
| Replay.ReplayRange | src/group/offset_store.cpp:107-143 | the batches wholly inside a range are applied in order, a cut one is left for the next read, and the offset moves past the last applied |
| Replay.FoldsWholeBatches | src/group/offset_store.cpp:107-143 | what a range's replay makes of the map is the fold of exactly the records of the batches wholly inside it |
| Replay.ReplayPartition | src/group/offset_store.cpp:90-151 | replay ends, and leaves the fold of every record up to the first gap between segments, or fails on bytes that do not decode |
| Replay.ReachesAllExactly | src/group/offset_store.cpp:93-99 | replay reaches the whole log if and only if nothing is kept past a gap |
| Replay.GapStopsReplay | src/group/offset_store.cpp:96-99 | past the first gap nothing at all is read |
| OffsetStores.OffsetStore.Commit | src/group/offset_store.cpp:49-63 | a commit lands if and only if its names fit, its partition is hosted and that log takes the batch; then it is in the map and the topic alike, otherwise in neither, and the map stays exactly what the topic says |
| OffsetStores.OffsetStore.Forget | src/group/offset_store.cpp:65-75 | the same for forgetting a position |
| OffsetStores.OffsetStore.Replay | src/group/offset_store.cpp:153-164 | over any partitions, hosted or not, replay ends with the fold of what each one's read loop reaches, or fails on bytes that do not decode; over partitions with no gaps that is exactly the map the topic describes, and a map in step is rebuilt as it was |
| OffsetStores.OpenEmpty | src/group/offset_store.cpp:42-43 | a store over newly created partitions is in step with them |
| CommitHandler.HandleOffsetCommit | src/server/handlers.cpp:382-425 | a stale or unknown member moves no position and is told why for each; otherwise exactly the asks answered as committed are in the store, and with room in the group's partition those are exactly the ones whose names fit |
| RecordBatch.BatchRoundTrip | src/storage/record_batch.cpp:88-178 | whatever follows it, a batch built from strictly increasing deltas says its length, passes its checksum, and decodes to its records, nulls and empties apart |
| RecordBatch.HeaderRoundTrip | src/storage/record_batch.cpp:55-108 | every header field of a built batch parses back, and the covered bytes are where the header says |
| RecordFields.TakePutRecords | src/storage/record_batch.cpp:121-178 | any run of encoded records decodes to itself and leaves what follows |
| BatchBuilder.RecordBatchBuilder.AppendAt | src/storage/record_batch.cpp:212-249 | a record is refused exactly when its delta does not advance; accepted, it is the next record, with its timestamp as a delta from the first |
| BatchBuilder.RecordBatchBuilder.Build | src/storage/record_batch.cpp:251-289 | length and checksum patched afterwards make exactly the batch's encoding; an empty builder builds nothing |
| BatchBuilder.DecodeBody | src/storage/record_batch.cpp:121-178 | the decoding loop takes exactly the counted records off the body, or fails |
| BatchFiles.BaseOffsetOnly | src/storage/record_batch.cpp:184-190 | stamping a base offset changes that one field; length, checksum and decoded records are untouched |
| BatchFiles.LeaderEpochOnly | src/storage/record_batch.cpp:192-198 | so does stamping a leader epoch |
| BatchFiles.StampInPlace | src/storage/record_batch.cpp:184-190 | the in-place loop overwrites those eight bytes and no others, refused without a whole header |
| Crc32c.TableStep | src/common/crc32c.cpp:38-41 | one table step equals eight one-bit steps of the division |
| Crc32c.MakeTable | src/common/crc32c.cpp:18-27 | the table holds what eight one-bit steps make of each index |
| Crc32c.Update | src/common/crc32c.cpp:38-41 | the table-driven loop equals feeding the bytes bit by bit |
| Crc32c.FeedConcat | src/common/crc32c.cpp:33-51 | the checksum is incremental over concatenation |
| Crc32c.DetectsShortBursts | src/common/crc32c.cpp:49-51 | any change confined to four consecutive bytes changes the checksum |
| Varint.ZigzagInterleaves | src/common/varint.cpp:18-32 | zigzag sends v to 2v or -2v-1, within the width, and is undone |
| Varint.UnzigzagInverts | src/common/varint.cpp:26-32 | every unsigned word is the zigzag of a signed one |
| Varint.DecodeAcceptsExactly | src/common/varint.cpp:72-106 | a string is accepted if and only if it begins with a complete number no longer than the type allows and within it, and then that is the value |
| Varint.SignedRoundTrip | src/common/varint.cpp:118-138 | an encoded value decodes to itself within 5 or 10 bytes, whatever follows |
| Varint.Base128Size | src/common/varint.cpp:34-42 | the size predicted is the size written |
| Varint.WriteBase128 | src/common/varint.cpp:44-55 | the loop writes the encoding and nothing past it, failing exactly when the buffer is too short |
| Varint.ReadBase128 | src/common/varint.cpp:72-106 | the shifting loop computes the decoder's answer |
| Buffer.PutAllGetAll | src/common/buffer.cpp:28-54 | a run of big-endian fields reads back as written, whatever follows |
| Wire.BufferWriter.Write | src/common/buffer.cpp:112-141 | a field is appended high byte first, unless the writer is spent |
| Wire.BufferWriter.Patch | src/common/buffer.cpp:162-179 | a patch changes its own bytes only, refused past the end or once spent |
| Wire.BufferReader.Read | src/common/buffer.cpp:23-54 | a field is read and passed over, or the buffer is too short and nothing moves |
| Wire.TakePutString | src/protocol/wire.cpp:18-40 | a string within its length field reads back as written |

## Left out

- File descriptors, mapping, fsync, rename durability and directory scanning: a file is a sequence of batches or bytes and a swap is one step.
- The C++ memory model: locks are atomic steps under sequential consistency, and the order of publication is the order of the steps.
- `pickDirtiest` and `dirtyRatio`: floating-point scoring of which partition to clean next; a pass over any partition at any time is covered.
- FNV mixing in `src/storage/key_offset_map.cpp`: the digest is any function, and the cleaner's results assume it tells the keys present apart.
- Integer widths of offsets, generations and byte counters near their limits; the codecs model theirs.
- Produced batches are assumed well formed: last offset not before the base, records in order inside the batch, at least a header long. The broker checks the checksum only.
- Empty sealed segments: none arises, since an empty segment never rolls and a cleaner removes what it empties.
- Cleaner.RewriteSegment: fails where a position passes 32 bits, where src/storage/log_cleaner.cpp:143 would wrap it.
- Logs.Log.TruncateTo: a recovery that throws part-way leaves the C++ log with no active segment; here the log is left as it was.
- AppendProtocol.AppendsNeverCollide: setHighWatermark, the explicit setter, is not among the steps, and a truncation keeps the log start.
- GroupRuns.StableGroupsShareOut: leaders are assumed to send their assignor's output, and the hosted topics stay the same over the run.
- GroupConsumers.GroupConsumer.Join: network calls go straight to the coordinator, so nothing interleaves inside one join; sleeps are left out.
- OffsetStores.OffsetStore.Commit: append and map update are one step, so concurrent commits of one key are not modelled; nor is the window between the membership check and the commit.
- ManagedLogs.ManagedLog: one call at a time, so a pass is not interleaved with appends there; the machine's runs interleave all of them.
- Cleaner statistics, pass counters and the sweeper and cleaner thread loops.
- The other request and response codecs, sockets, dispatch, start-up, partition metadata, the CLI and dump tools.
- Compression: not implemented in the repository.
