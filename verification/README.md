# Verified core of a replicated NSQ

This project models the parts of the replicated NSQ fork whose correctness is hard to see from
the code, and proves what they are for. Every file is Dafny 4.11; `dafny verify dfyconfig.toml`
checks all of it.

The layers, from the top down:

- **Replication and leadership** of one topic partition. `Metadata` has the list helpers, the
  guard a node applies to metadata updates and the values the lookup coordinator stores.
  `Replication` is the step relation: publishing, slave appends, commits, failures, elections,
  joins, join timeouts, removals, catchup and metadata adoption interleave one step at a time,
  and put requests may arrive late or twice. `ReplicationInvariant` is what every step keeps,
  `ReplicationSteps`, `ReplicationMembership` and `ReplicationWrites` prove it step by step,
  and `ReplicationSafety` draws the guarantees over whole runs. Three facts the coordinator does
  not check are provisos of those guarantees; `ReplicationLimits` shows with concrete runs that
  none of them can be dropped, and `ReplicationProvisos` says exactly when each one matters.
- **The commit log**. `CommitLogLayout` says what files, buffer and start position mean as one
  sequence. `CommitLog` is the manager as a class, `CommitLogClean` the head clean,
  `CommitLogSearch` the two-level search, `Catchup` a replica catching up on a real log object.
- **The disk queue**. `DiskQueueAddress` maps virtual offsets to (file, position) pairs,
  `DiskQueueReader` and `DiskQueueWriter` are the two classes over it, and `DiskQueuePair` is a
  reader that is told what its writer does.
- **Consumer bookkeeping**. `Intervals` is the hash of interval endpoints, `IntervalList` the skip
  list form, `ConfirmWindow` the channel's confirmed offset, `InFlightQueue` the indexed heap and
  `InFlightChannel` the maps and heap of messages in flight.
- **Codec**, **Placement** and **LeaderChoice**: stored messages, where partitions go, and who
  becomes the new leader. `Wrappers` has the option type.

How the protocol is idealised. Nodes stop or work; they do not lose logs. Ids of new entries never
repeat. Coordinator calls to a node take effect before the coordinator's next step or not at all,
and a node adopts the value stored at that moment, not one that was stored earlier. One lookup
coordinator acts at a time. Getting an RPC client always succeeds. A slave checks the epoch of a put
and appends its entry in one step, although the code does the two one after the other. A catchup or
session sync leaves a prefix of the stored leader's log and may stop anywhere: after the common
prefix, or, where the code starts over, anywhere at all. `Catchup.CatchUp` is the loop behind it.
A sync may start while the logs are equal, as the delayed log can ask for one too, and may go on
after its session was given up, while all members are write disabled. It has ended when a session
agrees, and does not go on against a leader that has been replaced meanwhile. A catchup ends at the
latest when its node enters the ISR, although the code goes on with the metadata it was started
with. The election's query of last ids and the store of the new leader are one step;
`ReplicationSafety.SnapshotMissesNothing` allows publishes and metadata updates in between, not a
sync that is still running.

The three provisos (`Replication.Benign`): at least one synced member answers an election, what a
joining node pulled still is the start of the leader's log, and the leader that gets enabled has
taken the metadata of the current write epoch. Synced are the ISR members of the last agreement,
those that pulled the leader's whole log in a session since and a leader elected since, less those
that a sync has cut: it left them without a committed entry, or without part of a log that was the
leader's.

What turned out false of the code, each with the exact condition where one could be given:

- An election is safe if and only if some member that answers holds all that is committed
  (`ReplicationSafety.ElectionExact`). Members that joined in an abandoned session can answer alone
  (`ReplicationLimits.ElectionNeedsSynced`), and so can a member of the last agreement whose log a
  session sync emptied before it was given up (`ReplicationLimits.AgreedNotEnough`). Such a sync
  can cost a synced member a committed entry if and only if there is one and the member's data needs
  a fix or it shares just one entry with the leader (`ReplicationProvisos.SyncCutExact`).
- A join request is taken whatever the node holds. One that comes late can bring in a log that wins
  the next election without a committed entry (`ReplicationLimits.JoinNeedsPrefix`), if and only if
  it lacks one and is not older than some synced member (`ReplicationProvisos.LateJoinExact`).
- Enabling writes ignores whether the leader took the new metadata; a leader with an old write
  epoch then commits without a member (`ReplicationLimits.EnablingNeedsCurrentLeader`), if and only
  if its ISR misses a stored member and all its other members still write with it
  (`ReplicationProvisos.StaleLeaderExact`).
- `CleanOldData` does not notice a segment index before the current start and applies the offset to
  the first live segment (`CommitLogClean.CleanBeforeStart`, `CommitLogClean.CleanBeforeStartLosesAll`). An offset past the
  end of a segment it does not guard moves the start there, and the log is damaged; exactly when is
  `CommitLogClean.CleanSoundExact`.
- The catchup decision loop does not end against an empty leader log whose start count lies inside
  the local log (`Catchup.RoundProgress`, `Catchup.StuckForever`).
- The old way of a full sync never succeeds when the local log starts at segment 0, the leader at
  count 0, and the local start is past the leader's end (`Catchup.CatchUp`, `OutOfReach`).
- A message confirmed twice inside a merged interval makes the endpoint map overlap itself
  (`Intervals.MergeAgain`).
- After the backend refuses a confirmation, the confirmed offset lags behind the longest confirmed
  prefix until a message at the end of that prefix is confirmed (`ConfirmWindow.FrontIsPrefixEnd`,
  `ConfirmWindow.Window.Confirm`).
- Resetting the write end to offset 0 takes the message count of the queue start, not the one it is
  given (`DiskQueueWriter.Writer.ResetWriteEnd`).
- An extension of more than 65506 bytes does not survive the plain codec (`Codec.ExtRoundTrip`), nor
  does an original size that needs more than four bytes survive the delayed one
  (`Codec.DelayedRoundTrip`).
- A log that was truncated to a start inside its segment is found damaged and wiped by the next
  catchup (`Catchup.Prepare`).

Where code and comments disagree the code is followed: the message count in a commit log entry is
that of its first message, although its comment says it includes the batch; the smallest load in a
leader choice is never updated, although the comment promises the least loaded node.

## Model

| member | source | states |
|---|---|---|
| `Metadata.FindSlice` | consistence/common.go:225-232 | the first index, or -1 exactly when the element is absent |
| `Metadata.FilterList` | consistence/common.go:243-254 | the in-place shift leaves, as a prefix of the same array, the list with one occurrence removed per filter element |
| `Metadata.FilterSpec` | consistence/common.go:243-254 | on duplicate-free lists that is set difference, still duplicate free |
| `Metadata.MergeList` | consistence/common.go:234-241 | the loop computes the merge function |
| `Metadata.MergeSpec` | consistence/common.go:234-241 | on duplicate-free lists a union that keeps the left list as a prefix |
| `Metadata.Adopted` | consistence/nsqd_coordinator.go:1905-1971 | a disabled node stays disabled; writes never stay enabled across a write epoch change in the ISR |
| `Metadata.UpdatesMonotone` | consistence/nsqd_coordinator.go:1867-1903 | over any run of updates both epochs never fall, and within one write epoch the leader is fixed and the ISR only shrinks |
| `Metadata.EnabledMemberKeepsWriteEpoch` | consistence/nsqd_coordinator.go:1867-1903 | a member that stays in the ISR with writes enabled keeps write epoch and leader |
| `Metadata.ChangeKeepsWellFormed` | consistence/nsqlookup_coordinator.go:969-1015 | every stored change keeps the leader in a duplicate-free ISR disjoint from the catchup list, with the exact member set, and elections, joins, rollbacks and failure removals lose no node |
| `Metadata.ElectKeeps` | consistence/nsqlookup_coordinator.go:1128-1177 | the same for the value an election stores |
| `Metadata.JoinKeeps` | consistence/nsqlookup_coordinator.go:1497-1523 | the same for a join |
| `Metadata.RollbackKeeps` | consistence/nsqlookup_coordinator.go:1649-1675 | the same for the rollback of a join that timed out |
| `Metadata.RemoveKeeps` | consistence/nsqlookup_coordinator.go:969-1015 | the same for a removal, which keeps all nodes when it leaves them for catchup |
| `Metadata.CatchupKeeps` | consistence/nsqlookup_coordinator.go:1077-1095 | the same for changes of the catchup list |
| `Metadata.ChangePassesGuard` | consistence/nsqlookup_coordinator.go:1128-1177 | the write epoch rises whenever the leader changes or the ISR gains a node, and a write-disabled node holding the previous value accepts the next |
| `ReplicationSteps.DisableKeeps` | consistence/coordinator_rpc.go:450-488 | disabling writes keeps the invariant |
| `ReplicationSteps.FailKeeps` | consistence/nsqd_coordinator_cluster_write.go:490-499 | giving up a publish keeps it |
| `ReplicationSteps.SendKeeps` | consistence/nsqd_coordinator_cluster_write.go:397-430 | sending a put keeps it |
| `ReplicationSteps.RetryKeeps` | consistence/nsqd_coordinator_cluster_write.go:356-389 | retrying with refreshed metadata keeps it |
| `ReplicationSteps.SyncKeeps` | consistence/nsqd_coordinator.go:1275-1556 | a member syncing in a join session, whatever its log, from the common prefix or from nothing, and stopping anywhere, keeps it |
| `ReplicationSteps.CatchupKeeps` | consistence/nsqd_coordinator.go:1314-1667 | a catchup node pulling, likewise, keeps it |
| `ReplicationSteps.EnableKeeps` | consistence/coordinator_rpc.go:400-448 | enabling a member keeps it |
| `ReplicationSteps.EnableLeaderKeeps` | consistence/nsqlookup_coordinator.go:1533-1618 | enabling a leader that holds the current write epoch keeps it |
| `ReplicationSteps.RevokeKeeps` | consistence/nsqlookup_coordinator.go:1232-1297 | opening a session keeps it |
| `ReplicationSteps.ReportKeeps` | consistence/nsqlookup_coordinator.go:1533-1566 | a ready report keeps it |
| `ReplicationSteps.AbandonKeeps` | consistence/nsqlookup_coordinator.go:1620-1647 | giving up a session keeps it |
| `ReplicationMembership.EqualLastIdEqualLog` | consistence/nsqlookup_coordinator.go:1204-1227 | two synced logs with the same last id are equal |
| `ReplicationMembership.MatchingLastIds` | consistence/nsqlookup_coordinator.go:1204-1227 | a member whose last id is the leader's has the leader's log |
| `ReplicationMembership.AgreeKeeps` | consistence/nsqlookup_coordinator.go:1568-1591 | a session that finds all last ids equal keeps the invariant |
| `ReplicationMembership.RemoveKeeps` | consistence/nsqlookup_coordinator.go:969-1015 | a removal keeps it |
| `ReplicationMembership.CatchupListKeeps` | consistence/nsqlookup_coordinator.go:1383-1409 | a change of the catchup list keeps it |
| `ReplicationMembership.RollbackKeeps` | consistence/nsqlookup_coordinator.go:1634-1700 | a join timeout keeps it |
| `ReplicationMembership.JoinKeeps` | consistence/nsqlookup_coordinator.go:1436-1523 | the join of a node that holds a prefix of the leader's log keeps it |
| `ReplicationMembership.NewestIsComplete` | consistence/data_placement_mgr.go:1447-1502 | the newest answering log extends the committed log by at most one entry, as soon as a synced member answers |
| `ReplicationMembership.ElectKeeps` | consistence/nsqlookup_coordinator.go:894-967 | an election a synced member answers keeps the invariant |
| `ReplicationWrites.PublishKeeps` | consistence/nsqd_coordinator_cluster_write.go:305-353 | starting a publish keeps it |
| `ReplicationWrites.AppendAtCommitted` | consistence/nsqd_coordinator_cluster_write.go:801-862 | a slave that appends had exactly the committed log, so it ends one entry ahead |
| `ReplicationWrites.DeliverKeeps` | consistence/nsqd_coordinator_cluster_write.go:801-862 | a put that arrives, late or twice, keeps the invariant |
| `ReplicationWrites.CommitKeeps` | consistence/nsqd_coordinator_cluster_write.go:442-451 | a commit keeps it |
| `ReplicationWrites.RivalDoomed` | consistence/nsqd_coordinator_cluster_write.go:397-451 | when one publish commits, any rival of another leader for the same place can no longer commit |
| `ReplicationWrites.AdoptKeeps` | consistence/nsqd_coordinator.go:1905-1952 | adopting the stored metadata keeps it |
| `ReplicationSafety.StepKeeps` | consistence/nsqlookup_coordinator.go:894-967 | every enabled benign step keeps the invariant |
| `ReplicationSafety.RunKeeps` | consistence/nsqlookup_coordinator.go:894-967 | it holds in every state of every benign run |
| `ReplicationSafety.AckedNeverLost` | consistence/nsqd_coordinator_cluster_write.go:397-451 | an acknowledged entry is in the log of the stored leader and of every synced ISR member in every later state |
| `ReplicationSafety.SyncedExact` | consistence/nsqlookup_coordinator.go:1568-1591 | a helper: who counts as synced after a step, read off the history variable |
| `ReplicationSafety.AckedEntriesDisjoint` | consistence/nsqd_coordinator_cluster_write.go:397-451 | acknowledged entries, of whatever leaders, have different ids and disjoint byte ranges |
| `ReplicationSafety.EnabledLeaderAgreement` | consistence/nsqd_coordinator_cluster_write.go:349-451 | while the leader has writes enabled each ISR log is the leader's, or it and one entry nobody was told about |
| `ReplicationSafety.DisabledLogsFixed` | consistence/coordinator_rpc.go:472-488 | publishes change no log of a write-disabled replica |
| `ReplicationSafety.SnapshotMissesNothing` | consistence/nsqlookup_coordinator.go:929-945 | once the members are disabled, whatever still gets committed was already in each synced member's log |
| `ReplicationSafety.ElectedLeaderComplete` | consistence/nsqlookup_coordinator.go:894-967 | the winner holds everything acknowledged before |
| `ReplicationSafety.ElectionExact` | consistence/data_placement_mgr.go:1447-1502 | a winner holds all that is committed if and only if some answering member does |
| `ReplicationLimits.ElectionNeedsSynced` | consistence/data_placement_mgr.go:1447-1502 | a benign run after which an election no synced member answers loses an acknowledged entry |
| `ReplicationLimits.AgreedNotEnough` | consistence/nsqd_coordinator.go:1443-1513 | a benign run after which a member of the last agreement answers an election alone and loses an acknowledged entry |
| `ReplicationLimits.JoinNeedsPrefix` | consistence/nsqlookup_coordinator.go:1436-1523 | a run with a late join after which an election every member answers loses an acknowledged entry |
| `ReplicationLimits.EnablingNeedsCurrentLeader` | consistence/nsqlookup_coordinator.go:1533-1618 | a run in which a leader with old metadata is enabled and a synced member misses an acknowledged entry |
| `ReplicationProvisos.SyncCutExact` | consistence/nsqd_coordinator.go:1443-1531 | a session sync can cut a synced member if and only if it shares an entry with the leader, and just one or its data needs a fix; it can cost it a committed entry if and only if there is one besides |
| `ReplicationProvisos.AgreedStaySynced` | consistence/nsqd_coordinator.go:1443-1531 | over any step the members of the last agreement stay synced if and only if the step is no such sync of one of them |
| `ReplicationProvisos.LateJoinExact` | consistence/nsqlookup_coordinator.go:1436-1523 | after a join whose session is given up, an election a synced member answers can lose the committed log if and only if the joined node lacks it and is not older than some synced member |
| `ReplicationProvisos.StaleLeaderExact` | consistence/nsqlookup_coordinator.go:1584-1591 | the next publish of the enabled leader can be acknowledged behind a synced member's back if and only if it is a leader with a majority by its own metadata, its ISR misses a stored member and each other member of it has its write epoch, writes enabled and the same log end |
| `ReplicationProvisos.StaleCommitNeedsEpochs` | consistence/nsqd_coordinator_cluster_write.go:801-862 | in whatever run follows, a commit in the old write epoch needs each other member of the old ISR to have been at it |
| `ReplicationProvisos.AlongRun` | consistence/nsqd_coordinator_cluster_write.go:397-451 | during a publish every change is one of a willing member that appended the entry, and answers come only from these |
| `ReplicationProvisos.QuorumSlips` | consistence/nsqd_coordinator_cluster_write.go:397-451 | with such an ISR a whole publish exists that commits the entry |
| `CommitLogLayout.PositionUnique` | consistence/commitlog.go:835-899 | a canonical position is determined by the number of live entries before it, whatever the segmentation |
| `CommitLogLayout.IndexOrdered` | consistence/commitlog.go:835-899 | canonical positions are ordered by that number |
| `CommitLogLayout.RotateLive` | consistence/commitlog.go:1020-1042 | closing a full segment changes nothing |
| `CommitLogLayout.CutLive` | consistence/commitlog.go:763-806 | cutting a segment off and making it current keeps exactly the entries before the position |
| `CommitLogLayout.MoveStartLive` | consistence/commitlog.go:731-755 | moving the start drops exactly the entries before it |
| `CommitLogLayout.SegmentCount` | consistence/commitlog.go:1267-1271 | segment i holds no entry with a count index below i times the rotation size |
| `CommitLogLayout.LastLive` | consistence/commitlog.go:949-993 | where the last live entry is, or that there is none |
| `CommitLog.TopicCommitLog.constructor` | consistence/commitlog.go:281-301 | a new log is empty |
| `CommitLog.TopicCommitLog.Flush` | consistence/commitlog.go:1092-1109 | moves the buffer to the file and changes nothing else |
| `CommitLog.TopicCommitLog.Rotate` | consistence/commitlog.go:1020-1042 | keeps the sequence and empties the current segment |
| `CommitLog.TopicCommitLog.Append` | consistence/commitlog.go:1006-1058 | refused exactly for an id that does not rise or a wrong last id; otherwise the sequence grows by the entry, keeps rising ids and the cached last id |
| `CommitLog.TopicCommitLog.RefreshIds` | consistence/commitlog.go:808-833 | the cached last id becomes that of the last entry, or 0, and the next id never falls |
| `CommitLog.TopicCommitLog.Truncate` | consistence/commitlog.go:763-833 | exact error cases; otherwise exactly the prefix before the position remains, with the cached ids of its last entry |
| `CommitLog.TopicCommitLog.Reset` | consistence/commitlog.go:482-515 | nothing is left and the given start is taken |
| `CommitLog.TopicCommitLog.Wipe` | consistence/commitlog.go:536-617 | the log begins again as a new one |
| `CommitLog.TopicCommitLog.Read` | consistence/commitlog.go:1117-1169 | a read over any number of segments returns exactly the requested slice, ends, and reports the exact error otherwise |
| `CommitLog.ReadSegments` | consistence/commitlog.go:1130-1168 | the loop over segments returns the slice and reports the end exactly when fewer entries are left |
| `CommitLog.ReadFile` | consistence/commitlog.go:165-213 | one file read in terms of the whole log |
| `CommitLog.TopicCommitLog.ToCount` | consistence/commitlog.go:835-864 | exact error cases; otherwise the start count plus the entries before the position |
| `CommitLog.TopicCommitLog.ToOffset` | consistence/commitlog.go:866-899 | exact error cases; otherwise the one canonical position with that count index |
| `CommitLog.Locate` | consistence/commitlog.go:866-899 | the same for its loop over segments |
| `CommitLog.NamesOnce` | consistence/commitlog.go:835-899 | no two canonical positions share a count index, which makes the two conversions inverse |
| `CommitLog.TopicCommitLog.CleanOldData` | consistence/commitlog.go:655-761 | for any position and offset the start and status are those of the cleaning function, exactly the listed files go, and live files stay |
| `CommitLog.TopicCommitLog.Clean` | consistence/commitlog.go:655-761 | at or after the start it succeeds exactly when more than MIN_KEEP_LOG_ITEM entries remain, drops exactly what lies before, and raises the start count by their number |
| `CommitLog.TopicCommitLog.RemoveFiles` | consistence/commitlog.go:684-696 | which segment files a clean removes |
| `CommitLog.TopicCommitLog.SkipSegments` | consistence/commitlog.go:698-730 | the start after stepping over whole segments |
| `CommitLog.TopicCommitLog.LastPosition` | consistence/commitlog.go:949-993 | position and value of the last entry; of an empty log the end-of-log answer exactly when it starts at the front of its segment, and that no entry is found otherwise |
| `CommitLog.TopicCommitLog.CurrentEnd` | consistence/commitlog.go:649-653 | the position after all entries |
| `CommitLogClean.CleanAllowed` | consistence/commitlog.go:655-680 | the guards accept exactly when more than MIN_KEEP_LOG_ITEM entries remain |
| `CommitLogClean.CleanExact` | consistence/commitlog.go:698-755 | the cleaned log is the suffix, and survivors keep their count index |
| `CommitLogClean.CleanBeforeStart` | consistence/commitlog.go:731-737 | for a segment before the start nothing is dropped if and only if the offset equals the start offset |
| `CommitLogClean.CleanBeforeStartLosesAll` | consistence/commitlog.go:731-737 | an input for which everything is dropped |
| `CommitLogClean.CleanSoundExact` | consistence/commitlog.go:731-755 | the log is sound after a clean if and only if the start was not put past the end of its segment or between two entries |
| `CommitLogSearch.Scan` | consistence/commitlog.go:1183-1265 | the reference: the first entry whose range covers the value |
| `CommitLogSearch.ScanTiles` | consistence/commitlog.go:1267-1326 | in a log that tiles the queue a value is found if and only if it is in range |
| `CommitLogSearch.BoundaryKeepsTarget` | consistence/commitlog.go:1267-1271 | the search end boundary never excludes the target segment |
| `CommitLogSearch.CompareRecord` | consistence/commitlog.go:1267-1326 | how any record compares says on which side of it the target lies |
| `CommitLogSearch.FindSegment` | consistence/commitlog.go:1184-1223 | the first loop ends on the target's segment |
| `CommitLogSearch.FindRecord` | consistence/commitlog.go:1227-1264 | the second loop ends on the target |
| `CommitLogSearch.Search` | consistence/commitlog.go:1183-1265 | finds the entry the linear scan finds, at its canonical position; for other values an entry of the log or none |
| `Catchup.Pulled` | consistence/coordinator_rpc.go:1006-1064 | refused exactly outside the leader's log; otherwise a prefix of what follows, not empty while something is left |
| `Catchup.CutToBytes` | consistence/coordinator_rpc.go:1041-1055 | the byte sum cuts the list where the function says |
| `Catchup.RoundProgress` | consistence/nsqd_coordinator.go:1346-1431 | every round of the decision moves back, except in the one case that repeats for ever |
| `Catchup.StuckForever` | consistence/nsqd_coordinator.go:1370-1389 | in that case every later round stays at the same index |
| `Catchup.StepBack` | consistence/nsqd_coordinator.go:1422-1429 | one entry back, across a segment boundary if need be |
| `Catchup.FindMatch` | consistence/nsqd_coordinator.go:1346-1431 | the decision ends, on the last agreeing entry or with none after the first |
| `Catchup.Prepare` | consistence/nsqd_coordinator.go:1314-1556 | exactly a damaged log is wiped; otherwise the local log is part of the leader's afterwards, no agreeing entry after the first was dropped, and the next index is servable unless out of reach |
| `Catchup.Pull` | consistence/nsqd_coordinator.go:1586-1665 | pulling ends with the logs at the same count index, or fails exactly when the start is past the leader's end |
| `Catchup.CatchUp` | consistence/nsqd_coordinator.go:1314-1667 | decide then pull ends with both logs at the same count index and equal wherever both retain an entry, if and only if the local log is not damaged and its start is not out of reach |
| `DiskQueueAddress.VirtualMonotone` | nsqd/diskqueue_reader.go:72-80 | later positions have no smaller offset |
| `DiskQueueAddress.DistanceIsDifference` | nsqd/diskqueue_reader.go:456-476 | the distance is the difference of virtual offsets, exactly for positions in order |
| `DiskQueueAddress.StepBack` | nsqd/diskqueue_reader.go:497-522 | steps back exactly, or fails exactly when the queue start would be crossed |
| `DiskQueueAddress.StepForward` | nsqd/diskqueue_reader.go:523-553 | steps forward exactly and never past the maximum |
| `DiskQueueAddress.StepOffset` | nsqd/diskqueue_reader.go:478-554 | for any file sizes succeeds exactly between queue start and maximum, lands on the offset plus the step, and the distance inverts forward steps |
| `DiskQueueReader.Reader.constructor` | nsqd/diskqueue_reader.go:116-147 | starts with all three positions at the end |
| `DiskQueueReader.Reader.UpdateDepth` | nsqd/diskqueue_reader.go:433-454 | depthSize is end minus confirmed, and when confirmed jumps to the end |
| `DiskQueueReader.Reader.Confirm` | nsqd/diskqueue_reader.go:556-602 | keeps the reader invariant, exact results, exact new confirmed offset |
| `DiskQueueReader.Reader.SkipTo` | nsqd/diskqueue_reader.go:604-717 | keeps the invariant and succeeds exactly for the listed targets |
| `DiskQueueReader.Reader.UpdateEnd` | nsqd/diskqueue_reader.go:1146-1195 | keeps the invariant over files that grow, in the old end's file and beyond, or are rolled back, cuts positions back exactly to the new end, and says when an update is ignored |
| `DiskQueueReader.Reader.ReadOne` | nsqd/diskqueue_reader.go:809-995 | keeps the invariant, moves by exactly one message, and every result exactly, in terms of the room at the place reached over finished files |
| `DiskQueueReader.Reader.ResetLastReadOne` | nsqd/diskqueue_reader.go:323-339 | nothing after the last message of a file; otherwise the reader stays valid if and only if the caller's offset undoes the move and is not below the confirmed one |
| `DiskQueueWriter.EndDenotes` | nsqd/diskqueue_writer.go:628-716 | the write end denotes its offset in the reader's addressing |
| `DiskQueueWriter.Writer.Put` | nsqd/diskqueue_writer.go:628-716 | appends exactly the stored form, rolls exactly at the size limit, and each finished file's meta has its true bounds |
| `DiskQueueWriter.Writer.RollIfFull` | nsqd/diskqueue_writer.go:696-713 | finishing a file saves its bounds and keeps the bytes |
| `DiskQueueWriter.Writer.TruncateFiles` | nsqd/diskqueue_writer.go:370-398 | the current file is cut and all later ones are gone |
| `DiskQueueWriter.Writer.Rollback` | nsqd/diskqueue_writer.go:178-211 | succeeds exactly within the current file, not before the queue start in bytes or messages, and keeps exactly the prefix |
| `DiskQueueWriter.Writer.WalkBack` | nsqd/diskqueue_writer.go:421-438 | the walk over files lands on the exact position |
| `DiskQueueWriter.Writer.ResetWriteEnd` | nsqd/diskqueue_writer.go:400-450 | succeeds exactly between queue start and write end and keeps exactly the prefix |
| `DiskQueueWriter.Writer.ResetWithStart` | nsqd/diskqueue_writer.go:223-241 | no bytes are left and the queue begins at the given offset and count |
| `DiskQueueWriter.PutThenRollback` | nsqd/diskqueue_writer.go:178-211 | put then rollback is the identity if and only if the put did not finish the file |
| `DiskQueuePair.PutAndTell` | nsqd/topic.go:1001-1020 | after any put, also one that finishes the file, the reader is in order over the new files, its positions are where they were and its end is the write end |
| `DiskQueuePair.ResetAndTell` | nsqd/topic.go:790-803 | after a reset of the write end and a forced reload a reader, wherever its own end was, is in order and cut back exactly to the new end, unless it has the same end in a later file |
| `Intervals.MaximalUnique` | nsqd/segment_tree.go:390-401 | the endpoint map is determined by the bytes it covers: it is the set of their maximal runs |
| `Intervals.Merge` | nsqd/segment_tree.go:403-441 | merging a new message keeps the map the set of maximal runs, of one message more, and returns its run with the right count |
| `Intervals.MergeAgain` | nsqd/segment_tree.go:403-441 | a message merged again leaves the map intact if and only if it lies at an edge of its interval |
| `Intervals.IntervalHash.AddOrMerge` | nsqd/segment_tree.go:403-441 | the in-place code computes that merge |
| `Intervals.IntervalHash.DeleteInterval` | nsqd/segment_tree.go:502-508 | the map stays the set of maximal runs, and exactly the bytes of the interval are no longer covered if it is one of them, none if not |
| `Intervals.IntervalHash.DeleteLower` | nsqd/segment_tree.go:510-526 | exactly the intervals and messages that end by the limit go, and the map stays maximal |
| `Intervals.IntervalHash.DropUncovered` | nsqd/channel.go:1957-1969 | exactly the messages of the history that share no byte with an interval go, and the answer says whether there were any |
| `ConfirmWindow.PrefixUnique` | nsqd/channel.go:694-761 | offset and count depend on which messages were confirmed, not on the order |
| `ConfirmWindow.FrontIsPrefixEnd` | nsqd/channel.go:694-761 | the confirmed offset is the end of the longest fully confirmed prefix if and only if no refused run starts at it; the end of that run is the prefix end otherwise |
| `ConfirmWindow.Window.Confirm` | nsqd/channel.go:694-761 | one confirmation keeps the window, asks the backend exactly when the message starts at the prefix end, and moves the offset to the new prefix end exactly when the backend accepts |
| `ConfirmWindow.Window.Scan` | nsqd/channel.go:1951-1973 | a scan forgets what lies below the offset, finds the rest consistent and never asks for a reset |
| `ConfirmWindow.Window.MembershipExact` | nsqd/segment_tree.go:528-548 | the overlap query is true of a message if and only if it was confirmed and ends after what scans have forgotten, so it is exact from the confirmed offset on |
| `ConfirmWindow.ConfirmAll` | nsqd/channel.go:694-761 | any order of disjoint messages, with scans in between, ends at the longest confirmed prefix |
| `IntervalList.Query` | nsqd/segment_tree.go:325-370 | exactly the intervals that meet the range, in order |
| `IntervalList.AddOrMerge` | nsqd/segment_tree.go:229-255 | the met intervals are replaced by their span |
| `IntervalList.SortedAfter` | nsqd/segment_tree.go:229-255 | the list stays sorted and apart |
| `IntervalList.Agreement` | nsqd/segment_tree.go:229-255 | list and hash return the same interval and hold the same intervals on disjoint input |
| `InFlightQueue.InFlightPqueue.Swap` | nsqd/in_flight_pqueue.go:9-13 | exchanges two places and keeps every stored index right |
| `InFlightQueue.InFlightPqueue.Push` | nsqd/in_flight_pqueue.go:15-27 | adds one message, keeps heap order and indexes |
| `InFlightQueue.InFlightPqueue.Pop` | nsqd/in_flight_pqueue.go:29-43 | takes out a minimum, keeps heap order and indexes |
| `InFlightQueue.InFlightPqueue.Remove` | nsqd/in_flight_pqueue.go:45-56 | takes out the message at an index even if its own priority was already changed |
| `InFlightQueue.InFlightPqueue.PeekAndShift` | nsqd/in_flight_pqueue.go:58-70 | a minimum if it is due, nothing exactly when none is |
| `InFlightQueue.InFlightPqueue.Up` | nsqd/in_flight_pqueue.go:72-81 | restores order above one place |
| `InFlightQueue.InFlightPqueue.Down` | nsqd/in_flight_pqueue.go:83-99 | restores order below one place |
| `InFlightQueue.InFlightPqueue.Reschedule` | nsqd/channel.go:613-617 | changing the priority in place, removing and pushing keeps the heap |
| `InFlightChannel.Channel.Push` | nsqd/channel.go:1252-1266 | exact results; map, heap and requeue maps stay in step if and only if the message is neither waiting for room nor counted as deferred |
| `InFlightChannel.Channel.Pop` | nsqd/channel.go:1269-1287 | exact results; the message leaves map and heap together |
| `InFlightChannel.Channel.Finish` | nsqd/channel.go:823-887 | exactly one message leaves the channel and the deferred count stays exact |
| `InFlightChannel.Channel.DoRequeue` | nsqd/channel.go:1231-1249 | the message is in exactly one requeue map, or dropped exactly when the channel is exiting |
| `InFlightChannel.Channel.Requeue` | nsqd/channel.go:1001-1021 | the message moves from flight to a requeue map, loses its owner, and nothing else changes |
| `InFlightChannel.Channel.Defer` | nsqd/channel.go:1022-1071 | the message stays in flight, later and without an owner, and the deferred count rises by exactly one |
| `InFlightChannel.Channel.Touch` | nsqd/channel.go:594-620 | only the deadline changes |
| `InFlightChannel.Channel.Timeouts` | nsqd/channel.go:1823-1905 | all due messages and no others move, none is doubled, none is lost unless the channel is exiting, the deferred count stays exact |
| `InFlightChannel.Channel.RequeueWaiting` | nsqd/channel.go:1916-1941 | waiting messages enter the requeue channel while it has room, none is lost |
| `Codec.GetPut` | nsqd/message.go:146-155 | a big-endian number reads back modulo its width |
| `Codec.CombinedSplits` | nsqd/message.go:147-154 | attempts and format version separate again |
| `Codec.PlainRoundTrip` | nsqd/message.go:142-212 | decoding undoes encoding without extension for either reader, attempts capped |
| `Codec.ExtRoundTrip` | nsqd/message.go:339-397 | with extension decoding undoes encoding if and only if there is none or it has at most 65506 bytes |
| `Codec.ExtRejected` | nsqd/message.go:366-369 | extended bytes are always rejected by a reader without extensions |
| `Codec.DelayedRoundTrip` | nsqd/message.go:399-496 | decoding undoes encoding for delayed messages of every kind if and only if the original size of a channel-delayed one fits four bytes |
| `Codec.DelayedReaders` | nsqd/message.go:455-466 | the reader rules hold for delayed messages too |
| `Placement.ChooseLeaders` | consistence/data_placement_mgr.go:1341-1371 | new leaders are unused and differ, existing ones stay, and it succeeds with no existing partitions and enough nodes |
| `Placement.FillReplicas` | consistence/data_placement_mgr.go:1388-1413 | a replica set of distinct unused nodes behind its leader |
| `Placement.ChooseReplicas` | consistence/data_placement_mgr.go:1372-1418 | new replica sets have exactly replica nodes and share none, and it succeeds with no existing partitions and enough nodes |
| `Placement.Allocate` | consistence/data_placement_mgr.go:1297-1420 | both together, and refusal below replica times partitions |
| `Placement.HasNoConflict` | consistence/data_placement_mgr.go:1253-1294 | accepted if and only if the ISR repeats no node and shares none with other partitions |
| `Placement.RoundRobin` | consistence/data_placement_mgr.go:1728-1747 | refused exactly with too few nodes; otherwise place j of partition i is node i + j |
| `Placement.PartitionDistinct` | consistence/data_placement_mgr.go:1728-1747 | the nodes of a partition differ |
| `Placement.OrderedBalance` | consistence/data_placement_mgr.go:1728-1747 | leader counts differ by at most one and copies by at most the number of replicas |
| `LeaderChoice.NewestReplicas` | consistence/data_placement_mgr.go:1453-1477 | exactly the answering members with the greatest last id |
| `LeaderChoice.ChooseLeader` | consistence/data_placement_mgr.go:1447-1502 | an answering member with the greatest last id; none only if nobody answers or the statistics of all newest members are missing |
| `LeaderChoice.ChooseOrderedLeader` | consistence/data_placement_mgr.go:1504-1565 | the same for ordered topics, and the balanced placement decides among several newest members |
| `LeaderChoice.ChosenLeaderSafe` | consistence/data_placement_mgr.go:1447-1565 | such a choice is an election step, and when a synced member answered the new leader has the whole committed log and the invariant is kept |

## Left out

- etcd, RPC and gRPC plumbing, HTTP, nsqadmin, benchmarks and logging: I/O only.
- File-system errors, fsync and atomic renames; a missing segment appears only where `CleanOldData` checks for it.
- Process restart (InitTopicCommitLogMgr, Reopen, retrieveMetaData) and ChangeTopicMetaParam, which re-enables writes outside the join session.
- Late delivery of coordinator calls, a second coordinator, and failed compare-and-swap of the stored metadata.
- Message data behind the commit log during catchup (checkAndFixLocalLogQueueData, raw data puts): only the commit log is followed.
- Retry counters, sleeps and load factors; sorting is an arbitrary order.
- ReplicationSafety.AckedNeverLost: assumes benign runs; each of the three provisos is exact for the step it is about (`ElectionExact`, `LateJoinExact`, `StaleLeaderExact`), not for whole runs.
- ReplicationProvisos.StaleLeaderExact: about the next publish, with no other step in between; for all other continuations only the necessary half is given (`StaleCommitNeedsEpochs`).
- ReplicationSteps.SyncKeeps: logs are not cleaned at the head in the protocol, so the first retained entry is the first entry.
- CommitLog.TopicCommitLog.Truncate: offsets are those of entry boundaries inside the segment, which all callers pass; other offsets cut an entry in two.
- CommitLog.TopicCommitLog.CleanOldData: offsets are not negative.
- CommitLogSearch.Search: for a value no entry covers the code returns the entry it looked at last without an error; which entry that is is not specified.
- Catchup.CatchUp: assumes log matching, a fixed leader log and entries of at most MAX_LOG_PULL_BYTES; the never-ending decision is excluded by its exact condition.
- DiskQueueReader.Reader.SkipTo: without the fallback for missing segment files.
- DiskQueueReader.Reader.ReadOne: the length field is a parameter, the read buffer and the correction of the count from a file's offset meta are not modelled.
- CleanOldDataByRetention, the bolt-backed delay queue, IntervalTree, diskqueue.go, tags, traces and statistics.
- ConfirmWindow.Window.Scan: a confirmed offset that was moved back by a reset is not followed.
- Codec.DelayedRoundTrip: channel names and delayed data are shorter than 4 GiB.
- LeaderChoice.ChooseLeader: no least-load claim, as the smallest load is never updated.
- Goroutine scheduling in messagePump: delivery and timeouts are separate calls in any order.
