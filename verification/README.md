# Verified model of the replicated key-value store

A Dafny model of the two cores of the store, with proofs over all runs and all inputs:

* the **Raft replicas** (`raft/raft.go`, `raft/log.go`, `raft/node.go`): a cluster of nodes whose every critical
  section is one step, over a network that may lose, delay, repeat and reorder messages, with restarts at any time;
* the **LSM storage engine** (`engine`, `memtable`, `sstable`, `wal`): writes, freezing, every separate part of a
  flush, both compactions, crash and reopening as steps of a machine, and below it the components that each refine
  something simple (skip list, merge heap, table files, write-ahead log, manifest), down to bytes.

`dafny verify dfyconfig.toml` checks the whole project.

## How it is laid out

| modules | content |
|---|---|
| `RaftLog`, `RaftNode`, `RaftNetwork` | the log, each handler as a function from old to new fields, the cluster and its steps |
| `RaftReplica` | the same handlers as a class with loops and in-place updates, each proved equal to its function |
| `RaftHistory`, `RaftLogMatching`, `RaftCompleteness`, `RaftGrowth`, `RaftSteps`, `RaftElections`, `RaftReplication` | the invariant, with a history of reigns, ballots, acknowledgements and commits, and its proof for every step |
| `RaftSafety`, `RaftVotes`, `RaftProposals`, `RaftLostProposal` | the theorems about runs: safety, what becomes of a vote within a term, what the answer to a proposal is worth, and a run in which it is wrong |
| `RaftAnswers`, `RaftProgress` | what handlers answer and change, said by terms, indices and entries alone; what steps of a run achieve: votes that must be granted, followers that catch up, old leaders that step down, back-off, commitment |
| `RaftCommands`, `NodeApply` | commands as bytes, what they mean, and convergence of the engines that apply them |
| `Keys`, `Tables`, `Compaction`, `LevelCompaction`, `Writes` | key order, sorted runs, levels, and what a compaction does to reads |
| `EngineMachine`, `EngineInvariant`, `EngineRefinement`, `TornRecovery` | the engine as a machine, its invariant, refinement of a plain map, and recovery, from a torn log too |
| `StaleMerge`, `SnapshotWindow`, `FlushQueue`, `FullChannel`, `CleanClose`, `TornInstalls` | what exactly goes wrong outside the hypotheses: the precedence of an L0 compaction, its snapshot within a flush, a full flush channel, closing after that, a crash within an install |
| `MergeOrder`, `MergeHeap`, `MergeIterators`, `TableSearch`, `CompactionRun`, `Reads` | the merge iterator, file search, compaction outputs and `ReadRange` |
| `SkipLists` | the linked skip list |
| `TableFiles`, `EngineObject`, `EngineClient` | open readers and the files behind them; the engine as an object over log, skip lists, readers, table files and manifest, each method a step of the machine; clients that call it over any number of openings |
| `ByteCodec`, `WalFormat`, `WalStore`, `ManifestLog`, `ManifestListing`, `Bloom`, `SSTableFormat`, `SSTableWriter`, `SSTableReader`, `SSTableIterator`, `SSTables` | the files |

Code that updates objects in place is modelled by classes and loops (`RaftReplica`, `EngineObject`, `MergeIterators`,
`SkipLists`, `WalStore`, `ManifestLog`, `Bloom`, `SSTableWriter`, `SSTableReader`, `SSTableIterator`); each of their
methods is proved against a function on values, and the theorems are about those functions. The steps of the two
machines are atomic where the source holds its lock.

The engine's machine says of a flushed table only that it holds the memtable, and of compaction outputs only that they
merge the inputs. `CompactionRun.CompactLevel` and `CompactionRun.CompactL0` prove the latter of the code. `EngineObject`
has the byte-level log, the skip lists, a reader for every table file and the manifest: writing, freezing and flushing
are the machine's steps, `Get` asks filters, indexes and blocks of the files and answers as the machine does, the bytes on
disk after every call are what a crash leaves of the machine's state (`Durable`), and `Open` on those bytes is the
machine's reopening. `EngineClient.Lives` composes all of it: any writes, batches, rotations and flushes, in any number
of lives that begin with an empty directory and end with a crash between calls, and `Get` answers as a plain map;
`EngineClient.TornRestart` adds a log torn at any byte.

## What turned out to differ from the comments

* `compactL0` numbers the L0 files by their index, so the oldest one wins although the comment says the newest does
  (`L0NumbersPreferOldest`). A read is preserved exactly if, for every key not flushed again meanwhile, the oldest and
  the newest L0 entry agree (`L0CompactionExact`); `StaleMergeLosesAWrite` is a run with a loss.
* An empty value is written as a value of length zero and read back as nil: after a restart or a flush it reads as
  deleted (`EmptyPutIsDelete`, `EmptyValueIsLost`). Values of the engine's machine are therefore not empty.
* A candidate that steps down in its own term forgets its vote. Within a term a vote is left behind exactly that way
  (`VoteLeftExactly`); `TwoVotesInOneTerm` is a run in which a node votes twice, and by the second vote the term always
  has a leader (`SecondVoteIsLate`). Election safety is proved with such runs included.
* Proposals that are pending when leadership is lost are not cleared. A nil answer is right exactly if the entry found
  still has the proposal's term (`ProposalAnswer`), which is so if the leader is still in that term (`SameTermAnswer`),
  and wrong exactly if a later leader's request has replaced the entry and none has brought it back
  (`AnswerWrongExactly`); `LostProposal` is a run in which it is wrong.
* A full flush channel drops the task of a memtable, and later flushes overtake it. `DroppedFlushExact` says over every
  run which reads of the running engine are then stale and which writes a crash loses; without a full channel none are
  (`NoFullChannelNoFault`). `OvertakingLosesAWrite` is a run in which seventeen freezes fill the channel. A proper Close
  then loses no key, but makes dropped memtables the newest tables (`CloseExact`, `CloseKeepsStaleValue`).
* A flush writes to the manifest before its reader appears in L0. A compaction that takes its snapshot in between
  removes the new table from the manifest unmerged. `SnapshotWindowExact` says at which moments and for which keys a crash
  then loses something, up to the install of the next L0 compaction, which lists the table's entries again;
  `SnapshotLosesAWrite` is a run with a lost write.
* A compaction's removals are written to the manifest before its additions. `TornInstallExact` says after which calls
  and for which keys a crash then leaves the reads as they were; `TornInstallLosesAWrite` is a run with a lost write.
* Neither a log file nor the manifest is truncated when it is reopened, so what is appended after a torn record is not
  read again (`TornTailHides`, `TornRecordHides`; `LaterRecordLost` and `LaterAdditionLost` are instances;
  `AppendAfterCleanCut` for a cut between records).
* When a deposed leader's commit index passes the index of a waiting proposal, nothing answers it; it is answered when
  the node leads again and raises its commit index (`SameTermAnswer`).

The refinement theorems of the engine (`EngineRefinesMap`, `RecoveryIsComplete`) hold for runs whose flushes are in
order and whose L0 compactions start outside the window of a flush and prefer no stale entry (`EngineMachine.Benign`).
That each of these conditions is needed is shown by the runs of `OvertakingLosesAWrite`, `SnapshotLosesAWrite` and
`StaleMergeLosesAWrite`.

## Model

| member | source | states |
|---|---|---|
| `RaftReplica.Log.Append` | raft/log.go:205-216 | appending extends the entry list in order |
| `RaftReplica.Log.GetEntry` | raft/log.go:219-234 | the lookup by index arithmetic is the entry of that index, or none |
| `RaftReplica.Log.GetEntriesFrom` | raft/log.go:259-277 | the suffix from an index, clamped to the first entry |
| `RaftReplica.Log.TruncateFrom` | raft/log.go:280-300 | everything from the index on is gone, the rest is kept |
| `RaftLog.IndexedAccess` | raft/log.go:219-300 | on a log numbered from 1 all three are plain positional access |
| `RaftReplica.Raft.BecomeFollowerLocked` | raft/raft.go:420-429 | the step-down, including the cleared vote, as the protocol function has it |
| `RaftReplica.Raft.BeginElection` | raft/raft.go:336-357 | the new candidate's fields and the vote request it sends |
| `RaftReplica.Raft.BecomeLeaderLocked` | raft/raft.go:400-416 | leader fields, with next and match indices rebuilt for every peer |
| `RaftReplica.Raft.HandleRequestVote` | raft/raft.go:597-633 | new fields, reply term and grant are those of the protocol's vote step |
| `RaftReplica.Raft.AppendNew` | raft/raft.go:667-683 | the skip, truncate and append loop computes the protocol's new log, for any entries |
| `RaftReplica.Raft.HandleAppendEntries` | raft/raft.go:635-700 | new fields, reply term and success are those of the protocol's append step, for any request; a numbered one leaves the log numbered |
| `RaftReplica.AppendLoopNumbered` | raft/raft.go:667-683 | entries numbered from the predecessor on leave the log numbered from 1 without gaps |
| `RaftReplica.Raft.FollowLeaderCommit` | raft/raft.go:687-699 | the follower's commit index is the smaller of the leader's and its own last index, and only rises |
| `RaftReplica.Raft.ProposeLocked` | raft/raft.go:206-235 | a leader appends at the next index and registers the call; others refuse |
| `RaftReplica.Raft.RequestFor` | raft/raft.go:454-484 | the request carries the whole suffix from the peer's next index and the commit index of the same moment |
| `RaftReplica.Raft.CountHolders` | raft/raft.go:523-528 | the loop counts exactly the peers whose match index reaches n |
| `RaftReplica.Raft.AdvanceCommitIndexLocked` | raft/raft.go:515-542 | the new commit index is the highest that a majority holds and that is of the current term |
| `RaftReplica.Raft.ResolveProposalsLocked` | raft/raft.go:544-557 | the loop answers and removes exactly the calls at or below the commit index, in order, and keeps the others |
| `RaftReplica.Raft.HandleReply` | raft/raft.go:489-513 | step-down, stale reply, acknowledgement, back-off and the calls answered as the protocol's reply step |
| `RaftReplica.Raft.ApplyCommitted` | raft/raft.go:573-593 | delivers the entries after the last applied one up to the commit index, in order, once each |
| `RaftNode.Advance` | raft/raft.go:515-530 | the search result can be committed, and nothing above it can |
| `RaftLogMatching.AppendLoopEffect` | raft/raft.go:667-683 | after the loop the log agrees with the leader's as far as it was sent, and no entry that agreed before is dropped |
| `RaftCompleteness.LeaderCompleteness` | raft/raft.go:515-542 | a committed prefix is in the log of the leader of every later term |
| `RaftCompleteness.DecisiveBallot` | raft/raft.go:597-633 | some voter of a later election had acknowledged the committed entries before it voted |
| `RaftElections.NoSecondWinner` | raft/raft.go:380-392 | a tally that reaches a majority in a term that already has a leader is impossible |
| `RaftElections.StepVoteRequest` | raft/raft.go:597-633 | granting or refusing a vote keeps the invariant |
| `RaftElections.StepWin` | raft/raft.go:380-416 | becoming leader keeps the invariant |
| `RaftReplication.RequestOk` | raft/raft.go:454-484 | every request sent is a piece of the leader's log with its true predecessor |
| `RaftReplication.StepAppend` | raft/raft.go:635-700 | handling a request keeps the invariant, with a late or repeated one too |
| `RaftReplication.StepAppendReply` | raft/raft.go:489-542 | handling a reply keeps the invariant, although a late one may lower the match index |
| `RaftReplication.NewCommit` | raft/raft.go:515-542 | raising the commit index commits entries that a majority has acknowledged |
| `RaftSafety.StepInv` | raft/raft.go:310-700 | every step of every node keeps the cluster invariant |
| `RaftSafety.ElectionSafety` | raft/raft.go:336-416 | in every run there is at most one leader a term, although votes can be forgotten |
| `RaftSafety.LogsOrdered` | raft/raft.go:206-235 | logs stay numbered from 1, with terms that never fall and never exceed the current term |
| `RaftSafety.LogMatching` | raft/raft.go:655-683 | two logs, at any two times, that agree on the term at an index agree on everything up to it |
| `RaftSafety.StateMachineSafety` | raft/raft.go:515-542 | two nodes, at any two times, have the same entry at an index both have committed |
| `RaftSafety.LeadersHoldCommitted` | raft/raft.go:597-633 | what any node has committed is in the log of every leader of a later term |
| `RaftSafety.CommittedStays` | raft/raft.go:635-700 | no later truncation on a node removes an entry it had committed, not even over restarts |
| `RaftSafety.AppendsAreSound` | raft/raft.go:454-484 | every request ever sent has a real predecessor entry, the whole rest of the log and exactly the leader's commit index of that moment, which reaches no further |
| `RaftSafety.FollowerCommitChecked` | raft/raft.go:688-694 | a follower's commit index never covers an entry that was not compared with the leader's |
| `RaftSafety.AppliedInOrder` | raft/raft.go:561-593 | deliveries are the committed prefix in order, without gaps or repeats, and no wake-up is lost |
| `RaftSafety.DeliveriesGrow` | raft/raft.go:573-593 | a process never takes back or repeats a delivery |
| `RaftSafety.DeliveriesAgree` | raft/raft.go:573-593 | all nodes deliver the same entries at the same places |
| `RaftAnswers.VoteAnswer` | raft/raft.go:597-633 | the reply's term is the larger of both; the vote is granted if and only if it is free and the candidate's last term is higher, or the same with an index at least as high |
| `RaftAnswers.AppendAnswer` | raft/raft.go:635-700 | the reply's term is the larger of both; success if and only if the request is not old and its predecessor is in the log with its term; what a refusal cuts off and what commit index results |
| `RaftAnswers.RefusalAnswer` | raft/raft.go:507-511 | a refusal lowers the next index for that peer by one, not below 1, and changes nothing else |
| `RaftAnswers.AcceptanceAnswer` | raft/raft.go:501-542 | an acceptance sets the peer's indices and raises the commit index to the highest entry of the term that more than half of the nodes hold |
| `RaftAnswers.CallsAnswer` | raft/raft.go:544-557 | once the commit index rises, exactly the calls it has reached are answered |
| `RaftProgress.VoteReplied` | raft/raft.go:597-633 | in every run the reply sent to a vote request is that answer |
| `RaftProgress.AheadCandidateGetsVote` | raft/raft.go:618-632 | a candidate whose log at its timeout held all the voter has gets the vote of every node in a lower term |
| `RaftProgress.HigherTermStepsDown` | raft/raft.go:372-378 | a reply of a higher term, of either kind, makes the receiver a follower of that term |
| `RaftProgress.RequestSent` | raft/raft.go:454-484 | every replication step sends the rest of the log from the peer's next index, its predecessor and the commit index |
| `RaftProgress.AppendReplied` | raft/raft.go:635-700 | in every run the reply sent to a request is that answer |
| `RaftProgress.OldLeaderStepsDown` | raft/raft.go:639-644 | an old leader's request is refused with the higher term, and handling the reply it steps down into it |
| `RaftProgress.FollowerCatchesUp` | raft/raft.go:667-699 | after an accepted request the follower's log begins with the leader's whole log at sending, and its commit index is at least the leader's then |
| `RaftProgress.RefusalBacksOff` | raft/raft.go:507-511 | in every run a refusal of the leader's own term backs off by one |
| `RaftProgress.RefusalsReachTheStart` | raft/raft.go:507-511 | enough refusals in a row, and the next request carries the whole log from index 1, which no node of that or a lower term refuses |
| `RaftProgress.MajorityCommits` | raft/raft.go:501-542 | in every run, after an accepted reply everything of the term that a majority holds is committed, and nothing else new |
| `RaftProgress.CandidacyBegins` | raft/raft.go:336-367 | a timeout begins a candidacy of the next term with the node's own vote and asks with the place of its last entry |
| `RaftProgress.VoteCounts` | raft/raft.go:380-384 | a granted reply counts its sender for that election and changes nothing else |
| `RaftProgress.MajorityWins` | raft/raft.go:351-416 | a candidate can become leader if and only if more than half of all nodes voted for it in its term; it starts with every peer at the end of its log |
| `RaftProgress.RestartKeeps` | raft/raft.go:702-735 | a restart keeps term, vote and log, and nothing else |
| `RaftProgress.NothingIsExcluded` | raft/raft.go:310-332 | at any moment any node may time out or restart and any message ever sent may be delivered |
| `RaftVotes.TermsRise` | raft/raft.go:420-423 | a node's term never falls, over restarts too |
| `RaftVotes.VoteLeftExactly` | raft/raft.go:646-648 | within a term a node's vote changes if and only if it hears, as a candidate, from the leader of that term |
| `RaftVotes.SecondVoteIsLate` | raft/raft.go:597-633 | two different votes of a node in one term imply that the term had a leader by the second |
| `RaftVotes.TwoVotesInOneTerm` | raft/raft.go:420-423 | a run of eight steps in which a node votes for itself and for another in one term |
| `RaftProposals.ProposalAnswer` | raft/raft.go:544-557 | at any time after its answer, a proposal is in the log if and only if the entry at its index has its term |
| `RaftProposals.SameTermAnswer` | raft/raft.go:515-557 | only a reply that raises a leader's commit index answers a call, and while the leader is in the call's term the answer is right |
| `RaftProposals.EntryLostExactly` | raft/raft.go:667-683 | after its proposal an entry is missing from its leader's log if and only if a request of a later term replaced it there and none since has brought it back |
| `RaftProposals.AnswerWrongExactly` | raft/raft.go:544-557 | so an answered call's entry is not the one committed at its index if and only if that happened since the call |
| `RaftLostProposal.LostProposal` | raft/raft.go:544-557 | a run of twenty steps in which a leader loses and regains leadership and its waiting call, whose entry was overwritten, is answered without an error |
| `RaftCommands.PutBack` | raft/log.go:32-48 | a put command decodes to the key and value encoded, in front of anything |
| `RaftCommands.DeleteBack` | raft/log.go:51-63 | a delete command decodes to its key |
| `RaftCommands.BatchBack` | raft/log.go:67-105 | a batch decodes to the pairs encoded, in order |
| `RaftCommands.EncodeBatchPutCommand` | raft/log.go:67-86 | the loop produces the batch encoding |
| `RaftCommands.DecodeBatchPutCommand` | raft/log.go:89-105 | the loop produces the decoded pairs, and fails exactly on data that does not decode |
| `RaftCommands.Rewriting` | raft/node.go:72-84 | writing a list of commands over what a prefix of it left is writing it once |
| `NodeApply.StoresAgree` | raft/node.go:60-84 | nodes that applied equally many entries have equal maps; the one ahead has the other's map plus later writes |
| `NodeApply.RestartsConverge` | raft/node.go:60-84 | after any number of restarts, each re-applying from the first entry and stopped at any record, the map is that of the committed commands |
| `NodeApply.EngineConverges` | raft/node.go:60-84 | and Get of the node's engine answers from them, through any freezes, flushes, compactions and crashes on the way |
| `NodeApply.CommandsApplied` | raft/node.go:72-84 | entries that carry encoded commands, applied in order, do to the map what the commands mean: puts, deletes and batches, and nothing for other types |
| `NodeApply.NodeAnswers` | raft/node.go:60-84 | after any restarts, a node's engine answers from the map that the delivered commands mean |
| `Keys.Compare` | engine/merge_iterator.go:70 | byte comparison is the order of an embedding into the reals, and zero only for equal keys |
| `Tables.SortedUnique` | engine/merge_iterator.go:91-92 | a sorted run is determined by what it says about every key, so a merge is unique |
| `MergeOrder.PriorityMergeExists` | engine/merge_iterator.go:91-137 | sorted sources with distinct numbers have a merge: each key once, from the lowest number that has it |
| `MergeOrder.InListOrder` | engine/compaction.go:207-215 | with numbers in list order the merge gives precedence to the earlier source |
| `MergeOrder.L0NumbersPreferOldest` | engine/compaction.go:112-126 | with the numbers of compactL0 the merge gives precedence to the oldest L0 file |
| `MergeOrder.SeekMerge` | engine/merge_iterator.go:147-153 | seeking in every source seeks in the merge |
| `MergeHeap.RootIsLeast` | engine/merge_iterator.go:69-75 | in heap order the root is not after any other source |
| `MergeIterators.MergeIterator.Down` | engine/merge_iterator.go:68-76 | sifting down restores heap order from a place on and keeps the items |
| `MergeIterators.MergeIterator.Up` | engine/merge_iterator.go:68-76 | sifting up restores heap order and keeps the items |
| `MergeIterators.MergeIterator.HeapPop` | engine/merge_iterator.go:82-88 | the least source comes out, the others stay in heap order |
| `MergeIterators.MergeIterator.BuildHeap` | engine/merge_iterator.go:108-116 | the heap holds exactly the sources that have entries left |
| `MergeIterators.MergeIterator.Advance` | engine/merge_iterator.go:118-137 | makes the least key current and skips its duplicates without changing what is still to come |
| `MergeIterators.MergeIterator.SeekToFirst` | engine/merge_iterator.go:139-145 | the stream is the whole merge |
| `MergeIterators.MergeIterator.Seek` | engine/merge_iterator.go:147-153 | the stream is the merge from the first key not below the target |
| `MergeIterators.MergeIterator.Next` | engine/merge_iterator.go:155-165 | the stream loses its first entry and nothing else |
| `MergeIterators.MergeIterator.Current` | engine/merge_iterator.go:167-191 | key, value and tombstone are those of the first entry of the stream |
| `TableSearch.FindOverlapping` | engine/compaction.go:265-285 | finds exactly the files whose smallest key is not above and whose largest not below the range, in order, with their metadata |
| `TableSearch.FindTableForKey` | engine/engine.go:585-638 | sorting, binary search and matching of readers find the one file whose range has the key, or none exists |
| `TableSearch.CandidateDecides` | engine/engine.go:277-296 | asking that one file is asking the whole level |
| `CompactionRun.WriteCompactionOutput` | engine/compaction.go:301-380 | the outputs hold the stream in order, none is empty, and each is closed exactly when its keys, values and nine bytes an entry reach two mebibytes |
| `CompactionRun.KeyRange` | engine/compaction.go:93-105 | the tightest range around all L0 files |
| `CompactionRun.CompactLevel` | engine/compaction.go:186-223 | the outputs merge the file that goes down over the overlapping targets, under fresh numbers |
| `CompactionRun.CompactL0` | engine/compaction.go:82-135 | the outputs merge the L0 files, oldest first in precedence, over the overlapping L1 files |
| `Compaction.SplitsDisjoint` | engine/compaction.go:346-380 | files cut from one increasing stream are sorted and pairwise disjoint |
| `Compaction.PushedShape` | engine/compaction.go:246-248 | the target level stays free of overlaps, because sources and selected targets form one interval |
| `Compaction.PushedHit` | engine/compaction.go:246-248 | the target level then says what the pushed files said, else what it said before |
| `LevelCompaction.LevelCompactionPreserves` | engine/compaction.go:186-261 | compactLevel changes no read of any key, tombstones and newer L0 files included, and keeps the levels in shape |
| `LevelCompaction.NewestFirstPreserves` | engine/compaction.go:112-120 | with newest-first precedence compactL0 would change no read |
| `LevelCompaction.L0CompactionExact` | engine/compaction.go:82-166 | compactL0 changes no read if and only if oldest and newest L0 entries agree on every key not flushed since |
| `LevelCompaction.L0CompactionLosesAWrite` | engine/compaction.go:112-120 | two L0 files with different values for one key: the older value wins |
| `LevelCompaction.L0CompactedShape` | engine/compaction.go:141-166 | compactL0 keeps the levels in shape |
| `StaleMerge.StaleMergeLosesAWrite` | engine/compaction.go:112-120 | a run of fourteen steps whose only fault is the install of an L0 compaction, after which the first of two values is read |
| `Writes.OutcomeIsLast` | engine/engine.go:171-234 | in the plain map the last write to a key decides |
| `Writes.Overlap` | engine/engine.go:137-149 | replaying records that are also in a table is harmless while the replay starts within what the tables cover |
| `EngineInvariant.ReadsLast` | engine/engine.go:237-299 | in every state the invariant allows, the first hit is the last write |
| `EngineRefinement.StepFlushList` | engine/engine.go:497-552 | writing the table and its manifest record keeps the invariant |
| `EngineRefinement.StepFlushAppend` | engine/engine.go:554-556 | making the table readable while the memtable is still there keeps the invariant |
| `EngineRefinement.StepFlushRemove` | engine/engine.go:572-581 | removing the memtable keeps the invariant |
| `EngineRefinement.StepFlushPurge` | engine/engine.go:560-563 | deleting log files keeps the invariant |
| `EngineRefinement.StepInstall` | engine/compaction.go:137-166 | installing either compaction keeps the invariant, also between the parts of a flush |
| `EngineRefinement.StepCrash` | engine/engine.go:79-160 | reopening after a crash between any two steps keeps the invariant |
| `EngineRefinement.StepInv` | engine/engine.go:171-581 | every step keeps the invariant and adds exactly its writes |
| `EngineRefinement.EngineRefinesMap` | engine/engine.go:237-299 | over every run, crashes included, a read answers as the plain map that has seen the same writes |
| `EngineRefinement.RecoveryIsComplete` | engine/engine.go:101-152 | reopening any reachable state gives every write made, and of an unfinished batch the logged part |
| `EngineRefinement.LogsCoverTheRest` | wal/wal.go:291-309 | the surviving log files are a suffix of the writes, and the listed tables speak for all before it |
| `EngineRefinement.NothingIsExcluded` | engine/engine.go:171-581 | at any moment the engine may write, freeze, crash within a batch, and flush its oldest frozen memtable |
| `TornRecovery.StepUnlisted` | engine/engine.go:497-563 | no table in the manifest holds a record of the active log file, after every step |
| `TornRecovery.TornInv` | wal/wal.go:204-248 | reopening with any number of the active file's records left keeps the invariant for the writes left |
| `TornRecovery.TornRecoveryIsPrefix` | wal/wal.go:204-248 | from any reachable state, with the active log cut to any of its records, reopening gives all writes but as many last ones as were cut off |
| `SnapshotWindow.SnapshotAligned` | engine/compaction.go:83-87 | manifest and readers list the same L0 files exactly if no flush is between its manifest record and its reader |
| `SnapshotWindow.SnapshotWindowExact` | engine/compaction.go:83-166 | from a snapshot in that window on, reads stay right; a crash loses something exactly between the install and that of the next L0 compaction, and exactly the keys that neither log, newer L0 file nor deeper level speaks for as the forgotten table did |
| `SnapshotWindow.NextInstallHeals` | engine/compaction.go:141-166 | the next L0 compaction merges the forgotten table, which is still read, and its install brings manifest and readers together again |
| `SnapshotWindow.SnapshotLosesAWrite` | engine/compaction.go:83-166 | a run of fifteen steps whose only fault is such a snapshot and whose second write is gone after the crash |
| `FlushQueue.QueueStepInv` | engine/engine.go:447-581 | every step of the engine with its flush channel keeps the account of which memtables are flushed, waiting and dropped |
| `FlushQueue.DroppedFlushExact` | engine/engine.go:467-473 | over every run, a read is right if and only if no waiting memtable hides a newer flushed value, and right after a crash if and only if no dropped memtable with purged log had the last write |
| `FlushQueue.NoFullChannelNoFault` | engine/engine.go:467-473 | as long as every send found room in the channel, all reads are right, before and after a crash |
| `FullChannel.OvertakingLosesAWrite` | engine/engine.go:467-473 | a run in which a send finds sixteen tasks: later a stale value is read, and after a crash an acknowledged write is gone |
| `CleanClose.CloseExact` | engine/engine.go:405-424 | over every run, after Close and the next Open every key written is found, and read right if and only if the log has it or no dropped memtable hides a newer flushed value |
| `CleanClose.CloseKeepsStaleValue` | engine/engine.go:405-424 | a run with a full channel, closed properly, after which an overwritten value is read |
| `Reads.GatherIterators` | engine/engine.go:307-341 | all sources in order of recency, numbered from zero |
| `Reads.ReadRange` | engine/engine.go:303-361 | exactly the pairs in the range that Get would report, in key order |
| `Reads.RangeIsMap` | engine/engine.go:301-361 | in every run a range read lists the plain map between the bounds |
| `Reads.SkipListListsMem` | engine/engine.go:311-323 | the skip list's items are the sorted run of the memtable's map |
| `EngineObject.Engine.Write` | engine/engine.go:171-198 | logging the record's bytes and putting it into the skip list is the machine's write |
| `EngineObject.Engine.BatchPut` | engine/engine.go:201-234 | one log write and the loop over the records is the machine's write of the batch |
| `EngineObject.Engine.Rotate` | engine/engine.go:447-465 | rotating the log and starting a new memtable is the machine's freeze; frozen lists no longer change |
| `EngineObject.Engine.Get` | engine/engine.go:237-299 | active list, frozen lists, then filters, indexes and blocks of the table files answer as the machine's read |
| `EngineObject.Engine.Flush` | engine/engine.go:497-570 | iterating the oldest frozen list, writing and opening its file, listing, appending its reader, removing and purging are the machine's four flush steps, or the one for an empty list |
| `EngineObject.Open` | engine/engine.go:79-160 | refuses exactly if a listed file is missing or does not parse; on the bytes a crash leaves, the active log cut at any byte and an empty directory included, it is the machine's reopening from the records that are whole |
| `EngineClient.ServeAll` | engine/engine.go:171-581 | any writes, batches, rotations and flushes leave the engine in a state that stands for exactly the writes made |
| `EngineClient.OpenNew` | engine/engine.go:79-160 | the first opening, on an empty directory, is ready for calls and stands for no writes |
| `EngineClient.Restart` | engine/engine.go:79-160 | opening what is on disk after any calls is ready for more and stands for the same writes |
| `EngineClient.Lives` | engine/engine.go:79-581 | over any writes, batches, rotations and flushes in any number of lives, Get answers as the plain map that has seen all writes |
| `EngineClient.TornRestart` | wal/wal.go:204-248 | with the active log cut at any byte it answers as the map that has seen all writes but those not whole there |
| `EngineObject.Engine.Durable` | engine/engine.go:171-570 | log, manifest and table files hold at any time between calls what a crash must leave of the state |
| `EngineObject.NextFileNum` | engine/engine.go:101-111 | one more than the highest listed number |
| `TableFiles.Ask` | engine/engine.go:261-275 | filter and lookup of one file are the search among its entries |
| `TableFiles.GetL0` | engine/engine.go:259-275 | the backward loop is the newest hit in L0 |
| `TableFiles.GetDeep` | engine/engine.go:277-296 | one file a level, found by the manifest's ranges, is the first hit below L0 |
| `TableFiles.OpenAll` | engine/engine.go:113-125 | opens all listed files or refuses; the readers answer for the tables written |
| `SkipLists.SkipList.constructor` | memtable/skiplist.go:37-47 | a new list is valid and empty |
| `SkipLists.SkipList.Descend` | memtable/skiplist.go:64-69 | the search ends just before the first key not below the target and records the last node below it on every level |
| `SkipLists.SkipList.Get` | memtable/skiplist.go:109-123 | the lookup in the map of the items |
| `SkipLists.SkipList.Put` | memtable/skiplist.go:60-105 | the sorted items with the key inserted or replaced, for any height; links, count and size stay right |
| `SkipLists.SkipList.Insert` | memtable/skiplist.go:82-105 | a new node takes its place on every level it reaches |
| `SkipLists.InsertLinks` | memtable/skiplist.go:97-100 | after splicing, every level links exactly the nodes tall enough for it, in order |
| `SkipLists.UpsertedMap` | memtable/skiplist.go:58-60 | the sorted list after a put stands for the updated map |
| `SkipLists.BuiltIsMap` | memtable/skiplist.go:60-128 | any sequence of puts and deletes builds the sorted list of the map they fold to |
| `SkipLists.PutAll` | memtable/skiplist.go:37-105 | a list built by any puts with any heights holds that sorted list |
| `SkipLists.ListIterator.Seek` | memtable/skiplist.go:170-178 | the iterator stands at the first key not below the target |
| `SkipLists.Collect` | engine/engine.go:505-512 | a full iteration delivers all items in order |
| `SkipLists.ListIterator.Next` | memtable/skiplist.go:181-185 | one item on |
| `ByteCodec.GetPut` | wal/wal.go:346-359 | little-endian numbers read back if they fit their width |
| `WalFormat.PayloadBack` | wal/wal.go:252-288 | a record's payload decodes to the record, with an empty value as nil |
| `WalFormat.CutReplay` | wal/wal.go:206-248 | a log cut at any byte replays exactly the records that fit whole |
| `WalFormat.WholeIsMost` | wal/wal.go:206-248 | and no longer prefix of them fits |
| `WalFormat.AppendAfterCleanCut` | wal/wal.go:84-102 | after a cut between records, later appends are replayed too |
| `WalFormat.TornTailHides` | wal/wal.go:84-102 | after a cut at any byte of a record, nothing appended later is replayed if and only if the bytes from the cut record on do not read as a record |
| `WalFormat.MixedRecord` | wal/wal.go:216-236 | with the header written, they do exactly if enough bytes follow and the mixture fits the record's checksum |
| `WalFormat.LaterRecordLost` | wal/wal.go:84-102 | a record cut after its header and a later one that is never replayed, for any checksum |
| `WalFormat.EmptyPutIsDelete` | wal/wal.go:281-285 | in the replay of a log every write has its effect if and only if it is not a put of the empty value, which has become a delete |
| `WalFormat.EngineReplay` | wal/wal.go:206-248 | engine writes logged and cut anywhere come back as the longest prefix that fits |
| `WalStore.ReplayFile` | wal/wal.go:206-248 | the reading loop delivers what the format says, for any bytes |
| `WalStore.Wal.Append` | wal/wal.go:105-123 | the active file grows by the encoded record |
| `WalStore.Wal.AppendBatch` | wal/wal.go:126-146 | the active file grows by all records, in order |
| `WalStore.Wal.Rotate` | wal/wal.go:161-182 | a new empty file with the next number; the old number is returned |
| `WalStore.Wal.PurgeOlderThan` | wal/wal.go:291-309 | exactly the files beyond the number stay; the active one among them if the number was rotated away |
| `WalStore.Wal.Replay` | wal/wal.go:187-202 | all files are replayed in order of their numbers |
| `WalStore.AppendRepresents` | wal/wal.go:126-146 | appending bytes is the machine's logging |
| `WalStore.PurgeRepresents` | wal/wal.go:291-309 | deleting files is the machine's purge |
| `WalStore.ReplayRepresents` | wal/wal.go:187-202 | replaying an uncut log delivers the machine's records, in order |
| `WalStore.TornReplay` | wal/wal.go:204-248 | a crash that tears the last file at any byte loses only what was not whole |
| `WalStore.TornEffects` | wal/wal.go:204-248 | the replay of such a log is that of the log with the whole records only |
| `WalStore.CleanCut` | wal/wal.go:204-248 | cut between two records, the files are exactly the log of the records kept |
| `ManifestLog.ReadBack` | engine/manifest.go:99-187 | a record reads back as written, in front of anything |
| `ManifestLog.CutReads` | engine/manifest.go:71-88 | a manifest cut at any byte reads as the records that fit whole |
| `ManifestLog.Reopens` | engine/manifest.go:39-88 | reopening rebuilds the same lists in the same order; a cut file gives the lists after a prefix of the calls |
| `ManifestLog.Manifest.constructor` | engine/manifest.go:39-68 | opening any bytes applies what is readable, and knows whether a torn record follows |
| `ManifestLog.Manifest.AddFile` | engine/manifest.go:215-226 | file and lists grow by the addition, after a torn record too |
| `ManifestLog.Manifest.RemoveFile` | engine/manifest.go:229-247 | file and lists change by the removal, after a torn record too |
| `ManifestLog.TornRecordHides` | engine/manifest.go:61-65 | after a cut within a record no later call is read again if and only if the bytes from the cut record on do not read as a record |
| `ManifestLog.MixedRecord` | engine/manifest.go:99-154 | with both key lengths written, they do exactly if enough bytes follow and the mixture fits the checksum at its end |
| `ManifestLog.LaterAdditionLost` | engine/manifest.go:61-65 | an addition that no later opening lists, for any checksum |
| `ManifestLog.Replay` | engine/manifest.go:71-88 | the replay loop, for any bytes |
| `ManifestLog.RemoveOne` | engine/manifest.go:238-244 | the splice loop drops the first file of that number |
| `ManifestListing.FlushListed` | engine/engine.go:540-552 | the flush's call, written to the manifest and read again, leads to the machine's listing |
| `ManifestListing.LevelInstallListed` | engine/compaction.go:228-243 | compactLevel's calls lead to the machine's listing |
| `ManifestListing.L0InstallListed` | engine/compaction.go:141-158 | compactL0's calls lead to the machine's listing |
| `TornInstalls.TornDescribes` | engine/compaction.go:141-158 | after any number of an install's calls the lists describe the remaining inputs and the outputs added so far |
| `TornInstalls.CutInstall` | engine/manifest.go:71-88 | a manifest cut at any byte of an install reads as the lists after some number of its calls |
| `TornInstalls.TornReadExact` | engine/compaction.go:141-158 | after any number of the calls, for which keys the listed tables still answer as before |
| `TornInstalls.TornInstallExact` | engine/compaction.go:141-158 | a crash then leaves a read right if and only if the log has the key or the tables still answer for it |
| `TornInstalls.TornInstallLosesAWrite` | engine/compaction.go:141-158 | a run whose write is gone after a crash between the two calls of an install, and there after both |
| `Bloom.SetBitIs` | sstable/bloom.go:47-50 | setting a bit sets that bit and no other |
| `Bloom.DoubleHashing` | sstable/bloom.go:45-51 | the places of a key begin at its first hash and go on by its second, in 32 bits, modulo the number of bits |
| `Bloom.BloomFilter.Add` | sstable/bloom.go:45-51 | all bits of the key are set and none is cleared, in 32-bit arithmetic |
| `Bloom.BloomFilter.MayContain` | sstable/bloom.go:54-63 | true exactly if all bits of the key are set |
| `Bloom.FilterOf` | sstable/writer.go:184-192 | a filter made from all keys has all of them |
| `Bloom.DecodeEncode` | sstable/bloom.go:66-92 | the filter decodes as encoded |
| `SSTableFormat.EntryBack` | sstable/reader.go:220-253 | an entry decodes as written, an empty value as nil |
| `SSTableFormat.BlockBack` | sstable/reader.go:201-256 | a block decodes to its entries wherever it lies in the file |
| `SSTableFormat.IndexBlockBack` | sstable/reader.go:120-171 | the index decodes as written |
| `SSTableFormat.FooterBack` | sstable/reader.go:94-118 | the footer decodes as written, with magic number and version |
| `SSTableFormat.OpenFinished` | sstable/reader.go:37-92 | opening what Finish wrote succeeds, and every block reads back as its entries |
| `SSTableFormat.BlockChecked` | sstable/reader.go:201-218 | bytes that decode as a block lie in the file and end with the number of entries and the checksum of the entry data |
| `SSTableFormat.OpenChecked` | sstable/reader.go:94-171 | a file that opens has a footer with the right checksum, magic number and version, and an index and a filter with the right checksums |
| `SSTableWriter.Writer.Add` | sstable/writer.go:61-96 | the entry is added last, and the block is written out exactly when it reaches the block size |
| `SSTableWriter.Writer.FlushBlock` | sstable/writer.go:99-137 | the pending entries become one more block, with its index entry |
| `SSTableWriter.Writer.Finish` | sstable/writer.go:141-234 | the file of all blocks, and a filter that has every key |
| `SSTableReader.ReadBlock` | sstable/reader.go:201-256 | the decoding loop with its checks, for any bytes |
| `SSTableReader.OpenReader` | sstable/reader.go:37-92 | parses or refuses any bytes as the format says, and takes smallest and largest key from the blocks |
| `SSTableReader.PlaceInBlock` | sstable/iterator.go:42-71 | the first entry not below the target is in the first block whose last key reaches it |
| `SSTableReader.Reader.FindBlock` | sstable/reader.go:270-285 | binary search finds that block |
| `SSTableReader.Reader.Get` | sstable/reader.go:260-304 | filter, binary search and scan are the lookup among all entries; an empty value is found with no value |
| `SSTableIterator.TableIterator.SeekToFirst` | sstable/iterator.go:22-33 | the iterator stands at the first entry |
| `SSTableIterator.TableIterator.Seek` | sstable/iterator.go:36-78 | the iterator stands at the first entry not below the target, across blocks |
| `SSTableIterator.TableIterator.Next` | sstable/iterator.go:81-102 | one entry on, into the next block where one ends |
| `SSTableIterator.TableIterator.Current` | sstable/iterator.go:110-131 | the entry at that place, as stored |
| `SSTables.WriteTable` | engine/engine.go:497-546 | writing sorted entries gives a file that opens to a reader for exactly them, with their first and last key, for any block size |
| `SSTables.OpenTable` | sstable/reader.go:37-92 | any bytes are refused as the format says; a finished file opens to a reader for its entries |
| `SSTables.EmptyValueIsLost` | sstable/reader.go:238-246 | written and decoded, an entry has its value if and only if that is not empty; an empty one is nil but no tombstone |
| `SSTables.TableHit` | sstable/reader.go:260-304 | for values that are not empty, the lookup in the table is the linear search |

## Left out

- Timers, randomised timeouts and every liveness claim: a timeout may fire at any node at any time.
- Persistence of term, vote and Raft log (`raft/raft.go` 705-735, `raft/log.go` 120-203, 303-320): a persisted write is atomic, so a restart keeps exactly these fields.
- Node names and addresses are one number; the transport beyond its four messages, and stopping a node in the middle of a critical section.
- Wrap-around of 64-bit terms, indices, file numbers and offsets.
- I/O errors, partial writes other than a cut file, and concurrent calls that the source serialises by its locks.
- The time after which a caller of Propose gives up waiting; an answer may then find nobody.
- Close while flushes or a compaction are under way: it waits for both loops to end, and is modelled from there on.
- A crash inside a compaction install, and repeated crashes with torn log or manifest tails, are not steps of the engine's machine; `TornInstallExact`, `TornTailHides` and `TornRecordHides` say what they do.
- SnapshotWindow.SnapshotWindowExact: up to the first crash, and with later steps that are harmless in the sense of `EngineMachine.Benign`.
- FlushQueue.DroppedFlushExact: up to the first crash, with compactions that are harmless in the sense of `EngineMachine.Benign`.
- Compaction triggers (`needsCompaction`, `levelTargetSize`): a compaction may start whenever none is running. Tombstones are never dropped, as in the code.
- The memtable's lock and frozen flag; whether it is full is left open.
- Heights of skip-list nodes are arbitrary; checksums and key hashes are arbitrary functions.
- RaftReplica.Raft.ApplyCommitted: one pass with nobody else at work; its interleaving with other steps is in the network's apply steps (`RaftSafety.AppliedInOrder`).
- WalFormat.PayloadBack: for records below 4 GiB, because lengths are cut to 32 bits.
- SSTables.WriteTable: for entries that take less than 1 GiB together, so that every number fits its width.
- EngineObject.Engine.Flush: for memtables below 1 GiB, and without I/O errors; it runs its four parts in a row, the machine interleaves them with other steps.
- EngineClient.Lives: without compactions, and a flush of a memtable of 1 GiB or more does nothing.
- EngineObject.Engine.Durable: not for a manifest that was found with a torn record; `TornRecordHides` says why.
- EngineObject.Open: a torn record in a log file before the last, and in the manifest, is not covered; after a log torn within a record the engine answers, but what is written to it then is lost (`TornTailHides`).
- Compaction is not a method of `EngineObject`, nor is the range read; they are covered by `CompactionRun`, `Reads` and the machine.
- SSTableReader.Reader.Get: for files that Finish wrote; other bytes are covered by OpenReader and ReadBlock only.
- Bloom.BloomFilter.Add: for filters with at least one bit; a decoded filter with none makes the source divide by zero.
- Bloom.BloomFilter.MayContain: likewise.
- Bloom.FilterOf: for fewer than about 429 million keys, beyond which the number of bits wraps around.
- SSTableWriter.Writer.Finish: likewise.
- TableSearch.SortByMinKey: an insertion sort stands for the library's sort; equal keys do not occur.
- Servers, client, dashboards, benchmarks and command line.
