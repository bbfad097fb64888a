# A verified model of MyKV's Raft nodes and KV state machine

MyKV is a key-value store replicated by Raft. This project models, in Dafny, the code that has to
be right for the replicas to agree, and proves what that code guarantees and where it stops
guaranteeing it:

- **The Raft node** (`Raft/Raft.cpp`): elections, the leader's batches and heartbeats,
  AppendEntries1, the nextIndex back-off, commit and apply, persistence. The node lives in a cluster
  of any size, on a network that may lose, delay, duplicate and reorder messages, where a process may
  die between or inside critical sections and come back with what is on its disk.
- **The persister** (`Raft/raft.h`): the write-behind queue under the node.
- **The KV server** (`KvServer/KvServer.cpp`, `op_coder.h`): the command codec, Apply with its dedup
  table, local reads, the wait channels behind PutAppend.
- **The recall engine** (`KvServer/RecallEngine.cpp`): the label, deleted and active bookkeeping and
  the label file, over an index that may answer anything.

The standard for the Raft part is the extended Raft paper (Ongaro and Ousterhout, "In Search of an
Understandable Consensus Algorithm"), sections 5.2 to 5.4.3 and Figures 2 and 3.

## How it is organised

| files | content |
|---|---|
| `RaftTypes`, `RaftHandlers` | the node's fields, and one function per critical section of Raft.cpp |
| `RaftNode` | class `Raft`: the same sections as methods that update fields in place, with the source's loops, each proved equal to its function |
| `Handling` | what each of those sections does, case by case and in full, on every node |
| `Cluster` | messages, events, crashes; `After(n, steps)` is the state after a run of n nodes, `At(n, steps, p)` its state after p steps |
| `Receiver`, `Figure2`, `CommitRule`, `Backoff` | AppendEntries1 against Figure 2, the commit scan, the back-off |
| `Invariants`, `EventsKeep`, `Acknowledgements` | what holds in every run, event by event |
| `SafetyInv`, `SafetyGrowth`, `SafetyEvents`, `SafetyRuns` | what holds in every conforming run |
| `CommittedLength`, `OwnTerm` | two more facts of every run: how far commit indices reach, and where a leader's own entries stand |
| `RunHistory`, `RaftTheorems`, `Validity`, `MatchingRuns`, `ConformingTheorems`, `StableLeader`, `Limits` | the results, stated over whole runs |
| `Progress` | what each event of a run achieves: the vote given, the election won, the command stored, sent, answered, committed and applied |
| `Replication` | that nothing a leader appends is skipped, and that what it counts as held is held |
| `Persistence` | the persister and the durable cell it refines |
| `OpCodec`, `KvStore`, `KvMeaning`, `KvServer`, `EndToEnd` | the state machine on top: what a key holds after a log and what a Get reads, down to equal stores on all replicas and to what an acknowledgement is worth |
| `Recall` | the recall engine |

The state of the cluster carries a history that no node reads: who won which term, the votes cast,
the log of each leader, and who acknowledged what.

## All runs, and conforming runs

The code differs from the Raft paper in two places, and the model follows the code.

- AppendEntries1 overwrites a conflicting entry in place and keeps whatever follows it; the paper
  deletes the rest of the log.
- A follower commits up to `min(leaderCommit, last log index)`; the paper stops at the last new entry.

So the safety results of sections 5.3 and 5.4.3 do not hold of all runs. `Limits.SafetyNeedsC2` is a
run of three nodes and fifteen steps in which two nodes apply different commands at index 1: a new
leader's heartbeat makes a deposed leader commit its own stale entry. `Limits.MatchingNeedsC1` is a run
in which a new leader's batch overwrites the first entry of a deposed leader and leaves the second.

A delivery *lands* if it is accepted, matches at prev, and is not lost with an unflushed write. Of a
delivery that lands one can ask

- C1: no entry of the batch conflicts with the local log, or the local log ends within the batch;
- C2: the new commit index does not pass `max(old commit index, prev + number of entries)`.

`Figure2.RefinesFigure2` shows that C1 and C2 single out exactly the deliveries on which AppendEntries1
leaves the node as Figure 2 prescribes (with a commit index that is never lowered; C2 as stated also
admits the corner in which the commit index already is the last index). What a whole run needs is less:

- Logs match, and terms never decrease along a log, exactly if every delivery that lands meets C1
  (`MatchingRuns.LogMatchingExactly`, `MatchingRuns.TermsNeverDecreaseExactly`).
- Logs match and committed prefixes agree exactly if, besides, each receiver that lives on meets C2 or
  takes over a commit index within what its log has in common with the sender's
  (`ConformingTheorems.SafetyExactly`). Such a run is called *conforming*.

Everything in `RaftTheorems`, `Validity`, `CommittedLength`, `OwnTerm` and `Progress`, and
`Replication.NothingSkipped` and `EndToEnd.RestartRebuildsStore`, holds of all runs; `Replication.CountedIsHeld`
of all runs that meet C1; everything in `ConformingTheorems`, and
`EndToEnd.ReplicatedStore`, of all conforming runs. `StableLeader.StableLeaderSafety` starts from any
state of any run in which one node leads and all logs are prefixes of its log, and assumes nothing about
C1 and C2, before or after.

## Reads that overtake, and are overtaken

Get and Apply take and release the lock of the dedup table between their duplicate check and what they
do next, and run on different threads. `KvStore` and `KvServer` therefore model both one lock at a time,
in every interleaving. Local reads of a server do no harm if

- each recording step is *timely*: it does not find that the table has passed its id, and
- the reads *stay below*: an operation with an id above all ids of its client in the log also has an id
  above all reads that its client has recorded at this server.

With timely steps the second condition is exact (`KvStore.TimelyReadsExactly`); without them
`KvStore.ReadsInvisibleExactly` has the exact condition. `KvStore.KeepsExactly` shows that a guard for
timely steps is what the code would need. `KvStore.LateReadRepeats`, `KvStore.ReadsCanShadow`,
`KvServer.LateReadUncovers` and `KvServer.OkWithoutEffect` are runs in which the lack of either condition
does harm.

## Assumptions

- A1: the sender thread checks that it is leader and builds the arguments of a batch in one step. The
  code drops the lock in between (`Raft/Raft.cpp:1631-1651`).
- A2: the sender loop of a deposed leader has ended before that process is elected again. The latch
  `m_batchRunning`, which is not cleared when the loop ends, is modelled: a process elected a second
  time sends no batches, only heartbeats.
- Every process starts from an empty disk, and disk writes succeed.
- A vote reply reaches only the doElection call that waits for it: the call blocks on its RPCs, so no
  second election of the process overlaps it.
- `std::terminate` (a failed `myAssert`) and an access past `m_logs` are the outcome `Aborted`;
  `RaftTheorems.NoAbort` shows that no run reaches it.

## Model

| member | source | states |
|---|---|---|
| RaftTheorems.ElectionSafety | Raft/Raft.cpp:373-583 | section 5.2: whoever leads a term at one moment and whoever leads it at a later one are the same node; any number of nodes, all runs, crashes at any point |
| RaftTheorems.OneWinnerPerTerm | Raft/Raft.cpp:476-514 | the same for every node that ever took office, even one that died inside the persist of its victory |
| RaftTheorems.OneVotePerTerm | Raft/Raft.cpp:520-583 | two granted replies of one voter in one term name one candidate, and a candidate grants its term to nobody else, across crashes |
| RaftTheorems.NoAbort | Raft/Raft.cpp:477-483 | no assertion of the code can fail in any run: leader twice in a term, equal index and term with another command, matchIndex or commitIndex past the log |
| EventsKeep.NoSecondWin | Raft/Raft.cpp:476-483 | after a win the reset counter cannot reach a majority again from the peers that have not answered yet |
| EventsKeep.TermUntaken | Raft/Raft.cpp:476-485 | a majority of ballots for a candidate in its term means nobody else has won that term |
| RaftTheorems.EntryUniqueness | Raft/Raft.cpp:1108-1113 | across all logs, disks, send buffers and messages of a run, at any two moments, equal index and term mean equal command |
| Validity.NothingInvented | Raft/Raft.cpp:1499-1533 | in every run each command in a log or on an apply channel was accepted by Start of a leader at an earlier step |
| RaftTheorems.LeaderAppendOnly | Raft/Raft.cpp:1499-1533 | between two moments at which a node leads one term its log only grows |
| RaftTheorems.RestartRestores | Raft/Raft.cpp:201-246 | in every state, a process that dies and runs init comes back with the term, vote and log it had, although indices are not stored; snapshots never exist and entry k has index k + 1 |
| RaftTypes.PersistRoundTrip | Raft/Raft.cpp:1178-1222 | readPersist undoes persistDate exactly on logs whose indices count up from the snapshot |
| RaftTheorems.DurableLogNeverShorter | Raft/Raft.cpp:1099-1118 | from one moment of a run to a later one no durable log gets shorter |
| RaftTheorems.AppliesWithoutGaps | Raft/Raft.cpp:1703-1729 | in every state the apply channel has carried indices 1, 2, 3, ... up to lastApplied <= commitIndex <= last log index |
| RaftTheorems.CountersNeverGoBack | Raft/Raft.cpp:1125-1131 | while a process lives its commit index, its last applied index and its applied messages only grow |
| RaftTheorems.RestartReplays | Raft/Raft.cpp:1703-1729 | in every run, while the applied prefix of its log stays as it is, whatever a node applies after restarts agrees with what it applied before |
| EventsKeep.Reachable | Raft/Raft.cpp:373-583 | the invariant of all runs: votes, terms, leaders' logs, known entries, counters, well-formed messages |
| EventsKeep.EventSound | Raft/Raft.cpp:444-516 | every event, on every reachable state, runs to its end and keeps that invariant |
| EventsKeep.AppendMatches | Raft/Raft.cpp:1097-1134 | a batch that matches at prev is merged and acknowledged; no abort of AppendEntries1 is reachable |
| EventsKeep.BackoffBounds | Raft/Raft.cpp:1136-1147 | a rejection points at or before prev, never below 1 |
| Acknowledgements.AlwaysAcked | Raft/Raft.cpp:1129-1134 | every positive reply to a batch, and every entry a leader appends, is an acknowledgement on record |
| MatchingRuns.LogMatchingExactly | Raft/Raft.cpp:1097-1118 | section 5.3: all logs of all nodes match at any two moments of a run exactly when every batch that lands meets C1; nothing is asked of commit indices |
| MatchingRuns.TermsNeverDecreaseExactly | Raft/Raft.cpp:1097-1118 | and terms never decrease along any log exactly under the same condition |
| MatchingRuns.LogMatching | Raft/Raft.cpp:153-167 | so where batches that land meet C1, two logs, of any nodes at any two moments, that agree on the term at an index agree on every entry up to it |
| MatchingRuns.TermsNeverDecrease | Raft/Raft.cpp:1097-1118 | and terms never decrease along a log |
| ConformingTheorems.SafetyExactly | Raft/Raft.cpp:1097-1131 | logs match and committed prefixes agree, for all nodes at any two moments, exactly in conforming runs: C1 at every batch that lands, and at each receiver that lives on C2 or a commit index within what it shares with the sender |
| ConformingTheorems.SentBefore | Raft/Raft.cpp:1618-1651 | in every run each message with a batch or a heartbeat was sent at an earlier moment by a node that led its term and had committed exactly what it says |
| ConformingTheorems.LeaderHasCommitted | Raft/Raft.cpp:130-139 | Leader Completeness: what a node has committed is in the log of every node that leads, then or later, in that node's term or a later one |
| SafetyInv.LeaderCompleteness | Raft/Raft.cpp:982-1003 | an entry of the leader's own term that a majority has acknowledged is in the log of every leader of a later term |
| ConformingTheorems.CommittedPrefixesAgree | Raft/Raft.cpp:1125-1131 | whatever two nodes have committed, at any two moments, they agree on |
| ConformingTheorems.StateMachineSafety | Raft/Raft.cpp:1703-1729 | what any two processes have pushed on their apply channels, at any two moments, are prefixes of one another |
| ConformingTheorems.CommittedIsDurable | Raft/Raft.cpp:1224-1228 | whatever any node has committed at some moment is on the disks of a majority then and at every later moment |
| SafetyRuns.ReachableSafe | Raft/Raft.cpp:1049-1149 | the invariant of all conforming runs: logs trace their leaders' logs, acknowledged prefixes are kept, votes hand them on, commit indices are covered by majorities |
| SafetyEvents.UpToDateKeeps | Raft/Raft.cpp:130-139 | section 5.4.1: an acknowledged prefix of the voter is in the log of a candidate that is at least as up to date, unless a leader in between lost it |
| SafetyRuns.ConformingMerge | Raft/Raft.cpp:1097-1118 | under C1 the receiver ends with the sender's log up to the end of the batch, or keeps its own |
| SafetyRuns.CommitChosen | Raft/Raft.cpp:1655-1658 | with at most three nodes, the counter of one batch reaching the majority means a majority holds the entry |
| StableLeader.StableLeaderSafety | Raft/Raft.cpp:714-730 | whatever the past: from a state in which one node leads and all logs are prefixes of its log, while no further election is won and no node accepts entries of another term, under any loss, duplication and reordering and restarts of any node, logs stay prefixes of the leader's and whatever a node has committed is on a majority of disks; apply channels that agreed with their logs at the start stay prefixes of one another |
| StableLeader.StableDeliveries | Raft/Raft.cpp:1571-1660 | each delivery of such a run is refused, or empty, or finds a receiver whose log is a prefix of the sender's |
| CommittedLength.CommitsAreBacked | Raft/Raft.cpp:1125-1131 | in every run a majority of the disks holds at least as many entries as any node has committed |
| Handling.VoteExactly | Raft/Raft.cpp:520-583 | on every node: a vote is granted exactly to a candidate of this term or a newer one whose last entry is at least as up to date, unless the vote of this very term is with another; a newer term frees the vote even if it is then refused |
| Handling.VoteReplyExactly | Raft/Raft.cpp:455-516 | exactly a granted vote of the current term is counted, exactly one that completes a majority wins, and a leader that counts a majority again aborts |
| Handling.AppendExactly | Raft/Raft.cpp:1049-1149 | a batch is accepted exactly if it is not stale and matches at prev; the log, the commit index and the hint in each case; a newer term frees the vote |
| Handling.BackoffExactly | Raft/Raft.cpp:1136-1147 | the scan stops at the first entry of the run of equal terms that ends at prev, or at prev if the run reaches the snapshot |
| Handling.ReplyExactly | Raft/Raft.cpp:845-1003 | who acts on a reply, where nextIndex and matchIndex go, that the commit index moves exactly for a majority and a batch that ends in the current term, and then to the end of the batch; exactly when the process dies |
| Handling.CounterExactly | Raft/Raft.cpp:982-1003 | the counter starts again exactly when it has reached a majority |
| Handling.StartExactly | Raft/Raft.cpp:1499-1552 | Start accepts exactly at a leader: one entry, next index, current term, at the end of the log and of every peer's buffer |
| Handling.ApplyExactly | Raft/Raft.cpp:1703-1729 | one round pushes exactly the entries from lastApplied to the commit index, in order, from whatever position |
| Handling.BootExactly | Raft/Raft.cpp:201-246 | what a process starts with, field by field: the stored term, vote and log, nothing led, committed or applied |
| Progress.CampaignStarts | Raft/Raft.cpp:373-440 | in every run an election takes the next term, votes for itself on disk and asks with the last index and term of its log |
| Progress.VoteIsGivenExactly | Raft/Raft.cpp:520-583 | section 5.4.1: in every run a vote request is granted exactly if term, log and earlier vote allow; every free vote is given, the vote of a newer term is free, and it is on disk before the reply is out |
| Progress.WinsExactly | Raft/Raft.cpp:455-516 | in every run a candidate becomes leader exactly with the reply that makes it and the distinct nodes that voted for it a majority, and what it knows of its peers then |
| Progress.CommandIsStored | Raft/Raft.cpp:1499-1552 | in every run a leader has a command at the next index of its log, on disk and at the end of each peer's buffer; another node changes nothing |
| Progress.BatchIsSent | Raft/Raft.cpp:1590-1651 | in every run a batch is a stretch of the leader's log, the first entries of the buffer, with the term of the entry before it; exactly these leave the buffer, and nothing else changes |
| Progress.HeartbeatsAreSent | Raft/Raft.cpp:661-730 | in every run a heartbeat goes to each peer and nobody else, at its nextIndex, and the leader stays as it is |
| Progress.BatchIsAnswered | Raft/Raft.cpp:1049-1149 | in every run the answer and what the receiver becomes: accepted exactly if not stale and the log has the sender's term at prev; then merged, else with the start of the run of equal terms |
| Progress.AnswerIsCounted | Raft/Raft.cpp:845-1003 | in every run what an answer changes at the node that gets it, and nothing else |
| Progress.FirstAnswerCommits | Raft/Raft.cpp:982-1003 | in every run of two or three nodes a leader commits all of a batch of its term at its first positive answer, whatever the length of the batch; with more nodes it commits nothing |
| Progress.AppliesAll | Raft/Raft.cpp:1703-1729 | in every run, after a round of the applier, what has been applied reaches the commit index: one message per log entry, in order, and nothing else has changed |
| Progress.SenderEnds | Raft/Raft.cpp:1571-1584 | the sender thread of a deposed leader ends, and nothing else happens |
| Replication.NothingSkipped | Raft/Raft.cpp:1538-1651 | in every run, while its sender thread runs, each entry a leader has appended in its term waits in the buffer of each peer or has been sent to it |
| Replication.CountedIsHeld | Raft/Raft.cpp:956-979 | wherever logs match, a peer that has not moved on to a newer term holds the first matchIndex entries of the leader's log |
| Limits.SafetyNeedsC2 | Raft/Raft.cpp:1125-1127 | State Machine Safety fails on a concrete run of three nodes whose only non-conforming delivery is a heartbeat |
| Limits.MatchingNeedsC1 | Raft/Raft.cpp:1114-1116 | Log Matching and nondecreasing terms fail on a concrete run whose only delivery violates C1 and not C2 |
| Limits.NothingCommits | Raft/Raft.cpp:1655-1658 | with other than two or three nodes no run commits or applies anything |
| Limits.CommitsExactly | Raft/Raft.cpp:984-997 | some run commits something exactly with two or three nodes |
| Receiver.OverwriteMerges | Raft/Raft.cpp:1099-1118 | the loop aborts exactly on equal index and term with another command; otherwise the batch stands at its place, and entries before and beyond it are unchanged |
| Figure2.RefinesFigure2 | Raft/Raft.cpp:1049-1149 | AppendEntries1 answers with the term and success of Figure 2 on every delivery, and leaves the node as Figure 2 prescribes exactly when the delivery is refused, or C1 and C2 hold; it aborts exactly on an accepted batch that clashes |
| Figure2.SameLogExactlyWhenC1 | Raft/Raft.cpp:1099-1118 | the overwriting and the truncating receiver leave the same log exactly when C1 holds |
| Figure2.TruncatingLength | Raft/Raft.cpp:1099-1118 | the receiver of Figure 2 shortens the log exactly on a conflict |
| CommitRule.ScanIsRightExactly | Raft/Raft.cpp:174-193 | the downward scan with its early break yields the largest majority-held index of the current term, or no change, exactly when no entry of the current term lies below the first majority-held index of another term |
| OwnTerm.ScanIsRightAtLeaders | Raft/Raft.cpp:174-193 | section 5.4.2: at every leader of every run, conforming or not, the scan yields exactly the largest majority-held index of the current term, or no change |
| OwnTerm.AlwaysOwnLast | Raft/Raft.cpp:1499-1533 | in every run the entries of a leader's own term are the end of its log |
| CommitRule.CounterMeansMajority | Raft/Raft.cpp:956-1003 | when the counter of a batch advances the commit index, matchIndex shows a majority for it, and the entry is of the current term |
| Backoff.BackoffBound | Raft/Raft.cpp:937-953 | with one probe outstanding and a fixed follower log, a match is found after at most one rejection per run of equal terms in the follower's log, plus one |
| Backoff.RejectionLowers | Raft/Raft.cpp:1083-1147 | every rejected heartbeat strictly lowers nextIndex and keeps it at least 1 |
| Backoff.ProbeAnswer | Raft/Raft.cpp:1136-1147 | a heartbeat is rejected exactly when the logs do not match at prev; the answer is one past a short log, or the start of the run of equal terms at prev |
| RaftNode.Raft.constructor | Raft/Raft.cpp:201-246 | init: the fields as Boot prescribes, from the raft state file |
| RaftNode.Raft.PersistDate | Raft/Raft.cpp:1178-1196 | the stored image: term, vote, snapshot position, and per entry term and command |
| RaftNode.Raft.Persist | Raft/Raft.cpp:1224-1228 | after persist the file holds the current state |
| RaftNode.Raft.ReadPersist | Raft/Raft.cpp:1198-1222 | restores the image, counting indices up from the snapshot, and leaves the other fields alone |
| RaftNode.Raft.DoElection | Raft/Raft.cpp:373-440 | unless leader: a new term, a vote for itself on disk, one vote counted, and the log position for its requests |
| RaftNode.Raft.RequestVote1 | Raft/Raft.cpp:520-583 | the reply and the durable state after a vote request, in every branch |
| RaftNode.Raft.OnVoteReply | Raft/Raft.cpp:455-516 | the node after a vote reply: step down, ignore, count, or take office; dead exactly when a leader counts a majority again |
| RaftNode.Raft.TakeOffice | Raft/Raft.cpp:485-506 | leader, all nextIndex past the log, all matchIndex 0, state on disk, sender started unless the latch is set |
| RaftNode.Raft.Start | Raft/Raft.cpp:1499-1533 | refused unless leader; otherwise the entry is appended, on disk, and buffered for every peer |
| RaftNode.Raft.AddToPendingBatch | Raft/Raft.cpp:1538-1552 | every buffer but the leader's own gets the entry |
| RaftNode.Raft.SendBatch | Raft/Raft.cpp:1590-1651 | the arguments of a batch: prev just before its first entry, its term from the log, the entries in order; they leave the buffer |
| RaftNode.Raft.DoHeartBeat | Raft/Raft.cpp:661-730 | nextIndex is at least 1 afterwards, and every peer is sent an empty batch at its own nextIndex |
| RaftNode.Raft.AppendEntries1 | Raft/Raft.cpp:1049-1149 | reply, node and file after a delivery, in every branch; dead exactly when the model aborts |
| RaftNode.Raft.MergeBatch | Raft/Raft.cpp:1097-1134 | the loop over the batch and the follower's commit |
| RaftNode.Raft.BackOff | Raft/Raft.cpp:1136-1147 | the scan for the start of the run of equal terms |
| RaftNode.Raft.HandleTermMismatch | Raft/Raft.cpp:907-926 | steps down, on disk, for a newer term; stops for any other term than its own |
| RaftNode.Raft.HandleLogMismatch | Raft/Raft.cpp:937-953 | nextIndex takes the follower's hint, at least 1 and past the snapshot, unless the hint is -100 |
| RaftNode.Raft.UpdatePeerSyncState | Raft/Raft.cpp:956-979 | matchIndex takes the larger value, nextIndex is one past it; dead exactly when matchIndex passes the log by more than one |
| RaftNode.Raft.TryUpdateCommitIndex | Raft/Raft.cpp:982-1003 | below the majority nothing; otherwise the counter restarts and an entry of the current term is committed |
| RaftNode.Raft.OnAppendReply | Raft/Raft.cpp:845-882 | the node after an AppendEntries reply, in every branch |
| RaftNode.Raft.LeaderUpdateCommitIndex | Raft/Raft.cpp:174-193 | the scan stops at the first index that a majority holds and commits it if it is of the current term |
| RaftNode.Raft.ApplierTick | Raft/Raft.cpp:1703-1729 | pushes the entries between lastApplied and commitIndex, in order |
| Persistence.FlushedIsOnDisk | Raft/raft.h:237-242 | when WaitFlushed(seq) returns, the raft file holds a save numbered at least seq |
| Persistence.CrashConsistent | Raft/raft.h:114-166 | at every moment the raft file is what a durable cell holds after r saves and the snapshot what it holds after s >= r saves, both no older than what was flushed; r and s never go back while the process lives |
| Persistence.AtomicWithoutSnapshots | Raft/raft.h:191-236 | without snapshots the disk goes through states of the durable cell after r saves, in order: coalesced write-behind refines atomic writes |
| Persistence.QuietIsExact | Raft/raft.h:158-164 | once all saves are flushed the disk is the durable cell after all of them |
| Persistence.PersistIsAtomic | Raft/raft.h:218-242 | during one save the disk is the old or the new state, and the new one when WaitFlushed returns: what the cluster model assumes of a crash inside persist |
| Persistence.WorkerCatchesUp | Raft/raft.h:114-166 | from any moment, a worker that ends its pass and makes another one has written and published every save made before, with or without a snapshot among them |
| Persistence.Persister.Save | Raft/raft.h:191-216 | queues both payloads under the next number |
| Persistence.Persister.SaveRaftState | Raft/raft.h:218-236 | queues the raft state under the next number and leaves a queued snapshot alone |
| Persistence.Persister.TakePending | Raft/raft.h:121-150 | the worker takes the latest payloads and their number, and clears the flags |
| Persistence.Persister.WriteSnapshotFile | Raft/raft.h:152-154 | the snapshot is written first |
| Persistence.Persister.WriteRaftFile | Raft/raft.h:155-157 | then the raft state |
| Persistence.Persister.Flushed | Raft/raft.h:158-164 | then the number is published, never lowered |
| OpCodec.RoundTripExactly | KvServer/op_coder.h:7-49 | decodeOp undoes encodeOp exactly on operations whose fields have at most 2^30 bytes, for every 32-bit request id and arbitrary bytes |
| OpCodec.EncodeSameExactly | KvServer/op_coder.h:7-21 | two operations have the same encoding exactly if they are the same once every field is cut to its length modulo 2^32 |
| OpCodec.EncodeInjective | KvServer/op_coder.h:7-21 | different operations whose fields have less than 2^32 bytes have different encodings |
| OpCodec.LongFieldsCollide | KvServer/op_coder.h:10-14 | not so for a field of 2^32 bytes, whose length is written as 0 |
| OpCodec.ReadsExactly | KvServer/op_coder.h:28-36 | on any bytes a field is read exactly if they start with the encoding of one of at most 2^30 bytes, and then it is that one |
| OpCodec.DecodeCut | KvServer/op_coder.h:23-49 | what decodeOp makes of an encoding cut off anywhere: the complete fields, the cut one filled up with zeros, nothing of the rest |
| OpCodec.OverlongStops | KvServer/op_coder.h:33 | a field that claims more than 2^30 bytes ends the decoding |
| OpCodec.StoiReads | KvServer/op_coder.h:42-48 | white space, a sign, digits, and a rest that is ignored; -1 outside 32 bits |
| OpCodec.StoiFails | KvServer/op_coder.h:42-48 | no digits make the request id -1 |
| OpCodec.StoiOfToString | KvServer/op_coder.h:42-48 | the decimal request id reads back, negatives included |
| OpCodec.EncodeOp | KvServer/op_coder.h:7-21 | five length-prefixed fields in order |
| OpCodec.DecodeOp | KvServer/op_coder.h:23-49 | the fields read so far, for any input: cut short, over-long or with a bad request id |
| OpCodec.Reader.ReadFieldInto | KvServer/op_coder.h:28-36 | one field from the cursor on, and where the cursor stops |
| KvStore.DedupIsExact | KvServer/KvServer.cpp:354-389 | folding Apply over any log gives the store that executing only the operations with an id above all earlier ids of their client gives, without a dedup table; the table holds each client's highest id |
| KvStore.AtMostOnce | KvServer/KvServer.cpp:111-123 | among the operations that take effect no request id of a client occurs twice |
| KvStore.RetriesAreInvisible | KvServer/KvServer.cpp:354-389 | another copy of an operation, anywhere later in the log, changes nothing at all |
| KvStore.TimelyReadsExactly | KvServer/KvServer.cpp:161-231 | if no recording step finds that the table has passed its id, local reads change no decision of Apply exactly when every operation whose id is above all ids of its client in the log has an id above all reads its client has recorded before |
| KvStore.ReadsInvisibleExactly | KvServer/KvServer.cpp:161-231 | in every interleaving of the steps of Get and Apply, each operation of the log takes effect exactly if it would without the reads, for all operations, exactly when, of each operation checked against a record that a read has left, its id is above the read's if and only if it is above all ids of its client in the log |
| KvStore.ReadsLeaveStoreAlone | KvServer/KvServer.cpp:161-231 | then, between two messages, the store is the one the log alone gives |
| KvStore.KeepsExactly | KvServer/KvServer.cpp:118-123 | a step keeps every request the table covers exactly when it does not record an id below the one on record |
| KvStore.NeverForgetsExactly | KvServer/KvServer.cpp:118-123 | the table never forgets in a run exactly when each recording step meets that guard |
| KvStore.CoveredExactly | KvServer/KvServer.cpp:111-123 | with timely steps the table covers a request exactly if a read recorded at this server or an operation of the log carries an id of its client at least as high |
| KvStore.UninterruptedApply | KvServer/KvServer.cpp:354-389 | the steps of Apply, if nothing comes in between, are ApplyOp |
| KvStore.UninterruptedGet | KvServer/KvServer.cpp:161-231 | the steps of Get, if nothing comes in between, are one lookup and one record |
| KvMeaning.KeyAfterLog | KvServer/KvServer.cpp:100-109 | after any log a key holds exactly the value of the last fresh Put on it followed, in log order, by those of the fresh Appends after it, or the fresh Appends alone; it is absent exactly if no fresh operation writes it |
| KvMeaning.ExecuteExactly | KvServer/KvServer.cpp:100-109 | one operation, seen from any key: a Put stores its value, an Append puts its value behind the old one, and no other key changes |
| KvMeaning.RecordAfterLog | KvServer/KvServer.cpp:354-389 | after any log a client's record is that of its last fresh operation: its id, and for a Get what the log had left under its key then |
| KvMeaning.GetExactly | KvServer/KvServer.cpp:161-231 | uninterrupted: a duplicate gets the recorded value, WrongLeader is answered exactly by a non-leader that has committed nothing, any other Get reads its key |
| KvMeaning.GetAnswers | KvServer/KvServer.cpp:161-231 | in every interleaving a Get that is no duplicate answers OK with exactly what the store holds at its lookup, or NoKey exactly if the key is absent then, and records that |
| KvMeaning.RepeatedGetAnswers | KvServer/KvServer.cpp:171-180 | in every interleaving a repeated Get whose record is still its own is answered OK with the value recorded the first time |
| KvMeaning.StoreShowsLog | KvServer/KvServer.cpp:354-389 | with harmless reads the store at any moment holds under each key what the operations executed so far leave under it |
| KvMeaning.GetReadsLog | KvServer/KvServer.cpp:161-231 | so a Get answers OK with a value exactly if the operations that took effect before its lookup leave that value: a Get after a Put reads it |
| KvStore.ReadsCanShadow | KvServer/KvServer.cpp:219-230 | otherwise replicas can diverge: a recorded read makes one server drop a Put that another applies |
| KvStore.LateReadRepeats | KvServer/KvServer.cpp:199-230 | a read recorded after a later Append of its client makes the server execute a retried copy of the Append, although the read's id is below every id in the log |
| KvServer.KvServer.Apply | KvServer/KvServer.cpp:354-398 | the KV state and the wait channel of the index after one command, if nothing comes in between |
| KvServer.KvServer.BeginOp | KvServer/KvServer.cpp:359 | the duplicate check of Apply |
| KvServer.KvServer.RunOp | KvServer/KvServer.cpp:360-384 | the execution, with nothing recorded yet |
| KvServer.KvServer.RecordOp | KvServer/KvServer.cpp:118-123 | the recording, whatever the table holds by then |
| KvServer.KvServer.Announce | KvServer/KvServer.cpp:391-398 | the operation is pushed on the channel of its index, if there is one |
| KvServer.KvServer.Get | KvServer/KvServer.cpp:161-231 | answer and dedup table, on a leader and on any other node, if nothing comes in between |
| KvServer.KvServer.CheckGet | KvServer/KvServer.cpp:170-217 | the duplicate check and the leader test: a refusal, a duplicate, or a read under way |
| KvServer.KvServer.AnswerCached | KvServer/KvServer.cpp:171-180 | the answer to a duplicate, under a lock of its own: whatever the client's record holds by then |
| KvServer.KvServer.LookUpGet | KvServer/KvServer.cpp:219-221 | what the key holds at that moment |
| KvServer.KvServer.RecordGet | KvServer/KvServer.cpp:222-230 | the answer, and the recording whatever the table holds by then |
| KvServer.KvServer.ExecutePutAppendOnKVDB | KvServer/KvServer.cpp:100-109 | Put replaces, Append extends or creates, anything else changes nothing |
| KvServer.KvServer.IfRequestDuplicate | KvServer/KvServer.cpp:111-116 | a request is a duplicate exactly if its client is on record with an id at least as high |
| KvServer.KvServer.RecordRequestResult | KvServer/KvServer.cpp:118-123 | the record of the client is replaced, the others are untouched |
| KvServer.KvServer.Register | KvServer/KvServer.cpp:251-258 | the caller finds the channel of its index, or an empty new one |
| KvServer.KvServer.Finish | KvServer/KvServer.cpp:260-271 | OK exactly if the popped operation is the caller's, or on a timeout if the dedup table covers it |
| KvServer.ApplyEnds | KvServer/KvServer.cpp:391-398 | in every interleaving, when Apply ends for an index, whoever waits for that index has exactly the operation at it to pop and can be woken; all other channels stay as they are |
| KvServer.OneWaiterOnePush | KvServer/KvServer.cpp:251-258 | in every interleaving each log index has at most one waiting call and one push in the life of a process |
| KvServer.OkMeansCovered | KvServer/KvServer.cpp:260-271 | in a run whose table never forgets, an OK means the dedup table covers the request, then and ever after |
| KvServer.WokenExactly | KvServer/KvServer.cpp:260-271 | in every run a caller that is woken gets OK exactly if its request stands at its own index of the log |
| KvServer.TimedOutExactly | KvServer/KvServer.cpp:260-263 | in a run whose table never forgets a caller that times out gets OK exactly if its request is in the log or its client has gone past it, with a higher id in the log or a read recorded here with no lower one |
| KvServer.OkMeansLogged | KvServer/KvServer.cpp:260-271 | so in such a run an OK means that the request is in the log, unless its client has gone past it |
| KvServer.OkWithoutEffect | KvServer/KvServer.cpp:260-263 | and then it may not: a Put is acknowledged before anything is applied, and dropped when it arrives |
| KvServer.NeverForgetsExactly | KvServer/KvServer.cpp:118-123 | the table of a process never forgets in a run exactly when no recording step finds that the table has passed its id |
| KvServer.LateReadUncovers | KvServer/KvServer.cpp:219-230 | a read recorded after the table has passed its id takes the table back below an acknowledged request |
| EndToEnd.ReplicatedStore | KvServer/KvServer.cpp:354-389 | in a conforming run any two servers, replicas or one node before and after a restart, however far each is behind its apply channel, have worked off the same operations in the same order, one perhaps fewer; if equally many, they hold the same store, in every interleaving of Apply and harmless local reads |
| EndToEnd.RestartRebuildsStore | KvServer/KvServer.cpp:354-389 | in every run the same holds of a node before and after restarts, if the applied prefix of its log has stayed as it was |
| EndToEnd.LoggedIsSecure | KvServer/KvServer.cpp:354-389 | in a conforming run each operation that a server has worked off stands at its index in the log of every node that leads, then or later, in that term or a later one, and on the disks of a majority, then and ever after |
| EndToEnd.WokenIsSecure | KvServer/KvServer.cpp:260-271 | so a PutAppend that is woken and answered OK stands at its own index in all of them |
| EndToEnd.OkIsSecure | KvServer/KvServer.cpp:260-271 | and any OK, if the table of its server never forgets, means the same of some index, unless the client has gone past the request |
| Recall.SearchReturnsPresent | KvServer/RecallEngine.cpp:115-162 | after any adds, upserts, deletes and restarts of items with different hashes, whatever the index reports, a search returns only items whose latest operation is not a delete |
| Recall.VisibleExactly | KvServer/RecallEngine.cpp:46-113 | while the items of a run have different hashes, the tables the items share hold for each exactly the standing (unknown, shown, deleted, or deleted and reloaded) that its own operations and the restarts give it; it is visible exactly if that is shown |
| Recall.NextStands | KvServer/RecallEngine.cpp:46-113 | what each operation does to the standing of its own item, and nothing to any other; an add of a deleted item is ignored while its label is active |
| Recall.SharedLabelShows | KvServer/RecallEngine.cpp:68-113 | two items with one hash: after both are updated and deleted, in this order, a search still returns the second |
| Recall.SomeHashKeepsApart | KvServer/RecallEngine.cpp:8-12 | any items, up to the number of labels, can have different hashes |
| Recall.AddAfterRestartIsLost | KvServer/RecallEngine.cpp:243-247 | whatever the hash, after a delete and a restart an add is ignored and its item stays hidden |
| Recall.FilterVisible | KvServer/RecallEngine.cpp:147-156 | every result is a visible item with a hit on its label |
| Recall.FilterComplete | KvServer/RecallEngine.cpp:147-156 | every hit on the label of a visible item is a result |
| Recall.FilterInOrder | KvServer/RecallEngine.cpp:147-156 | the results are the hits with a label in use and not deleted, in their order, one each |
| Recall.FileRoundTrip | KvServer/RecallEngine.cpp:180-264 | the label file restores the label map exactly and adds exactly the deleted set to the engine's own, in whatever order they were written; every label comes back active |
| Recall.SavedFileLoadsExactly | KvServer/RecallEngine.cpp:180-264 | a fresh engine that loads what saveIndex wrote has the tables of the engine that wrote it exactly if all counts and item id lengths fit a signed integer of 32 bits; and then a used engine has them too and keeps its deleted items besides |
| Recall.RecallEngine.AddPoint | KvServer/RecallEngine.cpp:46-66 | the three tables after addPoint |
| Recall.RecallEngine.UpsertPoint | KvServer/RecallEngine.cpp:68-92 | the three tables after upsertPoint |
| Recall.RecallEngine.DeletePoint | KvServer/RecallEngine.cpp:94-113 | the three tables after deletePoint |
| Recall.RecallEngine.SearchTopK | KvServer/RecallEngine.cpp:141-156 | the results for any list of hits |
| Recall.RecallEngine.SaveIndex | KvServer/RecallEngine.cpp:185-207 | the file spells out the two tables, each entry once, in some order, sizes cast to 32 bits and item ids cut to theirs; unspecified exactly if a cast size is negative, which the library's write does not allow for |
| Recall.RecallEngine.LoadIndex | KvServer/RecallEngine.cpp:225-258 | the tables a file spells out, for any file and any engine: a short read gives zero bytes, a negative length fails, items deleted before stay deleted |

## Left out

- RaftTheorems.NoAbort: covers the assertions and index accesses of the modelled sections, not exceptions of the libraries they call.
- ConformingTheorems.StateMachineSafety: needs a conforming run, because it is false of all runs (`Limits.SafetyNeedsC2`); `ConformingTheorems.SafetyExactly` says exactly in which runs logs match and committed prefixes agree.
- KvServer.OkMeansCovered: needs a run whose table never forgets, because it is false otherwise (`KvServer.LateReadUncovers`); `KvServer.NeverForgetsExactly` says exactly which runs those are.
- EndToEnd.ReplicatedStore: equal stores need harmless reads, because they differ otherwise (`KvStore.ReadsCanShadow`, `KvStore.LateReadRepeats`); `KvStore.ReadsInvisibleExactly` and `KvStore.TimelyReadsExactly` say exactly when the reads change no decision.
- KvServer.OkMeansLogged: needs a run whose table never forgets, and then allows a client that has gone past its request, because an OK means no more (`KvServer.OkWithoutEffect`).
- Snapshots and InstallSnapshot: nothing in the code creates a snapshot; the fields are kept and proved to stay 0.
- leaderUpdateCommitIndex is proved on its own; its only caller is the answer to a snapshot, which never comes.
- The pipeline window, pre-election, ReadIndex and flushPendingEntries: disabled or never called; the in-flight map stays empty.
- Timers, sleeps, random timeouts and batch-size thresholds: any step that is possible may happen at any time, and a batch may have any size.
- Liveness: a lost batch is never sent again and heartbeats carry no entries, so nothing is claimed about progress.
- Widths of machine integers, except the lengths and the request id in the codec and the sizes in the label file.
- The reply fields voteState, appState and batchId, which no modelled branch reads for its result.
- A crash of a critical section between its memory updates and its persist loses the same state as a crash before the section; the node keeps its lock until persist returns, so nobody sees the difference.
- The persister's in-memory copies, which only init reads, and its shutdown.
- Boost serialization, the skip list and hnswlib: an exact image, a finite map in which a second insert replaces the value, and an index that may report any hits. hnswlib throws on some operations (for instance adding a point again after marking it deleted); the model covers calls that return.
- std::hash is any function from byte strings to 64-bit labels; `Recall.SearchReturnsPresent` and `Recall.VisibleExactly` are about runs whose items have different hashes (`Recall.SharedLabelShows` is one whose items have not). The embedding vectors and scores are not interpreted.
- Agreement between the recall index and the KV store: PutFeature and DeleteFeature reach ExecutePutAppendOnKVDB, which acts on Put and Append only.
- Clients, RPC transport, service discovery and configuration.
- The project README promises Get, Put and Delete; the code has no Delete for keys, so the model has none.
