/** Class Raft (Raft/Raft.cpp) in its own form: fields updated in place, one method per critical
    section. Each method is proved to leave the node that RaftHandlers prescribes. A method that
    returns alive == false stands for a process that called std::terminate. */
module RaftNode {
  import opened Bytes
  import opened RaftTypes
  import opened RaftHandlers
  import opened CommitRule

  class Raft {
    const me: int
    const peers: nat
    var currentTerm: int
    var votedFor: int
    var status: Status
    var logs: seq<Entry>
    var snapIndex: int
    var snapTerm: int
    var commitIndex: int
    var lastApplied: int
    var nextIndex: seq<int>
    var matchIndex: seq<int>
    var pending: seq<seq<Entry>>
    var batchRunning: bool
    var senderAlive: bool
    var election: Election
    var applied: seq<ApplyMsg>
    var disk: Image

    /** The state as one value; `disk`, the raft state file, is apart. */
    function View(): Node
      reads this
    {
      Node(me, peers, currentTerm, votedFor, status, logs, snapIndex, snapTerm, commitIndex, lastApplied,
           nextIndex, matchIndex, pending, batchRunning, senderAlive, election, applied)
    }

    predicate Valid()
      reads this
    {
      |nextIndex| == peers && |matchIndex| == peers && |pending| == peers
    }

    /** init */
    constructor (peers: nat, me: int, file: Image)
      ensures Valid() && View() == Boot(peers, me, file) && disk == file
    {
      this.me, this.peers := me, peers;
      currentTerm, status, commitIndex, lastApplied := 0, Follower, 0, 0;
      logs, votedFor, snapIndex, snapTerm := [], -1, 0, 0;
      nextIndex, matchIndex, pending := [], [], seq(peers, _ => []);
      batchRunning, senderAlive, election, applied := false, false, NoElection, [];
      disk := file;
      new;
      for i := 0 to peers
        invariant |nextIndex| == |matchIndex| == i
        invariant forall p :: 0 <= p < i ==> nextIndex[p] == 0 && matchIndex[p] == 0
        invariant View() == Blank(peers, me).(nextIndex := nextIndex, matchIndex := matchIndex) && disk == file
      {
        nextIndex, matchIndex := nextIndex + [0], matchIndex + [0];
      }
      assert View() == Blank(peers, me);
      ReadPersist(file);
      if snapIndex > 0 {
        lastApplied := snapIndex;
      }
    }

    /** persistDate: the log is stored without its indices. */
    method PersistDate() returns (data: Image)
      ensures data == PersistData(View())
    {
      var saved: seq<SavedEntry> := [];
      for i := 0 to |logs|
        invariant |saved| == i
        invariant forall k :: 0 <= k < i ==> saved[k] == SavedEntry(logs[k].term, logs[k].command)
      {
        saved := saved + [SavedEntry(logs[i].term, logs[i].command)];
      }
      data := Image(currentTerm, votedFor, snapIndex, snapTerm, saved);
    }

    /** persist: returns when the file holds the state. */
    method Persist()
      modifies this`disk
      ensures disk == PersistData(View())
    {
      disk := PersistDate();
    }

    /** readPersist: indices are counted up from the snapshot. */
    method ReadPersist(data: Image)
      requires Valid()
      modifies this
      ensures Valid() && View() == RaftTypes.ReadPersist(old(View()), data) && disk == old(disk)
    {
      currentTerm, votedFor := data.currentTerm, data.votedFor;
      snapIndex, snapTerm := data.snapIndex, data.snapTerm;
      logs := [];
      ghost var x := View();
      var index := snapIndex;
      for i := 0 to |data.logs|
        invariant index == data.snapIndex + i && |logs| == i
        invariant forall k :: 0 <= k < i ==>
                    logs[k] == Entry(data.snapIndex + 1 + k, data.logs[k].term, data.logs[k].command)
        invariant View() == x.(logs := logs) && disk == old(disk)
      {
        index := index + 1;
        logs := logs + [Entry(index, data.logs[i].term, data.logs[i].command)];
      }
    }

    // -------------------------------------------------------------- election

    /** The critical section of doElection; the snapshot it takes for its RequestVote calls. */
    method DoElection() returns (started: bool, term: int, lastIndex: int, lastTerm: int)
      requires Valid()
      modifies this
      ensures Valid() && View() == RaftHandlers.DoElection(old(View()))
      ensures started == (old(status) != Leader) && (started ==> disk == PersistData(View()))
      ensures started ==>
        term == currentTerm && lastIndex == LastLogIndex(View()) && lastTerm == LastLogTerm(View())
    {
      hide SavedLog, LastLogIndex, LastLogTerm;
      if status == Leader {
        return false, 0, 0, 0;
      }
      status := Candidate;
      currentTerm := currentTerm + 1;
      votedFor := me;
      Persist();
      election := Election(currentTerm, 1, {}, {});
      return true, currentTerm, LastLogIndex(View()), LastLogTerm(View());
    }

    method RequestVote1(term: int, candidate: int, lastIndex: int, lastTerm: int)
      returns (replyTerm: int, granted: bool)
      requires Valid()
      modifies this
      ensures Valid() && disk == PersistData(View())
      ensures VoteResult(View(), replyTerm, granted)
              == RequestVote(old(View()), term, candidate, lastIndex, lastTerm)
    {
      if term < currentTerm {
        replyTerm, granted := currentTerm, false;
        Persist();
        return;
      }
      if term > currentTerm {
        status, currentTerm, votedFor := Follower, term, -1;
      }
      if !UpToDate(View(), lastIndex, lastTerm) {
        replyTerm, granted := currentTerm, false;
      } else if votedFor != -1 && votedFor != candidate {
        replyTerm, granted := currentTerm, false;
      } else {
        votedFor := candidate;
        replyTerm, granted := currentTerm, true;
      }
      Persist();
    }

    /** The tail of sendRequestVote. */
    method OnVoteReply(from: int, term: int, granted: bool) returns (alive: bool)
      requires Valid() && election.Election?
      modifies this
      ensures Valid() && alive == VoteAnswered(old(View()), from, term, granted).Done?
      ensures alive ==>
        var r := VoteAnswered(old(View()), from, term, granted).value;
        View() == r.node && (if r.persisted then disk == PersistData(View()) else disk == old(disk))
    {
      alive := true;
      election := election.(answered := election.answered + {from});
      var stop := HandleTermMismatch(term);
      if stop || !granted {
        return;
      }
      alive := CountVote(from);
    }

    /** The part of sendRequestVote for a granted vote of the current term. */
    method CountVote(from: int) returns (alive: bool)
      requires Valid() && election.Election?
      modifies this
      ensures Valid()
      ensures
        var e := old(election);
        var z := old(View()).(election := e.(votes := e.votes + 1, granted := e.granted + {from}));
        if e.votes + 1 < Quorum(peers) then alive && View() == z && disk == old(disk)
        else if old(status) == Leader then !alive
        else alive && View() == BecomeLeader(z.(election := z.election.(votes := 0))) && disk == PersistData(View())
    {
      alive := true;
      election := election.(votes := election.votes + 1, granted := election.granted + {from});
      if election.votes >= Quorum(peers) {
        election := election.(votes := 0);
        if status == Leader {
          return false;
        }
        TakeOffice();
      }
    }

    /** What sendRequestVote does with a majority. */
    method TakeOffice()
      requires Valid()
      modifies this
      ensures Valid() && View() == BecomeLeader(old(View())) && disk == PersistData(View())
    {
      ghost var x := View();
      status := Leader;
      ResetPeers(LastLogIndex(View()));
      assert nextIndex == BecomeLeader(x).nextIndex;
      assert matchIndex == BecomeLeader(x).matchIndex;
      Persist();
      StartBatchSenderThread();
    }

    /** The loop of sendRequestVote over the peers. */
    method ResetPeers(lastLogIndex: int)
      requires Valid()
      modifies this`nextIndex, this`matchIndex
      ensures Valid()
      ensures nextIndex == seq(peers, _ => lastLogIndex + 1) && matchIndex == seq(peers, _ => 0)
    {
      for i := 0 to peers
        invariant |nextIndex| == peers && |matchIndex| == peers
        invariant forall p :: 0 <= p < i ==> nextIndex[p] == lastLogIndex + 1 && matchIndex[p] == 0
      {
        nextIndex := nextIndex[i := lastLogIndex + 1];
        matchIndex := matchIndex[i := 0];
      }
    }

    method StartBatchSenderThread()
      modifies this`batchRunning, this`senderAlive
      ensures batchRunning && senderAlive == (old(senderAlive) || !old(batchRunning))
    {
      if !batchRunning {
        batchRunning := true;
        senderAlive := true;
      }
    }

    // -------------------------------------------------------------- commands and batches

    method Start(command: Bytes) returns (index: int, isLeader: bool)
      requires Valid()
      modifies this
      ensures Valid() && StartResult(View(), index, isLeader) == RaftHandlers.Start(old(View()), command)
      ensures if isLeader then disk == PersistData(View()) else disk == old(disk)
    {
      if status != Leader {
        return -1, false;
      }
      index := LastLogIndex(View()) + 1;
      var entry := Entry(index, currentTerm, command);
      logs := logs + [entry];
      isLeader := true;
      Persist();
      AddToPendingBatch(entry);
    }

    method AddToPendingBatch(entry: Entry)
      requires Valid()
      modifies this`pending
      ensures Valid() && pending == Enqueue(me, old(pending), entry)
    {
      for i := 0 to |pending|
        invariant |pending| == |old(pending)|
        invariant forall p :: 0 <= p < i ==>
                    pending[p] == if p == me then old(pending)[p] else old(pending)[p] + [entry]
        invariant forall p :: i <= p < |pending| ==> pending[p] == old(pending)[p]
      {
        if i != me {
          pending := pending[i := pending[i] + [entry]];
        }
      }
    }

    /** batchSenderLoop for one peer: take the first `size` buffered entries and build the
        arguments, entry by entry. */
    method SendBatch(peer: int, size: int) returns (a: AppendArgs)
      requires Valid() && status == Leader && 0 <= peer < peers && 1 <= size <= |pending[peer]|
      modifies this`pending
      ensures Valid() && a == BatchArgs(old(View()), old(pending)[peer][..size])
      ensures pending == old(pending)[peer := old(pending)[peer][size..]]
    {
      var entries := pending[peer][..size];
      pending := pending[peer := pending[peer][size..]];
      var prev := entries[0].index - 1;
      var sent: seq<Entry> := [];
      for i := 0 to |entries|
        invariant sent == entries[..i]
      {
        sent := sent + [entries[i]];
      }
      assert sent == entries;
      a := AppendArgs(currentTerm, me, prev, LogTermAt(View(), prev), sent, commitIndex);
    }

    /** doHeartBeat: clamp nextIndex and address an empty batch to every peer. */
    method DoHeartBeat() returns (sent: map<int, AppendArgs>)
      requires Valid() && 0 <= me < peers
      modifies this`nextIndex
      ensures Valid()
      ensures old(status) != Leader ==> sent == map[] && nextIndex == old(nextIndex)
      ensures old(status) == Leader ==>
        && View() == ClampNext(old(View()))
        && (forall p :: p in sent <==> 0 <= p < peers && p != me)
        && forall p :: p in sent ==> sent[p] == HeartbeatArgs(View(), p)
    {
      sent := map[];
      if status != Leader {
        return;
      }
      for p := 0 to peers
        invariant |nextIndex| == peers
        invariant forall q :: 0 <= q < p ==>
                    nextIndex[q] == if q != me && old(nextIndex)[q] < 1 then 1 else old(nextIndex)[q]
        invariant forall q :: p <= q < peers ==> nextIndex[q] == old(nextIndex)[q]
        invariant forall q :: q in sent <==> 0 <= q < p && q != me
        invariant forall q :: q in sent ==> sent[q] == HeartbeatArgs(View(), q)
      {
        if p != me {
          if nextIndex[p] < 1 {
            nextIndex := nextIndex[p := 1];
          }
          var prev := nextIndex[p] - 1;
          sent := sent[p := AppendArgs(currentTerm, me, prev, LogTermAt(View(), prev), [], commitIndex)];
        }
      }
    }

    // -------------------------------------------------------------- AppendEntries1

    method AppendEntries1(a: AppendArgs) returns (alive: bool, reply: AppendReply)
      requires Valid()
      modifies this
      ensures Valid() && alive == AppendEntries(old(View()), a).Done?
      ensures alive ==>
        var r := AppendEntries(old(View()), a).value;
        && View() == r.node && reply == r.reply
        && (if r.persisted then disk == PersistData(View()) else disk == old(disk))
    {
      alive := true;
      if a.term < currentTerm {
        reply := AppendReply(currentTerm, false, NO_BACKOFF);
        return;
      }
      if a.term > currentTerm {
        status, currentTerm, votedFor := Follower, a.term, -1;
      }
      status := Follower;
      assert View() == Accepted(old(View()), a);
      if a.prevIndex > LastLogIndex(View()) {
        reply := AppendReply(currentTerm, false, LastLogIndex(View()) + 1);
      } else if a.prevIndex < snapIndex {
        reply := AppendReply(currentTerm, false, snapIndex + 1);
      } else if MatchLog(View(), a.prevIndex, a.prevTerm) {
        alive, reply := MergeBatch(a);
      } else {
        var back := BackOff(a.prevIndex);
        reply := AppendReply(currentTerm, false, back);
      }
      if alive {
        Persist();
      }
    }

    /** The branch of AppendEntries1 for a batch that matches at prev. */
    method MergeBatch(a: AppendArgs) returns (alive: bool, reply: AppendReply)
      requires Valid()
      modifies this`logs, this`commitIndex
      ensures Valid() && alive == AppendMatching(old(View()), a).Done?
      ensures alive ==>
        View() == AppendMatching(old(View()), a).value.node && reply == AppendMatching(old(View()), a).value.reply
    {
      alive, reply := true, AppendReply(currentTerm, true, 0);
      for i := 0 to |a.entries|
        invariant Overwrite(snapIndex, old(logs), a.entries[..i]) == Done(logs)
        invariant commitIndex == old(commitIndex)
      {
        var log := a.entries[i];
        assert a.entries[..i + 1][..i] == a.entries[..i];
        if log.index > LastLogIndex(View()) {
          logs := logs + [log];
        } else {
          var slice := SliceIndex(snapIndex, log.index);
          if slice < 0 || (logs[slice].term == log.term && logs[slice].command != log.command) {
            AbortStays(snapIndex, old(logs), a.entries, i + 1);
            alive := false;
            return;
          }
          if logs[slice].term != log.term {
            logs := logs[slice := log];
          }
        }
      }
      assert a.entries[..|a.entries|] == a.entries;
      if LastLogIndex(View()) < a.prevIndex + |a.entries| {
        alive := false;
        return;
      }
      if a.leaderCommit > commitIndex {
        commitIndex := Min(a.leaderCommit, LastLogIndex(View()));
      }
      alive := LastLogIndex(View()) >= commitIndex;
    }

    /** The back-off scan of AppendEntries1. */
    method BackOff(prev: int) returns (next: int)
      ensures next == BackoffFrom(View(), prev, prev)
    {
      next := prev;
      var index := prev;
      while index >= snapIndex
        invariant BackoffFrom(View(), prev, prev) == BackoffFrom(View(), prev, index)
        invariant next == prev
        decreases index - snapIndex
      {
        if LogTermAt(View(), index) != LogTermAt(View(), prev) {
          return index + 1;
        }
        index := index - 1;
      }
    }

    // -------------------------------------------------------------- replies to the leader

    /** handleTermMismatch, and the same test inside sendRequestVote. */
    method HandleTermMismatch(replyTerm: int) returns (stop: bool)
      requires Valid()
      modifies this
      ensures Valid() && stop == (replyTerm != old(currentTerm))
      ensures View() == if replyTerm > old(currentTerm) then StepDown(old(View()), replyTerm) else old(View())
      ensures if replyTerm > old(currentTerm) then disk == PersistData(View()) else disk == old(disk)
    {
      if replyTerm > currentTerm {
        status, currentTerm, votedFor := Follower, replyTerm, -1;
        Persist();
        return true;
      }
      return replyTerm < currentTerm;
    }

    /** handleLogMismatch */
    method HandleLogMismatch(peer: int, updateNextIndex: int)
      requires Valid() && 0 <= peer < peers
      modifies this`nextIndex
      ensures Valid() && View() == LogMismatch(old(View()), peer, updateNextIndex)
    {
      if updateNextIndex != NO_BACKOFF {
        var next := updateNextIndex;
        if next < 1 {
          next := 1;
        }
        if next <= snapIndex {
          next := snapIndex + 1;
        }
        nextIndex := nextIndex[peer := next];
      }
    }

    /** updatePeerSyncState and tryUpdateCommitIndex; `count` is the shared *appendNums. */
    method UpdatePeerSyncState(peer: int, a: AppendArgs) returns (alive: bool)
      requires Valid() && 0 <= peer < peers
      modifies this`nextIndex, this`matchIndex
      ensures Valid() && alive == PeerSynced(old(View()), peer, a).Done?
      ensures alive ==> View() == PeerSynced(old(View()), peer, a).value
    {
      var newMatch := a.prevIndex + |a.entries|;
      matchIndex := matchIndex[peer := Max(matchIndex[peer], newMatch)];
      nextIndex := nextIndex[peer := matchIndex[peer] + 1];
      alive := matchIndex[peer] <= LastLogIndex(View()) + 1;
    }

    method TryUpdateCommitIndex(a: AppendArgs, count: int) returns (alive: bool, count': int)
      modifies this`commitIndex
      ensures alive == TryUpdateCommit(old(View()), a, count).Done?
      ensures alive ==> Counted(View(), count') == TryUpdateCommit(old(View()), a, count).value
    {
      alive, count' := true, count;
      if count < Quorum(peers) {
        return;
      }
      count' := 0;
      if |a.entries| > 0 && a.entries[|a.entries| - 1].term == currentTerm {
        commitIndex := Max(commitIndex, a.prevIndex + |a.entries|);
      }
      alive := commitIndex <= LastLogIndex(View());
    }

    /** The tail of sendAppendEntries. */
    method OnAppendReply(peer: int, a: AppendArgs, reply: AppendReply, count: int) returns (alive: bool)
      requires Valid() && 0 <= peer < peers
      modifies this
      ensures Valid() && alive == AppendAnswered(old(View()), peer, a, reply, count).Done?
      ensures alive ==>
        var r := AppendAnswered(old(View()), peer, a, reply, count).value;
        View() == r.node && (if r.persisted then disk == PersistData(View()) else disk == old(disk))
    {
      alive := true;
      var stop := HandleTermMismatch(reply.term);
      if stop || status != Leader {
        return;
      }
      if !reply.success {
        HandleLogMismatch(peer, reply.updateNextIndex);
        return;
      }
      alive := UpdatePeerSyncState(peer, a);
      if alive {
        var left;
        alive, left := TryUpdateCommitIndex(a, count + 1);
      }
    }

    /** The inner loop of leaderUpdateCommitIndex: the leader counts itself. */
    method CountHolders(N: int) returns (count: nat)
      requires Valid() && 0 <= me < peers
      ensures count == |Holders(View(), N)|
    {
      count := 1;
      ghost var counted := {me};
      for i := 0 to peers
        invariant count == |counted|
        invariant forall p :: p in counted <==> p == me || (0 <= p < i && matchIndex[p] >= N)
      {
        if i != me && matchIndex[i] >= N {
          count := count + 1;
          counted := counted + {i};
        }
      }
      assert counted == Holders(View(), N);
    }

    /** leaderUpdateCommitIndex: scan down from the end of the log to the first index that a
        majority holds; commit it if it is of the current term. */
    method LeaderUpdateCommitIndex()
      requires Valid() && 0 <= me < peers
      modifies this`commitIndex
      ensures IsScanResult(old(View()), commitIndex)
    {
      ghost var x := View();
      var N := LastLogIndex(View());
      while N > commitIndex
        invariant View() == x
        invariant forall M :: N < M <= LastLogIndex(x) ==> !MajorityHolds(x, M)
        decreases N - commitIndex
      {
        var count := CountHolders(N);
        if count >= Quorum(peers) {
          assert FirstHeld(x, N);
          if LogTermAt(View(), N) == currentTerm {
            commitIndex := N;
          }
          return;
        }
        N := N - 1;
      }
    }

    // -------------------------------------------------------------- apply

    /** One round of applierTicker: collect under the lock, push outside it. */
    method ApplierTick() returns (alive: bool)
      requires Valid()
      modifies this`lastApplied, this`applied
      ensures Valid() && alive == ApplyCommitted(old(View())).Done?
      ensures alive ==> View() == ApplyCommitted(old(View())).value
    {
      if lastApplied < commitIndex && (lastApplied < snapIndex || LastLogIndex(View()) < commitIndex) {
        return false;
      }
      var msgs: seq<ApplyMsg> := [];
      ghost var x := View();
      while lastApplied < commitIndex
        invariant x.lastApplied <= lastApplied && (x.lastApplied <= commitIndex ==> lastApplied <= commitIndex)
        invariant View() == x.(lastApplied := lastApplied)
        invariant x.lastApplied < commitIndex ==> x.snapIndex <= x.lastApplied && commitIndex <= LastLogIndex(x)
        invariant x.lastApplied >= commitIndex ==> lastApplied == x.lastApplied && msgs == []
        invariant x.lastApplied < commitIndex ==> msgs == ApplyMsgs(x, x.lastApplied, lastApplied)
        decreases commitIndex - lastApplied
      {
        lastApplied := lastApplied + 1;
        var slice := SliceIndex(snapIndex, lastApplied);
        msgs := msgs + [ApplyMsg(lastApplied, logs[slice].command)];
      }
      ghost var reached := lastApplied;
      for i := 0 to |msgs|
        invariant lastApplied == reached
        invariant View() == x.(lastApplied := reached, applied := x.applied + msgs[..i])
      {
        applied := applied + [msgs[i]];
      }
      assert msgs[..|msgs|] == msgs;
      alive := true;
    }
  }

  /** Once the loop over a batch has aborted, the batch has. */
  lemma {:induction false} AbortStays(snapIndex: int, logs: seq<Entry>, entries: seq<Entry>, k: nat)
    requires k <= |entries| && Overwrite(snapIndex, logs, entries[..k]) == Aborted
    ensures Overwrite(snapIndex, logs, entries) == Aborted
    decreases |entries|
  {
    if k < |entries| {
      var init := entries[..|entries| - 1];
      assert init[..k] == entries[..k];
      AbortStays(snapIndex, logs, init, k);
    } else {
      assert entries[..k] == entries;
    }
  }
}
