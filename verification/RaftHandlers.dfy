/** One function per critical section of Raft/Raft.cpp: the node a thread finds when it takes
    m_mtx, mapped to the node it leaves behind. Class RaftNode refines these functions. */
module RaftHandlers {
  import opened Bytes
  import opened RaftTypes

  // ---------------------------------------------------------------- election

  function DoElection(x: Node): Node {
    if x.status == Leader then x
    else
      x.(status := Candidate, currentTerm := x.currentTerm + 1, votedFor := x.me,
         election := Election(x.currentTerm + 1, 1, {}, {}))
  }

  function StepDown(x: Node, term: int): Node {
    x.(status := Follower, currentTerm := term, votedFor := -1)
  }

  datatype VoteResult = VoteResult(node: Node, term: int, granted: bool)

  function RequestVote(x: Node, term: int, candidate: int, lastIndex: int, lastTerm: int): VoteResult {
    if term < x.currentTerm then VoteResult(x, x.currentTerm, false)
    else
      var y := if term > x.currentTerm then StepDown(x, term) else x;
      if !UpToDate(y, lastIndex, lastTerm) then VoteResult(y, y.currentTerm, false)
      else if y.votedFor != -1 && y.votedFor != candidate then VoteResult(y, y.currentTerm, false)
      else VoteResult(y.(votedFor := candidate), y.currentTerm, true)
  }

  function BecomeLeader(x: Node): Node {
    x.(status := Leader,
       nextIndex := seq(|x.nextIndex|, _ => LastLogIndex(x) + 1),
       matchIndex := seq(|x.matchIndex|, _ => 0),
       batchRunning := true,
       senderAlive := x.senderAlive || !x.batchRunning)
  }

  /** Aborted: the process called std::terminate (myAssert), or indexed m_logs out of range. */
  datatype Outcome<T> = Done(value: T) | Aborted

  datatype Persisting = Persisting(node: Node, persisted: bool)

  /** The tail of sendRequestVote, for the reply of peer `from` to the running election. */
  function VoteAnswered(x: Node, from: int, term: int, granted: bool): Outcome<Persisting>
    requires x.election.Election?
  {
    var e := x.election;
    var y := x.(election := e.(answered := e.answered + {from}));
    if term > y.currentTerm then Done(Persisting(StepDown(y, term), true))
    else if term < y.currentTerm || !granted then Done(Persisting(y, false))
    else
      var z := y.(election := y.election.(votes := e.votes + 1, granted := e.granted + {from}));
      if e.votes + 1 < Quorum(x.peers) then Done(Persisting(z, false))
      else if z.status == Leader then Aborted
      else Done(Persisting(BecomeLeader(z.(election := z.election.(votes := 0))), true))
  }

  // ---------------------------------------------------------------- leader: commands and batches

  function Enqueue(me: int, pending: seq<seq<Entry>>, e: Entry): (r: seq<seq<Entry>>)
    ensures |r| == |pending|
  {
    seq(|pending|, p requires 0 <= p < |pending| => if p == me then pending[p] else pending[p] + [e])
  }

  datatype StartResult = StartResult(node: Node, index: int, isLeader: bool)

  function Start(x: Node, command: Bytes): StartResult {
    if x.status != Leader then StartResult(x, -1, false)
    else
      var e := Entry(LastLogIndex(x) + 1, x.currentTerm, command);
      StartResult(x.(logs := x.logs + [e], pending := Enqueue(x.me, x.pending, e)), e.index, true)
  }

  /** The arguments batchSenderLoop builds for a batch (its leader check included: A1). */
  function BatchArgs(x: Node, entries: seq<Entry>): AppendArgs
    requires |entries| > 0
  {
    var prev := entries[0].index - 1;
    AppendArgs(x.currentTerm, x.me, prev, LogTermAt(x, prev), entries, x.commitIndex)
  }

  /** doHeartBeat's clamp of nextIndex. */
  function ClampNext(x: Node): Node {
    x.(nextIndex := seq(|x.nextIndex|, p requires 0 <= p < |x.nextIndex| =>
         if p != x.me && x.nextIndex[p] < 1 then 1 else x.nextIndex[p]))
  }

  function HeartbeatArgs(x: Node, peer: int): AppendArgs
    requires 0 <= peer < |x.nextIndex|
  {
    var prev := x.nextIndex[peer] - 1;
    AppendArgs(x.currentTerm, x.me, prev, LogTermAt(x, prev), [], x.commitIndex)
  }

  // ---------------------------------------------------------------- follower: AppendEntries1

  /** One iteration of the loop over the batch. */
  function Place(snapIndex: int, logs: seq<Entry>, e: Entry): Outcome<seq<Entry>> {
    if e.index > snapIndex + |logs| then Done(logs + [e])
    else
      var slice := SliceIndex(snapIndex, e.index);
      if slice < 0 then Aborted
      else if logs[slice].term == e.term && logs[slice].command != e.command then Aborted
      else if logs[slice].term != e.term then Done(logs[slice := e])
      else Done(logs)
  }

  /** The whole loop: overwrite conflicting entries in place, keep whatever follows. */
  function Overwrite(snapIndex: int, logs: seq<Entry>, entries: seq<Entry>): Outcome<seq<Entry>>
    decreases |entries|
  {
    if |entries| == 0 then Done(logs)
    else
      var last := |entries| - 1;
      match Overwrite(snapIndex, logs, entries[..last])
      case Aborted => Aborted
      case Done(soFar) => Place(snapIndex, soFar, entries[last])
  }

  /** The back-off scan: from `index` down to snapIndex, one past the first entry whose term
      differs from the term at `prev`; `prev` itself if there is none. */
  function BackoffFrom(x: Node, prev: int, index: int): int
    decreases index - x.snapIndex
  {
    if index < x.snapIndex then prev
    else if LogTermAt(x, index) != LogTermAt(x, prev) then index + 1
    else BackoffFrom(x, prev, index - 1)
  }

  datatype AppendResult = AppendResult(node: Node, reply: AppendReply, persisted: bool)

  function Refuse(x: Node, updateNextIndex: int): Outcome<AppendResult> {
    Done(AppendResult(x, AppendReply(x.currentTerm, false, updateNextIndex), true))
  }

  /** The node once it has accepted the sender as the leader of its term. */
  function Accepted(x: Node, a: AppendArgs): Node {
    (if a.term > x.currentTerm then StepDown(x, a.term) else x).(status := Follower)
  }

  /** The batch matches at prev: merge it, then follow the leader's commit index. */
  function AppendMatching(y: Node, a: AppendArgs): Outcome<AppendResult> {
    match Overwrite(y.snapIndex, y.logs, a.entries)
    case Aborted => Aborted
    case Done(logs) =>
      var z := y.(logs := logs);
      var commit := if a.leaderCommit > z.commitIndex then Min(a.leaderCommit, LastLogIndex(z)) else z.commitIndex;
      if LastLogIndex(z) < a.prevIndex + |a.entries| || LastLogIndex(z) < commit then Aborted
      else Done(AppendResult(z.(commitIndex := commit), AppendReply(z.currentTerm, true, 0), true))
  }

  function AppendEntries(x: Node, a: AppendArgs): Outcome<AppendResult> {
    if a.term < x.currentTerm then
      Done(AppendResult(x, AppendReply(x.currentTerm, false, NO_BACKOFF), false))
    else
      var y := Accepted(x, a);
      if a.prevIndex > LastLogIndex(y) then Refuse(y, LastLogIndex(y) + 1)
      else if a.prevIndex < y.snapIndex then Refuse(y, y.snapIndex + 1)
      else if !MatchLog(y, a.prevIndex, a.prevTerm) then
        Refuse(y, BackoffFrom(y, a.prevIndex, a.prevIndex))
      else AppendMatching(y, a)
  }

  // ---------------------------------------------------------------- leader: AppendEntries replies

  function LogMismatch(x: Node, peer: int, updateNextIndex: int): Node
    requires 0 <= peer < |x.nextIndex|
  {
    if updateNextIndex == NO_BACKOFF then x
    else x.(nextIndex := x.nextIndex[peer := Max(Max(updateNextIndex, 1), x.snapIndex + 1)])
  }

  function PeerSynced(x: Node, peer: int, a: AppendArgs): Outcome<Node>
    requires 0 <= peer < |x.nextIndex| && 0 <= peer < |x.matchIndex|
  {
    var matched := Max(x.matchIndex[peer], a.prevIndex + |a.entries|);
    if matched > LastLogIndex(x) + 1 then Aborted
    else Done(x.(matchIndex := x.matchIndex[peer := matched], nextIndex := x.nextIndex[peer := matched + 1]))
  }

  datatype Counted = Counted(node: Node, count: int)

  function TryUpdateCommit(x: Node, a: AppendArgs, count: int): Outcome<Counted> {
    if count < Quorum(x.peers) then Done(Counted(x, count))
    else
      var commit :=
        if |a.entries| > 0 && a.entries[|a.entries| - 1].term == x.currentTerm
        then Max(x.commitIndex, a.prevIndex + |a.entries|) else x.commitIndex;
      if commit > LastLogIndex(x) then Aborted
      else Done(Counted(x.(commitIndex := commit), 0))
  }

  /** The tail of sendAppendEntries; `count` is the value of the shared *appendNums. */
  function AppendAnswered(x: Node, peer: int, a: AppendArgs, r: AppendReply, count: int): Outcome<Persisting>
    requires 0 <= peer < |x.nextIndex| && 0 <= peer < |x.matchIndex|
  {
    if r.term > x.currentTerm then Done(Persisting(StepDown(x, r.term), true))
    else if r.term < x.currentTerm || x.status != Leader then Done(Persisting(x, false))
    else if !r.success then Done(Persisting(LogMismatch(x, peer, r.updateNextIndex), false))
    else
      match PeerSynced(x, peer, a)
      case Aborted => Aborted
      case Done(y) =>
        match TryUpdateCommit(y, a, count + 1)
        case Aborted => Aborted
        case Done(c) => Done(Persisting(c.node, false))
  }

  // ---------------------------------------------------------------- apply

  /** The messages for log indices lo+1 .. hi. */
  function ApplyMsgs(x: Node, lo: int, hi: int): (r: seq<ApplyMsg>)
    requires x.snapIndex <= lo <= hi <= LastLogIndex(x)
    ensures |r| == hi - lo
  {
    seq(hi - lo, k requires 0 <= k < hi - lo => ApplyMsg(lo + 1 + k, x.logs[lo + k - x.snapIndex].command))
  }

  /** One round of applierTicker. */
  function ApplyCommitted(x: Node): Outcome<Node> {
    if x.lastApplied >= x.commitIndex then Done(x)
    else if x.lastApplied < x.snapIndex || LastLogIndex(x) < x.commitIndex then Aborted
    else
      Done(x.(lastApplied := x.commitIndex,
              applied := x.applied + ApplyMsgs(x, x.lastApplied, x.commitIndex)))
  }
}
