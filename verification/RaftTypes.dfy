/** The data of one Raft node (Raft/raft.h) and the read-only helpers of Raft/Raft.cpp. */
module RaftTypes {
  import opened Bytes

  datatype Status = Follower | Candidate | Leader

  datatype Entry = Entry(index: int, term: int, command: Bytes)

  datatype ApplyMsg = ApplyMsg(index: int, command: Bytes)

  /** The frame of one doElection call: its term, the shared counter *voteNum, the peers whose
      RequestVote call has returned, and those among them that granted their vote. */
  datatype Election =
    | NoElection
    | Election(term: int, votes: int, answered: set<int>, granted: set<int>)

  /** The fields of class Raft. `applied` is what this process has pushed on its apply channel;
      `senderAlive` says that the thread running batchSenderLoop is still in its loop. */
  datatype Node = Node(
    me: int,
    peers: nat,
    currentTerm: int,
    votedFor: int,
    status: Status,
    logs: seq<Entry>,
    snapIndex: int,
    snapTerm: int,
    commitIndex: int,
    lastApplied: int,
    nextIndex: seq<int>,
    matchIndex: seq<int>,
    pending: seq<seq<Entry>>,
    batchRunning: bool,
    senderAlive: bool,
    election: Election,
    applied: seq<ApplyMsg>)

  datatype AppendArgs = AppendArgs(
    term: int, leaderId: int, prevIndex: int, prevTerm: int, entries: seq<Entry>, leaderCommit: int)

  datatype AppendReply = AppendReply(term: int, success: bool, updateNextIndex: int)

  /** The updateNextIndex value that tells the leader to leave its nextIndex alone. */
  const NO_BACKOFF := -100

  function Min(a: int, b: int): int { if a <= b then a else b }

  function Max(a: int, b: int): int { if a <= b then b else a }

  /** m_peers.size() / 2 + 1 */
  function Quorum(n: nat): nat { n / 2 + 1 }

  function LastLogIndex(x: Node): int { x.snapIndex + |x.logs| }

  function LastLogTerm(x: Node): int {
    if |x.logs| == 0 then x.snapTerm else x.logs[|x.logs| - 1].term
  }

  function SliceIndex(snapIndex: int, logIndex: int): int {
    if logIndex <= snapIndex then -1 else logIndex - snapIndex - 1
  }

  function LogTermAt(x: Node, logIndex: int): int {
    if logIndex == x.snapIndex then x.snapTerm
    else if logIndex < x.snapIndex then -1
    else
      var slice := SliceIndex(x.snapIndex, logIndex);
      if slice < 0 || slice >= |x.logs| then -1 else x.logs[slice].term
  }

  /** UPtodata: is a candidate whose log ends at (index, term) at least as up to date as x? */
  predicate UpToDate(x: Node, index: int, term: int) {
    if term != LastLogTerm(x) then term > LastLogTerm(x) else index >= LastLogIndex(x)
  }

  predicate MatchLog(x: Node, logIndex: int, logTerm: int) {
    if logIndex == x.snapIndex then logTerm == x.snapTerm
    else if logIndex < x.snapIndex || logIndex > LastLogIndex(x) then false
    else
      var slice := SliceIndex(x.snapIndex, logIndex);
      if slice < 0 || slice >= |x.logs| then false else x.logs[slice].term == logTerm
  }

  // ---------------------------------------------------------------- persistence

  datatype SavedEntry = SavedEntry(term: int, command: Bytes)

  /** BoostPersistRaftNode: what the raft state file holds. Log indices are not stored. */
  datatype Image = Image(
    currentTerm: int, votedFor: int, snapIndex: int, snapTerm: int, logs: seq<SavedEntry>)

  function SavedLog(logs: seq<Entry>): (r: seq<SavedEntry>)
    ensures |r| == |logs|
  {
    seq(|logs|, k requires 0 <= k < |logs| => SavedEntry(logs[k].term, logs[k].command))
  }

  function PersistData(x: Node): Image {
    Image(x.currentTerm, x.votedFor, x.snapIndex, x.snapTerm, SavedLog(x.logs))
  }

  function LoadedLog(snapIndex: int, saved: seq<SavedEntry>): (r: seq<Entry>)
    ensures |r| == |saved|
  {
    seq(|saved|, k requires 0 <= k < |saved| => Entry(snapIndex + 1 + k, saved[k].term, saved[k].command))
  }

  function ReadPersist(x: Node, d: Image): Node {
    x.(currentTerm := d.currentTerm, votedFor := d.votedFor, snapIndex := d.snapIndex,
       snapTerm := d.snapTerm, logs := LoadedLog(d.snapIndex, d.logs))
  }

  /** The state init sets up before it reads the raft state file. */
  function Blank(n: nat, me: int): Node {
    Node(me, n, 0, -1, Follower, [], 0, 0, 0, 0, seq(n, _ => 0), seq(n, _ => 0), seq(n, _ => []),
         false, false, NoElection, [])
  }

  /** init: a process starting from raft state file d. */
  function Boot(n: nat, me: int, d: Image): Node {
    var x := ReadPersist(Blank(n, me), d);
    if x.snapIndex > 0 then x.(lastApplied := x.snapIndex) else x
  }

  /** Log entry k of a node carries index snapIndex + 1 + k. */
  predicate Indexed(snapIndex: int, logs: seq<Entry>) {
    forall k :: 0 <= k < |logs| ==> logs[k].index == snapIndex + 1 + k
  }

  /** Indices are not stored, yet reading back what was persisted restores the node exactly
      when its log is indexed consecutively. */
  lemma PersistRoundTrip(x: Node, y: Node)
    ensures
      var z := ReadPersist(y, PersistData(x));
      && z.currentTerm == x.currentTerm && z.votedFor == x.votedFor
      && z.snapIndex == x.snapIndex && z.snapTerm == x.snapTerm
      && (z.logs == x.logs <==> Indexed(x.snapIndex, x.logs))
  {
    var z := ReadPersist(y, PersistData(x));
    if Indexed(x.snapIndex, x.logs) {
      assert forall k :: 0 <= k < |x.logs| ==> z.logs[k] == x.logs[k];
    } else {
      var k :| 0 <= k < |x.logs| && x.logs[k].index != x.snapIndex + 1 + k;
      assert z.logs[k] != x.logs[k];
    }
  }
}
