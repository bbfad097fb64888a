/** The replicated system: n Raft nodes, their disks, and a network that may lose, delay,
    duplicate and reorder messages. A message stays in `msgs` for ever: it may be delivered any
    number of times, in any order, or never. */
module Cluster {
  import opened Bytes
  import opened RaftTypes
  import opened RaftHandlers

  datatype Message =
    | VoteRequest(term: int, candidate: int, lastIndex: int, lastTerm: int)
    | VoteReply(from: int, to: int, asked: int, term: int, granted: bool)
    | AppendRequest(to: int, args: AppendArgs)
    | AppendResponse(from: int, args: AppendArgs, reply: AppendReply)

  /** The history of one leadership: who led, who voted for it, and the leader's log, which only
      grows while it leads. */
  datatype Reign = Reign(leader: int, voters: set<int>, log: seq<Entry>)

  datatype Win = Win(term: int, node: int)

  datatype Ballot = Ballot(voter: int, term: int)

  /** `node` told the leader of `term` (or is that leader) that its durable log holds the
      leader's log up to `index`. */
  datatype Ack = Ack(node: int, term: int, index: int)

  type Reigns = map<int, Reign>

  type Ballots = map<Ballot, int>

  /** What has happened so far. No node reads it. */
  datatype History = History(
    wins: set<Win>,
    reigns: Reigns,
    ballots: Ballots,
    acks: set<Ack>)

  datatype Cluster = Cluster(
    n: nat, nodes: seq<Node>, disks: seq<Image>, msgs: set<Message>, hist: History)

  datatype Event =
    | Elect
    | OnVoteRequest(m: Message)
    | OnVoteReply(m: Message)
    | Propose(command: Bytes)
    | SendBatch(peer: int, size: int)
    | Heartbeat
    | OnAppend(m: Message)
    | OnAppendReply(m: Message, count: int)
    | Deliver
    | SenderExit

  datatype Step =
    | Act(i: int, ev: Event)
    | Crash(i: int)
    | CrashPersisting(i: int, ev: Event, flushed: bool)

  predicate Fits(n: nat, x: Node) {
    |x.nextIndex| == n && |x.matchIndex| == n && |x.pending| == n
  }

  predicate Sized(s: Cluster) {
    && |s.nodes| == s.n && |s.disks| == s.n
    && forall i :: 0 <= i < s.n ==> Fits(s.n, s.nodes[i])
  }

  /** A file that is missing at the first start reads as this image. */
  const EMPTY_IMAGE := Image(0, -1, 0, 0, [])

  function Init(n: nat): (s: Cluster)
    ensures Sized(s)
  {
    Cluster(n,
            seq(n, i => Boot(n, i, EMPTY_IMAGE)),
            seq(n, _ => EMPTY_IMAGE),
            {},
            History({}, map[], map[], {}))
  }

  predicate Wins(x: Node, m: Message)
    requires m.VoteReply? && x.election.Election?
  {
    var r := VoteAnswered(x, m.from, m.term, m.granted);
    r.Done? && x.status != Leader && r.value.node.status == Leader
  }

  /** When an event may happen at node i. A reply to a vote request reaches only the call that
      waits for it; a batch is sent only by a live sender loop of a leader (A1); a win finds the
      sender loop of an earlier leadership gone (A2). A batch counter starts at 1. */
  predicate EventEnabled(s: Cluster, i: int, ev: Event)
    requires Sized(s) && 0 <= i < s.n
  {
    var x := s.nodes[i];
    match ev
    case Elect => x.status != Leader
    case OnVoteRequest(m) => m in s.msgs && m.VoteRequest? && m.candidate != i
    case OnVoteReply(m) =>
      && m in s.msgs && m.VoteReply? && m.to == i
      && x.election.Election? && x.election.term == m.asked && m.from !in x.election.answered
      && (Wins(x, m) ==> !x.senderAlive)
    case Propose(_) => true
    case SendBatch(p, k) =>
      x.status == Leader && x.senderAlive && 0 <= p < s.n && p != i && 1 <= k <= |x.pending[p]|
    case Heartbeat => x.status == Leader
    case OnAppend(m) => m in s.msgs && m.AppendRequest? && m.to == i
    case OnAppendReply(m, count) =>
      && m in s.msgs && m.AppendResponse? && m.args.leaderId == i && 0 <= m.from < s.n
      && (|m.args.entries| > 0 ==> count == 1)
    case Deliver => true
    case SenderExit => x.status != Leader && x.senderAlive
  }

  predicate Enabled(s: Cluster, step: Step)
    requires Sized(s)
  {
    && 0 <= step.i < s.n
    && match step
       case Act(i, ev) => EventEnabled(s, i, ev)
       case Crash(i) => true
       case CrashPersisting(i, ev, _) =>
         && EventEnabled(s, i, ev)
         && var r := Run(s, i, ev); r.Done? && r.value.persisted
  }

  datatype Effect = Effect(node: Node, sent: set<Message>, persisted: bool, hist: History)

  function VoteRequestOf(x: Node): Message {
    VoteRequest(x.currentTerm, x.me, LastLogIndex(x), LastLogTerm(x))
  }

  function Heartbeats(n: nat, x: Node): set<Message>
    requires |x.nextIndex| == n
  {
    set p | 0 <= p < n && p != x.me :: AppendRequest(p, HeartbeatArgs(x, p))
  }

  function NoteWin(h: History, x: Node): History
    requires x.election.Election?
  {
    h.(wins := h.wins + {Win(x.currentTerm, x.me)},
       reigns := h.reigns[x.currentTerm := Reign(x.me, x.election.granted + {x.me}, x.logs)])
  }

  function NoteStart(h: History, x: Node, index: int): History {
    h.(reigns :=
         if x.currentTerm in h.reigns
         then h.reigns[x.currentTerm := h.reigns[x.currentTerm].(log := x.logs)] else h.reigns,
       acks := h.acks + {Ack(x.me, x.currentTerm, index)})
  }

  function RunElect(x: Node, h: History): Effect {
    var y := DoElection(x);
    Effect(y, {VoteRequestOf(y)}, true, h.(ballots := h.ballots[Ballot(x.me, y.currentTerm) := x.me]))
  }

  function VoteEffect(me: int, h: History, m: Message, r: VoteResult): Effect
    requires m.VoteRequest?
  {
    Effect(r.node, {VoteReply(me, m.candidate, m.term, r.term, r.granted)}, true,
           if r.granted then h.(ballots := h.ballots[Ballot(me, m.term) := m.candidate]) else h)
  }

  function RunVoteRequest(x: Node, h: History, m: Message): Effect
    requires m.VoteRequest?
  {
    VoteEffect(x.me, h, m, RequestVote(x, m.term, m.candidate, m.lastIndex, m.lastTerm))
  }

  function RunVoteReply(x: Node, h: History, m: Message): Outcome<Effect>
    requires m.VoteReply? && x.election.Election?
  {
    match VoteAnswered(x, m.from, m.term, m.granted)
    case Aborted => Aborted
    case Done(p) =>
      Done(Effect(p.node, {}, p.persisted,
                  if x.status != Leader && p.node.status == Leader then NoteWin(h, p.node) else h))
  }

  function RunPropose(x: Node, h: History, command: Bytes): Effect {
    var r := Start(x, command);
    Effect(r.node, {}, r.isLeader, if r.isLeader then NoteStart(h, r.node, r.index) else h)
  }

  function RunSendBatch(x: Node, h: History, p: int, k: int): Effect
    requires 0 <= p < |x.pending| && 1 <= k <= |x.pending[p]|
  {
    Effect(x.(pending := x.pending[p := x.pending[p][k..]]),
           {AppendRequest(p, BatchArgs(x, x.pending[p][..k]))}, false, h)
  }

  function RunHeartbeat(n: nat, x: Node, h: History): Effect
    requires |x.nextIndex| == n
  {
    Effect(ClampNext(x), Heartbeats(n, ClampNext(x)), false, h)
  }

  function AppendEffect(me: int, h: History, a: AppendArgs, r: AppendResult): Effect {
    Effect(r.node, {AppendResponse(me, a, r.reply)}, r.persisted,
           if r.reply.success && |a.entries| > 0
           then h.(acks := h.acks + {Ack(me, r.node.currentTerm, a.prevIndex + |a.entries|)})
           else h)
  }

  function RunAppend(x: Node, h: History, a: AppendArgs): Outcome<Effect> {
    match AppendEntries(x, a)
    case Aborted => Aborted
    case Done(r) => Done(AppendEffect(x.me, h, a, r))
  }

  function RunAppendReply(x: Node, h: History, m: Message, count: int): Outcome<Effect>
    requires m.AppendResponse? && 0 <= m.from < |x.nextIndex| && 0 <= m.from < |x.matchIndex|
  {
    match AppendAnswered(x, m.from, m.args, m.reply, count)
    case Aborted => Aborted
    case Done(p) => Done(Effect(p.node, {}, p.persisted, h))
  }

  function RunDeliver(x: Node, h: History): Outcome<Effect> {
    match ApplyCommitted(x)
    case Aborted => Aborted
    case Done(y) => Done(Effect(y, {}, false, h))
  }

  /** Event ev at node i: the node after the critical section, the messages released once it is
      durable, and whether the section calls persist. */
  function Run(s: Cluster, i: int, ev: Event): Outcome<Effect>
    requires Sized(s) && 0 <= i < s.n && EventEnabled(s, i, ev)
  {
    var x, h := s.nodes[i], s.hist;
    match ev
    case Elect => Done(RunElect(x, h))
    case OnVoteRequest(m) => Done(RunVoteRequest(x, h, m))
    case OnVoteReply(m) => RunVoteReply(x, h, m)
    case Propose(command) => Done(RunPropose(x, h, command))
    case SendBatch(p, k) => Done(RunSendBatch(x, h, p, k))
    case Heartbeat => Done(RunHeartbeat(s.n, x, h))
    case OnAppend(m) => RunAppend(x, h, m.args)
    case OnAppendReply(m, count) => RunAppendReply(x, h, m, count)
    case Deliver => RunDeliver(x, h)
    case SenderExit => Done(Effect(x.(senderAlive := false), {}, false, h))
  }

  /** Handlers never resize the per-peer vectors. */
  lemma RunFits(s: Cluster, i: int, ev: Event)
    requires Sized(s) && 0 <= i < s.n && EventEnabled(s, i, ev)
    ensures Run(s, i, ev).Done? ==> Fits(s.n, Run(s, i, ev).value.node)
  {
    var x, h := s.nodes[i], s.hist;
    match ev
    case OnVoteReply(m) => VoteReplyFits(s.n, x, h, m);
    case OnAppend(m) => AppendFits(s.n, x, h, m.args);
    case OnAppendReply(m, count) => AppendReplyFits(s.n, x, h, m, count);
    case _ =>
  }

  lemma VoteReplyFits(n: nat, x: Node, h: History, m: Message)
    requires Fits(n, x) && m.VoteReply? && x.election.Election?
    ensures RunVoteReply(x, h, m).Done? ==> Fits(n, RunVoteReply(x, h, m).value.node)
  {
  }

  lemma AppendFits(n: nat, x: Node, h: History, a: AppendArgs)
    requires Fits(n, x)
    ensures RunAppend(x, h, a).Done? ==> Fits(n, RunAppend(x, h, a).value.node)
  {
  }

  lemma AppendReplyFits(n: nat, x: Node, h: History, m: Message, count: int)
    requires Fits(n, x) && m.AppendResponse? && 0 <= m.from < n
    ensures RunAppendReply(x, h, m, count).Done? ==> Fits(n, RunAppendReply(x, h, m, count).value.node)
  {
  }

  /** The critical section runs to its end; `send` is false when its messages are lost at once. */
  function Complete(s: Cluster, i: int, e: Effect, send: bool): (s': Cluster)
    requires Sized(s) && 0 <= i < s.n
    ensures Fits(s.n, e.node) ==> Sized(s')
  {
    s.(nodes := s.nodes[i := e.node],
       disks := if e.persisted then s.disks[i := PersistData(e.node)] else s.disks,
       msgs := if send then s.msgs + e.sent else s.msgs,
       hist := e.hist)
  }

  /** The process of node i dies and starts again from its disk. */
  function Reboot(s: Cluster, i: int): (s': Cluster)
    requires Sized(s) && 0 <= i < s.n
    ensures Sized(s')
  {
    s.(nodes := s.nodes[i := Boot(s.n, i, s.disks[i])])
  }

  /** A crash inside persist, after or before the write reached the disk. Nothing was sent; a win
      happened in memory all the same. */
  function CrashInside(s: Cluster, i: int, ev: Event, e: Effect, flushed: bool): (s': Cluster)
    requires Sized(s) && 0 <= i < s.n
    requires Fits(s.n, e.node)
    ensures Sized(s')
  {
    if flushed then Reboot(Complete(s, i, e, false), i)
    else Reboot(s.(hist := if ev.OnVoteReply? then e.hist else s.hist), i)
  }

  lemma RunOrCrashFits(s: Cluster, step: Step)
    requires Sized(s) && Enabled(s, step)
    ensures !step.Crash? ==>
      var r := Run(s, step.i, step.ev); r.Done? ==> Fits(s.n, r.value.node)
  {
    if !step.Crash? {
      RunFits(s, step.i, step.ev);
    }
  }

  /** One step. A step that is not enabled changes nothing, so every sequence of steps is a run. */
  function Next(s: Cluster, step: Step): (s': Cluster)
    requires Sized(s)
    ensures Sized(s') && s'.n == s.n
  {
    if !Enabled(s, step) then s
    else
      RunOrCrashFits(s, step);
      match step
      case Act(i, ev) =>
        (match Run(s, i, ev)
         case Aborted => Reboot(s, i)
         case Done(e) => Complete(s, i, e, true))
      case Crash(i) => Reboot(s, i)
      case CrashPersisting(i, ev, flushed) => CrashInside(s, i, ev, Run(s, i, ev).value, flushed)
  }

  /** The state after a run. */
  function After(n: nat, steps: seq<Step>): (s: Cluster)
    ensures Sized(s) && s.n == n
    decreases |steps|
  {
    if |steps| == 0 then Init(n)
    else Next(After(n, steps[..|steps| - 1]), steps[|steps| - 1])
  }

  // ---------------------------------------------------------------- deliveries that do no harm

  /** Some entry of a batch after prev conflicts with the log. Entry k of the batch sits at slice
      prev + k (snapIndex is 0 in every run). */
  predicate Conflict(logs: seq<Entry>, prev: int, entries: seq<Entry>) {
    exists k :: 0 <= k < |entries| && 0 <= prev + k < |logs| && logs[prev + k].term != entries[k].term
  }

  /** C1: no conflict, or the local log ends within the batch. */
  predicate C1(x: Node, a: AppendArgs) {
    !Conflict(x.logs, a.prevIndex, a.entries) || LastLogIndex(x) <= a.prevIndex + |a.entries|
  }

  /** C2: the follower does not commit past the last entry of the batch. */
  predicate C2(x: Node, a: AppendArgs) {
    var last := Max(LastLogIndex(x), a.prevIndex + |a.entries|);
    Min(a.leaderCommit, last) <= Max(x.commitIndex, a.prevIndex + |a.entries|)
  }

  /** The batch is accepted and matches at prev. */
  predicate Matches(x: Node, a: AppendArgs) {
    a.term >= x.currentTerm && MatchLog(x, a.prevIndex, a.prevTerm)
  }

  /** A delivery that is refused, or that satisfies C1 and C2. */
  predicate ConformingDelivery(x: Node, a: AppendArgs) {
    Matches(x, a) ==> C1(x, a) && C2(x, a)
  }

  /** C2, or the commit index that the follower takes over stays within what its log has in common
      with the log of the leader that sent a. */
  predicate CommitsShared(g: Reigns, x: Node, a: AppendArgs) {
    C2(x, a)
    || (a.term in g
        && var c := Min(a.leaderCommit, |x.logs|);
           0 <= c <= |g[a.term].log| && x.logs[..c] == g[a.term].log[..c])
  }

  /** A batch reaches the log of the receiver: it matches, and is not lost with an unflushed write. */
  predicate Lands(s: Cluster, step: Step)
    requires Sized(s)
  {
    && Enabled(s, step) && !step.Crash? && step.ev.OnAppend?
    && (step.CrashPersisting? ==> step.flushed)
    && Matches(s.nodes[step.i], step.ev.m.args)
  }

  /** A step that loses no log matching: a batch that lands meets C1. */
  predicate Merging(s: Cluster, step: Step)
    requires Sized(s)
  {
    Lands(s, step) ==> C1(s.nodes[step.i], step.ev.m.args)
  }

  /** A step that loses no safety either: the receiver, if it lives on, commits no more than it
      shares with the sender. */
  predicate Conforming(s: Cluster, step: Step)
    requires Sized(s)
  {
    Merging(s, step)
    && (Lands(s, step) && step.Act? ==> CommitsShared(s.hist.reigns, s.nodes[step.i], step.ev.m.args))
  }

  ghost predicate MergingRun(n: nat, steps: seq<Step>) {
    forall k :: 0 <= k < |steps| ==> Merging(After(n, steps[..k]), steps[k])
  }

  ghost predicate ConformingRun(n: nat, steps: seq<Step>) {
    forall k :: 0 <= k < |steps| ==> Conforming(After(n, steps[..k]), steps[k])
  }
}
