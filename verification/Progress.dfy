/** What a step of a run achieves: exactly when a vote is given, an election won, a command stored,
    committed and applied, which messages go out, and what is on disk. In every run; what is not
    mentioned stays as it was. */
module Progress {
  import opened Bytes
  import opened RaftTypes
  import opened RaftHandlers
  import opened Cluster
  import opened Majorities
  import opened Invariants
  import opened Receiver
  import opened EventsKeep
  import opened Handling

  /** Node i has become y and its disk holds it; these messages, and no others, have gone out. */
  predicate Became(s: Cluster, s': Cluster, i: int, y: Node, sent: set<Message>)
    requires Sized(s) && Sized(s') && 0 <= i < s.n
  {
    && s'.n == s.n && s'.msgs == s.msgs + sent
    && s'.nodes == s.nodes[i := y] && s'.disks == s.disks[i := PersistData(y)]
  }

  /** An event that runs to its end, as every event of a run does. */
  lemma Happens(s: Cluster, i: int, ev: Event)
    requires Inv(s) && 0 <= i < s.n && EventEnabled(s, i, ev)
    ensures Run(s, i, ev).Done?
    ensures
      var e, s' := Run(s, i, ev).value, Next(s, Act(i, ev));
      Became(s, s', i, e.node, e.sent) && s'.nodes[i] == e.node
  {
    EventSound(s, i, ev);
    RunFits(s, i, ev);
    var e := Run(s, i, ev).value;
    assert s.disks[i] == PersistData(s.nodes[i]) && (!e.persisted ==> PersistData(e.node) == PersistData(s.nodes[i]));
    hide Inv, Sound, Run, EventEnabled;
    assert s.disks[i := s.disks[i]] == s.disks;
  }

  lemma NodeOf(s: Cluster, i: int)
    requires Inv(s) && 0 <= i < s.n
    ensures NodeInv(s.n, s.hist, i, s.nodes[i]) && HistInv(s.n, s.hist)
    ensures
      var x := s.nodes[i];
      && x.me == i && x.peers == s.n && x.snapIndex == 0 && x.snapTerm == 0 && CountersOk(x)
      && |x.nextIndex| == |x.matchIndex| == |x.pending| == s.n
  {
    assert NodeInv(s.n, s.hist, i, s.nodes[i]);
  }

  lemma MessageOf(s: Cluster, m: Message)
    requires Inv(s) && m in s.msgs
    ensures MsgInv(s.n, s.hist.ballots, s.hist.reigns, m)
  {
  }

  // ---------------------------------------------------------------- elections

  /** x, in an election of its own: a term that is one higher and a vote for itself. */
  function Campaigning(x: Node): Node {
    x.(status := Candidate, currentTerm := x.currentTerm + 1, votedFor := x.me,
       election := Election(x.currentTerm + 1, 1, {}, {}))
  }

  /** The request for votes in that election: it describes the last entry of the log. */
  function Canvass(x: Node): Message {
    VoteRequest(x.currentTerm + 1, x.me, |x.logs|, TermBefore(x.logs, |x.logs|))
  }

  /** Node i has started an election; that is on disk before the requests are out. */
  predicate Campaigns(s: Cluster, s': Cluster, i: int)
    requires Sized(s) && Sized(s') && 0 <= i < s.n
  {
    s.nodes[i].me == i && Became(s, s', i, Campaigning(s.nodes[i]), {Canvass(s.nodes[i])})
  }

  lemma CampaignEffect(x: Node, h: History)
    requires x.snapIndex == 0 && x.snapTerm == 0 && x.status != Leader
    ensures RunElect(x, h).node == Campaigning(x) && RunElect(x, h).sent == {Canvass(x)}
  {
  }

  lemma ElectCampaigns(s: Cluster, i: int)
    requires Inv(s) && 0 <= i < s.n && s.nodes[i].status != Leader
    ensures Campaigns(s, Next(s, Act(i, Elect)), i)
  {
    NodeOf(s, i);
    Happens(s, i, Elect);
    hide Inv, NodeInv, HistInv, Next, Became, CountersOk, RunElect, Campaigning, Canvass;
    CampaignEffect(s.nodes[i], s.hist);
  }

  lemma CampaignStarts(n: nat, steps: seq<Step>, i: nat)
    requires i < n && After(n, steps).nodes[i].status != Leader
    ensures Campaigns(After(n, steps), Next(After(n, steps), Act(i, Elect)), i)
  {
    Reachable(n, steps);
    hide Inv, After, Next, Campaigns;
    ElectCampaigns(After(n, steps), i);
  }

  /** Section 5.4.1: is a log that ends in this term, at this index, at least as up to date as x's? */
  predicate AtLeastAsUpToDate(x: Node, index: int, term: int) {
    var own := TermBefore(x.logs, |x.logs|);
    own < term || (own == term && |x.logs| <= index)
  }

  /** Is the vote of x given to the candidate of request m? Exactly to one of its term or a newer one whose
      log is at least as up to date, and unless the vote of this very term is with another. */
  predicate Given(x: Node, m: Message)
    requires m.VoteRequest?
  {
    && m.term >= x.currentTerm && AtLeastAsUpToDate(x, m.lastIndex, m.lastTerm)
    && (m.term > x.currentTerm || x.votedFor == -1 || x.votedFor == m.candidate)
  }

  /** What request m makes of x. A newer term frees the vote even if the vote is refused. */
  function Voted(x: Node, m: Message): Node
    requires m.VoteRequest?
  {
    var newer := m.term > x.currentTerm;
    x.(currentTerm := Max(m.term, x.currentTerm), status := if newer then Follower else x.status,
       votedFor := if Given(x, m) then m.candidate else if newer then -1 else x.votedFor)
  }

  /** Node i has answered vote request m; its vote is on disk before the answer is out. */
  predicate Votes(s: Cluster, s': Cluster, i: int, m: Message)
    requires Sized(s) && Sized(s') && 0 <= i < s.n && m.VoteRequest?
  {
    var x := s.nodes[i];
    Became(s, s', i, Voted(x, m), {VoteReply(i, m.candidate, m.term, Max(m.term, x.currentTerm), Given(x, m))})
  }

  lemma VoteCast(x: Node, h: History, m: Message)
    requires m.VoteRequest? && x.snapIndex == 0 && x.snapTerm == 0
    ensures
      var e := RunVoteRequest(x, h, m);
      && e.node == Voted(x, m)
      && e.sent == {VoteReply(x.me, m.candidate, m.term, Max(m.term, x.currentTerm), Given(x, m))}
  {
    VoteExactly(x, m.term, m.candidate, m.lastIndex, m.lastTerm);
    assert AtLeastAsUpToDate(x, m.lastIndex, m.lastTerm) <==> NotBehind(x, m.lastIndex, m.lastTerm);
    hide RequestVote, NotBehind, AtLeastAsUpToDate;
  }

  lemma RequestVotes(s: Cluster, i: int, m: Message)
    requires Inv(s) && 0 <= i < s.n && EventEnabled(s, i, OnVoteRequest(m))
    ensures Votes(s, Next(s, Act(i, OnVoteRequest(m))), i, m)
  {
    NodeOf(s, i);
    Happens(s, i, OnVoteRequest(m));
    hide Inv, NodeInv, HistInv, Next, Became, CountersOk, RunVoteRequest, Voted, Given;
    VoteCast(s.nodes[i], s.hist, m);
  }

  lemma VoteIsGivenExactly(n: nat, steps: seq<Step>, i: nat, m: Message)
    requires i < n && EventEnabled(After(n, steps), i, OnVoteRequest(m))
    ensures Votes(After(n, steps), Next(After(n, steps), Act(i, OnVoteRequest(m))), i, m)
  {
    Reachable(n, steps);
    hide Inv, After, Next, Votes;
    RequestVotes(After(n, steps), i, m);
  }

  /** What a vote reply makes of a candidate x: it wins exactly with the reply that completes a majority
      of its term, itself included. Then it leads, expects every peer to lack nothing, and knows of
      nothing that any peer holds. A newer term ends its candidacy. */
  ghost predicate Canvassed(x: Node, y: Node, from: int, term: int, granted: bool) {
    var counts := granted && term == x.currentTerm;
    && x.election.Election? && y.election.Election?
    && y.election.answered == x.election.answered + {from}
    && y.election.granted == (if counts then x.election.granted + {from} else x.election.granted)
    && (y.status == Leader <==> counts && 2 * (|x.election.granted + {from}| + 1) > x.peers)
    && (if y.status == Leader then InOffice(x, y)
        else
          y == if term > x.currentTerm
               then x.(status := Follower, currentTerm := term, votedFor := -1, election := y.election)
               else x.(election := y.election))
  }

  lemma CandidateCounts(n: nat, h: History, x: Node, m: Message)
    requires NodeInv(n, h, x.me, x) && x.status != Leader
    requires m.VoteReply? && MsgInv(n, h.ballots, h.reigns, m)
    requires x.election.Election? && x.election.term == m.asked && m.from !in x.election.answered
    requires RunVoteReply(x, h, m).Done?
    ensures
      var e := RunVoteReply(x, h, m).value;
      e.sent == {} && Canvassed(x, e.node, m.from, m.term, m.granted)
  {
    VoteReplyExactly(x, m.from, m.term, m.granted);
    assert m.from !in x.election.granted;
    assert |x.election.granted + {m.from}| == |x.election.granted| + 1;
    hide VoteAnswered;
  }

  predicate Silent(s: Cluster, s': Cluster, i: int)
    requires Sized(s) && Sized(s') && s'.n == s.n && 0 <= i < s.n
  {
    Became(s, s', i, s'.nodes[i], {})
  }

  lemma ReplyCanvasses(s: Cluster, i: int, m: Message)
    requires Inv(s) && 0 <= i < s.n && EventEnabled(s, i, OnVoteReply(m)) && s.nodes[i].status != Leader
    ensures
      var s' := Next(s, Act(i, OnVoteReply(m)));
      Silent(s, s', i) && Canvassed(s.nodes[i], s'.nodes[i], m.from, m.term, m.granted)
  {
    NodeOf(s, i);
    MessageOf(s, m);
    Happens(s, i, OnVoteReply(m));
    hide Inv, NodeInv, HistInv, MsgInv, Next, Became, CountersOk, RunVoteReply, Canvassed;
    CandidateCounts(s.n, s.hist, s.nodes[i], m);
  }

  lemma WinsExactly(n: nat, steps: seq<Step>, i: nat, m: Message)
    requires i < n && EventEnabled(After(n, steps), i, OnVoteReply(m)) && After(n, steps).nodes[i].status != Leader
    ensures
      var s, s' := After(n, steps), Next(After(n, steps), Act(i, OnVoteReply(m)));
      Silent(s, s', i) && Canvassed(s.nodes[i], s'.nodes[i], m.from, m.term, m.granted)
  {
    Reachable(n, steps);
    hide Inv, After, Next, Silent, Canvassed;
    ReplyCanvasses(After(n, steps), i, m);
  }

  // ---------------------------------------------------------------- commands

  /** A leader x accepts a command: it stands at the next index, in the leader's term, and at the end of
      every peer's buffer. Any other node changes nothing. */
  predicate Stored(x: Node, y: Node, command: Bytes) {
    if x.status == Leader
    then
      var e := Entry(|x.logs| + 1, x.currentTerm, command);
      y == x.(logs := x.logs + [e], pending := y.pending) && Buffered(x.me, x.pending, y.pending, e)
    else y == x
  }

  lemma CommandEffect(x: Node, h: History, command: Bytes)
    requires x.snapIndex == 0
    ensures RunPropose(x, h, command).sent == {} && Stored(x, RunPropose(x, h, command).node, command)
  {
    StartExactly(x, command);
  }

  lemma ProposeStores(s: Cluster, i: int, command: Bytes)
    requires Inv(s) && 0 <= i < s.n
    ensures
      var s' := Next(s, Act(i, Propose(command)));
      Silent(s, s', i) && Stored(s.nodes[i], s'.nodes[i], command)
  {
    NodeOf(s, i);
    Happens(s, i, Propose(command));
    hide Inv, NodeInv, HistInv, Next, Became, CountersOk, RunPropose, Stored;
    CommandEffect(s.nodes[i], s.hist, command);
  }

  /** And it is on disk. */
  lemma CommandIsStored(n: nat, steps: seq<Step>, i: nat, command: Bytes)
    requires i < n
    ensures
      var s, s' := After(n, steps), Next(After(n, steps), Act(i, Propose(command)));
      Silent(s, s', i) && Stored(s.nodes[i], s'.nodes[i], command)
  {
    Reachable(n, steps);
    hide Inv, After, Next, Silent, Stored;
    ProposeStores(After(n, steps), i, command);
  }

  /** The k entries after prev of a leader's log, as they are sent. */
  function Stretch(x: Node, prev: int, k: int): AppendArgs
    requires 0 <= prev && 0 <= k && prev + k <= |x.logs|
  {
    AppendArgs(x.currentTerm, x.me, prev, TermBefore(x.logs, prev), x.logs[prev..prev + k], x.commitIndex)
  }

  /** y has taken the first k entries out of the buffer for peer p, and what is sent is the stretch of
      its log that they are, announced by the term of the entry before it. */
  predicate Drawn(x: Node, p: int, k: int, y: Node, sent: set<Message>) {
    && 0 <= p < |x.pending| && 0 <= k <= |x.pending[p]| <= |x.logs|
    && var prev := |x.logs| - |x.pending[p]|;
       && x.pending[p] == x.logs[prev..]
       && y == x.(pending := x.pending[p := x.pending[p][k..]])
       && sent == {AppendRequest(p, Stretch(x, prev, k))}
  }

  lemma BatchContents(n: nat, h: History, x: Node, p: int, k: int)
    requires NodeInv(n, h, x.me, x) && x.status == Leader && x.senderAlive
    requires 0 <= p < n && p != x.me && 1 <= k <= |x.pending[p]|
    ensures Drawn(x, p, k, RunSendBatch(x, h, p, k).node, RunSendBatch(x, h, p, k).sent)
  {
    assert Tail(x, x.pending[p]);
    var prev := |x.logs| - |x.pending[p]|;
    assert x.pending[p][..k] == x.logs[prev..prev + k];
    assert x.pending[p][..k][0] == x.logs[prev] && x.logs[prev].index == prev + 1;
    LogTermAtExactly(x, prev);
    hide LogTermAt;
  }

  ghost predicate SendsBatch(s: Cluster, s': Cluster, i: int, p: int, k: int)
    requires Sized(s) && Sized(s') && s'.n == s.n && 0 <= i < s.n
  {
    exists sent :: Became(s, s', i, s'.nodes[i], sent) && Drawn(s.nodes[i], p, k, s'.nodes[i], sent)
  }

  lemma SendDraws(s: Cluster, i: int, p: int, k: int)
    requires Inv(s) && 0 <= i < s.n && EventEnabled(s, i, SendBatch(p, k))
    ensures SendsBatch(s, Next(s, Act(i, SendBatch(p, k))), i, p, k)
  {
    NodeOf(s, i);
    Happens(s, i, SendBatch(p, k));
    hide Inv, HistInv, Next, Became, CountersOk, Drawn, RunSendBatch, NodeInv;
    BatchContents(s.n, s.hist, s.nodes[i], p, k);
  }

  /** What is sent to peer p are the first k entries of its buffer, in order, with the leader's commit
      index. */
  lemma BatchIsSent(n: nat, steps: seq<Step>, i: nat, p: int, k: int)
    requires i < n && EventEnabled(After(n, steps), i, SendBatch(p, k))
    ensures SendsBatch(After(n, steps), Next(After(n, steps), Act(i, SendBatch(p, k))), i, p, k)
  {
    Reachable(n, steps);
    hide Inv, After, Next, SendsBatch;
    SendDraws(After(n, steps), i, p, k);
  }

  /** A probe of the leader's log just before the index it expects peer m.to to lack. */
  predicate IsHeartbeat(n: nat, x: Node, m: Message)
    requires |x.nextIndex| == n
  {
    && m.AppendRequest? && 0 <= m.to < n && m.to != x.me && 1 <= x.nextIndex[m.to] <= |x.logs| + 1
    && m.args == Stretch(x, x.nextIndex[m.to] - 1, 0)
  }

  lemma HeartbeatContents(n: nat, h: History, x: Node)
    requires NodeInv(n, h, x.me, x) && x.status == Leader
    ensures
      var e := RunHeartbeat(n, x, h);
      e.node == x && forall m :: m in e.sent <==> IsHeartbeat(n, x, m)
  {
    ClampExactly(x);
    assert ClampNext(x).nextIndex == x.nextIndex;
    assert ClampNext(x) == x;
    forall p | 0 <= p < n && p != x.me
      ensures IsHeartbeat(n, x, AppendRequest(p, HeartbeatArgs(x, p)))
    {
      LogTermAtExactly(x, x.nextIndex[p] - 1);
    }
    hide LogTermAt, ClampNext;
    forall m | IsHeartbeat(n, x, m) ensures m == AppendRequest(m.to, HeartbeatArgs(x, m.to)) {
      LogTermAtExactly(x, x.nextIndex[m.to] - 1);
    }
  }

  ghost predicate SendsHeartbeats(s: Cluster, s': Cluster, i: int)
    requires Sized(s) && Sized(s') && 0 <= i < s.n
  {
    exists sent: set<Message> ::
      Became(s, s', i, s.nodes[i], sent) && forall m :: m in sent <==> IsHeartbeat(s.n, s.nodes[i], m)
  }

  lemma HeartbeatSends(s: Cluster, i: int)
    requires Inv(s) && 0 <= i < s.n && s.nodes[i].status == Leader
    ensures SendsHeartbeats(s, Next(s, Act(i, Heartbeat)), i)
  {
    NodeOf(s, i);
    Happens(s, i, Heartbeat);
    hide Inv, HistInv, Next, Became, CountersOk, RunHeartbeat, IsHeartbeat, NodeInv;
    HeartbeatContents(s.n, s.hist, s.nodes[i]);
  }

  /** One heartbeat goes to each peer; the leader itself stays as it is. */
  lemma HeartbeatsAreSent(n: nat, steps: seq<Step>, i: nat)
    requires i < n && After(n, steps).nodes[i].status == Leader
    ensures SendsHeartbeats(After(n, steps), Next(After(n, steps), Act(i, Heartbeat)), i)
  {
    Reachable(n, steps);
    hide Inv, After, Next, SendsHeartbeats;
    HeartbeatSends(After(n, steps), i);
  }

  // ---------------------------------------------------------------- AppendEntries

  /** The log holds an entry of this term at this index; index 0 stands for the start of the log. */
  predicate Holds(logs: seq<Entry>, index: int, term: int) {
    0 <= index <= |logs| && TermBefore(logs, index) == term
  }

  /** Entries u to prev are the whole stretch of entries with the term at prev, up to prev. */
  predicate StartsRun(logs: seq<Entry>, u: int, prev: int) {
    && 1 <= u <= prev <= |logs|
    && (forall k :: u - 1 <= k < prev ==> logs[k].term == logs[prev - 1].term)
    && (u > 1 ==> logs[u - 2].term != logs[prev - 1].term)
  }

  /** What a receiver x makes of a batch, and its answer. */
  ghost predicate Answered(x: Node, a: AppendArgs, y: Node, r: AppendReply) {
    && r.term == Max(a.term, x.currentTerm)
    && (r.success <==> a.term >= x.currentTerm && Holds(x.logs, a.prevIndex, a.prevTerm))
    && (if a.term < x.currentTerm then y == x && r.updateNextIndex == NO_BACKOFF else Follows(x, a, y))
    && (a.term >= x.currentTerm && !r.success ==>
          && y.logs == x.logs && y.commitIndex == x.commitIndex
          && if a.prevIndex > |x.logs| then r.updateNextIndex == |x.logs| + 1
             else StartsRun(x.logs, r.updateNextIndex, a.prevIndex))
    && (r.success ==>
          && 0 <= a.prevIndex && Merged(x.logs, a.prevIndex, a.entries, y.logs)
          && y.commitIndex == if a.leaderCommit > x.commitIndex then Min(a.leaderCommit, |y.logs|) else x.commitIndex)
  }

  lemma ReceiverAnswers(n: nat, h: History, x: Node, a: AppendArgs) returns (r: AppendReply)
    requires NodeInv(n, h, x.me, x) && HistInv(n, h) && 0 <= x.me < n
    requires ArgsOk(n, h.reigns, a) && a.leaderId != x.me && RunAppend(x, h, a).Done?
    ensures
      var e := RunAppend(x, h, a).value;
      e.sent == {AppendResponse(x.me, a, r)} && Answered(x, a, e.node, r)
  {
    r := AppendEntries(x, a).value.reply;
    AppendExactly(x, a);
    MatchLogExactly(x, a.prevIndex, a.prevTerm);
    if r.success {
      BatchKnown(n, h, a);
      OverwriteMerges(x.logs, a.prevIndex, a.entries);
    } else if a.term >= x.currentTerm && a.prevIndex <= |x.logs| {
      ScanStartsRun(x, a.prevIndex);
    }
    hide AppendEntries, HistInv, Overwrite, Merged, StartsRun, MatchLog, BackoffFrom;
  }

  lemma ScanStartsRun(x: Node, prev: int)
    requires x.snapIndex == 0 && x.snapTerm == 0 && 1 <= prev <= |x.logs|
    requires forall k :: 0 <= k < |x.logs| ==> 1 <= x.logs[k].term
    ensures StartsRun(x.logs, BackoffFrom(x, prev, prev), prev)
  {
    var u := BackoffFrom(x, prev, prev);
    BackoffExactly(x, prev, prev);
    assert LogTermAt(x, 0) == 0 && LogTermAt(x, prev) == x.logs[prev - 1].term;
    forall k | u - 1 <= k < prev ensures x.logs[k].term == x.logs[prev - 1].term {
      assert LogTermAt(x, k + 1) == x.logs[k].term;
    }
  }

  ghost predicate Answers(s: Cluster, s': Cluster, i: int, a: AppendArgs)
    requires Sized(s) && Sized(s') && s'.n == s.n && 0 <= i < s.n
  {
    exists r ::
      Became(s, s', i, s'.nodes[i], {AppendResponse(i, a, r)}) && Answered(s.nodes[i], a, s'.nodes[i], r)
  }

  lemma ReceiptAnswers(s: Cluster, i: int, m: Message)
    requires Inv(s) && 0 <= i < s.n && EventEnabled(s, i, OnAppend(m))
    ensures Answers(s, Next(s, Act(i, OnAppend(m))), i, m.args)
  {
    NodeOf(s, i);
    MessageOf(s, m);
    Happens(s, i, OnAppend(m));
    assert ArgsOk(s.n, s.hist.reigns, m.args) && m.args.leaderId != i;
    hide Inv, NodeInv, HistInv, MsgInv, Next, Became, CountersOk, RunAppend, Answered, ArgsOk;
    var r := ReceiverAnswers(s.n, s.hist, s.nodes[i], m.args);
  }

  /** A batch or heartbeat is answered once everything it changes is on disk; it is accepted exactly if
      it is not stale and the receiver's log has the sender's term at prev. */
  lemma BatchIsAnswered(n: nat, steps: seq<Step>, i: nat, m: Message)
    requires i < n && EventEnabled(After(n, steps), i, OnAppend(m))
    ensures Answers(After(n, steps), Next(After(n, steps), Act(i, OnAppend(m))), i, m.args)
  {
    Reachable(n, steps);
    hide Inv, After, Next, Answers;
    ReceiptAnswers(After(n, steps), i, m);
  }

  // ---------------------------------------------------------------- replies, commitment

  /** What a node makes of the answer of peer p to one of its batches. Only the leader of the answer's
      term acts on it: a refusal moves nextIndex where it points; a positive answer moves matchIndex and
      nextIndex up to the end of the batch, and commits all of it exactly if two nodes are a majority. */
  predicate Counted(x: Node, p: int, a: AppendArgs, r: AppendReply, y: Node)
    requires 0 <= p < |x.matchIndex| && p < |x.nextIndex|
  {
    var matched := Max(x.matchIndex[p], a.prevIndex + |a.entries|);
    y == if r.term > x.currentTerm then x.(status := Follower, currentTerm := r.term, votedFor := -1)
         else if r.term < x.currentTerm || x.status != Leader then x
         else if !r.success && r.updateNextIndex == NO_BACKOFF then x
         else if !r.success then x.(nextIndex := x.nextIndex[p := r.updateNextIndex])
         else x.(matchIndex := x.matchIndex[p := matched], nextIndex := x.nextIndex[p := matched + 1],
                 commitIndex := if x.peers <= 3 && |a.entries| > 0 then Max(x.commitIndex, a.prevIndex + |a.entries|)
                                else x.commitIndex)
  }

  lemma LeaderCounts(n: nat, h: History, x: Node, m: Message, count: int)
    requires m.AppendResponse? && MsgInv(n, h.ballots, h.reigns, m) && x.peers == n && x.snapIndex == 0
    requires 0 <= m.from < |x.nextIndex| && m.from < |x.matchIndex| && (|m.args.entries| > 0 ==> count == 1)
    requires RunAppendReply(x, h, m, count).Done?
    ensures
      var e := RunAppendReply(x, h, m, count).value;
      e.sent == {} && Counted(x, m.from, m.args, m.reply, e.node)
  {
    ReplyExactly(x, m.from, m.args, m.reply, count);
    hide AppendAnswered;
  }

  lemma ReplyCounts(s: Cluster, i: int, m: Message, count: int)
    requires Inv(s) && 0 <= i < s.n && EventEnabled(s, i, OnAppendReply(m, count))
    ensures |s.nodes[i].matchIndex| == |s.nodes[i].nextIndex| == s.n
    ensures
      var s' := Next(s, Act(i, OnAppendReply(m, count)));
      Silent(s, s', i) && Counted(s.nodes[i], m.from, m.args, m.reply, s'.nodes[i])
  {
    NodeOf(s, i);
    MessageOf(s, m);
    Happens(s, i, OnAppendReply(m, count));
    hide Inv, NodeInv, HistInv, MsgInv, Next, Became, CountersOk, RunAppendReply, Counted;
    LeaderCounts(s.n, s.hist, s.nodes[i], m, count);
  }

  lemma AnswerIsCounted(n: nat, steps: seq<Step>, i: nat, m: Message, count: int)
    requires i < n && EventEnabled(After(n, steps), i, OnAppendReply(m, count))
    ensures |After(n, steps).nodes[i].matchIndex| == |After(n, steps).nodes[i].nextIndex| == n
    ensures
      var s, s' := After(n, steps), Next(After(n, steps), Act(i, OnAppendReply(m, count)));
      Silent(s, s', i) && Counted(s.nodes[i], m.from, m.args, m.reply, s'.nodes[i])
  {
    Reachable(n, steps);
    hide Inv, After, Next, Silent, Counted;
    ReplyCounts(After(n, steps), i, m, count);
  }

  /** With two or three nodes the first positive answer to a batch of the leader's term commits all of
      it; with more, no answer commits anything. */
  lemma FirstAnswerCommits(n: nat, steps: seq<Step>, i: nat, m: Message)
    requires i < n && EventEnabled(After(n, steps), i, OnAppendReply(m, 1))
    requires m.reply.success && |m.args.entries| > 0
    requires
      var x := After(n, steps).nodes[i];
      x.status == Leader && x.currentTerm == m.args.term
    ensures
      var x, y := After(n, steps).nodes[i], Next(After(n, steps), Act(i, OnAppendReply(m, 1))).nodes[i];
      y.commitIndex == if n <= 3 then Max(x.commitIndex, m.args.prevIndex + |m.args.entries|) else x.commitIndex
  {
    Reachable(n, steps);
    var s := After(n, steps);
    ReplyCounts(s, i, m, 1);
    NodeOf(s, i);
    MessageOf(s, m);
    hide After, Inv, Next, NodeInv, HistInv, CountersOk, Silent;
  }

  // ---------------------------------------------------------------- apply

  /** One round of the applier pushes one message per entry, in order, up to the commit index, and
      changes nothing else. */
  predicate Applied(x: Node, y: Node) {
    && y == x.(lastApplied := x.commitIndex, applied := y.applied)
    && |y.applied| == x.commitIndex <= |x.logs| && x.applied <= y.applied
    && forall k :: |x.applied| <= k < x.commitIndex ==> y.applied[k] == ApplyMsg(k + 1, x.logs[k].command)
  }

  lemma ApplyEffect(x: Node)
    requires CountersOk(x) && x.snapIndex == 0 && ApplyCommitted(x).Done?
    ensures Applied(x, ApplyCommitted(x).value)
  {
    ApplyExactly(x);
    assert 0 <= x.lastApplied <= x.commitIndex <= |x.logs| && |x.applied| == x.lastApplied;
    hide ApplyCommitted, CountersOk;
    var y := ApplyCommitted(x).value;
    forall k | |x.applied| <= k < x.commitIndex ensures y.applied[k] == ApplyMsg(k + 1, x.logs[k].command) {
    }
  }

  lemma DeliverApplies(s: Cluster, i: int)
    requires Inv(s) && 0 <= i < s.n
    ensures
      var s' := Next(s, Act(i, Deliver));
      Silent(s, s', i) && Applied(s.nodes[i], s'.nodes[i])
  {
    NodeOf(s, i);
    Happens(s, i, Deliver);
    hide Inv, NodeInv, HistInv, Next, Became, CountersOk, ApplyCommitted, Applied;
    ApplyEffect(s.nodes[i]);
  }

  lemma AppliesAll(n: nat, steps: seq<Step>, i: nat)
    requires i < n
    ensures
      var s, s' := After(n, steps), Next(After(n, steps), Act(i, Deliver));
      Silent(s, s', i) && Applied(s.nodes[i], s'.nodes[i])
  {
    Reachable(n, steps);
    hide Inv, After, Next, Silent, Applied;
    DeliverApplies(After(n, steps), i);
  }

  /** The sender thread of a deposed leader ends, and nothing else happens. */
  lemma SenderEnds(n: nat, steps: seq<Step>, i: nat)
    requires i < n && EventEnabled(After(n, steps), i, SenderExit)
    ensures
      var s := After(n, steps);
      Became(s, Next(s, Act(i, SenderExit)), i, s.nodes[i].(senderAlive := false), {})
  {
    Reachable(n, steps);
    Happens(After(n, steps), i, SenderExit);
    hide After, Inv, Next, Became;
  }
}
