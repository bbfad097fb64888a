/** Acknowledgements in every run: what the leader is told, a durable log holds. */
module Acknowledgements {
  import opened Bytes
  import opened RaftTypes
  import opened RaftHandlers
  import opened Cluster
  import opened Invariants
  import opened EventsKeep

  /** A leader counts itself for every entry of its own term: Start persists before it returns. */
  ghost predicate OwnAcked(acks: set<Ack>, g: Reigns) {
    forall t, k :: t in g && 0 <= k < |g[t].log| && g[t].log[k].term == t ==>
      Ack(g[t].leader, t, k + 1) in acks
  }

  /** A positive reply to a non-empty batch records an acknowledgement by the replying node. */
  ghost predicate ResponseAcked(acks: set<Ack>, m: Message) {
    m.AppendResponse? && m.reply.success && |m.args.entries| > 0 ==>
      Ack(m.from, m.args.term, m.args.prevIndex + |m.args.entries|) in acks
  }

  ghost predicate AckInv(s: Cluster) {
    && OwnAcked(s.hist.acks, s.hist.reigns)
    && forall m :: m in s.msgs ==> ResponseAcked(s.hist.acks, m)
  }

  lemma AppendAcked(x: Node, h: History, a: AppendArgs)
    requires RunAppend(x, h, a).Done?
    ensures forall m :: m in RunAppend(x, h, a).value.sent ==> ResponseAcked(RunAppend(x, h, a).value.hist.acks, m)
  {
    var r := AppendEntries(x, a).value;
    assert r.reply.success ==> r.node.currentTerm == a.term;
  }

  lemma WinAcked(s: Cluster, i: int, m: Message)
    requires Inv(s) && AckInv(s) && 0 <= i < s.n && EventEnabled(s, i, OnVoteReply(m))
    requires RunVoteReply(s.nodes[i], s.hist, m).Done?
    ensures
      var h' := RunVoteReply(s.nodes[i], s.hist, m).value.hist;
      OwnAcked(h'.acks, h'.reigns)
  {
    var x, h := s.nodes[i], s.hist;
    var h' := RunVoteReply(x, h, m).value.hist;
    assert NodeInv(s.n, h, i, x) && MsgInv(s.n, h.ballots, h.reigns, m);
    if h' != h {
      VoteReplySound(s.n, h, x, m);
      WinIsNew(s, i, m);
      assert forall k :: 0 <= k < |x.logs| ==> Known(h.reigns, x.logs[k]);
    }
  }

  /** The effect of a win: a reign that did not exist, over the winner's log, with a majority of
      ballots for the winner. */
  ghost predicate WonEffect(h: History, x: Node, e: Effect) {
    && x.election.Election? && x.election.term == x.currentTerm && x.currentTerm !in h.reigns
    && e.node.election.Election? && e.node.election.term == x.currentTerm
    && e.node == BecomeLeader(x.(election := e.node.election)) && e.sent == {}
    && x.currentTerm in e.hist.reigns
    && var r := e.hist.reigns[x.currentTerm];
       && r.leader == x.me && r.log == x.logs
       && (forall v :: v in r.voters ==> VotedFor(h.ballots, v, x.currentTerm, x.me))
       && e.hist == h.(wins := e.hist.wins, reigns := h.reigns[x.currentTerm := r])
  }

  lemma WinIsNew(s: Cluster, i: int, m: Message)
    requires Inv(s) && 0 <= i < s.n && EventEnabled(s, i, OnVoteReply(m))
    requires RunVoteReply(s.nodes[i], s.hist, m).Done? && RunVoteReply(s.nodes[i], s.hist, m).value.hist != s.hist
    ensures WonEffect(s.hist, s.nodes[i], RunVoteReply(s.nodes[i], s.hist, m).value)
  {
    var x, h := s.nodes[i], s.hist;
    assert NodeInv(s.n, h, i, x) && MsgInv(s.n, h.ballots, h.reigns, m);
    WonNode(s.n, h, x, m);
  }

  lemma WonNode(n: nat, h: History, x: Node, m: Message)
    requires NodeInv(n, h, x.me, x) && HistInv(n, h) && 0 <= x.me < n
    requires m.VoteReply? && MsgInv(n, h.ballots, h.reigns, m) && m.to == x.me
    requires x.election.Election? && x.election.term == m.asked && m.from !in x.election.answered
    requires RunVoteReply(x, h, m).Done? && RunVoteReply(x, h, m).value.hist != h
    ensures WonEffect(h, x, RunVoteReply(x, h, m).value)
  {
    WonGrant(x, h, m);
    GrantResult(x, h, m);
    GrantedSize(n, x, m.from);
    TermUntaken(n, h, x, Granted(x, m.from, 0).election.granted + {x.me});
  }

  lemma WonGrant(x: Node, h: History, m: Message)
    requires m.VoteReply? && x.election.Election?
    requires RunVoteReply(x, h, m).Done? && RunVoteReply(x, h, m).value.hist != h
    ensures m.granted && m.term == x.currentTerm && x.status != Leader
  {
  }

  lemma ProposeAcked(s: Cluster, i: int, command: Bytes)
    requires Inv(s) && AckInv(s) && 0 <= i < s.n
    ensures
      var h' := RunPropose(s.nodes[i], s.hist, command).hist;
      OwnAcked(h'.acks, h'.reigns)
  {
    assert NodeInv(s.n, s.hist, i, s.nodes[i]);
  }

  /** Events that add neither reigns nor acknowledgements, and send no replies to batches. */
  lemma QuietAcked(s: Cluster, i: int, ev: Event)
    requires Inv(s) && AckInv(s) && 0 <= i < s.n && EventEnabled(s, i, ev) && Run(s, i, ev).Done?
    requires !ev.OnVoteReply? && !ev.Propose? && !ev.OnAppend?
    ensures
      var e := Run(s, i, ev).value;
      && OwnAcked(e.hist.acks, e.hist.reigns) && s.hist.acks <= e.hist.acks
      && forall m :: m in e.sent ==> ResponseAcked(e.hist.acks, m)
  {
    assert OwnAcked(s.hist.acks, s.hist.reigns);
    hide Inv, AckInv, OwnAcked;
  }

  lemma RunAcked(s: Cluster, i: int, ev: Event)
    requires Inv(s) && AckInv(s) && 0 <= i < s.n && EventEnabled(s, i, ev) && Run(s, i, ev).Done?
    ensures
      var e := Run(s, i, ev).value;
      && OwnAcked(e.hist.acks, e.hist.reigns) && s.hist.acks <= e.hist.acks
      && forall m :: m in e.sent ==> ResponseAcked(e.hist.acks, m)
  {
    match ev
    case OnVoteReply(m) => WinAcked(s, i, m);
    case Propose(command) => ProposeAcked(s, i, command);
    case OnAppend(m) => AppendAcked(s.nodes[i], s.hist, m.args);
    case _ => QuietAcked(s, i, ev);
  }

  lemma NextAcked(s: Cluster, step: Step)
    requires Inv(s) && AckInv(s)
    ensures AckInv(Next(s, step))
  {
    if Enabled(s, step) && !step.Crash? {
      if Run(s, step.i, step.ev).Done? {
        RunAcked(s, step.i, step.ev);
      }
    }
  }

  lemma {:induction false} AlwaysAcked(n: nat, steps: seq<Step>)
    ensures AckInv(After(n, steps))
    decreases |steps|
  {
    if |steps| > 0 {
      AlwaysAcked(n, steps[..|steps| - 1]);
      Reachable(n, steps[..|steps| - 1]);
      NextAcked(After(n, steps[..|steps| - 1]), steps[|steps| - 1]);
    }
  }
}
