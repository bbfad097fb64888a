/** How the states of one run are related to each other. */
module RunHistory {
  import opened RaftTypes
  import opened RaftHandlers
  import opened Cluster
  import opened Invariants
  import opened EventsKeep

  /** The state after the first p steps. */
  function At(n: nat, steps: seq<Step>, p: nat): (s: Cluster)
    requires p <= |steps|
    ensures Sized(s) && s.n == n
  {
    After(n, steps[..p])
  }

  lemma AtNext(n: nat, steps: seq<Step>, p: nat)
    requires p < |steps|
    ensures At(n, steps, p + 1) == Next(At(n, steps, p), steps[p])
  {
    assert steps[..p + 1][..p] == steps[..p];
  }

  // ---------------------------------------------------------------- history only grows

  lemma NextGrows(s: Cluster, step: Step)
    requires Inv(s)
    ensures Grows(s.hist, Next(s, step).hist)
  {
    if Enabled(s, step) && !step.Crash? {
      EventSound(s, step.i, step.ev);
      assert NodeInv(s.n, s.hist, step.i, s.nodes[step.i]);
      assert GrowsBy(step.i, s.hist, Run(s, step.i, step.ev).value.hist);
    }
  }

  lemma GrowsTrans(h: History, h1: History, h2: History)
    requires Grows(h, h1) && Grows(h1, h2)
    ensures Grows(h, h2)
  {
  }

  lemma InvAt(n: nat, steps: seq<Step>, p: nat)
    requires p <= |steps|
    ensures Inv(At(n, steps, p))
  {
    Reachable(n, steps[..p]);
  }

  lemma {:induction false} RunGrows(n: nat, steps: seq<Step>, p: nat, q: nat)
    requires p <= q <= |steps|
    ensures Grows(At(n, steps, p).hist, At(n, steps, q).hist)
    decreases q - p
  {
    hide Inv, Next, Grows, GrowsBy, At;
    if p == q {
      GrowsRefl(0, At(n, steps, p).hist);
    } else {
      RunGrows(n, steps, p, q - 1);
      InvAt(n, steps, q - 1);
      AtNext(n, steps, q - 1);
      NextGrows(At(n, steps, q - 1), steps[q - 1]);
      GrowsTrans(At(n, steps, p).hist, At(n, steps, q - 1).hist, At(n, steps, q).hist);
    }
  }

  // ---------------------------------------------------------------- what one event keeps

  /** The log does not get shorter, the commit index does not go back, nothing applied is taken
      back. */
  ghost predicate Advances(x: Node, y: Node) {
    && |x.logs| <= |y.logs|
    && x.commitIndex <= y.commitIndex
    && x.lastApplied <= y.lastApplied
    && x.applied <= y.applied
  }

  lemma AppendAdvances(n: nat, h: History, x: Node, a: AppendArgs)
    requires NodeInv(n, h, x.me, x) && HistInv(n, h) && 0 <= x.me < n
    requires ArgsOk(n, h.reigns, a) && a.leaderId != x.me
    requires RunAppend(x, h, a).Done?
    ensures Advances(x, RunAppend(x, h, a).value.node)
  {
    if a.term >= x.currentTerm {
      if a.prevIndex <= |x.logs| && MatchLog(x, a.prevIndex, a.prevTerm) {
        BatchKnown(n, h, a);
        KnownNoClash(h.reigns, x.logs, a.prevIndex, a.entries);
        MatchEffect(n, h, x, a);
      } else {
        AppendRefused(n, h, x, a);
      }
    }
  }

  lemma ReplyAdvances(n: nat, h: History, x: Node, m: Message, count: int)
    requires NodeInv(n, h, x.me, x) && 0 <= x.me < n
    requires m.AppendResponse? && MsgInv(n, h.ballots, h.reigns, m)
    requires RunAppendReply(x, h, m, count).Done?
    ensures Advances(x, RunAppendReply(x, h, m, count).value.node)
  {
  }

  lemma QuietAdvances(s: Cluster, i: int, ev: Event)
    requires Sized(s) && 0 <= i < s.n && EventEnabled(s, i, ev) && Run(s, i, ev).Done?
    requires !ev.OnAppend? && !ev.OnAppendReply? && !ev.Deliver?
    ensures Advances(s.nodes[i], Run(s, i, ev).value.node)
  {
  }

  lemma EventAdvances(s: Cluster, i: int, ev: Event)
    requires Inv(s) && 0 <= i < s.n && EventEnabled(s, i, ev)
    ensures Run(s, i, ev).Done? && Advances(s.nodes[i], Run(s, i, ev).value.node)
  {
    var n, h, x := s.n, s.hist, s.nodes[i];
    EventSound(s, i, ev);
    assert NodeInv(n, h, i, x) && HistInv(n, h) && x.me == i;
    match ev
    case OnAppend(m) =>
      assert MsgInv(n, h.ballots, h.reigns, m);
      hide Inv, NodeInv, HistInv;
      AppendAdvances(n, h, x, m.args);
    case OnAppendReply(m, count) =>
      assert MsgInv(n, h.ballots, h.reigns, m);
      hide Inv, NodeInv, HistInv;
      ReplyAdvances(n, h, x, m, count);
    case Deliver =>
      DeliverNode(n, h, x);
    case _ =>
      hide Inv, NodeInv, HistInv;
      QuietAdvances(s, i, ev);
  }

  /** Across any step, crashes included, a log does not get shorter; within the life of a process
      nothing goes back. */
  lemma NextAdvances(s: Cluster, step: Step, i: int)
    requires Inv(s) && 0 <= i < s.n
    ensures |s.nodes[i].logs| <= |Next(s, step).nodes[i].logs|
    ensures step.Act? || step.i != i ==> Advances(s.nodes[i], Next(s, step).nodes[i])
  {
    if Enabled(s, step) {
      assert s.disks[step.i] == PersistData(s.nodes[step.i]);
      if !step.Crash? {
        EventAdvances(s, step.i, step.ev);
        RunFits(s, step.i, step.ev);
      }
      hide Inv, Run, EventEnabled;
    }
  }

  // ---------------------------------------------------------------- what one event applies

  lemma AppendAppliesNothing(x: Node, h: History, a: AppendArgs)
    requires RunAppend(x, h, a).Done?
    ensures RunAppend(x, h, a).value.node.applied == x.applied
  {
  }

  lemma ReplyAppliesNothing(x: Node, h: History, m: Message, count: int)
    requires m.AppendResponse? && 0 <= m.from < |x.nextIndex| && 0 <= m.from < |x.matchIndex|
    requires RunAppendReply(x, h, m, count).Done?
    ensures RunAppendReply(x, h, m, count).value.node.applied == x.applied
  {
  }

  lemma EventApplies(s: Cluster, i: int, ev: Event)
    requires Sized(s) && 0 <= i < s.n && EventEnabled(s, i, ev) && Run(s, i, ev).Done?
    ensures !ev.Deliver? ==> Run(s, i, ev).value.node.applied == s.nodes[i].applied
  {
    match ev
    case OnAppend(m) => AppendAppliesNothing(s.nodes[i], s.hist, m.args);
    case OnAppendReply(m, count) => ReplyAppliesNothing(s.nodes[i], s.hist, m, count);
    case _ =>
  }

  /** A step leaves what node i has applied alone, or ends the process, or applies more of its log. */
  ghost predicate Applies(x: Node, y: Node) {
    || y.applied == x.applied
    || y.applied == []
    || (&& |x.applied| <= |y.applied| <= |x.logs| && x.applied <= y.applied
        && forall k :: |x.applied| <= k < |y.applied| ==> y.applied[k] == ApplyMsg(k + 1, x.logs[k].command))
  }

  lemma NextApplies(s: Cluster, step: Step, i: int)
    requires Inv(s) && 0 <= i < s.n
    ensures Applies(s.nodes[i], Next(s, step).nodes[i])
  {
    if Enabled(s, step) && step.i == i && step.Act? {
      EventSound(s, i, step.ev);
      EventApplies(s, i, step.ev);
      assert NodeInv(s.n, s.hist, i, s.nodes[i]);
      if step.ev.Deliver? {
        DeliverApplies(s.nodes[i]);
      }
      hide Inv, NodeInv, ApplyCommitted;
    }
  }

  lemma DeliverApplies(x: Node)
    requires CountersOk(x) && x.snapIndex == 0
    ensures ApplyCommitted(x).Done? && Applies(x, ApplyCommitted(x).value)
  {
  }
}
