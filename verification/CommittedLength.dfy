/** How far a commit index can run ahead, in every run: never past the end of a majority's logs. */
module CommittedLength {
  import opened RaftTypes
  import opened RaftHandlers
  import opened Cluster
  import opened Majorities
  import opened Invariants
  import opened EventsKeep
  import opened SafetyRuns
  import opened RunHistory

  /** The nodes whose log has at least c entries. */
  function Reach(s: Cluster, c: int): (r: set<int>)
    requires Sized(s)
    ensures forall v :: v in r <==> 0 <= v < s.n && |s.nodes[v].logs| >= c
  {
    set v | 0 <= v < s.n && |s.nodes[v].logs| >= c
  }

  ghost predicate Backed(s: Cluster, c: int)
    requires Sized(s)
  {
    c <= 0 || |Reach(s, c)| >= Quorum(s.n)
  }

  ghost predicate ResponseReached(s: Cluster, m: Message)
    requires Sized(s)
  {
    m.AppendResponse? && m.reply.success ==>
      0 <= m.from < s.n && m.args.prevIndex + |m.args.entries| <= |s.nodes[m.from].logs|
  }

  /** Every commit index, in a node or on its way to one, is backed; and whoever accepted a batch
      has a log that reaches its end. */
  ghost predicate LengthInv(s: Cluster)
    requires Sized(s)
  {
    && (forall i :: 0 <= i < s.n ==> Backed(s, s.nodes[i].commitIndex))
    && (forall m :: m in s.msgs ==> ResponseReached(s, m) && (m.AppendRequest? ==> Backed(s, m.args.leaderCommit)))
  }

  /** No log is shorter in s' than in s. */
  ghost predicate Longer(s: Cluster, s': Cluster)
    requires Sized(s) && Sized(s')
  {
    s'.n == s.n && forall i :: 0 <= i < s.n ==> |s.nodes[i].logs| <= |s'.nodes[i].logs|
  }

  lemma BackedStays(s: Cluster, s': Cluster, c: int)
    requires Sized(s) && Sized(s') && Longer(s, s') && Backed(s, c)
    ensures Backed(s', c)
  {
    SubsetSize(Reach(s, c), Reach(s', c));
  }

  lemma BackedBelow(s: Cluster, c: int, d: int)
    requires Sized(s) && Backed(s, d) && c <= d
    ensures Backed(s, c)
  {
    SubsetSize(Reach(s, d), Reach(s, c));
  }

  // ---------------------------------------------------------------- one event

  /** An accepted batch: the log reaches its end, and the commit index follows the leader's. */
  lemma AppendReaches(n: nat, h: History, x: Node, a: AppendArgs)
    requires NodeInv(n, h, x.me, x) && HistInv(n, h) && 0 <= x.me < n
    requires ArgsOk(n, h.reigns, a) && a.leaderId != x.me && RunAppend(x, h, a).Done?
    ensures
      var e := RunAppend(x, h, a).value;
      && e.node.commitIndex <= Max(x.commitIndex, a.leaderCommit)
      && forall m :: m in e.sent ==>
           m.AppendResponse? && m.from == x.me && m.args == a
           && (m.reply.success ==> a.prevIndex + |a.entries| <= |e.node.logs|)
  {
    if a.term >= x.currentTerm {
      if a.prevIndex <= |x.logs| && MatchLog(x, a.prevIndex, a.prevTerm) {
        BatchKnown(n, h, a);
        KnownNoClash(h.reigns, x.logs, a.prevIndex, a.entries);
        MatchEffect(n, h, x, a);
      } else {
        AppendRefused(n, h, x, a);
      }
    }
  }

  /** A leader commits only up to the end of a batch, within its log, and only if two nodes are a
      majority. */
  lemma ReplyCommits(n: nat, h: History, x: Node, m: Message, count: int)
    requires NodeInv(n, h, x.me, x) && m.AppendResponse? && MsgInv(n, h.ballots, h.reigns, m)
    requires |m.args.entries| > 0 ==> count == 1
    requires RunAppendReply(x, h, m, count).Done?
    ensures
      var e, p := RunAppendReply(x, h, m, count).value, m.args.prevIndex + |m.args.entries|;
      && e.sent == {}
      && (e.node.commitIndex == x.commitIndex
          || (m.reply.success && 2 >= Quorum(n) && e.node.commitIndex == p <= |x.logs|))
  {
    ReplyEffect(n, x, h, m, count);
    hide RunAppendReply;
  }

  lemma ReplyBacked(s: Cluster, i: int, m: Message, count: int)
    requires Sized(s) && 0 <= i < s.n && m.AppendResponse? && 0 <= m.from < s.n && m.from != i
    requires NodeInv(s.n, s.hist, i, s.nodes[i]) && MsgInv(s.n, s.hist.ballots, s.hist.reigns, m)
    requires ResponseReached(s, m) && Backed(s, s.nodes[i].commitIndex) && (|m.args.entries| > 0 ==> count == 1)
    requires RunAppendReply(s.nodes[i], s.hist, m, count).Done?
    ensures
      var e := RunAppendReply(s.nodes[i], s.hist, m, count).value;
      e.sent == {} && Backed(s, e.node.commitIndex)
  {
    var x := s.nodes[i];
    assert x.me == i;
    ReplyCommits(s.n, s.hist, x, m, count);
    hide RunAppendReply, NodeInv, MsgInv, Backed;
    if RunAppendReply(x, s.hist, m, count).value.node.commitIndex != x.commitIndex {
      PeerBacks(s, i, m.from, m.args.prevIndex + |m.args.entries|);
    }
  }

  lemma PeerBacks(s: Cluster, i: int, j: int, c: int)
    requires Sized(s) && 0 <= i < s.n && 0 <= j < s.n && i != j && 2 >= Quorum(s.n)
    requires c <= |s.nodes[i].logs| && c <= |s.nodes[j].logs|
    ensures Backed(s, c)
  {
    assert {i, j} <= Reach(s, c);
    SubsetSize({i, j}, Reach(s, c));
  }

  /** All other events leave the commit index alone, and send at most that. */
  lemma QuietCommit(s: Cluster, i: int, ev: Event)
    requires Sized(s) && 0 <= i < s.n && EventEnabled(s, i, ev) && Run(s, i, ev).Done?
    requires !ev.OnAppend? && !ev.OnAppendReply?
    ensures
      var e := Run(s, i, ev).value;
      && e.node.commitIndex == s.nodes[i].commitIndex
      && forall m :: m in e.sent ==>
           !m.AppendResponse? && (m.AppendRequest? ==> m.args.leaderCommit == s.nodes[i].commitIndex)
  {
  }

  /** What one event must not break. */
  ghost predicate EffectBacked(s: Cluster, i: int, e: Effect)
    requires Sized(s)
  {
    && Backed(s, e.node.commitIndex)
    && forall m :: m in e.sent ==>
         && (m.AppendRequest? ==> Backed(s, m.args.leaderCommit))
         && (m.AppendResponse? && m.reply.success ==>
               m.from == i && m.args.prevIndex + |m.args.entries| <= |e.node.logs|)
  }

  lemma AppendBacked(s: Cluster, i: int, m: Message)
    requires Sized(s) && 0 <= i < s.n && m.AppendRequest? && m.to == i && HistInv(s.n, s.hist)
    requires NodeInv(s.n, s.hist, i, s.nodes[i]) && MsgInv(s.n, s.hist.ballots, s.hist.reigns, m)
    requires Backed(s, s.nodes[i].commitIndex) && Backed(s, m.args.leaderCommit)
    requires RunAppend(s.nodes[i], s.hist, m.args).Done?
    ensures EffectBacked(s, i, RunAppend(s.nodes[i], s.hist, m.args).value)
  {
    var x := s.nodes[i];
    assert x.me == i;
    AppendReaches(s.n, s.hist, x, m.args);
    hide NodeInv, HistInv, MsgInv, RunAppend, Backed;
    BackedBelow(s, RunAppend(x, s.hist, m.args).value.node.commitIndex, Max(x.commitIndex, m.args.leaderCommit));
  }

  /** What the invariants say of a node and a message. */
  lemma NodeFacts(s: Cluster, i: int)
    requires Inv(s) && LengthInv(s) && 0 <= i < s.n
    ensures NodeInv(s.n, s.hist, i, s.nodes[i]) && HistInv(s.n, s.hist) && Backed(s, s.nodes[i].commitIndex)
  {
  }

  lemma MessageFacts(s: Cluster, m: Message)
    requires Inv(s) && LengthInv(s) && m in s.msgs
    ensures MsgInv(s.n, s.hist.ballots, s.hist.reigns, m) && ResponseReached(s, m)
    ensures m.AppendRequest? ==> Backed(s, m.args.leaderCommit)
    ensures m.AppendResponse? ==> m.from != m.args.leaderId
  {
  }

  lemma EventBacked(s: Cluster, i: int, ev: Event)
    requires Sized(s) && 0 <= i < s.n && EventEnabled(s, i, ev) && Inv(s) && LengthInv(s)
    ensures Run(s, i, ev).Done? && EffectBacked(s, i, Run(s, i, ev).value)
  {
    hide Inv, LengthInv, Backed, NodeInv, HistInv, MsgInv;
    EventSound(s, i, ev);
    NodeFacts(s, i);
    match ev
    case OnAppend(m) =>
      MessageFacts(s, m);
      AppendBacked(s, i, m);
    case OnAppendReply(m, count) =>
      MessageFacts(s, m);
      ReplyBacked(s, i, m, count);
    case _ => QuietCommit(s, i, ev);
  }

  // ---------------------------------------------------------------- every run

  lemma NextLonger(s: Cluster, step: Step)
    requires Inv(s)
    ensures Longer(s, Next(s, step))
  {
    forall i | 0 <= i < s.n ensures |s.nodes[i].logs| <= |Next(s, step).nodes[i].logs| {
      NextAdvances(s, step, i);
    }
  }

  /** What a step does to commit indices and messages: node i changes as in an event, or starts over. */
  lemma StepBacked(s: Cluster, s': Cluster, i: int, e: Effect)
    requires Sized(s) && Sized(s') && LengthInv(s) && Longer(s, s') && 0 <= i < s.n && EffectBacked(s, i, e)
    requires forall j :: 0 <= j < s.n && j != i ==> s'.nodes[j] == s.nodes[j]
    requires s'.nodes[i].commitIndex == 0 || s'.nodes[i] == e.node
    requires s'.msgs == s.msgs || (s'.msgs == s.msgs + e.sent && s'.nodes[i] == e.node)
    ensures LengthInv(s')
  {
    forall j | 0 <= j < s.n ensures Backed(s', s'.nodes[j].commitIndex) {
      BackedStays(s, s', if j == i then e.node.commitIndex else s.nodes[j].commitIndex);
    }
    forall m | m in s'.msgs
      ensures ResponseReached(s', m) && (m.AppendRequest? ==> Backed(s', m.args.leaderCommit))
    {
      assert m in s.msgs ==> ResponseReached(s, m);
      if m.AppendRequest? {
        BackedStays(s, s', m.args.leaderCommit);
      }
    }
  }

  /** A step as StepBacked sees it. */
  lemma StepShape(s: Cluster, step: Step, e: Effect)
    requires Sized(s) && Enabled(s, step) && !step.Crash? && Run(s, step.i, step.ev) == Done(e)
    ensures
      var s', i := Next(s, step), step.i;
      && (forall j :: 0 <= j < s.n && j != i ==> s'.nodes[j] == s.nodes[j])
      && (s'.nodes[i].commitIndex == 0 || s'.nodes[i] == e.node)
      && (s'.msgs == s.msgs || (s'.msgs == s.msgs + e.sent && s'.nodes[i] == e.node))
  {
    RunFits(s, step.i, step.ev);
    hide Run, EventEnabled;
  }

  lemma NextBacked(s: Cluster, step: Step)
    requires Inv(s) && LengthInv(s)
    ensures LengthInv(Next(s, step))
  {
    if Enabled(s, step) {
      NextLonger(s, step);
      if step.Crash? {
        StepBacked(s, Next(s, step), step.i, Effect(s.nodes[step.i], {}, false, s.hist));
      } else {
        EventBacked(s, step.i, step.ev);
        var e := Run(s, step.i, step.ev).value;
        StepShape(s, step, e);
        hide Inv, LengthInv, EffectBacked, Run, EventEnabled, Longer, Next;
        StepBacked(s, Next(s, step), step.i, e);
      }
    }
  }

  lemma {:induction false} AlwaysBacked(n: nat, steps: seq<Step>)
    ensures LengthInv(After(n, steps))
    decreases |steps|
  {
    if |steps| > 0 {
      var before := steps[..|steps| - 1];
      AlwaysBacked(n, before);
      Reachable(n, before);
      NextBacked(After(n, before), steps[|steps| - 1]);
    }
  }

  /** In every run, conforming or not: a majority of the disks holds at least as many entries as any
      node has committed, if not always the same ones. */
  lemma CommitsAreBacked(n: nat, steps: seq<Step>, i: nat) returns (q: set<int>)
    requires i < n && 0 < After(n, steps).nodes[i].commitIndex
    ensures Majority(n, q)
    ensures forall v :: v in q ==>
              0 <= v < n && After(n, steps).nodes[i].commitIndex <= |After(n, steps).disks[v].logs|
  {
    AlwaysBacked(n, steps);
    Reachable(n, steps);
    var s := After(n, steps);
    assert Backed(s, s.nodes[i].commitIndex);
    q := Reach(s, s.nodes[i].commitIndex);
  }
}
