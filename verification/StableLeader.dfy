/** One leader, nobody else wins an election: safety without any assumption on the deliveries. */
module StableLeader {
  import opened Bytes
  import opened RaftTypes
  import opened RaftHandlers
  import opened Cluster
  import opened Majorities
  import opened Invariants
  import opened Receiver
  import opened EventsKeep
  import opened RunHistory
  import opened RaftTheorems
  import opened ConformingTheorems
  import opened CommittedLength

  /** Node l leads, nobody else does, and every log is a prefix of its log. */
  predicate Settled(s: Cluster, l: int)
    requires Sized(s) && 0 <= l < s.n
  {
    && s.nodes[l].status == Leader
    && forall i :: 0 <= i < s.n ==>
         s.nodes[i].logs <= s.nodes[l].logs && (s.nodes[i].status == Leader ==> i == l)
  }

  /** The delivery is refused, or adds no entry of another term than t. */
  predicate StableDelivery(x: Node, a: AppendArgs, t: int) {
    a.term == t || |a.entries| == 0 || !Matches(x, a)
  }

  /** The step makes nobody a leader, and no node accepts a batch of another term than t. */
  predicate StableStep(s: Cluster, step: Step, t: int)
    requires Sized(s)
  {
    Enabled(s, step) && !step.Crash? ==>
      && (step.ev.OnVoteReply? ==> !Wins(s.nodes[step.i], step.ev.m))
      && (step.ev.OnAppend? ==> StableDelivery(s.nodes[step.i], step.ev.m.args, t))
  }

  /** From step p on: commands, batches and heartbeats in any order and number, old batches that are
      refused, old heartbeats, crashes and restarts of any node, even failing elections. */
  ghost predicate StableFrom(n: nat, steps: seq<Step>, p: nat, t: int) {
    forall k :: p <= k < |steps| ==> StableStep(At(n, steps, k), steps[k], t)
  }

  /** Every log is a prefix of what the leader of term t has appended. */
  ghost predicate Following(s: Cluster, t: int)
    requires Sized(s)
  {
    && t in s.hist.reigns
    && forall i :: 0 <= i < s.n ==> Follows(s.hist.reigns, s.nodes[i], t)
  }

  ghost predicate Follows(g: Reigns, x: Node, t: int) {
    t in g && x.logs <= g[t].log && (x.status == Leader ==> x.currentTerm == t)
  }

  lemma MergePrefix(l: seq<Entry>, log: seq<Entry>, prev: int, entries: seq<Entry>, r: seq<Entry>)
    requires log <= l && 0 <= prev <= |log| && prev + |entries| <= |l|
    requires entries == l[prev..prev + |entries|] && Merged(log, prev, entries, r)
    ensures r <= l
  {
    forall k | 0 <= k < |r| ensures r[k] == l[k] {
      if prev <= k < prev + |entries| {
        assert r[k] == entries[k - prev];
      }
    }
  }

  /** A batch that matches, and is of term t or empty. */
  lemma MatchFollows(n: nat, h: History, x: Node, a: AppendArgs, t: int)
    requires ShapeOk(n, x.me, x) && a.term >= x.currentTerm && (a.term == t || |a.entries| == 0)
    requires Contiguous(a.prevIndex, a.entries) && !Clash(x.logs, a.prevIndex, a.entries)
    requires a.prevIndex <= |x.logs| && MatchLog(x, a.prevIndex, a.prevTerm)
    requires ArgsOk(n, h.reigns, a) && Follows(h.reigns, x, t)
    ensures RunAppend(x, h, a).Done?
    ensures
      var e := RunAppend(x, h, a).value;
      Follows(e.hist.reigns, e.node, t) && e.hist.reigns == h.reigns
  {
    MatchEffect(n, h, x, a);
    hide RunAppend;
    if |a.entries| == 0 {
      EmptyMerge(x.logs, a.prevIndex, a.entries, RunAppend(x, h, a).value.node.logs);
    } else {
      MergePrefix(h.reigns[t].log, x.logs, a.prevIndex, a.entries, RunAppend(x, h, a).value.node.logs);
    }
  }

  lemma EmptyMerge(log: seq<Entry>, prev: int, entries: seq<Entry>, r: seq<Entry>)
    requires 0 <= prev <= |log| && entries == [] && Merged(log, prev, entries, r)
    ensures r == log
  {
  }

  lemma AppendFollows(n: nat, h: History, x: Node, a: AppendArgs, t: int)
    requires NodeInv(n, h, x.me, x) && HistInv(n, h) && 0 <= x.me < n
    requires ArgsOk(n, h.reigns, a) && a.leaderId != x.me && Follows(h.reigns, x, t) && StableDelivery(x, a, t)
    requires RunAppend(x, h, a).Done?
    ensures
      var e := RunAppend(x, h, a).value;
      Follows(e.hist.reigns, e.node, t) && e.hist.reigns == h.reigns
  {
    if a.term >= x.currentTerm {
      if a.prevIndex <= |x.logs| && MatchLog(x, a.prevIndex, a.prevTerm) {
        BatchKnown(n, h, a);
        KnownNoClash(h.reigns, x.logs, a.prevIndex, a.entries);
        MatchFollows(n, h, x, a, t);
      } else {
        AppendRefused(n, h, x, a);
      }
    }
  }

  lemma QuietFollows(s: Cluster, i: int, ev: Event, t: int)
    requires Sized(s) && 0 <= i < s.n && EventEnabled(s, i, ev) && Run(s, i, ev).Done?
    requires !ev.OnAppend? && !ev.Propose? && (ev.OnVoteReply? ==> !Wins(s.nodes[i], ev.m))
    requires Follows(s.hist.reigns, s.nodes[i], t)
    ensures
      var e := Run(s, i, ev).value;
      Follows(e.hist.reigns, e.node, t) && e.hist.reigns == s.hist.reigns
  {
    var x, h := s.nodes[i], s.hist;
    match ev
    case OnVoteReply(m) => VoteReplyFollows(x, h, m);
    case OnAppendReply(m, count) => AppendReplyFollows(x, h, m, count);
    case _ =>
  }

  lemma VoteReplyFollows(x: Node, h: History, m: Message)
    requires m.VoteReply? && x.election.Election? && !Wins(x, m) && RunVoteReply(x, h, m).Done?
    ensures
      var e := RunVoteReply(x, h, m).value;
      e.node.logs == x.logs && e.hist == h
      && (e.node.status == Leader ==> x.status == Leader && e.node.currentTerm == x.currentTerm)
  {
  }

  lemma AppendReplyFollows(x: Node, h: History, m: Message, count: int)
    requires m.AppendResponse? && 0 <= m.from < |x.nextIndex| && 0 <= m.from < |x.matchIndex|
    requires RunAppendReply(x, h, m, count).Done?
    ensures
      var e := RunAppendReply(x, h, m, count).value;
      e.node.logs == x.logs && e.hist == h
      && (e.node.status == Leader ==> x.status == Leader && e.node.currentTerm == x.currentTerm)
  {
  }

  lemma ProposeFollows(n: nat, h: History, x: Node, command: Bytes, t: int)
    requires LeaderOk(n, h.reigns, x) && Follows(h.reigns, x, t)
    ensures
      var e := RunPropose(x, h, command);
      && Follows(e.hist.reigns, e.node, t)
      && h.reigns[t].log <= e.hist.reigns[t].log
  {
  }

  /** One event of a stable run: the node still follows, and the leader's log only grows. */
  lemma EventFollows(s: Cluster, i: int, ev: Event, t: int)
    requires Inv(s) && 0 <= i < s.n && EventEnabled(s, i, ev)
    requires ev.OnVoteReply? ==> !Wins(s.nodes[i], ev.m)
    requires ev.OnAppend? ==> StableDelivery(s.nodes[i], ev.m.args, t)
    requires Follows(s.hist.reigns, s.nodes[i], t)
    ensures Run(s, i, ev).Done?
    ensures
      var e := Run(s, i, ev).value;
      Follows(e.hist.reigns, e.node, t) && s.hist.reigns[t].log <= e.hist.reigns[t].log
  {
    var n, h, x := s.n, s.hist, s.nodes[i];
    EventSound(s, i, ev);
    assert NodeInv(n, h, i, x) && HistInv(n, h) && x.me == i;
    match ev
    case OnAppend(m) =>
      assert MsgInv(n, h.ballots, h.reigns, m);
      hide Inv, NodeInv, HistInv;
      AppendFollows(n, h, x, m.args, t);
    case Propose(command) =>
      ProposeFollows(n, h, x, command, t);
    case _ =>
      hide Inv, NodeInv, HistInv;
      QuietFollows(s, i, ev, t);
  }

  lemma RebootFollows(s: Cluster, i: int, g: Reigns, t: int)
    requires Inv(s) && 0 <= i < s.n && Follows(g, s.nodes[i], t)
    ensures Follows(g, Boot(s.n, i, s.disks[i]), t)
  {
    assert NodeInv(s.n, s.hist, i, s.nodes[i]);
    LoadedIsSaved(s.nodes[i]);
  }

  lemma CrashFollows(n: nat, i: int, x: Node, g: Reigns, t: int)
    requires Indexed(0, x.logs) && x.snapIndex == 0 && Follows(g, x, t)
    ensures Follows(g, Boot(n, i, PersistData(x)), t)
  {
    LoadedIsSaved(x);
  }

  lemma OthersFollow(s: Cluster, s': Cluster, i: int, t: int)
    requires Sized(s) && Sized(s') && s'.n == s.n && 0 <= i < s.n && Following(s, t)
    requires forall j :: 0 <= j < s.n && j != i ==> s'.nodes[j] == s.nodes[j]
    requires Follows(s'.hist.reigns, s'.nodes[i], t) && s.hist.reigns[t].log <= s'.hist.reigns[t].log
    ensures Following(s', t)
  {
    forall j | 0 <= j < s.n ensures Follows(s'.hist.reigns, s'.nodes[j], t) {
      if j != i {
        assert Follows(s.hist.reigns, s.nodes[j], t);
      }
    }
  }

  /** The node after a crash inside persist. */
  lemma CrashInsideFollows(s: Cluster, i: int, ev: Event, e: Effect, flushed: bool, t: int)
    requires Inv(s) && 0 <= i < s.n && EventEnabled(s, i, ev) && Run(s, i, ev) == Done(e) && Fits(s.n, e.node)
    requires ev.OnVoteReply? ==> !Wins(s.nodes[i], ev.m)
    requires Sound(s.n, s.hist, s.nodes[i], e) && s.nodes[i].me == i
    requires Follows(s.hist.reigns, s.nodes[i], t) && Follows(e.hist.reigns, e.node, t)
    requires e.persisted
    ensures
      var s' := CrashInside(s, i, ev, e, flushed);
      && Follows(s'.hist.reigns, s'.nodes[i], t)
      && (s'.hist.reigns == s.hist.reigns || s'.hist == e.hist)
  {
    RebootFollows(s, i, s.hist.reigns, t);
    CrashFollows(s.n, i, e.node, e.hist.reigns, t);
    UnwonSameReigns(s, i, ev);
    hide Run, EventEnabled, Follows, Inv;
  }

  lemma NextFollows(s: Cluster, step: Step, t: int)
    requires Inv(s) && Following(s, t) && StableStep(s, step, t)
    ensures Following(Next(s, step), t)
  {
    if Enabled(s, step) {
      var i := step.i;
      assert Follows(s.hist.reigns, s.nodes[i], t);
      if step.Crash? {
        RebootFollows(s, i, s.hist.reigns, t);
      } else {
        EventFollows(s, i, step.ev, t);
        EventSound(s, i, step.ev);
        RunFits(s, i, step.ev);
        assert s.nodes[i].me == i by { assert NodeInv(s.n, s.hist, i, s.nodes[i]); }
        if step.CrashPersisting? {
          CrashInsideFollows(s, i, step.ev, Run(s, i, step.ev).value, step.flushed, t);
        }
      }
      hide Inv, Follows, Run, EventEnabled, StableStep, Following, Sound, CrashInside;
      OthersFollow(s, Next(s, step), i, t);
    }
  }

  lemma UnwonSameReigns(s: Cluster, i: int, ev: Event)
    requires Sized(s) && 0 <= i < s.n && EventEnabled(s, i, ev) && Run(s, i, ev).Done?
    requires ev.OnVoteReply? ==> !Wins(s.nodes[i], ev.m)
    ensures ev.OnVoteReply? ==> Run(s, i, ev).value.hist == s.hist
  {
  }

  lemma StableAt(n: nat, steps: seq<Step>, p: nat, t: int, k: nat)
    requires StableFrom(n, steps, p, t) && p <= k < |steps|
    ensures StableStep(At(n, steps, k), steps[k], t)
  {
  }

  /** Whatever happened before step p. */
  lemma {:induction false} StableFollows(n: nat, steps: seq<Step>, p: nat, q: nat, t: int)
    requires p <= q <= |steps| && Following(At(n, steps, p), t) && StableFrom(n, steps, p, t)
    ensures Following(At(n, steps, q), t)
    decreases q - p
  {
    hide Inv, Next, Following, At, StableStep, StableFrom;
    if p < q {
      StableAt(n, steps, p, t, q - 1);
      StableFollows(n, steps, p, q - 1, t);
      InvAt(n, steps, q - 1);
      AtNext(n, steps, q - 1);
      NextFollows(At(n, steps, q - 1), steps[q - 1], t);
    }
  }

  /** The receiver's log is a prefix of the log of the leader that sent a. */
  predicate Behind(g: Reigns, x: Node, a: AppendArgs) {
    a.term in g && x.logs <= g[a.term].log
  }

  /** A stable run delivers batches only to receivers that refuse them, or whose log is a prefix of
      the sender's. */
  lemma StableDeliveries(n: nat, steps: seq<Step>, p: nat, l: nat, k: nat)
    requires p <= k < |steps| && l < n && Settled(At(n, steps, p), l)
    requires StableFrom(n, steps, p, At(n, steps, p).nodes[l].currentTerm)
    requires Enabled(At(n, steps, k), steps[k]) && !steps[k].Crash? && steps[k].ev.OnAppend?
    ensures
      var s, x, a := At(n, steps, k), At(n, steps, k).nodes[steps[k].i], steps[k].ev.m.args;
      !Matches(x, a) || a.entries == [] || Behind(s.hist.reigns, x, a)
  {
    var t := At(n, steps, p).nodes[l].currentTerm;
    SettledFollows(n, steps, p, l);
    StableFollows(n, steps, p, k, t);
    var s := At(n, steps, k);
    assert StableStep(s, steps[k], t) && Follows(s.hist.reigns, s.nodes[steps[k].i], t);
  }

  // ---------------------------------------------------------------- what is applied

  /** What was applied stands in log l. */
  ghost predicate AppliedFrom(l: seq<Entry>, applied: seq<ApplyMsg>) {
    |applied| <= |l| && forall k :: 0 <= k < |applied| ==> applied[k] == ApplyMsg(k + 1, l[k].command)
  }

  lemma StepApplied(x: Node, y: Node, l: seq<Entry>, l': seq<Entry>)
    requires AppliedFrom(l, x.applied) && x.logs <= l <= l' && Applies(x, y)
    ensures AppliedFrom(l', y.applied)
  {
    if y.applied != x.applied && y.applied != [] {
      forall k | 0 <= k < |y.applied| ensures y.applied[k] == ApplyMsg(k + 1, l'[k].command) {
        assert k < |x.applied| ==> y.applied[k] == x.applied[k];
      }
    }
  }

  lemma {:induction false} StableApplies(n: nat, steps: seq<Step>, p: nat, q: nat, t: int, i: nat)
    requires p <= q <= |steps| && i < n && Following(At(n, steps, p), t) && StableFrom(n, steps, p, t)
    requires AppliedIsLogged(At(n, steps, p).nodes[i])
    ensures Following(At(n, steps, q), t)
    ensures AppliedFrom(At(n, steps, q).hist.reigns[t].log, At(n, steps, q).nodes[i].applied)
    decreases q - p
  {
    hide StableFrom, StableStep;
    StableFollows(n, steps, p, q, t);
    if p == q {
      assert Follows(At(n, steps, q).hist.reigns, At(n, steps, q).nodes[i], t);
    } else {
      var s := At(n, steps, q - 1);
      StableApplies(n, steps, p, q - 1, t, i);
      InvAt(n, steps, q - 1);
      AtNext(n, steps, q - 1);
      NextApplies(s, steps[q - 1], i);
      RunGrows(n, steps, q - 1, q);
      assert Follows(s.hist.reigns, s.nodes[i], t);
      assert ReignGrows(s.hist.reigns[t], At(n, steps, q).hist.reigns[t]);
      hide Inv, Next, At, Follows, Applies, AppliedFrom;
      StepApplied(s.nodes[i], At(n, steps, q).nodes[i], s.hist.reigns[t].log, At(n, steps, q).hist.reigns[t].log);
    }
  }

  // ---------------------------------------------------------------- the result

  /** Stable-leader safety, whatever the past: however batches and heartbeats are lost, repeated or
      reordered, and whoever restarts, all logs stay prefixes of the leader's, and what any node has
      committed is on a majority of the disks. Two nodes whose apply channels agreed with their logs
      at the start keep apply channels that are prefixes of one another. */
  lemma StableLeaderSafety(n: nat, steps: seq<Step>, p: nat, l: nat, i: nat, j: nat)
    requires p <= |steps| && l < n && i < n && j < n && Settled(At(n, steps, p), l)
    requires StableFrom(n, steps, p, At(n, steps, p).nodes[l].currentTerm)
    ensures
      var s, x, y, z := After(n, steps), After(n, steps).nodes[l], After(n, steps).nodes[i], After(n, steps).nodes[j];
      && (x.status == Leader ==> y.logs <= x.logs)
      && (y.logs <= z.logs || z.logs <= y.logs)
      && (0 < y.commitIndex ==> exists q :: Majority(n, q) && DurableOn(s, q, y))
    ensures AppliedIsLogged(At(n, steps, p).nodes[i]) && AppliedIsLogged(At(n, steps, p).nodes[j]) ==>
      var y, z := After(n, steps).nodes[i], After(n, steps).nodes[j];
      y.applied <= z.applied || z.applied <= y.applied
  {
    var t := At(n, steps, p).nodes[l].currentTerm;
    hide Inv, Settled, StableFrom, Following, AppliedIsLogged, AppliedFrom, After, DurableOn;
    SettledFollows(n, steps, p, l);
    assert steps[..|steps|] == steps;
    StableFollows(n, steps, p, |steps|, t);
    Reachable(n, steps);
    StableLogs(After(n, steps), t, l, i, j);
    if AppliedIsLogged(At(n, steps, p).nodes[i]) && AppliedIsLogged(At(n, steps, p).nodes[j]) {
      StableApplies(n, steps, p, |steps|, t, i);
      StableApplies(n, steps, p, |steps|, t, j);
      var s := After(n, steps);
      SameSource(s.hist.reigns[t].log, s.nodes[i].applied, s.nodes[j].applied);
    }
    if 0 < After(n, steps).nodes[i].commitIndex {
      var q := CommitsAreBacked(n, steps, i);
      StableDurable(After(n, steps), t, q, i);
    }
  }

  lemma SettledFollows(n: nat, steps: seq<Step>, p: nat, l: nat)
    requires p <= |steps| && l < n && Settled(At(n, steps, p), l)
    ensures Following(At(n, steps, p), At(n, steps, p).nodes[l].currentTerm)
  {
    InvAt(n, steps, p);
    LeaderReigns(At(n, steps, p), l);
  }

  lemma SameSource(l: seq<Entry>, a: seq<ApplyMsg>, b: seq<ApplyMsg>)
    requires AppliedFrom(l, a) && AppliedFrom(l, b)
    ensures a <= b || b <= a
  {
  }

  lemma StableLogs(s: Cluster, t: int, l: int, i: int, j: int)
    requires Inv(s) && Following(s, t) && 0 <= l < s.n && 0 <= i < s.n && 0 <= j < s.n
    ensures s.nodes[l].status == Leader ==> s.nodes[i].logs <= s.nodes[l].logs
    ensures s.nodes[i].logs <= s.nodes[j].logs || s.nodes[j].logs <= s.nodes[i].logs
  {
    assert Follows(s.hist.reigns, s.nodes[l], t);
    assert Follows(s.hist.reigns, s.nodes[i], t) && Follows(s.hist.reigns, s.nodes[j], t);
    if s.nodes[l].status == Leader {
      LeaderReigns(s, l);
    }
  }

  /** Where all logs are prefixes of one, long enough is the same. */
  lemma StableDurable(s: Cluster, t: int, q: set<int>, i: nat)
    requires Inv(s) && Following(s, t) && i < s.n
    requires forall v :: v in q ==> 0 <= v < s.n && s.nodes[i].commitIndex <= |s.disks[v].logs|
    ensures DurableOn(s, q, s.nodes[i])
  {
    var x := s.nodes[i];
    assert NodeInv(s.n, s.hist, i, x) && Follows(s.hist.reigns, x, t);
    forall v | v in q
      ensures s.disks[v].logs == SavedLog(s.nodes[v].logs)
      ensures s.disks[v].logs[..x.commitIndex] == SavedLog(x.logs)[..x.commitIndex]
    {
      assert Follows(s.hist.reigns, s.nodes[v], t);
      SavedPrefix(x.logs, s.nodes[v].logs, x.commitIndex);
    }
  }
}
