/** What a leader's buffers and counters are worth: nothing it appends escapes its sender thread, and
    what it counts as held by a peer the peer holds. */
module Replication {
  import opened Bytes
  import opened RaftTypes
  import opened RaftHandlers
  import opened Cluster
  import opened Invariants
  import opened Receiver
  import opened EventsKeep
  import opened Acknowledgements
  import opened SafetyInv
  import opened SafetyGrowth
  import opened SafetyEvents
  import opened SafetyRuns
  import opened RunHistory
  import opened MatchingRuns
  import opened Handling
  import opened Progress

  // ---------------------------------------------------------------- nothing is skipped

  /** A batch for peer p with this entry has gone out in this term. */
  ghost predicate Sent(msgs: set<Message>, p: int, term: int, e: Entry) {
    exists m :: m in msgs && m.AppendRequest? && m.to == p && m.args.term == term && e in m.args.entries
  }

  /** What leader x has appended in its term waits for peer p, or has been sent to it. */
  ghost predicate Accounted(msgs: set<Message>, x: Node, p: int)
    requires 0 <= p < |x.pending|
  {
    forall k :: 0 <= k < |x.logs| && x.logs[k].term == x.currentTerm ==>
      x.logs[k] in x.pending[p] || Sent(msgs, p, x.currentTerm, x.logs[k])
  }

  /** The sender thread of the node's first leadership is at work. */
  predicate Serving(x: Node) {
    x.status == Leader && x.senderAlive
  }

  ghost predicate AllAccounted(s: Cluster)
    requires Sized(s)
  {
    forall i, p :: 0 <= i < s.n && 0 <= p < s.n && p != i && Serving(s.nodes[i]) ==> Accounted(s.msgs, s.nodes[i], p)
  }

  /** y still leads the term that x led, with the same log and buffers. */
  predicate SameService(x: Node, y: Node) {
    Serving(x) && y.currentTerm == x.currentTerm && y.logs == x.logs && y.pending == x.pending
  }

  lemma ReplyService(x: Node, h: History, m: Message, count: int)
    requires m.AppendResponse? && 0 <= m.from < |x.nextIndex| && m.from < |x.matchIndex|
    requires RunAppendReply(x, h, m, count).Done?
    ensures
      var y := RunAppendReply(x, h, m, count).value.node;
      Serving(y) ==> SameService(x, y)
  {
    ReplyExactly(x, m.from, m.args, m.reply, count);
    hide AppendAnswered;
  }

  lemma AppendService(x: Node, h: History, a: AppendArgs)
    requires RunAppend(x, h, a).Done?
    ensures
      var y := RunAppend(x, h, a).value.node;
      Serving(y) ==> SameService(x, y)
  {
    AppendExactly(x, a);
    hide AppendEntries;
  }

  /** A new leader has appended nothing in its term yet. */
  lemma WinService(s: Cluster, i: int, m: Message)
    requires Inv(s) && 0 <= i < s.n && EventEnabled(s, i, OnVoteReply(m))
    requires RunVoteReply(s.nodes[i], s.hist, m).Done?
    ensures
      var x, y := s.nodes[i], RunVoteReply(s.nodes[i], s.hist, m).value.node;
      Serving(y) ==>
        SameService(x, y) || forall k :: 0 <= k < |y.logs| ==> y.logs[k].term != y.currentTerm
  {
    var x, h := s.nodes[i], s.hist;
    VoteReplyExactly(x, m.from, m.term, m.granted);
    assert NodeInv(s.n, h, i, x);
    if RunVoteReply(x, h, m).value.hist != h {
      WinIsNew(s, i, m);
      assert forall k :: 0 <= k < |x.logs| ==> Known(h.reigns, x.logs[k]);
    }
  }

  lemma QuietService(s: Cluster, i: int, ev: Event)
    requires Sized(s) && 0 <= i < s.n && EventEnabled(s, i, ev) && Run(s, i, ev).Done?
    requires !ev.OnVoteReply? && !ev.Propose? && !ev.SendBatch?
    ensures
      var y := Run(s, i, ev).value.node;
      Serving(y) ==> SameService(s.nodes[i], y)
  {
    match ev
    case OnAppendReply(m, count) => ReplyService(s.nodes[i], s.hist, m, count);
    case OnAppend(m) => AppendService(s.nodes[i], s.hist, m.args);
    case _ =>
  }

  lemma ProposeAccounted(x: Node, h: History, command: Bytes, msgs: set<Message>, p: int)
    requires x.snapIndex == 0 && 0 <= p < |x.pending| && p != x.me
    requires Serving(x) ==> Accounted(msgs, x, p)
    ensures
      var y := RunPropose(x, h, command).node;
      |y.pending| == |x.pending| && (Serving(y) ==> Accounted(msgs, y, p))
  {
    StartExactly(x, command);
    hide Start, Sent;
  }

  lemma DrawnAccounted(x: Node, p: int, k: int, y: Node, sent: set<Message>, msgs: set<Message>, q: int)
    requires Drawn(x, p, k, y, sent) && 0 <= q < |x.pending| && Accounted(msgs, x, q)
    ensures |y.pending| == |x.pending| && Accounted(msgs + sent, y, q)
  {
    forall j | 0 <= j < |y.logs| && y.logs[j].term == y.currentTerm
      ensures y.logs[j] in y.pending[q] || Sent(msgs + sent, q, y.currentTerm, y.logs[j])
    {
      var e := x.logs[j];
      if Sent(msgs, q, x.currentTerm, e) {
        var m :| m in msgs && m.AppendRequest? && m.to == q && m.args.term == x.currentTerm && e in m.args.entries;
        assert m in msgs + sent;
      } else if q == p {
        var d :| 0 <= d < |x.pending[p]| && x.pending[p][d] == e;
        if d < k {
          var m := AppendRequest(p, Stretch(x, |x.logs| - |x.pending[p]|, k));
          assert m.args.entries[d] == e && m in msgs + sent;
        } else {
          assert y.pending[p][d - k] == e;
        }
      }
    }
  }

  lemma AccountedLater(msgs: set<Message>, msgs': set<Message>, x: Node, y: Node, p: int)
    requires msgs <= msgs' && 0 <= p < |x.pending| && Accounted(msgs, x, p) && SameService(x, y)
    ensures Accounted(msgs', y, p)
  {
    forall k | 0 <= k < |y.logs| && y.logs[k].term == y.currentTerm && Sent(msgs, p, y.currentTerm, y.logs[k])
      ensures Sent(msgs', p, y.currentTerm, y.logs[k])
    {
      var e := y.logs[k];
      var m :| m in msgs && m.AppendRequest? && m.to == p && m.args.term == y.currentTerm && e in m.args.entries;
      assert m in msgs';
    }
  }

  lemma EventAccounted(s: Cluster, i: int, ev: Event, p: int)
    requires Inv(s) && AllAccounted(s) && 0 <= i < s.n && EventEnabled(s, i, ev) && 0 <= p < s.n && p != i
    requires Run(s, i, ev).Done? && Fits(s.n, Run(s, i, ev).value.node)
    ensures
      var e := Run(s, i, ev).value;
      Serving(e.node) ==> Accounted(s.msgs + e.sent, e.node, p)
  {
    var n, h, x := s.n, s.hist, s.nodes[i];
    assert NodeInv(n, h, i, x) && x.me == i && |x.pending| == n && x.snapIndex == 0;
    var e := Run(s, i, ev).value;
    match ev
    case Propose(command) =>
      hide Inv, NodeInv, AllAccounted;
      assert Serving(x) ==> Accounted(s.msgs, x, p) by { ServiceAccounted(s, i, p); }
      ProposeAccounted(x, h, command, s.msgs, p);
      assert s.msgs + {} == s.msgs;
    case SendBatch(q, k) =>
      BatchContents(n, h, x, q, k);
      hide Inv, NodeInv, AllAccounted, Drawn;
      ServiceAccounted(s, i, p);
      DrawnAccounted(x, q, k, e.node, e.sent, s.msgs, p);
    case OnVoteReply(m) =>
      WinService(s, i, m);
      hide Inv, NodeInv, AllAccounted, Accounted;
      if SameService(x, e.node) {
        ServiceAccounted(s, i, p);
        AccountedLater(s.msgs, s.msgs + e.sent, x, e.node, p);
      } else {
        FreshAccounted(s.msgs + e.sent, e.node, p);
      }
    case _ =>
      hide Inv, NodeInv, AllAccounted, Accounted;
      QuietService(s, i, ev);
      if Serving(e.node) {
        ServiceAccounted(s, i, p);
        AccountedLater(s.msgs, s.msgs + e.sent, x, e.node, p);
      }
  }

  lemma FreshAccounted(msgs: set<Message>, y: Node, p: int)
    requires 0 <= p < |y.pending|
    ensures (forall k :: 0 <= k < |y.logs| ==> y.logs[k].term != y.currentTerm) ==> Accounted(msgs, y, p)
  {
  }

  lemma ServiceAccounted(s: Cluster, i: int, p: int)
    requires Inv(s) && AllAccounted(s) && 0 <= i < s.n && 0 <= p < s.n && p != i
    ensures |s.nodes[i].pending| == s.n && (Serving(s.nodes[i]) ==> Accounted(s.msgs, s.nodes[i], p))
  {
  }

  lemma NextAccounted(s: Cluster, step: Step)
    requires Inv(s) && AllAccounted(s)
    ensures AllAccounted(Next(s, step))
  {
    if Enabled(s, step) {
      var i, s' := step.i, Next(s, step);
      if step.Act? {
        Happens(s, i, step.ev);
        RunFits(s, i, step.ev);
      } else {
        Restarted(s, step);
      }
      forall j, p | 0 <= j < s.n && 0 <= p < s.n && p != j && Serving(s'.nodes[j])
        ensures Accounted(s'.msgs, s'.nodes[j], p)
      {
        hide Inv, Next, Run, EventEnabled, AllAccounted, Accounted;
        if j != i {
          ServiceAccounted(s, j, p);
          AccountedLater(s.msgs, s'.msgs, s.nodes[j], s'.nodes[j], p);
        } else {
          EventAccounted(s, i, step.ev, p);
        }
      }
    }
  }

  /** A crash sends nothing, and ends every leadership of its node. */
  lemma Restarted(s: Cluster, step: Step)
    requires Sized(s) && Enabled(s, step) && !step.Act?
    ensures
      var s' := Next(s, step);
      && s'.msgs == s.msgs && s'.nodes[step.i].status == Follower
      && forall j :: 0 <= j < s.n && j != step.i ==> s'.nodes[j] == s.nodes[j]
  {
    RunOrCrashFits(s, step);
    hide Run, EventEnabled;
  }

  lemma {:induction false} AlwaysAccounted(n: nat, steps: seq<Step>)
    ensures AllAccounted(After(n, steps))
    decreases |steps|
  {
    if |steps| > 0 {
      AlwaysAccounted(n, steps[..|steps| - 1]);
      Reachable(n, steps[..|steps| - 1]);
      NextAccounted(After(n, steps[..|steps| - 1]), steps[|steps| - 1]);
    }
  }

  /** In every run, while the sender thread of a process's first leadership is at work, each entry it
      has appended in its term waits in the buffer of each peer or has been sent to it. */
  lemma NothingSkipped(n: nat, steps: seq<Step>, i: nat, p: nat, k: nat)
    requires i < n && p < n && p != i && After(n, steps).nodes[i].status == Leader
    requires After(n, steps).nodes[i].senderAlive && k < |After(n, steps).nodes[i].logs|
    requires After(n, steps).nodes[i].logs[k].term == After(n, steps).nodes[i].currentTerm
    ensures
      var s, x := After(n, steps), After(n, steps).nodes[i];
      x.logs[k] in x.pending[p] || Sent(s.msgs, p, x.currentTerm, x.logs[k])
  {
    AlwaysAccounted(n, steps);
    Reachable(n, steps);
    ServiceAccounted(After(n, steps), i, p);
  }

  // ---------------------------------------------------------------- what is counted is held

  /** The node has moved past term t, or holds the first k entries of the leader of t. */
  ghost predicate HeldBy(g: Reigns, y: Node, t: int, k: int) {
    k <= 0 || y.currentTerm > t
    || (y.currentTerm == t && t in g && k <= |y.logs| && k <= |g[t].log| && y.logs[..k] == g[t].log[..k])
  }

  ghost predicate AnswerHeld(s: Cluster, m: Message)
    requires Sized(s)
  {
    m.AppendResponse? && m.reply.success ==>
      0 <= m.from < s.n
      && HeldBy(s.hist.reigns, s.nodes[m.from], m.args.term, m.args.prevIndex + |m.args.entries|)
  }

  ghost predicate CounterHeld(s: Cluster, i: int, p: int)
    requires Sized(s) && 0 <= i < s.n && 0 <= p < s.n
  {
    s.nodes[i].status == Leader ==>
      HeldBy(s.hist.reigns, s.nodes[p], s.nodes[i].currentTerm, s.nodes[i].matchIndex[p])
  }

  ghost predicate AllHeld(s: Cluster)
    requires Sized(s)
  {
    && (forall m :: m in s.msgs ==> AnswerHeld(s, m))
    && (forall i, p :: 0 <= i < s.n && 0 <= p < s.n && p != i ==> CounterHeld(s, i, p))
  }

  /** The node keeps its log, or only its start matters. */
  lemma HeldExtends(g: Reigns, g': Reigns, x: Node, y: Node, t: int, k: int)
    requires Extends(g, g') && HeldBy(g, x, t, k) && x.currentTerm <= y.currentTerm
    requires y.currentTerm == x.currentTerm ==> x.logs <= y.logs
    ensures HeldBy(g', y, t, k)
  {
    if 0 < k && y.currentTerm == t == x.currentTerm {
      assert g'[t].log[..k] == g[t].log[..k] && y.logs[..k] == x.logs[..k];
    }
  }

  /** A merged batch: the receiver still holds what it held of its leader's log. */
  lemma HeldCaughtUp(g: Reigns, x: Node, z: Node, a: AppendArgs, t: int, k: int)
    requires a.term in g && z.currentTerm == a.term >= x.currentTerm && HeldBy(g, x, t, k)
    requires CaughtUp(g[a.term].log, a.prevIndex + |a.entries|, x.logs, z.logs)
    ensures HeldBy(g, z, t, k)
    ensures HeldBy(g, z, a.term, a.prevIndex + |a.entries|)
  {
    if 0 < k && z.currentTerm == t == x.currentTerm && |x.logs| <= a.prevIndex + |a.entries| {
      assert z.logs[..k] == g[t].log[..k];
    }
  }

  /** What an event leaves: node i still holds what it held, and what it has just accepted. */
  ghost predicate EffectHeld(i: int, e: Effect, t: int, k: int) {
    && HeldBy(e.hist.reigns, e.node, t, k)
    && forall m :: m in e.sent && m.AppendResponse? && m.reply.success ==>
         m.from == i && HeldBy(e.hist.reigns, e.node, m.args.term, m.args.prevIndex + |m.args.entries|)
  }

  lemma RefusedHeld(n: nat, h: History, x: Node, a: AppendArgs, t: int, k: int)
    requires NodeInv(n, h, x.me, x) && HistInv(n, h) && 0 <= x.me < n
    requires ArgsOk(n, h.reigns, a) && a.leaderId != x.me && HeldBy(h.reigns, x, t, k)
    requires a.term < x.currentTerm || a.prevIndex > |x.logs| || !MatchLog(x, a.prevIndex, a.prevTerm)
    ensures RunAppend(x, h, a).Done? && EffectHeld(x.me, RunAppend(x, h, a).value, t, k)
  {
    ExtendsRefl(h.reigns);
    AppendCore(n, h, x, a);
    MatchLogExactly(x, a.prevIndex, a.prevTerm);
    AppendExactly(x, a);
    hide AppendEntries, MatchLog, HeldBy;
    HeldExtends(h.reigns, h.reigns, x, RunAppend(x, h, a).value.node, t, k);
  }

  lemma LandedCatchesUp(n: nat, h: History, x: Node, a: AppendArgs)
    requires NodeInv(n, h, x.me, x) && HistInv(n, h) && 0 <= x.me < n
    requires ArgsOk(n, h.reigns, a) && a.leaderId != x.me && C1(x, a)
    requires ReignsTrace(h.reigns) && Traces(h.reigns, x.logs)
    requires a.term >= x.currentTerm && a.prevIndex <= |x.logs| && MatchLog(x, a.prevIndex, a.prevTerm)
    ensures RunAppend(x, h, a).Done? && a.term in h.reigns
    ensures
      var e := RunAppend(x, h, a).value;
      && e.node.currentTerm == a.term && e.hist.reigns == h.reigns
      && CaughtUp(h.reigns[a.term].log, a.prevIndex + |a.entries|, x.logs, e.node.logs)
  {
    BatchKnown(n, h, a);
    assert Traces(h.reigns, h.reigns[a.term].log);
    hide HistInv, C1, AppendEntries, RunAppend, Merged, ElectionOk, LeaderOk, PendingOk, MatchLog, CaughtUp;
    KnownNoClash(h.reigns, x.logs, a.prevIndex, a.entries);
    MatchEffect(n, h, x, a);
    hide NodeInv, Traces, ReignsTrace;
    ConformingMerge(n, h.reigns, x, a, RunAppend(x, h, a).value.node.logs);
  }

  lemma LandedHeld(n: nat, h: History, x: Node, a: AppendArgs, t: int, k: int)
    requires NodeInv(n, h, x.me, x) && HistInv(n, h) && 0 <= x.me < n
    requires ArgsOk(n, h.reigns, a) && a.leaderId != x.me && C1(x, a)
    requires ReignsTrace(h.reigns) && Traces(h.reigns, x.logs) && HeldBy(h.reigns, x, t, k)
    requires a.term >= x.currentTerm && a.prevIndex <= |x.logs| && MatchLog(x, a.prevIndex, a.prevTerm)
    ensures RunAppend(x, h, a).Done? && EffectHeld(x.me, RunAppend(x, h, a).value, t, k)
  {
    SentOnly(x, h, a);
    hide HistInv, C1, HeldBy, RunAppend, NodeInv, Traces, ReignsTrace, CaughtUp, ArgsOk, MatchLog;
    LandedCatchesUp(n, h, x, a);
    HeldCaughtUp(h.reigns, x, RunAppend(x, h, a).value.node, a, t, k);
  }

  lemma SentOnly(x: Node, h: History, a: AppendArgs)
    ensures RunAppend(x, h, a).Done? ==>
      forall m :: m in RunAppend(x, h, a).value.sent && m.AppendResponse? ==> m.from == x.me && m.args == a
  {
  }

  lemma AppendHeld(n: nat, h: History, x: Node, a: AppendArgs, t: int, k: int)
    requires NodeInv(n, h, x.me, x) && HistInv(n, h) && 0 <= x.me < n
    requires ArgsOk(n, h.reigns, a) && a.leaderId != x.me && (Matches(x, a) ==> C1(x, a))
    requires ReignsTrace(h.reigns) && Traces(h.reigns, x.logs) && HeldBy(h.reigns, x, t, k)
    ensures RunAppend(x, h, a).Done? && EffectHeld(x.me, RunAppend(x, h, a).value, t, k)
  {
    hide NodeInv, HistInv, ArgsOk, C1, HeldBy, EffectHeld, MatchLog, RunAppend, ReignsTrace, Traces;
    if a.term < x.currentTerm || a.prevIndex > |x.logs| || !MatchLog(x, a.prevIndex, a.prevTerm) {
      RefusedHeld(n, h, x, a, t, k);
    } else {
      LandedHeld(n, h, x, a, t, k);
    }
  }

  /** Every other event keeps the node's log, or extends it in its term. */
  lemma LogExtends(s: Cluster, i: int, ev: Event)
    requires Inv(s) && 0 <= i < s.n && EventEnabled(s, i, ev) && !ev.OnAppend?
    ensures Run(s, i, ev).Done?
    ensures
      var x, e := s.nodes[i], Run(s, i, ev).value;
      && x.currentTerm <= e.node.currentTerm && x.logs <= e.node.logs
      && forall m :: m in e.sent ==> !m.AppendResponse?
  {
    EventSound(s, i, ev);
    match ev
    case OnVoteReply(m) => VoteReplyLog(s.nodes[i], s.hist, m);
    case Propose(command) => StartExactly(s.nodes[i], command);
    case _ => QuietLog(s, i, ev);
  }

  lemma BatchHeld(s: Cluster, i: int, m: Message, t: int, k: int)
    requires Inv(s) && LogsTrace(s) && 0 <= i < s.n && EventEnabled(s, i, OnAppend(m))
    requires Matches(s.nodes[i], m.args) ==> C1(s.nodes[i], m.args)
    requires HeldBy(s.hist.reigns, s.nodes[i], t, k)
    ensures RunAppend(s.nodes[i], s.hist, m.args).Done?
    ensures EffectHeld(i, RunAppend(s.nodes[i], s.hist, m.args).value, t, k)
  {
    var n, h, x := s.n, s.hist, s.nodes[i];
    assert MsgInv(n, h.ballots, h.reigns, m) && NodeInv(n, h, i, x) && HistInv(n, h) && x.me == i;
    assert ReignsTrace(h.reigns) && Traces(h.reigns, x.logs);
    hide Inv, NodeInv, HistInv, C1, Matches, HeldBy, LogsTrace, RunAppend, EventEnabled, Traces, ReignsTrace;
    AppendHeld(n, h, x, m.args, t, k);
  }

  lemma EventHeld(s: Cluster, i: int, ev: Event, t: int, k: int)
    requires Inv(s) && LogsTrace(s) && 0 <= i < s.n && EventEnabled(s, i, ev)
    requires ev.OnAppend? && Matches(s.nodes[i], ev.m.args) ==> C1(s.nodes[i], ev.m.args)
    requires HeldBy(s.hist.reigns, s.nodes[i], t, k)
    ensures Run(s, i, ev).Done? && EffectHeld(i, Run(s, i, ev).value, t, k)
  {
    if ev.OnAppend? {
      BatchHeld(s, i, ev.m, t, k);
      hide Inv, LogsTrace, RunAppend, EffectHeld, HeldBy;
    } else {
      EventTraced(s, i, ev);
      LogExtends(s, i, ev);
      hide Inv, LogsTrace, Run, EventEnabled, HeldBy;
      HeldExtends(s.hist.reigns, Run(s, i, ev).value.hist.reigns, s.nodes[i], Run(s, i, ev).value.node, t, k);
    }
  }

  // ---------------------------------------------------------------- one step

  /** After a step node i is what the event has made of it, or what it was. */
  lemma StepHeld(s: Cluster, step: Step, j: int, t: int, k: int)
    requires Inv(s) && LogsTrace(s) && Merging(s, step) && 0 <= j < s.n
    requires HeldBy(s.hist.reigns, s.nodes[j], t, k)
    ensures HeldBy(Next(s, step).hist.reigns, Next(s, step).nodes[j], t, k)
  {
    if Enabled(s, step) {
      ExtendsRefl(s.hist.reigns);
      if step.Crash? {
        RebootLog(s, step.i);
        TermKept(s, step);
        hide Inv, HeldBy, Next;
        HeldExtends(s.hist.reigns, s.hist.reigns, s.nodes[j], Next(s, step).nodes[j], t, k);
      } else {
        LiveStepHeld(s, step, j, t, k);
      }
    }
  }

  /** A restart keeps the term; a step that does not reach the disk keeps it too. */
  lemma TermKept(s: Cluster, step: Step)
    requires Inv(s) && Enabled(s, step) && step.Crash?
    ensures Next(s, step).nodes[step.i].currentTerm == s.nodes[step.i].currentTerm
  {
  }

  lemma LiveTerm(s: Cluster, step: Step)
    requires Inv(s) && Enabled(s, step) && !step.Crash?
    ensures Run(s, step.i, step.ev).Done?
    ensures
      var x, e, z := s.nodes[step.i], Run(s, step.i, step.ev).value, Next(s, step).nodes[step.i];
      z.currentTerm == e.node.currentTerm || (!step.Act? && z.currentTerm == x.currentTerm && z.logs == x.logs)
  {
    EventSound(s, step.i, step.ev);
    RunFits(s, step.i, step.ev);
    RebootLog(s, step.i);
    assert s.disks[step.i] == PersistData(s.nodes[step.i]);
    hide Inv, Run, EventEnabled;
  }

  lemma LiveStepHeld(s: Cluster, step: Step, j: int, t: int, k: int)
    requires Inv(s) && LogsTrace(s) && Merging(s, step) && 0 <= j < s.n && Enabled(s, step) && !step.Crash?
    requires HeldBy(s.hist.reigns, s.nodes[j], t, k)
    ensures HeldBy(Next(s, step).hist.reigns, Next(s, step).nodes[j], t, k)
  {
    var i, s' := step.i, Next(s, step);
    var x, z := s.nodes[j], s'.nodes[j];
    WhatLasts(s, step);
    LiveTerm(s, step);
    ExtendsRefl(s.hist.reigns);
    if Lasts(step) {
      EventTraced(s, i, step.ev);
      if j == i {
        EventHeld(s, i, step.ev, t, k);
      }
    }
    hide Inv, LogsTrace, Run, EventEnabled, Next, Merging;
    if j != i || (z.currentTerm == x.currentTerm && z.logs == x.logs) {
      hide HeldBy;
      HeldExtends(s.hist.reigns, s'.hist.reigns, x, z, t, k);
    } else {
      var y := Run(s, i, step.ev).value.node;
      assert z.logs == y.logs && z.currentTerm == y.currentTerm;
    }
  }

  /** What an event does to the counter that a leader keeps for peer p. */
  lemma CounterMoves(s: Cluster, i: int, ev: Event, p: int)
    requires Inv(s) && 0 <= i < s.n && EventEnabled(s, i, ev) && 0 <= p < s.n
    ensures Run(s, i, ev).Done? && |Run(s, i, ev).value.node.matchIndex| == s.n
    ensures
      var x, y := s.nodes[i], Run(s, i, ev).value.node;
      y.status == Leader && y.matchIndex[p] > 0 ==>
        && x.status == Leader && y.currentTerm == x.currentTerm
        && (y.matchIndex[p] == x.matchIndex[p]
            || (&& ev.OnAppendReply? && ev.m.from == p && ev.m.reply.success && ev.m.args.term == x.currentTerm
                && y.matchIndex[p] == ev.m.args.prevIndex + |ev.m.args.entries|))
  {
    EventSound(s, i, ev);
    RunFits(s, i, ev);
    assert NodeInv(s.n, s.hist, i, s.nodes[i]);
    match ev
    case OnAppendReply(m, count) =>
      assert MsgInv(s.n, s.hist.ballots, s.hist.reigns, m);
      hide Inv, NodeInv;
      ReplyMoves(s.n, s.hist, s.nodes[i], m, count, p);
    case OnVoteReply(m) =>
      hide Inv, NodeInv;
      VoteReplyExactly(s.nodes[i], m.from, m.term, m.granted);
    case OnAppend(m) =>
      hide Inv, NodeInv, AppendEntries, Overwrite;
      AppendExactly(s.nodes[i], m.args);
    case _ =>
      hide Inv, NodeInv;
      QuietCounters(s, i, ev);
  }

  lemma QuietCounters(s: Cluster, i: int, ev: Event)
    requires Sized(s) && 0 <= i < s.n && EventEnabled(s, i, ev) && Run(s, i, ev).Done?
    requires !ev.OnAppendReply? && !ev.OnVoteReply? && !ev.OnAppend?
    ensures
      var x, y := s.nodes[i], Run(s, i, ev).value.node;
      y.matchIndex == x.matchIndex
      && (y.status == Leader ==> x.status == Leader && y.currentTerm == x.currentTerm)
  {
  }

  lemma ReplyMoves(n: nat, h: History, x: Node, m: Message, count: int, p: int)
    requires m.AppendResponse? && MsgInv(n, h.ballots, h.reigns, m) && 0 <= p < n
    requires |x.nextIndex| == |x.matchIndex| == n && RunAppendReply(x, h, m, count).Done?
    ensures
      var y := RunAppendReply(x, h, m, count).value.node;
      y.status == Leader && |y.matchIndex| == n ==>
        && x.status == Leader && y.currentTerm == x.currentTerm
        && (y.matchIndex[p] == x.matchIndex[p]
            || (&& m.from == p && m.reply.success && m.args.term == x.currentTerm
                && y.matchIndex[p] == m.args.prevIndex + |m.args.entries|))
  {
    ReplyExactly(x, m.from, m.args, m.reply, count);
    hide AppendAnswered;
  }

  // ---------------------------------------------------------------- every run in which logs match

  lemma NextAnswersHeld(s: Cluster, step: Step, m: Message)
    requires Inv(s) && LogsTrace(s) && Merging(s, step) && AllHeld(s) && m in Next(s, step).msgs
    ensures AnswerHeld(Next(s, step), m)
  {
    if m.AppendResponse? && m.reply.success {
      var t, k := m.args.term, m.args.prevIndex + |m.args.entries|;
      if m in s.msgs {
        assert AnswerHeld(s, m);
        StepHeld(s, step, m.from, t, k);
      } else {
        assert step.Act? && Enabled(s, step);
        Happens(s, step.i, step.ev);
        EventHeld(s, step.i, step.ev, 0, 0);
        hide Inv, Run, EventEnabled, LogsTrace, HeldBy, AllHeld;
        WhatLasts(s, step);
      }
    }
  }

  lemma NextCounterHeld(s: Cluster, step: Step, i: int, p: int)
    requires Inv(s) && LogsTrace(s) && Merging(s, step) && AllHeld(s)
    requires 0 <= i < s.n && 0 <= p < s.n && p != i
    ensures CounterHeld(Next(s, step), i, p)
  {
    if Enabled(s, step) {
      assert CounterHeld(s, i, p);
      if step.i != i {
        OthersStay(s, step, i);
        StepHeldIf(s, step, p, s.nodes[i].currentTerm, s.nodes[i].matchIndex[p]);
      } else if step.Act? {
        OwnCounterHeld(s, i, step.ev, p);
      } else {
        Restarted(s, step);
      }
    }
  }

  lemma StepHeldIf(s: Cluster, step: Step, j: int, t: int, k: int)
    requires Inv(s) && LogsTrace(s) && Merging(s, step) && 0 <= j < s.n
    ensures HeldBy(s.hist.reigns, s.nodes[j], t, k) ==> HeldBy(Next(s, step).hist.reigns, Next(s, step).nodes[j], t, k)
  {
    if HeldBy(s.hist.reigns, s.nodes[j], t, k) {
      StepHeld(s, step, j, t, k);
    }
  }

  lemma OwnCounterHeld(s: Cluster, i: int, ev: Event, p: int)
    requires Inv(s) && LogsTrace(s) && Merging(s, Act(i, ev)) && AllHeld(s)
    requires 0 <= i < s.n && EventEnabled(s, i, ev) && 0 <= p < s.n && p != i
    ensures CounterHeld(Next(s, Act(i, ev)), i, p)
  {
    var x, s' := s.nodes[i], Next(s, Act(i, ev));
    var y := s'.nodes[i];
    CounterMoves(s, i, ev, p);
    CounterBefore(s, i, ev, p);
    Happens(s, i, ev);
    hide Inv, LogsTrace, HeldBy, AllHeld, Next, Run, EventEnabled, Merging;
    if y.status == Leader && y.matchIndex[p] > 0 {
      StepHeldIf(s, Act(i, ev), p, x.currentTerm, y.matchIndex[p]);
    } else {
      NothingHeld(s'.hist.reigns, s'.nodes[p], y.currentTerm, y.matchIndex[p]);
    }
  }

  lemma NothingHeld(g: Reigns, y: Node, t: int, k: int)
    ensures k <= 0 ==> HeldBy(g, y, t, k)
  {
  }

  /** What the invariant says before the event of the peer and the counter it will reach. */
  lemma CounterBefore(s: Cluster, i: int, ev: Event, p: int)
    requires Inv(s) && AllHeld(s) && 0 <= i < s.n && EventEnabled(s, i, ev) && 0 <= p < s.n && p != i
    ensures s.nodes[i].status == Leader ==>
              HeldBy(s.hist.reigns, s.nodes[p], s.nodes[i].currentTerm, s.nodes[i].matchIndex[p])
    ensures ev.OnAppendReply? && ev.m.from == p && ev.m.reply.success ==>
              HeldBy(s.hist.reigns, s.nodes[p], ev.m.args.term, ev.m.args.prevIndex + |ev.m.args.entries|)
  {
    assert CounterHeld(s, i, p);
    assert ev.OnAppendReply? ==> AnswerHeld(s, ev.m);
    hide Inv, HeldBy;
  }

  lemma OthersStay(s: Cluster, step: Step, i: int)
    requires Sized(s) && Enabled(s, step) && 0 <= i < s.n && step.i != i
    ensures Next(s, step).nodes[i] == s.nodes[i]
  {
    RunOrCrashFits(s, step);
    hide Run, EventEnabled;
  }

  lemma {:induction false} AlwaysHeld(n: nat, steps: seq<Step>)
    requires MergingRun(n, steps)
    ensures AllHeld(After(n, steps))
    decreases |steps|
  {
    if |steps| > 0 {
      var last := |steps| - 1;
      var before := steps[..last];
      var s, step := After(n, before), steps[last];
      MergingPrefix(n, steps, last);
      assert Merging(s, step);
      AlwaysHeld(n, before);
      AlwaysTraces(n, before);
      Reachable(n, before);
      hide Inv, LogsTrace, Merging, Next, AllHeld, AnswerHeld, CounterHeld, MergingRun;
      forall m | m in Next(s, step).msgs ensures AnswerHeld(Next(s, step), m) {
        NextAnswersHeld(s, step, m);
      }
      forall i, p | 0 <= i < n && 0 <= p < n && p != i ensures CounterHeld(Next(s, step), i, p) {
        NextCounterHeld(s, step, i, p);
      }
      HeldParts(Next(s, step));
    }
  }

  lemma HeldParts(s: Cluster)
    requires Sized(s) && forall m :: m in s.msgs ==> AnswerHeld(s, m)
    requires forall i, p :: 0 <= i < s.n && 0 <= p < s.n && p != i ==> CounterHeld(s, i, p)
    ensures AllHeld(s)
  {
  }

  /** Wherever logs match: what a leader counts as held by a peer, the peer holds, unless it has moved
      on to a newer term. */
  lemma CountedIsHeld(n: nat, steps: seq<Step>, i: nat, p: nat)
    requires MergingRun(n, steps) && i < n && p < n && p != i && After(n, steps).nodes[i].status == Leader
    ensures
      var x, y := After(n, steps).nodes[i], After(n, steps).nodes[p];
      var k := x.matchIndex[p];
      0 <= k <= |x.logs|
      && (0 < k && y.currentTerm <= x.currentTerm ==>
            y.currentTerm == x.currentTerm && k <= |y.logs| && y.logs[..k] == x.logs[..k])
  {
    var s := After(n, steps);
    AlwaysHeld(n, steps);
    Reachable(n, steps);
    assert CounterHeld(s, i, p);
    assert NodeInv(n, s.hist, i, s.nodes[i]);
    hide Inv, AllHeld;
  }
}
