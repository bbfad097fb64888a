/** Section 5.3, exactly: logs match in a run, and terms never decrease along a log, if and only if
    every batch that lands meets C1. Nothing is asked of commit indices. */
module MatchingRuns {
  import opened Bytes
  import opened RaftTypes
  import opened RaftHandlers
  import opened Cluster
  import opened Invariants
  import opened Receiver
  import opened EventsKeep
  import opened Acknowledgements
  import opened SafetyInv
  import opened SafetyGrowth
  import opened SafetyEvents
  import opened SafetyRuns
  import opened RunHistory

  /** Every log, a node's or a leader's, is made of stretches of leaders' logs. */
  ghost predicate LogsTrace(s: Cluster)
    requires Sized(s)
  {
    ReignsTrace(s.hist.reigns) && forall i :: 0 <= i < s.n ==> Traces(s.hist.reigns, s.nodes[i].logs)
  }

  // ---------------------------------------------------------------- one event

  /** What has to be shown of one event. */
  ghost predicate TracedEffect(h: History, e: Effect) {
    && Extends(h.reigns, e.hist.reigns)
    && ReignsTrace(e.hist.reigns) && Traces(e.hist.reigns, e.node.logs)
  }

  lemma AppendTraced(n: nat, h: History, x: Node, a: AppendArgs)
    requires NodeInv(n, h, x.me, x) && HistInv(n, h) && 0 <= x.me < n
    requires ArgsOk(n, h.reigns, a) && a.leaderId != x.me && (Matches(x, a) ==> C1(x, a))
    requires ReignsTrace(h.reigns) && Traces(h.reigns, x.logs)
    ensures RunAppend(x, h, a).Done? && TracedEffect(h, RunAppend(x, h, a).value)
  {
    ExtendsRefl(h.reigns);
    if a.term < x.currentTerm || a.prevIndex > |x.logs| || !MatchLog(x, a.prevIndex, a.prevTerm) {
      AppendCore(n, h, x, a);
    } else {
      BatchKnown(n, h, a);
      KnownNoClash(h.reigns, x.logs, a.prevIndex, a.entries);
      MatchEffect(n, h, x, a);
      hide RunAppend, HistInv, C1;
      var r := RunAppend(x, h, a).value.node.logs;
      assert Traces(h.reigns, h.reigns[a.term].log);
      ConformingMerge(n, h.reigns, x, a, r);
      MergeTraces(h.reigns, x.logs, h.reigns[a.term].log, a.prevIndex + |a.entries|, r);
    }
  }

  lemma WinTraced(s: Cluster, i: int, m: Message)
    requires Inv(s) && LogsTrace(s) && 0 <= i < s.n && EventEnabled(s, i, OnVoteReply(m))
    requires RunVoteReply(s.nodes[i], s.hist, m).Done?
    ensures TracedEffect(s.hist, RunVoteReply(s.nodes[i], s.hist, m).value)
  {
    var x, h := s.nodes[i], s.hist;
    var e := RunVoteReply(x, h, m).value;
    assert NodeInv(s.n, h, i, x);
    VoteReplyLog(x, h, m);
    if e.hist == h {
      ExtendsRefl(h.reigns);
    } else {
      WinIsNew(s, i, m);
      hide RunVoteReply, Inv;
      WinTraces(h.reigns, e.hist.reigns, x.logs, x.currentTerm);
      TracesExtend(h.reigns, e.hist.reigns, x.logs);
    }
  }

  lemma VoteReplyLog(x: Node, h: History, m: Message)
    requires m.VoteReply? && x.election.Election? && RunVoteReply(x, h, m).Done?
    ensures RunVoteReply(x, h, m).value.node.logs == x.logs
  {
  }

  lemma ProposeTraced(n: nat, h: History, x: Node, command: Bytes)
    requires NodeInv(n, h, x.me, x) && HistInv(n, h)
    requires ReignsTrace(h.reigns) && Traces(h.reigns, x.logs)
    ensures TracedEffect(h, RunPropose(x, h, command))
  {
    var e := RunPropose(x, h, command);
    if x.status == Leader {
      var entry := Entry(|x.logs| + 1, x.currentTerm, command);
      assert Proposed(h, x, e, entry);
      ProposeExtends(h, x, e, entry);
      ProposeTraces(n, h, x, e, entry);
    } else {
      ExtendsRefl(h.reigns);
    }
  }

  /** All other events leave logs and reigns alone. */
  lemma QuietLog(s: Cluster, i: int, ev: Event)
    requires Sized(s) && 0 <= i < s.n && EventEnabled(s, i, ev) && Run(s, i, ev).Done?
    requires !ev.OnAppend? && !ev.OnVoteReply? && !ev.Propose?
    ensures
      var e := Run(s, i, ev).value;
      e.node.logs == s.nodes[i].logs && e.hist.reigns == s.hist.reigns
  {
    if ev.OnAppendReply? {
      ReplyLog(s.nodes[i], s.hist, ev.m, ev.count);
    }
  }

  lemma ReplyLog(x: Node, h: History, m: Message, count: int)
    requires m.AppendResponse? && 0 <= m.from < |x.nextIndex| && 0 <= m.from < |x.matchIndex|
    requires RunAppendReply(x, h, m, count).Done?
    ensures
      var e := RunAppendReply(x, h, m, count).value;
      e.node.logs == x.logs && e.hist == h
  {
  }

  lemma EventTraced(s: Cluster, i: int, ev: Event)
    requires Inv(s) && LogsTrace(s) && 0 <= i < s.n && EventEnabled(s, i, ev)
    requires ev.OnAppend? && Matches(s.nodes[i], ev.m.args) ==> C1(s.nodes[i], ev.m.args)
    ensures Run(s, i, ev).Done? && TracedEffect(s.hist, Run(s, i, ev).value)
  {
    var n, h, x := s.n, s.hist, s.nodes[i];
    EventSound(s, i, ev);
    assert NodeInv(n, h, i, x) && HistInv(n, h) && Traces(h.reigns, x.logs);
    match ev
    case OnAppend(m) =>
      assert MsgInv(n, h.ballots, h.reigns, m);
      hide Inv, NodeInv, HistInv, LogsTrace, C1;
      AppendTraced(n, h, x, m.args);
    case OnVoteReply(m) => WinTraced(s, i, m);
    case Propose(command) => ProposeTraced(n, h, x, command);
    case _ =>
      hide Inv, NodeInv, HistInv;
      QuietLog(s, i, ev);
      ExtendsRefl(h.reigns);
  }

  // ---------------------------------------------------------------- one step

  /** Does the step leave more than a restart would? An unflushed win changes nothing on disk. */
  predicate Lasts(step: Step)
    requires !step.Crash?
  {
    step.Act? || step.flushed || step.ev.OnVoteReply?
  }

  /** What a step leaves of an event: its log and its reigns, or, if the write was lost, nothing. */
  lemma WhatLasts(s: Cluster, step: Step)
    requires Inv(s) && Enabled(s, step) && !step.Crash?
    ensures Run(s, step.i, step.ev).Done?
    ensures
      var i, e, s' := step.i, Run(s, step.i, step.ev).value, Next(s, step);
      && (forall j :: 0 <= j < s.n && j != i ==> s'.nodes[j] == s.nodes[j])
      && (if Lasts(step) then s'.nodes[i].logs == e.node.logs && s'.hist.reigns == e.hist.reigns
          else s'.nodes[i].logs == s.nodes[i].logs && s'.hist == s.hist)
  {
    var i, ev := step.i, step.ev;
    EventSound(s, i, ev);
    RunFits(s, i, ev);
    var e := Run(s, i, ev).value;
    if ev.OnVoteReply? {
      VoteReplyLog(s.nodes[i], s.hist, ev.m);
    }
    assert Saved(s, i) by { assert NodeInv(s.n, s.hist, i, s.nodes[i]); }
    assert e.node.snapIndex == 0 && Indexed(0, e.node.logs);
    hide Inv, Sound, Run, EventEnabled, Next;
    LastingShape(s, step, e);
  }

  ghost predicate Saved(s: Cluster, i: int)
    requires Sized(s) && 0 <= i < s.n
  {
    s.disks[i] == PersistData(s.nodes[i]) && s.nodes[i].snapIndex == 0 && Indexed(0, s.nodes[i].logs)
  }

  lemma LastingShape(s: Cluster, step: Step, e: Effect)
    requires Sized(s) && Enabled(s, step) && !step.Crash? && Run(s, step.i, step.ev) == Done(e) && Fits(s.n, e.node)
    requires Saved(s, step.i) && e.node.snapIndex == 0 && Indexed(0, e.node.logs)
    requires step.ev.OnVoteReply? ==> e.node.logs == s.nodes[step.i].logs
    ensures
      var i, s' := step.i, Next(s, step);
      && (forall j :: 0 <= j < s.n && j != i ==> s'.nodes[j] == s.nodes[j])
      && (if Lasts(step) then s'.nodes[i].logs == e.node.logs && s'.hist.reigns == e.hist.reigns
          else s'.nodes[i].logs == s.nodes[i].logs && s'.hist == s.hist)
  {
    LoadedIsSaved(s.nodes[step.i]);
    LoadedIsSaved(e.node);
    hide Run, EventEnabled;
  }

  lemma OthersTrace(s: Cluster, s': Cluster, i: int)
    requires Sized(s) && Sized(s') && s'.n == s.n && 0 <= i < s.n && LogsTrace(s)
    requires forall j :: 0 <= j < s.n && j != i ==> s'.nodes[j] == s.nodes[j]
    requires Extends(s.hist.reigns, s'.hist.reigns) && ReignsTrace(s'.hist.reigns)
    requires Traces(s'.hist.reigns, s'.nodes[i].logs)
    ensures LogsTrace(s')
  {
    forall j | 0 <= j < s.n ensures Traces(s'.hist.reigns, s'.nodes[j].logs) {
      if j != i {
        TracesExtend(s.hist.reigns, s'.hist.reigns, s.nodes[j].logs);
      }
    }
  }

  lemma RebootLog(s: Cluster, i: int)
    requires Inv(s) && 0 <= i < s.n
    ensures Reboot(s, i).nodes[i].logs == s.nodes[i].logs
  {
    assert NodeInv(s.n, s.hist, i, s.nodes[i]);
    LoadedIsSaved(s.nodes[i]);
  }

  lemma NextTraces(s: Cluster, step: Step)
    requires Inv(s) && LogsTrace(s) && Merging(s, step)
    ensures LogsTrace(Next(s, step))
  {
    if Enabled(s, step) {
      var i, s' := step.i, Next(s, step);
      ExtendsRefl(s.hist.reigns);
      if step.Crash? {
        RebootLog(s, i);
      } else {
        WhatLasts(s, step);
        if Lasts(step) {
          EventTraced(s, i, step.ev);
        }
      }
      hide Inv, Run, EventEnabled, Next, Traces, ReignsTrace, Extends;
      OthersTrace(s, s', i);
    }
  }

  /** In a run whose landing batches meet C1. */
  lemma {:induction false} AlwaysTraces(n: nat, steps: seq<Step>)
    requires MergingRun(n, steps)
    ensures LogsTrace(After(n, steps))
    decreases |steps|
  {
    if |steps| > 0 {
      var last := |steps| - 1;
      var before := steps[..last];
      MergingPrefix(n, steps, last);
      assert Merging(After(n, before), steps[last]);
      hide Merging, Next;
      AlwaysTraces(n, before);
      Reachable(n, before);
      NextTraces(After(n, before), steps[last]);
    }
  }

  lemma MergingPrefix(n: nat, steps: seq<Step>, p: nat)
    requires MergingRun(n, steps) && p <= |steps|
    ensures MergingRun(n, steps[..p])
  {
    forall k | 0 <= k < p ensures Merging(After(n, steps[..p][..k]), steps[..p][k]) {
      assert steps[..p][..k] == steps[..k];
    }
  }

  lemma TracesAt(n: nat, steps: seq<Step>, p: nat)
    requires MergingRun(n, steps) && p <= |steps|
    ensures Inv(At(n, steps, p)) && LogsTrace(At(n, steps, p))
  {
    MergingPrefix(n, steps, p);
    AlwaysTraces(n, steps[..p]);
    Reachable(n, steps[..p]);
  }

  lemma TracesGrow(h: History, h': History, log: seq<Entry>)
    requires Grows(h, h') && Traces(h.reigns, log)
    ensures Traces(h'.reigns, log)
  {
    forall k | 0 <= k < |log| ensures TraceAt(h'.reigns, log, k) {
      assert TraceAt(h.reigns, log, k);
      assert ReignGrows(h.reigns[log[k].term], h'.reigns[log[k].term]);
      var was, now := h.reigns[log[k].term].log, h'.reigns[log[k].term].log;
      assert now[..k + 1] == was[..k + 1];
    }
  }

  // ---------------------------------------------------------------- a batch that violates C1

  /** Logs that agree on the term at an index agree on every entry up to it. */
  ghost predicate Match(a: seq<Entry>, b: seq<Entry>) {
    forall k :: 1 <= k <= |a| && k <= |b| && a[k - 1].term == b[k - 1].term ==> a[..k] == b[..k]
  }

  /** A conflict that leaves the end of the log in place: before and after do not match. */
  lemma ConflictBreaks(logs: seq<Entry>, prev: int, entries: seq<Entry>, r: seq<Entry>)
    requires 0 <= prev <= |logs| && Merged(logs, prev, entries, r)
    requires Conflict(logs, prev, entries) && |logs| > prev + |entries|
    ensures !Match(logs, r)
  {
    var j :| 0 <= j < |entries| && 0 <= prev + j < |logs| && logs[prev + j].term != entries[j].term;
    var k := |logs|;
    assert r[k - 1] == logs[k - 1] && r[prev + j] == entries[prev + j - prev];
    assert logs[..k][prev + j] != r[..k][prev + j];
  }

  /** What a landing batch makes of the receiver's log. */
  lemma LandedLog(s: Cluster, step: Step)
    requires Inv(s) && Lands(s, step)
    ensures
      var x, a := s.nodes[step.i], step.ev.m.args;
      && NodeInv(s.n, s.hist, step.i, x) && HistInv(s.n, s.hist) && ArgsOk(s.n, s.hist.reigns, a)
      && 0 <= a.prevIndex <= |x.logs|
      && Merged(x.logs, a.prevIndex, a.entries, Next(s, step).nodes[step.i].logs)
  {
    var x, a := s.nodes[step.i], step.ev.m.args;
    assert NodeInv(s.n, s.hist, step.i, x) && MsgInv(s.n, s.hist.ballots, s.hist.reigns, step.ev.m);
    WhatLasts(s, step);
    BatchKnown(s.n, s.hist, a);
    KnownNoClash(s.hist.reigns, x.logs, a.prevIndex, a.entries);
    hide Inv, Next, RunAppend;
    MatchEffect(s.n, s.hist, x, a);
  }

  /** Nondecreasing terms before and after leave no room for a conflict, if the log traces. */
  lemma AscendingMerge(n: nat, h: History, x: Node, a: AppendArgs, r: seq<Entry>)
    requires ShapeOk(n, x.me, x) && ArgsOk(n, h.reigns, a) && x.currentTerm <= a.term
    requires Traces(h.reigns, x.logs) && 0 <= a.prevIndex <= |x.logs|
    requires Merged(x.logs, a.prevIndex, a.entries, r) && Nondecreasing(r)
    requires |x.logs| > a.prevIndex + |a.entries|
    ensures !Conflict(x.logs, a.prevIndex, a.entries)
  {
    var l, last := h.reigns[a.term].log, |x.logs| - 1;
    forall j | 0 <= j < |a.entries| && 0 <= a.prevIndex + j < |x.logs|
      ensures x.logs[a.prevIndex + j].term == a.entries[j].term
    {
      var k := a.prevIndex + j;
      assert r[k] == a.entries[k - a.prevIndex] && r[last] == x.logs[last];
      assert r[k].term <= r[last].term;
      assert TraceAt(h.reigns, x.logs, last) && x.logs[last].term == a.term;
      assert x.logs[..last + 1][k] == l[..last + 1][k];
    }
  }

  // ---------------------------------------------------------------- log matching

  /** All logs of all nodes, at any two moments of the run, match. */
  ghost predicate LogsMatch(n: nat, steps: seq<Step>) {
    forall p: nat, q: nat, i: nat, j: nat :: p <= q <= |steps| && i < n && j < n ==>
      Match(At(n, steps, p).nodes[i].logs, At(n, steps, q).nodes[j].logs)
  }

  /** Log Matching: where the landing batches meet C1, two logs, of any nodes at any moments, that
      agree on the term at index k agree on every entry up to k. */
  lemma LogMatching(n: nat, steps: seq<Step>, p: nat, q: nat, i: nat, j: nat, k: nat)
    requires MergingRun(n, steps) && p <= q <= |steps| && i < n && j < n
    requires
      var a, b := At(n, steps, p).nodes[i].logs, At(n, steps, q).nodes[j].logs;
      1 <= k <= |a| && k <= |b| && a[k - 1].term == b[k - 1].term
    ensures At(n, steps, p).nodes[i].logs[..k] == At(n, steps, q).nodes[j].logs[..k]
  {
    var s, s' := At(n, steps, p), At(n, steps, q);
    TracesAt(n, steps, p);
    TracesAt(n, steps, q);
    RunGrows(n, steps, p, q);
    hide Inv, At, MergingRun, Grows, Traces;
    TracesGrow(s.hist, s'.hist, s.nodes[i].logs);
    TracedAgree(s'.hist.reigns, s.nodes[i].logs, s'.nodes[j].logs, k);
  }

  /** The code keeps Log Matching in a run exactly when every batch that lands meets C1. */
  lemma LogMatchingExactly(n: nat, steps: seq<Step>)
    ensures LogsMatch(n, steps) <==> MergingRun(n, steps)
  {
    if MergingRun(n, steps) {
      forall p: nat, q: nat, i: nat, j: nat | p <= q <= |steps| && i < n && j < n
        ensures Match(At(n, steps, p).nodes[i].logs, At(n, steps, q).nodes[j].logs)
      {
        var a, b := At(n, steps, p).nodes[i].logs, At(n, steps, q).nodes[j].logs;
        forall k | 1 <= k <= |a| && k <= |b| && a[k - 1].term == b[k - 1].term ensures a[..k] == b[..k] {
          LogMatching(n, steps, p, q, i, j, k);
        }
      }
    }
    if LogsMatch(n, steps) {
      forall k | 0 <= k < |steps| ensures Merging(After(n, steps[..k]), steps[k]) {
        MatchingMerges(n, steps, k);
      }
    }
  }

  lemma MatchingMerges(n: nat, steps: seq<Step>, k: nat)
    requires LogsMatch(n, steps) && k < |steps|
    ensures Merging(At(n, steps, k), steps[k])
  {
    var s, step := At(n, steps, k), steps[k];
    InvAt(n, steps, k);
    AtNext(n, steps, k);
    if Lands(s, step) {
      var i, x, a := step.i, s.nodes[step.i], step.ev.m.args;
      LandedLog(s, step);
      assert Match(x.logs, At(n, steps, k + 1).nodes[i].logs);
      hide Inv, At, Next, LogsMatch, Match, Enabled;
      if !C1(x, a) {
        ConflictBreaks(x.logs, a.prevIndex, a.entries, Next(s, step).nodes[i].logs);
      }
    }
  }

  // ---------------------------------------------------------------- terms along a log

  /** At every moment of the run terms never decrease along a log. */
  ghost predicate TermsAscend(n: nat, steps: seq<Step>) {
    forall p: nat, i: nat :: p <= |steps| && i < n ==> Nondecreasing(At(n, steps, p).nodes[i].logs)
  }

  lemma TermsNeverDecrease(n: nat, steps: seq<Step>, p: nat, i: nat)
    requires MergingRun(n, steps) && p <= |steps| && i < n
    ensures Nondecreasing(At(n, steps, p).nodes[i].logs)
  {
    TracesAt(n, steps, p);
    var s := At(n, steps, p);
    if |s.nodes[i].logs| > 0 {
      TracedPrefix(s.hist.reigns, s.nodes[i].logs);
    }
  }

  /** And so do nondecreasing terms. */
  lemma TermsNeverDecreaseExactly(n: nat, steps: seq<Step>)
    ensures TermsAscend(n, steps) <==> MergingRun(n, steps)
  {
    if MergingRun(n, steps) {
      forall p: nat, i: nat | p <= |steps| && i < n ensures Nondecreasing(At(n, steps, p).nodes[i].logs) {
        TermsNeverDecrease(n, steps, p, i);
      }
    }
    if TermsAscend(n, steps) {
      AscendingMerges(n, steps, |steps|);
      assert steps[..|steps|] == steps;
    }
  }

  lemma {:induction false} AscendingMerges(n: nat, steps: seq<Step>, p: nat)
    requires TermsAscend(n, steps) && p <= |steps|
    ensures MergingRun(n, steps[..p])
    decreases p
  {
    hide After, Merging, TermsAscend, LogsTrace;
    if p > 0 {
      var k := p - 1;
      AscendingMerges(n, steps, k);
      AlwaysTraces(n, steps[..k]);
      AscendingStep(n, steps, k);
      assert steps[..p][..k] == steps[..k];
      forall j | 0 <= j < k ensures Merging(After(n, steps[..p][..j]), steps[..p][j]) {
        assert steps[..p][..j] == steps[..k][..j] && steps[..p][j] == steps[..k][j];
      }
    }
  }

  lemma AscendingStep(n: nat, steps: seq<Step>, k: nat)
    requires TermsAscend(n, steps) && k < |steps| && LogsTrace(At(n, steps, k))
    ensures Merging(At(n, steps, k), steps[k])
  {
    var s, step := At(n, steps, k), steps[k];
    InvAt(n, steps, k);
    AtNext(n, steps, k);
    if Lands(s, step) {
      var i, x, a := step.i, s.nodes[step.i], step.ev.m.args;
      LandedLog(s, step);
      assert Nondecreasing(At(n, steps, k + 1).nodes[i].logs);
      assert Traces(s.hist.reigns, x.logs);
      hide Inv, At, Next, TermsAscend, Enabled;
      if |x.logs| > a.prevIndex + |a.entries| {
        AscendingMerge(s.n, s.hist, x, a, Next(s, step).nodes[i].logs);
      }
    }
  }
}
