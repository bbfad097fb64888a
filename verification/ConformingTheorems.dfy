/** What the Raft nodes guarantee in conforming runs, in the terms of sections 5.3 and 5.4.3 and
    Figure 3 of the Raft paper. The number of nodes is arbitrary. */
module ConformingTheorems {
  import opened RaftTypes
  import opened RaftHandlers
  import opened Cluster
  import opened Majorities
  import opened Invariants
  import opened EventsKeep
  import opened SafetyInv
  import opened SafetyGrowth
  import opened SafetyRuns
  import opened RunHistory
  import opened MatchingRuns
  import opened RaftTheorems

  lemma PrefixConforms(n: nat, steps: seq<Step>, p: nat)
    requires ConformingRun(n, steps) && p <= |steps|
    ensures ConformingRun(n, steps[..p])
  {
    forall k | 0 <= k < p ensures Conforming(After(n, steps[..p][..k]), steps[..p][k]) {
      assert steps[..p][..k] == steps[..k];
    }
  }

  /** Both invariants after p steps of a conforming run. */
  lemma SafeAt(n: nat, steps: seq<Step>, p: nat)
    requires ConformingRun(n, steps) && p <= |steps|
    ensures Inv(At(n, steps, p)) && SafeInv(At(n, steps, p))
  {
    PrefixConforms(n, steps, p);
    Reachable(n, steps[..p]);
    ReachableSafe(n, steps[..p]);
  }

  lemma CoveredGrows(n: nat, h: History, h': History, log: seq<Entry>, c: int, bound: int)
    requires Grows(h, h') && Covered(n, h.acks, h.reigns, log, c, bound)
    ensures Covered(n, h'.acks, h'.reigns, log, c, bound)
  {
    if c > 0 {
      var t, k :| Chosen(n, h.acks, t, k) && CoveredBy(h.reigns, log, c, bound, t, k);
      ChosenGrows(n, h.acks, h'.acks, t, k);
      assert ReignGrows(h.reigns[t], h'.reigns[t]);
      assert h'.reigns[t].log[..c] == h.reigns[t].log[..c];
      assert CoveredBy(h'.reigns, log, c, bound, t, k);
    }
  }

  // ---------------------------------------------------------------- safety (section 5.4.3)

  /** Leader Completeness: what a node has committed is in the log of every node that leads, then
      or later, in that node's term or a later one. */
  lemma LeaderHasCommitted(n: nat, steps: seq<Step>, p: nat, q: nat, i: nat, j: nat)
    requires ConformingRun(n, steps) && p <= q <= |steps| && i < n && j < n
    requires At(n, steps, q).nodes[j].status == Leader
    requires At(n, steps, p).nodes[i].currentTerm <= At(n, steps, q).nodes[j].currentTerm
    ensures
      var x, y := At(n, steps, p).nodes[i], At(n, steps, q).nodes[j];
      && 0 <= x.commitIndex <= |x.logs| && x.commitIndex <= |y.logs|
      && y.logs[..x.commitIndex] == x.logs[..x.commitIndex]
  {
    var s, s' := At(n, steps, p), At(n, steps, q);
    var x, y := s.nodes[i], s'.nodes[j];
    SafeAt(n, steps, p);
    SafeAt(n, steps, q);
    RunGrows(n, steps, p, q);
    assert NodeInv(n, s.hist, i, x) && NodeSafe(n, s.hist.acks, s.hist.reigns, x);
    LeaderReigns(s', j);
    if 0 < x.commitIndex {
      CoveredGrows(n, s.hist, s'.hist, x.logs, x.commitIndex, x.currentTerm);
      LeaderCompleteness(n, s'.hist);
      CommittedInLeader(n, s'.hist, x.logs, x.commitIndex, x.currentTerm, y.currentTerm);
    }
  }

  /** Two chosen prefixes agree. */
  lemma ChosenAgree(n: nat, h: History, a: seq<Entry>, c: int, bound: int, b: seq<Entry>, d: int, bound': int)
    requires LeadersComplete(n, h.acks, h.reigns)
    requires Covered(n, h.acks, h.reigns, a, c, bound) && Covered(n, h.acks, h.reigns, b, d, bound')
    requires 0 <= c <= d
    ensures 0 < c ==> c <= |a| && c <= |b| && a[..c] == b[..c]
  {
    if 0 < c {
      var t, k :| Chosen(n, h.acks, t, k) && CoveredBy(h.reigns, a, c, bound, t, k);
      var u, m :| Chosen(n, h.acks, u, m) && CoveredBy(h.reigns, b, d, bound', u, m);
      var l, r := h.reigns[t].log, h.reigns[u].log;
      Shorter(b, r, d, c);
      if t < u {
        HoldsShorter(h.reigns, t, k, r, c);
      } else if u < t {
        HoldsShorter(h.reigns, u, m, l, c);
      }
    }
  }

  /** What both nodes have committed is the same. */
  ghost predicate SameCommitted(x: Node, y: Node) {
    var c := Min(x.commitIndex, y.commitIndex);
    0 <= c <= |x.logs| && c <= |y.logs| && x.logs[..c] == y.logs[..c]
  }

  /** Whatever two nodes have committed, at any moments, they agree on. */
  lemma CommittedPrefixesAgree(n: nat, steps: seq<Step>, p: nat, q: nat, i: nat, j: nat)
    requires ConformingRun(n, steps) && p <= q <= |steps| && i < n && j < n
    ensures SameCommitted(At(n, steps, p).nodes[i], At(n, steps, q).nodes[j])
  {
    var s, s' := At(n, steps, p), At(n, steps, q);
    var x, y := s.nodes[i], s'.nodes[j];
    SafeAt(n, steps, p);
    SafeAt(n, steps, q);
    RunGrows(n, steps, p, q);
    assert NodeInv(n, s.hist, i, x) && NodeSafe(n, s.hist.acks, s.hist.reigns, x);
    assert NodeInv(n, s'.hist, j, y) && NodeSafe(n, s'.hist.acks, s'.hist.reigns, y);
    CoveredGrows(n, s.hist, s'.hist, x.logs, x.commitIndex, x.currentTerm);
    LeaderCompleteness(n, s'.hist);
    if x.commitIndex <= y.commitIndex {
      ChosenAgree(n, s'.hist, x.logs, x.commitIndex, x.currentTerm, y.logs, y.commitIndex, y.currentTerm);
    } else {
      ChosenAgree(n, s'.hist, y.logs, y.commitIndex, y.currentTerm, x.logs, x.commitIndex, x.currentTerm);
    }
  }

  /** State Machine Safety: what any two processes have pushed on their apply channels, at any
      moments of the run, are prefixes of one another. */
  lemma StateMachineSafety(n: nat, steps: seq<Step>, p: nat, q: nat, i: nat, j: nat)
    requires ConformingRun(n, steps) && p <= q <= |steps| && i < n && j < n
    ensures
      var a, b := At(n, steps, p).nodes[i].applied, At(n, steps, q).nodes[j].applied;
      a <= b || b <= a
  {
    var x, y := At(n, steps, p).nodes[i], At(n, steps, q).nodes[j];
    CommittedPrefixesAgree(n, steps, p, q, i, j);
    AppliedFromLog(n, steps, p, i);
    AppliedFromLog(n, steps, q, j);
    forall k | 0 <= k < |x.applied| && k < |y.applied| ensures x.applied[k] == y.applied[k] {
      var c := Min(x.commitIndex, y.commitIndex);
      assert x.logs[..c][k] == y.logs[..c][k];
    }
  }

  lemma AppliedFromLog(n: nat, steps: seq<Step>, p: nat, i: nat)
    requires ConformingRun(n, steps) && p <= |steps| && i < n
    ensures
      var x := At(n, steps, p).nodes[i];
      && |x.applied| <= x.commitIndex <= |x.logs|
      && forall k :: 0 <= k < |x.applied| ==> x.applied[k] == ApplyMsg(k + 1, x.logs[k].command)
  {
    var s := At(n, steps, p);
    SafeAt(n, steps, p);
    assert NodeSafe(n, s.hist.acks, s.hist.reigns, s.nodes[i]);
  }

  /** The disks of these nodes hold what x has committed. */
  ghost predicate DurableOn(s: Cluster, q: set<int>, x: Node)
    requires Sized(s)
  {
    forall v :: v in q ==>
      && 0 <= v < s.n
      && 0 <= x.commitIndex <= |x.logs| && x.commitIndex <= |s.disks[v].logs|
      && s.disks[v].logs[..x.commitIndex] == SavedLog(x.logs)[..x.commitIndex]
  }

  /** Whatever any node has committed is on the disks of a majority, then and ever after. */
  lemma CommittedIsDurable(n: nat, steps: seq<Step>, p: nat, q: nat, i: nat) returns (voters: set<int>)
    requires ConformingRun(n, steps) && p <= q <= |steps| && i < n && 0 < At(n, steps, p).nodes[i].commitIndex
    ensures Majority(n, voters) && DurableOn(At(n, steps, q), voters, At(n, steps, p).nodes[i])
  {
    hide Inv, SafeInv, At, LeadersComplete, Grows, Covered;
    var s, s' := At(n, steps, p), At(n, steps, q);
    var x := s.nodes[i];
    SafeAt(n, steps, p);
    SafeAt(n, steps, q);
    RunGrows(n, steps, p, q);
    SafeNodeCovered(s, i);
    CoveredGrows(n, s.hist, s'.hist, x.logs, x.commitIndex, x.currentTerm);
    voters := CoveredIsDurable(s', x);
  }

  lemma SafeNodeCovered(s: Cluster, i: int)
    requires Inv(s) && SafeInv(s) && 0 <= i < s.n
    ensures
      var x := s.nodes[i];
      0 <= x.commitIndex <= |x.logs|
      && Covered(s.n, s.hist.acks, s.hist.reigns, x.logs, x.commitIndex, x.currentTerm)
  {
    assert NodeInv(s.n, s.hist, i, s.nodes[i]);
    assert NodeSafe(s.n, s.hist.acks, s.hist.reigns, s.nodes[i]);
  }

  lemma CoveredIsDurable(s: Cluster, x: Node) returns (voters: set<int>)
    requires Inv(s) && SafeInv(s) && 0 < x.commitIndex <= |x.logs|
    requires Covered(s.n, s.hist.acks, s.hist.reigns, x.logs, x.commitIndex, x.currentTerm)
    ensures Majority(s.n, voters) && DurableOn(s, voters, x)
  {
    var g := s.hist.reigns;
    LeaderCompleteness(s.n, s.hist);
    var t, k :| Chosen(s.n, s.hist.acks, t, k) && CoveredBy(g, x.logs, x.commitIndex, x.currentTerm, t, k);
    voters := Ackers(s.hist.acks, t, k);
    forall v | v in voters
      ensures 0 <= v < s.n && x.commitIndex <= |s.nodes[v].logs|
              && s.nodes[v].logs[..x.commitIndex] == x.logs[..x.commitIndex]
              && s.disks[v].logs == SavedLog(s.nodes[v].logs)
    {
      AckerHolds(s, t, k, v);
      Shorter(s.nodes[v].logs, g[t].log, k, x.commitIndex);
    }
    forall v | v in voters ensures s.disks[v].logs[..x.commitIndex] == SavedLog(x.logs)[..x.commitIndex] {
      SavedPrefix(x.logs, s.nodes[v].logs, x.commitIndex);
    }
  }

  lemma SavedPrefix(a: seq<Entry>, b: seq<Entry>, c: int)
    requires 0 <= c <= |a| && c <= |b| && a[..c] == b[..c]
    ensures SavedLog(a)[..c] == SavedLog(b)[..c]
  {
    assert forall k :: 0 <= k < c ==> a[k] == a[..c][k] == b[..c][k] == b[k];
  }

  /** Whoever acknowledged a chosen entry still holds it. */
  lemma AckerHolds(s: Cluster, t: int, k: int, v: int)
    requires Inv(s) && SafeInv(s) && Chosen(s.n, s.hist.acks, t, k) && v in Ackers(s.hist.acks, t, k)
    requires LeadersComplete(s.n, s.hist.acks, s.hist.reigns)
    ensures 0 <= v < s.n && Holds(s.hist.reigns, Ack(v, t, k), s.nodes[v].logs)
  {
    var a := Ack(v, t, k);
    var g := s.hist.reigns;
    assert a in s.hist.acks && AckOk(s.n, g, a);
    assert NodeInv(s.n, s.hist, v, s.nodes[v]) && NodeSafe(s.n, s.hist.acks, g, s.nodes[v]);
    forall u | u in g && t < u ensures Holds(g, a, g[u].log) {
      assert Holds(g, Ack(0, t, k), g[u].log);
    }
  }

  // ---------------------------------------------------------------- exactly

  /** A message with a batch was sent by a leader of its term that had committed what it says. */
  ghost predicate SentFrom(s: Cluster, m: Message)
    requires Sized(s) && m.AppendRequest?
  {
    var a := m.args;
    && 0 <= a.leaderId < s.n
    && s.nodes[a.leaderId].status == Leader && s.nodes[a.leaderId].currentTerm == a.term
    && s.nodes[a.leaderId].commitIndex == a.leaderCommit
  }

  lemma SentNow(s: Cluster, i: int, ev: Event, m: Message)
    requires Sized(s) && 0 <= i < s.n && s.nodes[i].me == i && EventEnabled(s, i, ev) && Run(s, i, ev).Done?
    requires m in Run(s, i, ev).value.sent && m.AppendRequest?
    ensures SentFrom(s, m)
  {
  }

  /** Every message with a batch that is around after q steps was sent before. */
  lemma {:induction false} SentBefore(n: nat, steps: seq<Step>, q: nat, m: Message) returns (p: nat)
    requires q <= |steps| && m in At(n, steps, q).msgs && m.AppendRequest?
    ensures p < q && SentFrom(At(n, steps, p), m)
    decreases q
  {
    if q == 0 {
      assert false;
    } else {
      var s, step := At(n, steps, q - 1), steps[q - 1];
      AtNext(n, steps, q - 1);
      if m in s.msgs {
        p := SentBefore(n, steps, q - 1, m);
      } else {
        InvAt(n, steps, q - 1);
        NewlySent(s, step, m);
        p := q - 1;
      }
    }
  }

  lemma NewlySent(s: Cluster, step: Step, m: Message)
    requires Inv(s) && m in Next(s, step).msgs && m !in s.msgs && m.AppendRequest?
    ensures SentFrom(s, m)
  {
    assert Enabled(s, step) && step.Act? && Run(s, step.i, step.ev).Done? && m in Run(s, step.i, step.ev).value.sent;
    assert NodeInv(s.n, s.hist, step.i, s.nodes[step.i]);
    hide Inv, Run, EventEnabled;
    SentNow(s, step.i, step.ev, m);
  }

  /** What the receiver of a landing batch that meets C1 but not C2 has afterwards. */
  lemma CommitTaken(s: Cluster, step: Step)
    requires Inv(s) && Lands(s, step) && step.Act?
    requires
      var x, a := s.nodes[step.i], step.ev.m.args;
      C1(x, a) && !C2(x, a)
    ensures
      var x, z, a := s.nodes[step.i], Next(s, step).nodes[step.i], step.ev.m.args;
      && z.logs == x.logs && z.commitIndex == Min(a.leaderCommit, |x.logs|) && 0 <= z.commitIndex
  {
    var i, x, a, h := step.i, s.nodes[step.i], step.ev.m.args, s.hist;
    assert NodeInv(s.n, h, i, x) && MsgInv(s.n, h.ballots, h.reigns, step.ev.m);
    BatchKnown(s.n, h, a);
    KnownNoClash(h.reigns, x.logs, a.prevIndex, a.entries);
    MatchEffect(s.n, h, x, a);
    assert Next(s, step).nodes[i] == RunAppend(x, h, a).value.node;
    hide Inv, RunAppend, Next, EventEnabled, HistInv;
    NoConflictSame(h.reigns, x, a, RunAppend(x, h, a).value.node.logs);
  }

  /** All nodes, at any two moments of the run, agree on what both have committed. */
  ghost predicate CommitsAgree(n: nat, steps: seq<Step>) {
    forall p: nat, q: nat, i: nat, j: nat :: p <= q <= |steps| && i < n && j < n ==>
      SameCommitted(At(n, steps, p).nodes[i], At(n, steps, q).nodes[j])
  }

  /** A receiver that commits more than it shares with the sender disagrees with it. */
  lemma AgreeingShares(n: nat, steps: seq<Step>, k: nat)
    requires CommitsAgree(n, steps) && k < |steps| && Lands(At(n, steps, k), steps[k]) && steps[k].Act?
    requires C1(At(n, steps, k).nodes[steps[k].i], steps[k].ev.m.args)
    ensures
      var s, step := At(n, steps, k), steps[k];
      CommitsShared(s.hist.reigns, s.nodes[step.i], step.ev.m.args)
  {
    var s, m := At(n, steps, k), steps[k].ev.m;
    var x, a := s.nodes[steps[k].i], m.args;
    if !C2(x, a) {
      InvAt(n, steps, k);
      AtNext(n, steps, k);
      CommitTaken(s, steps[k]);
      var p := SentBefore(n, steps, k, m);
      InvAt(n, steps, p);
      LeaderReigns(At(n, steps, p), a.leaderId);
      RunGrows(n, steps, p, k);
      var y, z := At(n, steps, p).nodes[a.leaderId], At(n, steps, k + 1).nodes[steps[k].i];
      assert SameCommitted(y, z);
      assert ReignGrows(At(n, steps, p).hist.reigns[a.term], s.hist.reigns[a.term]);
      hide Inv, At, Next, CommitsAgree, Lands, C1, C2, Grows;
      SharedPrefix(y.logs, s.hist.reigns[a.term].log, x.logs, z.commitIndex);
    }
  }

  lemma SharedPrefix(a: seq<Entry>, l: seq<Entry>, b: seq<Entry>, c: int)
    requires a <= l && 0 <= c <= |a| && c <= |b| && a[..c] == b[..c]
    ensures c <= |l| && b[..c] == l[..c]
  {
  }

  /** The code keeps Log Matching and the agreement of committed prefixes in a run exactly when the
      run is conforming: every batch that lands meets C1, and its receiver, unless it dies in it,
      commits no more than C2 allows or than it shares with the sender. */
  lemma SafetyExactly(n: nat, steps: seq<Step>)
    ensures LogsMatch(n, steps) && CommitsAgree(n, steps) <==> ConformingRun(n, steps)
  {
    LogMatchingExactly(n, steps);
    if ConformingRun(n, steps) {
      forall k | 0 <= k < |steps| ensures Merging(After(n, steps[..k]), steps[k]) {
        assert Conforming(After(n, steps[..k]), steps[k]);
      }
      forall p: nat, q: nat, i: nat, j: nat | p <= q <= |steps| && i < n && j < n
        ensures SameCommitted(At(n, steps, p).nodes[i], At(n, steps, q).nodes[j])
      {
        CommittedPrefixesAgree(n, steps, p, q, i, j);
      }
    }
    if LogsMatch(n, steps) && CommitsAgree(n, steps) {
      forall k | 0 <= k < |steps| ensures Conforming(After(n, steps[..k]), steps[k]) {
        var s := At(n, steps, k);
        assert Merging(s, steps[k]);
        if Lands(s, steps[k]) && steps[k].Act? {
          AgreeingShares(n, steps, k);
        }
      }
    }
  }
}
