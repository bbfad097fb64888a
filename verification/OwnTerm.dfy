/** Section 5.4.2 over whole runs: what a leader adds comes after all it won with, so the downward
    scan for a commit index is right at every leader. */
module OwnTerm {
  import opened Bytes
  import opened RaftTypes
  import opened Cluster
  import opened Invariants
  import opened EventsKeep
  import opened Acknowledgements
  import opened CommitRule
  import opened RaftTheorems

  /** Entries of term t are the end of the log. */
  ghost predicate OwnLast(log: seq<Entry>, t: int) {
    forall j, k :: 0 <= j <= k < |log| && log[j].term == t ==> log[k].term == t
  }

  ghost predicate ReignsOwnLast(g: Reigns) {
    forall t :: t in g ==> OwnLast(g[t].log, t)
  }

  lemma WinOwnLast(s: Cluster, i: int, m: Message)
    requires Inv(s) && 0 <= i < s.n && EventEnabled(s, i, OnVoteReply(m)) && ReignsOwnLast(s.hist.reigns)
    requires RunVoteReply(s.nodes[i], s.hist, m).Done?
    ensures ReignsOwnLast(RunVoteReply(s.nodes[i], s.hist, m).value.hist.reigns)
  {
    var x, h := s.nodes[i], s.hist;
    assert NodeInv(s.n, h, i, x);
    if RunVoteReply(x, h, m).value.hist != h {
      WinIsNew(s, i, m);
      assert forall k :: 0 <= k < |x.logs| ==> Known(h.reigns, x.logs[k]);
    }
  }

  lemma ProposeOwnLast(n: nat, h: History, x: Node, command: Bytes)
    requires LeaderOk(n, h.reigns, x) && ReignsOwnLast(h.reigns)
    ensures ReignsOwnLast(RunPropose(x, h, command).hist.reigns)
  {
  }

  /** Nothing but a win or a command touches the reigns. */
  lemma OtherEventsOwnLast(s: Cluster, i: int, ev: Event)
    requires Sized(s) && 0 <= i < s.n && EventEnabled(s, i, ev) && Run(s, i, ev).Done?
    requires !ev.OnVoteReply? && !ev.Propose?
    ensures Run(s, i, ev).value.hist.reigns == s.hist.reigns
  {
  }

  lemma EventOwnLast(s: Cluster, i: int, ev: Event)
    requires Inv(s) && 0 <= i < s.n && EventEnabled(s, i, ev) && ReignsOwnLast(s.hist.reigns)
    requires Run(s, i, ev).Done?
    ensures ReignsOwnLast(Run(s, i, ev).value.hist.reigns)
  {
    match ev
    case OnVoteReply(m) => WinOwnLast(s, i, m);
    case Propose(command) =>
      assert NodeInv(s.n, s.hist, i, s.nodes[i]);
      ProposeOwnLast(s.n, s.hist, s.nodes[i], command);
    case _ => OtherEventsOwnLast(s, i, ev);
  }

  lemma {:induction false} AlwaysOwnLast(n: nat, steps: seq<Step>)
    ensures ReignsOwnLast(After(n, steps).hist.reigns)
    decreases |steps|
  {
    if |steps| > 0 {
      var s, step := After(n, steps[..|steps| - 1]), steps[|steps| - 1];
      AlwaysOwnLast(n, steps[..|steps| - 1]);
      Reachable(n, steps[..|steps| - 1]);
      if Enabled(s, step) && !step.Crash? && Run(s, step.i, step.ev).Done? {
        EventOwnLast(s, step.i, step.ev);
        hide Inv, ReignsOwnLast, Run, EventEnabled;
      }
    }
  }

  /** At every leader of every run, whatever the deliveries were, the scan with its early break
      finds exactly the largest majority-held index of the current term, or none. */
  lemma ScanIsRightAtLeaders(n: nat, steps: seq<Step>, i: nat, c: int)
    requires i < n && After(n, steps).nodes[i].status == Leader
    requires IsScanResult(After(n, steps).nodes[i], c)
    ensures IsCommitTarget(After(n, steps).nodes[i], c)
  {
    var s := After(n, steps);
    var x := s.nodes[i];
    Reachable(n, steps);
    AlwaysOwnLast(n, steps);
    LeaderReigns(s, i);
    assert NodeInv(n, s.hist, i, x);
    assert OwnLast(x.logs, x.currentTerm);
    hide Inv, NodeInv, ReignsOwnLast;
    OwnLastIsRight(x, c);
  }

  lemma OwnLastIsRight(x: Node, c: int)
    requires IsScanResult(x, c) && OwnLast(x.logs, x.currentTerm) && x.snapIndex == 0 && 0 <= x.commitIndex
    ensures IsCommitTarget(x, c)
  {
    forall N, M | x.commitIndex < M < N <= LastLogIndex(x) && LogTermAt(x, M) == x.currentTerm
      ensures LogTermAt(x, N) == x.currentTerm
    {
      assert x.logs[M - 1].term == x.currentTerm;
    }
    ScanIsRightExactly(x, c);
  }
}
