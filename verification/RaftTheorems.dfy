/** What the Raft nodes guarantee in every run: any number of nodes, any loss, delay, duplication
    and reordering of messages, crashes at any point. */
module RaftTheorems {
  import opened RaftTypes
  import opened Cluster
  import opened Invariants
  import opened EventsKeep
  import opened RunHistory

  // ---------------------------------------------------------------- elections (section 5.2)

  /** Election Safety: whoever leads a term now, and whoever leads it later in the run, is one
      and the same node. */
  lemma ElectionSafety(n: nat, steps: seq<Step>, p: nat, q: nat, i: nat, j: nat)
    requires p <= q <= |steps| && i < n && j < n
    requires At(n, steps, p).nodes[i].status == Leader && At(n, steps, q).nodes[j].status == Leader
    requires At(n, steps, p).nodes[i].currentTerm == At(n, steps, q).nodes[j].currentTerm
    ensures i == j
  {
    hide Inv, At;
    InvAt(n, steps, p);
    InvAt(n, steps, q);
    RunGrows(n, steps, p, q);
    LeaderReigns(At(n, steps, p), i);
    LeaderReigns(At(n, steps, q), j);
  }

  lemma LeaderReigns(s: Cluster, i: int)
    requires Inv(s) && 0 <= i < s.n && s.nodes[i].status == Leader
    ensures
      var x := s.nodes[i];
      && x.currentTerm in s.hist.reigns && s.hist.reigns[x.currentTerm].leader == i
      && s.hist.reigns[x.currentTerm].log == x.logs
  {
    assert NodeInv(s.n, s.hist, i, s.nodes[i]);
  }

  /** The same for every node that ever became leader, even one that died inside persist before
      anyone could see it lead. */
  lemma OneWinnerPerTerm(n: nat, steps: seq<Step>, a: Win, b: Win)
    requires a in After(n, steps).hist.wins && b in After(n, steps).hist.wins && a.term == b.term
    ensures a == b
  {
    Reachable(n, steps);
  }

  /** A node grants its vote to at most one candidate per term, crashes notwithstanding; a
      candidate's own vote counts. */
  lemma OneVotePerTerm(n: nat, steps: seq<Step>, a: Message, b: Message)
    requires a in After(n, steps).msgs && b in After(n, steps).msgs
    requires a.VoteReply? && a.granted
    ensures b.VoteReply? && b.granted && b.from == a.from && b.asked == a.asked ==> b.to == a.to
    ensures b.VoteRequest? && b.candidate == a.from ==> b.term != a.asked
  {
    Reachable(n, steps);
    var s := After(n, steps);
    assert MsgInv(s.n, s.hist.ballots, s.hist.reigns, a) && MsgInv(s.n, s.hist.ballots, s.hist.reigns, b);
  }

  /** No assertion of the code can fail: "leader twice in one term", "same index and term but
      another command", a matchIndex or commitIndex beyond the log, or an access past m_logs. */
  lemma NoAbort(n: nat, steps: seq<Step>, i: int, ev: Event)
    requires 0 <= i < n && EventEnabled(After(n, steps), i, ev)
    ensures Run(After(n, steps), i, ev).Done?
  {
    Reachable(n, steps);
    EventSound(After(n, steps), i, ev);
  }

  // ---------------------------------------------------------------- entries

  ghost predicate InLog(s: Cluster, e: Entry)
    requires Sized(s)
  {
    exists i :: 0 <= i < s.n && e in s.nodes[i].logs
  }

  ghost predicate OnSomeDisk(s: Cluster, e: Entry)
    requires Sized(s)
  {
    exists i :: 0 <= i < s.n && e in LoadedLog(s.disks[i].snapIndex, s.disks[i].logs)
  }

  ghost predicate InBuffer(s: Cluster, e: Entry)
    requires Sized(s)
  {
    exists i, p :: 0 <= i < s.n && 0 <= p < s.n && e in s.nodes[i].pending[p]
  }

  ghost predicate InFlight(s: Cluster, e: Entry) {
    exists m :: m in s.msgs && (m.AppendRequest? || m.AppendResponse?) && e in m.args.entries
  }

  /** The entry is in some log, on some disk, in some send buffer or in some message. */
  ghost predicate Appears(s: Cluster, e: Entry)
    requires Sized(s)
  {
    InLog(s, e) || OnSomeDisk(s, e) || InBuffer(s, e) || InFlight(s, e)
  }

  lemma LoggedKnown(s: Cluster, e: Entry)
    requires Inv(s) && (InLog(s, e) || OnSomeDisk(s, e))
    ensures Known(s.hist.reigns, e)
  {
    if InLog(s, e) {
      var i :| 0 <= i < s.n && e in s.nodes[i].logs;
      assert NodeInv(s.n, s.hist, i, s.nodes[i]);
    }
    if OnSomeDisk(s, e) {
      var i :| 0 <= i < s.n && e in LoadedLog(s.disks[i].snapIndex, s.disks[i].logs);
      assert NodeInv(s.n, s.hist, i, s.nodes[i]);
      LoadedIsSaved(s.nodes[i]);
    }
  }

  lemma SentKnown(s: Cluster, e: Entry)
    requires Inv(s) && (InBuffer(s, e) || InFlight(s, e))
    ensures Known(s.hist.reigns, e)
  {
    if InBuffer(s, e) {
      var i, p :| 0 <= i < s.n && 0 <= p < s.n && e in s.nodes[i].pending[p];
      assert NodeInv(s.n, s.hist, i, s.nodes[i]);
    }
    if InFlight(s, e) {
      var m :| m in s.msgs && (m.AppendRequest? || m.AppendResponse?) && e in m.args.entries;
      assert MsgInv(s.n, s.hist.ballots, s.hist.reigns, m);
      BatchKnown(s.n, s.hist, m.args);
    }
  }

  /** Entry uniqueness: wherever and whenever two entries appear in a run, equal index and term
      mean equal command. */
  lemma EntryUniqueness(n: nat, steps: seq<Step>, p: nat, q: nat, e: Entry, f: Entry)
    requires p <= q <= |steps| && Appears(At(n, steps, p), e) && Appears(At(n, steps, q), f)
    requires e.index == f.index && e.term == f.term
    ensures e == f
  {
    hide Inv, At, Appears;
    var s, s' := At(n, steps, p), At(n, steps, q);
    InvAt(n, steps, p);
    InvAt(n, steps, q);
    AppearsKnown(s, e);
    AppearsKnown(s', f);
    RunGrows(n, steps, p, q);
    assert ReignGrows(s.hist.reigns[e.term], s'.hist.reigns[e.term]);
  }

  lemma AppearsKnown(s: Cluster, e: Entry)
    requires Inv(s) && Appears(s, e)
    ensures Known(s.hist.reigns, e)
  {
    if InLog(s, e) || OnSomeDisk(s, e) {
      LoggedKnown(s, e);
    } else {
      SentKnown(s, e);
    }
  }

  /** Leader Append-Only: between two moments at which a node leads one term, its log only grew. */
  lemma LeaderAppendOnly(n: nat, steps: seq<Step>, p: nat, q: nat, i: nat)
    requires p <= q <= |steps| && i < n
    requires At(n, steps, p).nodes[i].status == Leader && At(n, steps, q).nodes[i].status == Leader
    requires At(n, steps, p).nodes[i].currentTerm == At(n, steps, q).nodes[i].currentTerm
    ensures At(n, steps, p).nodes[i].logs <= At(n, steps, q).nodes[i].logs
  {
    var s, s' := At(n, steps, p), At(n, steps, q);
    Reachable(n, steps[..p]);
    Reachable(n, steps[..q]);
    RunGrows(n, steps, p, q);
    LeaderReigns(s, i);
    LeaderReigns(s', i);
    assert ReignGrows(s.hist.reigns[s.nodes[i].currentTerm], s'.hist.reigns[s.nodes[i].currentTerm]);
  }

  // ---------------------------------------------------------------- persistence

  /** Whenever a node crashes between critical sections, it comes back with the term, the vote and
      the log it had; no snapshot ever exists, and log entry k carries index 1 + k. */
  lemma RestartRestores(n: nat, steps: seq<Step>, i: nat)
    requires i < n
    ensures
      var x := After(n, steps).nodes[i];
      var y := Boot(n, i, After(n, steps).disks[i]);
      && y.currentTerm == x.currentTerm && y.votedFor == x.votedFor && y.logs == x.logs
      && x.snapIndex == 0 && y.snapIndex == 0 && Indexed(0, x.logs)
      && y.status == Follower && y.commitIndex == 0 && y.lastApplied == 0 && y.applied == []
  {
    Reachable(n, steps);
    var s := After(n, steps);
    assert NodeInv(n, s.hist, i, s.nodes[i]);
    LoadedIsSaved(s.nodes[i]);
  }

  /** A durable log never gets shorter: nothing in the code truncates one. */
  lemma {:induction false} DurableLogNeverShorter(n: nat, steps: seq<Step>, p: nat, q: nat, i: nat)
    requires p <= q <= |steps| && i < n
    ensures |At(n, steps, p).disks[i].logs| <= |At(n, steps, q).disks[i].logs|
    decreases q - p
  {
    hide Inv, Next, At, Advances;
    OnDiskAt(n, steps, p, i);
    OnDiskAt(n, steps, q, i);
    if p < q {
      DurableLogNeverShorter(n, steps, p, q - 1, i);
      OnDiskAt(n, steps, q - 1, i);
      InvAt(n, steps, q - 1);
      AtNext(n, steps, q - 1);
      NextAdvances(At(n, steps, q - 1), steps[q - 1], i);
    }
  }

  lemma OnDiskAt(n: nat, steps: seq<Step>, p: nat, i: nat)
    requires p <= |steps| && i < n
    ensures |At(n, steps, p).disks[i].logs| == |At(n, steps, p).nodes[i].logs|
  {
    Reachable(n, steps[..p]);
  }

  // ---------------------------------------------------------------- apply

  /** The apply channel of a process carries exactly the indices 1, 2, 3, ..., never past the
      commit index, which never passes the end of the log. */
  lemma AppliesWithoutGaps(n: nat, steps: seq<Step>, i: nat)
    requires i < n
    ensures
      var x := After(n, steps).nodes[i];
      && 0 <= x.lastApplied <= x.commitIndex <= LastLogIndex(x)
      && |x.applied| == x.lastApplied
      && forall k :: 0 <= k < |x.applied| ==> x.applied[k].index == k + 1
  {
    Reachable(n, steps);
    assert NodeInv(n, After(n, steps).hist, i, After(n, steps).nodes[i]);
  }

  /** Steps p .. q do not crash node i. */
  predicate StaysUp(steps: seq<Step>, p: nat, q: nat, i: int)
    requires p <= q <= |steps|
  {
    forall k :: p <= k < q ==> steps[k].Act? || steps[k].i != i
  }

  /** Within the life of a process the commit index and what has been applied only grow. */
  lemma {:induction false} CountersNeverGoBack(n: nat, steps: seq<Step>, p: nat, q: nat, i: nat)
    requires p <= q <= |steps| && i < n && StaysUp(steps, p, q, i)
    ensures Advances(At(n, steps, p).nodes[i], At(n, steps, q).nodes[i])
    decreases q - p
  {
    if p < q {
      hide Inv, Next;
      CountersNeverGoBack(n, steps, p, q - 1, i);
      Reachable(n, steps[..q - 1]);
      AtNext(n, steps, q - 1);
      NextAdvances(At(n, steps, q - 1), steps[q - 1], i);
    }
  }

  /** From step p to step q the first m entries of node i's log stay as they are. */
  ghost predicate PrefixStays(n: nat, steps: seq<Step>, p: nat, q: nat, i: nat, m: nat)
    requires p <= q <= |steps| && i < n
  {
    && m <= |At(n, steps, p).nodes[i].logs|
    && forall r :: p <= r <= q ==>
         m <= |At(n, steps, r).nodes[i].logs|
         && At(n, steps, r).nodes[i].logs[..m] == At(n, steps, p).nodes[i].logs[..m]
  }

  /** What was applied is what the log says. */
  ghost predicate AppliedIsLogged(x: Node) {
    |x.applied| <= |x.logs| && forall k :: 0 <= k < |x.applied| ==> x.applied[k] == ApplyMsg(k + 1, x.logs[k].command)
  }

  /** Recovery: while the applied prefix of its log stays as it is, a node that restarts, however
      often, applies the same messages again, in every run. */
  lemma {:induction false} RestartReplays(n: nat, steps: seq<Step>, p: nat, q: nat, i: nat)
    requires p <= q <= |steps| && i < n && AppliedIsLogged(At(n, steps, p).nodes[i])
    requires PrefixStays(n, steps, p, q, i, |At(n, steps, p).nodes[i].applied|)
    ensures
      var a, b := At(n, steps, p).nodes[i].applied, At(n, steps, q).nodes[i].applied;
      a <= b || b <= a
    decreases q - p
  {
    hide At, AppliedIsLogged, PrefixStays;
    if p < q {
      PrefixStayed(n, steps, p, q, i, |At(n, steps, p).nodes[i].applied|);
      RestartReplays(n, steps, p, q - 1, i);
      ReplayStep(n, steps, q - 1, i, At(n, steps, p).nodes[i]);
    }
  }

  lemma ReplayStep(n: nat, steps: seq<Step>, q: nat, i: nat, x: Node)
    requires q < |steps| && i < n && AppliedIsLogged(x)
    requires
      var y := At(n, steps, q).nodes[i];
      && (x.applied <= y.applied || y.applied <= x.applied)
      && |x.applied| <= |y.logs| && y.logs[..|x.applied|] == x.logs[..|x.applied|]
    ensures
      var z := At(n, steps, q + 1).nodes[i];
      x.applied <= z.applied || z.applied <= x.applied
  {
    hide Inv, Next, At, Applies, AppliedIsLogged;
    InvAt(n, steps, q);
    AtNext(n, steps, q);
    NextApplies(At(n, steps, q), steps[q], i);
    SamePrefixApplies(x, At(n, steps, q).nodes[i], At(n, steps, q + 1).nodes[i]);
  }

  lemma PrefixStayed(n: nat, steps: seq<Step>, p: nat, q: nat, i: nat, m: nat)
    requires p < q <= |steps| && i < n && PrefixStays(n, steps, p, q, i, m)
    ensures PrefixStays(n, steps, p, q - 1, i, m)
    ensures
      var a, b := At(n, steps, p).nodes[i].logs, At(n, steps, q - 1).nodes[i].logs;
      m <= |a| && m <= |b| && b[..m] == a[..m]
  {
    hide At;
  }

  lemma SamePrefixApplies(x: Node, y: Node, z: Node)
    requires AppliedIsLogged(x) && Applies(y, z) && (x.applied <= y.applied || y.applied <= x.applied)
    requires |x.applied| <= |y.logs| && y.logs[..|x.applied|] == x.logs[..|x.applied|]
    ensures x.applied <= z.applied || z.applied <= x.applied
  {
    var m := |x.applied|;
    forall k | |y.applied| <= k < |z.applied| && k < m && z.applied != y.applied ensures z.applied[k] == x.applied[k] {
      assert y.logs[..m][k] == x.logs[..m][k];
    }
  }
}
