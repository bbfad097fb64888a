/** Replication events of conforming runs, and the invariant of every conforming run. */
module SafetyRuns {
  import opened Bytes
  import opened RaftTypes
  import opened RaftHandlers
  import opened Cluster
  import opened Majorities
  import opened Invariants
  import opened Receiver
  import opened EventsKeep
  import opened Acknowledgements
  import opened SafetyInv
  import opened SafetyGrowth
  import opened SafetyEvents

  // ---------------------------------------------------------------- Start

  lemma ProposeSafe(s: Cluster, i: int, command: Bytes, send: bool)
    requires Inv(s) && SafeInv(s) && 0 <= i < s.n
    ensures SafeInv(Complete(s, i, RunPropose(s.nodes[i], s.hist, command), send))
  {
    var x, h := s.nodes[i], s.hist;
    var e := RunPropose(x, h, command);
    assert NodeInv(s.n, h, i, x);
    if x.status != Leader {
      CoreSafe(s, i, e, send);
    } else {
      var entry := Entry(|x.logs| + 1, x.currentTerm, command);
      ReignExtends(s.n, h, x, entry);
      ProposeEffect(s, i, e, entry);
      CandidatesStay(s, i, e);
      CompleteSafe(s, i, e, send);
    }
  }

  /** The leader's reign and log grow by the same entry. */
  ghost predicate Proposed(h: History, x: Node, e: Effect, entry: Entry) {
    && x.currentTerm in h.reigns && h.reigns[x.currentTerm].log == x.logs
    && e.hist == h.(reigns := h.reigns[x.currentTerm := h.reigns[x.currentTerm].(log := x.logs + [entry])],
                    acks := h.acks + {Ack(x.me, x.currentTerm, |x.logs| + 1)})
    && entry.term == x.currentTerm && e.sent == {}
    && e.node == x.(logs := x.logs + [entry], pending := e.node.pending)
  }

  lemma ProposeEffect(s: Cluster, i: int, e: Effect, entry: Entry)
    requires Inv(s) && SafeInv(s) && 0 <= i < s.n && s.nodes[i].status == Leader
    requires Proposed(s.hist, s.nodes[i], e, entry)
    ensures SafeEffect(s, i, e)
    ensures StillRunning(s.hist.reigns, e.hist.reigns, s.nodes[i], e.node)
  {
    var x, h := s.nodes[i], s.hist;
    assert NodeInv(s.n, h, i, x);
    ProposeExtends(h, x, e, entry);
    ProposeTraces(s.n, h, x, e, entry);
    ProposeNodeSafe(s.n, h, x, e, entry);
    ProposeReignsKept(s, x, e, entry);
  }

  lemma ProposeExtends(h: History, x: Node, e: Effect, entry: Entry)
    requires Proposed(h, x, e, entry)
    ensures Extends(h.reigns, e.hist.reigns)
  {
  }

  lemma ProposeReignsKept(s: Cluster, x: Node, e: Effect, entry: Entry)
    requires Sized(s) && HistInv(s.n, s.hist) && BallotsOk(s) && ReignsKept(s.hist.acks, s.hist.reigns)
    requires 0 <= x.me < s.n && s.nodes[x.me] == x && Proposed(s.hist, x, e, entry)
    requires Extends(s.hist.reigns, e.hist.reigns)
    ensures ReignsKept(e.hist.acks, e.hist.reigns)
  {
    forall t | t in e.hist.reigns ensures ReignKept(e.hist.acks, e.hist.reigns, t) {
      ReignKeptExtends(s.n, s, x, e, t);
    }
  }

  lemma ProposeTraces(n: nat, h: History, x: Node, e: Effect, entry: Entry)
    requires HistInv(n, h) && ReignsTrace(h.reigns) && Proposed(h, x, e, entry)
    requires Extends(h.reigns, e.hist.reigns)
    ensures ReignsTrace(e.hist.reigns) && Traces(e.hist.reigns, e.node.logs)
  {
    var g, g', t := h.reigns, e.hist.reigns, x.currentTerm;
    assert ReignOk(n, h.wins, h.ballots, g, t) && Traces(g, x.logs) && Nondecreasing(x.logs);
    assert forall k :: 0 <= k < |x.logs| ==> x.logs[k].term <= t;
    hide ReignOk, HistInv;
    OwnEntryTraces(g, g', x.logs, entry);
    forall u | u in g' ensures Traces(g', g'[u].log) && Nondecreasing(g'[u].log) {
      if u != t {
        hide Nondecreasing;
        TracesExtend(g, g', g[u].log);
      }
    }
  }

  lemma OwnEntryTraces(g: Reigns, g': Reigns, log: seq<Entry>, entry: Entry)
    requires Extends(g, g') && Traces(g, log)
    requires entry.term in g' && g'[entry.term].log == log + [entry]
    ensures Traces(g', log + [entry])
  {
    TracesExtend(g, g', log);
    hide Extends;
    var r := log + [entry];
    forall k | 0 <= k < |r| ensures TraceAt(g', r, k) {
      if k < |log| {
        assert TraceAt(g', log, k);
        assert r[..k + 1] == log[..k + 1];
      }
    }
  }

  lemma ProposeNodeSafe(n: nat, h: History, x: Node, e: Effect, entry: Entry)
    requires HistInv(n, h) && NodeSafe(n, h.acks, h.reigns, x) && Proposed(h, x, e, entry)
    requires Extends(h.reigns, e.hist.reigns) && Traces(e.hist.reigns, e.node.logs)
    ensures NodeSafe(n, e.hist.acks, e.hist.reigns, e.node)
  {
    var g, g' := h.reigns, e.hist.reigns;
    CoveredExtend(n, h.acks, e.hist.acks, g, g', x.logs, e.node.logs, x.commitIndex, x.currentTerm, x.currentTerm);
    forall k | k in e.hist.acks && k.node == x.me
      ensures k.term <= x.currentTerm && Kept(g', k, e.node.logs, x.currentTerm)
    {
      if k in h.acks {
        assert AckOk(n, g, k);
        KeptExtend(n, g, g', k, x.logs, e.node.logs, x.currentTerm);
      }
    }
  }

  // ---------------------------------------------------------------- leader messages

  lemma LeaderMessageCovered(n: nat, h: History, x: Node, p: int, a: AppendArgs)
    requires NodeSafe(n, h.acks, h.reigns, x) && LeaderOk(n, h.reigns, x) && x.status == Leader
    requires a.term == x.currentTerm && a.leaderCommit == x.commitIndex
    ensures ArgsCovered(n, h.acks, h.reigns, AppendRequest(p, a))
  {
  }

  lemma SendBatchSafe(s: Cluster, i: int, p: int, k: int, send: bool)
    requires Inv(s) && SafeInv(s) && 0 <= i < s.n && s.nodes[i].status == Leader
    requires 0 <= p < s.n && 1 <= k <= |s.nodes[i].pending[p]|
    ensures SafeInv(Complete(s, i, RunSendBatch(s.nodes[i], s.hist, p, k), send))
  {
    var x := s.nodes[i];
    assert NodeInv(s.n, s.hist, i, x);
    var e := RunSendBatch(x, s.hist, p, k);
    LeaderMessageCovered(s.n, s.hist, x, p, BatchArgs(x, x.pending[p][..k]));
    assert SameCore(x, e.node) && Fits(s.n, e.node);
    CoreSafe(s, i, e, send);
  }

  lemma HeartbeatSafe(s: Cluster, i: int, send: bool)
    requires Inv(s) && SafeInv(s) && 0 <= i < s.n && EventEnabled(s, i, Heartbeat)
    ensures SafeInv(Complete(s, i, RunHeartbeat(s.n, s.nodes[i], s.hist), send))
  {
    var x := s.nodes[i];
    var e := RunHeartbeat(s.n, x, s.hist);
    assert NodeInv(s.n, s.hist, i, x);
    forall m | m in e.sent ensures ArgsCovered(s.n, s.hist.acks, s.hist.reigns, m) && !m.VoteRequest? {
      var p :| 0 <= p < s.n && p != x.me && m == AppendRequest(p, HeartbeatArgs(ClampNext(x), p));
      LeaderMessageCovered(s.n, s.hist, x, p, m.args);
    }
    hide Inv, SafeInv, ArgsCovered;
    CoreSafe(s, i, e, send);
  }

  // ---------------------------------------------------------------- AppendEntries

  /** A batch that matches at prev agrees with the receiver up to prev. */
  lemma MatchAgrees(n: nat, g: Reigns, x: Node, a: AppendArgs)
    requires a.term in g && Traces(g, g[a.term].log) && Traces(g, x.logs) && ArgsOk(n, g, a)
    requires x.snapIndex == 0 && x.snapTerm == 0 && MatchLog(x, a.prevIndex, a.prevTerm)
    ensures a.prevIndex <= |x.logs|
    ensures x.logs[..a.prevIndex] == g[a.term].log[..a.prevIndex]
  {
    if a.prevIndex > 0 {
      TracedAgree(g, x.logs, g[a.term].log, a.prevIndex);
    }
  }

  /** The receiver's new log r: it has the sender's log l up to the end p of the batch, and is
      that prefix, or its own old log. */
  ghost predicate CaughtUp(l: seq<Entry>, p: int, log: seq<Entry>, r: seq<Entry>) {
    && 0 <= p <= |l| && p <= |r| && r[..p] == l[..p]
    && (|log| <= p ==> r == l[..p])
    && (|log| > p ==> r == log)
  }

  lemma Shorter(a: seq<Entry>, b: seq<Entry>, k: int, c: int)
    requires 0 <= c <= k <= |a| && k <= |b| && a[..k] == b[..k]
    ensures a[..c] == b[..c]
  {
    assert a[..c] == a[..k][..c];
    assert b[..c] == b[..k][..c];
  }

  /** A merged batch stands where the sender's log has it. */
  lemma MergeAgrees(l: seq<Entry>, log: seq<Entry>, prev: int, entries: seq<Entry>, r: seq<Entry>)
    requires 0 <= prev <= |log| && prev + |entries| <= |l|
    requires log[..prev] == l[..prev] && entries == l[prev..prev + |entries|]
    requires Merged(log, prev, entries, r)
    ensures prev + |entries| <= |r| && r[..prev + |entries|] == l[..prev + |entries|]
  {
    var p := prev + |entries|;
    forall k | 0 <= k < p ensures r[k] == l[k] {
      if k < prev {
        assert log[..prev][k] == l[..prev][k];
      } else {
        assert entries[k - prev] == l[k];
      }
    }
  }

  /** Without a conflict the receiver's entries are the batch's. */
  lemma NoConflictSame(g: Reigns, x: Node, a: AppendArgs, r: seq<Entry>)
    requires KnownLog(g, x.logs) && KnownLog(g, a.entries)
    requires Indexed(0, x.logs) && Contiguous(a.prevIndex, a.entries) && !Conflict(x.logs, a.prevIndex, a.entries)
    requires 0 <= a.prevIndex && a.prevIndex + |a.entries| <= |x.logs|
    requires Merged(x.logs, a.prevIndex, a.entries, r)
    ensures r == x.logs
  {
    forall k | 0 <= k < |r| ensures r[k] == x.logs[k] {
      if a.prevIndex <= k < a.prevIndex + |a.entries| {
        var j := k - a.prevIndex;
        assert r[k] == a.entries[j];
        SameEntry(g, x.logs, k, a, j);
      }
    }
  }

  lemma SameEntry(g: Reigns, log: seq<Entry>, k: int, a: AppendArgs, j: int)
    requires KnownLog(g, log) && KnownLog(g, a.entries) && !Conflict(log, a.prevIndex, a.entries)
    requires Indexed(0, log) && Contiguous(a.prevIndex, a.entries)
    requires 0 <= j < |a.entries| && 0 <= k < |log| && k == a.prevIndex + j
    ensures log[k] == a.entries[j]
  {
    assert Known(g, log[k]) && Known(g, a.entries[j]);
    assert log[a.prevIndex + j].term == a.entries[j].term;
  }

  /** C1 is what lets the receiver catch up with the sender. */
  lemma ConformingMerge(n: nat, g: Reigns, x: Node, a: AppendArgs, r: seq<Entry>)
    requires a.term in g && Traces(g, g[a.term].log) && Traces(g, x.logs) && ArgsOk(n, g, a)
    requires KnownLog(g, x.logs) && Indexed(0, x.logs)
    requires KnownLog(g, a.entries) && Contiguous(a.prevIndex, a.entries)
    requires x.snapIndex == 0 && x.snapTerm == 0 && MatchLog(x, a.prevIndex, a.prevTerm) && C1(x, a)
    requires 0 <= a.prevIndex <= |x.logs| && Merged(x.logs, a.prevIndex, a.entries, r)
    ensures CaughtUp(g[a.term].log, a.prevIndex + |a.entries|, x.logs, r)
  {
    var l, p := g[a.term].log, a.prevIndex + |a.entries|;
    MatchAgrees(n, g, x, a);
    MergeAgrees(l, x.logs, a.prevIndex, a.entries, r);
    if |x.logs| > p {
      NoConflictSame(g, x, a, r);
    }
  }

  /** What a node keeps through a conforming merge. */
  lemma MergeKeeps(g: Reigns, k: Ack, log: seq<Entry>, term: int, later: int, p: int, r: seq<Entry>)
    requires k.term in g && 0 <= k.index <= |g[k.term].log| && k.term <= term <= later && later in g
    requires Kept(g, k, log, term) && CaughtUp(g[later].log, p, log, r)
    ensures Kept(g, k, r, later)
  {
    var l := g[later].log;
    if Holds(g, k, log) && |log| <= p {
      if k.term == later || Holds(g, k, l) {
        Shorter(r, l, p, k.index);
        assert Holds(g, k, r);
      }
    }
  }

  /** Committed prefixes agree with every later leader. */
  lemma CommittedInLeader(n: nat, h: History, log: seq<Entry>, c: int, bound: int, term: int)
    requires LeadersComplete(n, h.acks, h.reigns) && term in h.reigns && bound <= term && 0 < c
    requires Covered(n, h.acks, h.reigns, log, c, bound)
    ensures c <= |log| && c <= |h.reigns[term].log| && log[..c] == h.reigns[term].log[..c]
  {
    var t, k :| Chosen(n, h.acks, t, k) && CoveredBy(h.reigns, log, c, bound, t, k);
    if t < term {
      HoldsShorter(h.reigns, t, k, h.reigns[term].log, c);
    }
  }

  lemma HoldsShorter(g: Reigns, t: int, k: int, log: seq<Entry>, c: int)
    requires Holds(g, Ack(0, t, k), log) && 0 <= c <= k
    ensures log[..c] == g[t].log[..c]
  {
    Shorter(log, g[t].log, k, c);
  }

  /** What has been committed stays a prefix of the log. */
  lemma MergeCommitted(n: nat, h: History, x: Node, term: int, p: int, r: seq<Entry>)
    requires LeadersComplete(n, h.acks, h.reigns) && term in h.reigns
    requires CommitCovered(n, h.acks, h.reigns, x) && x.currentTerm <= term && 0 < x.commitIndex
    requires CaughtUp(h.reigns[term].log, p, x.logs, r)
    ensures x.commitIndex <= |r| && r[..x.commitIndex] == x.logs[..x.commitIndex]
  {
    CommittedInLeader(n, h, x.logs, x.commitIndex, x.currentTerm, term);
    if |x.logs| <= p {
      Shorter(r, h.reigns[term].log, p, x.commitIndex);
    }
  }

  /** The new commit index c stays within the end p of the batch, or within what the log r shares
      with the leader's log l. */
  ghost predicate WithinLeader(l: seq<Entry>, before: int, p: int, r: seq<Entry>, c: int) {
    c <= Max(before, p) || (0 <= c <= |l| && c <= |r| && r[..c] == l[..c])
  }

  /** A commit index taken from the leader, within what the batch confirmed, is covered. */
  lemma NewCommitCovered(n: nat, acks: set<Ack>, g: Reigns, a: AppendArgs, log: seq<Entry>, r: seq<Entry>, c: int)
    requires a.term in g && Covered(n, acks, g, g[a.term].log, a.leaderCommit, a.term)
    requires CaughtUp(g[a.term].log, a.prevIndex + |a.entries|, log, r)
    requires 0 < c <= a.leaderCommit && c <= |r|
    requires WithinLeader(g[a.term].log, 0, a.prevIndex + |a.entries|, r, c)
    ensures Covered(n, acks, g, r, c, a.term)
  {
    var l, p := g[a.term].log, a.prevIndex + |a.entries|;
    var t, k :| Chosen(n, acks, t, k) && CoveredBy(g, l, a.leaderCommit, a.term, t, k);
    if c <= p {
      Shorter(r, l, p, c);
    }
    Shorter(l, g[t].log, a.leaderCommit, c);
    assert CoveredBy(g, r, c, a.term, t, k);
  }

  /** The commit index that a conforming delivery leaves behind is covered. */
  lemma MergeCovered(n: nat, h: History, x: Node, a: AppendArgs, r: seq<Entry>, c: int)
    requires LeadersComplete(n, h.acks, h.reigns) && a.term in h.reigns
    requires CommitCovered(n, h.acks, h.reigns, x) && x.currentTerm <= a.term && 0 <= x.commitIndex
    requires Covered(n, h.acks, h.reigns, h.reigns[a.term].log, a.leaderCommit, a.term)
    requires CaughtUp(h.reigns[a.term].log, a.prevIndex + |a.entries|, x.logs, r)
    requires c == if a.leaderCommit > x.commitIndex then Min(a.leaderCommit, |r|) else x.commitIndex
    requires c <= |r| && WithinLeader(h.reigns[a.term].log, x.commitIndex, a.prevIndex + |a.entries|, r, c)
    ensures Covered(n, h.acks, h.reigns, r, c, a.term)
  {
    if x.commitIndex < c {
      NewCommitCovered(n, h.acks, h.reigns, a, x.logs, r, c);
    } else if 0 < x.commitIndex {
      CommitStays(n, h, x, a.term, a.prevIndex + |a.entries|, r, c);
    }
  }

  lemma CommitStays(n: nat, h: History, x: Node, term: int, p: int, r: seq<Entry>, c: int)
    requires LeadersComplete(n, h.acks, h.reigns) && term in h.reigns
    requires CommitCovered(n, h.acks, h.reigns, x) && x.currentTerm <= term && 0 < x.commitIndex
    requires CaughtUp(h.reigns[term].log, p, x.logs, r)
    requires c <= x.commitIndex && (c == x.commitIndex || c == |r|)
    ensures Covered(n, h.acks, h.reigns, r, c, term)
  {
    MergeCommitted(n, h, x, term, p, r);
    var t, k :| Chosen(n, h.acks, t, k) && CoveredBy(h.reigns, x.logs, x.commitIndex, x.currentTerm, t, k);
    if 0 < c {
      assert CoveredBy(h.reigns, r, c, term, t, k);
    }
  }

  /** The receiver after a conforming delivery that matched. */
  lemma MergedNodeSafe(n: nat, h: History, x: Node, a: AppendArgs, z: Node)
    requires LeadersComplete(n, h.acks, h.reigns) && ReignsTrace(h.reigns)
    requires forall k :: k in h.acks ==> AckOk(n, h.reigns, k)
    requires NodeSafe(n, h.acks, h.reigns, x) && x.currentTerm <= a.term && 0 <= x.commitIndex
    requires a.term in h.reigns
    requires Covered(n, h.acks, h.reigns, h.reigns[a.term].log, a.leaderCommit, a.term)
    requires CaughtUp(h.reigns[a.term].log, a.prevIndex + |a.entries|, x.logs, z.logs)
    requires z.me == x.me && z.currentTerm == a.term && z.applied == x.applied
    requires z.commitIndex == if a.leaderCommit > x.commitIndex then Min(a.leaderCommit, |z.logs|) else x.commitIndex
    requires x.commitIndex <= z.commitIndex <= |z.logs|
    requires WithinLeader(h.reigns[a.term].log, x.commitIndex, a.prevIndex + |a.entries|, z.logs, z.commitIndex)
    ensures NodeSafe(n, h.acks, h.reigns, z)
  {
    var g, l, p, r := h.reigns, h.reigns[a.term].log, a.prevIndex + |a.entries|, z.logs;
    assert Traces(g, l);
    MergeTraces(g, x.logs, l, p, r);
    forall k | k in h.acks && k.node == z.me
      ensures k.term <= z.currentTerm && Kept(g, k, r, a.term)
    {
      assert AckOk(n, g, k);
      MergeKeeps(g, k, x.logs, x.currentTerm, a.term, p, r);
    }
    MergeCovered(n, h, x, a, r, z.commitIndex);
    MergedApplied(n, h, x, a.term, p, z);
  }

  lemma MergedApplied(n: nat, h: History, x: Node, term: int, p: int, z: Node)
    requires LeadersComplete(n, h.acks, h.reigns) && term in h.reigns
    requires CommitCovered(n, h.acks, h.reigns, x) && x.currentTerm <= term && 0 <= x.commitIndex
    requires CaughtUp(h.reigns[term].log, p, x.logs, z.logs) && z.applied == x.applied
    ensures |z.applied| <= |z.logs|
    ensures forall j :: 0 <= j < |z.applied| ==> z.applied[j] == ApplyMsg(j + 1, z.logs[j].command)
  {
    if 0 < x.commitIndex {
      MergeCommitted(n, h, x, term, p, z.logs);
      assert forall j :: 0 <= j < x.commitIndex ==> z.logs[..x.commitIndex][j] == x.logs[..x.commitIndex][j];
    }
  }

  lemma MergeTraces(g: Reigns, log: seq<Entry>, l: seq<Entry>, p: int, r: seq<Entry>)
    requires Traces(g, log) && Traces(g, l) && 0 <= p <= |l| && (r == log || r == l[..p])
    ensures Traces(g, r)
  {
    if r == l[..p] {
      forall k | 0 <= k < |r| ensures TraceAt(g, r, k) {
        assert TraceAt(g, l, k);
        assert r[..k + 1] == l[..k + 1];
      }
    }
  }

  ghost predicate Harmless(g: Reigns, x: Node, a: AppendArgs) {
    Matches(x, a) ==> C1(x, a) && CommitsShared(g, x, a)
  }

  /** What the invariants say of a message with a batch. */
  ghost predicate Sent(s: Cluster, i: int, a: AppendArgs)
    requires Sized(s)
  {
    && ArgsOk(s.n, s.hist.reigns, a) && a.leaderId != i
    && Covered(s.n, s.hist.acks, s.hist.reigns, s.hist.reigns[a.term].log, a.leaderCommit, a.term)
  }

  lemma AppendSafe(s: Cluster, i: int, m: Message, e: Effect, send: bool)
    requires Inv(s) && SafeInv(s) && 0 <= i < s.n && EventEnabled(s, i, OnAppend(m))
    requires Harmless(s.hist.reigns, s.nodes[i], m.args)
    requires RunAppend(s.nodes[i], s.hist, m.args) == Done(e) && Fits(s.n, e.node)
    ensures SafeInv(Complete(s, i, e, send))
  {
    assert MsgInv(s.n, s.hist.ballots, s.hist.reigns, m) && ArgsCovered(s.n, s.hist.acks, s.hist.reigns, m);
    BatchSafe(s, i, m.args, e, send);
  }

  /** A conforming AppendEntries: at most the receiver's own log, commit index and acknowledgement
      change. */
  lemma BatchSafe(s: Cluster, i: int, a: AppendArgs, e: Effect, send: bool)
    requires Inv(s) && SafeInv(s) && 0 <= i < s.n && Sent(s, i, a) && Harmless(s.hist.reigns, s.nodes[i], a)
    requires RunAppend(s.nodes[i], s.hist, a) == Done(e) && Fits(s.n, e.node)
    ensures SafeInv(Complete(s, i, e, send))
  {
    var x, h := s.nodes[i], s.hist;
    assert NodeInv(s.n, h, i, x) && NodeSafe(s.n, h.acks, h.reigns, x);
    if a.term < x.currentTerm || a.prevIndex > |x.logs| || !MatchLog(x, a.prevIndex, a.prevTerm) {
      AppendCore(s.n, h, x, a);
      CoreSafe(s, i, e, send);
    } else {
      BatchKnown(s.n, h, a);
      AppendCaught(s.n, h, x, a);
      CaughtSafe(s, i, a, e, send);
    }
  }

  lemma AppendCore(n: nat, h: History, x: Node, a: AppendArgs)
    requires NodeInv(n, h, x.me, x) && HistInv(n, h) && 0 <= x.me < n
    requires ArgsOk(n, h.reigns, a) && a.leaderId != x.me
    requires a.term < x.currentTerm || a.prevIndex > |x.logs| || !MatchLog(x, a.prevIndex, a.prevTerm)
    ensures RunAppend(x, h, a).Done?
    ensures
      var e := RunAppend(x, h, a).value;
      SameCore(x, e.node) && e.hist == h && forall m :: m in e.sent ==> m.AppendResponse?
  {
    if a.term >= x.currentTerm {
      AppendRefused(n, h, x, a);
    }
  }

  /** The effect of a batch that matched. */
  ghost predicate Caught(h: History, x: Node, a: AppendArgs, e: Effect) {
    && a.term in h.reigns
    && var z, p := e.node, a.prevIndex + |a.entries|;
       && z == x.(currentTerm := a.term, votedFor := z.votedFor, status := Follower, logs := z.logs,
                  commitIndex := z.commitIndex)
       && x.currentTerm <= a.term
       && CaughtUp(h.reigns[a.term].log, p, x.logs, z.logs)
       && z.commitIndex == (if a.leaderCommit > x.commitIndex then Min(a.leaderCommit, |z.logs|) else x.commitIndex)
       && x.commitIndex <= z.commitIndex <= |z.logs|
       && WithinLeader(h.reigns[a.term].log, x.commitIndex, p, z.logs, z.commitIndex)
       && e.hist == (if |a.entries| > 0 then h.(acks := h.acks + {Ack(x.me, a.term, p)}) else h)
       && forall m :: m in e.sent ==> m.AppendResponse?
  }

  lemma AppendCaught(n: nat, h: History, x: Node, a: AppendArgs)
    requires ShapeOk(n, x.me, x) && KnownLog(h.reigns, x.logs) && Traces(h.reigns, x.logs)
    requires ArgsOk(n, h.reigns, a) && Traces(h.reigns, h.reigns[a.term].log)
    requires KnownLog(h.reigns, a.entries) && Contiguous(a.prevIndex, a.entries)
    requires a.term >= x.currentTerm && a.prevIndex <= |x.logs|
    requires MatchLog(x, a.prevIndex, a.prevTerm) && C1(x, a) && CommitsShared(h.reigns, x, a)
    ensures RunAppend(x, h, a).Done? && Caught(h, x, a, RunAppend(x, h, a).value)
  {
    KnownNoClash(h.reigns, x.logs, a.prevIndex, a.entries);
    MatchEffect(n, h, x, a);
    ConformingMerge(n, h.reigns, x, a, RunAppend(x, h, a).value.node.logs);
  }

  lemma CaughtSafe(s: Cluster, i: int, a: AppendArgs, e: Effect, send: bool)
    requires Inv(s) && SafeInv(s) && 0 <= i < s.n && s.nodes[i].me == i
    requires Caught(s.hist, s.nodes[i], a, e) && 0 <= a.prevIndex && Fits(s.n, e.node)
    requires Covered(s.n, s.hist.acks, s.hist.reigns, s.hist.reigns[a.term].log, a.leaderCommit, a.term)
    ensures SafeInv(Complete(s, i, e, send))
  {
    assert NodeInv(s.n, s.hist, i, s.nodes[i]);
    CaughtEffect(s, i, a, e);
    CaughtRunning(s.n, s.hist, s.nodes[i], a, e);
    CandidatesStay(s, i, e);
    CompleteSafe(s, i, e, send);
  }

  /** The receiver is not running for the batch's term: that term has a leader. */
  lemma CaughtRunning(n: nat, h: History, x: Node, a: AppendArgs, e: Effect)
    requires ElectionOk(n, h.ballots, h.reigns, x) && Caught(h, x, a, e)
    ensures StillRunning(h.reigns, e.hist.reigns, x, e.node)
  {
  }

  lemma CaughtEffect(s: Cluster, i: int, a: AppendArgs, e: Effect)
    requires Inv(s) && SafeInv(s) && 0 <= i < s.n && s.nodes[i].me == i
    requires Caught(s.hist, s.nodes[i], a, e) && 0 <= a.prevIndex
    requires Covered(s.n, s.hist.acks, s.hist.reigns, s.hist.reigns[a.term].log, a.leaderCommit, a.term)
    ensures SafeEffect(s, i, e)
  {
    var x, h := s.nodes[i], s.hist;
    assert NodeInv(s.n, h, i, x) && NodeSafe(s.n, h.acks, h.reigns, x);
    ExtendsRefl(h.reigns);
    LeaderCompleteness(s.n, h);
    MergedNodeSafe(s.n, h, x, a, e.node);
    CaughtAcks(s.n, h, x, a, e);
    CaughtReigns(s, x, a, e);
  }

  /** The new acknowledgement is kept: the log holds the whole batch. */
  lemma CaughtAcks(n: nat, h: History, x: Node, a: AppendArgs, e: Effect)
    requires Caught(h, x, a, e) && NodeSafe(n, h.acks, h.reigns, e.node) && 0 <= a.prevIndex
    ensures NodeSafe(n, e.hist.acks, e.hist.reigns, e.node)
  {
    var z, g := e.node, h.reigns;
    ExtendsRefl(g);
    CoveredExtend(n, h.acks, e.hist.acks, g, g, z.logs, z.logs, z.commitIndex, z.currentTerm, z.currentTerm);
    forall k | k in e.hist.acks && k.node == z.me
      ensures k.term <= z.currentTerm && Kept(g, k, z.logs, z.currentTerm)
    {
      if k !in h.acks {
        assert Holds(g, k, z.logs);
      }
    }
  }

  lemma CaughtReigns(s: Cluster, x: Node, a: AppendArgs, e: Effect)
    requires Sized(s) && HistInv(s.n, s.hist) && BallotsOk(s) && ReignsKept(s.hist.acks, s.hist.reigns)
    requires 0 <= x.me < s.n && s.nodes[x.me] == x && Caught(s.hist, x, a, e)
    ensures ReignsKept(e.hist.acks, e.hist.reigns)
  {
    ExtendsRefl(s.hist.reigns);
    forall t | t in e.hist.reigns ensures ReignKept(e.hist.acks, e.hist.reigns, t) {
      ReignKeptExtends(s.n, s, x, e, t);
    }
  }

  /** The receiver dies once the batch is on its disk: what counts is the log, as if the batch had
      come without a commit index. */
  lemma BatchRebootSafe(s: Cluster, i: int, m: Message, e: Effect)
    requires Inv(s) && SafeInv(s) && 0 <= i < s.n && EventEnabled(s, i, OnAppend(m))
    requires Matches(s.nodes[i], m.args) ==> C1(s.nodes[i], m.args)
    requires RunAppend(s.nodes[i], s.hist, m.args) == Done(e) && Fits(s.n, e.node)
    ensures SafeInv(Reboot(Complete(s, i, e, false), i))
  {
    var x, h, a := s.nodes[i], s.hist, m.args.(leaderCommit := 0);
    hide Inv, SafeInv, RunAppend, Sent, Harmless;
    BatchFacts(s, i, m);
    SilentBatch(s, i, a);
    SilentCommit(x, h, m.args);
    var e' := RunAppend(x, h, a).value;
    BatchSafe(s, i, a, e', false);
    CompleteKeeps(s, i, e', false);
    RebootSafe(Complete(s, i, e', false), i);
    SameReboot(s, i, e, e');
  }

  lemma BatchFacts(s: Cluster, i: int, m: Message)
    requires Inv(s) && 0 <= i < s.n && m in s.msgs && m.AppendRequest? && m.to == i
    ensures NodeInv(s.n, s.hist, i, s.nodes[i]) && HistInv(s.n, s.hist) && s.nodes[i].me == i
    ensures ArgsOk(s.n, s.hist.reigns, m.args.(leaderCommit := 0)) && m.args.leaderId != i
    ensures 0 <= s.nodes[i].commitIndex
  {
    assert MsgInv(s.n, s.hist.ballots, s.hist.reigns, m);
  }

  lemma SilentBatch(s: Cluster, i: int, a: AppendArgs)
    requires Sized(s) && 0 <= i < s.n && NodeInv(s.n, s.hist, i, s.nodes[i]) && HistInv(s.n, s.hist)
    requires ArgsOk(s.n, s.hist.reigns, a) && a.leaderId != i && s.nodes[i].me == i && 0 <= s.nodes[i].commitIndex
    requires a.leaderCommit == 0 && (Matches(s.nodes[i], a) ==> C1(s.nodes[i], a))
    ensures Sent(s, i, a) && Harmless(s.hist.reigns, s.nodes[i], a)
    ensures RunAppend(s.nodes[i], s.hist, a).Done?
    ensures
      var e := RunAppend(s.nodes[i], s.hist, a).value;
      Sound(s.n, s.hist, s.nodes[i], e) && Fits(s.n, e.node)
  {
    hide RunAppend, NodeInv, HistInv, Matches, C1;
    NoCommitIsShared(s.hist.reigns, s.nodes[i], a);
    AppendSound(s.n, s.hist, s.nodes[i], a);
    SoundFits(s.n, s.hist, s.nodes[i], RunAppend(s.nodes[i], s.hist, a).value);
  }

  lemma SoundFits(n: nat, h: History, x: Node, e: Effect)
    requires Sound(n, h, x, e)
    ensures Fits(n, e.node)
  {
  }

  lemma NoCommitIsShared(g: Reigns, x: Node, a: AppendArgs)
    requires a.leaderCommit == 0 && 0 <= x.commitIndex && (Matches(x, a) ==> C1(x, a))
    ensures Harmless(g, x, a)
  {
  }

  /** What reaches the disk does not depend on the leader's commit index. */
  lemma SilentCommit(x: Node, h: History, a: AppendArgs)
    requires RunAppend(x, h, a).Done? && RunAppend(x, h, a.(leaderCommit := 0)).Done?
    ensures
      var e, e' := RunAppend(x, h, a).value, RunAppend(x, h, a.(leaderCommit := 0)).value;
      && e.hist == e'.hist && e.persisted == e'.persisted && PersistData(e.node) == PersistData(e'.node)
      && (Fits(x.peers, e.node) <==> Fits(x.peers, e'.node))
  {
    hide Overwrite, MatchLog, BackoffFrom;
  }

  lemma SameReboot(s: Cluster, i: int, e: Effect, e': Effect)
    requires Sized(s) && 0 <= i < s.n && Fits(s.n, e.node) && Fits(s.n, e'.node)
    requires e.hist == e'.hist && e.persisted == e'.persisted && PersistData(e.node) == PersistData(e'.node)
    ensures Reboot(Complete(s, i, e, false), i) == Reboot(Complete(s, i, e', false), i)
  {
    var z := Boot(s.n, i, Complete(s, i, e, false).disks[i]);
    assert s.nodes[i := e.node][i := z] == s.nodes[i := e'.node][i := z];
  }

  // ---------------------------------------------------------------- commit and apply

  /** A leader commits an entry of its own term that it and the replying peer hold: with the
      per-call counter that is a majority of at most three nodes. */
  lemma CommitChosen(n: nat, h: History, m: Message)
    requires OwnAcked(h.acks, h.reigns) && ResponseAcked(h.acks, m) && MsgInv(n, h.ballots, h.reigns, m)
    requires m.AppendResponse? && m.reply.success && |m.args.entries| > 0 && 2 >= Quorum(n)
    ensures
      var a := m.args;
      && a.term in h.reigns && Chosen(n, h.acks, a.term, a.prevIndex + |a.entries|)
      && 0 <= a.prevIndex && a.prevIndex + |a.entries| <= |h.reigns[a.term].log|
  {
    var a := m.args;
    var p := a.prevIndex + |a.entries|;
    var last := |a.entries| - 1;
    assert a.entries[last] == h.reigns[a.term].log[a.prevIndex + last];
    assert Ack(a.leaderId, a.term, p) in h.acks && Ack(m.from, a.term, p) in h.acks;
    TwoAckers(h.acks, a.term, p, a.leaderId, m.from);
  }

  lemma TwoAckers(acks: set<Ack>, term: int, p: int, i: int, j: int)
    requires Ack(i, term, p) in acks && Ack(j, term, p) in acks && i != j
    ensures |Ackers(acks, term, p)| >= 2
  {
    var both := {i, j};
    assert both <= Ackers(acks, term, p);
    SubsetSize(both, Ackers(acks, term, p));
  }

  /** What the invariants say of a node and a message that reaches it. */
  lemma Facts(s: Cluster, i: int, m: Message)
    requires Inv(s) && AckInv(s) && 0 <= i < s.n && m in s.msgs
    ensures NodeInv(s.n, s.hist, i, s.nodes[i]) && MsgInv(s.n, s.hist.ballots, s.hist.reigns, m)
    ensures OwnAcked(s.hist.acks, s.hist.reigns) && ResponseAcked(s.hist.acks, m)
  {
  }

  lemma AppendReplySafe(s: Cluster, i: int, m: Message, count: int, e: Effect, send: bool)
    requires Sized(s) && Inv(s) && AckInv(s) && SafeInv(s) && 0 <= i < s.n
    requires m in s.msgs && m.AppendResponse? && 0 <= m.from < s.n && (|m.args.entries| > 0 ==> count == 1)
    requires RunAppendReply(s.nodes[i], s.hist, m, count) == Done(e) && Fits(s.n, e.node)
    ensures SafeInv(Complete(s, i, e, send))
  {
    hide Inv, AckInv, SafeInv;
    Facts(s, i, m);
    ReplyOutcome(s.n, s.hist, s.nodes[i], m, count, e);
    ReplySafe(s, i, e, m.args.prevIndex + |m.args.entries|, send);
  }

  lemma ReplyOutcome(n: nat, h: History, x: Node, m: Message, count: int, e: Effect)
    requires ShapeOk(n, x.me, x) && ElectionOk(n, h.ballots, h.reigns, x)
    requires m.AppendResponse? && MsgInv(n, h.ballots, h.reigns, m)
    requires |m.args.entries| > 0 ==> count == 1
    requires OwnAcked(h.acks, h.reigns) && ResponseAcked(h.acks, m)
    requires RunAppendReply(x, h, m, count) == Done(e)
    ensures e.hist == h && e.sent == {}
    ensures SameCore(x, e.node) || CommitStep(n, h, x, e.node, m.args.prevIndex + |m.args.entries|)
  {
    ReplyEffect(n, x, h, m, count);
    if !SameCore(x, e.node) {
      ReplyChosen(n, h, x, m, e);
    }
  }

  /** A reply changes only counters, or moves the commit index to the end p of its own batch. */
  lemma ReplySafe(s: Cluster, i: int, e: Effect, p: int, send: bool)
    requires Inv(s) && SafeInv(s) && 0 <= i < s.n && Fits(s.n, e.node) && e.hist == s.hist && e.sent == {}
    requires SameCore(s.nodes[i], e.node) || CommitStep(s.n, s.hist, s.nodes[i], e.node, p)
    ensures SafeInv(Complete(s, i, e, send))
  {
    if SameCore(s.nodes[i], e.node) {
      CoreSafe(s, i, e, send);
    } else {
      CommitSafe(s, i, e, p, send);
    }
  }

  /** A leader's commit index moves to p, which a majority has acknowledged. */
  ghost predicate CommitStep(n: nat, h: History, x: Node, y: Node, p: int) {
    && CommitMoved(x, y, p) && x.status == Leader
    && x.currentTerm in h.reigns && p <= |h.reigns[x.currentTerm].log|
    && Chosen(n, h.acks, x.currentTerm, p)
  }

  lemma ReplyChosen(n: nat, h: History, x: Node, m: Message, e: Effect)
    requires OwnAcked(h.acks, h.reigns) && m.AppendResponse? && ResponseAcked(h.acks, m)
    requires MsgInv(n, h.ballots, h.reigns, m) && ReplyStep(n, x, h, m, e) && !SameCore(x, e.node)
    ensures CommitStep(n, h, x, e.node, m.args.prevIndex + |m.args.entries|)
  {
    CommitChosen(n, h, m);
  }

  /** The commit index moves only when two nodes are a majority, and only to an entry of the
      leader's own term. */
  ghost predicate ReplyStep(n: nat, x: Node, h: History, m: Message, e: Effect)
    requires m.AppendResponse?
  {
    && e.hist == h && e.sent == {}
    && (SameCore(x, e.node)
        || (&& m.reply.success && |m.args.entries| > 0 && 2 >= Quorum(n)
            && x.status == Leader && m.args.term == x.currentTerm
            && CommitMoved(x, e.node, m.args.prevIndex + |m.args.entries|)))
  }

  ghost predicate CommitMoved(x: Node, y: Node, p: int) {
    && y.me == x.me && y.logs == x.logs && y.applied == x.applied && y.currentTerm == x.currentTerm
    && y.election == x.election && y.commitIndex == p && x.commitIndex < p
  }

  lemma ReplyEffect(n: nat, x: Node, h: History, m: Message, count: int)
    requires ShapeOk(n, x.me, x) && ElectionOk(n, h.ballots, h.reigns, x)
    requires m.AppendResponse? && MsgInv(n, h.ballots, h.reigns, m)
    requires |m.args.entries| > 0 ==> count == 1
    requires RunAppendReply(x, h, m, count).Done?
    ensures ReplyStep(n, x, h, m, RunAppendReply(x, h, m, count).value)
  {
  }

  lemma CommitSafe(s: Cluster, i: int, e: Effect, p: int, send: bool)
    requires Inv(s) && SafeInv(s) && 0 <= i < s.n && Fits(s.n, e.node)
    requires e.hist == s.hist && e.sent == {} && CommitStep(s.n, s.hist, s.nodes[i], e.node, p)
    ensures SafeInv(Complete(s, i, e, send))
  {
    var x, h := s.nodes[i], s.hist;
    assert NodeInv(s.n, h, i, x);
    CommitEffect(s.n, h, x, e.node, p);
    ExtendsRefl(h.reigns);
    CandidatesStay(s, i, e);
    CompleteSafe(s, i, e, send);
  }

  lemma CommitEffect(n: nat, h: History, x: Node, z: Node, p: int)
    requires NodeSafe(n, h.acks, h.reigns, x) && x.currentTerm in h.reigns && 0 <= x.commitIndex
    requires h.reigns[x.currentTerm].log == x.logs && x.commitIndex < p <= |x.logs|
    requires z.me == x.me && z.logs == x.logs && z.applied == x.applied && z.currentTerm == x.currentTerm
    requires z.commitIndex == p && Chosen(n, h.acks, x.currentTerm, p)
    ensures NodeSafe(n, h.acks, h.reigns, z)
  {
    assert CoveredBy(h.reigns, z.logs, p, z.currentTerm, x.currentTerm, p);
  }

  lemma DeliverSafe(s: Cluster, i: int, e: Effect, send: bool)
    requires Inv(s) && SafeInv(s) && 0 <= i < s.n && RunDeliver(s.nodes[i], s.hist) == Done(e)
    ensures SafeInv(Complete(s, i, e, send))
  {
    var x, h := s.nodes[i], s.hist;
    assert NodeInv(s.n, h, i, x) && NodeSafe(s.n, h.acks, h.reigns, x);
    DeliverNodeSafe(s.n, h, x);
    ExtendsRefl(h.reigns);
    assert SafeEffect(s, i, e);
    CandidatesStay(s, i, e);
    CompleteSafe(s, i, e, send);
  }

  lemma DeliverNodeSafe(n: nat, h: History, x: Node)
    requires NodeSafe(n, h.acks, h.reigns, x) && CountersOk(x) && x.snapIndex == 0
    ensures
      var y := ApplyCommitted(x);
      y.Done? && NodeSafe(n, h.acks, h.reigns, y.value)
      && y.value == x.(lastApplied := y.value.lastApplied, applied := y.value.applied)
  {
    var y := ApplyCommitted(x).value;
    if 0 < x.commitIndex {
      var t, k :| Chosen(n, h.acks, t, k) && CoveredBy(h.reigns, x.logs, x.commitIndex, x.currentTerm, t, k);
      assert CoveredBy(h.reigns, y.logs, y.commitIndex, y.currentTerm, t, k);
    }
  }

  // ---------------------------------------------------------------- every conforming run

  lemma EventSafe(s: Cluster, i: int, ev: Event, e: Effect, send: bool)
    requires Sized(s) && 0 <= i < s.n && EventEnabled(s, i, ev)
    requires ev.OnAppend? ==> Harmless(s.hist.reigns, s.nodes[i], ev.m.args)
    requires Run(s, i, ev) == Done(e) && Fits(s.n, e.node)
    requires Inv(s) && AckInv(s) && SafeInv(s)
    ensures SafeInv(Complete(s, i, e, send))
  {
    match ev
    case Elect => ElectSafe(s, i, send);
    case OnVoteRequest(m) => VoteRequestSafe(s, i, m, send);
    case OnVoteReply(m) => VoteReplySafe(s, i, m, e, send);
    case Propose(command) => ProposeSafe(s, i, command, send);
    case SendBatch(p, k) => SendBatchSafe(s, i, p, k, send);
    case Heartbeat => HeartbeatSafe(s, i, send);
    case OnAppend(m) => AppendSafe(s, i, m, e, send);
    case OnAppendReply(m, count) => AppendReplySafe(s, i, m, count, e, send);
    case Deliver => DeliverSafe(s, i, e, send);
    case SenderExit => SenderExitSafe(s, i, send);
  }

  lemma SenderExitSafe(s: Cluster, i: int, send: bool)
    requires Inv(s) && SafeInv(s) && 0 <= i < s.n
    ensures SafeInv(Complete(s, i, Effect(s.nodes[i].(senderAlive := false), {}, false, s.hist), send))
  {
    assert NodeInv(s.n, s.hist, i, s.nodes[i]);
    CoreSafe(s, i, Effect(s.nodes[i].(senderAlive := false), {}, false, s.hist), send);
  }

  /** A restart forgets the commit index and any running election; the log is as it was. */
  lemma RebootSafe(s: Cluster, i: int)
    requires Inv(s) && SafeInv(s) && 0 <= i < s.n
    ensures SafeInv(Reboot(s, i))
  {
    var x, h := s.nodes[i], s.hist;
    var y := Boot(s.n, i, s.disks[i]);
    assert NodeInv(s.n, h, i, x) && NodeSafe(s.n, h.acks, h.reigns, x);
    LoadedIsSaved(x);
    var e := Effect(y, {}, false, h);
    ExtendsRefl(h.reigns);
    assert NodeSafe(s.n, h.acks, h.reigns, y);
    CandidatesStay(s, i, e);
    CompleteSafe(s, i, e, false);
    assert Reboot(s, i) == Complete(s, i, e, false);
  }

  lemma NextSafe(s: Cluster, step: Step)
    requires Inv(s) && AckInv(s) && SafeInv(s) && Conforming(s, step)
    ensures SafeInv(Next(s, step))
  {
    if Enabled(s, step) {
      RunOrCrashFits(s, step);
      match step
      case Crash(i) => RebootSafe(s, i);
      case Act(i, ev) =>
        EventSound(s, i, ev);
        EventSafe(s, i, ev, Run(s, i, ev).value, true);
      case CrashPersisting(i, ev, flushed) =>
        CrashInsideSafe(s, i, ev, Run(s, i, ev).value, flushed);
    }
  }

  /** The process dies after its write reached the disk. */
  lemma FlushedSafe(s: Cluster, i: int, ev: Event, e: Effect)
    requires Sized(s) && 0 <= i < s.n && EventEnabled(s, i, ev)
    requires ev.OnAppend? && Matches(s.nodes[i], ev.m.args) ==> C1(s.nodes[i], ev.m.args)
    requires Run(s, i, ev) == Done(e) && Fits(s.n, e.node)
    requires Inv(s) && AckInv(s) && SafeInv(s)
    ensures SafeInv(Reboot(Complete(s, i, e, false), i))
  {
    if ev.OnAppend? {
      BatchRebootSafe(s, i, ev.m, e);
    } else {
      EventSound(s, i, ev);
      CompleteKeeps(s, i, e, false);
      EventSafe(s, i, ev, e, false);
      RebootSafe(Complete(s, i, e, false), i);
    }
  }

  /** A win whose write is lost: the disk already held what the write would have stored. */
  lemma UnflushedWinSafe(s: Cluster, i: int, m: Message, e: Effect)
    requires Sized(s) && 0 <= i < s.n && m.VoteReply? && s.nodes[i].election.Election? && Fits(s.n, e.node)
    requires RunVoteReply(s.nodes[i], s.hist, m) == Done(e) && e.hist != s.hist
    requires s.disks[i] == PersistData(s.nodes[i])
    requires SafeInv(Reboot(Complete(s, i, e, false), i))
    ensures SafeInv(Reboot(s.(hist := e.hist), i))
  {
    hide SafeInv;
    WinPersistsNothingNew(s.nodes[i], s.hist, m);
    UnflushedIsFlushed(s, i, e);
  }

  lemma OnDisk(s: Cluster, i: int)
    requires Inv(s) && 0 <= i < s.n
    ensures s.disks[i] == PersistData(s.nodes[i])
  {
  }

  lemma CrashInsideSafe(s: Cluster, i: int, ev: Event, e: Effect, flushed: bool)
    requires Sized(s) && 0 <= i < s.n && EventEnabled(s, i, ev)
    requires flushed && ev.OnAppend? && Matches(s.nodes[i], ev.m.args) ==> C1(s.nodes[i], ev.m.args)
    requires Run(s, i, ev) == Done(e) && Fits(s.n, e.node)
    requires Inv(s) && AckInv(s) && SafeInv(s)
    ensures SafeInv(CrashInside(s, i, ev, e, flushed))
  {
    hide Inv, AckInv, SafeInv;
    RebootSafe(s, i);
    OnDisk(s, i);
    if flushed {
      FlushedSafe(s, i, ev, e);
    } else if ev.OnVoteReply? && e.hist != s.hist {
      FlushedSafe(s, i, ev, e);
      UnflushedWinSafe(s, i, ev.m, e);
    }
  }

  lemma InitSafe(n: nat)
    ensures SafeInv(Init(n))
  {
  }

  /** Every state of every conforming run. */
  lemma {:induction false} ReachableSafe(n: nat, steps: seq<Step>)
    requires ConformingRun(n, steps)
    ensures SafeInv(After(n, steps))
    decreases |steps|
  {
    if |steps| == 0 {
      InitSafe(n);
    } else {
      var last := |steps| - 1;
      var before := steps[..last];
      assert forall k :: 0 <= k < last ==> before[..k] == steps[..k];
      assert Conforming(After(n, before), steps[last]);
      hide Conforming, Next;
      ReachableSafe(n, before);
      Reachable(n, before);
      AlwaysAcked(n, before);
      NextSafe(After(n, before), steps[last]);
    }
  }
}
