/** Every event of a conforming run keeps the safety invariant. */
module SafetyEvents {
  import opened RaftTypes
  import opened RaftHandlers
  import opened Cluster
  import opened Invariants
  import opened EventsKeep
  import opened Acknowledgements
  import opened SafetyInv
  import opened SafetyGrowth

  lemma ExtendsRefl(g: Reigns)
    ensures Extends(g, g)
  {
  }

  /** The log, the commit index and what was applied are the same; a running election is not new. */
  ghost predicate SameCore(x: Node, y: Node) {
    && y.me == x.me && y.logs == x.logs && y.commitIndex == x.commitIndex && y.applied == x.applied
    && x.currentTerm <= y.currentTerm
    && (y.election.Election? ==>
          x.election.Election? && y.election.term == x.election.term <= x.currentTerm)
  }

  lemma CoreEffect(s: Cluster, i: int, e: Effect)
    requires Inv(s) && SafeInv(s) && 0 <= i < s.n
    requires SameCore(s.nodes[i], e.node)
    requires e.hist == s.hist.(ballots := e.hist.ballots)
    requires forall m :: m in e.sent ==> ArgsCovered(s.n, s.hist.acks, s.hist.reigns, m)
    ensures SafeEffect(s, i, e)
  {
    ExtendsRefl(s.hist.reigns);
    NodeSafeNewer(s.n, s.hist.acks, s.hist.reigns, s.nodes[i], e.node);
  }

  /** Events that move no log, commit index or ballot. */
  lemma CoreSafe(s: Cluster, i: int, e: Effect, send: bool)
    requires Inv(s) && SafeInv(s) && 0 <= i < s.n && Fits(s.n, e.node)
    requires SameCore(s.nodes[i], e.node) && e.hist == s.hist
    requires forall m :: m in e.sent ==> ArgsCovered(s.n, s.hist.acks, s.hist.reigns, m) && !m.VoteRequest?
    ensures SafeInv(Complete(s, i, e, send))
  {
    assert NodeInv(s.n, s.hist, i, s.nodes[i]);
    CoreEffect(s, i, e);
    CandidatesStay(s, i, e);
    CompleteSafe(s, i, e, send);
  }

  // ---------------------------------------------------------------- logs that trace reigns

  /** A traced log is a prefix of the reign of its last term, and so is nondecreasing. */
  lemma TracedPrefix(g: Reigns, log: seq<Entry>)
    requires ReignsTrace(g) && Traces(g, log) && |log| > 0
    ensures
      var w := log[|log| - 1].term;
      w in g && |log| <= |g[w].log| && log == g[w].log[..|log|]
    ensures Nondecreasing(log)
  {
    assert TraceAt(g, log, |log| - 1);
    var w := log[|log| - 1].term;
    assert log[..|log|] == log;
    assert Traces(g, g[w].log) && Nondecreasing(g[w].log);
  }

  /** Two traced logs that agree on the term at position p - 1 agree up to p. */
  lemma TracedAgree(g: Reigns, a: seq<Entry>, b: seq<Entry>, p: int)
    requires Traces(g, a) && Traces(g, b)
    requires 1 <= p <= |a| && p <= |b| && a[p - 1].term == b[p - 1].term
    ensures a[..p] == b[..p]
  {
    assert TraceAt(g, a, p - 1) && TraceAt(g, b, p - 1);
  }

  /** The voting rule of section 5.4.1: a voter's acknowledged prefix passes to a candidate that
      is at least as up to date, unless an intermediate leader has lost it. */
  lemma UpToDateKeeps(n: nat, g: Reigns, k: Ack, x: Node, log: seq<Entry>, term: int)
    requires ReignsTrace(g) && Traces(g, x.logs) && Traces(g, log) && AckOk(n, g, k)
    requires x.snapIndex == 0 && x.snapTerm == 0
    requires Holds(g, k, x.logs) && UpToDate(x, |log|, TermBefore(log, |log|))
    requires forall j :: 0 <= j < |log| ==> log[j].term < term
    requires 1 <= k.term
    ensures Kept(g, k, log, term - 1)
  {
    TracedPrefix(g, x.logs);
    assert x.logs[..k.index][k.index - 1] == g[k.term].log[..k.index][k.index - 1];
    assert LastLogTerm(x) >= k.term;
    TracedPrefix(g, log);
    var w := log[|log| - 1].term;
    if w == LastLogTerm(x) {
      assert log[..k.index] == x.logs[..k.index];
      assert Holds(g, k, log);
    } else if Holds(g, k, g[w].log) {
      var l := g[w].log;
      assert l[..k.index][k.index - 1] == g[k.term].log[..k.index][k.index - 1];
      assert Nondecreasing(l);
      assert k.index <= |log|;
      assert log[..k.index] == l[..k.index];
    }
  }

  // ---------------------------------------------------------------- elections

  lemma ElectEffect(s: Cluster, i: int)
    requires Inv(s) && SafeInv(s) && 0 <= i < s.n && s.nodes[i].status != Leader
    ensures SafeEffect(s, i, RunElect(s.nodes[i], s.hist))
  {
    var x, h := s.nodes[i], s.hist;
    assert NodeInv(s.n, h, i, x);
    ExtendsRefl(h.reigns);
    NodeSafeNewer(s.n, h.acks, h.reigns, x, RunElect(x, h).node);
  }

  /** A node votes for itself once per term, so its next term is new. */
  lemma NextTermFresh(s: Cluster, i: int)
    requires Inv(s) && 0 <= i < s.n
    ensures s.nodes[i].me == i
    ensures Ballot(i, s.nodes[i].currentTerm + 1) !in s.hist.ballots
    ensures forall b :: b in s.hist.ballots && VotedFor(s.hist.ballots, i, b.term, i) ==>
              b.term != s.nodes[i].currentTerm + 1
    ensures forall m :: m in s.msgs && m.VoteRequest? && m.candidate == i ==> m.term != s.nodes[i].currentTerm + 1
  {
    assert NodeInv(s.n, s.hist, i, s.nodes[i]);
    forall m | m in s.msgs && m.VoteRequest? && m.candidate == i
      ensures m.term != s.nodes[i].currentTerm + 1
    {
      assert MsgInv(s.n, s.hist.ballots, s.hist.reigns, m);
    }
  }

  lemma ElectSafe(s: Cluster, i: int, send: bool)
    requires Inv(s) && SafeInv(s) && 0 <= i < s.n && s.nodes[i].status != Leader
    ensures SafeInv(Complete(s, i, RunElect(s.nodes[i], s.hist), send))
  {
    var e := RunElect(s.nodes[i], s.hist);
    ElectEffect(s, i);
    NextTermFresh(s, i);
    ElectBallots(s, i);
    ElectRequests(s, i);
    assert Fits(s.n, e.node);
    CompleteSafe(s, i, e, send);
  }

  lemma ElectBallots(s: Cluster, i: int)
    requires Sized(s) && HistInv(s.n, s.hist) && BallotsOk(s) && BallotsKept(s)
    requires 0 <= i < s.n && s.nodes[i].status != Leader && s.nodes[i].me == i
    requires AcksKept(s.hist.acks, s.hist.reigns, s.nodes[i])
    requires Ballot(i, s.nodes[i].currentTerm + 1) !in s.hist.ballots
    ensures
      var e := RunElect(s.nodes[i], s.hist);
      forall b :: b in e.hist.ballots ==> BallotsSafe(s, i, e, b)
  {
    var x, h := s.nodes[i], s.hist;
    var e := RunElect(x, h);
    ExtendsRefl(h.reigns);
    forall b | b in e.hist.ballots ensures BallotsSafe(s, i, e, b) {
      if b !in h.ballots {
        OwnBallot(h.acks, h.reigns, x, e.node);
      } else if h.ballots[b] == i {
        assert VotedFor(h.ballots, i, b.term, i);
      } else {
        BallotStays(s, i, e, b);
      }
    }
  }

  lemma ElectRequests(s: Cluster, i: int)
    requires Sized(s) && RequestsFit(s) && 0 <= i < s.n && s.nodes[i].status != Leader
    requires NodeInv(s.n, s.hist, i, s.nodes[i])
    requires forall m :: m in s.msgs && m.VoteRequest? && m.candidate == i ==> m.term != s.nodes[i].currentTerm + 1
    ensures
      var e := RunElect(s.nodes[i], s.hist);
      forall m :: m in s.msgs + e.sent && m.VoteRequest? ==> RequestSafe(s, i, e, m)
  {
    var e := RunElect(s.nodes[i], s.hist);
    ExtendsRefl(s.hist.reigns);
    forall m | m in s.msgs && m.VoteRequest? ensures RequestSafe(s, i, e, m) {
      if m.candidate != i {
        RequestStays(s, i, e, m);
      }
    }
  }

  /** A candidate hands its own acknowledged prefixes to itself. */
  lemma OwnBallot(acks: set<Ack>, g: Reigns, x: Node, y: Node)
    requires AcksKept(acks, g, x) && y.me == x.me && y.logs == x.logs
    ensures BallotKept(acks, g, Ballot(x.me, x.currentTerm + 1), y)
  {
    forall k | k in acks && k.node == x.me && k.term < x.currentTerm + 1
      ensures Kept(g, k, y.logs, x.currentTerm)
    {
    }
  }

  lemma VoteRequestSafe(s: Cluster, i: int, m: Message, send: bool)
    requires Inv(s) && SafeInv(s) && 0 <= i < s.n && EventEnabled(s, i, OnVoteRequest(m))
    ensures SafeInv(Complete(s, i, RunVoteRequest(s.nodes[i], s.hist, m), send))
  {
    var x, h := s.nodes[i], s.hist;
    var r := RequestVote(x, m.term, m.candidate, m.lastIndex, m.lastTerm);
    assert NodeInv(s.n, h, i, x) && MsgInv(s.n, h.ballots, h.reigns, m);
    VoteRequestNode(s.n, h, x, m);
    GrantMeans(x, m);
    if r.granted {
      GrantBallot(s, i, m);
    }
    VoteEffectSafe(s, i, m, r, send);
  }

  /** A granted vote was asked for by a candidate at least as up to date, in a term no older. */
  lemma GrantMeans(x: Node, m: Message)
    requires m.VoteRequest?
    ensures
      RequestVote(x, m.term, m.candidate, m.lastIndex, m.lastTerm).granted ==>
        && x.currentTerm <= m.term && UpToDate(x, m.lastIndex, m.lastTerm)
        && (x.currentTerm == m.term ==> x.votedFor == -1 || x.votedFor == m.candidate)
  {
  }

  lemma VoteEffectSafe(s: Cluster, i: int, m: Message, r: VoteResult, send: bool)
    requires Inv(s) && SafeInv(s) && 0 <= i < s.n && m.VoteRequest? && m in s.msgs
    requires s.nodes[i].me == i && SameCore(s.nodes[i], r.node) && Fits(s.n, r.node)
    requires m.candidate != i && 0 <= m.candidate < s.n
    requires r.granted ==> BallotKept(s.hist.acks, s.hist.reigns, Ballot(i, m.term), s.nodes[m.candidate])
    requires r.granted && Ballot(i, m.term) in s.hist.ballots ==> s.hist.ballots[Ballot(i, m.term)] == m.candidate
    ensures SafeInv(Complete(s, i, VoteEffect(i, s.hist, m, r), send))
  {
    var e := VoteEffect(i, s.hist, m, r);
    VoteEffectCore(s, i, m, r);
    assert MsgInv(s.n, s.hist.ballots, s.hist.reigns, m);
    VoteBallots(s, i, m, r);
    hide Inv, SafeInv, SafeEffect, BallotsSafe, RequestSafe, SameCore, BallotKept, MsgInv;
    CompleteSafe(s, i, e, send);
  }

  lemma VoteEffectCore(s: Cluster, i: int, m: Message, r: VoteResult)
    requires Inv(s) && SafeInv(s) && 0 <= i < s.n && m.VoteRequest? && SameCore(s.nodes[i], r.node)
    ensures
      var e := VoteEffect(i, s.hist, m, r);
      && SafeEffect(s, i, e)
      && forall q :: q in s.msgs + e.sent && q.VoteRequest? ==> RequestSafe(s, i, e, q)
  {
    var e := VoteEffect(i, s.hist, m, r);
    CoreEffect(s, i, e);
    VoteRequests(s, i, e);
  }

  lemma VoteRequests(s: Cluster, i: int, e: Effect)
    requires Sized(s) && RequestsFit(s) && 0 <= i < s.n
    requires SameCore(s.nodes[i], e.node) && e.hist.reigns == s.hist.reigns
    requires forall m :: m in e.sent ==> !m.VoteRequest?
    ensures forall q :: q in s.msgs + e.sent && q.VoteRequest? ==> RequestSafe(s, i, e, q)
  {
    ExtendsRefl(s.hist.reigns);
    forall q | q in s.msgs && q.VoteRequest? ensures RequestSafe(s, i, e, q) {
      RequestStays(s, i, e, q);
    }
  }

  lemma VoteBallots(s: Cluster, i: int, m: Message, r: VoteResult)
    requires Sized(s) && HistInv(s.n, s.hist) && BallotsOk(s) && BallotsKept(s)
    requires 0 <= i < s.n && m.VoteRequest? && MsgInv(s.n, s.hist.ballots, s.hist.reigns, m)
    requires s.nodes[i].me == i && SameCore(s.nodes[i], r.node)
    requires m.candidate != i && 0 <= m.candidate < s.n
    requires r.granted ==> BallotKept(s.hist.acks, s.hist.reigns, Ballot(i, m.term), s.nodes[m.candidate])
    requires r.granted && Ballot(i, m.term) in s.hist.ballots ==> s.hist.ballots[Ballot(i, m.term)] == m.candidate
    ensures
      var e := VoteEffect(i, s.hist, m, r);
      forall b :: b in e.hist.ballots ==> BallotsSafe(s, i, e, b)
  {
    var h := s.hist;
    var e := VoteEffect(i, h, m, r);
    ExtendsRefl(h.reigns);
    forall b | b in e.hist.ballots ensures BallotsSafe(s, i, e, b) {
      if b in h.ballots {
        BallotStays(s, i, e, b);
      }
    }
  }

  /** The vote just granted: the voter's acknowledged prefixes pass to the candidate. */
  lemma GrantBallot(s: Cluster, i: int, m: Message)
    requires Inv(s) && SafeInv(s) && 0 <= i < s.n && m in s.msgs && m.VoteRequest?
    requires s.nodes[i].currentTerm <= m.term && UpToDate(s.nodes[i], m.lastIndex, m.lastTerm)
    ensures 0 <= m.candidate < s.n
    ensures BallotKept(s.hist.acks, s.hist.reigns, Ballot(i, m.term), s.nodes[m.candidate])
  {
    var x, h := s.nodes[i], s.hist;
    var c := s.nodes[m.candidate];
    assert NodeInv(s.n, h, i, x) && NodeInv(s.n, h, m.candidate, c);
    assert NodeSafe(s.n, h.acks, h.reigns, x) && NodeSafe(s.n, h.acks, h.reigns, c);
    assert RequestFits(h.reigns, m, c);
    GrantKept(s.n, h, x, m.candidate, c, m.term);
  }

  lemma GrantKept(n: nat, h: History, x: Node, j: int, c: Node, term: int)
    requires HistInv(n, h) && ReignsTrace(h.reigns)
    requires AcksKept(h.acks, h.reigns, x) && x.snapIndex == 0 && x.snapTerm == 0 && x.currentTerm <= term
    requires Traces(h.reigns, x.logs) && Traces(h.reigns, c.logs) && NodeInv(n, h, j, c)
    requires Running(h.reigns, c, term) ==> UpToDate(x, |c.logs|, TermBefore(c.logs, |c.logs|))
    ensures BallotKept(h.acks, h.reigns, Ballot(x.me, term), c)
  {
    if Running(h.reigns, c, term) {
      RunningTerms(n, h, j, c, term);
      hide NodeInv, UpToDate, Running;
      forall k | k in h.acks && k.node == x.me && k.term < term
        ensures Kept(h.reigns, k, c.logs, term - 1)
      {
        assert AckOk(n, h.reigns, k) && ReignOk(n, h.wins, h.ballots, h.reigns, k.term);
        hide HistInv;
        AckHandedOn(n, h.reigns, k, x, c.logs, term);
      }
    }
  }

  /** One acknowledgement of the voter. */
  lemma AckHandedOn(n: nat, g: Reigns, k: Ack, x: Node, log: seq<Entry>, term: int)
    requires ReignsTrace(g) && Traces(g, x.logs) && Traces(g, log) && AckOk(n, g, k) && 1 <= k.term < term
    requires x.snapIndex == 0 && x.snapTerm == 0 && x.currentTerm <= term
    requires UpToDate(x, |log|, TermBefore(log, |log|)) && Kept(g, k, x.logs, x.currentTerm)
    requires forall j :: 0 <= j < |log| ==> log[j].term < term
    requires term !in g
    ensures Kept(g, k, log, term - 1)
  {
    hide UpToDate, Traces, ReignsTrace, AckOk;
    if Holds(g, k, x.logs) {
      UpToDateKeeps(n, g, k, x, log, term);
    }
  }

  lemma RunningTerms(n: nat, h: History, i: int, c: Node, term: int)
    requires NodeInv(n, h, i, c) && Running(h.reigns, c, term)
    ensures forall j :: 0 <= j < |c.logs| ==> c.logs[j].term < term
  {
    assert forall j :: 0 <= j < |c.logs| ==> Known(h.reigns, c.logs[j]);
  }

  lemma VoteReplySafe(s: Cluster, i: int, m: Message, e: Effect, send: bool)
    requires Inv(s) && SafeInv(s) && 0 <= i < s.n && EventEnabled(s, i, OnVoteReply(m))
    requires RunVoteReply(s.nodes[i], s.hist, m) == Done(e) && Fits(s.n, e.node)
    ensures SafeInv(Complete(s, i, e, send))
  {
    assert NodeInv(s.n, s.hist, i, s.nodes[i]);
    if e.hist == s.hist {
      VoteReplyCore(s.nodes[i], s.hist, m);
      CoreSafe(s, i, e, send);
    } else {
      WinIsNew(s, i, m);
      NewReignSafe(s, i, e, send);
    }
  }

  lemma VoteReplyCore(x: Node, h: History, m: Message)
    requires m.VoteReply? && x.election.Election? && x.election.term <= x.currentTerm
    requires RunVoteReply(x, h, m).Done?
    ensures SameCore(x, RunVoteReply(x, h, m).value.node) && RunVoteReply(x, h, m).value.sent == {}
  {
  }

  lemma NewReignSafe(s: Cluster, i: int, e: Effect, send: bool)
    requires Inv(s) && SafeInv(s) && 0 <= i < s.n && WonEffect(s.hist, s.nodes[i], e)
    requires s.nodes[i].me == i && Fits(s.n, s.nodes[i])
    ensures SafeInv(Complete(s, i, e, send))
  {
    var x, h := s.nodes[i], s.hist;
    WinReigns(s, i, e);
    NodeSafeExtends(s.n, h, e.hist, x);
    NodeSafeNewer(s.n, e.hist.acks, e.hist.reigns, x, e.node);
    CandidatesStay(s, i, e);
    CompleteSafe(s, i, e, send);
  }

  /** The new reign keeps what its voters acknowledged. */
  lemma WinReigns(s: Cluster, i: int, e: Effect)
    requires Inv(s) && SafeInv(s) && 0 <= i < s.n
    requires WonEffect(s.hist, s.nodes[i], e) && s.nodes[i].me == i
    ensures Extends(s.hist.reigns, e.hist.reigns)
    ensures ReignsTrace(e.hist.reigns) && ReignsKept(e.hist.acks, e.hist.reigns)
  {
    var x, h := s.nodes[i], s.hist;
    var g, g', t := h.reigns, e.hist.reigns, x.currentTerm;
    WinTraces(g, g', x.logs, t);
    WinKept(s, i, g');
    WonOthersKept(s, x, e);
  }

  /** The other reigns keep what theirs acknowledged. */
  lemma WonOthersKept(s: Cluster, x: Node, e: Effect)
    requires Sized(s) && HistInv(s.n, s.hist) && BallotsOk(s) && ReignsKept(s.hist.acks, s.hist.reigns)
    requires 0 <= x.me < s.n && s.nodes[x.me] == x && WonEffect(s.hist, x, e)
    ensures forall u :: u in s.hist.reigns ==> ReignKept(s.hist.acks, e.hist.reigns, u)
  {
    assert Extends(s.hist.reigns, e.hist.reigns) && AcksFrom(s.hist, x, e) && e.hist.acks == s.hist.acks;
    hide WonEffect;
    forall u | u in s.hist.reigns ensures ReignKept(s.hist.acks, e.hist.reigns, u) {
      ReignKeptExtends(s.n, s, x, e, u);
    }
  }

  lemma WinTraces(g: Reigns, g': Reigns, log: seq<Entry>, t: int)
    requires ReignsTrace(g) && Traces(g, log) && t !in g && t in g'
    requires g' == g[t := g'[t]] && g'[t].log == log
    ensures ReignsTrace(g')
  {
    forall u | u in g' ensures Traces(g', g'[u].log) && Nondecreasing(g'[u].log) {
      if u == t {
        TracesExtend(g, g', log);
        if |log| > 0 {
          TracedPrefix(g, log);
        }
      } else {
        TracesExtend(g, g', g[u].log);
      }
    }
  }

  lemma WinKept(s: Cluster, i: int, g': Reigns)
    requires Inv(s) && SafeInv(s) && 0 <= i < s.n
    requires
      var x, h := s.nodes[i], s.hist;
      && Running(h.reigns, x, x.currentTerm) && x.currentTerm in g'
      && g'[x.currentTerm].log == x.logs
      && (forall v :: v in g'[x.currentTerm].voters ==> VotedFor(h.ballots, v, x.currentTerm, i))
      && g' == h.reigns[x.currentTerm := g'[x.currentTerm]]
    ensures ReignKept(s.hist.acks, g', s.nodes[i].currentTerm)
  {
    var x, h := s.nodes[i], s.hist;
    var t := x.currentTerm;
    assert BallotsKept(s) && HistInv(s.n, h);
    hide Inv, SafeInv, Kept, ReignOk;
    forall k | k in h.acks && k.node in g'[t].voters && k.term < t
      ensures Kept(g', k, x.logs, t - 1)
    {
      var b := Ballot(k.node, t);
      assert b in h.ballots && h.ballots[b] == i;
      assert BallotKept(h.acks, h.reigns, b, x);
      assert Kept(h.reigns, k, x.logs, t - 1);
      assert AckOk(s.n, h.reigns, k);
      KeptExtend(s.n, h.reigns, g', k, x.logs, x.logs, t - 1);
    }
  }
}
