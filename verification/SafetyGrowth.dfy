/** Conforming runs: what stays true when history grows, and how one event is put together. */
module SafetyGrowth {
  import opened RaftTypes
  import opened Cluster
  import opened Majorities
  import opened Invariants
  import opened SafetyInv

  /** Reigns keep their log, and append only entries of their own term. */
  ghost predicate Extends(g: Reigns, g': Reigns) {
    forall t :: t in g ==>
      && t in g' && g'[t].voters == g[t].voters
      && g[t].log <= g'[t].log
      && forall j :: |g[t].log| <= j < |g'[t].log| ==> g'[t].log[j].term == t
  }

  lemma TracesExtend(g: Reigns, g': Reigns, log: seq<Entry>)
    requires Extends(g, g') && Traces(g, log)
    ensures Traces(g', log)
  {
    forall k | 0 <= k < |log| ensures TraceAt(g', log, k) {
      assert TraceAt(g, log, k);
      var was, now := g[log[k].term].log, g'[log[k].term].log;
      assert now[..k + 1] == was[..k + 1];
    }
  }

  lemma HoldsExtend(g: Reigns, g': Reigns, k: Ack, log: seq<Entry>, log': seq<Entry>)
    requires Extends(g, g') && Holds(g, k, log) && log <= log'
    ensures Holds(g', k, log')
  {
    assert g'[k.term].log[..k.index] == g[k.term].log[..k.index];
    assert log'[..k.index] == log[..k.index];
  }

  lemma LostExtend(n: nat, g: Reigns, g': Reigns, k: Ack, bound: int)
    requires Extends(g, g') && AckOk(n, g, k) && Lost(g, k, bound)
    ensures Lost(g', k, bound)
  {
    var u :| u in g && k.term < u <= bound && !Holds(g, k, g[u].log);
    assert !Holds(g', k, g'[u].log);
  }

  lemma KeptExtend(n: nat, g: Reigns, g': Reigns, k: Ack, log: seq<Entry>, log': seq<Entry>, bound: int)
    requires Extends(g, g') && AckOk(n, g, k) && Kept(g, k, log, bound) && log <= log'
    ensures Kept(g', k, log', bound)
  {
    if Holds(g, k, log) {
      HoldsExtend(g, g', k, log, log');
    } else {
      LostExtend(n, g, g', k, bound);
    }
  }

  lemma ChosenGrows(n: nat, acks: set<Ack>, acks': set<Ack>, t: int, k: int)
    requires acks <= acks' && Chosen(n, acks, t, k)
    ensures Chosen(n, acks', t, k)
  {
    SubsetSize(Ackers(acks, t, k), Ackers(acks', t, k));
  }

  lemma CoveredExtend(n: nat, acks: set<Ack>, acks': set<Ack>, g: Reigns, g': Reigns,
                      log: seq<Entry>, log': seq<Entry>, c: int, bound: int, bound': int)
    requires acks <= acks' && Extends(g, g') && Covered(n, acks, g, log, c, bound)
    requires bound <= bound' && log <= log'
    ensures Covered(n, acks', g', log', c, bound')
  {
    if c > 0 {
      var t, k :| Chosen(n, acks, t, k) && CoveredBy(g, log, c, bound, t, k);
      ChosenGrows(n, acks, acks', t, k);
      assert g'[t].log[..c] == g[t].log[..c];
      assert log'[..c] == log[..c];
      assert CoveredBy(g', log', c, bound', t, k);
    }
  }

  /** Another node's acknowledgements and reigns do not disturb a node. */
  lemma NodeSafeExtends(n: nat, h: History, h': History, x: Node)
    requires HistInv(n, h) && Extends(h.reigns, h'.reigns) && h.acks <= h'.acks
    requires NodeSafe(n, h.acks, h.reigns, x)
    requires forall k :: k in h'.acks && k !in h.acks ==> k.node != x.me
    ensures NodeSafe(n, h'.acks, h'.reigns, x)
  {
    TracesExtend(h.reigns, h'.reigns, x.logs);
    CoveredExtend(n, h.acks, h'.acks, h.reigns, h'.reigns, x.logs, x.logs, x.commitIndex,
                  x.currentTerm, x.currentTerm);
    forall k | k in h'.acks && k.node == x.me
      ensures k.term <= x.currentTerm && Kept(h'.reigns, k, x.logs, x.currentTerm)
    {
      assert k in h.acks;
      assert AckOk(n, h.reigns, k);
      KeptExtend(n, h.reigns, h'.reigns, k, x.logs, x.logs, x.currentTerm);
    }
  }

  /** A newer term alone changes nothing. */
  lemma NodeSafeNewer(n: nat, acks: set<Ack>, g: Reigns, x: Node, y: Node)
    requires NodeSafe(n, acks, g, x)
    requires y.me == x.me && y.logs == x.logs && y.commitIndex == x.commitIndex && y.applied == x.applied
    requires x.currentTerm <= y.currentTerm
    ensures NodeSafe(n, acks, g, y)
  {
    if x.commitIndex > 0 {
      var t, k :| Chosen(n, acks, t, k) && CoveredBy(g, x.logs, x.commitIndex, x.currentTerm, t, k);
      assert CoveredBy(g, y.logs, y.commitIndex, y.currentTerm, t, k);
    }
    forall k | k in acks && k.node == y.me
      ensures k.term <= y.currentTerm && Kept(g, k, y.logs, y.currentTerm)
    {
      assert Kept(g, k, x.logs, x.currentTerm);
    }
  }

  /** Acknowledgements added at node x carry its current term. */
  ghost predicate AcksFrom(h: History, x: Node, e: Effect) {
    && h.acks <= e.hist.acks
    && x.currentTerm <= e.node.currentTerm
    && forall k :: k in e.hist.acks && k !in h.acks ==> k.node == x.me && k.term == e.node.currentTerm
  }

  /** Existing reigns stay as good as they were. */
  lemma ReignKeptExtends(n: nat, s: Cluster, x: Node, e: Effect, t: int)
    requires Sized(s) && HistInv(s.n, s.hist) && BallotsOk(s) && 0 <= x.me < s.n && s.nodes[x.me] == x && n == s.n
    requires Extends(s.hist.reigns, e.hist.reigns) && AcksFrom(s.hist, x, e)
    requires t in s.hist.reigns && ReignKept(s.hist.acks, s.hist.reigns, t)
    ensures ReignKept(e.hist.acks, e.hist.reigns, t)
  {
    var g, g' := s.hist.reigns, e.hist.reigns;
    assert ReignOk(n, s.hist.wins, s.hist.ballots, g, t);
    forall k | k in e.hist.acks && k.node in g'[t].voters && k.term < t
      ensures Kept(g', k, g'[t].log, t - 1)
    {
      assert VotedFor(s.hist.ballots, k.node, t, g[t].leader);
      assert k in s.hist.acks;
      assert AckOk(n, g, k);
      KeptExtend(n, g, g', k, g[t].log, g'[t].log, t - 1);
    }
  }

  // ---------------------------------------------------------------- candidates

  /** If y runs for a term, x already did, with the same log. */
  ghost predicate StillRunning(g: Reigns, g': Reigns, x: Node, y: Node) {
    forall t :: Running(g', y, t) ==> Running(g, x, t) && y.logs == x.logs
  }

  lemma BallotKeptExtends(s: Cluster, x: Node, e: Effect, b: Ballot, c: Node, c': Node)
    requires Sized(s) && HistInv(s.n, s.hist) && BallotsOk(s)
    requires 0 <= x.me < s.n && s.nodes[x.me] == x && b in s.hist.ballots
    requires Extends(s.hist.reigns, e.hist.reigns) && AcksFrom(s.hist, x, e)
    requires BallotKept(s.hist.acks, s.hist.reigns, b, c)
    requires StillRunning(s.hist.reigns, e.hist.reigns, c, c')
    ensures BallotKept(e.hist.acks, e.hist.reigns, b, c')
  {
    if Running(e.hist.reigns, c', b.term) {
      forall k | k in e.hist.acks && k.node == b.voter && k.term < b.term
        ensures Kept(e.hist.reigns, k, c'.logs, b.term - 1)
      {
        assert Honours(s.nodes[b.voter], b.term, s.hist.ballots[b]);
        assert k in s.hist.acks;
        assert AckOk(s.n, s.hist.reigns, k);
        KeptExtend(s.n, s.hist.reigns, e.hist.reigns, k, c.logs, c'.logs, b.term - 1);
      }
    }
  }

  lemma SameRunning(g: Reigns, g': Reigns, x: Node)
    requires Extends(g, g')
    ensures StillRunning(g, g', x, x)
  {
  }

  // ---------------------------------------------------------------- one event

  /** What has to be shown of one event of a conforming run, apart from its ballots. */
  ghost predicate SafeEffect(s: Cluster, i: int, e: Effect)
    requires Sized(s) && 0 <= i < s.n
  {
    && Extends(s.hist.reigns, e.hist.reigns)
    && AcksFrom(s.hist, s.nodes[i], e)
    && NodeSafe(s.n, e.hist.acks, e.hist.reigns, e.node)
    && ReignsTrace(e.hist.reigns)
    && ReignsKept(e.hist.acks, e.hist.reigns)
    && (forall m :: m in e.sent ==> ArgsCovered(s.n, e.hist.acks, e.hist.reigns, m))
  }

  /** Ballots and vote requests after the event. */
  ghost predicate BallotsSafe(s: Cluster, i: int, e: Effect, b: Ballot)
    requires Sized(s) && 0 <= i < s.n && b in e.hist.ballots
  {
    var c := e.hist.ballots[b];
    && 0 <= c < s.n && VotedFor(e.hist.ballots, c, b.term, c)
    && BallotKept(e.hist.acks, e.hist.reigns, b, s.nodes[i := e.node][c])
  }

  ghost predicate RequestSafe(s: Cluster, i: int, e: Effect, m: Message)
    requires Sized(s) && 0 <= i < s.n && m.VoteRequest?
  {
    0 <= m.candidate < s.n && RequestFits(e.hist.reigns, m, s.nodes[i := e.node][m.candidate])
  }

  lemma ArgsCoveredExtends(n: nat, h: History, h': History, m: Message)
    requires Extends(h.reigns, h'.reigns) && h.acks <= h'.acks && ArgsCovered(n, h.acks, h.reigns, m)
    ensures ArgsCovered(n, h'.acks, h'.reigns, m)
  {
    if m.AppendRequest? {
      var t := m.args.term;
      CoveredExtend(n, h.acks, h'.acks, h.reigns, h'.reigns, h.reigns[t].log, h'.reigns[t].log,
                    m.args.leaderCommit, t, t);
    }
  }

  lemma CompleteSafe(s: Cluster, i: int, e: Effect, send: bool)
    requires Inv(s) && SafeInv(s) && 0 <= i < s.n && Fits(s.n, e.node) && s.nodes[i].me == i
    requires SafeEffect(s, i, e)
    requires forall b :: b in e.hist.ballots ==> BallotsSafe(s, i, e, b)
    requires forall m :: m in s.msgs + e.sent && m.VoteRequest? ==> RequestSafe(s, i, e, m)
    ensures SafeInv(Complete(s, i, e, send))
  {
    var s' := Complete(s, i, e, send);
    forall j | 0 <= j < s.n ensures NodeSafe(s.n, e.hist.acks, e.hist.reigns, s'.nodes[j]) {
      if j != i {
        assert NodeInv(s.n, s.hist, j, s.nodes[j]);
        NodeSafeExtends(s.n, s.hist, e.hist, s.nodes[j]);
      }
    }
    forall m | m in s'.msgs ensures ArgsCovered(s.n, e.hist.acks, e.hist.reigns, m) {
      if m in s.msgs {
        ArgsCoveredExtends(s.n, s.hist, e.hist, m);
      }
    }
    assert BallotsKept(s') by {
      forall b | b in e.hist.ballots ensures BallotsSafe(s, i, e, b) {}
    }
    assert RequestsFit(s');
  }

  /** Events that cast no ballot and start no election. */
  lemma CandidatesStay(s: Cluster, i: int, e: Effect)
    requires Sized(s) && HistInv(s.n, s.hist) && BallotsOk(s) && BallotsKept(s) && RequestsFit(s)
    requires 0 <= i < s.n && s.nodes[i].me == i
    requires Extends(s.hist.reigns, e.hist.reigns) && AcksFrom(s.hist, s.nodes[i], e)
    requires e.hist.ballots == s.hist.ballots && forall m :: m in e.sent ==> !m.VoteRequest?
    requires StillRunning(s.hist.reigns, e.hist.reigns, s.nodes[i], e.node)
    ensures forall b :: b in e.hist.ballots ==> BallotsSafe(s, i, e, b)
    ensures forall m :: m in s.msgs + e.sent && m.VoteRequest? ==> RequestSafe(s, i, e, m)
  {
    forall b | b in e.hist.ballots ensures BallotsSafe(s, i, e, b) {
      BallotStays(s, i, e, b);
    }
    forall m | m in s.msgs && m.VoteRequest? ensures RequestSafe(s, i, e, m) {
      RequestStays(s, i, e, m);
    }
  }

  lemma BallotStays(s: Cluster, i: int, e: Effect, b: Ballot)
    requires Sized(s) && HistInv(s.n, s.hist) && BallotsOk(s) && BallotsKept(s)
    requires 0 <= i < s.n && s.nodes[i].me == i
    requires Extends(s.hist.reigns, e.hist.reigns) && AcksFrom(s.hist, s.nodes[i], e)
    requires forall k :: k in s.hist.ballots ==> k in e.hist.ballots && e.hist.ballots[k] == s.hist.ballots[k]
    requires b in s.hist.ballots
    requires s.hist.ballots[b] == i ==> StillRunning(s.hist.reigns, e.hist.reigns, s.nodes[i], e.node)
    ensures BallotsSafe(s, i, e, b)
  {
    var c := s.hist.ballots[b];
    if c != i {
      SameRunning(s.hist.reigns, e.hist.reigns, s.nodes[c]);
    }
    BallotKeptExtends(s, s.nodes[i], e, b, s.nodes[c], s.nodes[i := e.node][c]);
  }

  lemma RequestStays(s: Cluster, i: int, e: Effect, m: Message)
    requires Sized(s) && RequestsFit(s) && 0 <= i < s.n
    requires Extends(s.hist.reigns, e.hist.reigns)
    requires m in s.msgs && m.VoteRequest?
    requires m.candidate == i ==> StillRunning(s.hist.reigns, e.hist.reigns, s.nodes[i], e.node)
    ensures RequestSafe(s, i, e, m)
  {
    var c := m.candidate;
    if c != i {
      SameRunning(s.hist.reigns, e.hist.reigns, s.nodes[c]);
    }
    var y := s.nodes[i := e.node][c];
    if Running(e.hist.reigns, y, m.term) {
      assert Running(s.hist.reigns, s.nodes[c], m.term) && y.logs == s.nodes[c].logs;
    }
  }
}
