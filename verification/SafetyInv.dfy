/** What holds in every state of every conforming run (Raft sections 5.3 and 5.4.3). */
module SafetyInv {
  import opened RaftTypes
  import opened Cluster
  import opened Majorities
  import opened Invariants

  // ---------------------------------------------------------------- log matching

  /** Up to each of its entries the log is the log of the leader that created the entry. */
  ghost predicate Traces(g: Reigns, log: seq<Entry>) {
    forall k :: 0 <= k < |log| ==> TraceAt(g, log, k)
  }

  ghost predicate TraceAt(g: Reigns, log: seq<Entry>, k: int)
    requires 0 <= k < |log|
  {
    && log[k].term in g
    && k < |g[log[k].term].log|
    && log[..k + 1] == g[log[k].term].log[..k + 1]
  }

  ghost predicate Nondecreasing(log: seq<Entry>) {
    forall j, k :: 0 <= j <= k < |log| ==> log[j].term <= log[k].term
  }

  ghost predicate ReignsTrace(g: Reigns) {
    forall t :: t in g ==> Traces(g, g[t].log) && Nondecreasing(g[t].log)
  }

  // ---------------------------------------------------------------- acknowledged prefixes

  /** The log holds everything that acknowledgement k covers. */
  ghost predicate Holds(g: Reigns, k: Ack, log: seq<Entry>) {
    && k.term in g
    && 0 <= k.index <= |g[k.term].log| && k.index <= |log|
    && log[..k.index] == g[k.term].log[..k.index]
  }

  /** Some leader after k.term, up to term `bound`, lacks what k covers. */
  ghost predicate Lost(g: Reigns, k: Ack, bound: int) {
    exists u :: u in g && k.term < u <= bound && !Holds(g, k, g[u].log)
  }

  ghost predicate Kept(g: Reigns, k: Ack, log: seq<Entry>, bound: int) {
    Holds(g, k, log) || Lost(g, k, bound)
  }

  /** A node keeps what it acknowledged. */
  ghost predicate AcksKept(acks: set<Ack>, g: Reigns, x: Node) {
    forall k :: k in acks && k.node == x.me ==> k.term <= x.currentTerm && Kept(g, k, x.logs, x.currentTerm)
  }

  /** x is running for the term of ballot b, and nobody has won that term. */
  ghost predicate Running(g: Reigns, x: Node, term: int) {
    x.election.Election? && x.election.term == x.currentTerm == term && term !in g
  }

  /** Whoever voted for a running candidate handed on what it had acknowledged before. */
  ghost predicate BallotKept(acks: set<Ack>, g: Reigns, b: Ballot, x: Node) {
    Running(g, x, b.term) ==>
      forall k :: k in acks && k.node == b.voter && k.term < b.term ==> Kept(g, k, x.logs, b.term - 1)
  }

  ghost predicate BallotsKept(s: Cluster)
    requires Sized(s)
  {
    forall b :: b in s.hist.ballots ==>
      var c := s.hist.ballots[b];
      && 0 <= c < s.n && VotedFor(s.hist.ballots, c, b.term, c)
      && BallotKept(s.hist.acks, s.hist.reigns, b, s.nodes[c])
  }

  /** While a candidate runs, its vote requests describe its log. */
  ghost predicate RequestFits(g: Reigns, m: Message, x: Node)
    requires m.VoteRequest?
  {
    Running(g, x, m.term) ==> m.lastIndex == |x.logs| && m.lastTerm == TermBefore(x.logs, |x.logs|)
  }

  ghost predicate RequestsFit(s: Cluster)
    requires Sized(s)
  {
    forall m :: m in s.msgs && m.VoteRequest? ==>
      0 <= m.candidate < s.n && RequestFits(s.hist.reigns, m, s.nodes[m.candidate])
  }

  /** The voters of a leader handed on what they had acknowledged before. */
  ghost predicate ReignKept(acks: set<Ack>, g: Reigns, t: int)
    requires t in g
  {
    forall k :: k in acks && k.node in g[t].voters && k.term < t ==> Kept(g, k, g[t].log, t - 1)
  }

  ghost predicate ReignsKept(acks: set<Ack>, g: Reigns) {
    forall t :: t in g ==> ReignKept(acks, g, t)
  }

  // ---------------------------------------------------------------- commitment

  function Ackers(acks: set<Ack>, term: int, index: int): set<int> {
    set k | k in acks && k.term == term && k.index == index :: k.node
  }

  /** Section 5.4.2: a majority holds the entry at `index`, and the leader of `term` created it
      in its own term. */
  ghost predicate Chosen(n: nat, acks: set<Ack>, term: int, index: int) {
    |Ackers(acks, term, index)| >= Quorum(n)
  }

  /** The first c entries of the log are covered by a chosen entry of a term up to `bound`. */
  ghost predicate Covered(n: nat, acks: set<Ack>, g: Reigns, log: seq<Entry>, c: int, bound: int) {
    c <= 0 || exists t, k :: Chosen(n, acks, t, k) && CoveredBy(g, log, c, bound, t, k)
  }

  ghost predicate CoveredBy(g: Reigns, log: seq<Entry>, c: int, bound: int, t: int, k: int) {
    && t in g && t <= bound && 0 <= c <= k <= |g[t].log| && c <= |log|
    && log[..c] == g[t].log[..c]
  }

  ghost predicate CommitCovered(n: nat, acks: set<Ack>, g: Reigns, x: Node) {
    && Covered(n, acks, g, x.logs, x.commitIndex, x.currentTerm)
    && |x.applied| <= x.commitIndex <= |x.logs|
    && forall j :: 0 <= j < |x.applied| ==> x.applied[j] == ApplyMsg(j + 1, x.logs[j].command)
  }

  ghost predicate ArgsCovered(n: nat, acks: set<Ack>, g: Reigns, m: Message) {
    m.AppendRequest? ==>
      m.args.term in g && Covered(n, acks, g, g[m.args.term].log, m.args.leaderCommit, m.args.term)
  }

  // ---------------------------------------------------------------- the cluster

  ghost predicate NodeSafe(n: nat, acks: set<Ack>, g: Reigns, x: Node) {
    && Traces(g, x.logs)
    && AcksKept(acks, g, x)
    && CommitCovered(n, acks, g, x)
  }

  ghost predicate SafeInv(s: Cluster)
    requires Sized(s)
  {
    && (forall i :: 0 <= i < s.n ==> NodeSafe(s.n, s.hist.acks, s.hist.reigns, s.nodes[i]))
    && ReignsTrace(s.hist.reigns)
    && BallotsKept(s)
    && RequestsFit(s)
    && ReignsKept(s.hist.acks, s.hist.reigns)
    && (forall m :: m in s.msgs ==> ArgsCovered(s.n, s.hist.acks, s.hist.reigns, m))
  }

  // ---------------------------------------------------------------- leader completeness

  /** Leader Completeness: every leader of a later term holds everything that was chosen. */
  lemma {:induction false} ChosenInLaterLeaders(n: nat, h: History, term: int, index: int, later: int)
    requires HistInv(n, h) && ReignsKept(h.acks, h.reigns)
    requires Chosen(n, h.acks, term, index) && later in h.reigns && term < later
    ensures Holds(h.reigns, Ack(0, term, index), h.reigns[later].log)
    decreases later - term
  {
    var ackers := Ackers(h.acks, term, index);
    forall v | v in ackers ensures 0 <= v < n {
      assert Ack(v, term, index) in h.acks;
    }
    assert ReignOk(n, h.wins, h.ballots, h.reigns, later);
    var v := Overlap(n, ackers, h.reigns[later].voters);
    var k := Ack(v, term, index);
    assert ReignKept(h.acks, h.reigns, later);
    assert Kept(h.reigns, k, h.reigns[later].log, later - 1);
    assert AckOk(n, h.reigns, k);
    forall u | u in h.reigns && term < u < later
      ensures Holds(h.reigns, k, h.reigns[u].log)
    {
      ChosenInLaterLeaders(n, h, term, index, u);
    }
  }

  ghost predicate LeadersComplete(n: nat, acks: set<Ack>, g: Reigns) {
    forall t, k, u :: Chosen(n, acks, t, k) && u in g && t < u ==> Holds(g, Ack(0, t, k), g[u].log)
  }

  lemma LeaderCompleteness(n: nat, h: History)
    requires HistInv(n, h) && ReignsKept(h.acks, h.reigns)
    ensures LeadersComplete(n, h.acks, h.reigns)
  {
    forall t, k, u | Chosen(n, h.acks, t, k) && u in h.reigns && t < u
      ensures Holds(h.reigns, Ack(0, t, k), h.reigns[u].log)
    {
      ChosenInLaterLeaders(n, h, t, k, u);
    }
  }
}
