/** What holds in every state of every run, conforming or not. */
module Invariants {
  import opened RaftTypes
  import opened Cluster
  import opened Majorities

  /** The leader of e.term appended e at e.index. */
  predicate Known(g: Reigns, e: Entry) {
    && e.term in g
    && 1 <= e.index <= |g[e.term].log|
    && g[e.term].log[e.index - 1] == e
  }

  predicate KnownLog(g: Reigns, log: seq<Entry>) {
    forall k :: 0 <= k < |log| ==> Known(g, log[k])
  }

  predicate VotedFor(b: Ballots, voter: int, term: int, candidate: int) {
    Ballot(voter, term) in b && b[Ballot(voter, term)] == candidate
  }

  /** The node still honours its vote for c in term t, or has moved past t. */
  predicate Honours(x: Node, t: int, c: int) {
    x.currentTerm > t || (x.currentTerm == t && x.votedFor == c)
  }

  // ---------------------------------------------------------------- one node

  predicate CountersOk(x: Node) {
    && 0 <= x.lastApplied <= x.commitIndex <= |x.logs|
    && |x.applied| == x.lastApplied
    && forall k :: 0 <= k < |x.applied| ==> x.applied[k].index == k + 1
  }

  predicate ShapeOk(n: nat, i: int, x: Node) {
    && x.me == i && x.peers == n
    && x.snapIndex == 0 && x.snapTerm == 0
    && Fits(n, x)
    && Indexed(0, x.logs)
    && 0 <= x.currentTerm && -1 <= x.votedFor < n
    && (forall k :: 0 <= k < |x.logs| ==> 1 <= x.logs[k].term <= x.currentTerm)
    && CountersOk(x)
  }

  predicate ElectionOk(n: nat, b: Ballots, g: Reigns, x: Node) {
    && (x.status != Follower ==>
          x.election.Election? && x.election.term == x.currentTerm)
    && (x.election.Election? ==>
          var e := x.election;
          && 1 <= e.term <= x.currentTerm
          && (forall p :: p in e.answered ==> 0 <= p < n && p != x.me)
          && e.granted <= e.answered
          && VotedFor(b, x.me, e.term, x.me)
          && (forall p :: p in e.granted ==> VotedFor(b, p, e.term, x.me))
          && (e.term == x.currentTerm ==>
                && x.votedFor == x.me
                && e.votes == (if x.status == Leader then |e.granted| + 1 - Quorum(n) else |e.granted| + 1)
                && (x.status != Leader && n >= 2 ==> |e.granted| + 1 < Quorum(n))
                && (e.term in g && g[e.term].leader == x.me ==> x.status == Leader)))
  }

  predicate LeaderOk(n: nat, g: Reigns, x: Node) {
    x.status == Leader ==>
      && x.currentTerm in g
      && g[x.currentTerm].leader == x.me
      && g[x.currentTerm].log == x.logs
      && x.batchRunning
      && |x.nextIndex| == |x.matchIndex| == n
      && (forall p :: 0 <= p < n ==> 1 <= x.nextIndex[p] <= |x.logs| + 1)
      && (forall p :: 0 <= p < n ==> 0 <= x.matchIndex[p] <= |x.logs|)
  }

  /** A peer's buffer while the first leadership of this process lasts: the tail of the leader's
      log, all of it appended in the current term. */
  predicate Tail(x: Node, pending: seq<Entry>) {
    && |pending| <= |x.logs|
    && pending == x.logs[|x.logs| - |pending|..]
    && forall k :: 0 <= k < |pending| ==> pending[k].term == x.currentTerm
  }

  predicate PendingOk(g: Reigns, x: Node) {
    && (forall p :: 0 <= p < |x.pending| ==> KnownLog(g, x.pending[p]))
    && (!x.batchRunning ==> !x.senderAlive && forall p :: 0 <= p < |x.pending| ==> x.pending[p] == [])
    && (x.status == Leader && x.senderAlive ==>
          forall p :: 0 <= p < |x.pending| && p != x.me ==> Tail(x, x.pending[p]))
  }

  predicate NodeInv(n: nat, h: History, i: int, x: Node) {
    && ShapeOk(n, i, x)
    && ElectionOk(n, h.ballots, h.reigns, x)
    && LeaderOk(n, h.reigns, x)
    && KnownLog(h.reigns, x.logs)
    && PendingOk(h.reigns, x)
  }

  // ---------------------------------------------------------------- messages

  function TermBefore(log: seq<Entry>, prev: int): int
    requires 0 <= prev <= |log|
  {
    if prev == 0 then 0 else log[prev - 1].term
  }

  /** AppendEntries arguments describe a stretch of their leader's log; a non-empty batch
      carries entries of the leader's own term only. */
  predicate ArgsOk(n: nat, g: Reigns, a: AppendArgs) {
    && a.term in g && a.leaderId == g[a.term].leader && 0 <= a.leaderId < n
    && var log := g[a.term].log;
       && 0 <= a.prevIndex && a.prevIndex + |a.entries| <= |log|
       && a.entries == log[a.prevIndex..a.prevIndex + |a.entries|]
       && a.prevTerm == TermBefore(log, a.prevIndex)
       && (forall k :: 0 <= k < |a.entries| ==> a.entries[k].term == a.term)
       && 0 <= a.leaderCommit <= |log|
  }

  predicate MsgInv(n: nat, b: Ballots, g: Reigns, m: Message) {
    match m
    case VoteRequest(term, candidate, _, _) =>
      0 <= candidate < n && 1 <= term && VotedFor(b, candidate, term, candidate)
    case VoteReply(from, to, asked, term, granted) =>
      && 0 <= from < n && 0 <= to < n && from != to
      && (granted ==> term == asked && VotedFor(b, from, asked, to))
    case AppendRequest(to, a) =>
      0 <= to < n && ArgsOk(n, g, a) && to != a.leaderId
    case AppendResponse(from, a, r) =>
      && 0 <= from < n && ArgsOk(n, g, a) && from != a.leaderId
      && (r.success ==> r.term == a.term)
      && (!r.success && r.updateNextIndex != NO_BACKOFF ==>
            r.term == a.term && 1 <= r.updateNextIndex <= a.prevIndex)
  }

  // ---------------------------------------------------------------- history

  predicate ReignOk(n: nat, wins: set<Win>, b: Ballots, g: Reigns, t: int)
    requires t in g
  {
    var r := g[t];
    && 1 <= t
    && Win(t, r.leader) in wins
    && r.leader in r.voters
    && r.voters <= Ids(n) && |r.voters| >= Quorum(n)
    && (forall v :: v in r.voters ==> VotedFor(b, v, t, r.leader))
    && Indexed(0, r.log)
    && (forall k :: 0 <= k < |r.log| ==> 1 <= r.log[k].term <= t)
    && KnownLog(g, r.log)
  }

  predicate AckOk(n: nat, g: Reigns, k: Ack) {
    && 0 <= k.node < n
    && k.term in g
    && 1 <= k.index <= |g[k.term].log|
    && g[k.term].log[k.index - 1].term == k.term
  }

  predicate HistInv(n: nat, h: History) {
    && (forall w :: w in h.wins ==> w.term in h.reigns && h.reigns[w.term].leader == w.node)
    && (forall t :: t in h.reigns ==> ReignOk(n, h.wins, h.ballots, h.reigns, t))
    && (forall k :: k in h.acks ==> AckOk(n, h.reigns, k))
  }

  // ---------------------------------------------------------------- the cluster

  predicate BallotsOk(s: Cluster)
    requires Sized(s)
  {
    forall b :: b in s.hist.ballots ==>
      && 0 <= b.voter < s.n && 0 <= s.hist.ballots[b] < s.n
      && Honours(s.nodes[b.voter], b.term, s.hist.ballots[b])
  }

  predicate Inv(s: Cluster) {
    && Sized(s)
    && (forall i :: 0 <= i < s.n ==> NodeInv(s.n, s.hist, i, s.nodes[i]))
    && (forall i :: 0 <= i < s.n ==> s.disks[i] == PersistData(s.nodes[i]))
    && (forall m :: m in s.msgs ==> MsgInv(s.n, s.hist.ballots, s.hist.reigns, m))
    && HistInv(s.n, s.hist)
    && BallotsOk(s)
  }

  // ---------------------------------------------------------------- growth of history

  predicate ReignGrows(r: Reign, r': Reign) {
    r'.leader == r.leader && r'.voters == r.voters && r.log <= r'.log
  }

  /** History only grows. */
  predicate Grows(h: History, h': History) {
    && h.wins <= h'.wins
    && h.acks <= h'.acks
    && (forall b :: b in h.ballots ==> b in h'.ballots && h'.ballots[b] == h.ballots[b])
    && (forall t :: t in h.reigns ==> t in h'.reigns && ReignGrows(h.reigns[t], h'.reigns[t]))
  }

  /** And node i adds only to its own reigns. */
  predicate GrowsBy(i: int, h: History, h': History) {
    && Grows(h, h')
    && (forall t :: t in h.reigns && h.reigns[t].leader != i ==> h'.reigns[t] == h.reigns[t])
    && (forall t :: t in h'.reigns && t !in h.reigns ==> h'.reigns[t].leader == i)
  }

  /** A node never goes back to an older term, nor changes its vote within a term. */
  predicate Evolves(x: Node, y: Node) {
    || y.currentTerm > x.currentTerm
    || (y.currentTerm == x.currentTerm && (x.votedFor == -1 || y.votedFor == x.votedFor))
  }

  /** Every ballot that the effect adds is cast by node i, and node i honours it. */
  predicate NewBallotsOk(n: nat, i: int, h: History, e: Effect) {
    forall b :: b in e.hist.ballots && b !in h.ballots ==>
      b.voter == i && 0 <= e.hist.ballots[b] < n && Honours(e.node, b.term, e.hist.ballots[b])
  }

  /** What has to be shown of one event at node x. */
  predicate Sound(n: nat, h: History, x: Node, e: Effect) {
    && NodeInv(n, e.hist, x.me, e.node)
    && (forall m :: m in e.sent ==> MsgInv(n, e.hist.ballots, e.hist.reigns, m))
    && HistInv(n, e.hist)
    && GrowsBy(x.me, h, e.hist)
    && Evolves(x, e.node)
    && NewBallotsOk(n, x.me, h, e)
    && (!e.persisted ==> PersistData(e.node) == PersistData(x))
  }

  lemma GrowsRefl(i: int, h: History)
    ensures Grows(h, h) && GrowsBy(i, h, h)
  {
  }

  lemma KnownGrows(i: int, h: History, h': History, log: seq<Entry>)
    requires GrowsBy(i, h, h') && KnownLog(h.reigns, log)
    ensures KnownLog(h'.reigns, log)
  {
    forall k | 0 <= k < |log| ensures Known(h'.reigns, log[k]) {
      assert Known(h.reigns, log[k]);
      assert ReignGrows(h.reigns[log[k].term], h'.reigns[log[k].term]);
    }
  }

  lemma ReignOkGrows(n: nat, i: int, h: History, h': History, t: int)
    requires GrowsBy(i, h, h') && t in h.reigns && h'.reigns[t] == h.reigns[t]
    requires ReignOk(n, h.wins, h.ballots, h.reigns, t)
    ensures ReignOk(n, h'.wins, h'.ballots, h'.reigns, t)
  {
    KnownGrows(i, h, h', h.reigns[t].log);
  }

  lemma NodeInvGrows(n: nat, i: int, h: History, h': History, j: int, x: Node)
    requires GrowsBy(i, h, h') && j != i && NodeInv(n, h, j, x)
    ensures NodeInv(n, h', j, x)
  {
    KnownGrows(i, h, h', x.logs);
    forall p | 0 <= p < |x.pending| ensures KnownLog(h'.reigns, x.pending[p]) {
      KnownGrows(i, h, h', x.pending[p]);
    }
  }

  lemma ArgsOkGrows(n: nat, i: int, h: History, h': History, a: AppendArgs)
    requires GrowsBy(i, h, h') && ArgsOk(n, h.reigns, a)
    ensures ArgsOk(n, h'.reigns, a)
  {
    var l, l' := h.reigns[a.term].log, h'.reigns[a.term].log;
    assert ReignGrows(h.reigns[a.term], h'.reigns[a.term]);
    assert l == l'[..|l|];
    assert l[a.prevIndex..a.prevIndex + |a.entries|] == l'[a.prevIndex..a.prevIndex + |a.entries|];
  }

  lemma MsgInvGrows(n: nat, i: int, h: History, h': History, m: Message)
    requires GrowsBy(i, h, h') && MsgInv(n, h.ballots, h.reigns, m)
    ensures MsgInv(n, h'.ballots, h'.reigns, m)
  {
    match m
    case AppendRequest(_, a) => ArgsOkGrows(n, i, h, h', a);
    case AppendResponse(_, a, _) => ArgsOkGrows(n, i, h, h', a);
    case _ =>
  }

  /** A sound effect keeps the invariant, whether or not its messages get out. */
  lemma CompleteKeeps(s: Cluster, i: int, e: Effect, send: bool)
    requires Inv(s) && 0 <= i < s.n && Sound(s.n, s.hist, s.nodes[i], e)
    ensures Inv(Complete(s, i, e, send))
  {
    var s' := Complete(s, i, e, send);
    forall j | 0 <= j < s.n ensures NodeInv(s'.n, s'.hist, j, s'.nodes[j]) {
      if j != i {
        NodeInvGrows(s.n, i, s.hist, e.hist, j, s.nodes[j]);
      }
    }
    forall m | m in s'.msgs ensures MsgInv(s'.n, s'.hist.ballots, s'.hist.reigns, m) {
      if m in s.msgs {
        MsgInvGrows(s.n, i, s.hist, e.hist, m);
      }
    }
  }

  lemma LoadedIsSaved(x: Node)
    requires Indexed(0, x.logs)
    ensures LoadedLog(0, SavedLog(x.logs)) == x.logs
  {
  }

  /** A restart keeps the invariant: term, vote and log come back, the rest starts over. */
  lemma RebootKeeps(s: Cluster, i: int)
    requires Inv(s) && 0 <= i < s.n
    ensures Inv(Reboot(s, i))
  {
    var s' := Reboot(s, i);
    LoadedIsSaved(s.nodes[i]);
    assert s'.nodes[i].logs == s.nodes[i].logs;
    assert NodeInv(s.n, s.hist, i, s'.nodes[i]);
  }

  lemma InitHolds(n: nat)
    ensures Inv(Init(n))
  {
  }
}
