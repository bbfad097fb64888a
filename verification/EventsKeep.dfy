/** Every event is sound, so every run keeps the invariant. */
module EventsKeep {
  import opened Bytes
  import opened RaftTypes
  import opened RaftHandlers
  import opened Cluster
  import opened Majorities
  import opened Invariants
  import opened Receiver

  /** New ballots leave the reigns, and what is known about them, alone. */
  lemma BallotsGrow(n: nat, i: int, h: History, b: Ballot, c: int)
    requires HistInv(n, h) && (b in h.ballots ==> h.ballots[b] == c)
    ensures
      var h' := h.(ballots := h.ballots[b := c]);
      HistInv(n, h') && GrowsBy(i, h, h')
  {
    var h' := h.(ballots := h.ballots[b := c]);
    forall t | t in h'.reigns ensures ReignOk(n, h'.wins, h'.ballots, h'.reigns, t) {
      assert ReignOk(n, h.wins, h.ballots, h.reigns, t);
    }
  }

  /** y is x with another term, vote, role or election, and not a leader. */
  predicate Relabelled(x: Node, y: Node) {
    && y == x.(currentTerm := y.currentTerm, votedFor := y.votedFor, status := y.status, election := y.election)
    && y.status != Leader
    && x.currentTerm <= y.currentTerm
  }

  lemma RelabelledKeeps(n: nat, g: Reigns, x: Node, y: Node)
    requires ShapeOk(n, x.me, x) && KnownLog(g, x.logs) && PendingOk(g, x)
    requires Relabelled(x, y) && -1 <= y.votedFor < n
    ensures ShapeOk(n, x.me, y) && LeaderOk(n, g, y) && KnownLog(g, y.logs) && PendingOk(g, y)
  {
  }

  lemma ElectSound(n: nat, h: History, x: Node)
    requires NodeInv(n, h, x.me, x) && HistInv(n, h) && x.status != Leader && 0 <= x.me < n
    requires Ballot(x.me, x.currentTerm + 1) !in h.ballots
    ensures Sound(n, h, x, RunElect(x, h))
  {
    var e := RunElect(x, h);
    var b := Ballot(x.me, x.currentTerm + 1);
    assert b.term in h.reigns ==> ReignOk(n, h.wins, h.ballots, h.reigns, b.term);
    BallotsGrow(n, x.me, h, b, x.me);
    RelabelledKeeps(n, e.hist.reigns, x, e.node);
    assert ElectionOk(n, e.hist.ballots, e.hist.reigns, e.node);
    hide HistInv, GrowsBy, ElectionOk, LeaderOk, PendingOk, KnownLog, ShapeOk;
  }

  /** An effect without messages or history. */
  lemma QuietSound(n: nat, h: History, x: Node, y: Node, persisted: bool)
    requires HistInv(n, h) && NodeInv(n, h, x.me, y) && Evolves(x, y)
    requires !persisted ==> PersistData(y) == PersistData(x)
    ensures Sound(n, h, x, Effect(y, {}, persisted, h))
  {
  }

  /** Sending one more well-formed message is sound. */
  lemma SentSound(n: nat, h: History, x: Node, e: Effect, m: Message)
    requires Sound(n, h, x, e) && MsgInv(n, e.hist.ballots, e.hist.reigns, m)
    ensures Sound(n, h, x, e.(sent := {m} + e.sent))
  {
  }

  /** What RequestVote1 does to the node: nothing, or a newer term, or a first vote. */
  lemma VoteRequestNode(n: nat, h: History, x: Node, m: Message)
    requires NodeInv(n, h, x.me, x) && 0 <= x.me < n
    requires m.VoteRequest? && MsgInv(n, h.ballots, h.reigns, m) && m.candidate != x.me
    ensures
      var r := RequestVote(x, m.term, m.candidate, m.lastIndex, m.lastTerm);
      && Evolves(x, r.node)
      && (r.node == x || Relabelled(x, r.node))
      && (r.granted ==> r.term == m.term && Honours(r.node, m.term, m.candidate))
      && -1 <= r.node.votedFor < n
      && r.node.election == x.election
      && (r.node.currentTerm == x.currentTerm ==> r.node.status == x.status)
      && (r.node.currentTerm > x.currentTerm ==> r.node.status == Follower)
  {
  }

  /** Moving to a newer term, or casting a first vote, leaves a running election alone. */
  lemma ElectionKeeps(n: nat, b: Ballots, b': Ballots, g: Reigns, x: Node, y: Node)
    requires ElectionOk(n, b, g, x) && 0 <= x.me && Evolves(x, y) && y.me == x.me && y.election == x.election
    requires y.currentTerm == x.currentTerm ==>
               (y.status == Leader <==> x.status == Leader) && (y.status == Candidate ==> x.status == Candidate)
    requires y.currentTerm > x.currentTerm ==> y.status == Follower
    requires forall k :: k in b ==> k in b' && b'[k] == b[k]
    ensures ElectionOk(n, b', g, y)
  {
  }

  lemma VoteEffectSound(n: nat, h: History, x: Node, m: Message, r: VoteResult)
    requires HistInv(n, h) && 0 <= x.me < n
    requires m.VoteRequest? && MsgInv(n, h.ballots, h.reigns, m) && m.candidate != x.me
    requires NodeInv(n, h, x.me, r.node) && Evolves(x, r.node)
    requires r.granted ==> r.term == m.term && Honours(r.node, m.term, m.candidate)
    requires
      var b := Ballot(x.me, m.term);
      r.granted && b in h.ballots ==> h.ballots[b] == m.candidate
    ensures Sound(n, h, x, VoteEffect(x.me, h, m, r))
  {
    var e := VoteEffect(x.me, h, m, r);
    if r.granted {
      BallotsGrow(n, x.me, h, Ballot(x.me, m.term), m.candidate);
    } else {
      GrowsRefl(x.me, h);
    }
    assert HistInv(n, e.hist) && GrowsBy(x.me, h, e.hist) && e.hist.reigns == h.reigns;
    ElectionKeeps(n, h.ballots, e.hist.ballots, h.reigns, r.node, r.node);
  }

  lemma VoteRequestSound(n: nat, h: History, x: Node, m: Message)
    requires NodeInv(n, h, x.me, x) && HistInv(n, h) && 0 <= x.me < n
    requires m.VoteRequest? && MsgInv(n, h.ballots, h.reigns, m) && m.candidate != x.me
    requires
      var b := Ballot(x.me, m.term);
      b in h.ballots ==> 0 <= h.ballots[b] && Honours(x, b.term, h.ballots[b])
    ensures Sound(n, h, x, RunVoteRequest(x, h, m))
  {
    var r := RequestVote(x, m.term, m.candidate, m.lastIndex, m.lastTerm);
    VoteRequestNode(n, h, x, m);
    ElectionKeeps(n, h.ballots, h.ballots, h.reigns, x, r.node);
    if r.node != x {
      RelabelledKeeps(n, h.reigns, x, r.node);
    }
    VoteEffectSound(n, h, x, m, r);
  }

  // ---------------------------------------------------------------- vote replies

  /** The counter and the set of granting peers after a vote reply has been counted. */
  lemma GrantedSize(n: nat, x: Node, from: int)
    requires x.election.Election? && 0 <= x.me < n && 0 <= from < n
    requires forall p :: p in x.election.answered ==> 0 <= p < n && p != x.me
    requires x.election.granted <= x.election.answered && from !in x.election.answered && from != x.me
    ensures
      var g := x.election.granted + {from};
      && |g| == |x.election.granted| + 1
      && |g + {x.me}| == |g| + 1 <= n
      && g + {x.me} <= Ids(n)
  {
    var g := x.election.granted + {from};
    SubsetSize(g + {x.me}, Ids(n));
  }

  lemma StepDownSound(n: nat, h: History, x: Node, y: Node, term: int)
    requires NodeInv(n, h, x.me, x) && HistInv(n, h) && term > x.currentTerm
    requires y == StepDown(x.(election := y.election), term)
    requires y.election == x.election ||
             (x.election.Election? && y.election.Election?
              && y.election == x.election.(answered := y.election.answered)
              && x.election.answered <= y.election.answered
              && forall p :: p in y.election.answered ==> 0 <= p < n && p != x.me)
    ensures Sound(n, h, x, Effect(y, {}, true, h))
  {
    RelabelledKeeps(n, h.reigns, x, y);
  }

  /** Two majorities cannot both have voted in one term for different candidates. */
  lemma TermUntaken(n: nat, h: History, x: Node, voters: set<int>)
    requires NodeInv(n, h, x.me, x) && HistInv(n, h)
    requires x.election.Election? && x.election.term == x.currentTerm && x.status != Leader
    requires voters <= Ids(n) && |voters| >= Quorum(n)
    requires forall v :: v in voters ==> VotedFor(h.ballots, v, x.currentTerm, x.me)
    ensures x.currentTerm !in h.reigns
  {
    var t := x.currentTerm;
    if t in h.reigns {
      assert ReignOk(n, h.wins, h.ballots, h.reigns, t);
      var v := Overlap(n, voters, h.reigns[t].voters);
      assert false;
    }
  }

  /** A reign more for a term that had none leaves the others, and all that is known, alone. */
  lemma ReignAdded(n: nat, h: History, t: int, r: Reign)
    requires t !in h.reigns
    ensures GrowsBy(r.leader, h, h.(wins := h.wins + {Win(t, r.leader)}, reigns := h.reigns[t := r]))
  {
  }

  lemma NewReignOk(n: nat, h: History, h': History, t: int, r: Reign)
    requires HistInv(n, h) && GrowsBy(r.leader, h, h') && t !in h.reigns
    requires h' == h.(wins := h.wins + {Win(t, r.leader)}, reigns := h.reigns[t := r])
    requires ReignOk(n, h'.wins, h'.ballots, h'.reigns, t)
    ensures HistInv(n, h')
  {
    forall u | u in h'.reigns ensures ReignOk(n, h'.wins, h'.ballots, h'.reigns, u) {
      if u != t {
        ReignOkGrows(n, r.leader, h, h', u);
      }
    }
    hide ReignOk;
    forall k | k in h'.acks ensures AckOk(n, h'.reigns, k) {
      assert AckOk(n, h.reigns, k);
    }
  }

  /** A majority of ballots for x in its term starts a reign that did not exist. */
  lemma NewReign(n: nat, h: History, x: Node, voters: set<int>)
    requires NodeInv(n, h, x.me, x) && HistInv(n, h)
    requires x.election.Election? && x.election.term == x.currentTerm && x.status != Leader
    requires x.me in voters && voters <= Ids(n) && |voters| >= Quorum(n)
    requires forall v :: v in voters ==> VotedFor(h.ballots, v, x.currentTerm, x.me)
    ensures x.currentTerm !in h.reigns
    ensures
      var h' := h.(wins := h.wins + {Win(x.currentTerm, x.me)},
                   reigns := h.reigns[x.currentTerm := Reign(x.me, voters, x.logs)]);
      HistInv(n, h') && GrowsBy(x.me, h, h') && KnownLog(h'.reigns, x.logs)
      && forall p :: 0 <= p < |x.pending| ==> KnownLog(h'.reigns, x.pending[p])
  {
    TermUntaken(n, h, x, voters);
    var t, r := x.currentTerm, Reign(x.me, voters, x.logs);
    var h' := h.(wins := h.wins + {Win(t, x.me)}, reigns := h.reigns[t := r]);
    ReignAdded(n, h, t, r);
    KnownGrows(x.me, h, h', x.logs);
    forall p | 0 <= p < |x.pending| ensures KnownLog(h'.reigns, x.pending[p]) {
      KnownGrows(x.me, h, h', x.pending[p]);
    }
    assert ReignOk(n, h'.wins, h'.ballots, h'.reigns, t) by { hide HistInv, GrowsBy; }
    hide NodeInv, ReignOk, GrowsBy, KnownLog;
    NewReignOk(n, h, h', t, r);
  }

  function Answered(x: Node, from: int): Node
    requires x.election.Election?
  {
    x.(election := x.election.(answered := x.election.answered + {from}))
  }

  function Granted(x: Node, from: int, votes: int): Node
    requires x.election.Election?
  {
    x.(election := x.election.(answered := x.election.answered + {from},
                               granted := x.election.granted + {from}, votes := votes))
  }

  lemma AnsweredOk(n: nat, h: History, x: Node, from: int)
    requires NodeInv(n, h, x.me, x) && x.election.Election? && 0 <= from < n && from != x.me
    ensures NodeInv(n, h, x.me, Answered(x, from))
  {
  }

  lemma GrantedElection(n: nat, h: History, x: Node, from: int)
    requires ElectionOk(n, h.ballots, h.reigns, x) && 0 <= x.me < n
    requires x.election.Election? && x.election.term == x.currentTerm
    requires 0 <= from < n && from != x.me && from !in x.election.answered
    requires VotedFor(h.ballots, from, x.currentTerm, x.me)
    requires x.election.votes + 1 < Quorum(n)
    ensures ElectionOk(n, h.ballots, h.reigns, Granted(x, from, x.election.votes + 1))
  {
    GrantedSize(n, x, from);
  }

  lemma GrantedOk(n: nat, h: History, x: Node, from: int)
    requires NodeInv(n, h, x.me, x) && 0 <= x.me < n
    requires x.election.Election? && x.election.term == x.currentTerm
    requires 0 <= from < n && from != x.me && from !in x.election.answered
    requires VotedFor(h.ballots, from, x.currentTerm, x.me)
    requires x.election.votes + 1 < Quorum(n)
    ensures NodeInv(n, h, x.me, Granted(x, from, x.election.votes + 1))
  {
    GrantedElection(n, h, x, from);
  }

  /** The node that has just won. */
  lemma WinnerOk(n: nat, h: History, x: Node, from: int)
    requires NodeInv(n, h, x.me, x) && HistInv(n, h) && 0 <= x.me < n
    requires x.election.Election? && x.election.term == x.currentTerm && x.status != Leader && !x.senderAlive
    requires 0 <= from < n && from != x.me && from !in x.election.answered
    requires VotedFor(h.ballots, from, x.currentTerm, x.me)
    requires x.election.votes + 1 >= Quorum(n)
    ensures
      var y := BecomeLeader(Granted(x, from, 0));
      Sound(n, h, x, Effect(y, {}, true, NoteWin(h, y)))
  {
    var y := BecomeLeader(Granted(x, from, 0));
    GrantedSize(n, x, from);
    NewReign(n, h, x, y.election.granted + {x.me});
    WinnerNode(n, h, x, from);
  }

  lemma WinnerNode(n: nat, h: History, x: Node, from: int)
    requires NodeInv(n, h, x.me, x) && 0 <= x.me < n
    requires x.election.Election? && x.election.term == x.currentTerm && x.status != Leader && !x.senderAlive
    requires from !in x.election.granted && 0 <= from < n && from != x.me
    requires VotedFor(h.ballots, from, x.currentTerm, x.me)
    requires x.election.votes + 1 >= Quorum(n)
    requires
      var h' := NoteWin(h, BecomeLeader(Granted(x, from, 0)));
      KnownLog(h'.reigns, x.logs)
      && forall p :: 0 <= p < |x.pending| ==> KnownLog(h'.reigns, x.pending[p])
    ensures
      var y := BecomeLeader(Granted(x, from, 0));
      NodeInv(n, NoteWin(h, y), x.me, y)
  {
    var y := BecomeLeader(Granted(x, from, 0));
    assert |y.election.granted| == |x.election.granted| + 1;
  }

  /** "Leader twice in one term" cannot happen: after the win the counter restarts from 0, and
      the peers left are too few. */
  lemma NoSecondWin(n: nat, h: History, x: Node, from: int)
    requires NodeInv(n, h, x.me, x) && 0 <= x.me < n
    requires x.election.Election? && x.election.term == x.currentTerm && x.status == Leader
    requires 0 <= from < n && from != x.me && from !in x.election.answered
    ensures x.election.votes + 1 < Quorum(n)
  {
    GrantedSize(n, x, from);
  }

  /** What sendRequestVote makes of a granted vote. */
  lemma GrantResult(x: Node, h: History, m: Message)
    requires m.VoteReply? && m.granted && m.term == x.currentTerm && x.election.Election?
    ensures
      var votes := x.election.votes + 1;
      if votes < Quorum(x.peers) then
        RunVoteReply(x, h, m) == Done(Effect(Granted(x, m.from, votes), {}, false, h))
      else if x.status == Leader then RunVoteReply(x, h, m) == Aborted
      else
        var y := BecomeLeader(Granted(x, m.from, 0));
        && Wins(x, m) && RunVoteReply(x, h, m) == Done(Effect(y, {}, true, NoteWin(h, y)))
  {
  }

  /** A granted vote is counted, or makes the candidate win. */
  lemma GrantSound(n: nat, h: History, x: Node, m: Message)
    requires NodeInv(n, h, x.me, x) && HistInv(n, h) && 0 <= x.me < n
    requires m.VoteReply? && MsgInv(n, h.ballots, h.reigns, m) && m.to == x.me && m.granted && m.term == x.currentTerm
    requires x.election.Election? && x.election.term == m.asked && m.from !in x.election.answered
    requires Wins(x, m) ==> !x.senderAlive
    ensures RunVoteReply(x, h, m).Done? && Sound(n, h, x, RunVoteReply(x, h, m).value)
  {
    GrantResult(x, h, m);
    if x.election.votes + 1 < Quorum(n) {
      GrantedOk(n, h, x, m.from);
      QuietSound(n, h, x, Granted(x, m.from, x.election.votes + 1), false);
    } else {
      if x.status == Leader {
        NoSecondWin(n, h, x, m.from);
      }
      WinnerOk(n, h, x, m.from);
    }
  }

  lemma VoteReplySound(n: nat, h: History, x: Node, m: Message)
    requires NodeInv(n, h, x.me, x) && HistInv(n, h) && 0 <= x.me < n
    requires m.VoteReply? && MsgInv(n, h.ballots, h.reigns, m) && m.to == x.me
    requires x.election.Election? && x.election.term == m.asked && m.from !in x.election.answered
    requires Wins(x, m) ==> !x.senderAlive
    ensures RunVoteReply(x, h, m).Done? && Sound(n, h, x, RunVoteReply(x, h, m).value)
  {
    var y := Answered(x, m.from);
    if m.term > x.currentTerm {
      StepDownSound(n, h, x, StepDown(y, m.term), m.term);
    } else if m.term < x.currentTerm || !m.granted {
      AnsweredOk(n, h, x, m.from);
      QuietSound(n, h, x, y, false);
    } else {
      GrantSound(n, h, x, m);
    }
  }

  // ---------------------------------------------------------------- AppendEntries1

  /** What a known log and a known batch say of an index and term is the same thing. */
  lemma KnownNoClash(g: Reigns, logs: seq<Entry>, prev: int, entries: seq<Entry>)
    requires KnownLog(g, logs) && KnownLog(g, entries)
    requires Indexed(0, logs) && Contiguous(prev, entries)
    ensures !Clash(logs, prev, entries)
  {
    forall k | 0 <= k < |entries| && 0 <= prev + k < |logs| && logs[prev + k].term == entries[k].term
      ensures logs[prev + k].command == entries[k].command
    {
      assert Known(g, logs[prev + k]) && Known(g, entries[k]);
    }
  }

  lemma BatchKnown(n: nat, h: History, a: AppendArgs)
    requires HistInv(n, h) && ArgsOk(n, h.reigns, a)
    ensures KnownLog(h.reigns, a.entries) && Contiguous(a.prevIndex, a.entries)
  {
    assert ReignOk(n, h.wins, h.ballots, h.reigns, a.term);
    var log := h.reigns[a.term].log;
    assert forall k :: 0 <= k < |a.entries| ==> a.entries[k] == log[a.prevIndex + k];
  }

  lemma AcceptedOk(n: nat, h: History, x: Node, a: AppendArgs)
    requires NodeInv(n, h, x.me, x) && HistInv(n, h) && 0 <= x.me < n
    requires ArgsOk(n, h.reigns, a) && a.leaderId != x.me && a.term >= x.currentTerm
    ensures
      var y := Accepted(x, a);
      NodeInv(n, h, x.me, y) && Evolves(x, y) && y.currentTerm == a.term
  {
    var y := Accepted(x, a);
    RelabelledKeeps(n, h.reigns, x, y);
    ElectionKeeps(n, h.ballots, h.ballots, h.reigns, x, y);
  }

  /** The back-off answer points at or before prev, and never below 1. */
  lemma {:induction false} BackoffBounds(x: Node, prev: int, index: int)
    requires x.snapIndex == 0 && x.snapTerm == 0 && 1 <= prev <= |x.logs| && 0 <= index <= prev
    requires forall k :: 0 <= k < |x.logs| ==> 1 <= x.logs[k].term
    ensures 1 <= BackoffFrom(x, prev, index) <= prev
    decreases index
  {
    if 0 < index && LogTermAt(x, index) == LogTermAt(x, prev) {
      BackoffBounds(x, prev, index - 1);
    }
  }

  /** The log and commit index after a batch that matched. */
  lemma MergedNode(n: nat, h: History, y: Node, a: AppendArgs, logs: seq<Entry>, commit: int)
    requires NodeInv(n, h, y.me, y) && y.status == Follower && y.currentTerm == a.term
    requires KnownLog(h.reigns, a.entries) && ArgsOk(n, h.reigns, a) && a.prevIndex <= |y.logs|
    requires Merged(y.logs, a.prevIndex, a.entries, logs) && Indexed(0, logs)
    requires y.commitIndex <= commit <= |logs| && 1 <= a.term
    ensures NodeInv(n, h, y.me, y.(logs := logs, commitIndex := commit))
  {
    var z := y.(logs := logs, commitIndex := commit);
    forall k | 0 <= k < |logs| ensures Known(h.reigns, logs[k]) && 1 <= logs[k].term <= a.term {
      if a.prevIndex <= k < a.prevIndex + |a.entries| {
        assert logs[k] == a.entries[k - a.prevIndex];
      } else {
        assert logs[k] == y.logs[k];
      }
    }
    assert ElectionOk(n, h.ballots, h.reigns, z) && PendingOk(h.reigns, z);
  }

  /** Every accepted batch merges; no abort of AppendEntries1 is reachable. */
  lemma AppendMatches(n: nat, h: History, x: Node, a: AppendArgs)
    requires NodeInv(n, h, x.me, x) && HistInv(n, h) && 0 <= x.me < n
    requires ArgsOk(n, h.reigns, a) && a.leaderId != x.me && a.term >= x.currentTerm
    requires a.prevIndex <= |x.logs| && MatchLog(x, a.prevIndex, a.prevTerm)
    ensures
      var r := AppendEntries(x, a);
      && r.Done? && NodeInv(n, h, x.me, r.value.node) && Evolves(x, r.value.node)
      && r.value.node.currentTerm == a.term
      && r.value.persisted && r.value.reply == AppendReply(a.term, true, 0)
      && Merged(x.logs, a.prevIndex, a.entries, r.value.node.logs)
  {
    AcceptedOk(n, h, x, a);
    BatchKnown(n, h, a);
    KnownNoClash(h.reigns, x.logs, a.prevIndex, a.entries);
    var y := Accepted(x, a);
    MatchResult(y, a);
    assert AppendEntries(x, a) == AppendMatching(y, a);
    assert ReignOk(n, h.wins, h.ballots, h.reigns, a.term);
    var z := AppendMatching(y, a).value.node;
    MergedNode(n, h, y, a, z.logs, z.commitIndex);
  }

  /** A batch that matches at prev and does not clash is merged and acknowledged. */
  lemma MatchResult(y: Node, a: AppendArgs)
    requires ShapeOk(y.peers, y.me, y) && 0 <= a.prevIndex <= |y.logs|
    requires Contiguous(a.prevIndex, a.entries) && !Clash(y.logs, a.prevIndex, a.entries)
    ensures
      var r := AppendMatching(y, a);
      && r.Done? && r.value.persisted && r.value.reply == AppendReply(y.currentTerm, true, 0)
      && var z := r.value.node;
         && Merged(y.logs, a.prevIndex, a.entries, z.logs) && Indexed(0, z.logs)
         && z.commitIndex == (if a.leaderCommit > y.commitIndex then Min(a.leaderCommit, |z.logs|) else y.commitIndex)
         && y.commitIndex <= z.commitIndex <= |z.logs|
         && z == y.(logs := z.logs, commitIndex := z.commitIndex)
  {
    OverwriteMerges(y.logs, a.prevIndex, a.entries);
  }

  lemma MatchIsMerge(x: Node, a: AppendArgs)
    requires x.snapIndex == 0 && a.term >= x.currentTerm
    requires 0 <= a.prevIndex <= |x.logs| && MatchLog(x, a.prevIndex, a.prevTerm)
    ensures AppendEntries(x, a) == AppendMatching(Accepted(x, a), a)
  {
  }

  /** What AppendEntries1 makes of a batch that matched, whatever the history. */
  lemma MatchEffect(n: nat, h: History, x: Node, a: AppendArgs)
    requires ShapeOk(n, x.me, x) && a.term >= x.currentTerm
    requires 0 <= a.prevIndex <= |x.logs| && MatchLog(x, a.prevIndex, a.prevTerm)
    requires Contiguous(a.prevIndex, a.entries) && !Clash(x.logs, a.prevIndex, a.entries)
    ensures RunAppend(x, h, a).Done?
    ensures
      var e := RunAppend(x, h, a).value;
      var z, p := e.node, a.prevIndex + |a.entries|;
      && Merged(x.logs, a.prevIndex, a.entries, z.logs)
      && z == x.(currentTerm := a.term, votedFor := z.votedFor, status := Follower, logs := z.logs,
                 commitIndex := z.commitIndex)
      && z.commitIndex == (if a.leaderCommit > x.commitIndex then Min(a.leaderCommit, |z.logs|) else x.commitIndex)
      && x.commitIndex <= z.commitIndex <= |z.logs|
      && (C2(x, a) ==> z.commitIndex <= Max(x.commitIndex, p))
      && e.hist == (if |a.entries| > 0 then h.(acks := h.acks + {Ack(x.me, a.term, p)}) else h)
      && forall m :: m in e.sent ==> m.AppendResponse?
  {
    assert ShapeOk(n, x.me, Accepted(x, a));
    MatchIsMerge(x, a);
    MatchResult(Accepted(x, a), a);
    hide ShapeOk, AppendEntries, AppendMatching, Merged, Indexed, Contiguous, Clash;
  }

  lemma AppendRefused(n: nat, h: History, x: Node, a: AppendArgs)
    requires NodeInv(n, h, x.me, x) && HistInv(n, h) && 0 <= x.me < n
    requires ArgsOk(n, h.reigns, a) && a.leaderId != x.me && a.term >= x.currentTerm
    requires a.prevIndex > |x.logs| || !MatchLog(x, a.prevIndex, a.prevTerm)
    ensures
      var r := AppendEntries(x, a);
      && r.Done? && r.value.node == Accepted(x, a) && r.value.persisted
      && !r.value.reply.success && r.value.reply.term == a.term
      && 1 <= r.value.reply.updateNextIndex <= a.prevIndex
  {
    if a.prevIndex <= |x.logs| {
      BackoffBounds(Accepted(x, a), a.prevIndex, a.prevIndex);
    }
  }

  /** Recording an acknowledgement of what the leader holds. */
  lemma AckGrows(n: nat, i: int, h: History, k: Ack)
    requires HistInv(n, h) && AckOk(n, h.reigns, k)
    ensures
      var h' := h.(acks := h.acks + {k});
      HistInv(n, h') && GrowsBy(i, h, h')
  {
  }

  predicate ReplyOk(a: AppendArgs, r: AppendReply) {
    && (r.success ==> r.term == a.term)
    && (!r.success && r.updateNextIndex != NO_BACKOFF ==>
          r.term == a.term && 1 <= r.updateNextIndex <= a.prevIndex)
  }

  lemma BatchAckOk(n: nat, g: Reigns, a: AppendArgs, me: int)
    requires ArgsOk(n, g, a) && |a.entries| > 0 && 0 <= me < n
    ensures AckOk(n, g, Ack(me, a.term, a.prevIndex + |a.entries|))
  {
    var last := |a.entries| - 1;
    assert a.entries[last] == g[a.term].log[a.prevIndex + last];
  }

  lemma AppendEffectSound(n: nat, h: History, x: Node, a: AppendArgs, r: AppendResult)
    requires HistInv(n, h) && ArgsOk(n, h.reigns, a) && a.leaderId != x.me && 0 <= x.me < n
    requires NodeInv(n, h, x.me, r.node) && Evolves(x, r.node) && ReplyOk(a, r.reply)
    requires r.reply.success ==> r.node.currentTerm == a.term
    requires !r.persisted ==> r.node == x
    ensures Sound(n, h, x, AppendEffect(x.me, h, a, r))
  {
    var e := AppendEffect(x.me, h, a, r);
    if r.reply.success && |a.entries| > 0 {
      BatchAckOk(n, h.reigns, a, x.me);
      AckGrows(n, x.me, h, Ack(x.me, a.term, a.prevIndex + |a.entries|));
    } else {
      GrowsRefl(x.me, h);
    }
    AppendMessageOk(n, h, x.me, a, r.reply);
    hide NodeInv, HistInv, GrowsBy, ArgsOk, MsgInv, ReplyOk;
    AcksOnly(n, h, x, e);
  }

  lemma AppendMessageOk(n: nat, h: History, me: int, a: AppendArgs, r: AppendReply)
    requires ArgsOk(n, h.reigns, a) && a.leaderId != me && 0 <= me < n && ReplyOk(a, r)
    ensures MsgInv(n, h.ballots, h.reigns, AppendResponse(me, a, r))
  {
  }

  /** An effect that adds nothing but acknowledgements to history. */
  lemma AcksOnly(n: nat, h: History, x: Node, e: Effect)
    requires HistInv(n, e.hist) && GrowsBy(x.me, h, e.hist)
    requires e.hist.reigns == h.reigns && e.hist.ballots == h.ballots
    requires NodeInv(n, h, x.me, e.node) && Evolves(x, e.node)
    requires forall m :: m in e.sent ==> MsgInv(n, h.ballots, h.reigns, m)
    requires !e.persisted ==> e.node == x
    ensures Sound(n, h, x, e)
  {
  }

  lemma AppendSound(n: nat, h: History, x: Node, a: AppendArgs)
    requires NodeInv(n, h, x.me, x) && HistInv(n, h) && 0 <= x.me < n
    requires ArgsOk(n, h.reigns, a) && a.leaderId != x.me
    ensures RunAppend(x, h, a).Done? && Sound(n, h, x, RunAppend(x, h, a).value)
  {
    if a.term >= x.currentTerm {
      if a.prevIndex <= |x.logs| && MatchLog(x, a.prevIndex, a.prevTerm) {
        AppendMatches(n, h, x, a);
      } else {
        AppendRefused(n, h, x, a);
        AcceptedOk(n, h, x, a);
      }
    }
    AppendEffectSound(n, h, x, a, AppendEntries(x, a).value);
  }

  // ---------------------------------------------------------------- leader events

  /** The leader appends e to its log, and so to its reign. */
  lemma ReignExtends(n: nat, h: History, x: Node, e: Entry)
    requires NodeInv(n, h, x.me, x) && HistInv(n, h) && x.status == Leader
    requires e.index == |x.logs| + 1 && e.term == x.currentTerm && 0 <= x.me < n
    ensures
      var h' := NoteStart(h, x.(logs := x.logs + [e]), e.index);
      && HistInv(n, h') && GrowsBy(x.me, h, h')
      && KnownLog(h'.reigns, x.logs + [e])
      && h'.reigns[x.currentTerm].leader == x.me && h'.reigns[x.currentTerm].log == x.logs + [e]
      && h'.ballots == h.ballots
      && forall p :: 0 <= p < |x.pending| ==>
           KnownLog(h'.reigns, x.pending[p] + [e]) && KnownLog(h'.reigns, x.pending[p])
  {
    var t := x.currentTerm;
    var h' := NoteStart(h, x.(logs := x.logs + [e]), e.index);
    assert ReignOk(n, h.wins, h.ballots, h.reigns, t);
    assert GrowsBy(x.me, h, h');
    KnownGrows(x.me, h, h', x.logs);
    assert Known(h'.reigns, e);
    forall p | 0 <= p < |x.pending|
      ensures KnownLog(h'.reigns, x.pending[p] + [e]) && KnownLog(h'.reigns, x.pending[p])
    {
      KnownGrows(x.me, h, h', x.pending[p]);
    }
    ReignsExtend(n, h, h', x, e);
  }

  lemma ReignsExtend(n: nat, h: History, h': History, x: Node, e: Entry)
    requires NodeInv(n, h, x.me, x) && HistInv(n, h) && x.status == Leader && GrowsBy(x.me, h, h')
    requires e.index == |x.logs| + 1 && e.term == x.currentTerm && 0 <= x.me < n
    requires h' == NoteStart(h, x.(logs := x.logs + [e]), e.index)
    requires KnownLog(h'.reigns, x.logs + [e])
    ensures HistInv(n, h')
  {
    forall u | u in h'.reigns ensures ReignOk(n, h'.wins, h'.ballots, h'.reigns, u) {
      if u != x.currentTerm {
        ReignOkGrows(n, x.me, h, h', u);
      } else {
        OwnReignExtends(n, h, h', x, e);
      }
    }
    AcksExtend(n, h, h', x, e);
  }

  lemma OwnReignExtends(n: nat, h: History, h': History, x: Node, e: Entry)
    requires NodeInv(n, h, x.me, x) && HistInv(n, h) && x.status == Leader
    requires e.index == |x.logs| + 1 && e.term == x.currentTerm
    requires h' == NoteStart(h, x.(logs := x.logs + [e]), e.index)
    requires KnownLog(h'.reigns, x.logs + [e])
    ensures ReignOk(n, h'.wins, h'.ballots, h'.reigns, x.currentTerm)
  {
    assert ReignOk(n, h.wins, h.ballots, h.reigns, x.currentTerm);
  }

  lemma AcksExtend(n: nat, h: History, h': History, x: Node, e: Entry)
    requires HistInv(n, h) && GrowsBy(x.me, h, h') && 0 <= x.me < n && 0 <= |x.logs|
    requires x.currentTerm in h.reigns && h.reigns[x.currentTerm].log == x.logs
    requires e.index == |x.logs| + 1 && e.term == x.currentTerm
    requires h' == NoteStart(h, x.(logs := x.logs + [e]), e.index)
    ensures forall k :: k in h'.acks ==> AckOk(n, h'.reigns, k)
  {
    forall k | k in h'.acks ensures AckOk(n, h'.reigns, k) {
      if k in h.acks {
        assert AckOk(n, h.reigns, k);
        assert ReignGrows(h.reigns[k.term], h'.reigns[k.term]);
      }
    }
  }

  lemma ProposeSound(n: nat, h: History, x: Node, command: Bytes)
    requires NodeInv(n, h, x.me, x) && HistInv(n, h) && 0 <= x.me < n
    ensures Sound(n, h, x, RunPropose(x, h, command))
  {
    if x.status == Leader {
      var e := Entry(|x.logs| + 1, x.currentTerm, command);
      var y := Start(x, command).node;
      ReignExtends(n, h, x, e);
      ProposePending(x, e);
      ProposeNode(n, h, RunPropose(x, h, command).hist, x, e);
    } else {
      QuietSound(n, h, x, x, false);
    }
  }

  /** Each peer's buffer stays the tail of the leader's log. */
  lemma ProposePending(x: Node, e: Entry)
    requires e.term == x.currentTerm
    ensures
      var y := x.(logs := x.logs + [e], pending := Enqueue(x.me, x.pending, e));
      forall p :: 0 <= p < |x.pending| && p != x.me && Tail(x, x.pending[p]) ==> Tail(y, y.pending[p])
  {
  }

  lemma ProposeNode(n: nat, h: History, h': History, x: Node, e: Entry)
    requires NodeInv(n, h, x.me, x) && x.status == Leader && 0 <= x.me < n
    requires e.index == |x.logs| + 1 && e.term == x.currentTerm
    requires h'.ballots == h.ballots && GrowsBy(x.me, h, h')
    requires x.currentTerm in h'.reigns
    requires h'.reigns[x.currentTerm].leader == x.me && h'.reigns[x.currentTerm].log == x.logs + [e]
    requires KnownLog(h'.reigns, x.logs + [e])
    requires forall p :: 0 <= p < |x.pending| ==>
               KnownLog(h'.reigns, x.pending[p] + [e]) && KnownLog(h'.reigns, x.pending[p])
    requires
      var y := x.(logs := x.logs + [e], pending := Enqueue(x.me, x.pending, e));
      forall p :: 0 <= p < |x.pending| && p != x.me && Tail(x, x.pending[p]) ==> Tail(y, y.pending[p])
    ensures NodeInv(n, h', x.me, x.(logs := x.logs + [e], pending := Enqueue(x.me, x.pending, e)))
  {
    var y := x.(logs := x.logs + [e], pending := Enqueue(x.me, x.pending, e));
    assert PendingOk(h'.reigns, y);
  }

  lemma SendBatchSound(n: nat, h: History, x: Node, p: int, k: int)
    requires NodeInv(n, h, x.me, x) && HistInv(n, h) && 0 <= x.me < n
    requires x.status == Leader && x.senderAlive && 0 <= p < n && p != x.me && 1 <= k <= |x.pending[p]|
    ensures Sound(n, h, x, RunSendBatch(x, h, p, k))
  {
    SendBatchNode(n, h, x, p, k);
    BatchArgsOk(n, h, x, x.pending[p][..k], |x.logs| - |x.pending[p]|);
    var y := x.(pending := x.pending[p := x.pending[p][k..]]);
    var m := AppendRequest(p, BatchArgs(x, x.pending[p][..k]));
    QuietSound(n, h, x, y, false);
    SentSound(n, h, x, Effect(y, {}, false, h), m);
    assert {m} + {} == {m};
  }

  /** What is left in the buffer is still the tail of the log; what is sent stood before it. */
  lemma SendBatchNode(n: nat, h: History, x: Node, p: int, k: int)
    requires NodeInv(n, h, x.me, x)
    requires x.status == Leader && x.senderAlive && 0 <= p < n && p != x.me && 1 <= k <= |x.pending[p]|
    ensures NodeInv(n, h, x.me, x.(pending := x.pending[p := x.pending[p][k..]]))
    ensures
      var prev := |x.logs| - |x.pending[p]|;
      && 0 <= prev && prev + k <= |x.logs| && x.pending[p][..k] == x.logs[prev..prev + k]
      && forall j :: 0 <= j < k ==> x.pending[p][j].term == x.currentTerm
  {
    var rest := x.pending[p][k..];
    var y := x.(pending := x.pending[p := rest]);
    assert Tail(x, x.pending[p]);
    assert rest == x.logs[|x.logs| - |rest|..];
    assert Tail(y, rest);
    assert PendingOk(h.reigns, y);
  }

  lemma BatchArgsOk(n: nat, h: History, x: Node, batch: seq<Entry>, prev: int)
    requires NodeInv(n, h, x.me, x) && HistInv(n, h) && 0 <= x.me < n && x.status == Leader
    requires |batch| > 0 && 0 <= prev && prev + |batch| <= |x.logs| && batch == x.logs[prev..prev + |batch|]
    requires forall j :: 0 <= j < |batch| ==> batch[j].term == x.currentTerm
    ensures ArgsOk(n, h.reigns, BatchArgs(x, batch)) && BatchArgs(x, batch).leaderId == x.me
  {
    assert batch[0] == x.logs[prev];
    assert batch[0].index == prev + 1;
  }

  lemma HeartbeatSound(n: nat, h: History, x: Node)
    requires NodeInv(n, h, x.me, x) && HistInv(n, h) && 0 <= x.me < n && x.status == Leader
    ensures Sound(n, h, x, RunHeartbeat(n, x, h))
  {
    var y := ClampNext(x);
    assert NodeInv(n, h, x.me, y);
    forall m | m in Heartbeats(n, y) ensures MsgInv(n, h.ballots, h.reigns, m) {
      var p :| 0 <= p < n && p != x.me && m == AppendRequest(p, HeartbeatArgs(y, p));
      HeartbeatArgsOk(n, h, y, p);
    }
    QuietSound(n, h, x, y, false);
  }

  lemma HeartbeatArgsOk(n: nat, h: History, x: Node, p: int)
    requires NodeInv(n, h, x.me, x) && 0 <= x.me < n && x.status == Leader && 0 <= p < n
    ensures ArgsOk(n, h.reigns, HeartbeatArgs(x, p)) && HeartbeatArgs(x, p).leaderId == x.me
  {
  }

  /** Replies to the leader: indices stay within its log, and no assertion fails. */
  lemma AppendReplySound(n: nat, h: History, x: Node, m: Message, count: int)
    requires NodeInv(n, h, x.me, x) && HistInv(n, h) && 0 <= x.me < n
    requires m.AppendResponse? && MsgInv(n, h.ballots, h.reigns, m) && m.args.leaderId == x.me
    ensures RunAppendReply(x, h, m, count).Done? && Sound(n, h, x, RunAppendReply(x, h, m, count).value)
  {
    if m.reply.term > x.currentTerm {
      StepDownSound(n, h, x, StepDown(x, m.reply.term), m.reply.term);
    } else {
      AppendReplyNode(n, h, x, m, count);
      QuietSound(n, h, x, RunAppendReply(x, h, m, count).value.node, false);
    }
  }

  /** y is the leader x with other counters for one peer, or a later commit index. */
  lemma LeaderCounters(n: nat, h: History, x: Node, y: Node, peer: int)
    requires NodeInv(n, h, x.me, x) && x.status == Leader && 0 <= peer < n
    requires |y.nextIndex| == |y.matchIndex| == n
    requires y == x.(nextIndex := x.nextIndex[peer := y.nextIndex[peer]],
                     matchIndex := x.matchIndex[peer := y.matchIndex[peer]],
                     commitIndex := y.commitIndex)
    requires 1 <= y.nextIndex[peer] <= |x.logs| + 1 && 0 <= y.matchIndex[peer] <= |x.logs|
    requires x.commitIndex <= y.commitIndex <= |x.logs|
    ensures NodeInv(n, h, x.me, y)
  {
    assert LeaderOk(n, h.reigns, y);
    assert PendingOk(h.reigns, y);
  }

  lemma AppendReplyNode(n: nat, h: History, x: Node, m: Message, count: int)
    requires NodeInv(n, h, x.me, x) && 0 <= x.me < n
    requires m.AppendResponse? && MsgInv(n, h.ballots, h.reigns, m) && m.args.leaderId == x.me
    requires m.reply.term <= x.currentTerm
    ensures
      var r := AppendAnswered(x, m.from, m.args, m.reply, count);
      && r.Done? && NodeInv(n, h, x.me, r.value.node) && Evolves(x, r.value.node)
      && !r.value.persisted && PersistData(r.value.node) == PersistData(x)
  {
    if m.reply.term == x.currentTerm && x.status == Leader {
      ReplyCounters(n, h, x, m, count);
      hide AppendAnswered;
      LeaderCounters(n, h, x, AppendAnswered(x, m.from, m.args, m.reply, count).value.node, m.from);
    }
  }

  /** A reply in the leader's term moves the counters of one peer, within the leader's log. */
  lemma ReplyCounters(n: nat, h: History, x: Node, m: Message, count: int)
    requires ShapeOk(n, x.me, x) && LeaderOk(n, h.reigns, x) && x.status == Leader
    requires m.AppendResponse? && MsgInv(n, h.ballots, h.reigns, m) && m.args.leaderId == x.me
    requires m.reply.term == x.currentTerm
    ensures AppendAnswered(x, m.from, m.args, m.reply, count).Done?
    ensures
      var y, p := AppendAnswered(x, m.from, m.args, m.reply, count).value.node, m.from;
      && y == x.(nextIndex := y.nextIndex, matchIndex := y.matchIndex, commitIndex := y.commitIndex)
      && |y.nextIndex| == |y.matchIndex| == n
      && y.nextIndex == x.nextIndex[p := y.nextIndex[p]] && y.matchIndex == x.matchIndex[p := y.matchIndex[p]]
      && 1 <= y.nextIndex[p] <= |x.logs| + 1 && 0 <= y.matchIndex[p] <= |x.logs|
      && x.commitIndex <= y.commitIndex <= |x.logs|
      && !AppendAnswered(x, m.from, m.args, m.reply, count).value.persisted
  {
  }

  // ---------------------------------------------------------------- apply, sender exit

  lemma DeliverSound(n: nat, h: History, x: Node)
    requires NodeInv(n, h, x.me, x) && HistInv(n, h) && 0 <= x.me < n
    ensures RunDeliver(x, h).Done? && Sound(n, h, x, RunDeliver(x, h).value)
  {
    var y := ApplyCommitted(x).value;
    DeliverNode(n, h, x);
    QuietSound(n, h, x, y, false);
  }

  lemma DeliverNode(n: nat, h: History, x: Node)
    requires NodeInv(n, h, x.me, x)
    ensures ApplyCommitted(x).Done? && NodeInv(n, h, x.me, ApplyCommitted(x).value)
  {
    var y := ApplyCommitted(x).value;
    assert CountersOk(y);
  }

  lemma SenderExitSound(n: nat, h: History, x: Node)
    requires NodeInv(n, h, x.me, x) && HistInv(n, h) && x.status != Leader
    ensures Sound(n, h, x, Effect(x.(senderAlive := false), {}, false, h))
  {
    QuietSound(n, h, x, x.(senderAlive := false), false);
  }

  // ---------------------------------------------------------------- every step

  lemma EventSound(s: Cluster, i: int, ev: Event)
    requires Inv(s) && 0 <= i < s.n && EventEnabled(s, i, ev)
    ensures Run(s, i, ev).Done? && Sound(s.n, s.hist, s.nodes[i], Run(s, i, ev).value)
  {
    var n, h, x := s.n, s.hist, s.nodes[i];
    assert NodeInv(n, h, i, x);
    match ev
    case Elect => ElectSound(n, h, x);
    case OnVoteRequest(m) => VoteRequestSound(n, h, x, m);
    case OnVoteReply(m) => VoteReplySound(n, h, x, m);
    case Propose(command) => ProposeSound(n, h, x, command);
    case SendBatch(p, k) => SendBatchSound(n, h, x, p, k);
    case Heartbeat => HeartbeatSound(n, h, x);
    case OnAppend(m) => assert MsgInv(n, h.ballots, h.reigns, m); AppendSound(n, h, x, m.args);
    case OnAppendReply(m, count) => assert MsgInv(n, h.ballots, h.reigns, m); AppendReplySound(n, h, x, m, count);
    case Deliver => DeliverSound(n, h, x);
    case SenderExit => SenderExitSound(n, h, x);
  }

  lemma NextKeeps(s: Cluster, step: Step)
    requires Inv(s)
    ensures Inv(Next(s, step))
  {
    if Enabled(s, step) {
      match step
      case Crash(i) => RebootKeeps(s, i);
      case Act(i, ev) =>
        EventSound(s, i, ev);
        CompleteKeeps(s, i, Run(s, i, ev).value, true);
      case CrashPersisting(i, ev, flushed) =>
        EventSound(s, i, ev);
        CrashInsideKeeps(s, i, ev, flushed);
    }
  }

  /** A win leaves term, vote and log as they were. */
  lemma WinPersistsNothingNew(x: Node, h: History, m: Message)
    requires m.VoteReply? && x.election.Election?
    requires RunVoteReply(x, h, m).Done? && RunVoteReply(x, h, m).value.hist != h
    ensures PersistData(RunVoteReply(x, h, m).value.node) == PersistData(x)
  {
  }

  lemma CrashInsideKeeps(s: Cluster, i: int, ev: Event, flushed: bool)
    requires Inv(s) && 0 <= i < s.n && EventEnabled(s, i, ev) && Run(s, i, ev).Done?
    requires Sound(s.n, s.hist, s.nodes[i], Run(s, i, ev).value)
    ensures Inv(CrashInside(s, i, ev, Run(s, i, ev).value, flushed))
  {
    var e := Run(s, i, ev).value;
    if !flushed && (!ev.OnVoteReply? || e.hist == s.hist) {
      RebootKeeps(s, i);
    } else {
      CompleteKeeps(s, i, e, false);
      RebootKeeps(Complete(s, i, e, false), i);
      if !flushed {
        WinPersistsNothingNew(s.nodes[i], s.hist, ev.m);
        UnflushedIsFlushed(s, i, e);
      }
    }
  }

  /** Losing a write that would have changed nothing loses nothing. */
  lemma UnflushedIsFlushed(s: Cluster, i: int, e: Effect)
    requires Sized(s) && 0 <= i < s.n && PersistData(e.node) == s.disks[i]
    ensures Sized(Complete(s, i, e, false)) ==>
              Reboot(Complete(s, i, e, false), i) == Reboot(s.(hist := e.hist), i)
  {
    var z := Boot(s.n, i, s.disks[i]);
    assert s.disks[i := s.disks[i]] == s.disks;
    assert s.nodes[i := e.node][i := z] == s.nodes[i := z];
  }

  /** Every state of every run. */
  lemma {:induction false} Reachable(n: nat, steps: seq<Step>)
    ensures Inv(After(n, steps))
    decreases |steps|
  {
    if |steps| == 0 {
      InitHolds(n);
    } else {
      Reachable(n, steps[..|steps| - 1]);
      NextKeeps(After(n, steps[..|steps| - 1]), steps[|steps| - 1]);
    }
  }
}
