/** What each critical section of Raft/Raft.cpp does, case by case, on every node, reachable or not:
    when exactly it grants, wins, commits, applies or aborts, and what it leaves alone. */
module Handling {
  import opened Bytes
  import opened RaftTypes
  import opened RaftHandlers

  // ---------------------------------------------------------------- reading the log

  lemma LogTermAtExactly(x: Node, index: int)
    ensures x.snapIndex < index <= x.snapIndex + |x.logs| ==>
              LogTermAt(x, index) == x.logs[index - x.snapIndex - 1].term
    ensures index == x.snapIndex ==> LogTermAt(x, index) == x.snapTerm
    ensures index < x.snapIndex || x.snapIndex + |x.logs| < index ==> LogTermAt(x, index) == -1
  {
  }

  lemma MatchLogExactly(x: Node, index: int, term: int)
    ensures MatchLog(x, index, term) <==>
              || (index == x.snapIndex && term == x.snapTerm)
              || (x.snapIndex < index <= x.snapIndex + |x.logs| && x.logs[index - x.snapIndex - 1].term == term)
  {
  }

  /** The last entry of a log, as elections compare logs: its term first, then its index. */
  predicate NotBehind(x: Node, index: int, term: int) {
    var lastTerm := if x.logs == [] then x.snapTerm else x.logs[|x.logs| - 1].term;
    lastTerm < term || (lastTerm == term && x.snapIndex + |x.logs| <= index)
  }

  // ---------------------------------------------------------------- elections

  /** A vote is granted exactly to a candidate of this term or a newer one whose log is not behind,
      unless the vote of this term is given to another; a newer term frees the vote in any case, even
      if it is then refused. */
  lemma VoteExactly(x: Node, term: int, candidate: int, lastIndex: int, lastTerm: int)
    ensures
      var r := RequestVote(x, term, candidate, lastIndex, lastTerm);
      var newer := term > x.currentTerm;
      && (r.granted <==>
            && term >= x.currentTerm && NotBehind(x, lastIndex, lastTerm)
            && (newer || x.votedFor == -1 || x.votedFor == candidate))
      && r.term == Max(term, x.currentTerm)
      && r.node == x.(currentTerm := r.term,
                      status := if newer then Follower else x.status,
                      votedFor := if r.granted then candidate else if newer then -1 else x.votedFor)
  {
  }

  /** A granted vote of the current term is counted, and wins exactly when it completes a majority; a
      newer term ends the candidacy; every other reply is only noted. A leader that counts a majority
      again aborts. */
  lemma VoteReplyExactly(x: Node, from: int, term: int, granted: bool)
    requires x.election.Election?
    ensures
      var e, r := x.election, VoteAnswered(x, from, term, granted);
      var counts := granted && term == x.currentTerm;
      var wins := counts && 2 * (e.votes + 1) > x.peers;
      && (r.Aborted? <==> wins && x.status == Leader)
      && (r.Done? ==>
            var y := r.value.node;
            && y.election == Election(e.term, if wins then 0 else if counts then e.votes + 1 else e.votes,
                                      e.answered + {from}, if counts then e.granted + {from} else e.granted)
            && (r.value.persisted <==> wins || term > x.currentTerm)
            && (if wins then InOffice(x, y)
                else if term > x.currentTerm
                then y == x.(status := Follower, currentTerm := term, votedFor := -1, election := y.election)
                else y == x.(election := y.election)))
  {
  }

  /** y is x, elected: every peer is expected to lack nothing and known to hold nothing; the sender
      thread runs if it did, or has never been started before. */
  predicate InOffice(x: Node, y: Node) {
    && y == x.(status := Leader, nextIndex := y.nextIndex, matchIndex := y.matchIndex, batchRunning := true,
               senderAlive := y.senderAlive, election := y.election)
    && |y.nextIndex| == |x.nextIndex| && |y.matchIndex| == |x.matchIndex|
    && (forall p :: 0 <= p < |y.nextIndex| ==> y.nextIndex[p] == x.snapIndex + |x.logs| + 1)
    && (forall p :: 0 <= p < |y.matchIndex| ==> y.matchIndex[p] == 0)
    && (y.senderAlive <==> x.senderAlive || !x.batchRunning)
  }

  // ---------------------------------------------------------------- commands and heartbeats

  /** Every buffer but the leader's own gets the entry at its end. */
  predicate Buffered(me: int, before: seq<seq<Entry>>, after: seq<seq<Entry>>, e: Entry) {
    && |after| == |before|
    && forall p :: 0 <= p < |before| ==> after[p] == if p == me then before[p] else before[p] + [e]
  }

  lemma StartExactly(x: Node, command: Bytes)
    ensures
      var r := Start(x, command);
      && (r.isLeader <==> x.status == Leader)
      && (if r.isLeader
          then
            var e := Entry(x.snapIndex + |x.logs| + 1, x.currentTerm, command);
            && r.index == e.index && Buffered(x.me, x.pending, r.node.pending, e)
            && r.node == x.(logs := x.logs + [e], pending := r.node.pending)
          else r.index == -1 && r.node == x)
  {
  }

  lemma ClampExactly(x: Node)
    ensures
      var y := ClampNext(x);
      && y == x.(nextIndex := y.nextIndex) && |y.nextIndex| == |x.nextIndex|
      && forall p :: 0 <= p < |x.nextIndex| ==>
           y.nextIndex[p] == if p == x.me then x.nextIndex[p] else Max(1, x.nextIndex[p])
  {
  }

  // ---------------------------------------------------------------- AppendEntries1

  /** The back-off scan goes down to the first entry of another term; if there is none down to the
      snapshot, it gives back prev. */
  lemma {:induction false} BackoffExactly(x: Node, prev: int, index: int)
    requires x.snapIndex <= index <= prev
    requires forall k :: index < k <= prev ==> LogTermAt(x, k) == LogTermAt(x, prev)
    ensures
      var u := BackoffFrom(x, prev, index);
      if forall k :: x.snapIndex <= k <= prev ==> LogTermAt(x, k) == LogTermAt(x, prev) then u == prev
      else
        && x.snapIndex < u <= prev && LogTermAt(x, u - 1) != LogTermAt(x, prev)
        && forall k :: u <= k <= prev ==> LogTermAt(x, k) == LogTermAt(x, prev)
    decreases index - x.snapIndex
  {
    if LogTermAt(x, index) == LogTermAt(x, prev) {
      if index > x.snapIndex {
        BackoffExactly(x, prev, index - 1);
      } else {
        assert BackoffFrom(x, prev, index - 1) == prev;
      }
    }
  }

  /** The sender is followed, whatever becomes of its batch; a newer term frees the vote. */
  predicate Follows(x: Node, a: AppendArgs, y: Node) {
    y == x.(status := Follower, currentTerm := a.term,
            votedFor := if a.term > x.currentTerm then -1 else x.votedFor,
            logs := y.logs, commitIndex := y.commitIndex)
  }

  /** A stale batch changes nothing; any other makes the receiver follow the sender, and is accepted
      exactly if it matches at prev. A refusal tells the sender where to go on. */
  lemma AppendExactly(x: Node, a: AppendArgs)
    requires AppendEntries(x, a).Done?
    ensures
      var r, last := AppendEntries(x, a).value, x.snapIndex + |x.logs|;
      && r.reply.term == Max(a.term, x.currentTerm) && (r.persisted <==> a.term >= x.currentTerm)
      && (r.reply.success <==> a.term >= x.currentTerm && MatchLog(x, a.prevIndex, a.prevTerm))
      && (if a.term < x.currentTerm then r.node == x && r.reply.updateNextIndex == NO_BACKOFF
          else Follows(x, a, r.node))
      && (a.term >= x.currentTerm && !r.reply.success ==>
            && r.node.logs == x.logs && r.node.commitIndex == x.commitIndex
            && r.reply.updateNextIndex ==
                 if a.prevIndex > last then last + 1
                 else if a.prevIndex < x.snapIndex then x.snapIndex + 1
                 else BackoffFrom(x, a.prevIndex, a.prevIndex))
      && (r.reply.success ==>
            && Overwrite(x.snapIndex, x.logs, a.entries) == Done(r.node.logs)
            && r.node.commitIndex ==
                 if a.leaderCommit > x.commitIndex then Min(a.leaderCommit, x.snapIndex + |r.node.logs|)
                 else x.commitIndex)
  {
    if a.term >= x.currentTerm && x.snapIndex <= a.prevIndex {
      BackoffSame(x, Accepted(x, a), a.prevIndex, a.prevIndex);
    }
    hide BackoffFrom, Overwrite;
  }

  lemma {:induction false} BackoffSame(x: Node, y: Node, prev: int, index: int)
    requires y.logs == x.logs && y.snapIndex == x.snapIndex && y.snapTerm == x.snapTerm
    ensures BackoffFrom(y, prev, index) == BackoffFrom(x, prev, index)
    decreases index - x.snapIndex
  {
    if index >= x.snapIndex {
      BackoffSame(x, y, prev, index - 1);
    }
  }

  // ---------------------------------------------------------------- replies to the leader

  /** Where a positive reply moves the commit index, if `heard` nodes have accepted the batch: to the
      end of the batch, if they are a majority and the batch ends in an entry of the current term. */
  function CommitAfter(x: Node, a: AppendArgs, heard: int): int {
    var last := |a.entries| - 1;
    if 2 * heard > x.peers && last >= 0 && a.entries[last].term == x.currentTerm
    then Max(x.commitIndex, a.prevIndex + |a.entries|) else x.commitIndex
  }

  /** Only the leader of the reply's term acts on it. A refusal moves nextIndex where it points; a
      positive reply moves matchIndex, nextIndex and, exactly for a majority, the commit index. */
  lemma ReplyExactly(x: Node, peer: int, a: AppendArgs, r: AppendReply, count: int)
    requires 0 <= peer < |x.nextIndex| && peer < |x.matchIndex|
    ensures
      var result, last := AppendAnswered(x, peer, a, r, count), x.snapIndex + |x.logs|;
      var acts := r.term == x.currentTerm && x.status == Leader;
      var matched := Max(x.matchIndex[peer], a.prevIndex + |a.entries|);
      var commit := CommitAfter(x, a, count + 1);
      && (result.Aborted? <==>
            acts && r.success && (matched > last + 1 || (2 * (count + 1) > x.peers && commit > last)))
      && (result.Done? ==>
            && (result.value.persisted <==> r.term > x.currentTerm)
            && result.value.node ==
                 if r.term > x.currentTerm then x.(status := Follower, currentTerm := r.term, votedFor := -1)
                 else if !acts || (!r.success && r.updateNextIndex == NO_BACKOFF) then x
                 else if !r.success
                 then x.(nextIndex := x.nextIndex[peer := Max(Max(1, r.updateNextIndex), x.snapIndex + 1)])
                 else x.(matchIndex := x.matchIndex[peer := matched],
                         nextIndex := x.nextIndex[peer := matched + 1], commitIndex := commit))
  {
  }

  /** The counter starts again exactly when it has reached a majority. */
  lemma CounterExactly(x: Node, a: AppendArgs, count: int)
    requires TryUpdateCommit(x, a, count).Done?
    ensures
      var r := TryUpdateCommit(x, a, count).value;
      r.count == (if 2 * count > x.peers then 0 else count) && r.node == x.(commitIndex := CommitAfter(x, a, count))
  {
  }

  // ---------------------------------------------------------------- apply, init

  /** One round applies everything up to the commit index, one message per entry and in order. */
  lemma ApplyExactly(x: Node)
    ensures
      var r, from, to := ApplyCommitted(x), x.lastApplied, x.commitIndex;
      && (r.Aborted? <==> from < to && (from < x.snapIndex || x.snapIndex + |x.logs| < to))
      && (r.Done? ==>
            var y := r.value;
            && y == x.(lastApplied := Max(from, to), applied := y.applied)
            && x.applied <= y.applied && |y.applied| == |x.applied| + Max(0, to - from)
            && forall j :: |x.applied| <= j < |y.applied| ==>
                 var k := from + j - |x.applied|;
                 y.applied[j] == ApplyMsg(k + 1, x.logs[k - x.snapIndex].command))
  {
  }

  /** What a process starts with: the stored term, vote, snapshot position and log, and otherwise the
      state of a follower that has neither led nor applied anything since. */
  lemma BootExactly(n: nat, me: int, d: Image)
    ensures
      var x := Boot(n, me, d);
      && x.me == me && x.peers == n && x.status == Follower
      && x.currentTerm == d.currentTerm && x.votedFor == d.votedFor
      && x.snapIndex == d.snapIndex && x.snapTerm == d.snapTerm
      && |x.logs| == |d.logs|
      && (forall k :: 0 <= k < |d.logs| ==>
            x.logs[k] == Entry(d.snapIndex + k + 1, d.logs[k].term, d.logs[k].command))
      && x.commitIndex == 0 && x.lastApplied == Max(0, d.snapIndex) && x.applied == []
      && |x.nextIndex| == n && |x.matchIndex| == n && |x.pending| == n
      && (forall p :: 0 <= p < n ==> x.nextIndex[p] == 0 && x.matchIndex[p] == 0 && x.pending[p] == [])
      && !x.batchRunning && !x.senderAlive && x.election == NoElection
  {
  }
}
