/** When a leader may commit (section 5.4.2 of the Raft paper). */
module CommitRule {
  import opened RaftTypes
  import opened RaftHandlers
  import opened Majorities

  /** The leader and the peers known to hold its log up to index N. */
  function Holders(x: Node, N: int): (r: set<int>)
    ensures forall i :: i in r <==> 0 <= i < x.peers && i < |x.matchIndex| && (i == x.me || x.matchIndex[i] >= N)
  {
    set i | 0 <= i < x.peers && i < |x.matchIndex| && (i == x.me || x.matchIndex[i] >= N)
  }

  predicate MajorityHolds(x: Node, N: int) {
    |Holders(x, N)| >= Quorum(x.peers)
  }

  /** An index of the current term, above the commit index, that a majority holds. */
  predicate Committable(x: Node, N: int) {
    x.commitIndex < N <= LastLogIndex(x) && MajorityHolds(x, N) && LogTermAt(x, N) == x.currentTerm
  }

  /** The largest index that may be committed, or the commit index if there is none. */
  ghost predicate IsCommitTarget(x: Node, c: int) {
    && (c == x.commitIndex || Committable(x, c))
    && forall N :: Committable(x, N) ==> N <= c
  }

  /** What the scan from the top does: it stops at the first index a majority holds, whatever its
      term. */
  ghost predicate IsScanResult(x: Node, c: int) {
    || (exists N :: x.commitIndex < N <= LastLogIndex(x) && FirstHeld(x, N)
                    && c == if LogTermAt(x, N) == x.currentTerm then N else x.commitIndex)
    || (c == x.commitIndex && forall N :: x.commitIndex < N <= LastLogIndex(x) ==> !MajorityHolds(x, N))
  }

  predicate FirstHeld(x: Node, N: int) {
    MajorityHolds(x, N) && forall M :: N < M <= LastLogIndex(x) ==> !MajorityHolds(x, M)
  }

  /** A majority that holds N holds everything below N. */
  lemma HoldersBelow(x: Node, M: int, N: int)
    requires M <= N && MajorityHolds(x, N)
    ensures MajorityHolds(x, M)
  {
    SubsetSize(Holders(x, N), Holders(x, M));
  }

  /** The largest index above the commit index that a majority holds is of the current term, or
      nothing of the current term is held by a majority. */
  ghost predicate BreakIsRight(x: Node) {
    forall N :: x.commitIndex < N <= LastLogIndex(x) && FirstHeld(x, N) && LogTermAt(x, N) != x.currentTerm ==>
      forall M :: x.commitIndex < M < N ==> LogTermAt(x, M) != x.currentTerm
  }

  /** The early break is right exactly when no entry of the current term lies below the first held
      index of another term. */
  lemma ScanIsRightExactly(x: Node, c: int)
    requires IsScanResult(x, c)
    ensures IsCommitTarget(x, c) <==> BreakIsRight(x)
  {
    if N :| x.commitIndex < N <= LastLogIndex(x) && FirstHeld(x, N)
            && c == if LogTermAt(x, N) == x.currentTerm then N else x.commitIndex {
      forall M | M <= N ensures MajorityHolds(x, M) {
        HoldersBelow(x, M, N);
      }
      if LogTermAt(x, N) != x.currentTerm && IsCommitTarget(x, c) {
        forall M | x.commitIndex < M < N ensures LogTermAt(x, M) != x.currentTerm {
          assert !Committable(x, M);
        }
      }
    }
  }

  /** Whenever the counter of a batch makes the leader commit, the peers it has heard from are a
      majority that holds the committed index. */
  lemma CounterMeansMajority(x: Node, peer: int, a: AppendArgs, r: AppendReply)
    requires |x.nextIndex| == |x.matchIndex| == x.peers && 0 <= x.me < x.peers
    requires 0 <= peer < x.peers && peer != x.me
    requires AppendAnswered(x, peer, a, r, 1).Done?
    ensures
      var y := AppendAnswered(x, peer, a, r, 1).value.node;
      y.commitIndex != x.commitIndex ==>
        && MajorityHolds(y, y.commitIndex) && LogTermAtEnd(a) == x.currentTerm
        && x.commitIndex < y.commitIndex <= LastLogIndex(y)
  {
    var y := AppendAnswered(x, peer, a, r, 1).value.node;
    if y.commitIndex != x.commitIndex {
      assert {x.me, peer} <= Holders(y, y.commitIndex);
      SubsetSize({x.me, peer}, Holders(y, y.commitIndex));
    }
  }

  /** The term of the last entry of a batch. */
  function LogTermAtEnd(a: AppendArgs): int {
    if |a.entries| == 0 then -1 else a.entries[|a.entries| - 1].term
  }
}
