/** AppendEntries1 against the AppendEntries receiver of Figure 2 of the Raft paper. */
module Figure2 {
  import opened RaftTypes
  import opened RaftHandlers
  import opened Cluster
  import opened Receiver

  /** Steps 3 and 4 of Figure 2: on a conflict delete the entry and all that follow it, then
      append the entries that are not in the log. */
  function Truncating(logs: seq<Entry>, prev: nat, entries: seq<Entry>): seq<Entry>
    requires prev <= |logs|
    decreases |entries|
  {
    if |entries| == 0 then logs
    else if prev < |logs| && logs[prev].term == entries[0].term then Truncating(logs, prev + 1, entries[1..])
    else logs[..prev] + entries
  }

  /** Does the log hold an entry with this term at this index (index 0 before the first one)? */
  predicate Contains(logs: seq<Entry>, index: int, term: int) {
    (index == 0 && term == 0) || (1 <= index <= |logs| && logs[index - 1].term == term)
  }

  /** The node, and the results of the RPC: term and success. */
  datatype Received = Received(node: Node, term: int, success: bool)

  /** The receiver of Figure 2, its commit index never lowered (steps 1 to 5). */
  function Receive(x: Node, a: AppendArgs): Received {
    if a.term < x.currentTerm then Received(x, x.currentTerm, false)
    else
      var y := x.(status := Follower, currentTerm := a.term,
                  votedFor := if a.term > x.currentTerm then -1 else x.votedFor);
      if !Contains(y.logs, a.prevIndex, a.prevTerm) then Received(y, y.currentTerm, false)
      else
        var z := y.(logs := Truncating(y.logs, a.prevIndex, a.entries),
                    commitIndex :=
                      if a.leaderCommit > y.commitIndex
                      then Max(y.commitIndex, Min(a.leaderCommit, a.prevIndex + |a.entries|))
                      else y.commitIndex);
        Received(z, z.currentTerm, true)
  }

  lemma RestOk(logs: seq<Entry>, prev: nat, entries: seq<Entry>)
    requires |entries| > 0 && Contiguous(prev, entries) && !Clash(logs, prev, entries)
    ensures Contiguous(prev + 1, entries[1..]) && !Clash(logs, prev + 1, entries[1..])
  {
    var rest := entries[1..];
    forall k | 0 <= k < |rest| ensures rest[k] == entries[k + 1] && (prev + 1) + k == prev + (k + 1) {
    }
  }

  lemma ConflictsLater(logs: seq<Entry>, prev: nat, entries: seq<Entry>)
    requires |entries| > 0 && prev < |logs| && logs[prev].term == entries[0].term
    ensures Conflict(logs, prev, entries) <==> Conflict(logs, prev + 1, entries[1..])
  {
    var rest := entries[1..];
    if Conflict(logs, prev, entries) {
      var k :| 0 <= k < |entries| && prev + k < |logs| && logs[prev + k].term != entries[k].term;
      assert logs[prev + 1 + (k - 1)].term != rest[k - 1].term;
    }
    if Conflict(logs, prev + 1, rest) {
      var k :| 0 <= k < |rest| && prev + 1 + k < |logs| && logs[prev + 1 + k].term != rest[k].term;
      assert logs[prev + (k + 1)].term != entries[k + 1].term;
    }
  }

  /** A conflict is what makes the truncating receiver forget the rest of the log. */
  lemma {:induction false} TruncatingLength(logs: seq<Entry>, prev: nat, entries: seq<Entry>)
    requires prev <= |logs|
    ensures |Truncating(logs, prev, entries)| ==
            if Conflict(logs, prev, entries) then prev + |entries| else Max(|logs|, prev + |entries|)
    decreases |entries|
  {
    if |entries| > 0 && prev < |logs| {
      if logs[prev].term == entries[0].term {
        ConflictsLater(logs, prev, entries);
        TruncatingLength(logs, prev + 1, entries[1..]);
      } else {
        assert logs[prev + 0].term != entries[0].term;
      }
    }
  }

  /** What stands at position k once a batch has been stored. */
  function StoredAt(logs: seq<Entry>, prev: nat, entries: seq<Entry>, k: nat): Entry
    requires prev <= |logs| && k < Max(|logs|, prev + |entries|)
  {
    if prev <= k < prev + |entries| then entries[k - prev] else logs[k]
  }

  lemma {:induction false} TruncatingAt(logs: seq<Entry>, prev: nat, entries: seq<Entry>, k: nat)
    requires prev <= |logs| && Indexed(0, logs) && Contiguous(prev, entries) && !Clash(logs, prev, entries)
    requires k < |Truncating(logs, prev, entries)|
    ensures k < Max(|logs|, prev + |entries|)
    ensures Truncating(logs, prev, entries)[k] == StoredAt(logs, prev, entries, k)
    decreases |entries|
  {
    if |entries| > 0 && prev < |logs| && logs[prev].term == entries[0].term {
      RestOk(logs, prev, entries);
      assert logs[prev] == entries[0] by {
        assert logs[prev + 0].term == entries[0].term;
      }
      hide Contiguous, Clash, Indexed;
      TruncatingAt(logs, prev + 1, entries[1..], k);
    }
  }

  lemma OverwriteAt(logs: seq<Entry>, prev: nat, entries: seq<Entry>)
    requires prev <= |logs| && Indexed(0, logs) && Contiguous(prev, entries) && !Clash(logs, prev, entries)
    ensures
      var r := Overwrite(0, logs, entries);
      && r.Done? && |r.value| == Max(|logs|, prev + |entries|)
      && forall k :: 0 <= k < |r.value| ==> r.value[k] == StoredAt(logs, prev, entries, k)
  {
    OverwriteMerges(logs, prev, entries);
  }

  /** The overwriting receiver and the truncating one leave the same log exactly when C1 holds. */
  lemma SameLogExactlyWhenC1(x: Node, a: AppendArgs)
    requires x.snapIndex == 0 && Indexed(0, x.logs) && 0 <= a.prevIndex <= |x.logs|
    requires Contiguous(a.prevIndex, a.entries) && !Clash(x.logs, a.prevIndex, a.entries)
    ensures Overwrite(0, x.logs, a.entries).Done?
    ensures Overwrite(0, x.logs, a.entries).value == Truncating(x.logs, a.prevIndex, a.entries) <==> C1(x, a)
  {
    OverwriteAt(x.logs, a.prevIndex, a.entries);
    TruncatingLength(x.logs, a.prevIndex, a.entries);
    forall k | 0 <= k < |Truncating(x.logs, a.prevIndex, a.entries)|
      ensures k < Max(|x.logs|, a.prevIndex + |a.entries|)
      ensures Truncating(x.logs, a.prevIndex, a.entries)[k] == StoredAt(x.logs, a.prevIndex, a.entries, k)
    {
      TruncatingAt(x.logs, a.prevIndex, a.entries, k);
    }
    hide Overwrite, Truncating, Conflict, StoredAt, Contiguous, Clash, Indexed;
  }

  /** AppendEntries1 always answers as Figure 2 prescribes, and leaves the node so exactly when the
      delivery conforms: it is refused, or C1 and C2 hold. It aborts exactly when an accepted batch
      clashes. */
  lemma RefinesFigure2(x: Node, a: AppendArgs)
    requires x.snapIndex == 0 && x.snapTerm == 0 && Indexed(0, x.logs) && 0 <= x.commitIndex <= |x.logs|
    requires Contiguous(a.prevIndex, a.entries)
    ensures
      var accepted := a.term >= x.currentTerm && Contains(x.logs, a.prevIndex, a.prevTerm);
      AppendEntries(x, a).Aborted? <==> accepted && Clash(x.logs, a.prevIndex, a.entries)
    ensures AppendEntries(x, a).Done? ==>
      var r, want := AppendEntries(x, a).value, Receive(x, a);
      && r.reply.success == want.success && r.reply.term == want.term
      && (r.node == want.node <==> ConformingDelivery(x, a))
  {
    assert MatchLog(x, a.prevIndex, a.prevTerm) <==> Contains(x.logs, a.prevIndex, a.prevTerm);
    if a.term >= x.currentTerm && Contains(x.logs, a.prevIndex, a.prevTerm) {
      MergeAborts(x, a);
      if !Clash(x.logs, a.prevIndex, a.entries) {
        MatchedRefines(x, a);
      }
    }
  }

  lemma MergeAborts(x: Node, a: AppendArgs)
    requires x.snapIndex == 0 && x.snapTerm == 0 && Indexed(0, x.logs) && 0 <= x.commitIndex <= |x.logs|
    requires Contiguous(a.prevIndex, a.entries)
    requires a.term >= x.currentTerm && 0 <= a.prevIndex <= |x.logs| && MatchLog(x, a.prevIndex, a.prevTerm)
    ensures AppendEntries(x, a).Aborted? <==> Clash(x.logs, a.prevIndex, a.entries)
    ensures AppendEntries(x, a).Done? ==>
      var r := Overwrite(0, x.logs, a.entries);
      && r.Done? && Merged(x.logs, a.prevIndex, a.entries, r.value)
      && AppendEntries(x, a).value.node == Accepted(x, a).(logs := r.value,
           commitIndex := if a.leaderCommit > x.commitIndex then Min(a.leaderCommit, |r.value|) else x.commitIndex)
      && AppendEntries(x, a).value.reply == AppendReply(a.term, true, 0)
  {
    OverwriteMerges(x.logs, a.prevIndex, a.entries);
    assert AppendEntries(x, a) == AppendMatching(Accepted(x, a), a);
  }

  lemma MatchedRefines(x: Node, a: AppendArgs)
    requires x.snapIndex == 0 && x.snapTerm == 0 && Indexed(0, x.logs) && 0 <= x.commitIndex <= |x.logs|
    requires Contiguous(a.prevIndex, a.entries) && !Clash(x.logs, a.prevIndex, a.entries)
    requires a.term >= x.currentTerm && 0 <= a.prevIndex <= |x.logs|
    requires MatchLog(x, a.prevIndex, a.prevTerm) && Contains(x.logs, a.prevIndex, a.prevTerm)
    ensures AppendEntries(x, a).Done?
    ensures
      var r, want := AppendEntries(x, a).value, Receive(x, a);
      && r.reply.success == want.success && r.reply.term == want.term
      && (r.node == want.node <==> C1(x, a) && C2(x, a))
  {
    MergeAborts(x, a);
    SameLogExactlyWhenC1(x, a);
    var r, want := AppendEntries(x, a).value, Receive(x, a);
    var p, last := a.prevIndex + |a.entries|, |r.node.logs|;
    assert last == Max(|x.logs|, p);
    CommitsAlikeExactly(x.commitIndex, a.leaderCommit, last, p);
    assert r.node == want.node.(logs := r.node.logs, commitIndex := r.node.commitIndex);
    hide AppendEntries, Overwrite, Truncating, C1;
  }

  /** The follower's commit rule gives what step 5 gives exactly when it stays within the batch, or
      does not move. */
  lemma CommitsAlikeExactly(commit: int, leaderCommit: int, last: int, p: int)
    requires commit <= last && p <= last
    ensures
      (if leaderCommit > commit then Min(leaderCommit, last) else commit)
      == (if leaderCommit > commit then Max(commit, Min(leaderCommit, p)) else commit)
      <==> Min(leaderCommit, last) <= Max(commit, p)
  {
  }
}
