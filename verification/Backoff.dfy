/** How fast a leader finds where a follower's log matches: heartbeats probe at nextIndex - 1, and
    a rejection tells the leader how far to go back. */
module Backoff {
  import opened RaftTypes
  import opened RaftHandlers

  /** The number of maximal stretches of entries with equal terms. */
  function TermRuns(log: seq<Entry>): nat
    decreases |log|
  {
    if |log| == 0 then 0
    else
      var init := log[..|log| - 1];
      if |init| > 0 && init[|init| - 1].term == log[|log| - 1].term then TermRuns(init) else TermRuns(init) + 1
  }

  /** Leader l probes follower f, its peer p, in a term f does not refuse. */
  predicate Probing(l: Node, f: Node, p: int) {
    && l.status == Leader && l.snapIndex == 0 && l.snapTerm == 0
    && 0 <= p < |l.nextIndex| && p < |l.matchIndex| && 1 <= l.nextIndex[p]
    && f.snapIndex == 0 && f.snapTerm == 0 && f.currentTerm <= l.currentTerm
    && 0 <= f.commitIndex <= |f.logs|
    && (forall k :: 0 <= k < |f.logs| ==> 1 <= f.logs[k].term)
  }

  /** Do the logs of l and f have the same term just before nextIndex? */
  predicate Matches(l: Node, f: Node, p: int)
    requires 0 <= p < |l.nextIndex|
  {
    MatchLog(f, l.nextIndex[p] - 1, LogTermAt(l, l.nextIndex[p] - 1))
  }

  function Probe(l: Node, f: Node, p: int): Outcome<AppendResult>
    requires 0 <= p < |l.nextIndex|
  {
    AppendEntries(f, HeartbeatArgs(l, p))
  }

  /** The leader once the answer to its heartbeat is in; 1 is the counter doHeartBeat starts at. */
  function Answered(l: Node, p: int, r: AppendReply): Outcome<Persisting>
    requires 0 <= p < |l.nextIndex| && p < |l.matchIndex|
  {
    AppendAnswered(l, p, HeartbeatArgs(l, p), r, 1)
  }

  /** From index down to 0, all entries so far in the term at prev: the answer is where that run
      of equal terms begins. */
  lemma {:induction false} BackoffStartsRun(f: Node, prev: int, index: int)
    requires f.snapIndex == 0 && f.snapTerm == 0 && 1 <= index <= prev <= |f.logs|
    requires forall k :: 0 <= k < |f.logs| ==> 1 <= f.logs[k].term
    requires f.logs[index - 1].term == f.logs[prev - 1].term
    requires TermRuns(f.logs[..index]) == TermRuns(f.logs[..prev])
    ensures
      var b := BackoffFrom(f, prev, index);
      1 <= b <= prev && TermRuns(f.logs[..b - 1]) + 1 == TermRuns(f.logs[..prev])
    decreases index
  {
    assert f.logs[..index][..index - 1] == f.logs[..index - 1];
    assert BackoffFrom(f, prev, index) == BackoffFrom(f, prev, index - 1);
    if 1 < index && f.logs[index - 2].term == f.logs[prev - 1].term {
      BackoffStartsRun(f, prev, index - 1);
    } else {
      assert BackoffFrom(f, prev, index - 1) == index;
    }
  }

  lemma MatchAnswer(l: Node, f: Node, p: int)
    requires Probing(l, f, p) && Matches(l, f, p)
    ensures Probe(l, f, p).Done?
    ensures
      var r := Probe(l, f, p).value;
      r.node.logs == f.logs && r.reply == AppendReply(l.currentTerm, true, 0)
  {
    var a := HeartbeatArgs(l, p);
    assert Overwrite(0, f.logs, a.entries) == Done(f.logs);
    assert AppendEntries(f, a) == AppendMatching(Accepted(f, a), a);
    hide AppendEntries;
  }

  lemma MismatchAnswer(l: Node, f: Node, p: int)
    requires Probing(l, f, p) && !Matches(l, f, p)
    ensures
      var a := HeartbeatArgs(l, p);
      Probe(l, f, p) == Refuse(Accepted(f, a),
        if a.prevIndex > |f.logs| then |f.logs| + 1 else BackoffFrom(Accepted(f, a), a.prevIndex, a.prevIndex))
  {
    hide BackoffFrom, AppendMatching;
  }

  /** A heartbeat is answered; the answer is a rejection exactly when the logs do not match at
      prev, and then it points before nextIndex: past the end of a short log, or to the start of
      the run of equal terms at prev. */
  lemma ProbeAnswer(l: Node, f: Node, p: int)
    requires Probing(l, f, p)
    ensures Probe(l, f, p).Done?
    ensures
      var r, prev := Probe(l, f, p).value, l.nextIndex[p] - 1;
      && r.node.logs == f.logs && r.reply.term == l.currentTerm
      && (r.reply.success <==> Matches(l, f, p))
      && (!r.reply.success ==>
            && 1 <= r.reply.updateNextIndex <= prev
            && if prev > |f.logs| then r.reply.updateNextIndex == |f.logs| + 1
               else TermRuns(f.logs[..r.reply.updateNextIndex - 1]) + 1 == TermRuns(f.logs[..prev]))
  {
    var prev := l.nextIndex[p] - 1;
    if Matches(l, f, p) {
      MatchAnswer(l, f, p);
    } else {
      MismatchAnswer(l, f, p);
      if prev <= |f.logs| {
        BackoffStartsRun(Accepted(f, HeartbeatArgs(l, p)), prev, prev);
      }
      hide Probe, BackoffFrom, TermRuns;
    }
  }

  /** A rejection strictly lowers nextIndex, and never below 1. */
  lemma RejectionLowers(l: Node, f: Node, p: int)
    requires Probing(l, f, p) && !Matches(l, f, p)
    ensures Probe(l, f, p).Done? && Answered(l, p, Probe(l, f, p).value.reply).Done?
    ensures
      var r := Probe(l, f, p).value;
      var l' := Answered(l, p, r.reply).value.node;
      && l' == l.(nextIndex := l.nextIndex[p := r.reply.updateNextIndex])
      && 1 <= l'.nextIndex[p] < l.nextIndex[p]
      && Probing(l', r.node, p)
  {
    ProbeAnswer(l, f, p);
  }

  /** How many heartbeats in a row are rejected until one matches, nothing else happening. */
  ghost function Rejections(l: Node, f: Node, p: int): nat
    requires Probing(l, f, p)
    decreases l.nextIndex[p]
  {
    if Matches(l, f, p) then 0
    else
      RejectionLowers(l, f, p);
      var r := Probe(l, f, p).value;
      1 + Rejections(Answered(l, p, r.reply).value.node, r.node, p)
  }

  lemma {:induction false} RejectionsWithinLog(l: Node, f: Node, p: int)
    requires Probing(l, f, p) && l.nextIndex[p] - 1 <= |f.logs|
    ensures Rejections(l, f, p) <= TermRuns(f.logs[..l.nextIndex[p] - 1])
    decreases l.nextIndex[p]
  {
    if !Matches(l, f, p) {
      ProbeAnswer(l, f, p);
      RejectionLowers(l, f, p);
      var r := Probe(l, f, p).value;
      RejectionsWithinLog(Answered(l, p, r.reply).value.node, r.node, p);
    }
  }

  /** A match is found after at most one rejection per run of equal terms in the follower's log,
      and one more if the first probe lies beyond its end. */
  lemma BackoffBound(l: Node, f: Node, p: int)
    requires Probing(l, f, p)
    ensures Rejections(l, f, p) <= 1 + TermRuns(f.logs)
    ensures l.nextIndex[p] - 1 <= |f.logs| ==> Rejections(l, f, p) <= TermRuns(f.logs[..l.nextIndex[p] - 1])
  {
    if l.nextIndex[p] - 1 <= |f.logs| {
      RejectionsWithinLog(l, f, p);
      FewerRuns(f.logs, l.nextIndex[p] - 1);
    } else {
      ProbeAnswer(l, f, p);
      RejectionLowers(l, f, p);
      var r := Probe(l, f, p).value;
      RejectionsWithinLog(Answered(l, p, r.reply).value.node, r.node, p);
      assert f.logs[..|f.logs|] == f.logs;
    }
  }

  lemma {:induction false} FewerRuns(log: seq<Entry>, k: nat)
    requires k <= |log|
    ensures TermRuns(log[..k]) <= TermRuns(log)
    decreases |log|
  {
    if k < |log| {
      FewerRuns(log[..|log| - 1], k);
      assert log[..|log| - 1][..k] == log[..k];
    } else {
      assert log[..k] == log;
    }
  }
}
