/** In every run, whatever a node logs or applies was handed to Start of a leader. */
module Validity {
  import opened Bytes
  import opened RaftTypes
  import opened Cluster
  import opened Invariants
  import opened EventsKeep
  import opened Acknowledgements
  import opened RunHistory
  import opened MatchingRuns

  /** Start accepts the command: its node leads. */
  predicate Takes(s: Cluster, step: Step, command: Bytes)
    requires Sized(s)
  {
    Enabled(s, step) && !step.Crash? && step.ev == Propose(command) && s.nodes[step.i].status == Leader
  }

  /** One of the first p steps accepted the command. */
  ghost predicate Taken(n: nat, steps: seq<Step>, p: nat, command: Bytes)
    requires p <= |steps|
  {
    exists k :: 0 <= k < p && Takes(At(n, steps, k), steps[k], command)
  }

  /** All that leaders have logged, and all that nodes have applied, was accepted before. */
  ghost predicate AllTaken(n: nat, steps: seq<Step>, p: nat)
    requires p <= |steps|
  {
    var s := At(n, steps, p);
    && (forall t, e :: t in s.hist.reigns && e in s.hist.reigns[t].log ==> Taken(n, steps, p, e.command))
    && (forall i, m :: 0 <= i < n && m in s.nodes[i].applied ==> Taken(n, steps, p, m.command))
  }

  // ---------------------------------------------------------------- one event

  /** Where an entry of a leader's log comes from. */
  ghost predicate HasOrigin(h: History, x: Node, ev: Event, e: Entry) {
    || (exists t :: t in h.reigns && e in h.reigns[t].log)
    || (ev == Propose(e.command) && x.status == Leader)
  }

  lemma KnownOrigin(h: History, x: Node, ev: Event, k: int)
    requires KnownLog(h.reigns, x.logs) && 0 <= k < |x.logs|
    ensures HasOrigin(h, x, ev, x.logs[k])
  {
    assert Known(h.reigns, x.logs[k]);
    assert h.reigns[x.logs[k].term].log[x.logs[k].index - 1] in h.reigns[x.logs[k].term].log;
  }

  lemma EventOrigins(s: Cluster, i: int, ev: Event)
    requires Inv(s) && 0 <= i < s.n && EventEnabled(s, i, ev) && Run(s, i, ev).Done?
    ensures
      var g := Run(s, i, ev).value.hist.reigns;
      forall t, e :: t in g && e in g[t].log ==> HasOrigin(s.hist, s.nodes[i], ev, e)
  {
    var x, h := s.nodes[i], s.hist;
    var g := Run(s, i, ev).value.hist.reigns;
    assert NodeInv(s.n, h, i, x);
    forall t, e | t in g && e in g[t].log ensures HasOrigin(h, x, ev, e) {
      if e in x.logs {
        var k :| 0 <= k < |x.logs| && x.logs[k] == e;
        KnownOrigin(h, x, ev, k);
      } else if !(t in h.reigns && e in h.reigns[t].log) {
        NewEntry(s, i, ev, t, e);
      }
    }
  }

  lemma NewEntry(s: Cluster, i: int, ev: Event, t: int, e: Entry)
    requires Inv(s) && 0 <= i < s.n && EventEnabled(s, i, ev) && Run(s, i, ev).Done?
    requires
      var g := Run(s, i, ev).value.hist.reigns;
      t in g && e in g[t].log && e !in s.nodes[i].logs && !(t in s.hist.reigns && e in s.hist.reigns[t].log)
    ensures ev == Propose(e.command) && s.nodes[i].status == Leader
  {
    match ev
    case OnVoteReply(m) =>
      if Run(s, i, ev).value.hist != s.hist {
        WinIsNew(s, i, m);
      }
    case OnAppend(m) => AppendKeepsReigns(s.nodes[i], s.hist, m.args);
    case Propose(_) =>
    case _ => QuietLog(s, i, ev);
  }

  lemma AppendKeepsReigns(x: Node, h: History, a: AppendArgs)
    requires RunAppend(x, h, a).Done?
    ensures RunAppend(x, h, a).value.hist.reigns == h.reigns
  {
  }

  // ---------------------------------------------------------------- every run

  lemma TakenLater(n: nat, steps: seq<Step>, p: nat, q: nat, command: Bytes)
    requires p <= q <= |steps| && Taken(n, steps, p, command)
    ensures Taken(n, steps, q, command)
  {
  }

  lemma ReignsTaken(n: nat, steps: seq<Step>, p: nat, t: int, e: Entry)
    requires p < |steps| && AllTaken(n, steps, p)
    requires t in At(n, steps, p + 1).hist.reigns && e in At(n, steps, p + 1).hist.reigns[t].log
    ensures Taken(n, steps, p + 1, e.command)
  {
    var s, step := At(n, steps, p), steps[p];
    InvAt(n, steps, p);
    AtNext(n, steps, p);
    hide At, Inv;
    if t in s.hist.reigns && e in s.hist.reigns[t].log {
      TakenLater(n, steps, p, p + 1, e.command);
    } else {
      NewlyLogged(s, step, t, e);
      if Takes(s, step, e.command) {
        assert Takes(At(n, steps, p), steps[p], e.command);
      } else {
        TakenLater(n, steps, p, p + 1, e.command);
      }
    }
  }

  lemma NewlyLogged(s: Cluster, step: Step, t: int, e: Entry)
    requires Inv(s)
    requires t in Next(s, step).hist.reigns && e in Next(s, step).hist.reigns[t].log
    requires !(t in s.hist.reigns && e in s.hist.reigns[t].log)
    ensures Takes(s, step, e.command) || exists u :: u in s.hist.reigns && e in s.hist.reigns[u].log
  {
    assert Enabled(s, step) && !step.Crash?;
    WhatLasts(s, step);
    EventOrigins(s, step.i, step.ev);
    hide Inv, Next, Run, EventEnabled;
    assert HasOrigin(s.hist, s.nodes[step.i], step.ev, e);
  }

  lemma AppliedTaken(n: nat, steps: seq<Step>, p: nat, i: nat, m: ApplyMsg)
    requires p < |steps| && AllTaken(n, steps, p) && i < n && m in At(n, steps, p + 1).nodes[i].applied
    ensures Taken(n, steps, p + 1, m.command)
  {
    var s := At(n, steps, p);
    InvAt(n, steps, p);
    AtNext(n, steps, p);
    NextApplies(s, steps[p], i);
    assert KnownLog(s.hist.reigns, s.nodes[i].logs) by { assert NodeInv(n, s.hist, i, s.nodes[i]); }
    hide Inv, At, Next;
    if m !in s.nodes[i].applied {
      NewlyApplied(s.hist, s.nodes[i], At(n, steps, p + 1).nodes[i], m);
    }
    TakenLater(n, steps, p, p + 1, m.command);
  }

  lemma NewlyApplied(h: History, x: Node, y: Node, m: ApplyMsg)
    requires KnownLog(h.reigns, x.logs) && Applies(x, y) && m in y.applied && m !in x.applied
    ensures exists t, e :: t in h.reigns && e in h.reigns[t].log && e.command == m.command
  {
    var k :| 0 <= k < |y.applied| && y.applied[k] == m;
    var e := x.logs[k];
    assert Known(h.reigns, e);
    assert h.reigns[e.term].log[e.index - 1] in h.reigns[e.term].log;
  }

  lemma {:induction false} AlwaysTaken(n: nat, steps: seq<Step>, p: nat)
    requires p <= |steps|
    ensures AllTaken(n, steps, p)
    decreases p
  {
    if p == 0 {
      assert At(n, steps, 0) == Init(n);
    } else {
      hide At, Taken;
      AlwaysTaken(n, steps, p - 1);
      forall t, e | t in At(n, steps, p).hist.reigns && e in At(n, steps, p).hist.reigns[t].log
        ensures Taken(n, steps, p, e.command)
      {
        ReignsTaken(n, steps, p - 1, t, e);
      }
      forall i, m | 0 <= i < n && m in At(n, steps, p).nodes[i].applied ensures Taken(n, steps, p, m.command) {
        AppliedTaken(n, steps, p - 1, i, m);
      }
    }
  }

  /** Nothing is invented: every command in a log, and every command on an apply channel, was
      accepted by a leader at an earlier step of the run. */
  lemma NothingInvented(n: nat, steps: seq<Step>, p: nat, i: nat, command: Bytes)
    requires p <= |steps| && i < n
    requires
      var x := At(n, steps, p).nodes[i];
      (exists e :: e in x.logs && e.command == command) || (exists m :: m in x.applied && m.command == command)
    ensures Taken(n, steps, p, command)
  {
    var s := At(n, steps, p);
    InvAt(n, steps, p);
    AlwaysTaken(n, steps, p);
    if e :| e in s.nodes[i].logs && e.command == command {
      assert NodeInv(n, s.hist, i, s.nodes[i]);
      assert Known(s.hist.reigns, e);
      assert s.hist.reigns[e.term].log[e.index - 1] in s.hist.reigns[e.term].log;
    }
  }
}
