/** From the replicated log to the store: what Raft's safety means for the KV servers on top. */
module EndToEnd {
  import opened Bytes
  import opened RaftTypes
  import opened Cluster
  import opened RunHistory
  import opened RaftTheorems
  import opened ConformingTheorems
  import opened OpCodec
  import opened KvStore
  import opened Validity
  import opened Majorities
  import KvServer

  /** The command was written by encodeOp. */
  ghost predicate Encoded(command: Bytes) {
    exists op :: OpCodec.Fits(op) && command == Encode(op)
  }

  /** Whoever calls Start hands it an encoded operation. */
  ghost predicate ClientsEncode(steps: seq<Step>) {
    forall k :: 0 <= k < |steps| && !steps[k].Crash? && steps[k].ev.Propose? ==> Encoded(steps[k].ev.command)
  }

  /** A server whose Apply has worked off some of these messages, from the first on, between reads
      of its own; `unset` is the memory decodeOp found at each of them. */
  ghost predicate Served(msgs: seq<ApplyMsg>, unset: seq<Int32>, acts: seq<Act>) {
    && |LogOf(acts)| <= |msgs| && |LogOf(acts)| <= |unset|
    && forall k :: 0 <= k < |LogOf(acts)| ==> LogOf(acts)[k] == Decode(msgs[k].command, unset[k])
  }

  /** Both servers are between two messages, and have worked off equally many. */
  predicate Level(a: seq<Act>, b: seq<Act>) {
    ServeAll(a).applying.Idle? && ServeAll(b).applying.Idle? && |LogOf(a)| == |LogOf(b)|
  }

  lemma AppliedEncoded(n: nat, steps: seq<Step>, p: nat, i: nat)
    requires ClientsEncode(steps) && p <= |steps| && i < n
    ensures forall m :: m in At(n, steps, p).nodes[i].applied ==> Encoded(m.command)
  {
    forall m | m in At(n, steps, p).nodes[i].applied ensures Encoded(m.command) {
      NothingInvented(n, steps, p, i, m.command);
      var j :| 0 <= j < p && Takes(At(n, steps, j), steps[j], m.command);
    }
  }

  lemma SameLog(msgs: seq<ApplyMsg>, msgs': seq<ApplyMsg>, u: seq<Int32>, v: seq<Int32>, a: seq<Act>, b: seq<Act>)
    requires Served(msgs, u, a) && Served(msgs', v, b) && (msgs <= msgs' || msgs' <= msgs)
    requires forall m :: m in msgs ==> Encoded(m.command)
    ensures LogOf(a) <= LogOf(b) || LogOf(b) <= LogOf(a)
  {
    forall k | 0 <= k < |LogOf(a)| && k < |LogOf(b)| ensures LogOf(a)[k] == LogOf(b)[k] {
      assert msgs[k] == msgs'[k];
      var op :| OpCodec.Fits(op) && msgs[k].command == Encode(op);
      RoundTrip(op, u[k]);
      RoundTrip(op, v[k]);
    }
  }

  lemma SameStore(a: seq<Act>, b: seq<Act>)
    requires LogOf(a) <= LogOf(b) || LogOf(b) <= LogOf(a)
    ensures ReadsHarmless(a) && ReadsHarmless(b) && Level(a, b) ==> ServeAll(a).kv.db == ServeAll(b).kv.db
  {
    if ReadsHarmless(a) && ReadsHarmless(b) && Level(a, b) {
      ReplicasAgree(a, b);
    }
  }

  /** In a conforming run any two servers, two replicas or one node before and after a restart, work
      off the same operations in the same order, however far behind its apply channel each may be;
      and once they have worked off equally many they hold the same store, if the local reads of
      each are harmless. */
  lemma ReplicatedStore(n: nat, steps: seq<Step>, p: nat, q: nat, i: nat, j: nat,
                        u: seq<Int32>, v: seq<Int32>, a: seq<Act>, b: seq<Act>)
    requires ConformingRun(n, steps) && ClientsEncode(steps) && p <= q <= |steps| && i < n && j < n
    requires Served(At(n, steps, p).nodes[i].applied, u, a) && Served(At(n, steps, q).nodes[j].applied, v, b)
    ensures LogOf(a) <= LogOf(b) || LogOf(b) <= LogOf(a)
    ensures ReadsHarmless(a) && ReadsHarmless(b) && Level(a, b) ==> ServeAll(a).kv.db == ServeAll(b).kv.db
  {
    StateMachineSafety(n, steps, p, q, i, j);
    AppliedEncoded(n, steps, p, i);
    SameLog(At(n, steps, p).nodes[i].applied, At(n, steps, q).nodes[j].applied, u, v, a, b);
    SameStore(a, b);
  }

  /** In every run, conforming or not: the server of a node that restarts works off the operations it
      had worked off before, and rebuilds the store it had, if the applied prefix of its log has
      stayed as it was. */
  lemma RestartRebuildsStore(n: nat, steps: seq<Step>, p: nat, q: nat, i: nat,
                             u: seq<Int32>, v: seq<Int32>, a: seq<Act>, b: seq<Act>)
    requires ClientsEncode(steps) && p <= q <= |steps| && i < n && AppliedIsLogged(At(n, steps, p).nodes[i])
    requires PrefixStays(n, steps, p, q, i, |At(n, steps, p).nodes[i].applied|)
    requires Served(At(n, steps, p).nodes[i].applied, u, a) && Served(At(n, steps, q).nodes[i].applied, v, b)
    ensures LogOf(a) <= LogOf(b) || LogOf(b) <= LogOf(a)
    ensures ReadsHarmless(a) && ReadsHarmless(b) && Level(a, b) ==> ServeAll(a).kv.db == ServeAll(b).kv.db
  {
    RestartReplays(n, steps, p, q, i);
    AppliedEncoded(n, steps, p, i);
    SameLog(At(n, steps, p).nodes[i].applied, At(n, steps, q).nodes[i].applied, u, v, a, b);
    SameStore(a, b);
  }

  // ---------------------------------------------------------------- what an OK is worth

  /** The command was written for the client's request. */
  ghost predicate Carries(command: Bytes, op: Op) {
    exists sent :: OpCodec.Fits(sent) && command == Encode(sent) && KvServer.Same(sent, op)
  }

  /** The request stands at this index in the log of every leader of this term or a later one, and on
      the disks of a majority. */
  ghost predicate Secure(s: Cluster, term: int, index: int, op: Op)
    requires Sized(s)
  {
    && (forall j :: 0 <= j < s.n && s.nodes[j].status == Leader && term <= s.nodes[j].currentTerm ==>
          1 <= index <= |s.nodes[j].logs| && Carries(s.nodes[j].logs[index - 1].command, op))
    && exists voters :: Majority(s.n, voters) && OnDisks(s, voters, index, op)
  }

  ghost predicate OnDisks(s: Cluster, voters: set<int>, index: int, op: Op)
    requires Sized(s)
  {
    forall v :: v in voters ==>
      0 <= v < s.n && 1 <= index <= |s.disks[v].logs| && Carries(s.disks[v].logs[index - 1].command, op)
  }

  /** Whatever a server has worked off at some moment p of a conforming run is secure at every moment
      q from then on. */
  lemma LoggedIsSecure(n: nat, steps: seq<Step>, p: nat, q: nat, i: nat,
                       unset: seq<Int32>, acts: seq<Act>, k: nat, op: Op)
    requires ConformingRun(n, steps) && ClientsEncode(steps) && p <= q <= |steps| && i < n
    requires Served(At(n, steps, p).nodes[i].applied, unset, acts)
    requires k < |LogOf(acts)| && KvServer.Same(LogOf(acts)[k], op)
    ensures Secure(At(n, steps, q), At(n, steps, p).nodes[i].currentTerm, k + 1, op)
  {
    var x, s := At(n, steps, p).nodes[i], At(n, steps, q);
    hide ConformingRun, ClientsEncode, At, Carries, OnDisks, DurableOn, Served, LogOf, AppliedIsLogged;
    WorkedOffCarries(n, steps, p, i, unset, acts, k, op);
    forall j: nat | j < n && s.nodes[j].status == Leader && x.currentTerm <= s.nodes[j].currentTerm
      ensures k + 1 <= |s.nodes[j].logs| && s.nodes[j].logs[k] == x.logs[k]
    {
      LeaderHasCommitted(n, steps, p, q, i, j);
      SameAt(x.logs, s.nodes[j].logs, x.commitIndex, k);
    }
    var voters := CommittedIsDurable(n, steps, p, q, i);
    DurableCarries(s, voters, x, k, op);
  }

  lemma SameAt(a: seq<Entry>, b: seq<Entry>, c: int, k: nat)
    requires k < c <= |a| && c <= |b| && b[..c] == a[..c]
    ensures b[k] == a[k]
  {
    assert b[..c][k] == a[..c][k];
  }

  lemma WorkedOffCarries(n: nat, steps: seq<Step>, p: nat, i: nat, unset: seq<Int32>, acts: seq<Act>, k: nat, op: Op)
    requires ConformingRun(n, steps) && ClientsEncode(steps) && p <= |steps| && i < n
    requires Served(At(n, steps, p).nodes[i].applied, unset, acts)
    requires k < |LogOf(acts)| && KvServer.Same(LogOf(acts)[k], op)
    ensures
      var x := At(n, steps, p).nodes[i];
      k < x.commitIndex <= |x.logs| && Carries(x.logs[k].command, op)
  {
    var x := At(n, steps, p).nodes[i];
    AppliedFromLog(n, steps, p, i);
    AppliedEncoded(n, steps, p, i);
    hide ConformingRun, ClientsEncode, At;
    assert x.applied[k] in x.applied;
    var sent :| OpCodec.Fits(sent) && x.applied[k].command == Encode(sent);
    RoundTrip(sent, unset[k]);
  }

  lemma DurableCarries(s: Cluster, voters: set<int>, x: Node, k: nat, op: Op)
    requires Sized(s) && DurableOn(s, voters, x) && k < x.commitIndex <= |x.logs| && Carries(x.logs[k].command, op)
    ensures OnDisks(s, voters, k + 1, op)
  {
    forall v | v in voters ensures s.disks[v].logs[k].command == x.logs[k].command {
      assert s.disks[v].logs[..x.commitIndex][k] == SavedLog(x.logs)[..x.commitIndex][k];
    }
  }

  /** An OK to a caller that is woken: in a conforming run the request is secure at its own index,
      then and ever after. */
  lemma WokenIsSecure(n: nat, steps: seq<Step>, p: nat, q: nat, i: nat,
                      unset: seq<Int32>, served: seq<KvServer.Step>, id: int)
    requires ConformingRun(n, steps) && ClientsEncode(steps) && p <= q <= |steps| && i < n
    requires Served(At(n, steps, p).nodes[i].applied, unset, KvServer.Acts(served))
    requires KvServer.CanWake(KvServer.After(served), id)
    ensures
      var c := KvServer.After(served).calls[id];
      KvServer.After(served + [KvServer.Wake(id)]).calls[id] == KvServer.Reply(c, true) ==>
        Secure(At(n, steps, q), At(n, steps, p).nodes[i].currentTerm, c.index, c.op)
  {
    hide ConformingRun, ClientsEncode, At, Served, Secure, Carries, KvServer.After, KvServer.Acts, LogOf;
    var c := KvServer.After(served).calls[id];
    KvServer.WokenExactly(served, id);
    if KvServer.Same(KvServer.Log(served)[c.index - 1], c.op) {
      LoggedIsSecure(n, steps, p, q, i, unset, KvServer.Acts(served), c.index - 1, c.op);
    }
  }

  /** Any OK, on a server whose table never forgets: the request is secure at some index, unless its
      client has gone past it. */
  lemma OkIsSecure(n: nat, steps: seq<Step>, p: nat, q: nat, i: nat,
                   unset: seq<Int32>, served: seq<KvServer.Step>, id: int)
    requires ConformingRun(n, steps) && ClientsEncode(steps) && p <= q <= |steps| && i < n
    requires Served(At(n, steps, p).nodes[i].applied, unset, KvServer.Acts(served)) && KvServer.TimelyRun(served)
    requires
      var s := KvServer.After(served);
      id in s.calls && s.calls[id].Replied? && s.calls[id].ok
    ensures
      var op := KvServer.After(served).calls[id].op;
      || KvServer.Passed(served, op)
      || exists index :: Secure(At(n, steps, q), At(n, steps, p).nodes[i].currentTerm, index, op)
  {
    var op := KvServer.After(served).calls[id].op;
    KvServer.OkMeansLogged(served, id);
    hide ConformingRun, ClientsEncode, At, Served, Secure, KvServer.TimelyRun;
    if KvServer.Logged(KvServer.Log(served), op) {
      var k: nat :| k < |KvServer.Log(served)| && KvServer.Same(KvServer.Log(served)[k], op);
      LoggedIsSecure(n, steps, p, q, i, unset, KvServer.Acts(served), k, op);
    }
  }
}
