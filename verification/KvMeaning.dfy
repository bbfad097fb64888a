/** What the store holds after a log, and what a Get answers, in terms of the operations themselves:
    a Put replaces, an Append extends, the last Put counts and the Appends after it. */
module KvMeaning {
  import opened Bytes
  import opened OpCodec
  import opened KvStore

  // ---------------------------------------------------------------- the store after a log

  predicate PutsOn(op: Op, key: Bytes) {
    op.operation == PUT && op.key == key
  }

  predicate AppendsTo(op: Op, key: Bytes) {
    op.operation == APPEND && op.key == key
  }

  /** The values of the Appends to the key, one after the other. */
  function Appended(ops: seq<Op>, key: Bytes): Bytes
    decreases |ops|
  {
    if |ops| == 0 then []
    else
      var last := ops[|ops| - 1];
      Appended(ops[..|ops| - 1], key) + if AppendsTo(last, key) then last.value else []
  }

  /** ops[k] is the last Put on the key. */
  predicate LastPut(ops: seq<Op>, key: Bytes, k: int) {
    0 <= k < |ops| && PutsOn(ops[k], key) && forall j :: k < j < |ops| ==> !PutsOn(ops[j], key)
  }

  predicate Unwritten(ops: seq<Op>, key: Bytes) {
    forall k :: 0 <= k < |ops| ==> !PutsOn(ops[k], key) && !AppendsTo(ops[k], key)
  }

  /** What the operations leave under the key: the value of the last Put on it, followed by those of
      the Appends after it; without a Put, the values of the Appends. */
  ghost predicate Leaves(ops: seq<Op>, key: Bytes, value: Bytes) {
    || (exists k :: LastPut(ops, key, k) && value == ops[k].value + Appended(ops[k + 1..], key))
    || (&& (forall k :: 0 <= k < |ops| ==> !PutsOn(ops[k], key)) && !Unwritten(ops, key)
        && value == Appended(ops, key))
  }

  /** One operation touches no key but its own: a Put stores its value, an Append its value behind
      what was there, anything else nothing. */
  lemma ExecuteExactly(db: Db, op: Op, key: Bytes)
    ensures
      var db' := Execute(db, op);
      && (key in db' <==> key in db || PutsOn(op, key) || AppendsTo(op, key))
      && (PutsOn(op, key) ==> db'[key] == op.value)
      && (AppendsTo(op, key) ==> db'[key] == (if key in db then db[key] else []) + op.value)
      && (!PutsOn(op, key) && !AppendsTo(op, key) && key in db ==> db'[key] == db[key])
  {
  }

  lemma {:induction false} ExecutedExactly(ops: seq<Op>, key: Bytes)
    ensures key in ExecuteAll(ops) <==> !Unwritten(ops, key)
    ensures key in ExecuteAll(ops) ==> Leaves(ops, key, ExecuteAll(ops)[key])
    decreases |ops|
  {
    if |ops| > 0 {
      var init, last := ops[..|ops| - 1], |ops| - 1;
      ExecutedExactly(init, key);
      ExecuteExactly(ExecuteAll(init), ops[last], key);
      hide Execute;
      if PutsOn(ops[last], key) {
        assert ops[last + 1..] == [] && LastPut(ops, key, last);
        assert ops[last].value + Appended([], key) == ops[last].value;
      } else if key in ExecuteAll(ops) {
        LeavesMore(init, ops[last], key, if key in ExecuteAll(init) then ExecuteAll(init)[key] else []);
        assert init + [ops[last]] == ops;
      }
    }
  }

  lemma AppendedMore(ops: seq<Op>, op: Op, key: Bytes)
    ensures Appended(ops + [op], key) == Appended(ops, key) + if AppendsTo(op, key) then op.value else []
  {
    assert (ops + [op])[..|ops|] == ops;
  }

  lemma PutStays(ops: seq<Op>, op: Op, key: Bytes, k: int, value: Bytes)
    requires !PutsOn(op, key) && LastPut(ops, key, k) && value == ops[k].value + Appended(ops[k + 1..], key)
    ensures Leaves(ops + [op], key, value + if AppendsTo(op, key) then op.value else [])
  {
    var more := ops + [op];
    assert LastPut(more, key, k) && more[k + 1..] == ops[k + 1..] + [op];
    AppendedMore(ops[k + 1..], op, key);
    hide Appended, LastPut, PutsOn, AppendsTo;
    var after, tail := Appended(ops[k + 1..], key), if AppendsTo(op, key) then op.value else [];
    assert ops[k].value + after + tail == ops[k].value + (after + tail);
  }

  lemma AppendsStay(ops: seq<Op>, op: Op, key: Bytes)
    requires !PutsOn(op, key) && forall k :: 0 <= k < |ops| ==> !PutsOn(ops[k], key)
    requires !Unwritten(ops, key) || AppendsTo(op, key)
    ensures Leaves(ops + [op], key, Appended(ops, key) + if AppendsTo(op, key) then op.value else [])
  {
    var more := ops + [op];
    AppendedMore(ops, op, key);
    hide Appended;
    if !Unwritten(ops, key) {
      var k :| 0 <= k < |ops| && AppendsTo(ops[k], key);
      assert AppendsTo(more[k], key);
    } else {
      assert AppendsTo(more[|ops|], key);
    }
  }

  /** One more operation that does not put on the key. */
  lemma LeavesMore(ops: seq<Op>, op: Op, key: Bytes, value: Bytes)
    requires !PutsOn(op, key)
    requires Leaves(ops, key, value) || (Unwritten(ops, key) && value == [] && AppendsTo(op, key))
    ensures Leaves(ops + [op], key, value + if AppendsTo(op, key) then op.value else [])
  {
    if k :| LastPut(ops, key, k) && value == ops[k].value + Appended(ops[k + 1..], key) {
      PutStays(ops, op, key, k, value);
    } else {
      if Unwritten(ops, key) {
        NothingAppended(ops, key);
      }
      AppendsStay(ops, op, key);
    }
  }

  lemma {:induction false} NothingAppended(ops: seq<Op>, key: Bytes)
    requires Unwritten(ops, key)
    ensures Appended(ops, key) == []
    decreases |ops|
  {
    if |ops| > 0 {
      NothingAppended(ops[..|ops| - 1], key);
    }
  }

  /** No two values can both be left. */
  lemma LeavesOne(ops: seq<Op>, key: Bytes, v: Bytes, w: Bytes)
    requires Leaves(ops, key, v) && Leaves(ops, key, w)
    ensures v == w
  {
  }

  /** After any log a key holds exactly what its fresh operations leave under it: the last fresh Put
      and the fresh Appends after it, or the fresh Appends alone; and nothing exactly if no fresh operation
      writes it. */
  lemma KeyAfterLog(ops: seq<Op>, key: Bytes)
    ensures key in ApplyAll(ops).db <==> !Unwritten(FreshOps(ops), key)
    ensures forall v :: key in ApplyAll(ops).db && ApplyAll(ops).db[key] == v <==> Leaves(FreshOps(ops), key, v)
  {
    DedupIsExact(ops);
    var kept := FreshOps(ops);
    ExecutedExactly(kept, key);
    forall v | Leaves(kept, key, v) ensures key in ApplyAll(ops).db && ApplyAll(ops).db[key] == v {
      LeftIsWritten(kept, key, v);
      LeavesOne(kept, key, v, ExecuteAll(kept)[key]);
    }
  }

  lemma LeftIsWritten(ops: seq<Op>, key: Bytes, v: Bytes)
    requires Leaves(ops, key, v)
    ensures !Unwritten(ops, key)
  {
  }

  // ---------------------------------------------------------------- the record of a client

  /** What a read of the key yields after these operations: an absent key reads as empty. */
  ghost predicate ReadsAs(ops: seq<Op>, key: Bytes, value: Bytes) {
    Leaves(ops, key, value) || (Unwritten(ops, key) && value == [])
  }

  /** ops[k] is the client's last operation that takes effect. */
  predicate LastFresh(ops: seq<Op>, client: Bytes, k: int) {
    && 0 <= k < |ops| && ops[k].clientId == client && Fresh(ops, k)
    && forall j :: k < j < |ops| && ops[j].clientId == client ==> !Fresh(ops, j)
  }

  /** After any log a client's record is that of its last operation that took effect: its id, and for a
      Get the value that its key held then. */
  lemma {:induction false} RecordAfterLog(ops: seq<Op>, client: Bytes, k: int)
    requires LastFresh(ops, client, k)
    ensures
      var last := ApplyAll(ops).last;
      && client in last && last[client].lastRequestId == ops[k].requestId
      && (if ops[k].operation == GET then ReadsAs(FreshOps(ops[..k]), ops[k].key, last[client].lastValue)
          else last[client].lastValue == [])
    decreases |ops|
  {
    var init, last := ops[..|ops| - 1], |ops| - 1;
    hide FreshOps, Execute, Lookup, Leaves, Fresh, TableOf, ExecuteAll, LastFresh, ReadsAs;
    if k == last {
      LastIsApplied(ops);
      RecordWritten(ApplyAll(init), init, ops[k]);
    } else {
      EarlierFresh(ops, client, k);
      RecordAfterLog(init, client, k);
    }
  }

  lemma LastIsApplied(ops: seq<Op>)
    requires |ops| > 0
    ensures
      var op := ops[|ops| - 1];
      Fresh(ops, |ops| - 1) <==> !Duplicate(ApplyAll(ops[..|ops| - 1]).last, op.clientId, op.requestId)
  {
    DedupIsExact(ops[..|ops| - 1]);
    DuplicateIsStale(ops, ApplyAll(ops[..|ops| - 1]).last, |ops| - 1);
  }

  /** An operation after the client's last that takes effect leaves its record alone. */
  lemma EarlierFresh(ops: seq<Op>, client: Bytes, k: int)
    requires LastFresh(ops, client, k) && k < |ops| - 1
    ensures
      var init := ops[..|ops| - 1];
      && LastFresh(init, client, k) && init[k] == ops[k] && init[..k] == ops[..k]
      && (client in ApplyAll(init).last ==>
            client in ApplyAll(ops).last && ApplyAll(ops).last[client] == ApplyAll(init).last[client])
  {
    var init := ops[..|ops| - 1];
    LastIsApplied(ops);
    FreshIn(ops, k);
    forall j | k < j < |init| && init[j].clientId == client ensures !Fresh(init, j) {
      FreshIn(ops, j);
    }
    hide Fresh, Execute, Lookup;
  }

  lemma RecordWritten(s: Kv, init: seq<Op>, op: Op)
    requires s == ApplyAll(init) && !Duplicate(s.last, op.clientId, op.requestId)
    ensures
      var last := ApplyOp(s, op).last;
      && op.clientId in last && last[op.clientId].lastRequestId == op.requestId
      && (if op.operation == GET then ReadsAs(FreshOps(init), op.key, last[op.clientId].lastValue)
          else last[op.clientId].lastValue == [])
  {
    KeyAfterLog(init, op.key);
    hide FreshOps, Execute, Leaves;
  }

  lemma FreshIn(ops: seq<Op>, j: int)
    requires 0 <= j < |ops| - 1
    ensures Fresh(ops[..|ops| - 1], j) <==> Fresh(ops, j)
  {
    var init := ops[..|ops| - 1];
    assert forall i :: 0 <= i <= j ==> init[i] == ops[i];
  }

  // ---------------------------------------------------------------- Get

  /** Get, if nothing comes in between, on a leader and on any other node. */
  lemma GetExactly(s: Kv, isLeader: bool, commitIndex: int, client: Bytes, id: int, key: Bytes)
    ensures
      var r := Get(s, isLeader, commitIndex, client, id, key);
      var known := client in s.last && id <= s.last[client].lastRequestId;
      && (known ==> r == Reading(s, OK(s.last[client].lastValue)))
      && (r.answer == WrongLeader <==> !known && !isLeader && commitIndex <= 0)
      && (r.answer == WrongLeader ==> r.state == s)
      && (!known && r.answer != WrongLeader ==>
            && r.answer == (if key in s.db then OK(s.db[key]) else NoKey)
            && r.state == Kv(s.db, s.last[client := Record(id, if key in s.db then s.db[key] else [])]))
  {
  }

  /** These acts do not complete the lookup, or the recording, of call rid. */
  predicate Without(acts: seq<Act>, a: Act) {
    forall k :: 0 <= k < |acts| ==> acts[k] != a
  }

  lemma ServeAppend(acts: seq<Act>, a: Act)
    ensures ServeAll(acts + [a]) == Serve(ServeAll(acts), a)
  {
    assert (acts + [a])[..|acts|] == acts;
  }

  /** Until it looks up its key a call waits to do so. */
  lemma {:induction false} ChecksUntilLookUp(acts: seq<Act>, more: seq<Act>, rid: int)
    requires rid in ServeAll(acts).gets && ServeAll(acts).gets[rid].Checked? && Without(more, LookUp(rid))
    ensures rid in ServeAll(acts + more).gets && ServeAll(acts + more).gets[rid] == ServeAll(acts).gets[rid]
    decreases |more|
  {
    if |more| == 0 {
      assert acts + more == acts;
    } else {
      var init := more[..|more| - 1];
      ChecksUntilLookUp(acts, init, rid);
      assert acts + more == acts + init + [more[|more| - 1]];
      ServeAppend(acts + init, more[|more| - 1]);
      hide ServeAll;
    }
  }

  /** And then it keeps what it has found until it records it. */
  lemma {:induction false} KeepsUntilRecord(acts: seq<Act>, more: seq<Act>, rid: int)
    requires rid in ServeAll(acts).gets && ServeAll(acts).gets[rid].Looked? && Without(more, RecordRead(rid))
    ensures rid in ServeAll(acts + more).gets && ServeAll(acts + more).gets[rid] == ServeAll(acts).gets[rid]
    decreases |more|
  {
    if |more| == 0 {
      assert acts + more == acts;
    } else {
      var init := more[..|more| - 1];
      KeepsUntilRecord(acts, init, rid);
      assert acts + more == acts + init + [more[|more| - 1]];
      ServeAppend(acts + init, more[|more| - 1]);
      hide ServeAll;
    }
  }

  /** A Get call: checked, looked up after whatever `between` does, recorded after whatever `later`
      does. */
  function Called(before: seq<Act>, check: Act, between: seq<Act>): seq<Act> {
    before + [check] + between
  }

  /** In every interleaving: a Get that is no duplicate, on a leader or on a node that has committed
      something, answers OK with exactly what the store holds at its lookup, or NoKey exactly if the
      store lacks the key then; and that is what it records, an absent key as empty. */
  lemma GetAnswers(before: seq<Act>, check: Act, between: seq<Act>, later: seq<Act>)
    requires check.CheckRead? && check.rid !in ServeAll(before).gets
    requires !Duplicate(ServeAll(before).kv.last, check.client, check.id) && (check.isLeader || check.commitIndex > 0)
    requires Without(between, LookUp(check.rid)) && Without(later, RecordRead(check.rid))
    ensures
      var db := ServeAll(Called(before, check, between)).kv.db;
      var done := Called(before, check, between) + [LookUp(check.rid)] + later;
      var value := if check.key in db then db[check.key] else [];
      && check.rid in ServeAll(done).gets && ServeAll(done).gets[check.rid].Looked?
      && AnswerOf(ServeAll(done).gets[check.rid]) == (if check.key in db then OK(db[check.key]) else NoKey)
      && ServeAll(done + [RecordRead(check.rid)]).kv
         == ServeAll(done).kv.(last := ServeAll(done).kv.last[check.client := Record(check.id, value)])
  {
    var rid := check.rid;
    var found := Called(before, check, between);
    ServeAppend(before, check);
    ChecksUntilLookUp(before + [check], between, rid);
    ServeAppend(found, LookUp(rid));
    KeepsUntilRecord(found + [LookUp(rid)], later, rid);
    ServeAppend(found + [LookUp(rid)] + later, RecordRead(rid));
    hide ServeAll;
  }

  /** None of these acts writes the client's record. */
  predicate Spares(acts: seq<Act>, more: seq<Act>, client: Bytes)
    decreases |more|
  {
    |more| == 0
    || (var init := more[..|more| - 1];
        Spares(acts, init, client)
        && var w := Writes(ServeAll(acts + init), more[|more| - 1]); !(w.Write? && w.client == client))
  }

  lemma {:induction false} RecordStays(acts: seq<Act>, more: seq<Act>, client: Bytes)
    requires Spares(acts, more, client)
    ensures
      var was, now := ServeAll(acts).kv.last, ServeAll(acts + more).kv.last;
      (client in now <==> client in was) && (client in was ==> now[client] == was[client])
    decreases |more|
  {
    if |more| == 0 {
      assert acts + more == acts;
    } else {
      var init := more[..|more| - 1];
      RecordStays(acts, init, client);
      assert acts + more == acts + init + [more[|more| - 1]];
      ServeAppend(acts + init, more[|more| - 1]);
      hide ServeAll;
    }
  }

  /** A repeated Get whose client's record is still its own is answered OK with the value recorded the
      first time, whatever the store holds by now. */
  lemma RepeatedGetAnswers(acts: seq<Act>, client: Bytes, id: int, value: Bytes,
                           more: seq<Act>, check: Act, later: seq<Act>)
    requires client in ServeAll(acts).kv.last && ServeAll(acts).kv.last[client] == Record(id, value)
    requires Spares(acts, more, client) && Spares(acts + more + [check], later, client)
    requires check.CheckRead? && check.client == client && check.id <= id && check.rid !in ServeAll(acts + more).gets
    ensures
      var asked := acts + more + [check];
      && check.rid in ServeAll(asked).gets && ServeAll(asked).gets[check.rid] == Repeated(client)
      && CachedAnswer(ServeAll(asked + later).kv.last, client) == OK(value)
  {
    RecordStays(acts, more, client);
    ServeAppend(acts + more, check);
    RecordStays(acts + more + [check], later, client);
    hide ServeAll, Spares;
  }

  /** The operations whose effect is in the store. */
  function Effective(acts: seq<Act>): seq<Op> {
    var s := ServeAll(acts);
    if s.applying.Executed? then LogOf(acts) + [s.applying.op] else LogOf(acts)
  }

  /** With harmless reads the store at any moment, and so a Get that looks up its key then, shows what
      the log has left under the key so far. */
  lemma StoreShowsLog(acts: seq<Act>, key: Bytes)
    requires ReadsHarmless(acts)
    ensures
      var db, kept := ServeAll(acts).kv.db, FreshOps(Effective(acts));
      && (key in db <==> !Unwritten(kept, key))
      && (key in db ==> Leaves(kept, key, db[key]))
  {
    ReadsInvisibleExactly(acts);
    StoreAsLog(acts);
    KeyAfterLog(Effective(acts), key);
    hide ServeAll, LogOf, ReadsHarmless;
  }

  /** A Get reads what the log has left: with harmless reads it answers OK with a value exactly if the
      operations that have taken effect at its lookup leave that value under its key. */
  lemma GetReadsLog(before: seq<Act>, check: Act, between: seq<Act>, later: seq<Act>)
    requires check.CheckRead? && check.rid !in ServeAll(before).gets
    requires !Duplicate(ServeAll(before).kv.last, check.client, check.id) && (check.isLeader || check.commitIndex > 0)
    requires Without(between, LookUp(check.rid)) && Without(later, RecordRead(check.rid))
    requires ReadsHarmless(Called(before, check, between))
    ensures
      var kept := FreshOps(Effective(Called(before, check, between)));
      var gets := ServeAll(Called(before, check, between) + [LookUp(check.rid)] + later).gets;
      && check.rid in gets && gets[check.rid].Looked?
      && forall v :: AnswerOf(gets[check.rid]) == OK(v) <==> Leaves(kept, check.key, v)
  {
    var found := Called(before, check, between);
    GetAnswers(before, check, between, later);
    StoreShowsLog(found, check.key);
    hide ServeAll, Effective, ReadsHarmless, FreshOps, Leaves, Called, AnswerOf;
    var kept := FreshOps(Effective(found));
    forall v | Leaves(kept, check.key, v)
      ensures check.key in ServeAll(found).kv.db && ServeAll(found).kv.db[check.key] == v
    {
      LeftIsWritten(kept, check.key, v);
      LeavesOne(kept, check.key, v, ServeAll(found).kv.db[check.key]);
    }
  }
}
