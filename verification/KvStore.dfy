/** The KV state machine of KvServer/KvServer.cpp as functions: Apply, the dedup table, local
    reads. The skip list is a finite map in which inserting a key again replaces its value. */
module KvStore {
  import opened Bytes
  import opened OpCodec

  const GET: Bytes := [71, 101, 116]
  const PUT: Bytes := [80, 117, 116]
  const APPEND: Bytes := [65, 112, 112, 101, 110, 100]

  datatype Record = Record(lastRequestId: int, lastValue: Bytes)

  type Db = map<Bytes, Bytes>

  type Table = map<Bytes, Record>

  datatype Kv = Kv(db: Db, last: Table)

  const EMPTY := Kv(map[], map[])

  function Lookup(db: Db, key: Bytes): Bytes {
    if key in db then db[key] else []
  }

  /** ExecutePutAppendOnKVDB: every other operation leaves the store alone. */
  function Execute(db: Db, op: Op): Db {
    if op.operation == PUT then db[op.key := op.value]
    else if op.operation == APPEND then db[op.key := Lookup(db, op.key) + op.value]
    else db
  }

  predicate Duplicate(last: Table, client: Bytes, id: int) {
    client in last && id <= last[client].lastRequestId
  }

  function Note(last: Table, client: Bytes, id: int, value: Bytes): Table {
    last[client := Record(id, value)]
  }

  /** The state change of Apply for one operation of the log. */
  function ApplyOp(s: Kv, op: Op): Kv {
    if Duplicate(s.last, op.clientId, op.requestId) then s
    else if op.operation == GET then s.(last := Note(s.last, op.clientId, op.requestId, Lookup(s.db, op.key)))
    else Kv(Execute(s.db, op), Note(s.last, op.clientId, op.requestId, []))
  }

  datatype Answer = OK(value: Bytes) | NoKey | WrongLeader

  datatype Reading = Reading(state: Kv, answer: Answer)

  /** Get: a leader answers from its own store, and so does any other node that has committed
      something; both record the answer in the dedup table. */
  function Get(s: Kv, isLeader: bool, commitIndex: int, client: Bytes, id: int, key: Bytes): Reading {
    if Duplicate(s.last, client, id) then Reading(s, OK(s.last[client].lastValue))
    else if !isLeader && commitIndex <= 0 then Reading(s, WrongLeader)
    else
      Reading(s.(last := Note(s.last, client, id, Lookup(s.db, key))),
              if key in s.db then OK(s.db[key]) else NoKey)
  }

  // ---------------------------------------------------------------- the log alone

  function ApplyAll(ops: seq<Op>): Kv
    decreases |ops|
  {
    if |ops| == 0 then EMPTY else ApplyOp(ApplyAll(ops[..|ops| - 1]), ops[|ops| - 1])
  }

  /** Does ops[i] carry a request id above every earlier id of its client? */
  predicate Fresh(ops: seq<Op>, i: nat)
    requires i < |ops|
  {
    forall j :: 0 <= j < i && ops[j].clientId == ops[i].clientId ==> ops[j].requestId < ops[i].requestId
  }

  /** The operations with a request id above every earlier id of their client. */
  function FreshOps(ops: seq<Op>): seq<Op>
    decreases |ops|
  {
    if |ops| == 0 then []
    else
      var init, last := ops[..|ops| - 1], |ops| - 1;
      if Fresh(ops, last) then FreshOps(init) + [ops[last]] else FreshOps(init)
  }

  /** Executing operations with no dedup table. */
  function ExecuteAll(ops: seq<Op>): Db
    decreases |ops|
  {
    if |ops| == 0 then map[] else Execute(ExecuteAll(ops[..|ops| - 1]), ops[|ops| - 1])
  }

  /** The table after ops: one record per client, holding its highest id. */
  predicate TableOf(ops: seq<Op>, last: Table) {
    && (forall j :: 0 <= j < |ops| ==> Duplicate(last, ops[j].clientId, ops[j].requestId))
    && (forall c :: c in last ==>
          exists j :: 0 <= j < |ops| && ops[j].clientId == c && ops[j].requestId == last[c].lastRequestId)
  }

  lemma DuplicateIsStale(ops: seq<Op>, last: Table, i: nat)
    requires i < |ops| && TableOf(ops[..i], last)
    ensures Duplicate(last, ops[i].clientId, ops[i].requestId) <==> !Fresh(ops, i)
  {
    var before := ops[..i];
    if Duplicate(last, ops[i].clientId, ops[i].requestId) {
      var j :| 0 <= j < |before| && before[j].clientId == ops[i].clientId
               && before[j].requestId == last[ops[i].clientId].lastRequestId;
      assert ops[j] == before[j];
    }
    if !Fresh(ops, i) {
      var j :| 0 <= j < i && ops[j].clientId == ops[i].clientId && ops[j].requestId >= ops[i].requestId;
      assert before[j] == ops[j];
    }
  }

  lemma TableGrows(ops: seq<Op>, s: Kv)
    requires |ops| > 0 && TableOf(ops[..|ops| - 1], s.last)
    ensures TableOf(ops, ApplyOp(s, ops[|ops| - 1]).last)
  {
    var init, op := ops[..|ops| - 1], ops[|ops| - 1];
    var last := ApplyOp(s, op).last;
    forall j | 0 <= j < |ops| ensures Duplicate(last, ops[j].clientId, ops[j].requestId) {
      assert j < |init| ==> ops[j] == init[j];
    }
    forall c | c in last
      ensures exists j :: 0 <= j < |ops| && ops[j].clientId == c && ops[j].requestId == last[c].lastRequestId
    {
      if c in s.last && last[c] == s.last[c] {
        var j :| 0 <= j < |init| && init[j].clientId == c && init[j].requestId == s.last[c].lastRequestId;
        assert ops[j] == init[j];
      } else {
        assert ops[|ops| - 1].clientId == c;
      }
    }
  }

  /** Exact dedup: applying a log leaves the store that executing only its fresh operations, with
      no dedup table, leaves; and the table holds each client's highest id. */
  lemma {:induction false} DedupIsExact(ops: seq<Op>)
    ensures ApplyAll(ops).db == ExecuteAll(FreshOps(ops))
    ensures TableOf(ops, ApplyAll(ops).last)
    decreases |ops|
  {
    if |ops| > 0 {
      var init, last := ops[..|ops| - 1], |ops| - 1;
      DedupIsExact(init);
      DuplicateIsStale(ops, ApplyAll(init).last, last);
      TableGrows(ops, ApplyAll(init));
      if Fresh(ops, last) {
        var kept := FreshOps(ops);
        assert kept[..|kept| - 1] == FreshOps(init);
      }
    }
  }

  /** Each request takes effect at most once. */
  lemma {:induction false} AtMostOnce(ops: seq<Op>, i: nat, j: nat)
    requires i < j < |FreshOps(ops)|
    ensures
      var f := FreshOps(ops);
      f[i].clientId == f[j].clientId ==> f[i].requestId < f[j].requestId
    decreases |ops|
  {
    var init, last := ops[..|ops| - 1], |ops| - 1;
    if j < |FreshOps(init)| {
      AtMostOnce(init, i, j);
    } else {
      FreshAreLogged(init, i);
      var k :| 0 <= k < |init| && init[k] == FreshOps(init)[i];
      assert ops[k] == init[k];
    }
  }

  lemma {:induction false} FreshAreLogged(ops: seq<Op>, i: nat)
    requires i < |FreshOps(ops)|
    ensures exists k :: 0 <= k < |ops| && ops[k] == FreshOps(ops)[i]
    decreases |ops|
  {
    var init, last := ops[..|ops| - 1], |ops| - 1;
    if i < |FreshOps(init)| {
      FreshAreLogged(init, i);
      var k :| 0 <= k < |init| && init[k] == FreshOps(init)[i];
      assert ops[k] == FreshOps(ops)[i];
    } else {
      assert ops[last] == FreshOps(ops)[i];
    }
  }

  /** A retried copy changes nothing, wherever it lands after the first. */
  lemma {:induction false} RetriesAreInvisible(before: seq<Op>, op: Op, between: seq<Op>, after: seq<Op>)
    ensures ApplyAll(before + [op] + between + [op] + after) == ApplyAll(before + [op] + between + after)
    decreases |after|
  {
    var once := before + [op] + between;
    if |after| == 0 {
      DedupIsExact(once);
      assert once[|before|] == op;
      assert (once + [op])[..|once|] == once;
      assert once + [op] + after == once + [op] && once + after == once;
    } else {
      var init := after[..|after| - 1];
      RetriesAreInvisible(before, op, between, init);
      assert (once + [op] + after)[..|once + [op] + after| - 1] == once + [op] + init;
      assert (once + after)[..|once + after| - 1] == once + init;
    }
  }

  // ---------------------------------------------------------------- one server, step by step

  /** A Get past its duplicate check: it has found a duplicate and still has to fetch the cached
      value; or it has not, and is before or after the lookup of its key. */
  datatype PendingRead =
    | Repeated(client: Bytes)
    | Checked(client: Bytes, id: int, key: Bytes)
    | Looked(client: Bytes, id: int, value: Bytes, exist: bool)

  /** What a Get answers once it has looked up its key. */
  function AnswerOf(r: PendingRead): Answer
    requires r.Looked?
  {
    if r.exist then OK(r.value) else NoKey
  }

  /** What a Get that has found a duplicate answers from the client's record. */
  function CachedAnswer(last: Table, client: Bytes): Answer {
    OK(if client in last then last[client].lastValue else [])
  }

  /** The apply thread inside Apply: between messages, past the duplicate check, past the execution. */
  datatype Applying =
    | Idle
    | Admitted(op: Op)
    | Executed(op: Op, value: Bytes)

  datatype Serving = Serving(kv: Kv, gets: map<int, PendingRead>, applying: Applying)

  const STARTED := Serving(EMPTY, map[], Idle)

  /** What happens at one server, one lock at a time: the steps of Apply for an operation of the
      log, and the steps of Get call `rid`. */
  datatype Act =
    | BeginApply(op: Op)
    | ExecuteOp
    | EndApply
    | CheckRead(rid: int, isLeader: bool, commitIndex: int, client: Bytes, id: int, key: Bytes)
    | FetchCached(rid: int)
    | LookUp(rid: int)
    | RecordRead(rid: int)

  function LookUpNow(db: Db, r: PendingRead): PendingRead
    requires r.Checked?
  {
    Looked(r.client, r.id, Lookup(db, r.key), r.key in db)
  }

  /** A step that is not possible does nothing. */
  function Serve(s: Serving, a: Act): Serving {
    match a
    case BeginApply(op) =>
      if s.applying.Idle? && !Duplicate(s.kv.last, op.clientId, op.requestId) then s.(applying := Admitted(op))
      else s
    case ExecuteOp =>
      if s.applying.Admitted? then
        var op := s.applying.op;
        if op.operation == GET then s.(applying := Executed(op, Lookup(s.kv.db, op.key)))
        else s.(kv := s.kv.(db := Execute(s.kv.db, op)), applying := Executed(op, []))
      else s
    case EndApply =>
      if s.applying.Executed? then
        var op := s.applying.op;
        s.(kv := s.kv.(last := Note(s.kv.last, op.clientId, op.requestId, s.applying.value)), applying := Idle)
      else s
    case CheckRead(rid, isLeader, commitIndex, client, id, key) =>
      if rid in s.gets then s
      else if Duplicate(s.kv.last, client, id) then s.(gets := s.gets[rid := Repeated(client)])
      else if !isLeader && commitIndex <= 0 then s
      else s.(gets := s.gets[rid := Checked(client, id, key)])
    case FetchCached(rid) =>
      if rid in s.gets && s.gets[rid].Repeated? then s.(gets := s.gets - {rid}) else s
    case LookUp(rid) =>
      if rid in s.gets && s.gets[rid].Checked? then
        s.(gets := s.gets[rid := LookUpNow(s.kv.db, s.gets[rid])])
      else s
    case RecordRead(rid) =>
      if rid in s.gets && s.gets[rid].Looked? then
        var r := s.gets[rid];
        s.(kv := s.kv.(last := Note(s.kv.last, r.client, r.id, r.value)), gets := s.gets - {rid})
      else s
  }

  function ServeAll(acts: seq<Act>): Serving
    decreases |acts|
  {
    if |acts| == 0 then STARTED else Serve(ServeAll(acts[..|acts| - 1]), acts[|acts| - 1])
  }

  /** Steps that nothing interrupts add up to ApplyOp, and to Get. */
  lemma UninterruptedApply(s: Serving, op: Op)
    requires s.applying.Idle?
    ensures Serve(Serve(Serve(s, BeginApply(op)), ExecuteOp), EndApply) == s.(kv := ApplyOp(s.kv, op))
  {
  }

  lemma UninterruptedGet(s: Serving, rid: int, isLeader: bool, commitIndex: int, client: Bytes, id: int, key: Bytes)
    requires rid !in s.gets
    ensures
      var checked := Serve(s, CheckRead(rid, isLeader, commitIndex, client, id, key));
      Serve(Serve(Serve(checked, FetchCached(rid)), LookUp(rid)), RecordRead(rid))
      == s.(kv := Get(s.kv, isLeader, commitIndex, client, id, key).state)
  {
    var r := Checked(client, id, key);
    var looked := LookUpNow(s.kv.db, r);
    assert s.gets[rid := r][rid := looked] - {rid} == s.gets;
    assert s.gets[rid := Repeated(client)] - {rid} == s.gets;
  }

  // ---------------------------------------------------------------- when the table forgets

  /** The table never takes back that a request is a duplicate. */
  ghost predicate Keeps(kv: Kv, kv': Kv) {
    forall client, id :: Duplicate(kv.last, client, id) ==> Duplicate(kv'.last, client, id)
  }

  /** The record that a step writes into the dedup table, if it writes one. */
  datatype Writing = NoWrite | Write(client: Bytes, id: int)

  function Writes(s: Serving, a: Act): Writing {
    match a
    case EndApply =>
      if s.applying.Executed? then Write(s.applying.op.clientId, s.applying.op.requestId) else NoWrite
    case RecordRead(rid) =>
      if rid in s.gets && s.gets[rid].Looked? then Write(s.gets[rid].client, s.gets[rid].id) else NoWrite
    case _ => NoWrite
  }

  /** The guard a recording step would need: the table has not passed its id in the meantime. */
  predicate TimelyAct(s: Serving, a: Act) {
    var w := Writes(s, a);
    w.Write? && w.client in s.kv.last ==> s.kv.last[w.client].lastRequestId <= w.id
  }

  /** A step keeps what the table covers exactly when it is timely. */
  lemma KeepsExactly(s: Serving, a: Act)
    ensures Keeps(s.kv, Serve(s, a).kv) <==> TimelyAct(s, a)
  {
    var w := Writes(s, a);
    if w.Write? && w.client in s.kv.last && w.id < s.kv.last[w.client].lastRequestId {
      assert Duplicate(s.kv.last, w.client, s.kv.last[w.client].lastRequestId);
    }
  }

  predicate Timely(acts: seq<Act>)
    decreases |acts|
  {
    |acts| == 0
    || (Timely(acts[..|acts| - 1]) && TimelyAct(ServeAll(acts[..|acts| - 1]), acts[|acts| - 1]))
  }

  ghost predicate NeverForgets(acts: seq<Act>)
    decreases |acts|
  {
    |acts| == 0
    || (NeverForgets(acts[..|acts| - 1]) && Keeps(ServeAll(acts[..|acts| - 1]).kv, ServeAll(acts).kv))
  }

  /** The dedup table of a server never forgets in a run exactly when each recording step is timely. */
  lemma {:induction false} NeverForgetsExactly(acts: seq<Act>)
    ensures NeverForgets(acts) <==> Timely(acts)
    decreases |acts|
  {
    if |acts| > 0 {
      NeverForgetsExactly(acts[..|acts| - 1]);
      KeepsExactly(ServeAll(acts[..|acts| - 1]), acts[|acts| - 1]);
    }
  }

  // ---------------------------------------------------------------- local reads

  /** The operations whose Apply has ended, in order. */
  function LogOf(acts: seq<Act>): seq<Op>
    decreases |acts|
  {
    if |acts| == 0 then []
    else
      var init, a := acts[..|acts| - 1], acts[|acts| - 1];
      LogOf(init) + Ended(ServeAll(init), a)
  }

  /** A duplicate is done with at once; any other operation when it has been recorded. */
  function Ended(s: Serving, a: Act): seq<Op> {
    if Begins(s, a) && Duplicate(s.kv.last, a.op.clientId, a.op.requestId) then [a.op]
    else if a.EndApply? && s.applying.Executed? then [s.applying.op]
    else []
  }

  predicate Begins(s: Serving, a: Act) {
    a.BeginApply? && s.applying.Idle?
  }

  /** Does the last act decide whether its operation takes effect? */
  predicate Decides(acts: seq<Act>)
    requires |acts| > 0
  {
    Begins(ServeAll(acts[..|acts| - 1]), acts[|acts| - 1])
  }

  predicate TakesEffect(acts: seq<Act>)
    requires |acts| > 0 && acts[|acts| - 1].BeginApply?
  {
    var op := acts[|acts| - 1].op;
    !Duplicate(ServeAll(acts[..|acts| - 1]).kv.last, op.clientId, op.requestId)
  }

  /** Would it take effect if there were no reads? */
  predicate WouldApply(acts: seq<Act>)
    requires |acts| > 0 && acts[|acts| - 1].BeginApply?
  {
    var op := acts[|acts| - 1].op;
    !Duplicate(ApplyAll(LogOf(acts[..|acts| - 1])).last, op.clientId, op.requestId)
  }

  predicate DecidedLast(acts: seq<Act>)
    requires |acts| > 0
  {
    Decides(acts) ==> (TakesEffect(acts) <==> WouldApply(acts))
  }

  /** Every operation takes effect exactly if it would without the reads. */
  predicate DecidesAsLog(acts: seq<Act>)
    decreases |acts|
  {
    |acts| == 0 || (DecidesAsLog(acts[..|acts| - 1]) && DecidedLast(acts))
  }

  /** Who wrote the client's record last: nobody, an operation of the log, or a read. */
  datatype Writer = Nobody | TheLog | ARead(id: int)

  function LastWriter(acts: seq<Act>, client: Bytes): Writer
    decreases |acts|
  {
    if |acts| == 0 then Nobody
    else
      var init, a := acts[..|acts| - 1], acts[|acts| - 1];
      var w := Writes(ServeAll(init), a);
      if w.Write? && w.client == client then (if a.RecordRead? then ARead(w.id) else TheLog)
      else LastWriter(init, client)
  }

  /** The operation's id is above every id of its client in the log. */
  predicate NewToLog(log: seq<Op>, op: Op) {
    forall j :: 0 <= j < |log| && log[j].clientId == op.clientId ==> log[j].requestId < op.requestId
  }

  lemma NewExactly(log: seq<Op>, op: Op)
    ensures NewToLog(log, op) <==> !Duplicate(ApplyAll(log).last, op.clientId, op.requestId)
  {
    DedupIsExact(log);
    assert (log + [op])[..|log|] == log;
    DuplicateIsStale(log + [op], ApplyAll(log).last, |log|);
    assert Fresh(log + [op], |log|) <==> NewToLog(log, op);
  }

  /** Whenever an operation is checked against a record that a read has left, the read's id is below
      the operation's exactly if the operation is new to the log. */
  predicate ReadsHarmless(acts: seq<Act>)
    decreases |acts|
  {
    |acts| == 0 || (ReadsHarmless(acts[..|acts| - 1]) && HarmlessLast(acts))
  }

  predicate HarmlessLast(acts: seq<Act>)
    requires |acts| > 0
  {
    Decides(acts) ==>
      var op := acts[|acts| - 1].op;
      var w := LastWriter(acts[..|acts| - 1], op.clientId);
      w.ARead? ==> (w.id < op.requestId <==> NewToLog(LogOf(acts[..|acts| - 1]), op))
  }

  lemma {:induction false} ReadWrote(acts: seq<Act>, client: Bytes)
    requires LastWriter(acts, client).ARead?
    ensures
      var last := ServeAll(acts).kv.last;
      client in last && last[client].lastRequestId == LastWriter(acts, client).id
    decreases |acts|
  {
    var init, a := acts[..|acts| - 1], acts[|acts| - 1];
    var w := Writes(ServeAll(init), a);
    if !(w.Write? && w.client == client) {
      ReadWrote(init, client);
    }
  }

  predicate SameId(last: Table, last': Table, client: Bytes) {
    && (client in last <==> client in last')
    && (client in last ==> last[client].lastRequestId == last'[client].lastRequestId)
  }

  /** The store, and the operation under way, are those of the log. */
  predicate StoreOk(s: Serving, log: seq<Op>) {
    && s.kv.db == ApplyAll(if s.applying.Executed? then log + [s.applying.op] else log).db
    && (!s.applying.Idle? ==> !Duplicate(ApplyAll(log).last, s.applying.op.clientId, s.applying.op.requestId))
  }

  lemma ApplyOne(log: seq<Op>, op: Op)
    ensures ApplyAll(log + [op]) == ApplyOp(ApplyAll(log), op)
  {
    assert (log + [op])[..|log|] == log;
  }

  lemma StoreStep(s: Serving, a: Act, log: seq<Op>)
    requires StoreOk(s, log)
    requires Begins(s, a) ==>
               (Duplicate(s.kv.last, a.op.clientId, a.op.requestId)
                <==> Duplicate(ApplyAll(log).last, a.op.clientId, a.op.requestId))
    ensures StoreOk(Serve(s, a), log + Ended(s, a))
  {
    hide ApplyAll, Execute, Lookup, Note, Duplicate;
    if a.BeginApply? {
      BeginStep(s, a.op, log);
    } else if a.ExecuteOp? && s.applying.Admitted? {
      ApplyOne(log, s.applying.op);
      assert log + [] == log;
    } else {
      assert log + [] == log;
    }
  }

  lemma BeginStep(s: Serving, op: Op, log: seq<Op>)
    requires StoreOk(s, log)
    requires s.applying.Idle? ==>
               (Duplicate(s.kv.last, op.clientId, op.requestId)
                <==> Duplicate(ApplyAll(log).last, op.clientId, op.requestId))
    ensures StoreOk(Serve(s, BeginApply(op)), log + Ended(s, BeginApply(op)))
  {
    ApplyOne(log, op);
    assert log + [] == log;
    hide ApplyAll, Execute, Lookup, Note, Duplicate;
  }

  lemma LastDecided(acts: seq<Act>)
    requires |acts| > 0 && DecidedLast(acts)
    ensures
      var init, a := acts[..|acts| - 1], acts[|acts| - 1];
      Begins(ServeAll(init), a) ==>
        (Duplicate(ServeAll(init).kv.last, a.op.clientId, a.op.requestId)
         <==> Duplicate(ApplyAll(LogOf(init)).last, a.op.clientId, a.op.requestId))
  {
  }

  lemma {:induction false} StoreAsLog(acts: seq<Act>)
    requires DecidesAsLog(acts)
    ensures StoreOk(ServeAll(acts), LogOf(acts))
    decreases |acts|
  {
    if |acts| > 0 {
      hide StoreOk, Ended, Serve, ApplyAll, Duplicate, DecidedLast;
      var init, n := acts[..|acts| - 1], |acts| - 1;
      StoreAsLog(init);
      LastDecided(acts);
      StoreStep(ServeAll(init), acts[n], LogOf(init));
    }
  }

  /** A record that no read has left is the log's. */
  lemma {:induction false} LogWrote(acts: seq<Act>, client: Bytes)
    requires DecidesAsLog(acts) && !LastWriter(acts, client).ARead?
    ensures SameId(ServeAll(acts).kv.last, ApplyAll(LogOf(acts)).last, client)
    decreases |acts|
  {
    if |acts| > 0 {
      hide StoreOk, Ended, Serve, ApplyAll, Duplicate, DecidedLast, SameId;
      var init, n := acts[..|acts| - 1], |acts| - 1;
      StoreAsLog(init);
      var s, a, log := ServeAll(init), acts[n], LogOf(init);
      if !LastWriter(init, client).ARead? {
        LogWrote(init, client);
      }
      LastDecided(acts);
      TableStep(s, a, log, client);
    }
  }

  lemma TableStep(s: Serving, a: Act, log: seq<Op>, client: Bytes)
    requires StoreOk(s, log)
    requires Begins(s, a) ==>
               (Duplicate(s.kv.last, a.op.clientId, a.op.requestId)
                <==> Duplicate(ApplyAll(log).last, a.op.clientId, a.op.requestId))
    ensures
      var w, last := Writes(s, a), Serve(s, a).kv.last;
      && (SameId(s.kv.last, ApplyAll(log).last, client) && !(a.RecordRead? && w.Write? && w.client == client)
          ==> SameId(last, ApplyAll(log + Ended(s, a)).last, client))
      && (a.EndApply? && w.Write? && w.client == client ==>
            SameId(last, ApplyAll(log + Ended(s, a)).last, client))
  {
    assert log + [] == log;
    if Begins(s, a) && Duplicate(s.kv.last, a.op.clientId, a.op.requestId) {
      ApplyOne(log, a.op);
    } else if a.EndApply? && s.applying.Executed? {
      ApplyOne(log, s.applying.op);
      hide ApplyAll, Execute, Lookup;
      EndStep(ApplyAll(log), s, client);
    }
    hide ApplyAll, Execute, Lookup, StoreOk, Note;
  }

  lemma EndStep(t: Kv, s: Serving, client: Bytes)
    requires s.applying.Executed? && !Duplicate(t.last, s.applying.op.clientId, s.applying.op.requestId)
    ensures
      var last, last' := Serve(s, EndApply).kv.last, ApplyOp(t, s.applying.op).last;
      && (SameId(s.kv.last, t.last, client) ==> SameId(last, last', client))
      && (s.applying.op.clientId == client ==> SameId(last, last', client))
  {
    hide Execute, Lookup;
  }

  /** In every interleaving of Apply and local reads: each operation of the log takes effect exactly
      if it would without the reads, for all operations, exactly when the reads are harmless. */
  lemma {:induction false} ReadsInvisibleExactly(acts: seq<Act>)
    ensures DecidesAsLog(acts) <==> ReadsHarmless(acts)
    decreases |acts|
  {
    if |acts| > 0 {
      var init, n := acts[..|acts| - 1], |acts| - 1;
      ReadsInvisibleExactly(init);
      if Decides(acts) && DecidesAsLog(init) {
        var client := acts[n].op.clientId;
        NewExactly(LogOf(init), acts[n].op);
        if LastWriter(init, client).ARead? {
          ReadWrote(init, client);
        } else {
          LogWrote(init, client);
        }
      }
    }
  }

  /** With harmless reads the store between two messages is the one the log alone gives. */
  lemma ReadsLeaveStoreAlone(acts: seq<Act>)
    requires ReadsHarmless(acts) && ServeAll(acts).applying.Idle?
    ensures ServeAll(acts).kv.db == ApplyAll(LogOf(acts)).db
  {
    ReadsInvisibleExactly(acts);
    StoreAsLog(acts);
  }

  /** Two servers that applied the same log agree on the store, whatever they answered locally, as
      long as the reads of each are harmless. */
  lemma ReplicasAgree(a: seq<Act>, b: seq<Act>)
    requires LogOf(a) == LogOf(b) && ReadsHarmless(a) && ReadsHarmless(b)
    requires ServeAll(a).applying.Idle? && ServeAll(b).applying.Idle?
    ensures ServeAll(a).kv.db == ServeAll(b).kv.db
  {
    ReadsLeaveStoreAlone(a);
    ReadsLeaveStoreAlone(b);
  }

  // ---------------------------------------------------------------- timely reads

  /** Some recorded read of the client has an id of at least `bound`. */
  predicate HasRead(acts: seq<Act>, client: Bytes, bound: int)
    decreases |acts|
  {
    |acts| > 0
    && var init, a := acts[..|acts| - 1], acts[|acts| - 1];
       var w := Writes(ServeAll(init), a);
       HasRead(init, client, bound) || (a.RecordRead? && w.Write? && w.client == client && bound <= w.id)
  }

  /** Every operation that is new to the log has an id above all reads its client has recorded at
      this server before. */
  predicate ReadsStayBelow(acts: seq<Act>)
    decreases |acts|
  {
    |acts| == 0
    || (ReadsStayBelow(acts[..|acts| - 1])
        && (Decides(acts) && NewToLog(LogOf(acts[..|acts| - 1]), acts[|acts| - 1].op) ==>
              !HasRead(acts[..|acts| - 1], acts[|acts| - 1].op.clientId, acts[|acts| - 1].op.requestId)))
  }

  lemma {:induction false} LastReadCounts(acts: seq<Act>, client: Bytes, bound: int)
    requires LastWriter(acts, client).ARead? && bound <= LastWriter(acts, client).id
    ensures HasRead(acts, client, bound)
    decreases |acts|
  {
    var init, a := acts[..|acts| - 1], acts[|acts| - 1];
    var w := Writes(ServeAll(init), a);
    if !(w.Write? && w.client == client) {
      LastReadCounts(init, client, bound);
    }
  }

  lemma {:induction false} ReadStaysCovered(acts: seq<Act>, client: Bytes, bound: int)
    requires Timely(acts) && HasRead(acts, client, bound)
    ensures Duplicate(ServeAll(acts).kv.last, client, bound)
    decreases |acts|
  {
    var init, a := acts[..|acts| - 1], acts[|acts| - 1];
    KeepsExactly(ServeAll(init), a);
    if HasRead(init, client, bound) {
      ReadStaysCovered(init, client, bound);
    }
  }

  /** After an operation the table covers what it covered before, and the operation. */
  lemma ApplyCovers(s: Kv, op: Op, client: Bytes, id: int)
    ensures Duplicate(ApplyOp(s, op).last, client, id) <==>
            Duplicate(s.last, client, id) || (op.clientId == client && id <= op.requestId)
  {
  }

  lemma EndedCovered(s: Serving, a: Act)
    ensures forall op :: op in Ended(s, a) ==> Duplicate(Serve(s, a).kv.last, op.clientId, op.requestId)
  {
  }

  lemma LowerCovered(last: Table, client: Bytes, id: int, lower: int)
    requires Duplicate(last, client, id) && lower <= id
    ensures Duplicate(last, client, lower)
  {
  }

  /** What the log covers, a table that never forgets covers. */
  lemma {:induction false} LogStaysCovered(acts: seq<Act>, client: Bytes, id: int)
    requires Timely(acts) && Duplicate(ApplyAll(LogOf(acts)).last, client, id)
    ensures Duplicate(ServeAll(acts).kv.last, client, id)
    decreases |acts|
  {
    if |acts| > 0 {
      var init, a := acts[..|acts| - 1], acts[|acts| - 1];
      var s := ServeAll(init);
      KeepsExactly(s, a);
      if Duplicate(ApplyAll(LogOf(init)).last, client, id) {
        LogStaysCovered(init, client, id);
      } else {
        LogOfLast(acts);
        EndedCovered(s, a);
        hide Duplicate, ApplyAll, Serve, Ended, TimelyAct, LogOf, Timely;
        assert LogOf(init) + [] == LogOf(init);
        if Ended(s, a) != [] {
          var op := Ended(s, a)[0];
          ApplyOne(LogOf(init), op);
          ApplyCovers(ApplyAll(LogOf(init)), op, client, id);
          LowerCovered(ServeAll(acts).kv.last, client, op.requestId, id);
        }
      }
    }
  }

  lemma LogOfLast(acts: seq<Act>)
    requires |acts| > 0
    ensures
      var init, a := acts[..|acts| - 1], acts[|acts| - 1];
      var e := Ended(ServeAll(init), a);
      && LogOf(acts) == LogOf(init) + e && (e == [] || e == [e[0]])
      && ServeAll(acts) == Serve(ServeAll(init), a)
  {
  }

  /** What a step newly covers it has recorded. */
  lemma CoverStep(s: Serving, a: Act, client: Bytes, id: int)
    requires Duplicate(Serve(s, a).kv.last, client, id)
    ensures
      var w := Writes(s, a);
      || Duplicate(s.kv.last, client, id)
      || (w.Write? && w.client == client && id <= w.id
          && (a.RecordRead?
              || (&& s.applying.Executed? && Ended(s, a) == [s.applying.op]
                  && s.applying.op.clientId == client && s.applying.op.requestId == w.id)))
  {
  }

  /** Whatever the table covers, a read or the log has put there. */
  lemma {:induction false} CoveredFrom(acts: seq<Act>, client: Bytes, id: int)
    requires Duplicate(ServeAll(acts).kv.last, client, id)
    ensures HasRead(acts, client, id) || Duplicate(ApplyAll(LogOf(acts)).last, client, id)
    decreases |acts|
  {
    if |acts| > 0 {
      var init, a := acts[..|acts| - 1], acts[|acts| - 1];
      var s := ServeAll(init);
      LogOfLast(acts);
      CoverStep(s, a, client, id);
      hide ApplyAll, LogOf, Serve, Ended, Writes, Duplicate;
      assert LogOf(init) + [] == LogOf(init);
      if Ended(s, a) != [] {
        ApplyOne(LogOf(init), Ended(s, a)[0]);
        ApplyCovers(ApplyAll(LogOf(init)), Ended(s, a)[0], client, id);
      }
      if Duplicate(s.kv.last, client, id) {
        CoveredFrom(init, client, id);
      }
    }
  }

  /** With timely steps the table covers a request exactly if a read recorded here or an operation
      of the log carries an id of its client at least as high. */
  lemma CoveredExactly(acts: seq<Act>, op: Op)
    requires Timely(acts)
    ensures Duplicate(ServeAll(acts).kv.last, op.clientId, op.requestId)
            <==> HasRead(acts, op.clientId, op.requestId) || !NewToLog(LogOf(acts), op)
  {
    NewExactly(LogOf(acts), op);
    if Duplicate(ServeAll(acts).kv.last, op.clientId, op.requestId) {
      CoveredFrom(acts, op.clientId, op.requestId);
    } else if HasRead(acts, op.clientId, op.requestId) {
      ReadStaysCovered(acts, op.clientId, op.requestId);
    } else if !NewToLog(LogOf(acts), op) {
      LogStaysCovered(acts, op.clientId, op.requestId);
    }
  }

  /** With timely steps, reads are harmless exactly when they stay below. */
  lemma {:induction false} TimelyReadsExactly(acts: seq<Act>)
    requires Timely(acts)
    ensures ReadsHarmless(acts) <==> ReadsStayBelow(acts)
    decreases |acts|
  {
    if |acts| > 0 {
      var init := acts[..|acts| - 1];
      TimelyReadsExactly(init);
      ReadsInvisibleExactly(init);
      ReadsInvisibleExactly(acts);
      if Decides(acts) && ReadsHarmless(init) {
        var op := acts[|acts| - 1].op;
        NewExactly(LogOf(init), op);
        if HasRead(init, op.clientId, op.requestId) {
          ReadStaysCovered(init, op.clientId, op.requestId);
        }
        if LastWriter(init, op.clientId).ARead? {
          ReadWrote(init, op.clientId);
          if op.requestId <= LastWriter(init, op.clientId).id {
            LastReadCounts(init, op.clientId, op.requestId);
          }
          if !WouldApply(acts) {
            LogStaysCovered(init, op.clientId, op.requestId);
          }
        }
      }
    }
  }

  // ---------------------------------------------------------------- reads that do harm

  lemma ServeSnoc(acts: seq<Act>, a: Act)
    ensures ServeAll(acts + [a]) == Serve(ServeAll(acts), a)
    ensures LogOf(acts + [a]) == LogOf(acts) + Ended(ServeAll(acts), a)
  {
    assert (acts + [a])[..|acts|] == acts;
  }

  function Applied(acts: seq<Act>, op: Op): seq<Act> {
    acts + [BeginApply(op)] + [ExecuteOp] + [EndApply]
  }

  /** Applying an operation with nothing in between. */
  lemma AppliedIs(acts: seq<Act>, op: Op)
    requires ServeAll(acts).applying.Idle?
    ensures
      var s := ServeAll(acts);
      ServeAll(Applied(acts, op)) == s.(kv := ApplyOp(s.kv, op)) && LogOf(Applied(acts, op)) == LogOf(acts) + [op]
  {
    ServeSnoc(acts, BeginApply(op));
    ServeSnoc(acts + [BeginApply(op)], ExecuteOp);
    ServeSnoc(acts + [BeginApply(op)] + [ExecuteOp], EndApply);
    assert LogOf(acts) + [op] + [] == LogOf(acts) + [op] && LogOf(acts) + [] == LogOf(acts);
  }

  /** A client's read call with request id 2. */
  function ReadFirst(client: Bytes, key: Bytes): seq<Act> {
    [] + [CheckRead(7, true, 0, client, 2, key)] + [LookUp(7)] + [RecordRead(7)]
  }

  lemma ReadFirstLeaves(client: Bytes, key: Bytes)
    ensures ServeAll(ReadFirst(client, key)) == Serving(Kv(map[], map[client := Record(2, [])]), map[], Idle)
    ensures LogOf(ReadFirst(client, key)) == []
  {
    var c := CheckRead(7, true, 0, client, 2, key);
    assert ServeAll([]) == STARTED && LogOf([]) == [];
    ServeSnoc([], c);
    ServeSnoc([] + [c], LookUp(7));
    ServeSnoc([] + [c] + [LookUp(7)], RecordRead(7));
    hide ServeAll, LogOf;
    var r := Checked(client, 2, key);
    assert map[7 := r][7 := LookUpNow(map[], r)] - {7} == map[];
  }

  /** A read with id 2 makes one server drop the Put with id 1 that another applies. */
  lemma ReadsCanShadow(put: Op)
    requires put.operation == PUT && put.requestId == 1
    ensures
      var a, b := Applied(ReadFirst(put.clientId, put.key), put), Applied([], put);
      && LogOf(a) == LogOf(b) && ServeAll(a).applying.Idle? && ServeAll(b).applying.Idle?
      && put.key !in ServeAll(a).kv.db && put.key in ServeAll(b).kv.db
  {
    ReadFirstLeaves(put.clientId, put.key);
    assert ServeAll([]) == STARTED && LogOf([]) == [];
    AppliedIs(ReadFirst(put.clientId, put.key), put);
    AppliedIs([], put);
    hide ServeAll, LogOf, Applied, ReadFirst;
  }

  /** A read call with id 1 of an operation's client has looked up its key. */
  function ReadUnderWay(op: Op): seq<Act> {
    [] + [CheckRead(7, true, 0, op.clientId, 1, op.key)] + [LookUp(7)]
  }

  lemma UnderWayLeaves(op: Op)
    ensures
      var s := ServeAll(ReadUnderWay(op));
      && s == Serving(EMPTY, map[7 := Looked(op.clientId, 1, [], false)], Idle)
      && LogOf(ReadUnderWay(op)) == []
  {
    var c := CheckRead(7, true, 0, op.clientId, 1, op.key);
    assert ServeAll([]) == STARTED && LogOf([]) == [];
    ServeSnoc([], c);
    ServeSnoc([] + [c], LookUp(7));
    hide ServeAll, LogOf;
  }

  /** An operation overtakes that read. */
  function Overtaken(op: Op): seq<Act> {
    Applied(ReadUnderWay(op), op) + [RecordRead(7)]
  }

  lemma AppendLeaves(op: Op)
    requires op.operation == APPEND && op.requestId == 2
    ensures ServeAll(Applied(ReadUnderWay(op), op))
            == Serving(Kv(map[op.key := op.value], map[op.clientId := Record(2, [])]),
                       map[7 := Looked(op.clientId, 1, [], false)], Idle)
    ensures LogOf(Applied(ReadUnderWay(op), op)) == [op]
  {
    UnderWayLeaves(op);
    AppliedIs(ReadUnderWay(op), op);
    hide ServeAll, LogOf, Applied, ReadUnderWay;
    assert [] + op.value == op.value && [] + [op] == [op];
  }

  lemma OvertakenLeaves(op: Op)
    requires op.operation == APPEND && op.requestId == 2
    ensures ServeAll(Overtaken(op))
            == Serving(Kv(map[op.key := op.value], map[op.clientId := Record(1, [])]), map[], Idle)
    ensures LogOf(Overtaken(op)) == [op]
  {
    AppendLeaves(op);
    ServeSnoc(Applied(ReadUnderWay(op), op), RecordRead(7));
    hide ServeAll, LogOf, Applied, ReadUnderWay;
    assert [op] + [] == [op];
    var r := Looked(op.clientId, 1, [], false);
    assert map[7 := r] - {7} == map[];
    assert map[op.clientId := Record(2, [])][op.clientId := Record(1, [])] == map[op.clientId := Record(1, [])];
  }

  /** A read with id 1 is recorded after an Append with id 2 of its client, and then a retried copy
      of the Append arrives: it is executed too, although the read's id is below every id in the
      log. The store is not the one the log gives. */
  lemma LateReadRepeats(op: Op)
    requires op.operation == APPEND && op.requestId == 2 && |op.value| > 0
    ensures
      var acts := Applied(Overtaken(op), op);
      var s := ServeAll(acts);
      && LogOf(acts) == [op, op] && s.applying.Idle?
      && s.kv.db == map[op.key := op.value + op.value]
      && ApplyAll([op, op]).db == map[op.key := op.value]
      && s.kv.db != ApplyAll([op, op]).db
      && !TimelyAct(ServeAll(Applied(ReadUnderWay(op), op)), RecordRead(7))
  {
    AppendLeaves(op);
    OvertakenLeaves(op);
    AppliedIs(Overtaken(op), op);
    CopyIsIgnored(op);
    hide ServeAll, LogOf, Applied, Overtaken, ApplyAll;
    assert [op] + [op] == [op, op];
    assert map[op.key := op.value][op.key := op.value + op.value] == map[op.key := op.value + op.value];
    assert map[op.key := op.value][op.key] != map[op.key := op.value + op.value][op.key];
  }

  lemma CopyIsIgnored(op: Op)
    requires op.operation == APPEND && op.requestId == 2
    ensures ApplyAll([op, op]).db == map[op.key := op.value]
  {
    ApplyOne([], op);
    ApplyOne([op], op);
    assert [] + [op] == [op] && [op] + [op] == [op, op];
    assert ApplyAll([]) == EMPTY && [] + op.value == op.value;
    hide ApplyAll;
  }
}
