/** Class KvServer (KvServer/KvServer.cpp), and the protocol between PutAppend, the wait channels
    and the apply thread. */
module KvServer {
  import opened Bytes
  import opened OpCodec
  import opened KvStore

  type Channels = map<int, seq<Op>>

  /** Apply wakes whoever has registered for the index. */
  function Push(channels: Channels, index: int, op: Op): Channels {
    if index in channels then channels[index := channels[index] + [op]] else channels
  }

  function Open(channels: Channels, index: int): Channels {
    if index in channels then channels else channels[index := []]
  }

  // ---------------------------------------------------------------- the class

  /** Nothing, while a call is still under way. */
  datatype Maybe<T> = NotYet | Now(value: T)

  class KvServer {
    var kvdb: Db
    var lastRequests: Table
    var waitApplyCh: Channels
    /** The frames of the Get calls under way, and of the Apply call if there is one. */
    var gets: map<int, PendingRead>
    var applying: Applying

    function View(): Serving
      reads this
    {
      Serving(Kv(kvdb, lastRequests), gets, applying)
    }

    constructor ()
      ensures View() == STARTED && waitApplyCh == map[]
    {
      kvdb, lastRequests, waitApplyCh, gets, applying := map[], map[], map[], map[], Idle;
    }

    method ExecuteGetOpOnKVDB(key: Bytes) returns (value: Bytes, exist: bool)
      ensures exist == (key in kvdb) && value == Lookup(kvdb, key)
    {
      if key in kvdb {
        return kvdb[key], true;
      } else {
        return [], false;
      }
    }

    method ExecutePutAppendOnKVDB(op: Op)
      modifies this`kvdb
      ensures kvdb == Execute(old(kvdb), op)
    {
      if op.operation == PUT {
        kvdb := kvdb[op.key := op.value];
      } else if op.operation == APPEND {
        var oldVal, exist := ExecuteGetOpOnKVDB(op.key);
        var newVal := if exist then oldVal + op.value else op.value;
        assert !exist ==> oldVal + op.value == newVal;
        kvdb := kvdb[op.key := newVal];
      }
    }

    method IfRequestDuplicate(clientId: Bytes, requestId: int) returns (dup: bool)
      ensures dup == Duplicate(lastRequests, clientId, requestId)
    {
      if clientId !in lastRequests {
        return false;
      }
      return requestId <= lastRequests[clientId].lastRequestId;
    }

    method RecordRequestResult(clientId: Bytes, requestId: int, lastValue: Bytes)
      modifies this`lastRequests
      ensures lastRequests == Note(old(lastRequests), clientId, requestId, lastValue)
    {
      lastRequests := lastRequests[clientId := Record(requestId, lastValue)];
    }

    // -------------------------------------------------------------- Get, one lock at a time

    /** Up to and including the duplicate check and the test for a leader: only a refusal ends the
        call here. */
    method CheckGet(rid: int, isLeader: bool, commitIndex: int, clientId: Bytes, requestId: int, key: Bytes)
      returns (answer: Maybe<Answer>)
      requires rid !in gets
      modifies this`gets
      ensures View() == Serve(old(View()), CheckRead(rid, isLeader, commitIndex, clientId, requestId, key))
      ensures answer ==
        if Duplicate(lastRequests, clientId, requestId) || isLeader || commitIndex > 0 then NotYet
        else Now(WrongLeader)
    {
      var dup := IfRequestDuplicate(clientId, requestId);
      if dup {
        gets := gets[rid := Repeated(clientId)];
        return NotYet;
      }
      if !isLeader && commitIndex <= 0 {
        return Now(WrongLeader);
      }
      gets := gets[rid := Checked(clientId, requestId, key)];
      answer := NotYet;
    }

    /** The answer to a repeated request, under a lock of its own: whatever is on record by then. */
    method AnswerCached(rid: int) returns (answer: Answer)
      requires rid in gets && gets[rid].Repeated?
      modifies this`gets
      ensures View() == Serve(old(View()), FetchCached(rid))
      ensures answer == CachedAnswer(lastRequests, old(gets)[rid].client)
    {
      var clientId := gets[rid].client;
      var cachedValue := [];
      if clientId in lastRequests {
        cachedValue := lastRequests[clientId].lastValue;
      }
      gets := gets - {rid};
      answer := OK(cachedValue);
    }

    method LookUpGet(rid: int)
      requires rid in gets && gets[rid].Checked?
      modifies this`gets
      ensures View() == Serve(old(View()), LookUp(rid))
    {
      var r := gets[rid];
      var value, exist := ExecuteGetOpOnKVDB(r.key);
      gets := gets[rid := Looked(r.client, r.id, value, exist)];
    }

    /** From the recording on. */
    method RecordGet(rid: int) returns (answer: Answer)
      requires rid in gets && gets[rid].Looked?
      modifies this`gets, this`lastRequests
      ensures View() == Serve(old(View()), RecordRead(rid))
      ensures answer == AnswerOf(old(gets)[rid])
    {
      var r := gets[rid];
      answer := if r.exist then OK(r.value) else NoKey;
      RecordRequestResult(r.client, r.id, r.value);
      gets := gets - {rid};
    }

    /** The whole of Get, if nothing comes in between. */
    method Get(rid: int, isLeader: bool, commitIndex: int, clientId: Bytes, requestId: int, key: Bytes)
      returns (answer: Answer)
      requires rid !in gets
      modifies this`gets, this`lastRequests
      ensures Reading(View().kv, answer)
              == KvStore.Get(old(View()).kv, isLeader, commitIndex, clientId, requestId, key)
      ensures gets == old(gets)
    {
      UninterruptedGet(View(), rid, isLeader, commitIndex, clientId, requestId, key);
      var early := CheckGet(rid, isLeader, commitIndex, clientId, requestId, key);
      if early.Now? {
        return early.value;
      }
      if gets[rid].Repeated? {
        answer := AnswerCached(rid);
        return;
      }
      LookUpGet(rid);
      answer := RecordGet(rid);
    }

    // -------------------------------------------------------------- Apply, one lock at a time

    /** The duplicate check. */
    method BeginOp(op: Op)
      requires applying.Idle?
      modifies this`applying
      ensures View() == Serve(old(View()), BeginApply(op))
    {
      var dup := IfRequestDuplicate(op.clientId, op.requestId);
      if !dup {
        applying := Admitted(op);
      }
    }

    method RunOp()
      requires applying.Admitted?
      modifies this`kvdb, this`applying
      ensures View() == Serve(old(View()), ExecuteOp)
    {
      var op := applying.op;
      if op.operation == GET {
        var value, exist := ExecuteGetOpOnKVDB(op.key);
        applying := Executed(op, if exist then value else []);
      } else {
        ExecutePutAppendOnKVDB(op);
        applying := Executed(op, []);
      }
    }

    method RecordOp()
      requires applying.Executed?
      modifies this`lastRequests, this`applying
      ensures View() == Serve(old(View()), EndApply)
    {
      RecordRequestResult(applying.op.clientId, applying.op.requestId, applying.value);
      applying := Idle;
    }

    /** The end of Apply: wake the waiter, if there is one. */
    method Announce(index: int, op: Op)
      modifies this`waitApplyCh
      ensures waitApplyCh == Push(old(waitApplyCh), index, op)
    {
      if index in waitApplyCh {
        waitApplyCh := waitApplyCh[index := waitApplyCh[index] + [op]];
      }
    }

    /** The whole of Apply, if nothing comes in between. */
    method Apply(index: int, command: Bytes, unset: Int32)
      requires applying.Idle?
      modifies this
      ensures View() == old(View()).(kv := ApplyOp(old(View()).kv, Decode(command, unset)))
      ensures waitApplyCh == Push(old(waitApplyCh), index, Decode(command, unset))
    {
      var op := DecodeOp(command, unset);
      UninterruptedApply(View(), op);
      BeginOp(op);
      if applying.Admitted? {
        RunOp();
        RecordOp();
      }
      Announce(index, op);
    }

    // -------------------------------------------------------------- PutAppend

    /** PutAppend, once Start has returned an index. */
    method Register(index: int)
      modifies this`waitApplyCh
      ensures waitApplyCh == Open(old(waitApplyCh), index)
    {
      if index !in waitApplyCh {
        waitApplyCh := waitApplyCh[index := []];
      }
    }

    /** The end of PutAppend: the pop succeeds if something is queued; otherwise it has timed out
        and the dedup table decides. */
    method Finish(op: Op, index: int) returns (ok: bool)
      requires index in waitApplyCh
      modifies this`waitApplyCh
      ensures
        var queue := old(waitApplyCh)[index];
        if |queue| > 0
        then waitApplyCh == old(waitApplyCh)[index := queue[1..]]
             && ok == (queue[0].clientId == op.clientId && queue[0].requestId == op.requestId)
        else waitApplyCh == old(waitApplyCh) && ok == Duplicate(lastRequests, op.clientId, op.requestId)
    {
      var queue := waitApplyCh[index];
      if |queue| > 0 {
        var commit := queue[0];
        waitApplyCh := waitApplyCh[index := queue[1..]];
        ok := commit.clientId == op.clientId && commit.requestId == op.requestId;
      } else {
        ok := IfRequestDuplicate(op.clientId, op.requestId);
      }
    }
  }

  // ---------------------------------------------------------------- acknowledgements

  /** One PutAppend call on a leader: Start has returned `index`; the caller has registered for
      it; the call has returned. */
  datatype Call =
    | Started(op: Op, index: int)
    | Waiting(op: Op, index: int)
    | Replied(op: Op, index: int, ok: bool)

  /** The message the apply thread is working on. */
  datatype Message = NoMessage | Message(op: Op)

  /** One process: the length of its Raft log, how many messages its apply thread has finished and
      which one it is at, the store and the dedup table with the steps under way, the wait channels
      and the calls. `pushes` lists the indices Apply has pushed, in order. */
  datatype Server = Server(
    logLength: nat, applied: nat, current: Message, serving: Serving, channels: Channels,
    calls: map<int, Call>, pushes: seq<int>)

  datatype Step =
    | Lengthen(count: nat)
    | StartCall(id: int, op: Op)
    | RegisterCall(id: int)
    | Receive(op: Op)
    | Work(a: Act)
    | Finished
    | Wake(id: int)
    | TimeOut(id: int)

  function Boot(): Server {
    Server(0, 0, NoMessage, STARTED, map[], map[], [])
  }

  function Reply(c: Call, ok: bool): Call {
    Replied(c.op, c.index, ok)
  }

  /** Any interleaving. The Raft log never gets shorter, so Start always returns a new index; the
      apply thread gets index after index; neither Get nor Apply holds a lock across its steps. A
      step that is not possible does nothing. */
  function Next(s: Server, step: Step): Server {
    match step
    case Lengthen(count) => s.(logLength := s.logLength + count)
    case StartCall(id, op) =>
      if id in s.calls then s
      else s.(logLength := s.logLength + 1, calls := s.calls[id := Started(op, s.logLength + 1)])
    case RegisterCall(id) =>
      if id in s.calls && s.calls[id].Started? then
        var c := s.calls[id];
        s.(channels := Open(s.channels, c.index), calls := s.calls[id := Waiting(c.op, c.index)])
      else s
    case Receive(op) =>
      if s.applied < s.logLength && s.current.NoMessage? then
        s.(current := Message(op), serving := Serve(s.serving, BeginApply(op)))
      else s
    case Work(a) => if a.BeginApply? then s else s.(serving := Serve(s.serving, a))
    case Finished =>
      if s.current.Message? && s.serving.applying.Idle? then
        s.(applied := s.applied + 1, current := NoMessage,
           channels := Push(s.channels, s.applied + 1, s.current.op),
           pushes := if s.applied + 1 in s.channels then s.pushes + [s.applied + 1] else s.pushes)
      else s
    case Wake(id) =>
      if id in s.calls && s.calls[id].Waiting? && s.calls[id].index in s.channels
         && |s.channels[s.calls[id].index]| > 0 then
        var c := s.calls[id];
        var popped := s.channels[c.index][0];
        s.(channels := s.channels[c.index := s.channels[c.index][1..]],
           calls := s.calls[id :=
             Reply(c, popped.clientId == c.op.clientId && popped.requestId == c.op.requestId)])
      else s
    case TimeOut(id) =>
      if id in s.calls && s.calls[id].Waiting? then
        var c := s.calls[id];
        s.(calls := s.calls[id := Reply(c, Covers(s, c.op))])
      else s
  }

  /** The dedup table covers the request: a copy of it will not be applied. */
  predicate Covers(s: Server, op: Op) {
    Duplicate(s.serving.kv.last, op.clientId, op.requestId)
  }

  function After(steps: seq<Step>): Server
    decreases |steps|
  {
    if |steps| == 0 then Boot() else Next(After(steps[..|steps| - 1]), steps[|steps| - 1])
  }

  // ---------------------------------------------------------------- every interleaving

  predicate CallsOk(s: Server) {
    && (forall id :: id in s.calls ==> 1 <= s.calls[id].index <= s.logLength)
    && (forall id, id' :: id in s.calls && id' in s.calls && s.calls[id].index == s.calls[id'].index ==> id == id')
  }

  predicate ChannelsOk(s: Server) {
    && s.applied <= s.logLength && (s.current.Message? ==> s.applied < s.logLength)
    && (!s.serving.applying.Idle? ==> s.current == Message(s.serving.applying.op))
    && (forall i :: i in s.channels ==> |s.channels[i]| <= 1 && (i > s.applied ==> s.channels[i] == []))
    && (forall j, k :: 0 <= j < k < |s.pushes| ==> s.pushes[j] < s.pushes[k])
    && (forall k :: 0 <= k < |s.pushes| ==> s.pushes[k] <= s.applied)
  }

  /** What a step at the store does to the apply thread. */
  lemma ServeApplying(s: Serving, a: Act)
    ensures
      var z := Serve(s, a).applying;
      !a.BeginApply? && !z.Idle? ==> !s.applying.Idle? && z.op == s.applying.op
  {
  }

  lemma NextCallsOk(s: Server, step: Step)
    requires CallsOk(s)
    ensures CallsOk(Next(s, step))
  {
    hide Serve, Push, Open, Covers;
  }

  lemma NextChannelsOk(s: Server, step: Step)
    requires ChannelsOk(s)
    ensures ChannelsOk(Next(s, step))
  {
    hide Covers;
    match step
    case Work(a) => ServeApplying(s.serving, a); hide Serve;
    case Receive(op) => hide Push, Open;
    case _ => hide Serve;
  }

  lemma {:induction false} Always(steps: seq<Step>)
    ensures CallsOk(After(steps)) && ChannelsOk(After(steps))
    decreases |steps|
  {
    if |steps| > 0 {
      Always(steps[..|steps| - 1]);
      NextCallsOk(After(steps[..|steps| - 1]), steps[|steps| - 1]);
      NextChannelsOk(After(steps[..|steps| - 1]), steps[|steps| - 1]);
    }
  }

  /** In the life of a process each log index has at most one waiter and at most one push. */
  lemma OneWaiterOnePush(steps: seq<Step>)
    ensures
      var s := After(steps);
      && (forall id, id' :: id in s.calls && id' in s.calls && id != id' ==> s.calls[id].index != s.calls[id'].index)
      && (forall j, k :: 0 <= j < k < |s.pushes| ==> s.pushes[j] != s.pushes[k])
  {
    Always(steps);
  }

  // ---------------------------------------------------------------- a caller that waits is woken

  /** The call waits, and something is queued for it. */
  predicate CanWake(s: Server, id: int) {
    && id in s.calls && s.calls[id].Waiting?
    && s.calls[id].index in s.channels && |s.channels[s.calls[id].index]| > 0
  }

  lemma AfterSnoc(steps: seq<Step>, step: Step)
    ensures After(steps + [step]) == Next(After(steps), step)
  {
    assert (steps + [step])[..|steps|] == steps;
  }

  predicate WaitersOk(s: Server) {
    forall id :: id in s.calls && s.calls[id].Waiting? ==> s.calls[id].index in s.channels
  }

  lemma NextWaitersOk(s: Server, step: Step)
    requires WaitersOk(s)
    ensures WaitersOk(Next(s, step))
  {
    hide Serve, Covers;
  }

  lemma {:induction false} AlwaysWaitersOk(steps: seq<Step>)
    ensures WaitersOk(After(steps))
    decreases |steps|
  {
    if |steps| > 0 {
      AlwaysWaitersOk(steps[..|steps| - 1]);
      NextWaitersOk(After(steps[..|steps| - 1]), steps[|steps| - 1]);
    }
  }

  /** When Apply ends for an index, exactly the operation at it is queued for whoever has registered
      for the index; for anybody else nothing changes. */
  lemma ApplyEnds(steps: seq<Step>)
    requires After(steps).current.Message? && After(steps).serving.applying.Idle?
    ensures
      var s, s' := After(steps), After(steps + [Finished]);
      var index := s.applied + 1;
      && s'.applied == index && s'.current.NoMessage? && s'.calls == s.calls && s'.serving == s.serving
      && s'.channels.Keys == s.channels.Keys
      && (forall i :: i in s.channels && i != index ==> s'.channels[i] == s.channels[i])
      && (index in s.channels ==> s'.channels[index] == [s.current.op])
      && (forall id :: id in s.calls && s.calls[id].Waiting? && s.calls[id].index == index ==> CanWake(s', id))
  {
    Always(steps);
    AlwaysWaitersOk(steps);
    AfterSnoc(steps, Finished);
    hide After;
  }

  // ---------------------------------------------------------------- what an OK means

  /** No recording step finds that the table has passed its id. */
  predicate TimelyStep(s: Server, step: Step) {
    step.Work? ==> TimelyAct(s.serving, step.a)
  }

  predicate TimelyRun(steps: seq<Step>)
    decreases |steps|
  {
    |steps| == 0
    || (TimelyRun(steps[..|steps| - 1]) && TimelyStep(After(steps[..|steps| - 1]), steps[|steps| - 1]))
  }

  ghost predicate NeverForgets(steps: seq<Step>)
    decreases |steps|
  {
    |steps| == 0
    || (NeverForgets(steps[..|steps| - 1])
        && Keeps(After(steps[..|steps| - 1]).serving.kv, After(steps).serving.kv))
  }

  lemma NextKeepsExactly(s: Server, step: Step)
    ensures Keeps(s.serving.kv, Next(s, step).serving.kv) <==> TimelyStep(s, step)
  {
    if step.Work? {
      KeepsExactly(s.serving, step.a);
    }
  }

  /** The dedup table of a process never forgets a request it covers exactly when each of its
      recording steps is timely. */
  lemma {:induction false} NeverForgetsExactly(steps: seq<Step>)
    ensures NeverForgets(steps) <==> TimelyRun(steps)
    decreases |steps|
  {
    if |steps| > 0 {
      NeverForgetsExactly(steps[..|steps| - 1]);
      NextKeepsExactly(After(steps[..|steps| - 1]), steps[|steps| - 1]);
    }
  }

  predicate Covered(s: Server) {
    && (forall id :: id in s.calls && s.calls[id].Replied? && s.calls[id].ok ==> Covers(s, s.calls[id].op))
    && (forall i :: i in s.channels && |s.channels[i]| > 0 ==> Covers(s, s.channels[i][0]))
    && (s.current.Message? && s.serving.applying.Idle? ==> Covers(s, s.current.op))
  }

  /** The operation the apply thread has just finished with is covered. */
  lemma WorkCovers(s: Server, a: Act)
    requires ChannelsOk(s) && !a.BeginApply? && s.current.Message?
    requires s.serving.applying.Idle? ==> Covers(s, s.current.op)
    requires Keeps(s.serving.kv, Next(s, Work(a)).serving.kv)
    ensures Next(s, Work(a)).serving.applying.Idle? ==> Covers(Next(s, Work(a)), s.current.op)
  {
  }

  lemma NextCovered(s: Server, step: Step)
    requires ChannelsOk(s) && Covered(s) && TimelyStep(s, step)
    ensures Covered(Next(s, step))
  {
    NextKeepsExactly(s, step);
    if step.Work? && !step.a.BeginApply? && s.current.Message? {
      WorkCovers(s, step.a);
    }
    if step.Work? {
      ServeApplying(s.serving, step.a);
      hide Serve, Duplicate;
    }
  }

  lemma {:induction false} AlwaysCovered(steps: seq<Step>)
    requires TimelyRun(steps)
    ensures Covered(After(steps))
    decreases |steps|
  {
    if |steps| > 0 {
      var init := steps[..|steps| - 1];
      AlwaysCovered(init);
      Always(init);
      NextCovered(After(init), steps[|steps| - 1]);
    }
  }

  /** In a run whose table never forgets, an OK is given only for a request the table covers, then
      and ever after: a copy of the request changes nothing any more. */
  lemma OkMeansCovered(steps: seq<Step>, id: int)
    requires TimelyRun(steps)
    requires id in After(steps).calls && After(steps).calls[id].Replied? && After(steps).calls[id].ok
    ensures Covers(After(steps), After(steps).calls[id].op)
    ensures ApplyOp(After(steps).serving.kv, After(steps).calls[id].op) == After(steps).serving.kv
  {
    AlwaysCovered(steps);
  }

  // ---------------------------------------------------------------- what an OK means for the log

  /** What a step does at the store. */
  function ActsOf(s: Server, step: Step): seq<Act> {
    match step
    case Receive(op) => if s.applied < s.logLength && s.current.NoMessage? then [BeginApply(op)] else []
    case Work(a) => if a.BeginApply? then [] else [a]
    case _ => []
  }

  function Acts(steps: seq<Step>): seq<Act>
    decreases |steps|
  {
    if |steps| == 0 then []
    else Acts(steps[..|steps| - 1]) + ActsOf(After(steps[..|steps| - 1]), steps[|steps| - 1])
  }

  /** The operations that the apply thread has executed or found to be duplicates, in order. */
  function Log(steps: seq<Step>): seq<Op> {
    LogOf(Acts(steps))
  }

  lemma ActServes(s: Server, step: Step)
    ensures
      var more := ActsOf(s, step);
      && (more == [] || more == [more[0]])
      && Next(s, step).serving == (if more == [] then s.serving else Serve(s.serving, more[0]))
      && (TimelyStep(s, step) <==> more == [] || TimelyAct(s.serving, more[0]))
  {
    hide Serve, Push, Open, Covers;
  }

  /** The same process, seen as a store that serves. */
  lemma {:induction false} ActsServe(steps: seq<Step>)
    ensures After(steps).serving == ServeAll(Acts(steps))
    ensures TimelyRun(steps) <==> Timely(Acts(steps))
    decreases |steps|
  {
    if |steps| > 0 {
      var init, step := steps[..|steps| - 1], steps[|steps| - 1];
      ActsServe(init);
      ActServes(After(init), step);
      hide Next, ActsOf, Serve, TimelyStep, TimelyAct;
      var more := ActsOf(After(init), step);
      assert Acts(init) + [] == Acts(init);
      if more != [] {
        assert Acts(steps)[..|Acts(init)|] == Acts(init);
      }
    }
  }

  /** The apply thread's place in the log, and what stands in the channels. */
  predicate LogFits(s: Server, log: seq<Op>) {
    && |log| == s.applied + (if s.current.Message? && s.serving.applying.Idle? then 1 else 0)
    && (s.current.Message? && s.serving.applying.Idle? ==> log[s.applied] == s.current.op)
    && (forall i :: i in s.channels && |s.channels[i]| > 0 ==>
          1 <= i <= s.applied && s.channels[i][0] == log[i - 1])
  }

  lemma NextLogFits(s: Server, step: Step, log: seq<Op>)
    requires ChannelsOk(s) && LogFits(s, log)
    ensures
      var more := ActsOf(s, step);
      LogFits(Next(s, step), if more == [] then log else log + Ended(s.serving, more[0]))
  {
    hide Covers;
    match step
    case Work(a) =>
      ServeApplying(s.serving, a);
      assert log + [] == log;
    case Receive(op) => assert log + [] == log;
    case _ => hide Serve;
  }

  lemma {:induction false} AlwaysLogFits(steps: seq<Step>)
    ensures LogFits(After(steps), Log(steps))
    decreases |steps|
  {
    if |steps| > 0 {
      var init, step := steps[..|steps| - 1], steps[|steps| - 1];
      AlwaysLogFits(init);
      Always(init);
      ActsServe(init);
      NextLogFits(After(init), step, Log(init));
      var more := ActsOf(After(init), step);
      assert Acts(init) + [] == Acts(init);
      if more != [] {
        assert more == [more[0]];
        ServeSnoc(Acts(init), more[0]);
      }
      hide Next, ServeAll, LogOf, Ended, LogFits, ActsOf;
    }
  }

  predicate Same(a: Op, b: Op) {
    a.clientId == b.clientId && a.requestId == b.requestId
  }

  /** The request is in the log. */
  predicate Logged(log: seq<Op>, op: Op) {
    exists k :: 0 <= k < |log| && Same(log[k], op)
  }

  /** The client has gone past the request: with an operation of the log that has a higher id, or
      with a read recorded here that has no lower one. */
  ghost predicate Passed(steps: seq<Step>, op: Op) {
    || HasRead(Acts(steps), op.clientId, op.requestId)
    || exists k :: 0 <= k < |Log(steps)| && Log(steps)[k].clientId == op.clientId
                   && Log(steps)[k].requestId > op.requestId
  }

  lemma CoversLogged(steps: seq<Step>, op: Op)
    requires TimelyRun(steps)
    ensures Covers(After(steps), op) <==> Logged(Log(steps), op) || Passed(steps, op)
  {
    ActsServe(steps);
    CoveredExactly(Acts(steps), op);
    hide TimelyRun, ServeAll, LogOf, HasRead, Acts;
  }

  /** A caller that is woken gets OK exactly if its request stands at its own index of the log. */
  lemma WokenExactly(steps: seq<Step>, id: int)
    requires CanWake(After(steps), id)
    ensures
      var c := After(steps).calls[id];
      && 1 <= c.index <= |Log(steps)|
      && After(steps + [Wake(id)]).calls == After(steps).calls[id := Reply(c, Same(Log(steps)[c.index - 1], c.op))]
  {
    AlwaysLogFits(steps);
    AfterSnoc(steps, Wake(id));
    hide After, Log, ChannelsOk;
  }

  /** A caller that times out gets OK exactly if its request is in the log, or its client has gone
      past it. */
  lemma TimedOutExactly(steps: seq<Step>, id: int)
    requires TimelyRun(steps) && id in After(steps).calls && After(steps).calls[id].Waiting?
    ensures
      var c := After(steps).calls[id];
      After(steps + [TimeOut(id)]).calls
      == After(steps).calls[id := Reply(c, Logged(Log(steps), c.op) || Passed(steps, c.op))]
  {
    CoversLogged(steps, After(steps).calls[id].op);
    AfterSnoc(steps, TimeOut(id));
    TimeOutAnswers(After(steps), id);
    hide After, Next, Logged, Passed, Covers, TimelyRun, Log;
  }

  lemma TimeOutAnswers(s: Server, id: int)
    requires id in s.calls && s.calls[id].Waiting?
    ensures Next(s, TimeOut(id)).calls == s.calls[id := Reply(s.calls[id], Covers(s, s.calls[id].op))]
  {
    hide Covers;
  }

  /** So an OK means that the request is in the log, exactly unless its client has gone past it. */
  lemma OkMeansLogged(steps: seq<Step>, id: int)
    requires TimelyRun(steps)
    requires id in After(steps).calls && After(steps).calls[id].Replied? && After(steps).calls[id].ok
    ensures
      var op := After(steps).calls[id].op;
      Logged(Log(steps), op) || Passed(steps, op)
  {
    OkMeansCovered(steps, id);
    CoversLogged(steps, After(steps).calls[id].op);
  }

  function PutCalled(put: Op): seq<Step> {
    [] + [StartCall(1, put)] + [RegisterCall(1)]
  }

  lemma PutIsCalled(put: Op)
    ensures After(PutCalled(put))
            == Server(1, 0, NoMessage, STARTED, map[1 := []], map[1 := Waiting(put, 1)], [])
  {
    assert After([]) == Boot();
    AfterSnoc([], StartCall(1, put));
    AfterSnoc([] + [StartCall(1, put)], RegisterCall(1));
    hide After;
    assert map[1 := Started(put, 1)][1 := Waiting(put, 1)] == map[1 := Waiting(put, 1)];
  }

  /** A caller waits for a Put, and a read with id 1 of the same client is under way. */
  function PutDuringRead(put: Op): seq<Step> {
    PutCalled(put) + [Work(CheckRead(7, true, 0, put.clientId, 1, put.key))] + [Work(LookUp(7))]
  }

  lemma PutWaits(put: Op)
    ensures
      var gets := map[7 := Looked(put.clientId, 1, [], false)];
      After(PutDuringRead(put))
      == Server(1, 0, NoMessage, Serving(EMPTY, gets, Idle), map[1 := []], map[1 := Waiting(put, 1)], [])
  {
    var c := CheckRead(7, true, 0, put.clientId, 1, put.key);
    PutIsCalled(put);
    AfterSnoc(PutCalled(put), Work(c));
    AfterSnoc(PutCalled(put) + [Work(c)], Work(LookUp(7)));
    hide After, PutCalled;
    var r := Checked(put.clientId, 1, put.key);
    assert map[7 := r][7 := LookUpNow(map[], r)] == map[7 := LookUpNow(map[], r)];
  }

  /** The Put is applied. */
  function PutApplied(put: Op): seq<Step> {
    PutDuringRead(put) + [Receive(put)] + [Work(ExecuteOp)] + [Work(EndApply)] + [Finished]
  }

  lemma PutIsPushed(put: Op)
    requires put.requestId == 2 && put.operation == PUT
    ensures
      var s := After(PutApplied(put));
      && 1 in s.calls && s.calls[1] == Waiting(put, 1) && 1 in s.channels && s.channels[1] == [put]
      && 7 in s.serving.gets && s.serving.gets[7] == Looked(put.clientId, 1, [], false)
      && s.serving.kv.last == map[put.clientId := Record(2, [])]
  {
    var p := PutDuringRead(put);
    PutWaits(put);
    AfterSnoc(p, Receive(put));
    AfterSnoc(p + [Receive(put)], Work(ExecuteOp));
    AfterSnoc(p + [Receive(put)] + [Work(ExecuteOp)], Work(EndApply));
    AfterSnoc(p + [Receive(put)] + [Work(ExecuteOp)] + [Work(EndApply)], Finished);
    hide After, PutDuringRead;
  }

  /** A read recorded late takes the table back: the Put is acknowledged, and yet a copy of it
      would be applied. */
  lemma LateReadUncovers(put: Op)
    requires put.requestId == 2 && put.operation == PUT
    ensures
      var s := After(PutApplied(put) + [Work(RecordRead(7))] + [Wake(1)]);
      && 1 in s.calls && s.calls[1] == Replied(put, 1, true) && !Covers(s, put)
      && !TimelyStep(After(PutApplied(put)), Work(RecordRead(7)))
  {
    PutIsPushed(put);
    AfterSnoc(PutApplied(put), Work(RecordRead(7)));
    AfterSnoc(PutApplied(put) + [Work(RecordRead(7))], Wake(1));
    hide After, PutApplied;
  }

  /** A read with id 2 of the client is recorded while its Put with id 1 waits; the Put times out. */
  function PutPassed(put: Op): seq<Step> {
    PutCalled(put) + [Work(CheckRead(7, true, 0, put.clientId, 2, put.key))] + [Work(LookUp(7))]
    + [Work(RecordRead(7))] + [TimeOut(1)]
  }

  lemma TimelySnoc(steps: seq<Step>, step: Step)
    requires TimelyRun(steps) && TimelyStep(After(steps), step)
    ensures TimelyRun(steps + [step])
  {
    assert (steps + [step])[..|steps|] == steps;
  }

  lemma PutCalledTimely(put: Op)
    ensures TimelyRun(PutCalled(put))
  {
    TimelySnoc([], StartCall(1, put));
    TimelySnoc([] + [StartCall(1, put)], RegisterCall(1));
  }

  lemma PutIsPassed(put: Op)
    requires put.requestId == 1
    ensures
      After(PutPassed(put))
      == Server(1, 0, NoMessage, Serving(Kv(map[], map[put.clientId := Record(2, [])]), map[], Idle),
                map[1 := []], map[1 := Replied(put, 1, true)], [])
    ensures TimelyRun(PutPassed(put))
  {
    var c, look, note := Work(CheckRead(7, true, 0, put.clientId, 2, put.key)), Work(LookUp(7)), Work(RecordRead(7));
    var p := PutCalled(put);
    PutIsCalled(put);
    PutCalledTimely(put);
    AfterSnoc(p, c);
    AfterSnoc(p + [c], look);
    AfterSnoc(p + [c] + [look], note);
    AfterSnoc(p + [c] + [look] + [note], TimeOut(1));
    hide After, PutCalled, TimelyRun, Next, TimelyStep;
    PassingSteps(put);
    TimelySnoc(p, c);
    TimelySnoc(p + [c], look);
    TimelySnoc(p + [c] + [look], note);
    TimelySnoc(p + [c] + [look] + [note], TimeOut(1));
  }

  lemma PassingSteps(put: Op)
    requires put.requestId == 1
    ensures
      var s := Server(1, 0, NoMessage, STARTED, map[1 := []], map[1 := Waiting(put, 1)], []);
      var c := Work(CheckRead(7, true, 0, put.clientId, 2, put.key));
      var s1 := Next(s, c);
      var s2 := Next(s1, Work(LookUp(7)));
      var s3 := Next(s2, Work(RecordRead(7)));
      && TimelyStep(s, c) && TimelyStep(s1, Work(LookUp(7))) && TimelyStep(s2, Work(RecordRead(7)))
      && TimelyStep(s3, TimeOut(1))
      && Next(s3, TimeOut(1))
         == Server(1, 0, NoMessage, Serving(Kv(map[], map[put.clientId := Record(2, [])]), map[], Idle),
                   map[1 := []], map[1 := Replied(put, 1, true)], [])
  {
    var r := Checked(put.clientId, 2, put.key);
    assert map[7 := r][7 := LookUpNow(map[], r)] - {7} == map[];
    assert map[1 := Waiting(put, 1)][1 := Replied(put, 1, true)] == map[1 := Replied(put, 1, true)];
  }

  /** The Put is acknowledged although nothing has been applied; when it does arrive, it is dropped. */
  lemma OkWithoutEffect(put: Op)
    requires put.requestId == 1 && put.operation == PUT
    ensures
      var s := After(PutPassed(put));
      && s.calls == map[1 := Replied(put, 1, true)] && Log(PutPassed(put)) == [] && TimelyRun(PutPassed(put))
    ensures
      var arrived := PutPassed(put) + [Receive(put)];
      Log(arrived) == [put] && put.key !in After(arrived).serving.kv.db
  {
    var p := PutPassed(put);
    PutIsPassed(put);
    AlwaysLogFits(p);
    AfterSnoc(p, Receive(put));
    AlwaysLogFits(p + [Receive(put)]);
    hide After, PutPassed, Log, TimelyRun;
  }
}
