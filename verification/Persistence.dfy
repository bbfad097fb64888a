/** Class Persister (Raft/raft.h): saves are queued, coalesced and written behind by one worker
    thread; WaitFlushed tells a saver when its save is on disk. */
module Persistence {
  import opened Bytes

  datatype Option<T> = None | Some(value: T)

  datatype Request =
    | SaveBoth(raft: Bytes, snapshot: Bytes)
    | SaveRaft(raft: Bytes)

  /** What is, or ought to be, on disk. */
  datatype Cell = Cell(raft: Bytes, snapshot: Bytes)

  datatype Stage = Taken | SnapshotDone | RaftDone

  /** The locals of one pass of WorkLoop. */
  datatype Job =
    | Idle
    | Job(seqToWrite: nat, snapshot: Option<Bytes>, raft: Option<Bytes>, stage: Stage)

  /** The queue fields, the worker and the files of one process. `requests` and `initial` record
      what was asked for since the process started, and what the disk held then; nobody reads them. */
  datatype Store = Store(
    pendingRaft: Bytes, pendingSnapshot: Bytes, hasRaft: bool, hasSnapshot: bool,
    nextSeq: nat, flushedSeq: nat, pendingSeq: nat,
    job: Job, disk: Cell, requests: seq<Request>, initial: Cell)

  datatype Step = Save(r: Request) | TakeJob | WriteSnapshot | WriteRaft | MarkFlushed | Crash

  /** A process that starts on these files. */
  function Start(disk: Cell): Store {
    Store([], [], false, false, 0, 0, 0, Idle, disk, [], disk)
  }

  function Enqueue(p: Store, r: Request): Store {
    var q := p.(pendingRaft := r.raft, hasRaft := true, nextSeq := p.nextSeq + 1, pendingSeq := p.nextSeq + 1,
                requests := p.requests + [r]);
    if r.SaveBoth? then q.(pendingSnapshot := r.snapshot, hasSnapshot := true) else q
  }

  function Take(p: Store): Store {
    p.(job := Job(p.pendingSeq,
                  if p.hasSnapshot then Some(p.pendingSnapshot) else None,
                  if p.hasRaft then Some(p.pendingRaft) else None, Taken),
       hasRaft := false, hasSnapshot := false)
  }

  /** Any interleaving of savers, worker and crashes. A step that is not possible does nothing. */
  function Next(p: Store, step: Step): Store {
    match step
    case Save(r) => Enqueue(p, r)
    case TakeJob => if p.job.Idle? && (p.hasRaft || p.hasSnapshot) then Take(p) else p
    case WriteSnapshot =>
      if p.job.Job? && p.job.stage == Taken then
        p.(job := p.job.(stage := SnapshotDone),
           disk := if p.job.snapshot.Some? then p.disk.(snapshot := p.job.snapshot.value) else p.disk)
      else p
    case WriteRaft =>
      if p.job.Job? && p.job.stage == SnapshotDone then
        p.(job := p.job.(stage := RaftDone),
           disk := if p.job.raft.Some? then p.disk.(raft := p.job.raft.value) else p.disk)
      else p
    case MarkFlushed =>
      if p.job.Job? && p.job.stage == RaftDone then
        p.(job := Idle, flushedSeq := if p.job.seqToWrite > p.flushedSeq then p.job.seqToWrite else p.flushedSeq)
      else p
    case Crash => Start(p.disk)
  }

  function After(disk: Cell, steps: seq<Step>): Store
    decreases |steps|
  {
    if |steps| == 0 then Start(disk)
    else Next(After(disk, steps[..|steps| - 1]), steps[|steps| - 1])
  }

  // ---------------------------------------------------------------- the durable cell

  /** An atomic durable write. */
  function Put(c: Cell, r: Request): Cell {
    match r
    case SaveBoth(raft, snapshot) => Cell(raft, snapshot)
    case SaveRaft(raft) => c.(raft := raft)
  }

  /** The cell after the first k requests. */
  function CellAt(initial: Cell, requests: seq<Request>, k: nat): Cell
    requires k <= |requests|
  {
    if k == 0 then initial else Put(CellAt(initial, requests, k - 1), requests[k - 1])
  }

  lemma {:induction false} CellAtPrefix(initial: Cell, requests: seq<Request>, r: Request, k: nat)
    requires k <= |requests|
    ensures CellAt(initial, requests + [r], k) == CellAt(initial, requests, k)
  {
    if k > 0 {
      CellAtPrefix(initial, requests, r, k - 1);
    }
  }

  /** How many requests the worker has taken. */
  function TakenSeq(p: Store): nat {
    if p.job.Idle? then p.flushedSeq else p.job.seqToWrite
  }

  /** How many requests the raft file, and the snapshot file, reflect. */
  function RaftVersion(p: Store): nat {
    if p.job.Job? && p.job.stage == RaftDone then p.job.seqToWrite else p.flushedSeq
  }

  function SnapshotVersion(p: Store): nat {
    if p.job.Job? && p.job.stage != Taken then p.job.seqToWrite else p.flushedSeq
  }

  predicate QueueOk(p: Store) {
    && p.nextSeq == p.pendingSeq == |p.requests|
    && p.flushedSeq <= TakenSeq(p) <= |p.requests|
    && (p.hasRaft <==> TakenSeq(p) < |p.requests|)
    && (p.hasRaft ==> p.pendingRaft == CellAt(p.initial, p.requests, |p.requests|).raft)
    && CellAt(p.initial, p.requests, |p.requests|).snapshot ==
       (if p.hasSnapshot then p.pendingSnapshot else CellAt(p.initial, p.requests, TakenSeq(p)).snapshot)
    && (p.hasSnapshot ==> p.hasRaft)
  }

  predicate JobOk(p: Store) {
    p.job.Job? && p.job.seqToWrite <= |p.requests| ==>
      && p.flushedSeq < p.job.seqToWrite
      && p.job.raft == Some(CellAt(p.initial, p.requests, p.job.seqToWrite).raft)
      && p.flushedSeq <= |p.requests|
      && CellAt(p.initial, p.requests, p.job.seqToWrite).snapshot ==
         (if p.job.snapshot.Some? then p.job.snapshot.value else CellAt(p.initial, p.requests, p.flushedSeq).snapshot)
  }

  /** Each file is exactly what the durable cell holds after as many requests as it reflects. */
  predicate DiskOk(p: Store) {
    && RaftVersion(p) <= |p.requests| && SnapshotVersion(p) <= |p.requests|
    && p.disk.raft == CellAt(p.initial, p.requests, RaftVersion(p)).raft
    && p.disk.snapshot == CellAt(p.initial, p.requests, SnapshotVersion(p)).snapshot
  }

  predicate Ok(p: Store) {
    QueueOk(p) && JobOk(p) && DiskOk(p)
  }

  lemma EnqueueKeeps(p: Store, r: Request)
    requires Ok(p)
    ensures Ok(Enqueue(p, r))
  {
    CellAtPrefix(p.initial, p.requests, r, TakenSeq(p));
    CellAtPrefix(p.initial, p.requests, r, |p.requests|);
    CellAtPrefix(p.initial, p.requests, r, p.flushedSeq);
    CellAtPrefix(p.initial, p.requests, r, RaftVersion(p));
    CellAtPrefix(p.initial, p.requests, r, SnapshotVersion(p));
  }

  lemma NextKeeps(p: Store, step: Step)
    requires Ok(p)
    ensures Ok(Next(p, step))
  {
    if step.Save? {
      EnqueueKeeps(p, step.r);
    }
  }

  lemma {:induction false} Always(disk: Cell, steps: seq<Step>)
    ensures Ok(After(disk, steps))
    decreases |steps|
  {
    if |steps| > 0 {
      Always(disk, steps[..|steps| - 1]);
      NextKeeps(After(disk, steps[..|steps| - 1]), steps[|steps| - 1]);
    }
  }

  // ---------------------------------------------------------------- what savers may rely on

  /** When WaitFlushed(seq) returns, the raft file holds a save numbered at least seq. */
  lemma FlushedIsOnDisk(disk: Cell, steps: seq<Step>, seqNo: nat) returns (k: nat)
    requires 1 <= seqNo <= After(disk, steps).flushedSeq
    ensures
      var p := After(disk, steps);
      && seqNo <= k <= |p.requests| && p.disk.raft == p.requests[k - 1].raft
  {
    Always(disk, steps);
    k := RaftVersion(After(disk, steps));
  }

  /** The disk is the durable cell after r requests for the raft state, and after s >= r requests
      for the snapshot, with everything flushed included. */
  predicate Reflects(p: Store, r: nat, s: nat) {
    && p.flushedSeq <= r <= s <= |p.requests|
    && p.disk == Cell(CellAt(p.initial, p.requests, r).raft, CellAt(p.initial, p.requests, s).snapshot)
  }

  /** q is a later state of the same process. */
  predicate Later(p: Store, q: Store) {
    && q.initial == p.initial && p.requests <= q.requests
    && RaftVersion(p) <= RaftVersion(q) && SnapshotVersion(p) <= SnapshotVersion(q)
  }

  lemma NextLater(p: Store, step: Step)
    requires Ok(p) && !step.Crash?
    ensures Later(p, Next(p, step))
  {
  }

  lemma {:induction false} RunLater(disk: Cell, steps: seq<Step>, more: seq<Step>)
    requires forall w :: w in more ==> !w.Crash?
    ensures Later(After(disk, steps), After(disk, steps + more))
    decreases |more|
  {
    if |more| == 0 {
      assert steps + more == steps;
    } else {
      var init := more[..|more| - 1];
      RunLater(disk, steps, init);
      Always(disk, steps + init);
      assert (steps + more)[..|steps + more| - 1] == steps + init;
      NextLater(After(disk, steps + init), more[|more| - 1]);
    }
  }

  /** At every crash point the disk reflects r requests for the raft state and s >= r for the
      snapshot: the snapshot is never older than the raft state next to it. Later in the life of
      the process it reflects at least as many. */
  lemma CrashConsistent(disk: Cell, steps: seq<Step>, more: seq<Step>) returns (r: nat, s: nat, r': nat, s': nat)
    requires forall w :: w in more ==> !w.Crash?
    ensures Reflects(After(disk, steps), r, s) && Reflects(After(disk, steps + more), r', s')
    ensures r <= r' && s <= s'
    ensures After(disk, steps).initial == After(disk, steps + more).initial
    ensures After(disk, steps).requests <= After(disk, steps + more).requests
  {
    var p, q := After(disk, steps), After(disk, steps + more);
    Always(disk, steps);
    Always(disk, steps + more);
    RunLater(disk, steps, more);
    r, s := RaftVersion(p), SnapshotVersion(p);
    r', s' := RaftVersion(q), SnapshotVersion(q);
  }

  /** With no snapshots requested the disk is the durable cell after r requests, and r never goes
      back while the process lives: a crash exposes nothing but the states of an atomic cell, in
      order. */
  lemma AtomicWithoutSnapshots(disk: Cell, steps: seq<Step>, more: seq<Step>) returns (r: nat, r': nat)
    requires forall w :: w in more ==> !w.Crash?
    requires forall w :: w in After(disk, steps + more).requests ==> w.SaveRaft?
    ensures
      var p, q := After(disk, steps), After(disk, steps + more);
      && p.initial == q.initial && p.requests <= q.requests
      && p.flushedSeq <= r <= |p.requests| && p.disk == CellAt(q.initial, q.requests, r)
      && q.flushedSeq <= r' <= |q.requests| && q.disk == CellAt(q.initial, q.requests, r')
      && r <= r'
  {
    var s, s';
    r, s, r', s' := CrashConsistent(disk, steps, more);
    var p, q := After(disk, steps), After(disk, steps + more);
    assert forall w :: w in p.requests ==> w in q.requests;
    SameSnapshot(p.initial, p.requests, r);
    SameSnapshot(p.initial, p.requests, s);
    SameSnapshot(q.initial, q.requests, r');
    SameSnapshot(q.initial, q.requests, s');
    SamePrefix(p.initial, p.requests, q.requests, r);
  }

  lemma {:induction false} SamePrefix(initial: Cell, a: seq<Request>, b: seq<Request>, k: nat)
    requires a <= b && k <= |a|
    ensures CellAt(initial, a, k) == CellAt(initial, b, k)
  {
    if k > 0 {
      SamePrefix(initial, a, b, k - 1);
    }
  }

  lemma {:induction false} SameSnapshot(initial: Cell, requests: seq<Request>, k: nat)
    requires k <= |requests| && forall r :: r in requests ==> r.SaveRaft?
    ensures CellAt(initial, requests, k).snapshot == initial.snapshot
  {
    if k > 0 {
      SameSnapshot(initial, requests, k - 1);
      assert requests[k - 1] in requests;
    }
  }

  /** Once everything is flushed the disk is the durable cell after all requests. */
  lemma QuietIsExact(disk: Cell, steps: seq<Step>)
    requires After(disk, steps).flushedSeq == After(disk, steps).nextSeq
    ensures
      var p := After(disk, steps);
      p.disk == CellAt(p.initial, p.requests, |p.requests|)
  {
    Always(disk, steps);
  }

  /** persist: one SaveRaftState while nothing else is queued, then the worker. Whatever the
      moment of a crash, the disk is the old cell or the new one; once WaitFlushed lets the saver
      go, it is the new one. */
  lemma PersistIsAtomic(disk: Cell, before: seq<Step>, data: Bytes, work: seq<Step>)
    requires After(disk, before).flushedSeq == After(disk, before).nextSeq
    requires forall w :: w in work ==> !w.Save? && !w.Crash?
    ensures
      var p := After(disk, before);
      var q := After(disk, before + [Save(SaveRaft(data))] + work);
      && q.nextSeq == p.nextSeq + 1
      && (q.disk == p.disk || q.disk == p.disk.(raft := data))
      && (q.flushedSeq >= q.nextSeq ==> q.disk == p.disk.(raft := data))
  {
    var p := After(disk, before);
    var one := before + [Save(SaveRaft(data))];
    Always(disk, before);
    assert one[..|before|] == before;
    assert After(disk, one) == Enqueue(p, SaveRaft(data));
    OnlyWork(disk, one, work);
    Always(disk, one + work);
    hide After;
    OldOrNew(p, data, After(disk, one + work));
  }

  /** q has been asked for just one request more than p, which was quiet. */
  predicate OneMore(p: Store, data: Bytes, q: Store) {
    && p.flushedSeq == p.nextSeq <= q.flushedSeq && q.initial == p.initial
    && q.requests == p.requests + [SaveRaft(data)] && q.nextSeq == p.nextSeq + 1
  }

  lemma OldOrNew(p: Store, data: Bytes, q: Store)
    requires Ok(p) && Ok(q) && OneMore(p, data, q)
    ensures q.disk == p.disk || q.disk == p.disk.(raft := data)
    ensures q.flushedSeq >= q.nextSeq ==> q.disk == p.disk.(raft := data)
  {
    var n := |p.requests|;
    CellAtPrefix(p.initial, p.requests, SaveRaft(data), n);
    assert CellAt(q.initial, q.requests, n) == p.disk;
    assert CellAt(q.initial, q.requests, n + 1) == p.disk.(raft := data);
  }

  /** The worker alone asks for nothing and loses nothing. */
  lemma {:induction false} OnlyWork(disk: Cell, steps: seq<Step>, work: seq<Step>)
    requires forall w :: w in work ==> !w.Save? && !w.Crash?
    ensures
      var p, q := After(disk, steps), After(disk, steps + work);
      && q.requests == p.requests && q.initial == p.initial && q.nextSeq == p.nextSeq
      && p.flushedSeq <= q.flushedSeq
    decreases |work|
  {
    if |work| == 0 {
      assert steps + work == steps;
    } else {
      var init := work[..|work| - 1];
      OnlyWork(disk, steps, init);
      assert (steps + work)[..|steps + work| - 1] == steps + init;
    }
  }

  // ---------------------------------------------------------------- the worker catches up

  /** The rest of a pass of WorkLoop, if one is under way. */
  function EndPass(p: Store): Store {
    Next(Next(Next(p, WriteSnapshot), WriteRaft), MarkFlushed)
  }

  /** All that was asked for is on disk, and every saver is let go. */
  predicate CaughtUp(p: Store, q: Store) {
    && q.job.Idle? && !q.hasRaft && !q.hasSnapshot
    && q.requests == p.requests && q.initial == p.initial && q.nextSeq == p.nextSeq
    && q.flushedSeq == q.nextSeq == |p.requests|
    && q.disk == CellAt(p.initial, p.requests, |p.requests|)
  }

  /** At any moment, whatever the worker is at: once it has ended its pass and made another one, it has
      caught up. */
  lemma WorkerCatchesUp(disk: Cell, steps: seq<Step>)
    ensures CaughtUp(After(disk, steps), EndPass(Next(EndPass(After(disk, steps)), TakeJob)))
  {
    Always(disk, steps);
    hide After, Ok, CaughtUp, EndPass, Next;
    PassEnds(After(disk, steps));
    PassFlushes(EndPass(After(disk, steps)));
    CaughtUpFor(After(disk, steps), EndPass(After(disk, steps)), EndPass(Next(EndPass(After(disk, steps)), TakeJob)));
  }

  lemma PassEnds(p: Store)
    requires Ok(p)
    ensures
      var q := EndPass(p);
      Ok(q) && q.job.Idle? && q.requests == p.requests && q.initial == p.initial && q.nextSeq == p.nextSeq
  {
    hide Ok, Next;
    EndPassIdle(p);
    NextKeeps(p, WriteSnapshot);
    NextKeeps(Next(p, WriteSnapshot), WriteRaft);
    NextKeeps(Next(Next(p, WriteSnapshot), WriteRaft), MarkFlushed);
  }

  lemma EndPassIdle(p: Store)
    ensures
      var q := EndPass(p);
      q.job.Idle? && q.requests == p.requests && q.initial == p.initial && q.nextSeq == p.nextSeq
  {
  }

  lemma PassFlushes(p: Store)
    requires Ok(p) && p.job.Idle?
    ensures CaughtUp(p, EndPass(Next(p, TakeJob)))
  {
  }

  lemma CaughtUpFor(p: Store, q: Store, r: Store)
    requires CaughtUp(q, r) && q.requests == p.requests && q.initial == p.initial && q.nextSeq == p.nextSeq
    ensures CaughtUp(p, r)
  {
  }

  // ---------------------------------------------------------------- the class

  class Persister {
    var pendingRaft: Bytes
    var pendingSnapshot: Bytes
    var hasPendingRaft: bool
    var hasPendingSnapshot: bool
    var nextSeq: nat
    var flushedSeq: nat
    var pendingSeq: nat
    var job: Job
    var raftFile: Bytes
    var snapshotFile: Bytes
    ghost var requests: seq<Request>
    ghost var initial: Cell

    ghost function View(): Store
      reads this
    {
      Store(pendingRaft, pendingSnapshot, hasPendingRaft, hasPendingSnapshot, nextSeq, flushedSeq, pendingSeq,
            job, Cell(raftFile, snapshotFile), requests, initial)
    }

    constructor (raftFile: Bytes, snapshotFile: Bytes)
      ensures View() == Start(Cell(raftFile, snapshotFile))
    {
      pendingRaft, pendingSnapshot, hasPendingRaft, hasPendingSnapshot := [], [], false, false;
      nextSeq, flushedSeq, pendingSeq, job := 0, 0, 0, Idle;
      this.raftFile, this.snapshotFile := raftFile, snapshotFile;
      requests, initial := [], Cell(raftFile, snapshotFile);
    }

    method Save(raftState: Bytes, snapshot: Bytes) returns (seqNo: nat)
      modifies this
      ensures View() == Enqueue(old(View()), SaveBoth(raftState, snapshot)) && seqNo == nextSeq
    {
      pendingRaft, pendingSnapshot := raftState, snapshot;
      hasPendingRaft, hasPendingSnapshot := true, true;
      nextSeq := nextSeq + 1;
      pendingSeq := nextSeq;
      seqNo := nextSeq;
      requests := requests + [SaveBoth(raftState, snapshot)];
    }

    method SaveRaftState(data: Bytes) returns (seqNo: nat)
      modifies this
      ensures View() == Enqueue(old(View()), SaveRaft(data)) && seqNo == nextSeq
    {
      pendingRaft, hasPendingRaft := data, true;
      nextSeq := nextSeq + 1;
      pendingSeq := nextSeq;
      seqNo := nextSeq;
      requests := requests + [SaveRaft(data)];
    }

    /** The first critical section of WorkLoop. */
    method TakePending()
      requires job.Idle?
      modifies this
      ensures View() == Next(old(View()), TakeJob)
    {
      if !hasPendingRaft && !hasPendingSnapshot {
        return;
      }
      var snapshot, raft: Option<Bytes> := None, None;
      if hasPendingSnapshot {
        snapshot, hasPendingSnapshot := Some(pendingSnapshot), false;
      }
      if hasPendingRaft {
        raft, hasPendingRaft := Some(pendingRaft), false;
      }
      job := Job(pendingSeq, snapshot, raft, Taken);
    }

    /** The file writes of WorkLoop, in this order, each atomic by rename. */
    method WriteSnapshotFile()
      requires job.Job? && job.stage == Taken
      modifies this
      ensures View() == Next(old(View()), WriteSnapshot)
    {
      if job.snapshot.Some? {
        snapshotFile := job.snapshot.value;
      }
      job := job.(stage := SnapshotDone);
    }

    method WriteRaftFile()
      requires job.Job? && job.stage == SnapshotDone
      modifies this
      ensures View() == Next(old(View()), WriteRaft)
    {
      if job.raft.Some? {
        raftFile := job.raft.value;
      }
      job := job.(stage := RaftDone);
    }

    /** The last critical section of WorkLoop. */
    method Flushed()
      requires job.Job? && job.stage == RaftDone
      modifies this
      ensures View() == Next(old(View()), MarkFlushed)
    {
      if job.seqToWrite > flushedSeq {
        flushedSeq := job.seqToWrite;
      }
      job := Idle;
    }
  }
}
