/** Limits of the code: with other than two or three nodes nothing is ever committed, and a run that
    is not conforming can lose log matching, or safety itself. */
module Limits {
  import opened Bytes
  import opened RaftTypes
  import opened RaftHandlers
  import opened Cluster
  import opened Invariants
  import opened Receiver
  import opened EventsKeep
  import opened RaftTheorems
  import opened CommittedLength

  // ---------------------------------------------------------------- more than three nodes

  /** Nothing is committed, and no message says otherwise. */
  ghost predicate Uncommitted(s: Cluster)
    requires Sized(s)
  {
    && (forall i :: 0 <= i < s.n ==> s.nodes[i].commitIndex == 0 && s.nodes[i].peers == s.n)
    && (forall m :: m in s.msgs && m.AppendRequest? ==> m.args.leaderCommit == 0)
  }

  lemma EventUncommitted(s: Cluster, i: int, ev: Event)
    requires Sized(s) && Uncommitted(s) && 4 <= s.n && 0 <= i < s.n && EventEnabled(s, i, ev)
    requires Run(s, i, ev).Done?
    ensures
      var e := Run(s, i, ev).value;
      && e.node.commitIndex == 0 && e.node.peers == s.n
      && forall m :: m in e.sent && m.AppendRequest? ==> m.args.leaderCommit == 0
  {
    var x, h := s.nodes[i], s.hist;
    match ev
    case OnVoteReply(m) => VoteReplyUncommitted(x, h, m);
    case OnAppend(m) => AppendUncommitted(x, h, m.args);
    case OnAppendReply(m, count) => ReplyUncommitted(x, h, m, count);
    case _ =>
  }

  lemma VoteReplyUncommitted(x: Node, h: History, m: Message)
    requires m.VoteReply? && x.election.Election? && RunVoteReply(x, h, m).Done?
    ensures
      var e := RunVoteReply(x, h, m).value;
      e.node.commitIndex == x.commitIndex && e.node.peers == x.peers && e.sent == {}
  {
  }

  lemma AppendUncommitted(x: Node, h: History, a: AppendArgs)
    requires RunAppend(x, h, a).Done? && a.leaderCommit == 0 == x.commitIndex
    ensures
      var e := RunAppend(x, h, a).value;
      e.node.commitIndex == 0 && e.node.peers == x.peers && forall m :: m in e.sent ==> m.AppendResponse?
  {
  }

  lemma ReplyUncommitted(x: Node, h: History, m: Message, count: int)
    requires m.AppendResponse? && 0 <= m.from < |x.nextIndex| && 0 <= m.from < |x.matchIndex|
    requires (|m.args.entries| > 0 ==> count == 1) && 4 <= x.peers
    requires RunAppendReply(x, h, m, count).Done?
    ensures
      var e := RunAppendReply(x, h, m, count).value;
      e.node.commitIndex == x.commitIndex && e.node.peers == x.peers && e.sent == {}
  {
  }

  lemma NextUncommitted(s: Cluster, step: Step)
    requires Sized(s) && Uncommitted(s) && 4 <= s.n
    ensures Uncommitted(Next(s, step))
  {
    if Enabled(s, step) && !step.Crash? && Run(s, step.i, step.ev).Done? {
      EventUncommitted(s, step.i, step.ev);
      hide Run, EventEnabled;
    }
  }

  lemma {:induction false} AlwaysUncommitted(n: nat, steps: seq<Step>)
    requires 4 <= n
    ensures Uncommitted(After(n, steps))
    decreases |steps|
  {
    if |steps| > 0 {
      AlwaysUncommitted(n, steps[..|steps| - 1]);
      NextUncommitted(After(n, steps[..|steps| - 1]), steps[|steps| - 1]);
    }
  }

  // ---------------------------------------------------------------- a single node

  /** A single node has nobody to send batches to. */
  lemma LoneSilence(s: Cluster, m: Message)
    requires Inv(s) && s.n <= 1 && m in s.msgs
    ensures !m.AppendRequest? && !m.AppendResponse?
  {
    assert MsgInv(s.n, s.hist.ballots, s.hist.reigns, m);
  }

  lemma LoneEvent(s: Cluster, i: int, ev: Event)
    requires Inv(s) && s.n <= 1 && 0 <= i < s.n && s.nodes[i].commitIndex == 0 && EventEnabled(s, i, ev)
    ensures Run(s, i, ev).Done? && Run(s, i, ev).value.node.commitIndex == 0
  {
    EventSound(s, i, ev);
    hide Inv, Run;
    if ev.OnAppend? || ev.OnAppendReply? {
      LoneSilence(s, ev.m);
    } else {
      QuietCommit(s, i, ev);
    }
  }

  lemma LoneStep(s: Cluster, step: Step)
    requires Inv(s) && s.n <= 1 && forall i :: 0 <= i < s.n ==> s.nodes[i].commitIndex == 0
    ensures forall i :: 0 <= i < s.n ==> Next(s, step).nodes[i].commitIndex == 0
  {
    if Enabled(s, step) && !step.Crash? {
      LoneEvent(s, step.i, step.ev);
      StepShape(s, step, Run(s, step.i, step.ev).value);
      hide Run, EventEnabled, Inv, Next;
    }
  }

  lemma {:induction false} LoneUncommitted(n: nat, steps: seq<Step>)
    requires n <= 1
    ensures forall i :: 0 <= i < n ==> After(n, steps).nodes[i].commitIndex == 0
    decreases |steps|
  {
    if |steps| > 0 {
      LoneUncommitted(n, steps[..|steps| - 1]);
      Reachable(n, steps[..|steps| - 1]);
      LoneStep(After(n, steps[..|steps| - 1]), steps[|steps| - 1]);
    }
  }

  /** The counter behind commitIndex starts at 1 for every batch and every peer, so it never exceeds
      2; and a single node counts nothing. With other than two or three nodes nothing is ever
      committed or applied. */
  lemma NothingCommits(n: nat, steps: seq<Step>, i: nat)
    requires i < n && n != 2 && n != 3
    ensures After(n, steps).nodes[i].commitIndex == 0 && After(n, steps).nodes[i].applied == []
  {
    if n <= 1 {
      LoneUncommitted(n, steps);
    } else {
      AlwaysUncommitted(n, steps);
    }
    AppliesWithoutGaps(n, steps, i);
  }

  // ---------------------------------------------------------------- building runs

  /** One more step. A step that delivers no batch conforms. */
  lemma Extend(n: nat, steps: seq<Step>, step: Step)
    ensures After(n, steps + [step]) == Next(After(n, steps), step)
    ensures ConformingRun(n, steps) && Conforming(After(n, steps), step) ==> ConformingRun(n, steps + [step])
    ensures ConformingRun(n, steps) && !step.Crash? && !step.ev.OnAppend? ==> ConformingRun(n, steps + [step])
  {
    var all := steps + [step];
    assert all[..|steps|] == steps;
    assert !step.Crash? && !step.ev.OnAppend? ==> Conforming(After(n, steps), step);
    hide Conforming, Next;
    forall k | 0 <= k < |all| && ConformingRun(n, steps) && Conforming(After(n, steps), step)
      ensures Conforming(After(n, all[..k]), all[k])
    {
      assert k < |steps| ==> all[..k] == steps[..k] && all[k] == steps[k];
    }
  }

  const A: Bytes := [65]
  const B: Bytes := [66]

  const ASK_1 := VoteRequest(1, 0, 0, 0)
  const YES_1 := VoteReply(1, 0, 1, 1, true)
  const ASK_2 := VoteRequest(2, 1, 0, 0)
  const YES_2 := VoteReply(2, 1, 2, 2, true)

  /** Node 0 wins term 1 with the vote of node 1. */
  const ELECTED_0: seq<Step> :=
    [] + [Act(0, Elect)] + [Act(1, OnVoteRequest(ASK_1))] + [Act(0, OnVoteReply(YES_1))]

  /** Then it appends A, or A and B. */
  const ONE_ENTRY: seq<Step> := ELECTED_0 + [Act(0, Propose(A))]
  const TWO_ENTRIES: seq<Step> := ONE_ENTRY + [Act(0, Propose(B))]

  /** Then node 1, which knows of none of that, wins term 2 with the vote of node 2 and appends B. */
  function Overthrown(steps: seq<Step>): seq<Step> {
    steps + [Act(1, Elect)] + [Act(2, OnVoteRequest(ASK_2))] + [Act(1, OnVoteReply(YES_2))] + [Act(1, Propose(B))]
  }

  /** What matters of a node that has applied nothing. */
  predicate Is(x: Node, n: nat, me: int, term: int, vote: int, status: Status, logs: seq<Entry>, commit: int) {
    && x.me == me && x.peers == n && x.currentTerm == term && x.votedFor == vote && x.status == status
    && x.logs == logs && x.snapIndex == 0 && x.snapTerm == 0
    && x.commitIndex == commit && x.lastApplied == 0 && x.applied == []
  }

  predicate NoSender(x: Node) {
    !x.batchRunning && !x.senderAlive && forall p :: 0 <= p < |x.pending| ==> x.pending[p] == []
  }

  predicate Fresh(x: Node, n: nat, me: int) {
    Is(x, n, me, 0, -1, Follower, [], 0) && NoSender(x)
  }

  predicate Few(s: Cluster) {
    Sized(s) && (s.n == 2 || s.n == 3)
  }

  /** Node i is about to win its term with one more vote. */
  predicate Running(s: Cluster, i: int, term: int)
    requires Few(s) && 0 <= i < s.n
  {
    && Is(s.nodes[i], s.n, i, term, i, Candidate, [], 0) && NoSender(s.nodes[i])
    && s.nodes[i].election == Election(term, 1, {}, {})
  }

  /** The node after the vote that makes it leader. */
  predicate InOffice(x: Node, n: nat, me: int, term: int, logs: seq<Entry>) {
    && Is(x, n, me, term, me, Leader, logs, 0) && x.senderAlive
    && |x.nextIndex| == |x.matchIndex| == |x.pending| == n
    && forall p :: 0 <= p < n ==> x.nextIndex[p] == 1 && x.matchIndex[p] == 0 && (p != me ==> x.pending[p] == logs)
  }

  lemma VoteWins(x: Node, n: nat, h: History, m: Message)
    requires m.VoteReply? && m.granted && m.term == m.asked && x.election == Election(m.asked, 1, {}, {})
    requires Is(x, n, m.to, m.asked, m.to, Candidate, [], 0) && NoSender(x)
    requires |x.nextIndex| == |x.matchIndex| == |x.pending| == n && (n == 2 || n == 3)
    ensures RunVoteReply(x, h, m).Done? && InOffice(RunVoteReply(x, h, m).value.node, n, m.to, m.asked, [])
  {
  }

  /** A step in which node i handles the last vote it needs. */
  lemma WinStep(s: Cluster, i: int, m: Message)
    requires Few(s) && 0 <= i < s.n && m in s.msgs && m.VoteReply? && m.to == i && m.granted && m.term == m.asked
    requires Running(s, i, m.asked)
    ensures
      var s' := Next(s, Act(i, OnVoteReply(m)));
      && Few(s') && s'.n == s.n && s'.msgs == s.msgs && InOffice(s'.nodes[i], s.n, i, m.asked, [])
      && forall j :: 0 <= j < s.n && j != i ==> s'.nodes[j] == s.nodes[j]
  {
    VoteWins(s.nodes[i], s.n, s.hist, m);
    var e := RunVoteReply(s.nodes[i], s.hist, m).value;
    assert Next(s, Act(i, OnVoteReply(m))) == Complete(s, i, e, true);
    hide RunVoteReply, Wins, Next, NoSender;
  }

  /** A step in which leader i, whose log is still short, appends a command. */
  lemma AppendStep(s: Cluster, i: int, term: int, logs: seq<Entry>, command: Bytes)
    requires Few(s) && 0 <= i < s.n && InOffice(s.nodes[i], s.n, i, term, logs)
    ensures
      var s' := Next(s, Act(i, Propose(command)));
      && Few(s') && s'.n == s.n && s'.msgs == s.msgs
      && InOffice(s'.nodes[i], s.n, i, term, logs + [Entry(|logs| + 1, term, command)])
      && forall j :: 0 <= j < s.n && j != i ==> s'.nodes[j] == s.nodes[j]
  {
    var e := RunPropose(s.nodes[i], s.hist, command);
    assert Next(s, Act(i, Propose(command))) == Complete(s, i, e, true);
  }

  lemma AskStep(s: Cluster, i: int)
    requires Few(s) && 0 <= i < s.n && s.nodes[i].status != Leader && s.nodes[i].me == i
    ensures
      var s' := Next(s, Act(i, Elect));
      && Few(s') && s'.n == s.n && s'.nodes == s.nodes[i := DoElection(s.nodes[i])]
      && VoteRequestOf(DoElection(s.nodes[i])) in s'.msgs
  {
  }

  lemma VoteStep(s: Cluster, j: int, m: Message)
    requires Few(s) && 0 <= j < s.n && m in s.msgs && m.VoteRequest? && m.candidate != j && s.nodes[j].me == j
    ensures
      var s' := Next(s, Act(j, OnVoteRequest(m)));
      var r := RequestVote(s.nodes[j], m.term, m.candidate, m.lastIndex, m.lastTerm);
      && Few(s') && s'.n == s.n && s'.nodes == s.nodes[j := r.node]
      && VoteReply(j, m.candidate, m.term, r.term, r.granted) in s'.msgs
  {
  }

  /** Node 0 leads term 1 with this log; nobody else knows. */
  predicate Led0(s: Cluster, n: nat, logs: seq<Entry>) {
    && Few(s) && s.n == n && InOffice(s.nodes[0], n, 0, 1, logs)
    && Is(s.nodes[1], n, 1, 1, 0, Follower, [], 0) && NoSender(s.nodes[1])
    && (n == 3 ==> Fresh(s.nodes[2], 3, 2))
  }

  /** Node 0 has asked for votes in term 1 and node 1 has given its own. */
  predicate Voted(s: Cluster, n: nat) {
    && Few(s) && s.n == n && YES_1 in s.msgs && Running(s, 0, 1)
    && Is(s.nodes[1], n, 1, 1, 0, Follower, [], 0) && NoSender(s.nodes[1])
    && (n == 3 ==> Fresh(s.nodes[2], 3, 2))
  }

  lemma AskAndVote(s: Cluster)
    requires Few(s) && forall i :: 0 <= i < s.n ==> Fresh(s.nodes[i], s.n, i)
    ensures Voted(Next(Next(s, Act(0, Elect)), Act(1, OnVoteRequest(ASK_1))), s.n)
  {
    AskStep(s, 0);
    var s1 := Next(s, Act(0, Elect));
    assert ASK_1 in s1.msgs && Running(s1, 0, 1);
    VoteStep(s1, 1, ASK_1);
    hide Next;
  }

  lemma AllFresh(n: nat)
    requires n == 2 || n == 3
    ensures
      var s := After(n, []);
      Few(s) && s.n == n && ConformingRun(n, []) && forall i :: 0 <= i < n ==> Fresh(s.nodes[i], n, i)
  {
  }

  lemma Elected0(n: nat)
    requires n == 2 || n == 3
    ensures Led0(After(n, ELECTED_0), n, []) && ConformingRun(n, ELECTED_0)
  {
    var ask, vote := Act(0, Elect), Act(1, OnVoteRequest(ASK_1));
    hide Next, After, ConformingRun, Conforming, Fresh;
    AllFresh(n);
    Extend(n, [], ask);
    Extend(n, [] + [ask], vote);
    Extend(n, [] + [ask] + [vote], Act(0, OnVoteReply(YES_1)));
    AskAndVote(After(n, []));
    WinStep(After(n, [] + [ask] + [vote]), 0, YES_1);
  }

  lemma Appended0(n: nat)
    requires n == 2 || n == 3
    ensures Led0(After(n, ONE_ENTRY), n, [Entry(1, 1, A)]) && ConformingRun(n, ONE_ENTRY)
    ensures Led0(After(n, TWO_ENTRIES), n, [Entry(1, 1, A), Entry(2, 1, B)]) && ConformingRun(n, TWO_ENTRIES)
  {
    hide Next, After, ConformingRun, Conforming, InOffice, Is, NoSender, Fresh;
    Elected0(n);
    Extend(n, ELECTED_0, Act(0, Propose(A)));
    AppendStep(After(n, ELECTED_0), 0, 1, [], A);
    Extend(n, ONE_ENTRY, Act(0, Propose(B)));
    assert [] + [Entry(1, 1, A)] == [Entry(1, 1, A)];
    AppendStep(After(n, ONE_ENTRY), 0, 1, [Entry(1, 1, A)], B);
    assert [Entry(1, 1, A)] + [Entry(2, 1, B)] == [Entry(1, 1, A), Entry(2, 1, B)];
  }

  // ---------------------------------------------------------------- two or three nodes do commit

  const BATCH_A := AppendArgs(1, 0, 0, 0, [Entry(1, 1, A)], 0)
  const STORED_A := AppendResponse(1, BATCH_A, AppendReply(1, true, 0))

  const COMMITTED: seq<Step> :=
    ONE_ENTRY + [Act(0, SendBatch(1, 1))] + [Act(1, OnAppend(AppendRequest(1, BATCH_A)))]
    + [Act(0, OnAppendReply(STORED_A, 1))]

  /** A leader with one entry sends it to peer p. */
  lemma SendStep(s: Cluster, i: int, p: int, term: int, entry: Entry)
    requires Few(s) && 0 <= i < s.n && 0 <= p < s.n && p != i && InOffice(s.nodes[i], s.n, i, term, [entry])
    requires entry.index == 1
    ensures
      var s' := Next(s, Act(i, SendBatch(p, 1)));
      && Few(s') && s'.n == s.n && AppendRequest(p, AppendArgs(term, i, 0, 0, [entry], 0)) in s'.msgs
      && s'.nodes == s.nodes[i := s.nodes[i].(pending := s.nodes[i].pending[p := []])]
  {
    assert s.nodes[i].pending[p][..1] == [entry] && s.nodes[i].pending[p][1..] == [];
  }

  /** A node with an empty log stores a first batch. */
  lemma StoreStep(s: Cluster, j: int, a: AppendArgs)
    requires Few(s) && 0 <= j < s.n && AppendRequest(j, a) in s.msgs && s.nodes[j].me == j
    requires s.nodes[j].logs == [] && s.nodes[j].snapIndex == 0 == s.nodes[j].snapTerm && s.nodes[j].commitIndex == 0
    requires a.term == s.nodes[j].currentTerm && a.prevIndex == 0 == a.prevTerm && a.leaderCommit == 0
    requires |a.entries| == 1 && a.entries[0].index == 1
    ensures
      var s' := Next(s, Act(j, OnAppend(AppendRequest(j, a))));
      && Few(s') && s'.n == s.n && AppendResponse(j, a, AppendReply(a.term, true, 0)) in s'.msgs
      && s'.nodes == s.nodes[j := s.nodes[j].(status := Follower, logs := a.entries)]
      && Conforming(s, Act(j, OnAppend(AppendRequest(j, a))))
  {
    var x := s.nodes[j];
    OverwriteMerges(x.logs, 0, a.entries);
    assert Overwrite(0, x.logs, a.entries).value == a.entries;
    assert AppendEntries(x, a) == AppendMatching(Accepted(x, a), a);
  }

  /** The answer makes the leader commit its entry. */
  lemma CommitStep(s: Cluster, i: int, j: int, a: AppendArgs)
    requires Few(s) && 0 <= i < s.n && 0 <= j < s.n && AppendResponse(j, a, AppendReply(a.term, true, 0)) in s.msgs
    requires Is(s.nodes[i], s.n, i, a.term, i, Leader, a.entries, 0) && a.leaderId == i
    requires |a.entries| == 1 && a.entries[0].term == a.term && a.prevIndex == 0 && s.nodes[i].matchIndex[j] == 0
    ensures
      var s' := Next(s, Act(i, OnAppendReply(AppendResponse(j, a, AppendReply(a.term, true, 0)), 1)));
      && Few(s') && s'.n == s.n && s'.msgs == s.msgs && Is(s'.nodes[i], s.n, i, a.term, i, Leader, a.entries, 1)
      && (forall p :: 0 <= p < s.n && p != j ==> s'.nodes[i].nextIndex[p] == s.nodes[i].nextIndex[p])
      && forall p :: 0 <= p < s.n && p != i ==> s'.nodes[p] == s.nodes[p]
  {
  }

  lemma CommitsWithFew(n: nat)
    requires n == 2 || n == 3
    ensures After(n, COMMITTED).nodes[0].commitIndex == 1
  {
    var e := Entry(1, 1, A);
    Appended0(n);
    var s := After(n, ONE_ENTRY);
    var send, store := Act(0, SendBatch(1, 1)), Act(1, OnAppend(AppendRequest(1, BATCH_A)));
    Extend(n, ONE_ENTRY, send);
    Extend(n, ONE_ENTRY + [send], store);
    Extend(n, ONE_ENTRY + [send] + [store], Act(0, OnAppendReply(STORED_A, 1)));
    hide Next, After, ConformingRun, Conforming;
    SendStep(s, 0, 1, 1, e);
    StoreStep(Next(s, send), 1, BATCH_A);
    CommitStep(Next(Next(s, send), store), 0, 1, BATCH_A);
  }

  /** Some run of n nodes commits something. */
  ghost predicate CanCommit(n: nat) {
    exists steps: seq<Step>, i: nat :: i < n && After(n, steps).nodes[i].commitIndex > 0
  }

  /** Anything can be committed exactly with two or three nodes. */
  lemma CommitsExactly(n: nat)
    ensures CanCommit(n) <==> n == 2 || n == 3
  {
    if CanCommit(n) && n != 2 && n != 3 {
      var steps: seq<Step>, i: nat :| i < n && After(n, steps).nodes[i].commitIndex > 0;
      NothingCommits(n, steps, i);
    }
    if n == 2 || n == 3 {
      CommitsWithFew(n);
      assert After(n, COMMITTED).nodes[0].commitIndex > 0;
    }
  }

  // ---------------------------------------------------------------- an overthrown leader

  const NEW_ENTRY := Entry(1, 2, B)

  /** Node 0 still has its log; node 1 leads term 2 with one entry. */
  predicate Led1(s: Cluster, logs: seq<Entry>) {
    && Few(s) && s.n == 3 && Is(s.nodes[0], 3, 0, 1, 0, Leader, logs, 0)
    && InOffice(s.nodes[1], 3, 1, 2, [NEW_ENTRY])
    && Is(s.nodes[2], 3, 2, 2, 1, Follower, [], 0)
  }

  lemma Overthrow(steps: seq<Step>, logs: seq<Entry>)
    requires Led0(After(3, steps), 3, logs) && ConformingRun(3, steps)
    ensures Led1(After(3, Overthrown(steps)), logs) && ConformingRun(3, Overthrown(steps))
  {
    var s := After(3, steps);
    var ask, vote, win := Act(1, Elect), Act(2, OnVoteRequest(ASK_2)), Act(1, OnVoteReply(YES_2));
    Extend(3, steps, ask);
    Extend(3, steps + [ask], vote);
    Extend(3, steps + [ask] + [vote], win);
    Extend(3, steps + [ask] + [vote] + [win], Act(1, Propose(B)));
    hide After, ConformingRun, Conforming;
    Ousted(s, logs);
  }

  lemma Ousted(s: Cluster, logs: seq<Entry>)
    requires Led0(s, 3, logs)
    ensures
      Led1(Next(Next(Next(Next(s, Act(1, Elect)), Act(2, OnVoteRequest(ASK_2))), Act(1, OnVoteReply(YES_2))),
                Act(1, Propose(B))), logs)
  {
    AskStep(s, 1);
    var s1 := Next(s, Act(1, Elect));
    assert ASK_2 in s1.msgs && Running(s1, 1, 2);
    VoteStep(s1, 2, ASK_2);
    var s2 := Next(s1, Act(2, OnVoteRequest(ASK_2)));
    assert Is(s2.nodes[2], 3, 2, 2, 1, Follower, [], 0) && YES_2 in s2.msgs;
    hide Next, RequestVote, DoElection;
    WinStep(s2, 1, YES_2);
    var s3 := Next(s2, Act(1, OnVoteReply(YES_2)));
    assert [] + [NEW_ENTRY] == [NEW_ENTRY];
    AppendStep(s3, 1, 2, [], B);
  }

  // ---------------------------------------------------------------- C1 is needed

  const BATCH_B := AppendArgs(2, 1, 0, 0, [NEW_ENTRY], 0)

  const BEFORE_OVERWRITE: seq<Step> := Overthrown(TWO_ENTRIES) + [Act(1, SendBatch(0, 1))]

  const OVERWRITE := Act(0, OnAppend(AppendRequest(0, BATCH_B)))

  /** Node 1 overwrites the first of node 0's two entries, and the second stays. */
  lemma OverwriteStep(s: Cluster)
    requires Few(s) && s.n == 3 && AppendRequest(0, BATCH_B) in s.msgs
    requires Is(s.nodes[0], 3, 0, 1, 0, Leader, [Entry(1, 1, A), Entry(2, 1, B)], 0)
    ensures Next(s, OVERWRITE).nodes[0].logs == [NEW_ENTRY, Entry(2, 1, B)]
    ensures !C1(s.nodes[0], BATCH_B) && C2(s.nodes[0], BATCH_B)
    ensures Lands(s, OVERWRITE)
  {
    var x := s.nodes[0];
    OverwriteMerges(x.logs, 0, BATCH_B.entries);
    assert Overwrite(0, x.logs, BATCH_B.entries).value == [NEW_ENTRY, Entry(2, 1, B)];
    assert AppendEntries(x, BATCH_B) == AppendMatching(Accepted(x, BATCH_B), BATCH_B);
    assert x.logs[BATCH_B.prevIndex + 0].term != BATCH_B.entries[0].term;
  }

  /** Log Matching and nondecreasing terms fail as the code stands: the only delivery of the run is
      a batch that violates C1 alone. Before and after it the log of node 0 has an entry of term 1 at
      index 2, but not the same entry at index 1; and after it terms decrease along the log. */
  lemma MatchingNeedsC1()
    ensures ConformingRun(3, BEFORE_OVERWRITE)
    ensures
      var s, s' := After(3, BEFORE_OVERWRITE), After(3, BEFORE_OVERWRITE + [OVERWRITE]);
      && !Conforming(s, OVERWRITE) && !C1(s.nodes[0], BATCH_B) && C2(s.nodes[0], BATCH_B)
      && s.nodes[0].logs == [Entry(1, 1, A), Entry(2, 1, B)]
      && s'.nodes[0].logs == [Entry(1, 2, B), Entry(2, 1, B)]
  {
    var steps := Overthrown(TWO_ENTRIES);
    Appended0(3);
    Overthrow(TWO_ENTRIES, [Entry(1, 1, A), Entry(2, 1, B)]);
    Extend(3, steps, Act(1, SendBatch(0, 1)));
    SendStep(After(3, steps), 1, 0, 2, NEW_ENTRY);
    var s := After(3, BEFORE_OVERWRITE);
    Extend(3, BEFORE_OVERWRITE, OVERWRITE);
    OverwriteStep(s);
    hide Next, After, ConformingRun, Lands, C1, C2;
  }

  // ---------------------------------------------------------------- C2 is needed

  /** Node 0 has nothing in common with the leader of term 2. */
  lemma NothingShared(steps: seq<Step>, a: AppendArgs, logs: seq<Entry>)
    requires a.term == 2 && |logs| > 0 && 0 < a.leaderCommit
    requires
      var s := After(3, steps);
      && s.nodes[1].status == Leader && s.nodes[1].currentTerm == 2 && s.nodes[1].logs == logs
      && |s.nodes[0].logs| > 0 && s.nodes[0].logs[0] != logs[0] && !C2(s.nodes[0], a)
    ensures !CommitsShared(After(3, steps).hist.reigns, After(3, steps).nodes[0], a)
  {
    Reachable(3, steps);
    LeaderReigns(After(3, steps), 1);
    hide Inv, After, C2;
    FirstDiffers(After(3, steps).hist.reigns, After(3, steps).nodes[0], a);
  }

  lemma FirstDiffers(g: Reigns, x: Node, a: AppendArgs)
    requires a.term in g && |g[a.term].log| > 0 && |x.logs| > 0 && x.logs[0] != g[a.term].log[0]
    requires !C2(x, a) && 0 < a.leaderCommit
    ensures !CommitsShared(g, x, a)
  {
    var c, l := Min(a.leaderCommit, |x.logs|), g[a.term].log;
    assert c <= |l| ==> x.logs[..c][0] == x.logs[0] && l[..c][0] == l[0];
  }

  const STORED_B := AppendResponse(2, BATCH_B, AppendReply(2, true, 0))
  const BEAT := AppendArgs(2, 1, 0, 0, [], 1)

  /** Node 1 commits B with node 2 and sends heartbeats. */
  const BEFORE_BEAT: seq<Step> :=
    Overthrown(ONE_ENTRY) + [Act(1, SendBatch(2, 1))] + [Act(2, OnAppend(AppendRequest(2, BATCH_B)))]
    + [Act(1, OnAppendReply(STORED_B, 1))] + [Act(1, Heartbeat)]

  const BEATEN := Act(0, OnAppend(AppendRequest(0, BEAT)))

  /** The whole run: the heartbeat makes node 0 commit A; then both apply. */
  const RUN: seq<Step> := BEFORE_BEAT + [BEATEN] + [Act(0, Deliver)] + [Act(1, Deliver)]

  /** Node 1 has committed B and sent a heartbeat. */
  predicate Beating(s: Cluster) {
    && Few(s) && s.n == 3 && AppendRequest(0, BEAT) in s.msgs
    && Is(s.nodes[0], 3, 0, 1, 0, Leader, [Entry(1, 1, A)], 0)
    && Is(s.nodes[1], 3, 1, 2, 1, Leader, [NEW_ENTRY], 1)
  }

  lemma BeatStep(s: Cluster)
    requires Few(s) && s.n == 3 && Is(s.nodes[1], 3, 1, 2, 1, Leader, [NEW_ENTRY], 1) && s.nodes[1].nextIndex[0] == 1
    ensures
      var s' := Next(s, Act(1, Heartbeat));
      && Few(s') && s'.n == 3 && AppendRequest(0, BEAT) in s'.msgs && s'.nodes[0] == s.nodes[0]
      && Is(s'.nodes[1], 3, 1, 2, 1, Leader, [NEW_ENTRY], 1)
  {
    assert HeartbeatArgs(ClampNext(s.nodes[1]), 0) == BEAT;
  }

  lemma BeforeBeat()
    ensures Beating(After(3, BEFORE_BEAT)) && ConformingRun(3, BEFORE_BEAT)
  {
    var steps := Overthrown(ONE_ENTRY);
    var send, store := Act(1, SendBatch(2, 1)), Act(2, OnAppend(AppendRequest(2, BATCH_B)));
    var commit := Act(1, OnAppendReply(STORED_B, 1));
    Appended0(3);
    Overthrow(ONE_ENTRY, [Entry(1, 1, A)]);
    Extend(3, steps, send);
    Extend(3, steps + [send], store);
    Extend(3, steps + [send] + [store], commit);
    Extend(3, steps + [send] + [store] + [commit], Act(1, Heartbeat));
    hide Next, After, ConformingRun, Conforming;
    var s := After(3, steps);
    SendStep(s, 1, 2, 2, NEW_ENTRY);
    StoreStep(Next(s, send), 2, BATCH_B);
    CommitStep(Next(Next(s, send), store), 1, 2, BATCH_B);
    BeatStep(Next(Next(Next(s, send), store), commit));
  }

  /** The heartbeat has reached node 0. */
  predicate Misled(s: Cluster) {
    && Few(s) && s.n == 3 && Is(s.nodes[0], 3, 0, 2, -1, Follower, [Entry(1, 1, A)], 1)
    && Is(s.nodes[1], 3, 1, 2, 1, Leader, [NEW_ENTRY], 1)
  }

  lemma Mislead(s: Cluster)
    requires Beating(s)
    ensures Misled(Next(s, BEATEN)) && C1(s.nodes[0], BEAT) && !C2(s.nodes[0], BEAT)
    ensures Lands(s, BEATEN)
  {
    var s1 := Next(s, BEATEN);
    assert Is(s1.nodes[0], 3, 0, 2, -1, Follower, [Entry(1, 1, A)], 1);
  }

  lemma ApplyBoth(s: Cluster)
    requires Misled(s)
    ensures
      var s' := Next(Next(s, Act(0, Deliver)), Act(1, Deliver));
      s'.nodes[0].applied == [ApplyMsg(1, A)] && s'.nodes[1].applied == [ApplyMsg(1, B)]
  {
    assert Next(s, Act(0, Deliver)) == Complete(s, 0, RunDeliver(s.nodes[0], s.hist).value, true);
  }

  /** State Machine Safety fails as the code stands: in RUN the nodes 0 and 1 apply different
      commands at index 1. Every delivery but the heartbeat conforms; the heartbeat violates C2
      alone. */
  lemma SafetyNeedsC2()
    ensures After(3, RUN).nodes[0].applied == [ApplyMsg(1, A)]
    ensures After(3, RUN).nodes[1].applied == [ApplyMsg(1, B)]
    ensures ConformingRun(3, BEFORE_BEAT) && !Conforming(After(3, BEFORE_BEAT), BEATEN)
    ensures
      var x := After(3, BEFORE_BEAT).nodes[0];
      C1(x, BEAT) && !C2(x, BEAT)
  {
    var s := After(3, BEFORE_BEAT);
    BeforeBeat();
    Mislead(s);
    ApplyBoth(Next(s, BEATEN));
    Extend(3, BEFORE_BEAT, BEATEN);
    Extend(3, BEFORE_BEAT + [BEATEN], Act(0, Deliver));
    Extend(3, BEFORE_BEAT + [BEATEN] + [Act(0, Deliver)], Act(1, Deliver));
    hide Next, After, ConformingRun, Lands, C1, C2;
    NothingShared(BEFORE_BEAT, BEAT, [NEW_ENTRY]);
  }
}
