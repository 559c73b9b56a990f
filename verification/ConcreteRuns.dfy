/**
 * Four runs in full, each doing what the design would rule out. A worker completes
 * a scan whose attempt has moved on: the scan is paused and resumed behind the
 * worker's back, and the persist guard looks only at the status. A stalled job is
 * delivered again, and two workers serve one scan at the same time. The kill switch
 * takes a queued scan off the transition table. A resume that the queue refuses is
 * rolled back, and the attempt goes down.
 */
module ConcreteRuns {
  import opened Lifecycle
  import opened Options
  import opened TriageDiff
  import opened ScanDatabase
  import opened ScanProtocol

  function TheRow(status: Status, attempt: int): Row {
    Row(0, 0, status, attempt, 1, None, 0)
  }

  /** One organisation with one target. */
  function Tables(rows: map<ScanId, Row>): Db {
    Db(rows, map[], map[], false, map[], map[], map[0 := 0], 0, rows.Keys, {0})
  }

  const REQUEST := Request(0, 0, 1, false)

  const HELD: Queue := map[0 := Job(1, Active(1))]

  function Running(attempt: int, procs: seq<Process>): State {
    State(Tables(map[0 := TheRow(RUNNING, attempt)]), HELD, procs)
  }

  function Paused(procs: seq<Process>): State {
    State(Tables(map[0 := TheRow(PAUSED, 1)]), HELD, procs)
  }

  const WORK := Work(0, 1, 0)

  const READY: Process := Persisting(WORK, [], [])

  /** The states of the run, and between them its labels. */
  function States(): seq<State> {
    [ State(Tables(map[]), map[], []),
      State(Tables(map[0 := TheRow(QUEUED, 1)]), map[], [Starting(0)]),
      State(Tables(map[0 := TheRow(QUEUED, 1)]), map[0 := Job(1, Waiting)], [Done]),
      State(Tables(map[0 := TheRow(QUEUED, 1)]), HELD, [Done, Delivered(0, 1)]),
      State(Tables(map[0 := TheRow(QUEUED, 1)]), HELD, [Done, Claiming(WORK)]),
      Running(1, [Done, Scanning(WORK)]),
      Running(1, [Done, Detecting(WORK)]),
      Running(1, [Done, PreviousChosen(WORK, [], None)]),
      Running(1, [Done, READY]),
      Running(1, [Done, READY, Controlling(0, Pause, RUNNING)]),
      Paused([Done, READY, Done]),
      Paused([Done, READY, Done, Controlling(0, Resume, PAUSED)]),
      Paused([Done, READY, Done, ResumeCleared(0)]),
      Running(2, [Done, READY, Done, ResumeDelivering(0, 2)]) ]
  }

  function Labels(): seq<Label> {
    [ StartScan(0, REQUEST, true), EnqueueStarted(0, true), TakeJob(0), ReadScan(1), ClaimScan(1), PassCheckpoint(1),
      ChoosePrevious(1, [], None), ReadPrevious(1), ReadForControl(0, Pause), ApplyControl(2),
      ReadForControl(0, Resume), ClearResume(3, true), ApplyControl(3) ]
  }

  ghost predicate Leads(s: State, l: Label, t: State) {
    Enabled(s, l) && Apply(s, l) == t
  }

  lemma Reserved()
    ensures Leads(States()[0], Labels()[0], States()[1])
  {
    var db := Tables(map[]);
    assert ActiveOf(db, 0) == {} && ActiveAgainst(db, 0, 0) == {};
    assert Execute(db, Reserve(0, REQUEST, true)).rows == map[0 := TheRow(QUEUED, 1)];
  }

  lemma Enqueued()
    ensures Leads(States()[1], Labels()[1], States()[2])
  {
  }

  lemma Taken()
    ensures Leads(States()[2], Labels()[2], States()[3])
  {
  }

  lemma Read()
    ensures Leads(States()[3], Labels()[3], States()[4])
  {
  }

  lemma Claimed()
    ensures Leads(States()[4], Labels()[4], States()[5])
  {
    assert map[0 := TheRow(QUEUED, 1)][0 := TheRow(RUNNING, 1)] == map[0 := TheRow(RUNNING, 1)];
  }

  lemma Checkpointed()
    ensures Leads(States()[5], Labels()[5], States()[6])
  {
  }

  lemma ChosePrevious()
    ensures Leads(States()[6], Labels()[6], States()[7])
  {
  }

  lemma ReadPreviousFindings()
    ensures Leads(States()[7], Labels()[7], States()[8])
  {
    assert DiffRecords(0, 0, [], []) == [];
  }

  lemma AskedToPause()
    ensures Leads(States()[8], Labels()[8], States()[9])
  {
  }

  lemma PausedBehindIt()
    ensures Leads(States()[9], Labels()[9], States()[10])
  {
    assert map[0 := TheRow(RUNNING, 1)][0 := TheRow(PAUSED, 1)] == map[0 := TheRow(PAUSED, 1)];
  }

  lemma AskedToResume()
    ensures Leads(States()[10], Labels()[10], States()[11])
  {
  }

  lemma Cleared()
    ensures Leads(States()[11], Labels()[11], States()[12])
  {
  }

  lemma ResumedBehindIt()
    ensures Leads(States()[12], Labels()[12], States()[13])
  {
    assert map[0 := TheRow(PAUSED, 1)][0 := TheRow(RUNNING, 2)] == map[0 := TheRow(RUNNING, 2)];
  }

  /** The first n steps lead from state to state. */
  ghost predicate LeadsUpTo(states: seq<State>, labels: seq<Label>, n: nat)
    requires n <= |labels| < |states|
  {
    n == 0 || (LeadsUpTo(states, labels, n - 1) && Leads(states[n - 1], labels[n - 1], states[n]))
  }

  lemma {:induction false} EachLeads(states: seq<State>, labels: seq<Label>, n: nat, k: nat)
    requires n <= |labels| < |states| && LeadsUpTo(states, labels, n) && k < n
    ensures Leads(states[k], labels[k], states[k + 1])
  {
    if k < n - 1 {
      EachLeads(states, labels, n - 1, k);
    }
  }

  lemma Starts(states: seq<State>, labels: seq<Label>)
    requires |labels| < |states|
    ensures LeadsUpTo(states, labels, 0)
  {
  }

  lemma OneMoreStep(states: seq<State>, labels: seq<Label>, n: nat)
    requires n < |labels| < |states| && LeadsUpTo(states, labels, n) && Leads(states[n], labels[n], states[n + 1])
    ensures LeadsUpTo(states, labels, n + 1)
  {
  }

  lemma DeliveredSteps()
    ensures |States()| == 14 && |Labels()| == 13 && LeadsUpTo(States(), Labels(), 4)
  {
    var s, l := States(), Labels();
    Starts(s, l);
    Reserved(); OneMoreStep(s, l, 0);
    Enqueued(); OneMoreStep(s, l, 1);
    Taken(); OneMoreStep(s, l, 2);
    Read(); OneMoreStep(s, l, 3);
  }

  lemma WorkedSteps(s: seq<State>, l: seq<Label>)
    requires s == States() && l == Labels() && |s| == 14 && |l| == 13 && LeadsUpTo(s, l, 4)
    ensures LeadsUpTo(s, l, 8)
  {
    Claimed(); OneMoreStep(s, l, 4);
    Checkpointed(); OneMoreStep(s, l, 5);
    ChosePrevious(); OneMoreStep(s, l, 6);
    ReadPreviousFindings(); OneMoreStep(s, l, 7);
  }

  lemma PausedSteps(s: seq<State>, l: seq<Label>)
    requires s == States() && l == Labels() && |s| == 14 && |l| == 13 && LeadsUpTo(s, l, 8)
    ensures LeadsUpTo(s, l, 10)
  {
    AskedToPause(); OneMoreStep(s, l, 8);
    PausedBehindIt(); OneMoreStep(s, l, 9);
  }

  lemma ResumedSteps(s: seq<State>, l: seq<Label>)
    requires s == States() && l == Labels() && |s| == 14 && |l| == 13 && LeadsUpTo(s, l, 10)
    ensures LeadsUpTo(s, l, 13)
  {
    AskedToResume(); OneMoreStep(s, l, 10);
    Cleared(); OneMoreStep(s, l, 11);
    ResumedBehindIt(); OneMoreStep(s, l, 12);
  }

  lemma AllSteps()
    ensures |States()| == 14 && |Labels()| == 13 && LeadsUpTo(States(), Labels(), 13)
  {
    DeliveredSteps();
    WorkedSteps(States(), Labels());
    PausedSteps(States(), Labels());
    ResumedSteps(States(), Labels());
  }

  lemma ChainIsRun(r: Run)
    requires |r.states| == |r.labels| + 1 && Initial(r.states[0]) && LeadsUpTo(r.states, r.labels, |r.labels|)
    ensures IsRun(r)
  {
    forall k | 0 <= k < |r.labels|
      ensures Enabled(r.states[k], r.labels[k]) && r.states[k + 1] == Apply(r.states[k], r.labels[k])
    {
      EachLeads(r.states, r.labels, |r.labels|, k);
    }
  }

  lemma Ends()
    ensures Initial(States()[0]) && ProcAt(States()[4], 1) == Claiming(WORK)
    ensures ProcAt(States()[13], 1) == READY && |States()[13].procs| == 4
    ensures StatusIn(States()[13].db, 0, {RUNNING}) && States()[13].db.rows[0].attempt == 2
  {
  }

  /** A worker about to persist completes its scan whenever the row is running, and leaves its attempt. */
  lemma PersistLooksOnlyAtStatus(s: State, i: nat)
    requires i < |s.procs| && s.procs[i].Persisting? && StatusIn(s.db, s.procs[i].work.id, {RUNNING})
    ensures var id := s.procs[i].work.id;
            && Enabled(s, PersistResults(i)) && StatusIn(Apply(s, PersistResults(i)).db, id, {COMPLETED})
            && Apply(s, PersistResults(i)).db.rows[id].attempt == s.db.rows[id].attempt
  {
  }

  /**
   * Such a run exists: a worker claims a scan's first attempt, and completes it
   * when the row, paused and resumed meanwhile, runs as attempt two.
   */
  lemma OldAttemptCompletes() returns (r: Run)
    ensures IsRun(r) && |r.states| == 14 && ProcAt(r.states[4], 1) == Claiming(WORK) && WORK.attempt == 1
    ensures var s := r.states[13];
            && Enabled(s, PersistResults(1)) && ProcAt(s, 1) == Persisting(WORK, [], [])
            && StatusIn(Apply(s, PersistResults(1)).db, 0, {COMPLETED})
            && Apply(s, PersistResults(1)).db.rows[0].attempt == 2
  {
    r := Run(States(), Labels());
    AllSteps();
    Ends();
    ChainIsRun(r);
    PersistLooksOnlyAtStatus(r.states[13], 1);
  }

  // ------------------------------------------------------- two workers at one scan

  const WAITING: Queue := map[0 := Job(1, Waiting)]

  const HELD_AGAIN: Queue := map[0 := Job(1, Active(2))]

  function Served(queue: Queue, second: seq<Process>): State {
    State(Tables(map[0 := TheRow(RUNNING, 1)]), queue, [Done, Scanning(WORK)] + second)
  }

  function OverlapStates(): seq<State> {
    [ States()[0], States()[1], States()[2], States()[3], States()[4], States()[5],
      Served(WAITING, []), Served(HELD_AGAIN, [Delivered(0, 1)]), Served(HELD_AGAIN, [Claiming(WORK)]),
      Served(HELD_AGAIN, [Scanning(WORK)]) ]
  }

  function OverlapLabels(): seq<Label> {
    [ StartScan(0, REQUEST, true), EnqueueStarted(0, true), TakeJob(0), ReadScan(1), ClaimScan(1),
      StallJob(0), TakeJob(0), ReadScan(2), ClaimScan(2) ]
  }

  lemma Stalled()
    ensures Leads(OverlapStates()[5], OverlapLabels()[5], OverlapStates()[6])
  {
    assert [Done, Scanning(WORK)] + [] == [Done, Scanning(WORK)];
  }

  lemma TakenAgain()
    ensures Leads(OverlapStates()[6], OverlapLabels()[6], OverlapStates()[7])
  {
    assert [Done, Scanning(WORK)] + [] == [Done, Scanning(WORK)];
  }

  lemma ReadAgain()
    ensures Leads(OverlapStates()[7], OverlapLabels()[7], OverlapStates()[8])
  {
  }

  lemma ClaimedAgain()
    ensures Leads(OverlapStates()[8], OverlapLabels()[8], OverlapStates()[9])
  {
    assert map[0 := TheRow(RUNNING, 1)][0 := TheRow(RUNNING, 1)] == map[0 := TheRow(RUNNING, 1)];
  }

  lemma OverlapSteps()
    ensures |OverlapStates()| == 10 && |OverlapLabels()| == 9 && LeadsUpTo(OverlapStates(), OverlapLabels(), 9)
  {
    var s, l := OverlapStates(), OverlapLabels();
    Starts(s, l);
    Reserved(); OneMoreStep(s, l, 0);
    Enqueued(); OneMoreStep(s, l, 1);
    Taken(); OneMoreStep(s, l, 2);
    Read(); OneMoreStep(s, l, 3);
    Claimed(); OneMoreStep(s, l, 4);
    Stalled(); OneMoreStep(s, l, 5);
    TakenAgain(); OneMoreStep(s, l, 6);
    ReadAgain(); OneMoreStep(s, l, 7);
    ClaimedAgain(); OneMoreStep(s, l, 8);
  }

  lemma OverlapEnds()
    ensures Initial(OverlapStates()[0])
    ensures ProcAt(OverlapStates()[9], 1) == ProcAt(OverlapStates()[9], 2) == Scanning(WORK)
  {
  }

  /** A redelivered job is claimed while the first worker runs on: two runs of one attempt overlap. */
  lemma TwoWorkersServeOneScan() returns (r: Run)
    ensures IsRun(r) && |r.states| == 10
    ensures ProcAt(r.states[9], 1) == ProcAt(r.states[9], 2) == Scanning(WORK)
  {
    r := Run(OverlapStates(), OverlapLabels());
    OverlapSteps();
    OverlapEnds();
    ChainIsRun(r);
  }

  // ------------------------------------------------------- off the transition table

  function HaltStates(): seq<State> {
    [ States()[0], States()[1],
      State(Tables(map[0 := TheRow(ABORTED_SAFETY, 1).(completedAt := Some(0))]).(engaged := true, clock := 1),
            map[], [Starting(0), Halting({0})]) ]
  }

  function HaltLabels(): seq<Label> {
    [ StartScan(0, REQUEST, true), Engage ]
  }

  lemma HaltOne(row: Row)
    requires OccupiesQuota(row.status)
    ensures (set id | id in map[0 := row] && OccupiesQuota(map[0 := row][id].status)) == {0}
    ensures (map id | id in map[0 := row] :: Halted(map[0 := row][id], 0))
            == map[0 := row.(status := ABORTED_SAFETY, completedAt := Some(0))]
  {
    var rows := map[0 := row];
    var active := set id | id in rows && OccupiesQuota(rows[id].status);
    assert 0 in active;
    assert active == {0};
  }

  lemma HaltedTables()
    ensures Execute(HaltStates()[1].db, HaltAll) == HaltStates()[2].db
  {
    HaltOne(TheRow(QUEUED, 1));
    assert Execute(HaltStates()[1].db, HaltAll).rows == HaltStates()[2].db.rows;
  }

  lemma HaltingAll()
    ensures Enabled(HaltStates()[1], Engage) && Spawned(HaltStates()[1], Engage) == [Halting({0})]
  {
    HaltOne(TheRow(QUEUED, 1));
    var rows := HaltStates()[1].db.rows;
    assert (set id | id in rows && OccupiesQuota(rows[id].status)) == {0};
  }

  lemma HaltedWhileQueued()
    ensures Leads(HaltStates()[1], HaltLabels()[1], HaltStates()[2])
  {
    HaltedTables();
    HaltingAll();
    assert [Starting(0)] + [Halting({0})] == [Starting(0), Halting({0})];
  }

  /** A scan reserved and not yet started is aborted by the kill switch, which the table does not list. */
  lemma QueuedScanIsAborted() returns (r: Run)
    ensures IsRun(r) && |r.states| == 3 && r.labels[1] == Engage
    ensures StatusIn(r.states[1].db, 0, {QUEUED}) && StatusIn(r.states[2].db, 0, {ABORTED_SAFETY})
    ensures !CanTransition(QUEUED, ABORTED_SAFETY)
  {
    r := Run(HaltStates(), HaltLabels());
    Starts(r.states, r.labels);
    Reserved(); OneMoreStep(r.states, r.labels, 0);
    HaltedWhileQueued(); OneMoreStep(r.states, r.labels, 1);
    ChainIsRun(r);
  }

  // --------------------------------------------------------- the attempt goes down

  const GIVING_UP: State := Running(2, [Done, READY, Done, RollingBack(0)])

  const ROLLED_BACK: State := Paused([Done, READY, Done, Done])

  lemma DeliveryRefused()
    ensures Leads(States()[13], DeliverResume(3, false), GIVING_UP)
  {
  }

  lemma RolledBack()
    ensures Leads(GIVING_UP, RollBackResume(3), ROLLED_BACK)
  {
    assert map[0 := TheRow(RUNNING, 2)][0 := TheRow(PAUSED, 1)] == map[0 := TheRow(PAUSED, 1)];
  }

  lemma Extended(r: Run, l: Label, s: State)
    requires IsRun(r) && Leads(r.states[|r.labels|], l, s)
    ensures IsRun(Run(r.states + [s], r.labels + [l]))
  {
    var longer := Run(r.states + [s], r.labels + [l]);
    forall k | 0 <= k < |longer.labels|
      ensures Enabled(longer.states[k], longer.labels[k])
      ensures longer.states[k + 1] == Apply(longer.states[k], longer.labels[k])
    {
      assert k < |r.labels| ==> longer.states[k] == r.states[k] && longer.labels[k] == r.labels[k];
      assert k < |r.labels| ==> longer.states[k + 1] == r.states[k + 1];
    }
  }

  lemma RunOfOldAttempt() returns (r: Run)
    ensures IsRun(r) && |r.states| == 14 && |r.labels| == 13 && r.states[13] == States()[13]
  {
    r := Run(States(), Labels());
    AllSteps();
    Ends();
    ChainIsRun(r);
  }

  /** The queue refuses the resumed scan's job: the row, running as attempt two, is paused as attempt one again. */
  lemma AttemptGoesDown() returns (r: Run)
    ensures IsRun(r) && |r.states| == 16 && r.labels[13] == DeliverResume(3, false) && r.labels[14] == RollBackResume(3)
    ensures StatusIn(r.states[14].db, 0, {RUNNING}) && r.states[14].db.rows[0].attempt == 2
    ensures StatusIn(r.states[15].db, 0, {PAUSED}) && r.states[15].db.rows[0].attempt == 1
  {
    var before := RunOfOldAttempt();
    DeliveryRefused();
    Extended(before, DeliverResume(3, false), GIVING_UP);
    var refused := Run(before.states + [GIVING_UP], before.labels + [DeliverResume(3, false)]);
    RolledBack();
    Extended(refused, RollBackResume(3), ROLLED_BACK);
    r := Run(refused.states + [ROLLED_BACK], refused.labels + [RollBackResume(3)]);
  }
}
