/** What holds in every reachable state of the scan lifecycle, whatever interleaves. */
module ScanSafety {
  import opened Lifecycle
  import opened Options
  import opened TriageDiff
  import opened ScanDatabase
  import opened ScanInvariant
  import opened ScanProtocol

  // ---------------------------------------------------------------- one step

  /** What a worker was told of its scan is so while the scan exists. */
  ghost predicate WorkOk(db: Db, w: Work) {
    w.id in db.usedScans && (w.id in db.rows ==> db.rows[w.id].target == w.target)
  }

  /** What a process knows that no other process can make untrue; the scan itself may be gone. */
  ghost predicate ProcessOk(db: Db, p: Process) {
    match p
    case Done => true
    case Starting(id) => id in db.usedScans
    case Controlling(id, action, seen) => id in db.usedScans && PlanAllowed(action, seen)
    case ResumeCleared(id) => id in db.usedScans
    case CancelDelivering(id) => true
    case ResumeDelivering(id, _) => id in db.usedScans && !StatusIn(db, id, {QUEUED})
    case RollingBack(id) => id in db.usedScans
    case Halting(_) => true
    case Sweeping => true
    case Candidate(id) => id in db.usedScans
    case JobMissing(id) => id in db.usedScans
    case Delivered(id, attempt) => JobOk(db, id, attempt)
    case Claiming(w) => WorkOk(db, w) && JobOk(db, w.id, w.attempt)
    case Scanning(w) => WorkOk(db, w)
    case KillSwitchSeen(w) => WorkOk(db, w)
    case Detecting(w) => WorkOk(db, w)
    case PreviousChosen(w, _, prev) =>
      WorkOk(db, w) && (IsActive(db, w.id) ==> IsLatest(db, w.target, w.id, prev))
    case Persisting(w, found, diff) =>
      WorkOk(db, w) && (IsActive(db, w.id) ==> DiffIsCurrent(db, w, found, diff))
    case WorkerFailing(w, _) => WorkOk(db, w)
    case WorkerEnding(_, _) => true
  }

  /** The diff about to be stored compares with the scan that is still the target's latest. */
  ghost predicate DiffIsCurrent(db: Db, w: Work, found: seq<Fingerprint>, diff: seq<DiffRecord>) {
    exists prev :: IsLatest(db, w.target, w.id, prev) &&
                   diff == DiffRecords(w.id, w.target, found, FindingsOfPrevious(db, prev))
  }

  /** A job for a scan nobody has claimed carries the first attempt. */
  ghost predicate JobOk(db: Db, id: ScanId, attempt: int) {
    id in db.usedScans && (StatusIn(db, id, {QUEUED}) ==> attempt == 1)
  }

  ghost predicate StateInv(s: State) {
    && Inv(s.db)
    && (forall i :: 0 <= i < |s.procs| ==> ProcessOk(s.db, s.procs[i]))
    && (forall id :: id in s.queue ==> JobOk(s.db, id, s.queue[id].attempt))
  }

  lemma PersistIsJustified(s: State, i: nat)
    requires i < |s.procs| && s.procs[i].Persisting? && ProcessOk(s.db, s.procs[i])
    ensures Justified(s.db, Persist(s.procs[i].work.id, s.procs[i].found, s.procs[i].diff))
  {
  }

  lemma ControlIsJustified(s: State, i: nat)
    requires Enabled(s, ApplyControl(i)) && ProcessOk(s.db, s.procs[i])
    ensures Justified(s.db, OpOf(s, ApplyControl(i)))
  {
  }

  lemma StepIsJustified(s: State, l: Label)
    requires StateInv(s) && Enabled(s, l)
    ensures Justified(s.db, OpOf(s, l))
  {
    match l {
      case ApplyControl(i) =>
        assert ProcessOk(s.db, s.procs[i]);
        ControlIsJustified(s, i);
      case PersistResults(i) =>
        assert ProcessOk(s.db, s.procs[i]);
        PersistIsJustified(s, i);
      case _ =>
    }
  }

  /** A scan whose id was handed out is not replaced, never returns to QUEUED, and is not revived; it may be deleted. */
  lemma RowsPersist(db: Db, op: DbOp, id: ScanId)
    requires IdsAreUsed(db) && Justified(db, op) && id in db.usedScans
    ensures var db' := Execute(db, op);
            && id in db'.usedScans
            && (id in db'.rows ==>
                  id in db.rows && db'.rows[id].target == db.rows[id].target && db'.rows[id].org == db.rows[id].org)
            && (StatusIn(db', id, {QUEUED}) ==> StatusIn(db, id, {QUEUED}))
            && (IsActive(db', id) ==> IsActive(db, id))
  {
    IdsStayUsed(db, op);
    RowStays(db, op, id);
    NothingIsRequeued(db, op, id);
    NothingIsRevived(db, op, id);
  }

  lemma RowStays(db: Db, op: DbOp, id: ScanId)
    requires id in db.usedScans
    ensures var db' := Execute(db, op);
            id in db'.rows ==>
              id in db.rows && db'.rows[id].target == db.rows[id].target && db'.rows[id].org == db.rows[id].org
  {
  }

  lemma NothingIsRequeued(db: Db, op: DbOp, id: ScanId)
    requires id in db.usedScans
    ensures StatusIn(Execute(db, op), id, {QUEUED}) ==> StatusIn(db, id, {QUEUED})
  {
  }

  lemma NothingIsRevived(db: Db, op: DbOp, id: ScanId)
    requires Justified(db, op) && id in db.usedScans
    ensures IsActive(Execute(db, op), id) ==> IsActive(db, id)
  {
  }

  /** A write to another scan of the target would have to be of an active one, and the target has only this. */
  lemma RivalCannotComplete(db: Db, op: DbOp, id: ScanId, q: ScanId)
    requires Inv(db) && Justified(db, op) && id in db.usedScans && IsActive(Execute(db, op), id)
    requires Completes(db, op, q)
    ensures db.rows[q].target != db.rows[id].target
  {
    RowsPersist(db, op, id);
    assert IsActive(db, q);
  }

  /**
   * While a scan is active it owns its target, so no write of another scan can
   * change which completed scan is the target's latest.
   */
  lemma LatestStaysCurrent(db: Db, op: DbOp, id: ScanId, target: TargetId, prev: Option<ScanId>)
    requires Inv(db) && Justified(db, op) && id in db.usedScans
    requires IsActive(Execute(db, op), id) && Execute(db, op).rows[id].target == target
    requires IsLatest(db, target, id, prev)
    ensures IsLatest(Execute(db, op), target, id, prev)
    ensures FindingsOfPrevious(Execute(db, op), prev) == FindingsOfPrevious(db, prev)
  {
    var db' := Execute(db, op);
    RowsPersist(db, op, id);
    RowsKeepTheirOwner(db, op);
    forall q | IsCompleted(db', q, target) || IsCompleted(db, q, target) ensures SameRecord(db, db', q) {
      if Completes(db, op, q) {
        RivalCannotComplete(db, op, id, q);
      } else {
        OnlyPersistWritesResults(db, op, q);
      }
    }
    SameLatest(db, db', target, id, prev);
  }

  lemma SameLatest(db: Db, db': Db, target: TargetId, id: ScanId, prev: Option<ScanId>)
    requires forall q :: IsCompleted(db', q, target) || IsCompleted(db, q, target) ==> SameRecord(db, db', q)
    requires IsLatest(db, target, id, prev)
    ensures IsLatest(db', target, id, prev) && FindingsOfPrevious(db', prev) == FindingsOfPrevious(db, prev)
  {
    forall q ensures IsCompleted(db', q, target) == IsCompleted(db, q, target) {
    }
  }

  lemma JobStaysOk(db: Db, op: DbOp, id: ScanId, attempt: int)
    requires IdsAreUsed(db) && Justified(db, op) && JobOk(db, id, attempt)
    ensures JobOk(Execute(db, op), id, attempt)
  {
    RowsPersist(db, op, id);
  }

  lemma WorkStaysOk(db: Db, op: DbOp, w: Work)
    requires IdsAreUsed(db) && Justified(db, op) && WorkOk(db, w)
    ensures WorkOk(Execute(db, op), w)
  {
    RowsPersist(db, op, w.id);
  }

  lemma ChoiceStaysOk(db: Db, op: DbOp, p: Process)
    requires Inv(db) && Justified(db, op) && p.PreviousChosen? && ProcessOk(db, p)
    ensures ProcessOk(Execute(db, op), p)
  {
    WorkStaysOk(db, op, p.work);
    if IsActive(Execute(db, op), p.work.id) {
      RowsPersist(db, op, p.work.id);
      LatestStaysCurrent(db, op, p.work.id, p.work.target, p.prev);
    }
  }

  lemma DiffStaysOk(db: Db, op: DbOp, p: Process)
    requires Inv(db) && Justified(db, op) && p.Persisting? && ProcessOk(db, p)
    ensures ProcessOk(Execute(db, op), p)
  {
    WorkStaysOk(db, op, p.work);
    if IsActive(Execute(db, op), p.work.id) {
      RowsPersist(db, op, p.work.id);
      var prev :| IsLatest(db, p.work.target, p.work.id, prev) &&
                  p.diff == DiffRecords(p.work.id, p.work.target, p.found, FindingsOfPrevious(db, prev));
      LatestStaysCurrent(db, op, p.work.id, p.work.target, prev);
    }
  }

  lemma WorkerStaysOk(db: Db, op: DbOp, p: Process)
    requires Inv(db) && Justified(db, op) && ProcessOk(db, p)
    requires p.Claiming? || p.Scanning? || p.KillSwitchSeen? || p.Detecting? || p.WorkerFailing?
    ensures ProcessOk(Execute(db, op), p)
  {
    WorkStaysOk(db, op, p.work);
    if p.Claiming? {
      JobStaysOk(db, op, p.work.id, p.work.attempt);
    }
  }

  lemma CallerStaysOk(db: Db, op: DbOp, p: Process)
    requires IdsAreUsed(db) && Justified(db, op) && ProcessOk(db, p)
    requires p.Controlling? || p.ResumeCleared? || p.ResumeDelivering? || p.RollingBack? || p.Starting? || p.Candidate?
             || p.JobMissing? || p.Delivered?
    ensures ProcessOk(Execute(db, op), p)
  {
    RowsPersist(db, op, p.id);
  }

  lemma ProcessStaysOk(db: Db, op: DbOp, p: Process)
    requires Inv(db) && Justified(db, op) && ProcessOk(db, p)
    ensures ProcessOk(Execute(db, op), p)
  {
    if p.PreviousChosen? {
      ChoiceStaysOk(db, op, p);
    } else if p.Persisting? {
      DiffStaysOk(db, op, p);
    } else if p.Claiming? || p.Scanning? || p.KillSwitchSeen? || p.Detecting? || p.WorkerFailing? {
      WorkerStaysOk(db, op, p);
    } else if p.Controlling? || p.ResumeCleared? || p.ResumeDelivering? || p.RollingBack? || p.Starting?
              || p.Candidate? || p.JobMissing? || p.Delivered? {
      CallerStaysOk(db, op, p);
    }
  }

  /** The choice `findFirst` makes is the latest completed scan. */
  lemma ChosenIsLatest(db: Db, target: TargetId, id: ScanId, prev: Option<ScanId>)
    requires CompletionTimes(db) && MayBeChosen(db, target, id, prev)
    ensures IsLatest(db, target, id, prev)
  {
  }

  predicate IsWorkerStep(l: Label) {
    l.ReadScan? || l.ClaimScan? || l.StopEngine? || l.SeeKillSwitch? || l.ConfirmKillSwitch? || l.PassCheckpoint?
    || l.ChoosePrevious? || l.ReadPrevious? || l.PersistResults? || l.Throw? || l.MarkScanFailed? || l.SettleJob?
  }

  /** A caller's next step knows only what its transaction established. */
  lemma NextCallerOk(s: State, l: Label, i: nat)
    requires Enabled(s, l) && Stepping(l) == Some(i) && !IsWorkerStep(l) && IdsAreUsed(s.db)
    requires Justified(s.db, OpOf(s, l)) && ProcessOk(s.db, s.procs[i])
    ensures ProcessOk(Execute(s.db, OpOf(s, l)), Continue(s, l, s.procs[i]))
  {
    if !s.procs[i].Sweeping? && !s.procs[i].Halting? && !s.procs[i].CancelDelivering? {
      RowsPersist(s.db, OpOf(s, l), s.procs[i].id);
    }
  }

  lemma ReadTakesCurrentDiff(db: Db, p: Process)
    requires p.PreviousChosen? && ProcessOk(db, p) && IsActive(db, p.work.id)
    ensures DiffIsCurrent(db, p.work, p.found,
                          DiffRecords(p.work.id, p.work.target, p.found, FindingsOfPrevious(db, p.prev)))
  {
    assert IsLatest(db, p.work.target, p.work.id, p.prev);
  }

  /** A worker's step that commits nothing. */
  lemma NextReaderOk(s: State, l: Label, i: nat)
    requires Enabled(s, l) && Stepping(l) == Some(i) && CompletionTimes(s.db) && ProcessOk(s.db, s.procs[i])
    requires IsWorkerStep(l) && OpOf(s, l).NoOp?
    ensures ProcessOk(s.db, Continue(s, l, s.procs[i]))
  {
    var p := s.procs[i];
    if l.ChoosePrevious? {
      ChosenIsLatest(s.db, p.work.target, p.work.id, l.prev);
    } else if l.ReadPrevious? && IsActive(s.db, p.work.id) {
      ReadTakesCurrentDiff(s.db, p);
    }
  }

  /** A worker's step that commits: it goes on with the same work, or ends. */
  lemma NextWriterOk(s: State, l: Label, i: nat)
    requires Enabled(s, l) && Stepping(l) == Some(i) && IdsAreUsed(s.db) && ProcessOk(s.db, s.procs[i])
    requires IsWorkerStep(l) && !OpOf(s, l).NoOp? && Justified(s.db, OpOf(s, l))
    ensures ProcessOk(Execute(s.db, OpOf(s, l)), Continue(s, l, s.procs[i]))
  {
    WorkStaysOk(s.db, OpOf(s, l), s.procs[i].work);
  }

  /** The process a step leaves behind knows only what its transaction established. */
  lemma NextProcessOk(s: State, l: Label, i: nat)
    requires Enabled(s, l) && Stepping(l) == Some(i) && CompletionTimes(s.db) && IdsAreUsed(s.db)
    requires Justified(s.db, OpOf(s, l)) && ProcessOk(s.db, s.procs[i])
    ensures ProcessOk(Execute(s.db, OpOf(s, l)), Continue(s, l, s.procs[i]))
  {
    if !IsWorkerStep(l) {
      NextCallerOk(s, l, i);
    } else if OpOf(s, l).NoOp? {
      NextReaderOk(s, l, i);
    } else {
      NextWriterOk(s, l, i);
    }
  }

  lemma SpawnedOk(s: State, l: Label, k: nat)
    requires StateInv(s) && Enabled(s, l) && k < |Spawned(s, l)|
    ensures ProcessOk(Execute(s.db, OpOf(s, l)), Spawned(s, l)[k])
  {
  }

  /** Whatever the queue holds after a step suits the tables the step found. */
  lemma QueueEntryOk(s: State, l: Label, id: ScanId)
    requires Enabled(s, l) && id in QueueAfter(s, l)
    requires id in s.queue ==> JobOk(s.db, id, s.queue[id].attempt)
    requires Stepping(l).Some? ==> ProcessOk(s.db, s.procs[Stepping(l).value])
    ensures JobOk(s.db, id, QueueAfter(s, l)[id].attempt)
  {
  }

  lemma StepKeepsInv(s: State, l: Label)
    requires StateInv(s) && Enabled(s, l)
    ensures StateInv(Apply(s, l))
  {
    var op, s' := OpOf(s, l), Apply(s, l);
    StepIsJustified(s, l);
    WritesKeepInv(s.db, op);
    forall k | 0 <= k < |s'.procs| ensures ProcessOk(s'.db, s'.procs[k]) {
      if k >= |s.procs| {
        SpawnedOk(s, l, k - |s.procs|);
      } else if Stepping(l) == Some(k) {
        NextProcessOk(s, l, k);
      } else {
        ProcessStaysOk(s.db, op, s.procs[k]);
      }
    }
    forall id | id in s'.queue ensures JobOk(s'.db, id, s'.queue[id].attempt) {
      QueueEntryOk(s, l, id);
      JobStaysOk(s.db, op, id, s'.queue[id].attempt);
    }
  }

  // --------------------------------------------------------------- whole runs

  lemma {:induction false} ReachableInv(r: Run, k: nat)
    requires IsRun(r) && k < |r.states|
    ensures StateInv(r.states[k])
  {
    if k > 0 {
      ReachableInv(r, k - 1);
      StepKeepsInv(r.states[k - 1], r.labels[k - 1]);
    }
  }

  /** In every reachable state a target has at most one scan queued, running or paused. */
  lemma OneScanPerTarget(r: Run, k: nat, a: ScanId, b: ScanId)
    requires IsRun(r) && k < |r.states|
    requires IsActive(r.states[k].db, a) && IsActive(r.states[k].db, b)
    requires r.states[k].db.rows[a].target == r.states[k].db.rows[b].target
    ensures a == b
  {
    ReachableInv(r, k);
  }

  /** In every reachable state where the switch is engaged, no scan is queued, running or paused. */
  lemma EngagedMeansIdle(r: Run, k: nat, org: OrgId)
    requires IsRun(r) && k < |r.states| && r.states[k].db.engaged
    ensures ActiveOf(r.states[k].db, org) == {}
    ensures forall id :: id in r.states[k].db.rows ==> IsTerminal(r.states[k].db.rows[id].status)
  {
    ReachableInv(r, k);
    forall id | id in r.states[k].db.rows ensures IsTerminal(r.states[k].db.rows[id].status) {
      assert !IsActive(r.states[k].db, id);
    }
  }

  lemma TerminalRowKept(db: Db, op: DbOp, id: ScanId)
    requires IdsAreUsed(db) && Justified(db, op) && id in db.rows && IsTerminal(db.rows[id].status)
    ensures SameRecord(db, Execute(db, op), id) || Deleted(db, Execute(db, op), id)
  {
    if op.DeleteTargets? && Hits(db, op) {
      DeletionIsWhole(db, op, id);
    }
  }

  /** The scan's id and its target's were handed out, and nothing of either is left. */
  ghost predicate Gone(db: Db, id: ScanId, target: TargetId) {
    && id in db.usedScans && target in db.usedTargets && target !in db.owners
    && id !in db.rows && FindingsOf(db, id) == [] && DiffsOf(db, id) == []
  }

  lemma GoneStaysGone(db: Db, op: DbOp, id: ScanId, target: TargetId)
    requires Gone(db, id, target)
    ensures Gone(Execute(db, op), id, target)
  {
  }

  lemma GoneAfterStep(r: Run, k: nat, id: ScanId, target: TargetId)
    requires IsRun(r) && k < |r.labels| && Gone(r.states[k].db, id, target)
    ensures Gone(r.states[k + 1].db, id, target)
  {
    GoneStaysGone(r.states[k].db, OpAt(r, k), id, target);
  }

  /** A deleted scan is gone for good: no row, finding or diff of it, nor its target, ever exists again. */
  lemma {:induction false} DeletionIsForGood(r: Run, i: nat, j: nat, id: ScanId, target: TargetId)
    requires IsRun(r) && i <= j < |r.states| && Gone(r.states[i].db, id, target)
    ensures Gone(r.states[j].db, id, target)
  {
    if i < j {
      DeletionIsForGood(r, i, j - 1, id, target);
      GoneAfterStep(r, j - 1, id, target);
    }
  }

  /** The scan is as it was, or it went with its target. */
  ghost predicate UnchangedOrGone(a: Db, b: Db, id: ScanId)
    requires id in a.rows
  {
    SameRecord(a, b, id) || Gone(b, id, a.rows[id].target)
  }

  lemma NothingYetChanged(db: Db, id: ScanId)
    requires id in db.rows
    ensures UnchangedOrGone(db, db, id)
  {
  }

  lemma UnchangedStep(a: Db, b: Db, op: DbOp, id: ScanId)
    requires id in a.rows && IsTerminal(a.rows[id].status) && UnchangedOrGone(a, b, id)
    requires IdsAreUsed(b) && OwnersAgree(b) && Justified(b, op)
    ensures UnchangedOrGone(a, Execute(b, op), id)
  {
    IdsStayUsed(b, op);
    if SameRecord(a, b, id) {
      TerminalRowKept(b, op, id);
    } else {
      GoneStaysGone(b, op, id, a.rows[id].target);
    }
  }

  /**
   * A finished scan is final: in every continuation its status, attempt, count,
   * findings and diff are what they were, or it was deleted with its target.
   */
  lemma {:induction false} TerminalIsFinal(r: Run, i: nat, j: nat, id: ScanId)
    requires IsRun(r) && i <= j < |r.states|
    requires id in r.states[i].db.rows && IsTerminal(r.states[i].db.rows[id].status)
    ensures UnchangedOrGone(r.states[i].db, r.states[j].db, id)
  {
    if i == j {
      NothingYetChanged(r.states[i].db, id);
    } else {
      TerminalIsFinal(r, i, j - 1, id);
      ReachableInv(r, j - 1);
      StepIsJustified(r.states[j - 1], r.labels[j - 1]);
      UnchangedStep(r.states[i].db, r.states[j - 1].db, OpAt(r, j - 1), id);
    }
  }

  /** Releasing the switch revives nothing: whatever existed while it was engaged has ended for good. */
  lemma ReleaseRevivesNothing(r: Run, i: nat, j: nat, id: ScanId)
    requires IsRun(r) && i <= j < |r.states|
    requires r.states[i].db.engaged && id in r.states[i].db.rows
    ensures !IsActive(r.states[j].db, id) && UnchangedOrGone(r.states[i].db, r.states[j].db, id)
  {
    EngagedMeansIdle(r, i, 0);
    TerminalIsFinal(r, i, j, id);
  }

  /** Which step may take a scan from one status to another. */
  predicate MayMove(l: Label, from: Status, to: Status) {
    match to
    case QUEUED => false
    case RUNNING => (l.ClaimScan? && from == QUEUED) || (l.ApplyControl? && from == PAUSED)
    case PAUSED => (l.ApplyControl? || l.RollBackResume?) && from == RUNNING
    case COMPLETED => l.PersistResults? && from == RUNNING
    case FAILED => (l.MarkScanFailed? && from == RUNNING) || (l.EndLost? && from == QUEUED)
    case CANCELLED => l.ApplyControl? && OccupiesQuota(from)
    case ABORTED_SAFETY => l.Engage? && OccupiesQuota(from)
  }

  /** Which write may take a scan from one status to another. */
  predicate OpMayMove(op: DbOp, from: Status, to: Status) {
    match op
    case Claim(_, _) => from == QUEUED && to == RUNNING
    case Persist(_, _, _) => from == RUNNING && to == COMPLETED
    case MarkFailed(_) => from == RUNNING && to == FAILED
    case Control(_, action, seen) => from == seen && to == Destination(action)
    case Rollback(_) => from == RUNNING && to == PAUSED
    case EndScan(_) => from == QUEUED && to == FAILED
    case HaltAll => OccupiesQuota(from) && to == ABORTED_SAFETY
    case _ => false
  }

  lemma OpMoves(db: Db, op: DbOp, id: ScanId)
    requires IdsAreUsed(db) && id in db.rows && id in Execute(db, op).rows
    ensures var from, to := db.rows[id].status, Execute(db, op).rows[id].status;
            from != to ==> OpMayMove(op, from, to)
  {
  }

  lemma LabelMoves(s: State, l: Label, from: Status, to: Status)
    requires Enabled(s, l) && Justified(s.db, OpOf(s, l)) && OpMayMove(OpOf(s, l), from, to)
    ensures MayMove(l, from, to)
  {
  }

  /**
   * Every move has its mover: a worker starts only queued scans, finishes or
   * fails only running ones, and never touches a scan a user paused or
   * cancelled; the reconciler fails only queued ones; releasing the switch, like
   * any step not listed, moves none.
   */
  lemma EveryMoveHasItsMover(r: Run, k: nat, id: ScanId)
    requires IsRun(r) && k < |r.labels| && id in r.states[k].db.rows && id in r.states[k + 1].db.rows
    ensures var from, to := r.states[k].db.rows[id].status, r.states[k + 1].db.rows[id].status;
            from != to ==> MayMove(r.labels[k], from, to)
  {
    ReachableInv(r, k);
    StepIsJustified(r.states[k], r.labels[k]);
    OpMoves(r.states[k].db, OpAt(r, k), id);
    var from, to := r.states[k].db.rows[id].status, r.states[k + 1].db.rows[id].status;
    if from != to {
      LabelMoves(r.states[k], r.labels[k], from, to);
    }
  }

  /**
   * A row is new in a step exactly when the step starts that scan and nothing stood
   * against it; in particular its target was scannable and its organisation's own.
   */
  lemma OnlyScannableIsReserved(r: Run, k: nat, id: ScanId)
    requires IsRun(r) && k < |r.labels| && id !in r.states[k].db.rows
    ensures var db, after, l := r.states[k].db, r.states[k + 1].db, r.labels[k];
            && (id in after.rows <==> l.StartScan? && l.newId == id)
            && (id in after.rows ==>
                  MayReserve(db, l.request, l.scannable) && OnlyReserved(db, after, id, l.request))
  {
    var db, l := r.states[k].db, r.labels[k];
    ReachableInv(r, k);
    NewRowIsReserved(db, OpAt(r, k), id);
    if l.StartScan? {
      ReservationIsDue(db, l.request, l.scannable);
      ReservationWrites(db, l.newId, l.request, l.scannable);
    }
  }

  lemma NewRowIsReserved(db: Db, op: DbOp, id: ScanId)
    requires id !in db.rows
    ensures id in Execute(db, op).rows <==> op.Reserve? && op.id == id && Hits(db, op)
  {
  }

  /** A process that passed the check of a resume did so with the switch off and the target scannable. */
  lemma {:induction false} ClearedBefore(r: Run, k: nat, i: nat) returns (j: nat)
    requires IsRun(r) && k < |r.states| && ProcAt(r.states[k], i).ResumeCleared?
    ensures j < k && r.labels[j] == ClearResume(i, true) && !r.states[j].db.engaged
    ensures r.states[j].procs[i].id == r.states[k].procs[i].id
  {
    if ProcAt(r.states[k - 1], i).ResumeCleared? && Stepping(r.labels[k - 1]) != Some(i) {
      j := ClearedBefore(r, k - 1, i);
    } else {
      j := k - 1;
      ClearedJustNow(r.states[j], r.labels[j], i);
    }
  }

  lemma ClearedJustNow(s: State, l: Label, i: nat)
    requires Enabled(s, l) && ProcAt(Apply(s, l), i).ResumeCleared?
    requires !(ProcAt(s, i).ResumeCleared? && Stepping(l) != Some(i))
    ensures l == ClearResume(i, true) && !s.db.engaged && i < |s.procs| && s.procs[i].id == ProcAt(Apply(s, l), i).id
  {
    NoneStartsCleared(s, l);
    if i < |s.procs| && Stepping(l) == Some(i) {
      ContinuesCleared(s, l, i);
    }
  }

  lemma NoneStartsCleared(s: State, l: Label)
    requires Enabled(s, l)
    ensures forall k :: 0 <= k < |Spawned(s, l)| ==> !Spawned(s, l)[k].ResumeCleared?
  {
  }

  lemma ContinuesCleared(s: State, l: Label, i: nat)
    requires Enabled(s, l) && Stepping(l) == Some(i) && i < |s.procs| && Continue(s, l, s.procs[i]).ResumeCleared?
    ensures l == ClearResume(i, true) && !s.db.engaged && s.procs[i].id == Continue(s, l, s.procs[i]).id
  {
  }

  /** A paused scan runs again only by a resume that found the switch off and the target scannable before. */
  lemma OnlyClearedIsResumed(r: Run, k: nat, id: ScanId) returns (j: nat)
    requires IsRun(r) && k < |r.labels| && id in r.states[k].db.rows && id in r.states[k + 1].db.rows
    requires r.states[k].db.rows[id].status == PAUSED && r.states[k + 1].db.rows[id].status == RUNNING
    ensures j < k && r.labels[k].ApplyControl? && r.labels[j] == ClearResume(r.labels[k].i, true)
    ensures !r.states[j].db.engaged && r.states[j].procs[r.labels[k].i].id == id
  {
    ReachableInv(r, k);
    EveryMoveHasItsMover(r, k, id);
    ResumeIsCleared(r.states[k], r.labels[k], id);
    j := ClearedBefore(r, k, r.labels[k].i);
  }

  lemma ResumeIsCleared(s: State, l: Label, id: ScanId)
    requires Enabled(s, l) && l.ApplyControl? && StatusIn(s.db, id, {PAUSED}) && StatusIn(Apply(s, l).db, id, {RUNNING})
    ensures l.i < |s.procs| && s.procs[l.i].ResumeCleared? && s.procs[l.i].id == id
  {
  }

  predicate ReservesFor(db: Db, op: DbOp, org: OrgId) {
    op.Reserve? && Hits(db, op) && op.request.org == org
  }

  /** A reservation takes one slot, and only when one was free. */
  lemma ReservationFits(db: Db, op: DbOp, org: OrgId)
    requires IdsAreUsed(db) && ReservesFor(db, op, org)
    ensures |ActiveOf(Execute(db, op), org)| == |ActiveOf(db, org)| + 1 <= LimitOf(db, org)
  {
    assert op.id !in ActiveOf(db, org);
    assert ActiveOf(Execute(db, op), org) == ActiveOf(db, org) + {op.id};
  }

  lemma OnlyReservationsTakeSlots(db: Db, op: DbOp, org: OrgId, id: ScanId)
    requires Justified(db, op) && !ReservesFor(db, op, org)
    requires id in ActiveOf(Execute(db, op), org)
    ensures id in ActiveOf(db, org)
  {
  }

  lemma {:induction false} SmallerSet<T>(a: set<T>, b: set<T>)
    requires a <= b
    ensures |a| <= |b|
  {
    if a != {} {
      var x :| x in a;
      SmallerSet(a - {x}, b - {x});
    }
  }

  lemma QuotaStep(db: Db, op: DbOp, org: OrgId, bound: nat)
    requires IdsAreUsed(db) && Justified(db, op) && |ActiveOf(db, org)| <= bound && LimitOf(db, org) <= bound
    ensures |ActiveOf(Execute(db, op), org)| <= bound
  {
    if ReservesFor(db, op, org) {
      ReservationFits(db, op, org);
    } else {
      forall id | id in ActiveOf(Execute(db, op), org) ensures id in ActiveOf(db, org) {
        OnlyReservationsTakeSlots(db, op, org, id);
      }
      SmallerSet(ActiveOf(Execute(db, op), org), ActiveOf(db, org));
    }
  }

  /**
   * The quota: an organisation never holds more slots than the largest limit that
   * has been in force; with the limit left alone, never more than the limit.
   */
  lemma {:induction false} QuotaHolds(r: Run, k: nat, org: OrgId, bound: nat)
    requires IsRun(r) && k < |r.states|
    requires forall m :: 0 <= m <= k ==> LimitOf(r.states[m].db, org) <= bound
    ensures |ActiveOf(r.states[k].db, org)| <= bound
  {
    if k == 0 {
      assert ActiveOf(r.states[0].db, org) == {};
    } else {
      QuotaHolds(r, k - 1, org, bound);
      ReachableInv(r, k - 1);
      StepIsJustified(r.states[k - 1], r.labels[k - 1]);
      assert LimitOf(r.states[k - 1].db, org) <= bound;
      QuotaStep(r.states[k - 1].db, OpAt(r, k - 1), org, bound);
    }
  }

  // ------------------------------------------------------- results, written once

  ghost predicate CompletesScan(r: Run, k: nat, id: ScanId)
    requires IsRun(r) && k < |r.labels|
  {
    Completes(r.states[k].db, OpAt(r, k), id)
  }

  /** How many of the first n steps wrote the results of this scan. */
  ghost function Completions(r: Run, n: nat, id: ScanId): nat
    requires IsRun(r) && n <= |r.labels|
  {
    if n == 0 then 0 else Completions(r, n - 1, id) + if CompletesScan(r, n - 1, id) then 1 else 0
  }

  /** The scan was completed at some time. */
  ghost predicate WasCompleted(r: Run, k: nat, id: ScanId)
    requires k < |r.states|
  {
    exists m :: 0 <= m <= k && StatusIn(r.states[m].db, id, {COMPLETED})
  }

  lemma WasCompletedStep(r: Run, k: nat, id: ScanId)
    requires 0 < k < |r.states|
    ensures WasCompleted(r, k, id) <==> WasCompleted(r, k - 1, id) || StatusIn(r.states[k].db, id, {COMPLETED})
  {
  }

  /** The one count a scan's status, or its absence, allows. */
  ghost predicate CountFits(db: Db, id: ScanId, count: nat) {
    && count <= 1
    && (id in db.rows ==> (count == 1 <==> db.rows[id].status == COMPLETED))
    && (id !in db.usedScans ==> count == 0)
  }

  lemma CompletionCounts(db: Db, op: DbOp, id: ScanId, count: nat)
    requires IdsAreUsed(db) && Justified(db, op) && CountFits(db, id, count)
    ensures CountFits(Execute(db, op), id, count + if Completes(db, op, id) then 1 else 0)
  {
    IdsStayUsed(db, op);
    if !Completes(db, op, id) {
      OnlyPersistWritesResults(db, op, id);
      if id in db.usedScans {
        RowsPersist(db, op, id);
      } else {
        FreshIsNotCompleted(db, op, id);
      }
    }
  }

  lemma FreshIsNotCompleted(db: Db, op: DbOp, id: ScanId)
    requires IdsAreUsed(db) && id !in db.usedScans
    ensures !StatusIn(Execute(db, op), id, {COMPLETED})
    ensures id in Execute(db, op).rows ==> id in Execute(db, op).usedScans
  {
  }

  /**
   * Results are written in one step, at most once: the steps that wrote a scan's
   * results number one exactly when it was ever COMPLETED, which is when it is
   * COMPLETED if it still exists. Only a COMPLETED scan has rows, and
   * `findingsCount` is their number.
   */
  lemma {:induction false} ResultsWrittenOnce(r: Run, k: nat, id: ScanId)
    requires IsRun(r) && k < |r.states|
    ensures CountFits(r.states[k].db, id, Completions(r, k, id))
    ensures Completions(r, k, id) == 1 <==> WasCompleted(r, k, id)
    ensures !StatusIn(r.states[k].db, id, {COMPLETED}) ==>
      FindingsOf(r.states[k].db, id) == [] && DiffsOf(r.states[k].db, id) == []
    ensures id in r.states[k].db.rows ==> |FindingsOf(r.states[k].db, id)| == r.states[k].db.rows[id].findingsCount
  {
    ReachableInv(r, k);
    if k > 0 {
      ResultsWrittenOnce(r, k - 1, id);
      ReachableInv(r, k - 1);
      StepIsJustified(r.states[k - 1], r.labels[k - 1]);
      CompletionCounts(r.states[k - 1].db, OpAt(r, k - 1), id, Completions(r, k - 1, id));
      WasCompletedStep(r, k, id);
      if !CompletesScan(r, k - 1, id) {
        OnlyPersistWritesResults(r.states[k - 1].db, OpAt(r, k - 1), id);
      }
    }
  }

  // ------------------------------------------------------------- diff replay

  /** Every completed scan of the target, in the order in which they completed. */
  ghost predicate IsHistory(db: Db, target: TargetId, order: seq<ScanId>) {
    && (forall i :: 0 <= i < |order| ==> IsCompleted(db, order[i], target))
    && (forall q :: IsCompleted(db, q, target) ==> q in order)
    && (forall i, j :: 0 <= i < j < |order| ==> Before(db, order[i], order[j]))
  }

  /** Replays the stored diffs of a history, starting from no findings at all. */
  ghost function ReplayHistory(db: Db, order: seq<ScanId>): set<Fingerprint> {
    if order == [] then {}
    else Replay(ReplayHistory(db, order[..|order| - 1]), DiffsOf(db, order[|order| - 1]))
  }

  function PreviousIn(order: seq<ScanId>, n: nat): Option<ScanId>
    requires 0 < n <= |order|
  {
    if n == 1 then None else Some(order[n - 2])
  }

  lemma HistoryNeighbours(db: Db, target: TargetId, order: seq<ScanId>, n: nat)
    requires IsHistory(db, target, order) && 0 < n <= |order|
    ensures ComesRightBefore(db, target, PreviousIn(order, n), order[n - 1])
  {
    forall j | n - 1 <= j < |order| ensures !Before(db, order[j], order[n - 1]) {
      assert j == n - 1 || Before(db, order[n - 1], order[j]);
    }
    forall q | IsCompleted(db, q, target) && Before(db, q, order[n - 1])
      ensures n > 1 && (q == order[n - 2] || Before(db, q, order[n - 2]))
    {
      var i :| 0 <= i < |order| && order[i] == q;
      if i < n - 2 {
        assert Before(db, order[i], order[n - 2]);
      }
    }
    if n > 1 {
      assert Before(db, order[n - 2], order[n - 1]);
    }
  }

  lemma {:induction false} ReplayFollowsHistory(db: Db, target: TargetId, order: seq<ScanId>, n: nat)
    requires DiffsFollowHistory(db) && IsHistory(db, target, order) && 0 < n <= |order|
    ensures ReplayHistory(db, order[..n]) == FingerprintSet(FindingsOf(db, order[n - 1]))
  {
    var id, prev := order[n - 1], PreviousIn(order, n);
    assert order[..n][..n - 1] == order[..n - 1];
    HistoryNeighbours(db, target, order, n);
    assert IsCompleted(db, id, target);
    DiffSaysWhatChanged(id, target, FindingsOf(db, id), FindingsOfPrevious(db, prev));
    if n > 1 {
      ReplayFollowsHistory(db, target, order, n - 1);
    }
  }

  lemma EitherIsBefore(db: Db, a: ScanId, b: ScanId)
    requires CompletionTimes(db) && IsDone(db, a) && IsDone(db, b) && a != b
    ensures Before(db, a, b) || Before(db, b, a)
  {
  }

  lemma {:induction false} LatestOf(db: Db, scans: set<ScanId>) returns (last: ScanId)
    requires scans != {} && CompletionTimes(db) && forall q :: q in scans ==> IsDone(db, q)
    ensures last in scans && forall q :: q in scans && q != last ==> Before(db, q, last)
  {
    var first :| first in scans;
    last := first;
    if scans != {first} {
      var rest := scans - {first};
      assert rest != {} by {
        assert scans == rest + {first};
      }
      var other := LatestOf(db, rest);
      EitherIsBefore(db, first, other);
      last := if Before(db, first, other) then other else first;
      forall q | q in scans && q != last ensures Before(db, q, last) {
        assert q == first || q in rest;
      }
    }
  }

  /** Any set of completed scans can be put in the order in which they completed. */
  lemma {:induction false} InOrder(db: Db, scans: set<ScanId>) returns (order: seq<ScanId>)
    requires CompletionTimes(db) && forall q :: q in scans ==> IsDone(db, q)
    ensures forall q :: q in order <==> q in scans
    ensures forall i, j :: 0 <= i < j < |order| ==> Before(db, order[i], order[j])
  {
    if scans == {} {
      order := [];
    } else {
      var last := LatestOf(db, scans);
      var front := InOrder(db, scans - {last});
      order := front + [last];
      forall i | 0 <= i < |front| ensures Before(db, front[i], last) {
        assert front[i] in front;
      }
    }
  }

  lemma HistoryExists(db: Db, target: TargetId) returns (order: seq<ScanId>)
    requires CompletionTimes(db)
    ensures IsHistory(db, target, order)
  {
    order := InOrder(db, set q | q in db.rows && IsCompleted(db, q, target));
    forall i | 0 <= i < |order| ensures IsCompleted(db, order[i], target) {
      assert order[i] in order;
    }
  }

  lemma HistoryReplays(r: Run, k: nat, target: TargetId, order: seq<ScanId>)
    requires IsRun(r) && k < |r.states| && IsHistory(r.states[k].db, target, order) && order != []
    ensures ReplayHistory(r.states[k].db, order) == FingerprintSet(FindingsOf(r.states[k].db, order[|order| - 1]))
  {
    ReachableInv(r, k);
    assert order[..|order|] == order;
    ReplayFollowsHistory(r.states[k].db, target, order, |order|);
  }

  /**
   * In every reachable state a target's completed scans stand in one order of
   * completion, and replaying their stored diffs along it, from the empty set,
   * gives exactly the fingerprints of the latest one.
   */
  lemma DiffsReplayToLatest(r: Run, k: nat, target: TargetId) returns (order: seq<ScanId>)
    requires IsRun(r) && k < |r.states|
    ensures IsHistory(r.states[k].db, target, order)
    ensures ReplayHistory(r.states[k].db, order) ==
            if order == [] then {} else FingerprintSet(FindingsOf(r.states[k].db, order[|order| - 1]))
  {
    ReachableInv(r, k);
    order := HistoryExists(r.states[k].db, target);
    if order != [] {
      HistoryReplays(r, k, target, order);
    }
  }

  // ------------------------------------------------------- statuses and attempts

  /**
   * Which status changes the transition table does not list: exactly the kill
   * switch's, on the scans it finds queued or paused. The table is therefore not
   * the only route a status change takes.
   */
  lemma TableViolatedExactlyByHalt(r: Run, k: nat, id: ScanId)
    requires IsRun(r) && k < |r.labels| && id in r.states[k].db.rows
    ensures var before, after := r.states[k].db.rows, r.states[k + 1].db.rows;
            (id in after && before[id].status != after[id].status
             && !CanTransition(before[id].status, after[id].status))
            <==> r.labels[k].Engage? && before[id].status in {QUEUED, PAUSED}
  {
    ReachableInv(r, k);
    StepIsJustified(r.states[k], r.labels[k]);
    OffTableExactlyHalt(r.states[k].db, OpAt(r, k), id);
    OnlyEngageHalts(r.states[k], r.labels[k]);
  }

  lemma OffTableExactlyHalt(db: Db, op: DbOp, id: ScanId)
    requires IdsAreUsed(db) && Justified(db, op) && id in db.rows
    ensures var from, after := db.rows[id].status, Execute(db, op).rows;
            (id in after && from != after[id].status && !CanTransition(from, after[id].status))
            <==> op.HaltAll? && Hits(db, op) && from in {QUEUED, PAUSED}
  {
  }

  lemma OnlyEngageHalts(s: State, l: Label)
    requires Enabled(s, l)
    ensures OpOf(s, l).HaltAll? <==> l.Engage?
    ensures l.Engage? ==> Hits(s.db, OpOf(s, l))
  {
  }

  /** One for a resume of this scan that wins its compare-and-set, zero for anything else. */
  function WinsResume(db: Db, op: DbOp, id: ScanId): nat {
    if op.Control? && op.id == id && op.action.Resume? && Hits(db, op) then 1 else 0
  }

  function UndoesResume(db: Db, op: DbOp, id: ScanId): nat {
    if op.Rollback? && op.id == id && Hits(db, op) then 1 else 0
  }

  ghost function Wins(s: State, l: Label, id: ScanId): nat
    requires Enabled(s, l)
  {
    WinsResume(s.db, OpOf(s, l), id)
  }

  ghost function Undoes(s: State, l: Label, id: ScanId): nat
    requires Enabled(s, l)
  {
    UndoesResume(s.db, OpOf(s, l), id)
  }

  ghost function ResumesWon(r: Run, n: nat, id: ScanId): nat
    requires IsRun(r) && n <= |r.labels|
  {
    if n == 0 then 0 else ResumesWon(r, n - 1, id) + Wins(r.states[n - 1], r.labels[n - 1], id)
  }

  ghost function Rollbacks(r: Run, n: nat, id: ScanId): nat
    requires IsRun(r) && n <= |r.labels|
  {
    if n == 0 then 0 else Rollbacks(r, n - 1, id) + Undoes(r.states[n - 1], r.labels[n - 1], id)
  }

  /** Resumes of this scan whose enqueue has neither succeeded nor been rolled back. */
  ghost function Undelivered(procs: seq<Process>, id: ScanId): nat {
    if procs == [] then 0 else Undelivered(procs[..|procs| - 1], id) + Weight(procs[|procs| - 1], id)
  }

  ghost function Weight(p: Process, id: ScanId): nat {
    if (p.ResumeDelivering? || p.RollingBack?) && p.id == id then 1 else 0
  }

  lemma {:induction false} UndeliveredUpdate(procs: seq<Process>, i: nat, p: Process, id: ScanId)
    requires i < |procs|
    ensures Undelivered(procs[i := p], id) == Undelivered(procs, id) - Weight(procs[i], id) + Weight(p, id)
  {
    var n := |procs| - 1;
    if i == n {
      assert procs[i := p][..n] == procs[..n];
    } else {
      assert procs[i := p][..n] == procs[..n][i := p];
      UndeliveredUpdate(procs[..n], i, p, id);
    }
  }

  lemma UndeliveredAppend(procs: seq<Process>, p: Process, id: ScanId)
    ensures Undelivered(procs + [p], id) == Undelivered(procs, id) + Weight(p, id)
  {
    assert (procs + [p])[..|procs|] == procs;
  }

  /** One step changes the number of undelivered resumes by its wins, less its rollbacks and deliveries. */
  lemma UndeliveredAfter(s: State, l: Label, id: ScanId)
    requires Enabled(s, l)
    ensures Undelivered(Apply(s, l).procs, id) + Undoes(s, l, id) <= Undelivered(s.procs, id) + Wins(s, l, id)
  {
    SpawnedWeighsNothing(s, l, id);
    match Stepping(l) {
      case None =>
        NothingElseWins(s, l, id);
        UndeliveredSpawn(s.procs, Spawned(s, l), id);
      case Some(i) =>
        WeightAfter(s, l, i, id);
        UndeliveredUpdate(s.procs, i, Continue(s, l, s.procs[i]), id);
        UndeliveredSpawn(s.procs[i := Continue(s, l, s.procs[i])], Spawned(s, l), id);
    }
  }

  lemma UndeliveredSpawn(procs: seq<Process>, spawned: seq<Process>, id: ScanId)
    requires spawned == [] || (|spawned| == 1 && Weight(spawned[0], id) == 0)
    ensures Undelivered(procs + spawned, id) == Undelivered(procs, id)
  {
    if spawned == [] {
      assert procs + spawned == procs;
    } else {
      assert spawned == [spawned[0]];
      UndeliveredAppend(procs, spawned[0], id);
    }
  }

  lemma SpawnedWeighsNothing(s: State, l: Label, id: ScanId)
    requires Enabled(s, l)
    ensures Spawned(s, l) == [] || (|Spawned(s, l)| == 1 && Weight(Spawned(s, l)[0], id) == 0)
  {
  }

  lemma NothingElseWins(s: State, l: Label, id: ScanId)
    requires Enabled(s, l) && Stepping(l).None?
    ensures Undoes(s, l, id) == 0
  {
  }

  lemma WeightAfter(s: State, l: Label, i: nat, id: ScanId)
    requires Enabled(s, l) && Stepping(l) == Some(i)
    ensures Weight(Continue(s, l, s.procs[i]), id) + Undoes(s, l, id) <= Weight(s.procs[i], id) + Wins(s, l, id)
  {
  }

  /**
   * A scan's attempt is one plus the resumes it won less the rollbacks applied to
   * it, as numbers; there are never more rollbacks than resumes, so it is at
   * least one. A rollback is guarded by the status alone, so the resume it takes
   * back need not be its own.
   */
  lemma {:induction false} AttemptAccounting(r: Run, k: nat, id: ScanId)
    requires IsRun(r) && k < |r.states|
    ensures Rollbacks(r, k, id) + Undelivered(r.states[k].procs, id) <= ResumesWon(r, k, id)
    ensures id in r.states[k].db.rows ==>
      r.states[k].db.rows[id].attempt == 1 + ResumesWon(r, k, id) - Rollbacks(r, k, id) >= 1
    ensures id !in r.states[k].db.usedScans ==> ResumesWon(r, k, id) == 0
  {
    if k > 0 {
      AttemptAccounting(r, k - 1, id);
      UndeliveredAfter(r.states[k - 1], r.labels[k - 1], id);
      var s, l := r.states[k - 1], r.labels[k - 1];
      ReachableInv(r, k - 1);
      if id in s.db.usedScans {
        StepIsJustified(s, l);
        IdsStayUsed(s.db, OpOf(s, l));
        if id in r.states[k].db.rows {
          AttemptStep(s.db, OpOf(s, l), id);
        }
      } else {
        AttemptStart(s.db, OpOf(s, l), id);
      }
    }
  }

  lemma AttemptStep(db: Db, op: DbOp, id: ScanId)
    requires id in db.usedScans && id in Execute(db, op).rows
    ensures id in db.rows && Execute(db, op).rows[id].attempt ==
                             db.rows[id].attempt + WinsResume(db, op, id) - UndoesResume(db, op, id)
  {
    RowStays(db, op, id);
  }

  lemma AttemptStart(db: Db, op: DbOp, id: ScanId)
    requires IdsAreUsed(db) && id !in db.usedScans
    ensures WinsResume(db, op, id) == UndoesResume(db, op, id) == 0
    ensures id in Execute(db, op).rows ==> Execute(db, op).rows[id].attempt == 1
  {
  }

  /** Exactly when a scan's attempt goes down: a refused resume is rolled back while the scan is running. */
  lemma AttemptDropsExactlyOnRollback(r: Run, k: nat, id: ScanId)
    requires IsRun(r) && k < |r.labels| && id in r.states[k].db.rows
    ensures var s, l, after := r.states[k], r.labels[k], r.states[k + 1].db.rows;
            (id in after && after[id].attempt < s.db.rows[id].attempt)
            <==> l.RollBackResume? && s.procs[l.i].id == id && s.db.rows[id].status == RUNNING
  {
    ReachableInv(r, k);
    var s, l := r.states[k], r.labels[k];
    OnlyRollBackUndoes(s, l, id);
    if l.RollBackResume? {
      RollbackKeepsRow(s.db, OpOf(s, l), id);
    }
    if id in r.states[k + 1].db.rows {
      AttemptStep(s.db, OpOf(s, l), id);
    }
  }

  lemma RollbackKeepsRow(db: Db, op: DbOp, id: ScanId)
    requires op.Rollback? && id in db.rows
    ensures id in Execute(db, op).rows
  {
  }

  lemma OnlyRollBackUndoes(s: State, l: Label, id: ScanId)
    requires Enabled(s, l)
    ensures Undoes(s, l, id) == 1 <==>
            l.RollBackResume? && s.procs[l.i].id == id && StatusIn(s.db, id, {RUNNING})
    ensures Undoes(s, l, id) == 1 ==> Wins(s, l, id) == 0
  {
  }

  /**
   * A queued scan is always claimable: whatever job the queue holds for it, and
   * the default-attempt job the reconciler would add, carry the attempt its row
   * records, so the worker that takes the job claims the scan.
   */
  lemma QueuedScanIsClaimable(r: Run, k: nat, id: ScanId)
    requires IsRun(r) && k < |r.states| && StatusIn(r.states[k].db, id, {QUEUED})
    ensures var s := r.states[k];
            && Hits(s.db, Claim(id, 1))
            && (id in s.queue ==> Hits(s.db, Claim(id, s.queue[id].attempt)))
            && (forall i :: 0 <= i < |s.procs| && s.procs[i].Delivered? && s.procs[i].id == id ==>
                  Hits(s.db, Claim(id, s.procs[i].attempt)))
            && (forall i :: 0 <= i < |s.procs| && s.procs[i].Claiming? && s.procs[i].work.id == id ==>
                  Hits(s.db, Claim(id, s.procs[i].work.attempt)))
  {
    ReachableInv(r, k);
    forall i | 0 <= i < |r.states[k].procs| ensures ProcessOk(r.states[k].db, r.states[k].procs[i]) {
    }
  }

  // ----------------------------------------------------- which attempt completes

  /** A worker whose claim succeeded and that has not ended. */
  predicate Serving(p: Process) {
    p.Scanning? || p.KillSwitchSeen? || p.Detecting? || p.PreviousChosen? || p.Persisting? || p.WorkerFailing?
  }

  predicate ClaimsNow(s: State, l: Label, i: nat, w: Work) {
    l == ClaimScan(i) && ProcAt(s, i) == Claiming(w) && Hits(s.db, Claim(w.id, w.attempt))
  }

  lemma SpawnedIsNotServing(s: State, l: Label, k: nat)
    requires Enabled(s, l) && k < |Spawned(s, l)|
    ensures !Serving(Spawned(s, l)[k])
  {
  }

  /** Where a process of the next state comes from. */
  lemma ProcessAfter(s: State, l: Label, i: nat)
    requires Enabled(s, l) && (Stepping(l).Some? ==> Stepping(l).value < |s.procs|)
    ensures var p := ProcAt(Apply(s, l), i);
            if i < |s.procs| then p == if Stepping(l) == Some(i) then Continue(s, l, s.procs[i]) else s.procs[i]
            else p == Done || (i - |s.procs| < |Spawned(s, l)| && p == Spawned(s, l)[i - |s.procs|])
  {
  }

  lemma StepperExists(s: State, l: Label)
    requires Enabled(s, l)
    ensures Stepping(l).Some? ==> Stepping(l).value < |s.procs|
  {
  }

  lemma StepKeepsWork(s: State, l: Label, i: nat)
    requires Enabled(s, l) && Serving(ProcAt(Apply(s, l), i))
    ensures var w := ProcAt(Apply(s, l), i).work;
            ClaimsNow(s, l, i, w) || (Serving(ProcAt(s, i)) && ProcAt(s, i).work == w)
  {
    StepperExists(s, l);
    ProcessAfter(s, l, i);
    if i >= |s.procs| {
      if i - |s.procs| < |Spawned(s, l)| {
        SpawnedIsNotServing(s, l, i - |s.procs|);
      }
    } else if Stepping(l) == Some(i) {
      ContinueKeepsWork(s, l, i);
    }
  }

  lemma ContinueKeepsWork(s: State, l: Label, i: nat)
    requires Enabled(s, l) && i < |s.procs| && Stepping(l) == Some(i) && Serving(Continue(s, l, s.procs[i]))
    ensures var w := Continue(s, l, s.procs[i]).work;
            ClaimsNow(s, l, i, w) || (Serving(s.procs[i]) && s.procs[i].work == w)
  {
  }

  /** Every working worker claimed its scan at some earlier step, as the attempt its job carried. */
  lemma {:induction false} ClaimedEarlier(r: Run, k: nat, i: nat) returns (c: nat)
    requires IsRun(r) && k < |r.states| && Serving(ProcAt(r.states[k], i))
    ensures c < k && ClaimsNow(r.states[c], r.labels[c], i, ProcAt(r.states[k], i).work)
  {
    StepKeepsWork(r.states[k - 1], r.labels[k - 1], i);
    if ClaimsNow(r.states[k - 1], r.labels[k - 1], i, ProcAt(r.states[k], i).work) {
      c := k - 1;
    } else {
      c := ClaimedEarlier(r, k - 1, i);
    }
  }

  /**
   * When a worker completes its scan, the row's attempt is the one the worker
   * claimed exactly when the resumes won since its claim equal the rollbacks
   * applied since, in number; which is when the row's attempt, read before the
   * write, is the claimed one.
   */
  lemma CompletesTheClaimedAttempt(r: Run, k: nat, i: nat) returns (c: nat)
    requires IsRun(r) && k < |r.labels| && r.labels[k] == PersistResults(i) && Hits(r.states[k].db, OpAt(r, k))
    ensures ProcAt(r.states[k], i).Persisting?
    ensures c < k && ClaimsNow(r.states[c], r.labels[c], i, ProcAt(r.states[k], i).work)
    ensures var w, before, after := ProcAt(r.states[k], i).work, r.states[k].db, r.states[k + 1].db;
            && w.id in before.rows && StatusIn(after, w.id, {COMPLETED})
            && (after.rows[w.id].attempt == w.attempt <==>
                ResumesWon(r, k, w.id) - ResumesWon(r, c, w.id) == Rollbacks(r, k, w.id) - Rollbacks(r, c, w.id))
            && (after.rows[w.id].attempt == w.attempt <==> before.rows[w.id].attempt == w.attempt)
  {
    c := ClaimedEarlier(r, k, i);
    CompletionAttempt(r, c, k, ProcAt(r.states[k], i).work, OpAt(r, k));
  }

  lemma CompletionAttempt(r: Run, c: nat, k: nat, w: Work, op: DbOp)
    requires IsRun(r) && c <= k < |r.states| && Hits(r.states[c].db, Claim(w.id, w.attempt))
    requires op.Persist? && op.id == w.id && Hits(r.states[k].db, op)
    ensures var before, after := r.states[k].db, Execute(r.states[k].db, op);
            && w.id in before.rows && StatusIn(after, w.id, {COMPLETED})
            && (after.rows[w.id].attempt == w.attempt <==>
                ResumesWon(r, k, w.id) - ResumesWon(r, c, w.id) == Rollbacks(r, k, w.id) - Rollbacks(r, c, w.id))
            && (after.rows[w.id].attempt == w.attempt <==> before.rows[w.id].attempt == w.attempt)
  {
    AttemptSince(r, c, k, w.id);
    PersistKeepsAttempt(r.states[k].db, op);
  }

  /** Between two times at which a scan exists, its attempt moves by resumes less rollbacks. */
  lemma AttemptSince(r: Run, c: nat, k: nat, id: ScanId)
    requires IsRun(r) && c <= k < |r.states| && id in r.states[c].db.rows && id in r.states[k].db.rows
    ensures r.states[k].db.rows[id].attempt - r.states[c].db.rows[id].attempt ==
            (ResumesWon(r, k, id) - ResumesWon(r, c, id)) - (Rollbacks(r, k, id) - Rollbacks(r, c, id))
  {
    AttemptAccounting(r, c, id);
    AttemptAccounting(r, k, id);
  }

  lemma PersistKeepsAttempt(db: Db, op: DbOp)
    requires op.Persist? && Hits(db, op)
    ensures StatusIn(db, op.id, {RUNNING}) && StatusIn(Execute(db, op), op.id, {COMPLETED})
    ensures Execute(db, op).rows[op.id].attempt == db.rows[op.id].attempt
  {
  }
}
