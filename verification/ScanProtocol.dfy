/**
 * The scan lifecycle as a state machine.
 *
 * API calls, queue workers, reconciler sweeps and kill-switch engagements are
 * processes; each of their steps commits at most one database transaction or one
 * queue operation, and any process may take the next step. A process that never
 * steps again has crashed. Answers from outside (is the target scannable, did the
 * queue accept the job, what did the engine find) are chosen by the step's label.
 */
module ScanProtocol {
  import opened Lifecycle
  import opened Options
  import opened TriageDiff
  import opened ScanDatabase

  /** A failed job is kept for a while, and goes on holding its id. */
  datatype JobPhase = Waiting | Active(worker: nat) | FailedKept

  datatype Job = Job(attempt: int, phase: JobPhase)

  /** The queue holds at most one job for each scan. */
  type Queue = map<ScanId, Job>

  /** What a worker knows of the delivery it serves: the scan, the attempt its job carries, the scan's target. */
  datatype Work = Work(id: ScanId, attempt: int, target: TargetId)

  datatype Process =
    | Done
    | Starting(id: ScanId)
    | Controlling(id: ScanId, action: Action, seen: Status)
    | ResumeCleared(id: ScanId)
    | CancelDelivering(id: ScanId)
    | ResumeDelivering(id: ScanId, attempt: int)
    | RollingBack(id: ScanId)
    | Halting(aborted: set<ScanId>)
    | Sweeping
    | Candidate(id: ScanId)
    | JobMissing(id: ScanId)
    | Delivered(id: ScanId, attempt: int)
    | Claiming(work: Work)
    | Scanning(work: Work)
    | KillSwitchSeen(work: Work)
    | Detecting(work: Work)
    | PreviousChosen(work: Work, found: seq<Fingerprint>, prev: Option<ScanId>)
    | Persisting(work: Work, found: seq<Fingerprint>, diff: seq<DiffRecord>)
    | WorkerFailing(work: Work, rethrow: bool)
    | WorkerEnding(id: ScanId, failed: bool)

  datatype State = State(db: Db, queue: Queue, procs: seq<Process>)

  datatype Label =
    // startScan
    | StartScan(newId: ScanId, request: Request, scannable: bool)
    | EnqueueStarted(i: nat, ok: bool)
    // controlScan
    | ReadForControl(id: ScanId, action: Action)
    | ClearResume(i: nat, scannable: bool)
    | ApplyControl(i: nat)
    | DeliverCancel(i: nat, ok: bool)
    | DeliverResume(i: nat, ok: bool)
    | RollBackResume(i: nat)
    // the kill switch
    | Engage
    | RemoveAborted(i: nat, id: ScanId)
    | Disengage
    // the reconciler
    | BeginSweep
    | ReadCandidate(i: nat, id: ScanId)
    | LookForJob(i: nat)
    | EndLost(i: nat)
    | Requeue(i: nat, ok: bool)
    // the queue: a stalled job is delivered again, and fails when it stalled too often
    | TakeJob(id: ScanId)
    | StallJob(id: ScanId)
    | FailStalled(id: ScanId)
    | ExpireJob(id: ScanId)
    // the worker
    | ReadScan(i: nat)
    | ClaimScan(i: nat)
    | StopEngine(i: nat)
    | SeeKillSwitch(i: nat)
    | ConfirmKillSwitch(i: nat, readable: bool)
    | PassCheckpoint(i: nat)
    | ChoosePrevious(i: nat, found: seq<Fingerprint>, prev: Option<ScanId>)
    | ReadPrevious(i: nat)
    | PersistResults(i: nat)
    | Throw(i: nat)
    | MarkScanFailed(i: nat)
    | SettleJob(i: nat)
    // an administrator
    | ChangeLimit(org: OrgId, limit: nat)
    // targets: a deletion cascades to scans, findings and diffs, and tells no process and no queue
    | RegisterTarget(target: TargetId, org: OrgId)
    | DeleteTarget(target: TargetId)
    | DeleteOrganisation(org: OrgId)

  /** The queue absorbs a job whose id it already holds. */
  function Add(q: Queue, id: ScanId, attempt: int): Queue {
    if id in q then q else q[id := Job(attempt, Waiting)]
  }

  /** A job a worker holds cannot be removed. */
  function Remove(q: Queue, id: ScanId): Queue {
    if id in q && !q[id].phase.Active? then q - {id} else q
  }

  /** The completed scan `findFirst` may return: no other completed scan of the target is later. */
  ghost predicate MayBeChosen(db: Db, target: TargetId, id: ScanId, prev: Option<ScanId>) {
    match prev
    case None => forall q :: IsCompleted(db, q, target) ==> q == id
    case Some(p) =>
      && IsCompleted(db, p, target) && p != id
      && forall q :: IsCompleted(db, q, target) && q != id ==> !CompletedLater(db, q, p)
  }

  predicate CompletedLater(db: Db, a: ScanId, b: ScanId)
    requires a in db.rows && b in db.rows
  {
    LaterTime(db.rows[a].completedAt, db.rows[b].completedAt)
  }

  /** Descending order puts a missing completion time first. */
  predicate LaterTime(x: Option<nat>, y: Option<nat>) {
    y.Some? && (x.None? || x.value > y.value)
  }

  function ProcAt(s: State, i: nat): Process {
    if i < |s.procs| then s.procs[i] else Done
  }

  function TargetsOf(db: Db, org: OrgId): set<TargetId> {
    set t | t in db.owners && db.owners[t] == org
  }

  ghost predicate Enabled(s: State, l: Label) {
    match l
    case StartScan(newId, request, scannable) => Hits(s.db, Reserve(newId, request, scannable))
    case EnqueueStarted(i, _) => ProcAt(s, i).Starting?
    case ReadForControl(id, action) => id in s.db.rows && PlanAllowed(action, s.db.rows[id].status)
    case ClearResume(i, _) => ProcAt(s, i).Controlling? && ProcAt(s, i).action.Resume?
    case ApplyControl(i) =>
      var p := ProcAt(s, i);
      p.ResumeCleared? || (p.Controlling? && !p.action.Resume?)
    case DeliverCancel(i, _) => ProcAt(s, i).CancelDelivering?
    case DeliverResume(i, _) => ProcAt(s, i).ResumeDelivering?
    case RollBackResume(i) => ProcAt(s, i).RollingBack?
    case Engage => Hits(s.db, HaltAll)
    case RemoveAborted(i, id) => ProcAt(s, i).Halting? && id in ProcAt(s, i).aborted
    case Disengage => Hits(s.db, Release)
    case BeginSweep => !s.db.engaged
    case ReadCandidate(i, id) => ProcAt(s, i).Sweeping? && StatusIn(s.db, id, {QUEUED})
    case LookForJob(i) => ProcAt(s, i).Candidate?
    case EndLost(i) => ProcAt(s, i).JobMissing?
    case Requeue(i, _) => ProcAt(s, i).JobMissing?
    case TakeJob(id) => id in s.queue && s.queue[id].phase.Waiting?
    case StallJob(id) => id in s.queue && s.queue[id].phase.Active?
    case FailStalled(id) => id in s.queue && s.queue[id].phase.Active?
    case ExpireJob(id) => id in s.queue && s.queue[id].phase.FailedKept?
    case ReadScan(i) => ProcAt(s, i).Delivered?
    case ClaimScan(i) => ProcAt(s, i).Claiming?
    case StopEngine(i) => ProcAt(s, i).Scanning?
    case SeeKillSwitch(i) => ProcAt(s, i).Scanning?
    case ConfirmKillSwitch(i, _) => ProcAt(s, i).KillSwitchSeen?
    case PassCheckpoint(i) => ProcAt(s, i).Scanning?
    case ChoosePrevious(i, _, prev) =>
      ProcAt(s, i).Detecting? && MayBeChosen(s.db, s.procs[i].work.target, s.procs[i].work.id, prev)
    case ReadPrevious(i) => ProcAt(s, i).PreviousChosen?
    case PersistResults(i) => ProcAt(s, i).Persisting?
    case Throw(i) =>
      var p := ProcAt(s, i);
      p.Scanning? || p.KillSwitchSeen? || p.Detecting? || p.PreviousChosen? || p.Persisting?
    case MarkScanFailed(i) => ProcAt(s, i).WorkerFailing?
    case SettleJob(i) => ProcAt(s, i).WorkerEnding?
    case ChangeLimit(_, _) => true
    case RegisterTarget(target, org) => Hits(s.db, AddTarget(target, org))
    case DeleteTarget(target) => target in s.db.owners
    case DeleteOrganisation(org) => TargetsOf(s.db, org) != {}
  }

  /** The transaction a step commits. */
  ghost function OpOf(s: State, l: Label): DbOp
    requires Enabled(s, l)
  {
    match l
    case StartScan(newId, request, scannable) => Reserve(newId, request, scannable)
    case ApplyControl(i) =>
      if s.procs[i].ResumeCleared? then Control(s.procs[i].id, Resume, PAUSED)
      else Control(s.procs[i].id, s.procs[i].action, s.procs[i].seen)
    case RollBackResume(i) => Rollback(s.procs[i].id)
    case Engage => HaltAll
    case Disengage => Release
    case EndLost(i) => EndScan(s.procs[i].id)
    case ClaimScan(i) => Claim(s.procs[i].work.id, s.procs[i].work.attempt)
    case PassCheckpoint(i) => Checkpoint(s.procs[i].work.id)
    case PersistResults(i) => Persist(s.procs[i].work.id, s.procs[i].found, s.procs[i].diff)
    case MarkScanFailed(i) => MarkFailed(s.procs[i].work.id)
    case ChangeLimit(org, limit) => SetLimit(org, limit)
    case RegisterTarget(target, org) => AddTarget(target, org)
    case DeleteTarget(target) => DeleteTargets({target})
    case DeleteOrganisation(org) => DeleteTargets(TargetsOf(s.db, org))
    case _ => NoOp
  }

  /** Where the stepping process goes; `hit` says whether its transaction wrote anything. */
  ghost function Continue(s: State, l: Label, p: Process): Process
    requires Enabled(s, l) && Stepping(l).Some? && Stepping(l).value < |s.procs| && p == s.procs[Stepping(l).value]
  {
    var hit := Hits(s.db, OpOf(s, l));
    match l
    case ClearResume(_, scannable) => if s.db.engaged || !scannable then Done else ResumeCleared(p.id)
    case ApplyControl(_) =>
      if !hit then Done
      else if p.ResumeCleared? then ResumeDelivering(p.id, s.db.rows[p.id].attempt + 1)
      else if p.action.Cancel? then CancelDelivering(p.id)
      else Done
    case DeliverResume(_, ok) => if ok then Done else RollingBack(p.id)
    case RemoveAborted(_, id) => Halting(p.aborted - {id})
    case ReadCandidate(_, _) => p
    case LookForJob(_) => if p.id in s.queue then Done else JobMissing(p.id)
    case ReadScan(_) =>
      if p.id in s.db.rows then Claiming(Work(p.id, p.attempt, s.db.rows[p.id].target)) else WorkerEnding(p.id, true)
    case ClaimScan(_) => if hit then Scanning(p.work) else WorkerEnding(p.work.id, false)
    case StopEngine(_) => WorkerEnding(p.work.id, false)
    case SeeKillSwitch(_) => KillSwitchSeen(p.work)
    case ConfirmKillSwitch(_, readable) =>
      if readable && s.db.engaged then WorkerEnding(p.work.id, false) else WorkerFailing(p.work, false)
    case PassCheckpoint(_) => if hit then Detecting(p.work) else WorkerEnding(p.work.id, false)
    case ChoosePrevious(_, found, prev) => PreviousChosen(p.work, found, prev)
    case ReadPrevious(_) =>
      var previous := match p.prev case None => [] case Some(q) => FindingsOf(s.db, q);
      Persisting(p.work, p.found, DiffRecords(p.work.id, p.work.target, p.found, previous))
    case PersistResults(_) => WorkerEnding(p.work.id, false)
    case Throw(_) => WorkerFailing(p.work, true)
    case MarkScanFailed(_) => WorkerEnding(p.work.id, p.rethrow)
    case _ => Done
  }

  /** The process that takes the step, when the step continues one. */
  function Stepping(l: Label): Option<nat> {
    match l
    case EnqueueStarted(i, _) => Some(i)
    case ClearResume(i, _) => Some(i)
    case ApplyControl(i) => Some(i)
    case DeliverCancel(i, _) => Some(i)
    case DeliverResume(i, _) => Some(i)
    case RollBackResume(i) => Some(i)
    case RemoveAborted(i, _) => Some(i)
    case ReadCandidate(i, _) => Some(i)
    case LookForJob(i) => Some(i)
    case EndLost(i) => Some(i)
    case Requeue(i, _) => Some(i)
    case ReadScan(i) => Some(i)
    case ClaimScan(i) => Some(i)
    case StopEngine(i) => Some(i)
    case SeeKillSwitch(i) => Some(i)
    case ConfirmKillSwitch(i, _) => Some(i)
    case PassCheckpoint(i) => Some(i)
    case ChoosePrevious(i, _, _) => Some(i)
    case ReadPrevious(i) => Some(i)
    case PersistResults(i) => Some(i)
    case Throw(i) => Some(i)
    case MarkScanFailed(i) => Some(i)
    case SettleJob(i) => Some(i)
    case _ => None
  }

  /** The process a step starts, if any. */
  ghost function Spawned(s: State, l: Label): seq<Process>
    requires Enabled(s, l)
  {
    match l
    case StartScan(newId, _, _) => [Starting(newId)]
    case ReadForControl(id, action) => [Controlling(id, action, s.db.rows[id].status)]
    case Engage => [Halting(set id | id in s.db.rows && OccupiesQuota(s.db.rows[id].status))]
    case BeginSweep => [Sweeping]
    case ReadCandidate(_, id) => [Candidate(id)]
    case TakeJob(id) => [Delivered(id, s.queue[id].attempt)]
    case _ => []
  }

  ghost function ProcsAfter(s: State, l: Label): seq<Process>
    requires Enabled(s, l)
  {
    match Stepping(l)
    case None => s.procs + Spawned(s, l)
    case Some(i) => s.procs[i := Continue(s, l, s.procs[i])] + Spawned(s, l)
  }

  ghost function QueueAfter(s: State, l: Label): Queue
    requires Enabled(s, l)
  {
    match l
    case EnqueueStarted(i, ok) => if ok then Add(s.queue, s.procs[i].id, 1) else s.queue
    case DeliverCancel(i, ok) => if ok then Remove(s.queue, s.procs[i].id) else s.queue
    case DeliverResume(i, ok) => if ok then Add(s.queue, s.procs[i].id, s.procs[i].attempt) else s.queue
    case RemoveAborted(_, id) => Remove(s.queue, id)
    case Requeue(i, ok) => if ok then Add(s.queue, s.procs[i].id, 1) else s.queue
    case TakeJob(id) => s.queue[id := s.queue[id].(phase := Active(|s.procs|))]
    case StallJob(id) => s.queue[id := s.queue[id].(phase := Waiting)]
    case FailStalled(id) => s.queue[id := s.queue[id].(phase := FailedKept)]
    case ExpireJob(id) => s.queue - {id}
    case SettleJob(i) =>
      var id := s.procs[i].id;
      if id !in s.queue || s.queue[id].phase != Active(i) then s.queue
      else if s.procs[i].failed then s.queue[id := s.queue[id].(phase := FailedKept)]
      else s.queue - {id}
    case _ => s.queue
  }

  ghost function Apply(s: State, l: Label): State
    requires Enabled(s, l)
  {
    State(Execute(s.db, OpOf(s, l)), QueueAfter(s, l), ProcsAfter(s, l))
  }

  /** No scans yet; the switch, the quotas and the targets are whatever they are. */
  ghost predicate Initial(s: State) {
    && s.db.rows == map[] && s.db.findings == map[] && s.db.diffs == map[] && s.queue == map[] && s.procs == []
    && s.db.usedScans == {} && s.db.owners.Keys <= s.db.usedTargets
  }

  datatype Run = Run(states: seq<State>, labels: seq<Label>)

  ghost predicate IsRun(r: Run) {
    && |r.states| == |r.labels| + 1
    && Initial(r.states[0])
    && forall k :: 0 <= k < |r.labels| ==>
         Enabled(r.states[k], r.labels[k]) && r.states[k + 1] == Apply(r.states[k], r.labels[k])
  }

  /** The transaction committed by the run's k-th step. */
  ghost function OpAt(r: Run, k: nat): DbOp
    requires IsRun(r) && k < |r.labels|
  {
    OpOf(r.states[k], r.labels[k])
  }
}
