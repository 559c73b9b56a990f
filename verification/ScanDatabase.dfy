/**
 * The scan tables as a value, and every committed write the system makes to them.
 *
 * Each operation is one transaction: a guard that says whether the write matches
 * a row (`Hits`) and the tables it leaves behind (`Execute`). A write whose guard
 * fails leaves the tables as they were, which is what `updateMany` matching no row
 * and a transaction rolled back have in common.
 */
module ScanDatabase {
  import opened Lifecycle
  import opened Options
  import opened TriageDiff

  type ScanId = nat
  type OrgId = nat
  type TargetId = nat

  datatype Row = Row(org: OrgId, target: TargetId, status: Status, attempt: int, rateLimit: nat,
                     completedAt: Option<nat>, findingsCount: nat)

  /**
   * `findings` and `diffs` hold the rows of their tables grouped by scan; a scan
   * without an entry has no rows. `limits` and `rateCaps` hold the organisations'
   * quotas, `owners` the organisation of each target. `clock` is the next
   * completion time to be handed out, so completion times follow commit order.
   * `usedScans` and `usedTargets` are the ids ever handed out: no id is handed out
   * twice, so a target that has an id but no owner was deleted.
   */
  datatype Db = Db(rows: map<ScanId, Row>,
                   findings: map<ScanId, seq<Fingerprint>>,
                   diffs: map<ScanId, seq<DiffRecord>>,
                   engaged: bool,
                   limits: map<OrgId, nat>,
                   rateCaps: map<OrgId, nat>,
                   owners: map<TargetId, OrgId>,
                   clock: nat,
                   usedScans: set<ScanId>,
                   usedTargets: set<TargetId>)

  function FindingsOf(db: Db, id: ScanId): seq<Fingerprint> {
    if id in db.findings then db.findings[id] else []
  }

  function DiffsOf(db: Db, id: ScanId): seq<DiffRecord> {
    if id in db.diffs then db.diffs[id] else []
  }

  predicate IsActive(db: Db, id: ScanId) {
    id in db.rows && OccupiesQuota(db.rows[id].status)
  }

  predicate IsDone(db: Db, id: ScanId) {
    id in db.rows && db.rows[id].status == COMPLETED
  }

  predicate IsCompleted(db: Db, id: ScanId, target: TargetId) {
    IsDone(db, id) && db.rows[id].target == target
  }

  function ActiveOf(db: Db, org: OrgId): set<ScanId> {
    set id | id in db.rows && db.rows[id].org == org && OccupiesQuota(db.rows[id].status)
  }

  function ActiveAgainst(db: Db, org: OrgId, target: TargetId): set<ScanId> {
    set id | id in ActiveOf(db, org) && db.rows[id].target == target
  }

  const DEFAULT_LIMIT: nat := 2

  function LimitOf(db: Db, org: OrgId): nat {
    if org in db.limits then db.limits[org] else DEFAULT_LIMIT
  }

  function RateCapOf(db: Db, org: OrgId, requested: nat): nat {
    if org in db.rateCaps then db.rateCaps[org] else requested
  }

  datatype Request = Request(org: OrgId, target: TargetId, rate: nat, rateExplicit: bool)

  datatype Refusal =
    | KillSwitchEngaged
    | OrgScanningSuspended
    | RateLimitAboveQuota(cap: nat)
    | OrgConcurrency(limit: nat)
    | TargetNotFound
    | TargetNotScannable
    | TargetAlreadyActive

  /** The first reason, in the transaction's own order, to refuse a reservation. */
  function ReservationRefusal(db: Db, r: Request, scannable: bool): Option<Refusal> {
    var limit := LimitOf(db, r.org);
    var cap := RateCapOf(db, r.org, r.rate);
    if db.engaged then Some(KillSwitchEngaged)
    else if limit == 0 then Some(OrgScanningSuspended)
    else if r.rate > cap && r.rateExplicit then Some(RateLimitAboveQuota(cap))
    else if |ActiveOf(db, r.org)| >= limit then Some(OrgConcurrency(limit))
    else if r.target !in db.owners || db.owners[r.target] != r.org then Some(TargetNotFound)
    else if !scannable then Some(TargetNotScannable)
    else if ActiveAgainst(db, r.org, r.target) != {} then Some(TargetAlreadyActive)
    else None
  }

  // ----------------------------------------------- a reservation, by what holds of the tables

  /** The organisation's scans that are queued, running or paused. */
  ghost function Slots(db: Db, org: OrgId): set<ScanId> {
    set id | id in db.rows && db.rows[id].org == org && db.rows[id].status in {QUEUED, RUNNING, PAUSED}
  }

  ghost predicate Suspended(db: Db, org: OrgId) {
    org in db.limits && db.limits[org] == 0
  }

  ghost predicate AsksTooMuch(db: Db, r: Request) {
    r.rateExplicit && r.org in db.rateCaps && r.rate > db.rateCaps[r.org]
  }

  /** An organisation without a limit of its own may have two. */
  ghost predicate NoSlotLeft(db: Db, org: OrgId) {
    |Slots(db, org)| >= if org in db.limits then db.limits[org] else 2
  }

  ghost predicate OwnsTarget(db: Db, r: Request) {
    r.target in db.owners && db.owners[r.target] == r.org
  }

  ghost predicate TargetTaken(db: Db, r: Request) {
    exists id :: id in Slots(db, r.org) && db.rows[id].target == r.target
  }

  /** Nothing stands against the request. */
  ghost predicate MayReserve(db: Db, r: Request, scannable: bool) {
    && !db.engaged && !Suspended(db, r.org) && !AsksTooMuch(db, r) && !NoSlotLeft(db, r.org)
    && OwnsTarget(db, r) && scannable && !TargetTaken(db, r)
  }

  /** Each answer is given exactly when its own reason holds and none before it does. */
  ghost predicate ReservedAsDue(db: Db, r: Request, scannable: bool, answer: Option<Refusal>) {
    var fits := !db.engaged && !Suspended(db, r.org) && !AsksTooMuch(db, r);
    && (answer == Some(KillSwitchEngaged) <==> db.engaged)
    && (answer == Some(OrgScanningSuspended) <==> !db.engaged && Suspended(db, r.org))
    && (answer.Some? && answer.value.RateLimitAboveQuota? <==>
          !db.engaged && !Suspended(db, r.org) && AsksTooMuch(db, r))
    && (answer.Some? && answer.value.RateLimitAboveQuota? ==> answer.value.cap == db.rateCaps[r.org])
    && (answer.Some? && answer.value.OrgConcurrency? <==> fits && NoSlotLeft(db, r.org))
    && (answer.Some? && answer.value.OrgConcurrency? ==>
          answer.value.limit == if r.org in db.limits then db.limits[r.org] else 2)
    && (answer == Some(TargetNotFound) <==> fits && !NoSlotLeft(db, r.org) && !OwnsTarget(db, r))
    && (answer == Some(TargetNotScannable) <==>
          fits && !NoSlotLeft(db, r.org) && OwnsTarget(db, r) && !scannable)
    && (answer == Some(TargetAlreadyActive) <==>
          fits && !NoSlotLeft(db, r.org) && OwnsTarget(db, r) && scannable && TargetTaken(db, r))
    && (answer.None? <==> MayReserve(db, r, scannable))
  }

  lemma ReservationIsDue(db: Db, r: Request, scannable: bool)
    ensures ReservedAsDue(db, r, scannable, ReservationRefusal(db, r, scannable))
  {
    assert Slots(db, r.org) == ActiveOf(db, r.org);
    assert TargetTaken(db, r) <==> ActiveAgainst(db, r.org, r.target) != {} by {
      if ActiveAgainst(db, r.org, r.target) != {} {
        var id :| id in ActiveAgainst(db, r.org, r.target);
        assert id in Slots(db, r.org) && db.rows[id].target == r.target;
      }
      if TargetTaken(db, r) {
        var id :| id in Slots(db, r.org) && db.rows[id].target == r.target;
        assert id in ActiveAgainst(db, r.org, r.target);
      }
    }
  }

  /** The tables with the scan as requested: queued, first attempt, at the smaller of the rate asked for and the cap. */
  ghost predicate OnlyReserved(before: Db, after: Db, id: ScanId, r: Request) {
    && id in after.rows && after.rows == before.rows[id := after.rows[id]]
    && after == before.(rows := after.rows, usedScans := before.usedScans + {id})
    && var row := after.rows[id];
       && row.org == r.org && row.target == r.target && row.status == QUEUED && row.attempt == 1
       && row.completedAt.None? && row.findingsCount == 0
       && row.rateLimit <= r.rate && (r.org in before.rateCaps ==> row.rateLimit <= before.rateCaps[r.org])
       && (row.rateLimit == r.rate || (r.org in before.rateCaps && row.rateLimit == before.rateCaps[r.org]))
  }

  lemma ReservationWrites(db: Db, id: ScanId, r: Request, scannable: bool)
    requires id !in db.usedScans
    ensures var after := Execute(db, Reserve(id, r, scannable));
            if MayReserve(db, r, scannable) then OnlyReserved(db, after, id, r) else after == db
  {
    ReservationIsDue(db, r, scannable);
  }

  datatype DbOp =
    | NoOp
    | Reserve(id: ScanId, request: Request, scannable: bool)
    | Claim(id: ScanId, jobAttempt: int)
    | Checkpoint(id: ScanId)
    | Persist(id: ScanId, found: seq<Fingerprint>, diff: seq<DiffRecord>)
    | MarkFailed(id: ScanId)
    | Control(id: ScanId, action: Action, seen: Status)
    | Rollback(id: ScanId)
    | EndScan(id: ScanId)
    | HaltAll
    | Release
    | SetLimit(org: OrgId, limit: nat)
    | AddTarget(target: TargetId, org: OrgId)
    | DeleteTargets(gone: set<TargetId>)

  predicate StatusIn(db: Db, id: ScanId, statuses: set<Status>) {
    id in db.rows && db.rows[id].status in statuses
  }

  /** Whether the operation's guard holds, that is, whether it writes anything. */
  predicate Hits(db: Db, op: DbOp) {
    match op
    case NoOp => false
    case Reserve(id, r, scannable) => id !in db.usedScans && ReservationRefusal(db, r, scannable).None?
    case Claim(id, attempt) => StatusIn(db, id, {QUEUED, RUNNING}) && db.rows[id].attempt == attempt
    case Checkpoint(id) => StatusIn(db, id, {RUNNING})
    case Persist(id, _, _) => StatusIn(db, id, {RUNNING})
    case MarkFailed(id) => StatusIn(db, id, {RUNNING})
    case Control(id, _, seen) => StatusIn(db, id, {seen})
    case Rollback(id) => StatusIn(db, id, {RUNNING})
    case EndScan(id) => StatusIn(db, id, {QUEUED})
    case HaltAll => !db.engaged
    case Release => db.engaged
    case SetLimit(_, _) => true
    case AddTarget(target, _) => target !in db.usedTargets
    case DeleteTargets(gone) => gone * db.owners.Keys != {}
  }

  function WithRow(db: Db, id: ScanId, row: Row): Db {
    db.(rows := db.rows[id := row])
  }

  function Halted(row: Row, now: nat): Row {
    if OccupiesQuota(row.status) then row.(status := ABORTED_SAFETY, completedAt := Some(now)) else row
  }

  function Execute(db: Db, op: DbOp): Db {
    if !Hits(db, op) then db else
    match op
    case NoOp => db
    case Reserve(id, r, _) =>
      var cap := RateCapOf(db, r.org, r.rate);
      WithRow(db, id, Row(r.org, r.target, QUEUED, 1, if r.rate <= cap then r.rate else cap, None, 0))
      .(usedScans := db.usedScans + {id})
    case Claim(id, _) => WithRow(db, id, db.rows[id].(status := RUNNING))
    case Checkpoint(id) => db
    case Persist(id, found, diff) =>
      var done := db.rows[id].(status := COMPLETED, completedAt := Some(db.clock), findingsCount := |found|);
      WithRow(db, id, done).(findings := db.findings[id := FindingsOf(db, id) + found],
                             diffs := db.diffs[id := DiffsOf(db, id) + diff],
                             clock := db.clock + 1)
    case MarkFailed(id) => WithRow(db, id, db.rows[id].(status := FAILED))
    case Control(id, action, _) =>
      WithRow(db, id, db.rows[id].(status := Destination(action),
                                   attempt := db.rows[id].attempt + if action.Resume? then 1 else 0))
    case Rollback(id) =>
      WithRow(db, id, db.rows[id].(status := PAUSED, attempt := db.rows[id].attempt - 1))
    case EndScan(id) =>
      WithRow(db, id, db.rows[id].(status := FAILED, completedAt := Some(db.clock))).(clock := db.clock + 1)
    case HaltAll =>
      db.(engaged := true, rows := map id | id in db.rows :: Halted(db.rows[id], db.clock), clock := db.clock + 1)
    case Release => db.(engaged := false)
    case SetLimit(org, limit) => db.(limits := db.limits[org := limit])
    case AddTarget(target, org) =>
      db.(owners := db.owners[target := org], usedTargets := db.usedTargets + {target})
    case DeleteTargets(gone) =>
      var scans := ScansOf(db, gone);
      db.(owners := db.owners - gone, rows := db.rows - scans,
          findings := db.findings - scans, diffs := db.diffs - scans)
  }

  /** The scans a deletion of targets cascades to. */
  function ScansOf(db: Db, targets: set<TargetId>): set<ScanId> {
    set id | id in db.rows && db.rows[id].target in targets
  }
}
