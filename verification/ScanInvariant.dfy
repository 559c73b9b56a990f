/** What every single write keeps true of the scan tables. */
module ScanInvariant {
  import opened Lifecycle
  import opened Options
  import opened TriageDiff
  import opened ScanDatabase

  /** Every id in the tables was handed out, so none of them will be handed out again. */
  ghost predicate IdsAreUsed(db: Db) {
    db.rows.Keys <= db.usedScans && db.owners.Keys <= db.usedTargets
  }

  ghost predicate OwnersAgree(db: Db) {
    forall id :: id in db.rows ==>
      db.rows[id].target in db.owners && db.owners[db.rows[id].target] == db.rows[id].org
  }

  /** A target has at most one scan that is queued, running or paused. */
  ghost predicate OneActivePerTarget(db: Db) {
    forall a, b :: IsActive(db, a) && IsActive(db, b) && db.rows[a].target == db.rows[b].target ==> a == b
  }

  /** While the kill switch is engaged nothing is queued, running or paused. */
  ghost predicate NothingActiveWhileEngaged(db: Db) {
    db.engaged ==> forall id :: id in db.rows ==> !IsActive(db, id)
  }

  ghost predicate AttemptsMatchStatus(db: Db) {
    forall id :: id in db.rows && db.rows[id].status == QUEUED ==> db.rows[id].attempt == 1
  }

  /** Only a completed scan has finding or diff rows, and its count is their number. */
  ghost predicate ResultsOnlyWhenCompleted(db: Db) {
    && (forall id :: FindingsOf(db, id) != [] || DiffsOf(db, id) != [] ==>
          id in db.rows && db.rows[id].status == COMPLETED)
    && (forall id :: id in db.rows ==> |FindingsOf(db, id)| == db.rows[id].findingsCount)
  }

  /** Completed scans carry distinct completion times, all in the past. */
  ghost predicate CompletionTimes(db: Db) {
    && (forall id :: IsDone(db, id) ==> CompletedInThePast(db, id))
    && (forall a, b :: IsDone(db, a) && IsDone(db, b) && a != b ==> db.rows[a].completedAt != db.rows[b].completedAt)
  }

  predicate CompletedInThePast(db: Db, id: ScanId)
    requires id in db.rows
  {
    db.rows[id].completedAt.Some? && db.rows[id].completedAt.value < db.clock
  }

  ghost predicate Before(db: Db, a: ScanId, b: ScanId) {
    && a in db.rows && b in db.rows
    && db.rows[a].completedAt.Some? && db.rows[b].completedAt.Some?
    && db.rows[a].completedAt.value < db.rows[b].completedAt.value
  }

  /** `prev` is the completed scan of the target that finished last before `id`; None when there is none. */
  ghost predicate ComesRightBefore(db: Db, target: TargetId, prev: Option<ScanId>, id: ScanId) {
    match prev
    case None => forall q :: IsCompleted(db, q, target) ==> !Before(db, q, id)
    case Some(p) =>
      && IsCompleted(db, p, target) && Before(db, p, id)
      && forall q :: IsCompleted(db, q, target) && Before(db, q, id) ==> q == p || Before(db, q, p)
  }

  /** `prev` is the target's latest completed scan other than `self`; None when there is none. */
  ghost predicate IsLatest(db: Db, target: TargetId, self: ScanId, prev: Option<ScanId>) {
    match prev
    case None => forall q :: IsCompleted(db, q, target) ==> q == self
    case Some(p) =>
      && IsCompleted(db, p, target) && p != self
      && forall q :: IsCompleted(db, q, target) && q != self ==> q == p || Before(db, q, p)
  }

  function FindingsOfPrevious(db: Db, prev: Option<ScanId>): seq<Fingerprint> {
    match prev
    case None => []
    case Some(p) => FindingsOf(db, p)
  }

  /** The stored diff of a completed scan compares it with the scan completed right before it. */
  ghost predicate DiffsFollowHistory(db: Db) {
    forall id, target, prev ::
      IsCompleted(db, id, target) && ComesRightBefore(db, target, prev, id) ==>
      DiffsOf(db, id) == DiffRecords(id, target, FindingsOf(db, id), FindingsOfPrevious(db, prev))
  }

  ghost predicate Inv(db: Db) {
    && IdsAreUsed(db)
    && OwnersAgree(db)
    && OneActivePerTarget(db)
    && NothingActiveWhileEngaged(db)
    && AttemptsMatchStatus(db)
    && ResultsOnlyWhenCompleted(db)
    && CompletionTimes(db)
    && DiffsFollowHistory(db)
  }

  /**
   * What the protocol owes a write that is about to hit: a control was planned
   * from the status it guards on, and the diff being persisted was taken against
   * the scan that is still the target's latest.
   */
  ghost predicate Justified(db: Db, op: DbOp) {
    match op
    case Control(_, action, seen) => PlanAllowed(action, seen)
    case Persist(id, found, diff) =>
      Hits(db, op) ==>
        exists prev :: IsLatest(db, db.rows[id].target, id, prev) &&
                       diff == DiffRecords(id, db.rows[id].target, found, FindingsOfPrevious(db, prev))
    case _ => true
  }

  /** The scan's row, findings and diff are in both tables, and the same. */
  ghost predicate SameRecord(a: Db, b: Db, id: ScanId) {
    && id in a.rows && id in b.rows && a.rows[id] == b.rows[id]
    && FindingsOf(a, id) == FindingsOf(b, id) && DiffsOf(a, id) == DiffsOf(b, id)
  }

  /** The scan went with its target: no row, finding or diff of it is left. */
  ghost predicate Deleted(a: Db, b: Db, id: ScanId) {
    && id in a.rows && a.rows[id].target !in b.owners
    && id !in b.rows && FindingsOf(b, id) == [] && DiffsOf(b, id) == []
  }

  /** No completed scan is new or changed, and one that is gone went with its target. */
  ghost predicate KeptOrDeleted(a: Db, b: Db, id: ScanId) {
    && (StatusIn(b, id, {COMPLETED}) ==> SameRecord(a, b, id))
    && (StatusIn(a, id, {COMPLETED}) ==> SameRecord(a, b, id) || Deleted(a, b, id))
  }

  predicate Completes(db: Db, op: DbOp, id: ScanId) {
    op.Persist? && Hits(db, op) && op.id == id
  }

  /** Only its own `Persist` completes a scan, no write changes a completed one, and only deleting its target removes it. */
  lemma OnlyPersistWritesResults(db: Db, op: DbOp, id: ScanId)
    requires IdsAreUsed(db) && Justified(db, op) && !Completes(db, op, id)
    ensures KeptOrDeleted(db, Execute(db, op), id)
  {
    if op.DeleteTargets? && Hits(db, op) {
      DeletionIsWhole(db, op, id);
    } else {
      NoneIsNew(db, op, id);
      NoneIsLost(db, op, id);
    }
  }

  /** What is completed after such a write was so before, and the same. */
  lemma NoneIsNew(db: Db, op: DbOp, id: ScanId)
    requires IdsAreUsed(db) && Justified(db, op) && !Completes(db, op, id) && !(op.DeleteTargets? && Hits(db, op))
    ensures IsDone(Execute(db, op), id) ==> SameRecord(db, Execute(db, op), id)
  {
    FindingsUntouched(db, op, id);
  }

  /** What is completed before such a write stays so, and the same. */
  lemma NoneIsLost(db: Db, op: DbOp, id: ScanId)
    requires IdsAreUsed(db) && Justified(db, op) && !Completes(db, op, id) && !(op.DeleteTargets? && Hits(db, op))
    ensures IsDone(db, id) ==> SameRecord(db, Execute(db, op), id)
  {
    FindingsUntouched(db, op, id);
  }

  /** A deletion takes everything of the targets it names and nothing of any other. */
  lemma DeletionIsWhole(db: Db, op: DbOp, id: ScanId)
    requires op.DeleteTargets? && Hits(db, op)
    ensures id in db.rows ==>
      if db.rows[id].target in op.gone then Deleted(db, Execute(db, op), id) else SameRecord(db, Execute(db, op), id)
    ensures id !in db.rows ==> id !in Execute(db, op).rows
  {
    var scans := ScansOf(db, op.gone);
    assert id in scans <==> id in db.rows && db.rows[id].target in op.gone;
  }

  lemma IdsStayUsed(db: Db, op: DbOp)
    requires IdsAreUsed(db)
    ensures IdsAreUsed(Execute(db, op))
    ensures db.usedScans <= Execute(db, op).usedScans && db.usedTargets <= Execute(db, op).usedTargets
  {
  }

  lemma RowsKeepTheirOwner(db: Db, op: DbOp)
    requires IdsAreUsed(db) && OwnersAgree(db)
    ensures OwnersAgree(Execute(db, op))
  {
    if op.DeleteTargets? && Hits(db, op) {
      forall id ensures id in Execute(db, op).rows ==> id in db.rows && db.rows[id].target !in op.gone {
        DeletionIsWhole(db, op, id);
      }
    }
  }

  lemma ActiveSlotsStaySingle(db: Db, op: DbOp)
    requires IdsAreUsed(db) && OwnersAgree(db) && OneActivePerTarget(db) && Justified(db, op)
    ensures OneActivePerTarget(Execute(db, op))
  {
    var db' := Execute(db, op);
    if op.Reserve? && Hits(db, op) {
      forall a | a != op.id && IsActive(db', a) ensures db.rows[a].target != op.request.target {
        assert a !in ActiveAgainst(db, op.request.org, op.request.target);
      }
    } else {
      forall a | IsActive(db', a) ensures IsActive(db, a) && db'.rows[a].target == db.rows[a].target {
      }
    }
  }

  lemma EngagedStaysEmpty(db: Db, op: DbOp)
    requires NothingActiveWhileEngaged(db) && Justified(db, op)
    ensures NothingActiveWhileEngaged(Execute(db, op))
  {
  }

  lemma QueuedStaysFirstAttempt(db: Db, op: DbOp)
    requires AttemptsMatchStatus(db)
    ensures AttemptsMatchStatus(Execute(db, op))
  {
  }

  lemma FindingsUntouched(db: Db, op: DbOp, id: ScanId)
    requires !Completes(db, op, id) && !(op.DeleteTargets? && Hits(db, op))
    ensures FindingsOf(Execute(db, op), id) == FindingsOf(db, id) && DiffsOf(Execute(db, op), id) == DiffsOf(db, id)
  {
  }

  lemma CountUntouched(db: Db, op: DbOp, id: ScanId)
    requires IdsAreUsed(db) && !Completes(db, op, id) && !(op.DeleteTargets? && Hits(db, op))
    requires id in Execute(db, op).rows
    ensures Execute(db, op).rows[id].findingsCount == if id in db.rows then db.rows[id].findingsCount else 0
  {
  }

  lemma CountsStay(db: Db, op: DbOp, id: ScanId)
    requires IdsAreUsed(db) && ResultsOnlyWhenCompleted(db) && Justified(db, op) && id in Execute(db, op).rows
    ensures |FindingsOf(Execute(db, op), id)| == Execute(db, op).rows[id].findingsCount
  {
    if Completes(db, op, id) {
      assert FindingsOf(db, id) == [];
    } else if op.DeleteTargets? && Hits(db, op) {
      DeletionIsWhole(db, op, id);
    } else {
      FindingsUntouched(db, op, id);
      CountUntouched(db, op, id);
      assert id !in db.rows ==> FindingsOf(db, id) == [];
    }
  }

  lemma RowsOfCompletedOnly(db: Db, op: DbOp, id: ScanId)
    requires IdsAreUsed(db) && ResultsOnlyWhenCompleted(db) && Justified(db, op)
    requires FindingsOf(Execute(db, op), id) != [] || DiffsOf(Execute(db, op), id) != []
    ensures StatusIn(Execute(db, op), id, {COMPLETED})
  {
    if !Completes(db, op, id) {
      OnlyPersistWritesResults(db, op, id);
    }
  }

  lemma ResultsStayWithCompleted(db: Db, op: DbOp)
    requires IdsAreUsed(db) && ResultsOnlyWhenCompleted(db) && Justified(db, op)
    ensures ResultsOnlyWhenCompleted(Execute(db, op))
  {
    var db' := Execute(db, op);
    forall id | FindingsOf(db', id) != [] || DiffsOf(db', id) != [] ensures StatusIn(db', id, {COMPLETED}) {
      RowsOfCompletedOnly(db, op, id);
    }
    forall id | id in db'.rows ensures |FindingsOf(db', id)| == db'.rows[id].findingsCount {
      CountsStay(db, op, id);
    }
  }

  lemma CompletionTimeOf(db: Db, op: DbOp, id: ScanId)
    requires IdsAreUsed(db) && CompletionTimes(db) && Justified(db, op) && IsDone(Execute(db, op), id)
    ensures var at := Execute(db, op).rows[id].completedAt;
            if Completes(db, op, id) then at == Some(db.clock) && Execute(db, op).clock == db.clock + 1
            else IsDone(db, id) && at == db.rows[id].completedAt && CompletedInThePast(db, id)
                 && db.clock <= Execute(db, op).clock
  {
    if !Completes(db, op, id) {
      OnlyPersistWritesResults(db, op, id);
    }
  }

  lemma TimesStayDistinct(db: Db, op: DbOp, a: ScanId, b: ScanId)
    requires IdsAreUsed(db) && CompletionTimes(db) && Justified(db, op)
    requires IsDone(Execute(db, op), a) && IsDone(Execute(db, op), b) && a != b
    ensures Execute(db, op).rows[a].completedAt != Execute(db, op).rows[b].completedAt
  {
    CompletionTimeOf(db, op, a);
    CompletionTimeOf(db, op, b);
  }

  lemma CompletionTimesStayDistinct(db: Db, op: DbOp)
    requires IdsAreUsed(db) && CompletionTimes(db) && Justified(db, op)
    ensures CompletionTimes(Execute(db, op))
  {
    var db' := Execute(db, op);
    forall id | IsDone(db', id) ensures CompletedInThePast(db', id) {
      CompletionTimeOf(db, op, id);
    }
    forall a, b | IsDone(db', a) && IsDone(db', b) && a != b
      ensures db'.rows[a].completedAt != db'.rows[b].completedAt
    {
      TimesStayDistinct(db, op, a, b);
    }
  }

  /** The history before an old scan is untouched by a scan completing later. */
  lemma OldHistoryStands(db: Db, op: DbOp, id: ScanId, target: TargetId, prev: Option<ScanId>)
    requires CompletionTimes(db) && op.Persist? && Hits(db, op) && id != op.id
    requires IsCompleted(Execute(db, op), id, target)
    requires ComesRightBefore(Execute(db, op), target, prev, id)
    ensures IsCompleted(db, id, target) && ComesRightBefore(db, target, prev, id)
    ensures FindingsOfPrevious(Execute(db, op), prev) == FindingsOfPrevious(db, prev)
  {
    var db' := Execute(db, op);
    assert IsDone(db, id) && CompletedInThePast(db, id);
    assert !Before(db', op.id, id);
    forall q | q != op.id ensures IsCompleted(db, q, target) == IsCompleted(db', q, target) {
    }
    forall q, r | q != op.id && r != op.id ensures Before(db, q, r) == Before(db', q, r) {
    }
  }

  /** The scan just completed comes right after the one that was the target's latest. */
  lemma NewestFollowsLatest(db: Db, op: DbOp, prev: Option<ScanId>, latest: Option<ScanId>)
    requires CompletionTimes(db) && op.Persist? && Hits(db, op)
    requires ComesRightBefore(Execute(db, op), db.rows[op.id].target, prev, op.id)
    requires IsLatest(db, db.rows[op.id].target, op.id, latest)
    ensures prev == latest
    ensures FindingsOfPrevious(Execute(db, op), prev) == FindingsOfPrevious(db, prev)
  {
    var db', target := Execute(db, op), db.rows[op.id].target;
    forall q | IsCompleted(db, q, target) ensures IsCompleted(db', q, target) && Before(db', q, op.id) {
    }
    forall q | IsCompleted(db', q, target) && q != op.id ensures IsCompleted(db, q, target) {
    }
    match latest
    case None =>
    case Some(l) =>
      assert Before(db', l, op.id);
      assert prev.Some?;
  }

  lemma CompletionIsDiffed(db: Db, op: DbOp, id: ScanId, target: TargetId, prev: Option<ScanId>)
    requires Inv(db) && Justified(db, op) && op.Persist? && Hits(db, op)
    requires IsCompleted(Execute(db, op), id, target) && ComesRightBefore(Execute(db, op), target, prev, id)
    ensures var db' := Execute(db, op);
            DiffsOf(db', id) == DiffRecords(id, target, FindingsOf(db', id), FindingsOfPrevious(db', prev))
  {
    if id != op.id {
      OldHistoryStands(db, op, id, target, prev);
    } else {
      var latest :| IsLatest(db, target, id, latest) &&
                    op.diff == DiffRecords(id, target, op.found, FindingsOfPrevious(db, latest));
      NewestFollowsLatest(db, op, prev, latest);
      assert FindingsOf(db, id) == [] && DiffsOf(db, id) == [];
      assert FindingsOf(Execute(db, op), id) == op.found;
    }
  }

  lemma OthersStayDiffed(db: Db, op: DbOp, id: ScanId, target: TargetId, prev: Option<ScanId>)
    requires Inv(db) && Justified(db, op) && !(op.Persist? && Hits(db, op))
    requires IsCompleted(Execute(db, op), id, target) && ComesRightBefore(Execute(db, op), target, prev, id)
    ensures var db' := Execute(db, op);
            DiffsOf(db', id) == DiffRecords(id, target, FindingsOf(db', id), FindingsOfPrevious(db', prev))
  {
    var db' := Execute(db, op);
    forall q ensures KeptOrDeleted(db, db', q) {
      OnlyPersistWritesResults(db, op, q);
    }
    RowsKeepTheirOwner(db, op);
    SameHistory(db, db', target, prev, id);
  }

  lemma HistoryStaysDiffed(db: Db, op: DbOp)
    requires Inv(db) && Justified(db, op)
    ensures DiffsFollowHistory(Execute(db, op))
  {
    var db' := Execute(db, op);
    forall id, target, prev | IsCompleted(db', id, target) && ComesRightBefore(db', target, prev, id)
      ensures DiffsOf(db', id) == DiffRecords(id, target, FindingsOf(db', id), FindingsOfPrevious(db', prev))
    {
      if op.Persist? && Hits(db, op) {
        CompletionIsDiffed(db, op, id, target, prev);
      } else {
        OthersStayDiffed(db, op, id, target, prev);
      }
    }
  }

  lemma SameHistory(db: Db, db': Db, target: TargetId, prev: Option<ScanId>, id: ScanId)
    requires (forall q :: KeptOrDeleted(db, db', q)) && target in db'.owners
    requires IsCompleted(db', id, target) && ComesRightBefore(db', target, prev, id)
    ensures ComesRightBefore(db, target, prev, id) && IsCompleted(db, id, target) && SameRecord(db, db', id)
    ensures FindingsOfPrevious(db', prev) == FindingsOfPrevious(db, prev)
  {
    forall q
      ensures IsCompleted(db, q, target) == IsCompleted(db', q, target)
      ensures IsCompleted(db, q, target) ==> SameRecord(db, db', q)
    {
      assert KeptOrDeleted(db, db', q);
    }
  }

  /** Every write that hits for a good reason keeps every invariant. */
  lemma WritesKeepInv(db: Db, op: DbOp)
    requires Inv(db) && Justified(db, op)
    ensures Inv(Execute(db, op))
  {
    IdsStayUsed(db, op);
    RowsKeepTheirOwner(db, op);
    ActiveSlotsStaySingle(db, op);
    EngagedStaysEmpty(db, op);
    QueuedStaysFirstAttempt(db, op);
    ResultsStayWithCompleted(db, op);
    CompletionTimesStayDistinct(db, op);
    HistoryStaysDiffed(db, op);
  }
}
