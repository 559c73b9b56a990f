/**
 * The code that performs the writes: the reservation, the controls, the kill
 * switch, the worker's guarded updates and the reconciler, each proved to commit
 * exactly the transaction the protocol says it does.
 */
module ScanStore {
  import opened Lifecycle
  import opened Options
  import opened TriageDiff
  import opened ScanDatabase
  import opened ScanProtocol

  datatype ControlOutcome =
    | Applied
    | ScanNotFound
    | IllegalTransition(status: Status)
    | ControlKillSwitchEngaged
    | ControlTargetNotFound
    | ControlTargetNotScannable
    | QueueUnavailable

  datatype Summary = Summary(examined: nat, requeued: nat, refused: nat, abandoned: nat)

  /** What a sweep knows about a lost scan: how old the request is and whether its target may still be scanned. */
  datatype Lost = Lost(id: ScanId, tooOld: bool, scannable: bool)

  /** The jobs of the given scans are gone, except those a worker holds; every other job stays. */
  ghost predicate JobsRemoved(before: Queue, after: Queue, ids: set<ScanId>) {
    && (forall id :: id in after <==> id in before && (id in ids ==> before[id].phase.Active?))
    && (forall id :: id in after ==> id in before && after[id] == before[id])
  }

  /** The target is gone, with the rows, findings and diffs of its scans and of no others. */
  ghost predicate OnlyTargetGone(before: Db, after: Db, target: TargetId) {
    && target !in after.owners
    && (forall id :: id in after.rows <==> id in before.rows && before.rows[id].target != target)
    && (forall id :: id in after.rows ==> after.rows[id] == before.rows[id])
    && (forall id :: id in before.rows && id !in after.rows ==> FindingsOf(after, id) == [] && DiffsOf(after, id) == [])
  }

  /** The scan is completed with what was found and how it compares; no other scan's row, findings or diff is touched. */
  ghost predicate Completed(before: Db, after: Db, id: ScanId, found: seq<Fingerprint>, diff: seq<DiffRecord>) {
    && id in before.rows && after.rows.Keys == before.rows.Keys
    && after.rows[id].status == COMPLETED && after.rows[id].completedAt == Some(before.clock)
    && after.rows[id].findingsCount == |found| && after.rows[id].attempt == before.rows[id].attempt
    && FindingsOf(after, id) == FindingsOf(before, id) + found && DiffsOf(after, id) == DiffsOf(before, id) + diff
    && (forall q :: q in before.rows && q != id ==> after.rows[q] == before.rows[q])
    && (forall q :: q != id ==> FindingsOf(after, q) == FindingsOf(before, q) && DiffsOf(after, q) == DiffsOf(before, q))
  }

  lemma PersistCompletes(db: Db, id: ScanId, found: seq<Fingerprint>, diff: seq<DiffRecord>)
    ensures Hits(db, Persist(id, found, diff)) <==> id in db.rows && db.rows[id].status == RUNNING
    ensures if StatusIn(db, id, {RUNNING}) then Completed(db, Execute(db, Persist(id, found, diff)), id, found, diff)
            else Execute(db, Persist(id, found, diff)) == db
  {
  }

  lemma DeletionOfOne(db: Db, target: TargetId)
    requires target in db.owners
    ensures OnlyTargetGone(db, Execute(db, DeleteTargets({target})), target)
  {
    assert target in {target} * db.owners.Keys;
    var scans := ScansOf(db, {target});
    assert forall id :: id in scans <==> id in db.rows && db.rows[id].target == target;
  }

  class Store {
    var rows: map<ScanId, Row>
    var findings: map<ScanId, seq<Fingerprint>>
    var diffs: map<ScanId, seq<DiffRecord>>
    var engaged: bool
    var limits: map<OrgId, nat>
    var rateCaps: map<OrgId, nat>
    var owners: map<TargetId, OrgId>
    var clock: nat
    var jobs: Queue
    ghost var usedScans: set<ScanId>
    ghost var usedTargets: set<TargetId>

    ghost function Tables(): Db
      reads this
    {
      Db(rows, findings, diffs, engaged, limits, rateCaps, owners, clock, usedScans, usedTargets)
    }

    // ------------------------------------------------------------ reservation

    method ReserveScan(id: ScanId, request: Request, scannable: bool)
      returns (refusal: Option<Refusal>, holder: Option<ScanId>)
      requires id !in usedScans
      modifies this
      ensures refusal == ReservationRefusal(old(Tables()), request, scannable)
      ensures ReservedAsDue(old(Tables()), request, scannable, refusal)
      ensures Tables() == Execute(old(Tables()), Reserve(id, request, scannable)) && jobs == old(jobs)
      ensures if refusal.None? then OnlyReserved(old(Tables()), Tables(), id, request) else Tables() == old(Tables())
      ensures refusal == Some(TargetAlreadyActive) ==>
        holder.Some? && IsActive(Tables(), holder.value) && rows[holder.value].target == request.target
    {
      ReservationIsDue(Tables(), request, scannable);
      ReservationWrites(Tables(), id, request, scannable);
      refusal, holder := Reserved(id, request, scannable);
    }

    /** The transaction. */
    method Reserved(id: ScanId, request: Request, scannable: bool)
      returns (refusal: Option<Refusal>, holder: Option<ScanId>)
      requires id !in usedScans
      modifies this`rows, this`usedScans
      ensures refusal == ReservationRefusal(old(Tables()), request, scannable)
      ensures Tables() == Execute(old(Tables()), Reserve(id, request, scannable))
      ensures refusal == Some(TargetAlreadyActive) ==>
        holder.Some? && IsActive(Tables(), holder.value) && rows[holder.value].target == request.target
    {
      holder := None;
      if engaged { return Some(KillSwitchEngaged), None; }
      var limit := if request.org in limits then limits[request.org] else DEFAULT_LIMIT;
      if limit == 0 { return Some(OrgScanningSuspended), None; }
      var cap := if request.org in rateCaps then rateCaps[request.org] else request.rate;
      if request.rate > cap && request.rateExplicit { return Some(RateLimitAboveQuota(cap)), None; }
      var rate := if request.rate <= cap then request.rate else cap;

      var active := set a | a in rows && rows[a].org == request.org && OccupiesQuota(rows[a].status);
      assert active == ActiveOf(Tables(), request.org);
      if |active| >= limit { return Some(OrgConcurrency(limit)), None; }
      if request.target !in owners || owners[request.target] != request.org { return Some(TargetNotFound), None; }
      if !scannable { return Some(TargetNotScannable), None; }

      var rivals := set a | a in active && rows[a].target == request.target;
      assert rivals == ActiveAgainst(Tables(), request.org, request.target);
      if rivals != {} {
        var rival :| rival in rivals;
        return Some(TargetAlreadyActive), Some(rival);
      }
      rows := rows[id := Row(request.org, request.target, QUEUED, 1, rate, None, 0)];
      usedScans := usedScans + {id};
      refusal := None;
    }

    // --------------------------------------------------------- the worker's row

    method ClaimScan(id: ScanId, jobAttempt: int) returns (claimed: bool)
      modifies this
      ensures claimed == Hits(old(Tables()), Claim(id, jobAttempt))
      ensures Tables() == Execute(old(Tables()), Claim(id, jobAttempt)) && jobs == old(jobs)
    {
      claimed := id in rows && rows[id].status in {QUEUED, RUNNING} && rows[id].attempt == jobAttempt;
      if claimed {
        rows := rows[id := rows[id].(status := RUNNING)];
      }
    }

    /** The findings of the target's latest completed scan other than this one. */
    method PreviousScanFingerprints(target: TargetId, id: ScanId)
      returns (prev: Option<ScanId>, fingerprints: seq<Fingerprint>)
      ensures MayBeChosen(Tables(), target, id, prev)
      ensures fingerprints == match prev case None => [] case Some(p) => FindingsOf(Tables(), p)
    {
      var candidates := set q | q in rows && rows[q].status == COMPLETED && rows[q].target == target && q != id;
      var todo := candidates;
      prev := None;
      while todo != {}
        invariant todo <= candidates
        invariant prev.None? ==> todo == candidates
        invariant prev.Some? ==> prev.value in candidates
        invariant prev.Some? ==> forall q :: q in candidates && q !in todo ==>
          !LaterTime(rows[q].completedAt, rows[prev.value].completedAt)
        decreases todo
      {
        var q :| q in todo;
        todo := todo - {q};
        if prev.None? || LaterTime(rows[q].completedAt, rows[prev.value].completedAt) {
          prev := Some(q);
        }
      }
      assert forall q :: IsCompleted(Tables(), q, target) && q != id ==> q in candidates;
      match prev
      case None => fingerprints := [];
      case Some(p) => fingerprints := if p in findings then findings[p] else [];
    }

    /** All or nothing: a scan that is no longer running keeps nothing of what was found. */
    method PersistResults(id: ScanId, found: seq<Fingerprint>, diff: seq<DiffRecord>) returns (persisted: bool)
      modifies this
      ensures persisted == Hits(old(Tables()), Persist(id, found, diff))
      ensures Tables() == Execute(old(Tables()), Persist(id, found, diff)) && jobs == old(jobs)
      ensures persisted <==> old(id in rows && rows[id].status == RUNNING)
      ensures if persisted then Completed(old(Tables()), Tables(), id, found, diff) else Tables() == old(Tables())
    {
      PersistCompletes(Tables(), id, found, diff);
      persisted := id in rows && rows[id].status == RUNNING;
      if persisted { WriteResults(id, found, diff); }
    }

    method WriteResults(id: ScanId, found: seq<Fingerprint>, diff: seq<DiffRecord>)
      requires id in rows && rows[id].status == RUNNING
      modifies this`rows, this`clock, this`findings, this`diffs
      ensures Tables() == Execute(old(Tables()), Persist(id, found, diff))
    {
      rows := rows[id := rows[id].(status := COMPLETED, completedAt := Some(clock), findingsCount := |found|)];
      clock := clock + 1;
      CreateFindings(id, found);
      diffs := diffs[id := (if id in diffs then diffs[id] else []) + diff];
    }

    method CreateFindings(id: ScanId, found: seq<Fingerprint>)
      modifies this`findings
      ensures findings == old(findings)[id := FindingsOf(old(Tables()), id) + found]
    {
      var created: seq<Fingerprint> := if id in findings then findings[id] else [];
      ghost var before := created;
      for k := 0 to |found|
        invariant created == before + found[..k]
      {
        created := created + [found[k]];
      }
      assert before + found[..|found|] == before + found;
      findings := findings[id := created];
    }

    method MarkScanFailed(id: ScanId) returns (failed: bool)
      modifies this
      ensures failed == Hits(old(Tables()), MarkFailed(id))
      ensures Tables() == Execute(old(Tables()), MarkFailed(id)) && jobs == old(jobs)
    {
      failed := id in rows && rows[id].status == RUNNING;
      if failed {
        rows := rows[id := rows[id].(status := FAILED)];
      }
    }

    // ---------------------------------------------------------- the kill switch

    /** Sets the switch and aborts everything active, unless it is set already. */
    method HaltAll() returns (aborted: Option<set<ScanId>>)
      modifies this`engaged, this`rows, this`clock
      ensures Tables() == Execute(old(Tables()), ScanDatabase.HaltAll)
      ensures aborted.None? <==> old(engaged)
      ensures aborted.Some? ==> forall id :: id in aborted.value <==> IsActive(old(Tables()), id)
    {
      if engaged { return None; }
      engaged := true;
      var active := set id | id in rows && OccupiesQuota(rows[id].status);
      rows := map id | id in rows ::
        if id in active then rows[id].(status := ABORTED_SAFETY, completedAt := Some(clock)) else rows[id];
      clock := clock + 1;
      aborted := Some(active);
    }

    method EngageKillSwitch() returns (aborted: Option<set<ScanId>>)
      modifies this
      ensures Tables() == Execute(old(Tables()), ScanDatabase.HaltAll)
      ensures aborted.None? <==> old(engaged)
      ensures aborted.Some? ==> forall id :: id in aborted.value <==> IsActive(old(Tables()), id)
      ensures if aborted.Some? then JobsRemoved(old(jobs), jobs, aborted.value) else jobs == old(jobs)
    {
      aborted := HaltAll();
      if aborted.Some? {
        RemoveScanJobs(aborted.value);
      }
    }

    /** Drops the jobs of the given scans, except the ones a worker already holds. */
    method RemoveScanJobs(ids: set<ScanId>)
      modifies this`jobs
      ensures JobsRemoved(old(jobs), jobs, ids)
    {
      var todo := ids;
      while todo != {}
        invariant todo <= ids && JobsRemoved(old(jobs), jobs, ids - todo)
        decreases todo
      {
        var id :| id in todo;
        ghost var done := ids - todo;
        OneMoreRemoved(old(jobs), jobs, done, id);
        assert ids - (todo - {id}) == done + {id};
        todo := todo - {id};
        jobs := Remove(jobs, id);
      }
      assert ids - todo == ids;
    }

    method ReleaseKillSwitch() returns (released: bool)
      modifies this
      ensures released == old(engaged)
      ensures Tables() == Execute(old(Tables()), Release) && jobs == old(jobs)
    {
      released := engaged;
      engaged := false;
    }

    // ------------------------------------------------------------- the controls

    /**
     * Pause, resume or cancel, undisturbed. A control either commits its one
     * compare-and-set and hands it to the queue, or leaves the tables as they
     * were; in particular a resume the queue refuses is undone completely.
     */
    method ControlScan(id: ScanId, org: OrgId, action: Action, scannable: bool, queueUp: bool)
      returns (outcome: ControlOutcome)
      modifies this
      ensures outcome == ScanNotFound <==> !Found(old(Tables()), id, org)
      ensures outcome.IllegalTransition? <==>
        Found(old(Tables()), id, org) && !PlanAllowed(action, old(rows)[id].status)
      ensures outcome == ControlKillSwitchEngaged <==> Resuming(old(Tables()), id, org, action) && old(engaged)
      ensures outcome == ControlTargetNotFound <==>
        Resuming(old(Tables()), id, org, action) && !old(engaged) && old(rows)[id].target !in old(owners)
      ensures outcome == ControlTargetNotScannable <==>
        && Resuming(old(Tables()), id, org, action) && !old(engaged)
        && old(rows)[id].target in old(owners) && !scannable
      ensures outcome == QueueUnavailable <==>
        && Resuming(old(Tables()), id, org, action) && !old(engaged)
        && old(rows)[id].target in old(owners) && scannable && !queueUp
      ensures outcome == Applied <==>
        && Found(old(Tables()), id, org) && PlanAllowed(action, old(rows)[id].status)
        && (action == Resume ==> !old(engaged) && old(rows)[id].target in old(owners) && scannable && queueUp)
      ensures outcome != Applied ==> Tables() == old(Tables()) && jobs == old(jobs)
      ensures outcome == Applied ==>
        && Tables() == Execute(old(Tables()), Control(id, action, old(rows)[id].status))
        && jobs == (match action
                    case Pause => old(jobs)
                    case Resume => Add(old(jobs), id, old(rows)[id].attempt + 1)
                    case Cancel => if queueUp then Remove(old(jobs), id) else old(jobs))
    {
      ghost var before := Tables();
      RefusalsAreDue(before, id, org, action, scannable);
      var refusal := ControlRefusal(id, org, action, scannable);
      if refusal.Some? { return refusal.value; }
      ApplyControl(id, action);
      outcome := DeliverControl(id, action, rows[id].attempt, queueUp);
      RollbackUndoesResume(before, id);
    }

    /** The first reason to refuse a control, in the order they are looked for. */
    method ControlRefusal(id: ScanId, org: OrgId, action: Action, scannable: bool)
      returns (refusal: Option<ControlOutcome>)
      ensures refusal == DueRefusal(Tables(), id, org, action, scannable)
    {
      if id !in rows || rows[id].org != org { return Some(ScanNotFound); }
      if !PlanAllowed(action, rows[id].status) { return Some(IllegalTransition(rows[id].status)); }
      if action != Resume { return None; }
      if engaged { return Some(ControlKillSwitchEngaged); }
      if rows[id].target !in owners { return Some(ControlTargetNotFound); }
      return if scannable then None else Some(ControlTargetNotScannable);
    }

    method ApplyControl(id: ScanId, action: Action)
      requires id in rows
      modifies this`rows
      ensures Tables() == Execute(old(Tables()), Control(id, action, old(rows)[id].status))
    {
      rows := rows[id := rows[id].(status := Destination(action),
                                   attempt := rows[id].attempt + if action == Resume then 1 else 0)];
    }

    /** Hands a committed control to the queue; a resume it refuses goes back to PAUSED. */
    method DeliverControl(id: ScanId, action: Action, attempt: int, queueUp: bool) returns (outcome: ControlOutcome)
      modifies this`rows, this`jobs
      ensures outcome == if action == Resume && !queueUp then QueueUnavailable else Applied
      ensures rows == if outcome == QueueUnavailable then Execute(old(Tables()), Rollback(id)).rows else old(rows)
      ensures jobs == (match action
                       case Pause => old(jobs)
                       case Resume => if queueUp then Add(old(jobs), id, attempt) else old(jobs)
                       case Cancel => if queueUp then Remove(old(jobs), id) else old(jobs))
    {
      match action {
        case Pause =>
        case Cancel =>
          if queueUp { jobs := Remove(jobs, id); }
        case Resume =>
          if !queueUp {
            if id in rows && rows[id].status == RUNNING {
              rows := rows[id := rows[id].(status := PAUSED, attempt := rows[id].attempt - 1)];
            }
            return QueueUnavailable;
          }
          jobs := Add(jobs, id, attempt);
      }
      outcome := Applied;
    }

    // ------------------------------------------------------------------ targets

    method RegisterTarget(target: TargetId, org: OrgId)
      requires target !in usedTargets
      modifies this
      ensures Tables() == Execute(old(Tables()), AddTarget(target, org)) && jobs == old(jobs)
    {
      owners := owners[target := org];
      usedTargets := usedTargets + {target};
    }

    /**
     * Deletes an organisation's own target. Its scans, whatever their status, go
     * with their findings and diffs; no other scan changes, and the queue is not told.
     */
    method DeleteTarget(target: TargetId, org: OrgId) returns (found: bool)
      modifies this`owners, this`rows, this`findings, this`diffs
      ensures found <==> target in old(owners) && old(owners)[target] == org
      ensures Tables() == if found then Execute(old(Tables()), DeleteTargets({target})) else old(Tables())
      ensures found ==> OnlyTargetGone(old(Tables()), Tables(), target)
    {
      found := target in owners && owners[target] == org;
      if !found { return; }
      ghost var before := Tables();
      var scans := set id | id in rows && rows[id].target == target;
      assert scans == ScansOf(before, {target});
      assert target in {target} * owners.Keys;
      DeletionOfOne(before, target);
      owners := owners - {target};
      rows := rows - scans;
      findings := findings - scans;
      diffs := diffs - scans;
    }

    // ----------------------------------------------------------- the reconciler

    /** End a scan that is never going to run, unless it started meanwhile. */
    method EndLostScan(id: ScanId) returns (ended: bool)
      modifies this`rows, this`clock
      ensures ended == Hits(old(Tables()), EndScan(id))
      ensures Tables() == Execute(old(Tables()), EndScan(id))
    {
      ended := id in rows && rows[id].status == QUEUED;
      if ended {
        rows := rows[id := rows[id].(status := FAILED, completedAt := Some(clock))];
        clock := clock + 1;
      }
    }

    /**
     * Decide the fate of a scan found without a job. By now it may have moved on,
     * been deleted, or got a job: only a row still QUEUED is ended, and a job the
     * queue holds absorbs the new one.
     */
    method ReconcileOne(scan: Lost, queueUp: bool) returns (done: Disposition)
      modifies this`rows, this`clock, this`jobs
      ensures RowDecided(old(Tables()), Tables(), scan)
      ensures forall id :: id != scan.id ==> SameRow(old(Tables()), Tables(), id)
      ensures jobs == if !Ends(scan) && queueUp then Add(old(jobs), scan.id, 1) else old(jobs)
      ensures done == DispositionOf(scan, StatusIn(old(Tables()), scan.id, {QUEUED}), queueUp)
    {
      if scan.tooOld {
        var ended := EndLostScan(scan.id);
        return if ended then Abandoned else Unchanged;
      }
      if !scan.scannable {
        var ended := EndLostScan(scan.id);
        return if ended then Refused else Unchanged;
      }
      if !queueUp { return Unchanged; }
      jobs := Add(jobs, scan.id, 1);
      done := Requeued;
    }

    /**
     * One sweep over the rows a query found QUEUED. Afterwards every candidate the
     * queue does not hold has been ended, if it was still QUEUED, or has a
     * first-attempt job waiting, except while the queue is down; everything else
     * is untouched.
     */
    method ReconcileScans(candidates: seq<Lost>, queueUp: bool) returns (summary: Summary)
      requires forall j, k :: 0 <= j < k < |candidates| ==> candidates[j].id != candidates[k].id
      modifies this
      ensures old(engaged) ==> summary == Summary(0, 0, 0, 0) && Tables() == old(Tables()) && jobs == old(jobs)
      ensures !old(engaged) ==> AllSwept(old(Tables()), Tables(), old(jobs), jobs, candidates, queueUp)
      ensures OthersUntouched(old(Tables()), Tables(), old(jobs), jobs, candidates)
      ensures findings == old(findings) && diffs == old(diffs) && engaged == old(engaged) && owners == old(owners)
      ensures summary.requeued + summary.refused + summary.abandoned <= summary.examined
      ensures queueUp && AllQueued(old(Tables()), candidates) ==>
        summary.requeued + summary.refused + summary.abandoned == summary.examined
    {
      summary := Summary(0, 0, 0, 0);
      if engaged { return; }
      for n := 0 to |candidates|
        invariant AllSwept(old(Tables()), Tables(), old(jobs), jobs, candidates[..n], queueUp)
        invariant OthersUntouched(old(Tables()), Tables(), old(jobs), jobs, candidates[..n])
        invariant findings == old(findings) && diffs == old(diffs) && engaged == old(engaged) && owners == old(owners)
        invariant summary.requeued + summary.refused + summary.abandoned <= summary.examined
        invariant queueUp && AllQueued(old(Tables()), candidates) ==>
          summary.requeued + summary.refused + summary.abandoned == summary.examined
      {
        var scan := candidates[n];
        assert NotAmong(candidates[..n], scan.id);
        assert Untouched(old(Tables()), Tables(), old(jobs), jobs, scan.id);
        ghost var mid, midJobs := Tables(), jobs;
        if scan.id in jobs {
          SweepOneMore(old(Tables()), mid, mid, old(jobs), midJobs, midJobs, candidates, n, queueUp);
          continue;
        }
        var disposition := ReconcileOne(scan, queueUp);
        SweptOne(mid, Tables(), midJobs, jobs, scan, queueUp);
        SweepOneMore(old(Tables()), mid, Tables(), old(jobs), midJobs, jobs, candidates, n, queueUp);
        summary := Counted(summary, disposition);
      }
      assert candidates[..|candidates|] == candidates;
    }
  }

  ghost predicate Found(db: Db, id: ScanId, org: OrgId) {
    id in db.rows && db.rows[id].org == org
  }

  ghost function DueRefusal(db: Db, id: ScanId, org: OrgId, action: Action, scannable: bool): Option<ControlOutcome> {
    if !Found(db, id, org) then Some(ScanNotFound)
    else if !PlanAllowed(action, db.rows[id].status) then Some(IllegalTransition(db.rows[id].status))
    else if action != Resume then None
    else if db.engaged then Some(ControlKillSwitchEngaged)
    else if db.rows[id].target !in db.owners then Some(ControlTargetNotFound)
    else if !scannable then Some(ControlTargetNotScannable)
    else None
  }

  lemma RefusalsAreDue(db: Db, id: ScanId, org: OrgId, action: Action, scannable: bool)
    ensures var r := DueRefusal(db, id, org, action, scannable);
            && (r == Some(ScanNotFound) <==> !Found(db, id, org))
            && (r.Some? && r.value.IllegalTransition? <==>
                Found(db, id, org) && !PlanAllowed(action, db.rows[id].status))
            && (r == Some(ControlKillSwitchEngaged) <==> Resuming(db, id, org, action) && db.engaged)
            && (r == Some(ControlTargetNotFound) <==>
                Resuming(db, id, org, action) && !db.engaged && db.rows[id].target !in db.owners)
            && (r == Some(ControlTargetNotScannable) <==>
                Resuming(db, id, org, action) && !db.engaged && db.rows[id].target in db.owners && !scannable)
            && (r.Some? ==> r.value != Applied && r.value != QueueUnavailable)
            && (r.None? <==>
                && Found(db, id, org) && PlanAllowed(action, db.rows[id].status)
                && (action == Resume ==> !db.engaged && db.rows[id].target in db.owners && scannable))
  {
  }

  /** Resuming a paused scan and rolling the resume back changes nothing. */
  lemma RollbackUndoesResume(db: Db, id: ScanId)
    ensures Hits(db, Control(id, Resume, PAUSED)) ==>
      Execute(Execute(db, Control(id, Resume, PAUSED)), Rollback(id)) == db
  {
    if Hits(db, Control(id, Resume, PAUSED)) {
      assert Execute(Execute(db, Control(id, Resume, PAUSED)), Rollback(id)).rows == db.rows;
    }
  }

  /** A resume of a scan that may be resumed. */
  ghost predicate Resuming(db: Db, id: ScanId, org: OrgId, action: Action) {
    action == Resume && Found(db, id, org) && PlanAllowed(action, db.rows[id].status)
  }

  lemma OneMoreRemoved(before: Queue, after: Queue, ids: set<ScanId>, id: ScanId)
    requires JobsRemoved(before, after, ids)
    ensures JobsRemoved(before, Remove(after, id), ids + {id})
  {
  }

  datatype Disposition = Requeued | Refused | Abandoned | Unchanged

  function Counted(s: Summary, d: Disposition): Summary {
    var one := s.(examined := s.examined + 1);
    match d
    case Requeued => one.(requeued := s.requeued + 1)
    case Refused => one.(refused := s.refused + 1)
    case Abandoned => one.(abandoned := s.abandoned + 1)
    case Unchanged => one
  }

  /** A scan too old, or no longer allowed, is ended rather than delivered. */
  predicate Ends(scan: Lost) {
    scan.tooOld || !scan.scannable
  }

  function DispositionOf(scan: Lost, queued: bool, queueUp: bool): Disposition {
    if Ends(scan) then (if !queued then Unchanged else if scan.tooOld then Abandoned else Refused)
    else if queueUp then Requeued
    else Unchanged
  }

  ghost predicate SameRow(before: Db, after: Db, id: ScanId) {
    (id in after.rows <==> id in before.rows) && (id in after.rows ==> after.rows[id] == before.rows[id])
  }

  ghost predicate Untouched(before: Db, after: Db, queued: Queue, queuedAfter: Queue, id: ScanId) {
    && SameRow(before, after, id)
    && (id in queuedAfter <==> id in queued) && (id in queuedAfter ==> queuedAfter[id] == queued[id])
  }

  /** A row still queued fails if it is to be ended; any other row stays. */
  ghost predicate RowDecided(before: Db, after: Db, scan: Lost) {
    if Ends(scan) && StatusIn(before, scan.id, {QUEUED}) then StatusIn(after, scan.id, {FAILED})
    else SameRow(before, after, scan.id)
  }

  /** What a sweep does with one candidate. */
  ghost predicate Swept(before: Db, after: Db, queued: Queue, queuedAfter: Queue, scan: Lost, queueUp: bool) {
    if scan.id in queued then Untouched(before, after, queued, queuedAfter, scan.id)
    else
      && RowDecided(before, after, scan)
      && (scan.id in queuedAfter <==> !Ends(scan) && queueUp)
      && (scan.id in queuedAfter ==> queuedAfter[scan.id] == Job(1, Waiting))
  }

  lemma SweptOne(before: Db, after: Db, queued: Queue, queuedAfter: Queue, scan: Lost, queueUp: bool)
    requires RowDecided(before, after, scan) && scan.id !in queued
    requires forall id :: id != scan.id ==> SameRow(before, after, id)
    requires queuedAfter == if !Ends(scan) && queueUp then Add(queued, scan.id, 1) else queued
    ensures Swept(before, after, queued, queuedAfter, scan, queueUp)
    ensures forall id :: id != scan.id ==> Untouched(before, after, queued, queuedAfter, id)
  {
  }

  ghost predicate AllQueued(db: Db, scans: seq<Lost>) {
    forall k :: 0 <= k < |scans| ==> StatusIn(db, scans[k].id, {QUEUED})
  }

  ghost predicate AllSwept(before: Db, after: Db, queued: Queue, queuedAfter: Queue, scans: seq<Lost>, queueUp: bool) {
    forall k :: 0 <= k < |scans| ==> Swept(before, after, queued, queuedAfter, scans[k], queueUp)
  }

  ghost predicate OthersUntouched(before: Db, after: Db, queued: Queue, queuedAfter: Queue, scans: seq<Lost>) {
    forall id :: NotAmong(scans, id) ==> Untouched(before, after, queued, queuedAfter, id)
  }

  ghost predicate NotAmong(scans: seq<Lost>, id: ScanId) {
    forall k :: 0 <= k < |scans| ==> scans[k].id != id
  }

  lemma SweepOneMore(before: Db, mid: Db, after: Db, q0: Queue, q1: Queue, q2: Queue,
                     scans: seq<Lost>, n: nat, queueUp: bool)
    requires n < |scans|
    requires forall j, k :: 0 <= j < k < |scans| ==> scans[j].id != scans[k].id
    requires AllSwept(before, mid, q0, q1, scans[..n], queueUp)
    requires OthersUntouched(before, mid, q0, q1, scans[..n])
    requires Swept(mid, after, q1, q2, scans[n], queueUp)
    requires forall id :: id != scans[n].id ==> Untouched(mid, after, q1, q2, id)
    ensures AllSwept(before, after, q0, q2, scans[..n + 1], queueUp)
    ensures OthersUntouched(before, after, q0, q2, scans[..n + 1])
  {
    var done, more := scans[..n], scans[..n + 1];
    assert more == done + [scans[n]];
    assert NotAmong(done, scans[n].id);
    forall k | 0 <= k < |more| ensures Swept(before, after, q0, q2, more[k], queueUp) {
      if k < n {
        assert Swept(before, mid, q0, q1, done[k], queueUp);
        assert Untouched(mid, after, q1, q2, more[k].id);
      }
    }
    forall id | NotAmong(more, id) ensures Untouched(before, after, q0, q2, id) {
      assert more[n].id != id;
      forall k | 0 <= k < n ensures done[k].id != id {
        assert more[k].id != id;
      }
      assert NotAmong(done, id);
      assert Untouched(before, mid, q0, q1, id) && Untouched(mid, after, q1, q2, id);
    }
  }
}
