/** The comparison of one scan's findings with the previous scan's. */
module TriageDiff {
  type Fingerprint = string

  datatype Comparison = NEW | PERSISTING | RESOLVED

  datatype TriageState = OPEN | CONFIRMED | FALSE_POSITIVE | ACCEPTED_RISK | TRIAGE_RESOLVED

  datatype DiffRecord = DiffRecord(scan: nat, target: nat, fingerprint: Fingerprint, status: Comparison)

  datatype TriageRecord = TriageRecord(target: nat, fingerprint: Fingerprint, state: TriageState)

  datatype Triaged = Triaged(fingerprint: Fingerprint, triage: TriageState, status: Comparison)

  function FingerprintSet(fs: seq<Fingerprint>): set<Fingerprint> {
    set f | f in fs
  }

  /** A record for every finding of this scan: PERSISTING when the previous scan had it, NEW when not. */
  function Reported(scan: nat, target: nat, current: seq<Fingerprint>, previous: set<Fingerprint>): seq<DiffRecord> {
    if current == [] then []
    else
      Reported(scan, target, current[..|current| - 1], previous)
      + [DiffRecord(scan, target, current[|current| - 1],
                    if current[|current| - 1] in previous then PERSISTING else NEW)]
  }

  /** A RESOLVED record for every finding of the previous scan that this one lacks. */
  function Gone(scan: nat, target: nat, previous: seq<Fingerprint>, current: set<Fingerprint>): seq<DiffRecord> {
    if previous == [] then []
    else
      Gone(scan, target, previous[..|previous| - 1], current)
      + (var f := previous[|previous| - 1];
         if f in current then [] else [DiffRecord(scan, target, f, RESOLVED)])
  }

  function DiffRecords(scan: nat, target: nat, current: seq<Fingerprint>, previous: seq<Fingerprint>): seq<DiffRecord> {
    Reported(scan, target, current, FingerprintSet(previous))
    + Gone(scan, target, previous, FingerprintSet(current))
  }

  /** The latest decision recorded for the target and fingerprint, OPEN when there is none. */
  function Carried(records: seq<TriageRecord>, target: nat, f: Fingerprint): TriageState {
    if records == [] then OPEN
    else
      var r := records[|records| - 1];
      if r.target == target && r.fingerprint == f then r.state
      else Carried(records[..|records| - 1], target, f)
  }

  predicate Decides(r: TriageRecord, target: nat, f: Fingerprint) {
    r.target == target && r.fingerprint == f
  }

  /** The decision carried is the last one recorded for this target and fingerprint. */
  lemma {:induction false} CarriedIsLatest(records: seq<TriageRecord>, target: nat, f: Fingerprint, i: nat)
    requires i < |records| && Decides(records[i], target, f)
    requires forall j :: i < j < |records| ==> !Decides(records[j], target, f)
    ensures Carried(records, target, f) == records[i].state
  {
    if i < |records| - 1 {
      CarriedIsLatest(records[..|records| - 1], target, f, i);
    }
  }

  lemma {:induction false} OpenWhenNoneDecides(records: seq<TriageRecord>, target: nat, f: Fingerprint)
    requires forall i :: 0 <= i < |records| ==> !Decides(records[i], target, f)
    ensures Carried(records, target, f) == OPEN
  {
    if records != [] {
      OpenWhenNoneDecides(records[..|records| - 1], target, f);
    }
  }

  method ProcessScanTriage(target: nat, scan: nat, current: seq<Fingerprint>,
                           prior: seq<TriageRecord>, previous: seq<Fingerprint>)
    returns (triaged: seq<Triaged>, diffs: seq<DiffRecord>)
    ensures diffs == DiffRecords(scan, target, current, previous)
    ensures |triaged| == |current|
    ensures forall k :: 0 <= k < |current| ==>
      triaged[k] == Triaged(current[k], Carried(prior, target, current[k]),
                            if current[k] in previous then PERSISTING else NEW)
  {
    var decisions: map<Fingerprint, TriageState> := map[];
    for i := 0 to |prior|
      invariant forall f :: (f in decisions ==> decisions[f] == Carried(prior[..i], target, f))
                         && (f !in decisions ==> Carried(prior[..i], target, f) == OPEN)
    {
      assert prior[..i + 1][..i] == prior[..i];
      if prior[i].target == target {
        decisions := decisions[prior[i].fingerprint := prior[i].state];
      }
    }
    assert prior[..|prior|] == prior;

    var before := set f | f in previous;
    var now := set f | f in current;
    triaged, diffs := [], [];
    for i := 0 to |current|
      invariant |triaged| == i
      invariant forall k :: 0 <= k < i ==>
        triaged[k] == Triaged(current[k], Carried(prior, target, current[k]),
                              if current[k] in previous then PERSISTING else NEW)
      invariant diffs == Reported(scan, target, current[..i], FingerprintSet(previous))
    {
      assert current[..i + 1][..i] == current[..i];
      var f := current[i];
      var status := if f in before then PERSISTING else NEW;
      triaged := triaged + [Triaged(f, if f in decisions then decisions[f] else OPEN, status)];
      diffs := diffs + [DiffRecord(scan, target, f, status)];
    }
    assert current[..|current|] == current;

    for i := 0 to |previous|
      invariant diffs == Reported(scan, target, current, FingerprintSet(previous))
                       + Gone(scan, target, previous[..i], FingerprintSet(current))
    {
      assert previous[..i + 1][..i] == previous[..i];
      if previous[i] !in now {
        diffs := diffs + [DiffRecord(scan, target, previous[i], RESOLVED)];
      }
    }
    assert previous[..|previous|] == previous;
  }

  /** The fingerprints a diff gives one status. */
  function WithStatus(diffs: seq<DiffRecord>, status: Comparison): set<Fingerprint> {
    set d | d in diffs && d.status == status :: d.fingerprint
  }

  /** What replaying a scan's stored diff does to a set of fingerprints. */
  function Replay(before: set<Fingerprint>, diffs: seq<DiffRecord>): set<Fingerprint> {
    (before + WithStatus(diffs, NEW)) - WithStatus(diffs, RESOLVED)
  }

  lemma {:induction false} ReportedMeaning(scan: nat, target: nat, current: seq<Fingerprint>, previous: set<Fingerprint>)
    ensures var r := Reported(scan, target, current, previous);
            forall d ::
              d in r <==> (d.scan == scan && d.target == target && d.fingerprint in current &&
                           d.status == if d.fingerprint in previous then PERSISTING else NEW)
  {
    if current != [] {
      ReportedMeaning(scan, target, current[..|current| - 1], previous);
      assert current == current[..|current| - 1] + [current[|current| - 1]];
    }
  }

  lemma {:induction false} GoneMeaning(scan: nat, target: nat, previous: seq<Fingerprint>, current: set<Fingerprint>)
    ensures var r := Gone(scan, target, previous, current);
            forall d ::
              d in r <==> (d.scan == scan && d.target == target && d.fingerprint in previous &&
                           d.fingerprint !in current && d.status == RESOLVED)
  {
    if previous != [] {
      GoneMeaning(scan, target, previous[..|previous| - 1], current);
      assert previous == previous[..|previous| - 1] + [previous[|previous| - 1]];
    }
  }

  /**
   * A stored diff says exactly what changed between the two scans, so replaying
   * it over the previous scan's fingerprints gives this scan's.
   */
  lemma DiffSaysWhatChanged(scan: nat, target: nat, current: seq<Fingerprint>, previous: seq<Fingerprint>)
    ensures var d := DiffRecords(scan, target, current, previous);
            && WithStatus(d, NEW) == FingerprintSet(current) - FingerprintSet(previous)
            && WithStatus(d, PERSISTING) == FingerprintSet(current) * FingerprintSet(previous)
            && WithStatus(d, RESOLVED) == FingerprintSet(previous) - FingerprintSet(current)
            && Replay(FingerprintSet(previous), d) == FingerprintSet(current)
  {
    var was, now := FingerprintSet(previous), FingerprintSet(current);
    ReportedMeaning(scan, target, current, was);
    GoneMeaning(scan, target, previous, now);
    var d := DiffRecords(scan, target, current, previous);
    forall f | f in now - was ensures f in WithStatus(d, NEW) {
      assert DiffRecord(scan, target, f, NEW) in d;
    }
    forall f | f in now * was ensures f in WithStatus(d, PERSISTING) {
      assert DiffRecord(scan, target, f, PERSISTING) in d;
    }
    forall f | f in was - now ensures f in WithStatus(d, RESOLVED) {
      assert DiffRecord(scan, target, f, RESOLVED) in d;
    }
    assert WithStatus(d, NEW) == now - was;
    assert WithStatus(d, RESOLVED) == was - now;
  }
}
