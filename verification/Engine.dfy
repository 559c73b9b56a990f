/**
 * One run of a scan: the crawl, the TLS probe and the active probes.
 *
 * The probes count from a copy of the crawl's count. What the browser left on the
 * crawl's chain is sent beside them, or after them, and counted by the crawl alone.
 */
module Engine {
  import opened Options
  import opened Guard
  import opened CrawlSpec
  import opened Crawler
  import SharedBudget

  datatype Abort = AbortedByKillSwitch | AbortedByStop

  /** What the kill switch and the status row answer when they are read. */
  datatype Reading = Reading(engaged: bool, stop: bool)

  /** One active probe, and what the world answers to it. */
  datatype Probe = Probe(
    url: Option<Url>,
    verb: string,
    reading: Reading,
    tokenTaken: bool,
    resolvedIps: seq<string>,
    answer: Option<Answer>)

  /** A probe as the guard is asked about it. */
  function RequestOf(probe: Probe, made: int): Request {
    Request(probe.url, probe.verb, probe.tokenTaken, probe.resolvedIps, probe.reading.engaged, 0, made, 0)
  }

  /** What comes after the crawl: the readings of the two checkpoints, and the probes. */
  datatype Later = Later(beforeTls: Reading, beforeDetection: Reading, probes: seq<Probe>)

  /** One of the five connections of the TLS probe; false when the guard refuses it. */
  method Guarded(world: World, p: Policy, entry: Option<Url>, requestsMade: int, ghost me: SharedBudget.Sender)
    returns (ok: bool, spent: int)
    requires world.Balanced() && world.ceiling == p.scope.maxRequests
    requires SharedBudget.Counting(world.events, me, requestsMade)
    modifies world
    ensures world.Balanced() && SharedBudget.Counting(world.events, me, spent)
    ensures old(world.ledger) <= world.ledger && |world.ledger| == old(|world.ledger|) + 1
    ensures world.events == if ok then Attempted(old(world.events), me, true) else old(world.events)
    ensures spent == requestsMade + (if ok then 1 else 0) && (ok ==> requestsMade < p.scope.maxRequests)
    ensures IsSent(world.ledger[|world.ledger| - 1]) <==> ok
  {
    var killSwitch: bool, tokenTaken: bool, resolvedIps: seq<string> := *, *, *;
    var r := Request(entry, "GET", tokenTaken, resolvedIps, killSwitch, 0, requestsMade, 0);
    var refusal := Authorize(world, p, r);
    if refusal.Some? { return false, requestsMade; }
    ApprovalGives(p, r);
    Connect(world, p, resolvedIps[0], requestsMade, me);
    return true, requestsMade + 1;
  }

  /** The approved connection, counted and ledgered. */
  method Connect(world: World, p: Policy, ip: string, requestsMade: int, ghost me: SharedBudget.Sender)
    requires world.Balanced() && SharedBudget.Counting(world.events, me, requestsMade) && requestsMade < world.ceiling
    requires MayContact(p, ip)
    modifies world
    ensures world.Balanced() && SharedBudget.Counting(world.events, me, requestsMade + 1)
    ensures old(world.ledger) <= world.ledger && |world.ledger| == old(|world.ledger|) + 1
    ensures world.events == Attempted(old(world.events), me, true) && IsSent(world.ledger[|world.ledger| - 1])
  {
    CountAndSend(world, me, requestsMade);
    world.Contact(p, ip);
    world.Record(Row(ALLOWED, ip, true));
  }

  /** A sender's whole request, from its count to its row or its refusal. */
  ghost function Attempted(t: SharedBudget.Trace, j: SharedBudget.Sender, sent: bool): SharedBudget.Trace {
    t + [SharedBudget.Count(j)] + SharedBudget.Decided(j, sent)
  }

  ghost method CountAndSend(world: World, me: SharedBudget.Sender, count: int)
    requires world.Balanced() && SharedBudget.Counting(world.events, me, count) && count < world.ceiling
    modifies world`events
    ensures world.Traced(|world.contacted| + 1) && SharedBudget.Counting(world.events, me, count + 1)
    ensures world.events == Attempted(old(world.events), me, true)
  {
    var sofar := |world.contacted|;
    SharedBudget.OpenLawful(world.events, world.ceiling, sofar);
    SharedBudget.CountingAttempts(world.events, world.ceiling, me, count, true);
    SharedBudget.Counts(world.events, world.ceiling, me);
    SharedBudget.TurnAfterCount(world.events, me, me);
    world.Count(me);
    world.Decide(me, sofar, true);
  }

  // ------------------------------------------------------ the chain beside the probes

  /**
   * What the crawl's count was when it was copied, how many requests of it were
   * settled, which is all of it or one less, how many were still on the chain, whether
   * the crawl had been told to end, and what it had heard.
   */
  datatype Handover = Handover(
    budget: SharedBudget.Sender, copied: int, settled: int, left: nat, halted: Option<Halt>, heard: seq<Heard>)

  /** The requests that were under way when the crawl's count was copied: one or none. */
  ghost function Open(crawl: Crawl): nat
    reads crawl.world
  {
    if SharedBudget.OpenAtCopy(crawl.world.events, crawl.me) then 1 else 0
  }

  /** The crawl's requests that were sent after its count was copied. */
  ghost function Late(crawl: Crawl): nat
    reads crawl.world
  {
    SharedBudget.LateOf(crawl.world.events, crawl.me)
  }

  /** What the crawl may still send. */
  function Pending(crawl: Crawl): nat
    reads crawl
  {
    |crawl.chain| + if crawl.inFlight.Some? then 1 else 0
  }

  /** The crawl has returned; `spent` is what the copied count has come to. */
  ghost predicate Beside(crawl: Crawl, h: Handover, spent: int)
    reads crawl, crawl.world
  {
    && crawl.Accounted() && h.budget != crawl.me && crawl.beside == {h.budget}
    && SharedBudget.Counting(crawl.world.events, h.budget, spent)
    && h.copied <= spent && crawl.unseen == spent - h.copied
    && (spent == h.copied || spent <= crawl.world.ceiling)
    && h.copied == h.settled + Open(crawl) && h.settled <= Max(crawl.resumedAt, crawl.world.ceiling)
    && crawl.Settled() == h.settled + Late(crawl)
    && Late(crawl) + Pending(crawl) <= h.left + Open(crawl)
    && h.heard <= crawl.heard && Own(h.heard) == Own(crawl.heard)
  }

  /**
   * The ledger has the reported requests, without the one that was under way, and
   * the late ones. Two bounds: by the late requests, and by what was free when the
   * count was copied.
   */
  lemma WhatBesideMeans(crawl: Crawl, h: Handover, spent: int)
    requires Beside(crawl, h, spent)
    ensures var sent, most := SentRows(crawl.world.ledger), Max(crawl.resumedAt, crawl.world.ceiling);
            && sent == spent - Open(crawl) + Late(crawl)
            && sent <= most + Late(crawl) && sent <= most + Max(crawl.world.ceiling - h.copied, 0)
            && spent <= most + Open(crawl)
  {
    crawl.SettledAndUnseen();
  }

  /** To the copied count the late requests are what it does not see, and the open one what it has too much. */
  lemma LateIsUnseen(crawl: Crawl, h: Handover, spent: int)
    requires Beside(crawl, h, spent)
    ensures var t := crawl.world.events;
            Late(crawl) - Open(crawl) == SharedBudget.Unseen(t, h.budget) - SharedBudget.Overcount(t, h.budget)
  {
    var t, max := crawl.world.events, crawl.world.ceiling;
    WhatBesideMeans(crawl, h, spent);
    SharedBudget.OpenLawful(t, max, |crawl.world.contacted|);
    SharedBudget.LiveHasBegun(t, h.budget);
    SharedBudget.CountedAndUnseen(t, max, h.budget);
  }

  /** Any number of steps of the chain, while the scan does something else or nothing. */
  method ChainGoesOn(crawl: Crawl, ghost h: Handover, ghost spent: int)
    requires Beside(crawl, h, spent)
    modifies crawl`requestsMade, crawl`stoppedBy, crawl`chain, crawl`inFlight, crawl`heard, crawl.world
    ensures Beside(crawl, h, spent) && old(crawl.world.ledger) <= crawl.world.ledger
    ensures Late(crawl) >= old(Late(crawl)) && Open(crawl) == old(Open(crawl))
    ensures Late(crawl) + Pending(crawl) <= old(Late(crawl) + Pending(crawl))
  {
    var steps: int := *;
    for i := 0 to Max(steps, 0)
      invariant Beside(crawl, h, spent) && old(crawl.world.ledger) <= crawl.world.ledger
      invariant Late(crawl) >= old(Late(crawl)) && Open(crawl) == old(Open(crawl))
      invariant Late(crawl) + Pending(crawl) <= old(Late(crawl) + Pending(crawl))
    {
      ChainMoves(crawl, h, spent);
    }
  }

  method ChainMoves(crawl: Crawl, ghost h: Handover, ghost spent: int)
    requires Beside(crawl, h, spent)
    modifies crawl`requestsMade, crawl`stoppedBy, crawl`chain, crawl`inFlight, crawl`heard, crawl.world
    ensures Beside(crawl, h, spent) && old(crawl.world.ledger) <= crawl.world.ledger
    ensures Late(crawl) >= old(Late(crawl)) && Open(crawl) == old(Open(crawl))
    ensures Late(crawl) + Pending(crawl) <= old(Late(crawl) + Pending(crawl))
  {
    crawl.ItsTurn();
    AfterMove(crawl.world.events, crawl.me, true, h.budget, spent);
    AfterMove(crawl.world.events, crawl.me, false, h.budget, spent);
    crawl.Advance();
  }

  /** A step of the chain: nothing to the copied count, and a late request when one is sent. */
  lemma AfterMove(t: SharedBudget.Trace, me: SharedBudget.Sender, sent: bool, budget: SharedBudget.Sender, spent: int)
    requires budget != me && SharedBudget.Counting(t, budget, spent) && SharedBudget.CopiedFrom(t, me)
    ensures var u := t + [SharedBudget.Count(me)];
            && SharedBudget.Counting(u, budget, spent) && SharedBudget.LateOf(u, me) == SharedBudget.LateOf(t, me)
            && SharedBudget.OpenAtCopy(u, me) == SharedBudget.OpenAtCopy(t, me)
    ensures var u := t + SharedBudget.Decided(me, sent);
            && SharedBudget.Counting(u, budget, spent)
            && SharedBudget.LateOf(u, me) == SharedBudget.LateOf(t, me) + (if sent then 1 else 0)
            && SharedBudget.OpenAtCopy(u, me) == SharedBudget.OpenAtCopy(t, me)
  {
    SharedBudget.CountingElsewhere(t, me, sent, budget, spent);
    SharedBudget.TurnAfterCount(t, me, me);
    SharedBudget.TurnAfterDecided(t, me, sent, me);
  }

  /** The probes made a request, which the crawl does not see. */
  ghost method Overtake(crawl: Crawl, h: Handover, before: SharedBudget.Trace, sent: bool)
    requires crawl.world.events == Attempted(before, h.budget, sent) && h.budget != crawl.me
    requires SharedBudget.Books(
               before, crawl.me, crawl.requestsMade, crawl.inFlight.Some?, crawl.unseen, crawl.beside)
    modifies crawl`unseen
    ensures crawl.unseen == old(crawl.unseen) + if sent then 1 else 0
    ensures SharedBudget.Books(
              crawl.world.events, crawl.me, crawl.requestsMade, crawl.inFlight.Some?, crawl.unseen, crawl.beside)
    ensures Late(crawl) == SharedBudget.LateOf(before, crawl.me)
    ensures SharedBudget.OpenAtCopy(crawl.world.events, crawl.me) == SharedBudget.OpenAtCopy(before, crawl.me)
  {
    SharedBudget.BooksAfterAttempt(before, crawl.me, crawl.requestsMade, crawl.inFlight.Some?, crawl.unseen,
      crawl.beside, h.budget, sent);
    SharedBudget.TurnAfterAttempt(before, h.budget, sent, crawl.me);
    crawl.unseen := crawl.unseen + if sent then 1 else 0;
  }

  // ------------------------------------------------------------------ the TLS probe

  const TLS_CONNECTIONS := 5

  /** The ledger's last row is a refusal's. */
  predicate EndsRefused(world: World)
    reads world
  {
    world.ledger != [] && !IsSent(world.ledger[|world.ledger| - 1])
  }

  /** The certificate, the three legacy protocols and the weak suites, until the guard refuses. */
  method ProbeTls(
      p: Policy, https: bool, entry: Option<Url>, requestsMade: int, crawl: Crawl, ghost h: Handover)
    returns (spent: int)
    requires Beside(crawl, h, requestsMade) && p == crawl.policy
    modifies crawl`requestsMade, crawl`stoppedBy, crawl`chain, crawl`inFlight, crawl`heard, crawl`unseen, crawl.world
    ensures Beside(crawl, h, spent) && old(crawl.world.ledger) <= crawl.world.ledger
    ensures Open(crawl) == old(Open(crawl)) && Late(crawl) + Pending(crawl) <= old(Late(crawl) + Pending(crawl))
    ensures requestsMade <= spent <= requestsMade + TLS_CONNECTIONS && spent <= Max(requestsMade, p.scope.maxRequests)
    ensures !https ==> spent == requestsMade && crawl.world.ledger == old(crawl.world.ledger)
    ensures https ==> spent == requestsMade + TLS_CONNECTIONS || EndsRefused(crawl.world)
  {
    spent := requestsMade;
    if !https { return; }
    for i := 0 to TLS_CONNECTIONS
      invariant Beside(crawl, h, spent) && old(crawl.world.ledger) <= crawl.world.ledger
      invariant spent == requestsMade + i && spent <= Max(requestsMade, p.scope.maxRequests)
      invariant Open(crawl) == old(Open(crawl)) && Late(crawl) + Pending(crawl) <= old(Late(crawl) + Pending(crawl))
    {
      var ok;
      ok, spent := GuardedBeside(p, entry, spent, crawl, h);
      if !ok { return; }
    }
  }

  /** One connection, the chain going on before it. */
  method GuardedBeside(p: Policy, entry: Option<Url>, requestsMade: int, crawl: Crawl, ghost h: Handover)
    returns (ok: bool, spent: int)
    requires Beside(crawl, h, requestsMade) && p == crawl.policy
    modifies crawl`requestsMade, crawl`stoppedBy, crawl`chain, crawl`inFlight, crawl`heard, crawl`unseen, crawl.world
    ensures Beside(crawl, h, spent) && old(crawl.world.ledger) <= crawl.world.ledger
    ensures Open(crawl) == old(Open(crawl)) && Late(crawl) + Pending(crawl) <= old(Late(crawl) + Pending(crawl))
    ensures spent == requestsMade + (if ok then 1 else 0) && (ok ==> requestsMade < p.scope.maxRequests)
    ensures !ok ==> EndsRefused(crawl.world)
  {
    ChainGoesOn(crawl, h, requestsMade);
    ghost var before := crawl.world.events;
    ok, spent := Guarded(crawl.world, p, entry, requestsMade, h.budget);
    if ok { Overtake(crawl, h, before, true); }
  }

  // -------------------------------------------------------------- the active probes

  /** The active probes' shared state. */
  class ActiveRun {
    const world: World
    const policy: Policy
    const startedAt: int
    ghost const me: SharedBudget.Sender
    var requestsMade: int
    var aborted: Option<Abort>
    var probesRefused: nat
    var budgetSpent: bool

    ghost predicate Valid()
      reads this, world
    {
      && world.Balanced() && world.ceiling == policy.scope.maxRequests
      && SharedBudget.Counting(world.events, me, requestsMade)
      && requestsMade <= Max(startedAt, policy.scope.maxRequests)
    }

    constructor (world: World, policy: Policy, requestsMade: int, ghost me: SharedBudget.Sender)
      requires world.Balanced() && world.ceiling == policy.scope.maxRequests
      requires SharedBudget.Counting(world.events, me, requestsMade)
      ensures Valid() && this.world == world && this.policy == policy && startedAt == this.requestsMade == requestsMade
      ensures this.me == me && aborted.None?
    {
      this.world, this.policy, this.requestsMade, startedAt, this.me := world, policy, requestsMade, requestsMade, me;
      aborted, probesRefused, budgetSpent := None, 0, false;
    }

    /** The count before the dispatch, and what it comes to either way. */
    ghost method CountFirst(before: int)
      requires world.Balanced() && world.ceiling == policy.scope.maxRequests
      requires SharedBudget.Counting(world.events, me, before) && before < policy.scope.maxRequests
      modifies world`events
      ensures world.Balanced() && world.events == old(world.events) + [SharedBudget.Count(me)]
      ensures SharedBudget.Live(world.events, me) && me in SharedBudget.Counted(world.events)
      ensures SharedBudget.Counter(world.events, me) <= world.ceiling && me in SharedBudget.Current(world.events)
      ensures SharedBudget.Counting(world.events + SharedBudget.Decided(me, true), me, before + 1)
      ensures SharedBudget.Counting(world.events + SharedBudget.Decided(me, false), me, before)
    {
      SharedBudget.OpenLawful(world.events, world.ceiling, |world.contacted|);
      SharedBudget.CountingAttempts(world.events, world.ceiling, me, before, true);
      SharedBudget.CountingAttempts(world.events, world.ceiling, me, before, false);
      SharedBudget.Counts(world.events, world.ceiling, me);
      SharedBudget.TurnAfterCount(world.events, me, me);
      world.Count(me);
    }

    /** A probe's request, counted before it is dispatched. */
    method Sending(probe: Probe, before: int) returns (outcome: Outcome<Answer>)
      requires world.Balanced() && world.ceiling == policy.scope.maxRequests
      requires SharedBudget.Counting(world.events, me, before) && before < policy.scope.maxRequests
      modifies world
      ensures world.Balanced() && old(world.ledger) <= world.ledger
      ensures world.events == Attempted(old(world.events), me, !outcome.Refused?)
      ensures SharedBudget.Counting(world.events, me, before + if outcome.Refused? then 0 else 1)
      ensures |world.ledger| == old(|world.ledger|) + 1
      ensures Judged(policy, RequestOf(probe, before), !outcome.Refused?)
      ensures outcome.Ok? ==> probe.answer == Some(outcome.answer)
      ensures outcome.Threw? ==> probe.answer.None?
      ensures outcome == Refused(KILL_SWITCH) <==> probe.url.Some? && probe.tokenTaken && probe.reading.engaged
    {
      ghost var sofar := |world.contacted|;
      CountFirst(before);
      var r := RequestOf(probe, before);
      outcome := Dispatch(world, policy, r, probe.answer);
      SwitchRefusesExactly(policy, r);
      world.Decide(me, sofar, !outcome.Refused?);
      assert |world.contacted| == sofar + if outcome.Refused? then 0 else 1;
    }

    /**
     * One probe; nothing is sent or ledgered after an abort or once the budget is spent.
     * It aborts the run exactly when a pause or cancel is read, or the engaged switch refuses it.
     */
    method TryProbe(probe: Probe) returns (ok: bool, ghost tried: Option<bool>)
      requires Valid()
      modifies this, world
      ensures Valid() && old(world.ledger) <= world.ledger
      ensures old(aborted.Some? || requestsMade >= policy.scope.maxRequests) ==>
                tried.None? && aborted == old(aborted)
                && world.ledger == old(world.ledger) && world.contacted == old(world.contacted)
      ensures old(aborted.None? && requestsMade < policy.scope.maxRequests) ==> aborted == AbortOf(probe)
      ensures aborted.Some? ==> tried != Some(true)
      ensures world.events == if tried.Some? then Attempted(old(world.events), me, tried.value) else old(world.events)
      ensures requestsMade == old(requestsMade) + if tried == Some(true) then 1 else 0
      ensures probesRefused == old(probesRefused) + if tried == Some(false) then 1 else 0
      ensures old(aborted.None? && requestsMade < policy.scope.maxRequests) ==>
                && (tried.None? <==> !probe.reading.engaged && probe.reading.stop)
                && (tried.Some? ==> Judged(policy, RequestOf(probe, old(requestsMade)), tried.value))
      ensures |world.ledger| == old(|world.ledger|) + if tried.Some? then 1 else 0
      ensures ok <==> tried == Some(true) && probe.answer.Some?
      ensures budgetSpent == (old(budgetSpent) || (old(aborted).None? && old(requestsMade) >= policy.scope.maxRequests))
    {
      if aborted.Some? { return false, None; }
      if requestsMade >= policy.scope.maxRequests {
        budgetSpent := true;
        return false, None;
      }
      if !probe.reading.engaged && probe.reading.stop {
        aborted := Some(AbortedByStop);
        return false, None;
      }
      var before := requestsMade;
      requestsMade := requestsMade + 1;
      var outcome := Sending(probe, before);
      if outcome.Refused? {
        requestsMade := requestsMade - 1;
        probesRefused := probesRefused + 1;
        if outcome.code == KILL_SWITCH { aborted := Some(AbortedByKillSwitch); }
        return false, Some(false);
      }
      return outcome.Ok?, Some(true);
    }
  }

  /** The abort a probe causes: the engaged switch when it refuses a proper request, else a pause or cancel. */
  function AbortOf(probe: Probe): Option<Abort> {
    if probe.reading.engaged then
      (if probe.url.Some? && probe.tokenTaken then Some(AbortedByKillSwitch) else None)
    else if probe.reading.stop then Some(AbortedByStop)
    else None
  }

  /** One probe, or none, while the chain goes on beside it. */
  method ProbeBeside(active: ActiveRun, probe: Probe, crawl: Crawl, ghost h: Handover)
    requires Probing(active, crawl, h)
    modifies active, crawl.world
    modifies crawl`requestsMade, crawl`stoppedBy, crawl`chain, crawl`inFlight, crawl`heard, crawl`unseen
    ensures Probing(active, crawl, h) && old(crawl.world.ledger) <= crawl.world.ledger
    ensures active.requestsMade >= old(active.requestsMade)
    ensures active.aborted.Some? ==> active.requestsMade == old(active.requestsMade)
    ensures if old(active.aborted.Some? || active.requestsMade >= active.policy.scope.maxRequests)
            then active.aborted == old(active.aborted) else active.aborted == AbortOf(probe)
    ensures Open(crawl) == old(Open(crawl)) && Late(crawl) + Pending(crawl) <= old(Late(crawl) + Pending(crawl))
  {
    ChainGoesOn(crawl, h, active.requestsMade);
    ghost var before := crawl.world.events;
    ghost var tried;
    var ok;
    ok, tried := active.TryProbe(probe);
    if tried.Some? { Overtake(crawl, h, before, tried.value); }
  }

  ghost predicate Probing(active: ActiveRun, crawl: Crawl, h: Handover)
    reads active, crawl, crawl.world
  {
    && active.world == crawl.world && active.policy == crawl.policy && active.me == h.budget
    && active.Valid() && Beside(crawl, h, active.requestsMade)
  }

  /** The kill switch, then a pause or cancel. */
  method Checkpoint(reading: Reading) returns (abort: Option<Abort>)
    ensures abort == Some(AbortedByKillSwitch) <==> reading.engaged
    ensures abort == Some(AbortedByStop) <==> !reading.engaged && reading.stop
    ensures abort.None? <==> Clear(reading)
  {
    if reading.engaged { return Some(AbortedByKillSwitch); }
    return if reading.stop then Some(AbortedByStop) else None;
  }

  predicate Clear(reading: Reading) {
    !reading.engaged && !reading.stop
  }

  /** The first of the probes that aborts decides; of those asked before, none does. */
  ghost predicate ProbesAbort(probes: seq<Probe>, asked: nat, spent: bool, aborted: Option<Abort>) {
    && asked <= |probes| && (forall i :: 0 <= i < asked ==> AbortOf(probes[i]).None?)
    && if aborted.Some? then !spent && asked < |probes| && aborted == AbortOf(probes[asked])
       else asked == |probes| || spent
  }

  /**
   * The abort reported is the first that was due: of a crawl told to end by the switch
   * or a stop, of a checkpoint, or of a probe asked before the budget was spent.
   */
  ghost predicate AbortedAsDue(
      halted: Option<Halt>, later: Later, asked: nat, spent: bool, aborted: Option<Abort>)
  {
    if halted == Some(ByKillSwitch) then aborted == Some(AbortedByKillSwitch)
    else if halted == Some(ByStop) then aborted == Some(AbortedByStop)
    else if later.beforeTls.engaged then aborted == Some(AbortedByKillSwitch)
    else if later.beforeTls.stop then aborted == Some(AbortedByStop)
    else if later.beforeDetection.engaged then aborted == Some(AbortedByKillSwitch)
    else if later.beforeDetection.stop then aborted == Some(AbortedByStop)
    else ProbesAbort(later.probes, asked, spent, aborted)
  }

  /** A run goes on to its end exactly when nothing on the way told it to end. */
  lemma NotAbortedExactly(halted: Option<Halt>, later: Later, asked: nat, spent: bool, aborted: Option<Abort>)
    requires AbortedAsDue(halted, later, asked, spent, aborted)
    ensures aborted.None? <==>
            && halted != Some(ByKillSwitch) && halted != Some(ByStop)
            && Clear(later.beforeTls) && Clear(later.beforeDetection) && ProbesAbort(later.probes, asked, spent, None)
  {
  }

  datatype RunResult = RunResult(requestsMade: int, pagesCrawled: int, aborted: Option<Abort>)

  /** The crawl returns, the renderer is closed, and its count is copied. */
  method CrawlFirst(world: World, p: Policy, urls: Urls, hasRenderer: bool, resumedAt: int)
    returns (crawl: Crawl, ghost h: Handover)
    requires world.Balanced() && world.ceiling == p.scope.maxRequests
    requires resumedAt == SentRows(world.ledger) && p.scope.maxPages >= 0
    modifies world
    ensures fresh(crawl) && crawl.world == world && crawl.policy == p && crawl.resumedAt == resumedAt
    ensures Beside(crawl, h, crawl.requestsMade) && old(world.ledger) <= world.ledger
    ensures h.left == |crawl.chain| && h.copied == crawl.requestsMade && Late(crawl) == 0
    ensures Open(crawl) == if crawl.inFlight.Some? then 1 else 0
    ensures h.halted == crawl.stoppedBy == StopOf(h.heard) && h.heard == crawl.heard
    ensures !hasRenderer ==> crawl.Idle()
    ensures crawl.pagesCrawled <= p.scope.maxPages
  {
    ghost var me := world.Begin();
    crawl := new Crawl(world, p, urls, hasRenderer, resumedAt, me);
    CrawlAndClose(crawl);
    h := HandOver(crawl);
  }

  /** The crawl; its chain goes on while the renderer is closed. */
  method CrawlAndClose(crawl: Crawl)
    requires crawl.Valid() && crawl.Fresh()
    modifies crawl, crawl.world
    ensures crawl.Accounted() && crawl.unseen == old(crawl.unseen) && crawl.beside == old(crawl.beside)
    ensures old(crawl.world.ledger) <= crawl.world.ledger && crawl.pagesCrawled <= crawl.policy.scope.maxPages
    ensures !crawl.hasRenderer ==> crawl.Idle()
  {
    RunOnly(crawl);
    crawl.Elapse();
  }

  method RunOnly(crawl: Crawl)
    requires crawl.Valid() && crawl.Fresh()
    modifies crawl, crawl.world
    ensures crawl.Accounted() && crawl.unseen == old(crawl.unseen) && crawl.beside == old(crawl.beside)
    ensures old(crawl.world.ledger) <= crawl.world.ledger && crawl.pagesCrawled <= crawl.policy.scope.maxPages
    ensures !crawl.hasRenderer ==> crawl.Idle()
  {
    ghost var robotsReply, sitemaps, done, left := crawl.Run();
  }

  /** The crawl's count is copied. */
  ghost method HandOver(crawl: Crawl) returns (h: Handover)
    requires crawl.Accounted() && crawl.beside == {} && crawl.unseen == 0
    modifies crawl`beside, crawl.world`events, crawl.world`senders
    ensures Beside(crawl, h, crawl.requestsMade)
    ensures h.left == |crawl.chain| && h.copied == crawl.requestsMade && Late(crawl) == 0
    ensures Open(crawl) == if crawl.inFlight.Some? then 1 else 0
    ensures h.halted == crawl.stoppedBy == StopOf(h.heard) && h.heard == crawl.heard
  {
    OpenKept(crawl.heard, crawl.Settled() - crawl.resumedAt, crawl.stoppedBy);
    var budget := crawl.world.Copy(crawl.me, crawl.requestsMade, crawl.inFlight.Some?, crawl.unseen);
    crawl.beside := {budget};
    h := Handover(budget, crawl.requestsMade, crawl.Settled(), |crawl.chain|, crawl.stoppedBy, crawl.heard);
  }

  /**
   * One run. At its end the ledger has the requests it reports, without the one that
   * was under way when the crawl's count was copied, and the late ones, those of the
   * crawl sent after that. So the report is what a resumed run will read back exactly
   * when as many were sent late as had been under way; and without a renderer that
   * is always so, and the ceiling is kept. The abort reported is the first one due,
   * and a run whose crawl was told to end makes no further request of its own.
   */
  method RunScanEngine(
      world: World, p: Policy, urls: Urls, hasRenderer: bool, https: bool, resumedAt: int, later: Later)
    returns (result: RunResult, crawl: Crawl, ghost h: Handover, ghost asked: nat)
    requires world.Balanced() && world.ceiling == p.scope.maxRequests
    requires resumedAt == SentRows(world.ledger) && p.scope.maxPages >= 0
    modifies world
    ensures fresh(crawl) && crawl.world == world && crawl.resumedAt == resumedAt && old(world.ledger) <= world.ledger
    ensures Beside(crawl, h, result.requestsMade) && |world.contacted| == SentRows(world.ledger)
    ensures SentRows(world.ledger) == result.requestsMade - Open(crawl) + Late(crawl)
    ensures result.requestsMade == SentRows(world.ledger) <==> Late(crawl) == Open(crawl)
    ensures SentRows(world.ledger) <= Max(resumedAt, p.scope.maxRequests) + Late(crawl)
    ensures SentRows(world.ledger) <= Max(resumedAt, p.scope.maxRequests) + Max(p.scope.maxRequests - h.copied, 0)
    ensures SentRows(world.ledger) > p.scope.maxRequests <==>
              Late(crawl) > p.scope.maxRequests - (result.requestsMade - Open(crawl))
    ensures !hasRenderer ==>
              && Late(crawl) == Open(crawl) == Pending(crawl) == 0
              && result.requestsMade == SentRows(world.ledger) <= Max(resumedAt, p.scope.maxRequests)
    ensures AbortedAsDue(h.halted, later, asked, result.requestsMade >= p.scope.maxRequests, result.aborted)
    ensures h.halted == StopOf(h.heard) && h.heard <= crawl.heard && Own(h.heard) == Own(crawl.heard)
    ensures h.halted == Some(ByKillSwitch) || h.halted == Some(ByStop) || !Clear(later.beforeTls) ==>
              result.requestsMade == h.copied
    ensures result.pagesCrawled <= p.scope.maxPages
  {
    crawl, h := CrawlFirst(world, p, urls, hasRenderer, resumedAt);
    result, asked := AfterCrawl(p, https, later, crawl, h);
    WhatBesideMeans(crawl, h, result.requestsMade);
  }

  /** The probes, unless the crawl was told to end. */
  method AfterCrawl(p: Policy, https: bool, later: Later, crawl: Crawl, ghost h: Handover)
    returns (result: RunResult, ghost asked: nat)
    requires Beside(crawl, h, crawl.requestsMade) && p == crawl.policy && crawl.pagesCrawled <= p.scope.maxPages
    modifies crawl`requestsMade, crawl`stoppedBy, crawl`chain, crawl`inFlight, crawl`heard, crawl`unseen, crawl.world
    ensures Beside(crawl, h, result.requestsMade) && old(crawl.world.ledger) <= crawl.world.ledger
    ensures Open(crawl) == old(Open(crawl)) && Late(crawl) + Pending(crawl) <= old(Late(crawl) + Pending(crawl))
    ensures AbortedAsDue(
              old(crawl.stoppedBy), later, asked, result.requestsMade >= p.scope.maxRequests, result.aborted)
    ensures old(crawl.stoppedBy) == Some(ByKillSwitch) || old(crawl.stoppedBy) == Some(ByStop) ==>
              && result.requestsMade == old(crawl.requestsMade)
              && crawl.world.events == old(crawl.world.events) && crawl.world.ledger == old(crawl.world.ledger)
    ensures !Clear(later.beforeTls) ==> result.requestsMade == old(crawl.requestsMade)
    ensures result.pagesCrawled == old(crawl.pagesCrawled)
  {
    var pages, spent := crawl.pagesCrawled, crawl.requestsMade;
    asked := 0;
    if crawl.stoppedBy == Some(ByKillSwitch) { return RunResult(spent, pages, Some(AbortedByKillSwitch)), asked; }
    if crawl.stoppedBy == Some(ByStop) { return RunResult(spent, pages, Some(AbortedByStop)), asked; }
    var aborted;
    spent, aborted, asked := ProbeAll(p, https, later, spent, crawl, h);
    return RunResult(spent, pages, aborted), asked;
  }

  /** The TLS probe, then the active probes, with a checkpoint before each. */
  method ProbeAll(p: Policy, https: bool, later: Later, requestsMade: int, crawl: Crawl, ghost h: Handover)
    returns (spent: int, aborted: Option<Abort>, ghost asked: nat)
    requires Beside(crawl, h, requestsMade) && p == crawl.policy
    modifies crawl`requestsMade, crawl`stoppedBy, crawl`chain, crawl`inFlight, crawl`heard, crawl`unseen, crawl.world
    ensures Beside(crawl, h, spent) && old(crawl.world.ledger) <= crawl.world.ledger
    ensures Open(crawl) == old(Open(crawl)) && Late(crawl) + Pending(crawl) <= old(Late(crawl) + Pending(crawl))
    ensures AbortedAsDue(None, later, asked, spent >= p.scope.maxRequests, aborted)
    ensures !Clear(later.beforeTls) ==> spent == requestsMade
  {
    spent, asked := requestsMade, 0;
    aborted := Checkpoint(later.beforeTls);
    ChainGoesOn(crawl, h, spent);
    if aborted.Some? { return; }
    spent, aborted, asked := ProbeClear(p, https, later, spent, crawl, h);
  }

  /** The same, when the first checkpoint lets the scan go on. */
  method ProbeClear(p: Policy, https: bool, later: Later, requestsMade: int, crawl: Crawl, ghost h: Handover)
    returns (spent: int, aborted: Option<Abort>, ghost asked: nat)
    requires Beside(crawl, h, requestsMade) && p == crawl.policy && Clear(later.beforeTls)
    modifies crawl`requestsMade, crawl`stoppedBy, crawl`chain, crawl`inFlight, crawl`heard, crawl`unseen, crawl.world
    ensures Beside(crawl, h, spent) && old(crawl.world.ledger) <= crawl.world.ledger
    ensures Open(crawl) == old(Open(crawl)) && Late(crawl) + Pending(crawl) <= old(Late(crawl) + Pending(crawl))
    ensures AbortedAsDue(None, later, asked, spent >= p.scope.maxRequests, aborted)
  {
    asked := 0;
    var entry: Option<Url> := *;
    spent := ProbeTls(p, https, entry, requestsMade, crawl, h);
    aborted := Checkpoint(later.beforeDetection);
    ChainGoesOn(crawl, h, spent);
    if aborted.Some? { return; }
    spent, aborted, asked := ProbeActively(p, later.probes, spent, crawl, h);
  }

  /** The active probes. */
  method ProbeActively(p: Policy, probes: seq<Probe>, requestsMade: int, crawl: Crawl, ghost h: Handover)
    returns (spent: int, aborted: Option<Abort>, ghost asked: nat)
    requires Beside(crawl, h, requestsMade) && p == crawl.policy
    modifies crawl`requestsMade, crawl`stoppedBy, crawl`chain, crawl`inFlight, crawl`heard, crawl`unseen, crawl.world
    ensures Beside(crawl, h, spent) && old(crawl.world.ledger) <= crawl.world.ledger
    ensures Open(crawl) == old(Open(crawl)) && Late(crawl) + Pending(crawl) <= old(Late(crawl) + Pending(crawl))
    ensures ProbesAbort(probes, asked, spent >= p.scope.maxRequests, aborted)
  {
    var active := new ActiveRun(crawl.world, p, requestsMade, h.budget);
    asked := 0;
    for i := 0 to |probes|
      invariant Probing(active, crawl, h) && old(crawl.world.ledger) <= crawl.world.ledger
      invariant Open(crawl) == old(Open(crawl)) && Late(crawl) + Pending(crawl) <= old(Late(crawl) + Pending(crawl))
      invariant asked <= i && forall k :: 0 <= k < asked ==> AbortOf(probes[k]).None?
      invariant if active.aborted.Some? then
                  active.requestsMade < p.scope.maxRequests && asked < i && active.aborted == AbortOf(probes[asked])
                else asked == i || active.requestsMade >= p.scope.maxRequests
    {
      ghost var goes := active.aborted.None? && active.requestsMade < p.scope.maxRequests;
      ProbeBeside(active, probes[i], crawl, h);
      if goes && active.aborted.None? { asked := asked + 1; }
    }
    return active.requestsMade, active.aborted, asked;
  }

  /** What a resumed run reads back: the requests earlier runs sent. */
  method LoadResume(world: World) returns (requestsMade: int)
    ensures requestsMade == SentRows(world.ledger)
  {
    requestsMade := 0;
    for i := 0 to |world.ledger|
      invariant requestsMade == SentRows(world.ledger[..i])
    {
      assert world.ledger[..i + 1] == world.ledger[..i] + [world.ledger[i]];
      OneMoreRow(world.ledger[..i], world.ledger[i]);
      if IsSent(world.ledger[i]) { requestsMade := requestsMade + 1; }
    }
    assert world.ledger[..|world.ledger|] == world.ledger;
  }

  /**
   * Over any number of runs of one scan, each begun after the one before and its
   * chain ended, the connections pass `maxRequests` by no more than were sent late,
   * under a count that had been copied, and not at all when no renderer is up; the
   * ledger accounts for every one. They pass it exactly when some request was sent by
   * a sender that missed too much. The blocklist and the recorded addresses may change
   * between runs; the ceilings may not. Runs that overlap are the subject of SharedBudget.
   */
  method RunScan(maxPages: nat, maxRequests: nat, rendererUp: bool) returns (world: World)
    ensures |world.contacted| == SentRows(world.ledger) == SharedBudget.Sent(world.events)
    ensures SharedBudget.Legal(world.events, maxRequests) && SharedBudget.InTurn(world.events)
    ensures SentRows(world.ledger) <= maxRequests + SharedBudget.LateSends(world.events)
    ensures !rendererUp ==> SentRows(world.ledger) <= maxRequests
    ensures SentRows(world.ledger) > maxRequests <==> SharedBudget.SomeoneMissedTooMuch(world.events, maxRequests)
  {
    world := new World(maxRequests);
    var runs: int := *;
    for i := 0 to Max(runs, 0)
      invariant fresh(world) && world.Balanced() && world.ceiling == maxRequests
      invariant !rendererUp ==> SentRows(world.ledger) <= maxRequests
    {
      var resumedAt := LoadResume(world);
      var p: Policy, urls: Urls, starts: bool, https: bool, later: Later := *, *, *, *, *;
      p := p.(scope := p.scope.(maxPages := maxPages, maxRequests := maxRequests));
      var result, crawl;
      ghost var h, asked;
      result, crawl, h, asked := RunScanEngine(world, p, urls, rendererUp && starts, https, resumedAt, later);
      ChainGoesOn(crawl, h, result.requestsMade);
      WhatBesideMeans(crawl, h, result.requestsMade);
    }
    SharedBudget.OpenLawful(world.events, maxRequests, |world.contacted|);
    SharedBudget.RunsInTurnPassByTheLate(world.events, maxRequests);
    SharedBudget.PassedExactly(world.events, maxRequests);
  }
}
