/**
 * The crawl loop and its budget. The target, the renderer, the clock and the
 * switches are arbitrary: each of their answers is chosen freely.
 *
 * Requests are chained, one at a time. The crawl awaits its own, and so all those
 * chained before; the browser's are awaited by nobody, and may still be on the
 * chain when a render, or the whole crawl, is over.
 */
module Crawler {
  import opened Options
  import opened Guard
  import opened Blocklist
  import opened CrawlSpec
  import Robots
  import PathScope
  import SharedBudget

  class Crawl {
    const world: World
    const policy: Policy
    const urls: Urls
    const hasRenderer: bool
    ghost const resumedAt: int
    ghost const me: SharedBudget.Sender

    var queue: seq<QueuedUrl>
    var toRender: seq<QueuedUrl>
    var seen: set<string>
    var robots: Robots.Rules
    var pagesCrawled: int
    var requestsMade: int
    var chain: seq<Chained>
    var inFlight: Option<Flight>
    var blockedPages: int
    var stoppedBy: Option<Halt>
    var robotsDisallowAll: bool
    ghost var visited: seq<QueuedUrl>
    ghost var rules: Rule
    /** Every request made through the guard, or stopped before it, with what came back. */
    ghost var heard: seq<Heard>
    /** The pages rendered, and the links each revealed. */
    ghost var rendered: seq<QueuedUrl>
    ghost var revealed: seq<seq<string>>
    /** The crawl's own requests before its first page, and those for pages. */
    ghost var setup: seq<Heard>
    ghost var pages: seq<Heard>
    /** The requests that other senders sent since the crawl began. */
    ghost var unseen: nat
    /** The sender that counts from a copy of the crawl's count, once there is one. */
    ghost var beside: set<SharedBudget.Sender>

    /** The requests made, without the one under way. */
    function Settled(): int
      reads this`requestsMade, this`inFlight
    {
      requestsMade - if inFlight.Some? then 1 else 0
    }

    predicate Idle()
      reads this`chain, this`inFlight
    {
      chain == [] && inFlight.None?
    }

    /** Nothing is on the chain, and none of the requests so far was the browser's. */
    ghost predicate Quiet()
      reads this`chain, this`inFlight, this`heard
    {
      Idle() && NoneForBrowser(heard)
    }

    /**
     * The counter is the crawl's own in the ledger's history, and what is settled stays
     * under the ceiling; what was heard says how many were sent, and whether to go on.
     */
    ghost predicate Accounted()
      reads this`requestsMade, this`inFlight, this`unseen, this`beside, this`heard, this`stoppedBy, world
    {
      Kept(heard, Settled() - resumedAt, stoppedBy) && Booked()
    }

    ghost predicate Booked()
      reads this`requestsMade, this`inFlight, this`unseen, this`beside, world
    {
      && world.Balanced() && world.ceiling == policy.scope.maxRequests
      && SharedBudget.Books(world.events, me, requestsMade, inFlight.Some?, unseen, beside)
      && Settled() <= Max(resumedAt, policy.scope.maxRequests)
      && (inFlight.Some? ==> inFlight.value.request.requestsMade == Settled())
    }

    lemma ItsTurn()
      requires Accounted()
      ensures SharedBudget.Turn(world.events, me, beside)
    {
      SharedBudget.OpenBooks(world.events, me, requestsMade, inFlight.Some?, unseen, beside);
    }

    /** The ledger's count is the crawl's settled requests and those of others. */
    lemma SettledAndUnseen()
      requires Accounted()
      ensures SentRows(world.ledger) == Settled() + unseen
    {
      SharedBudget.BooksBalance(
        world.events, world.ceiling, |world.contacted|, me, requestsMade, inFlight.Some?, unseen, beside);
    }

    ghost predicate Ruled()
      reads this`rules, this`robots
    {
      rules.policy == policy && rules.urls == urls && rules.robots == robots
    }

    /** Everything visited or queued is admitted, and no page is there twice. */
    ghost predicate Frontier()
      reads this`visited, this`queue, this`seen, this`rules
    {
      GoodFrontier(urls.canonical, rules.admits, visited + queue, seen)
    }

    ghost predicate Valid()
      reads this`requestsMade, this`inFlight, this`unseen, this`beside, this`heard, this`stoppedBy, this`visited,
        this`queue, this`seen, this`rules, this`robots, this`pagesCrawled, world
    {
      Accounted() && Frontier() && Ruled() && pagesCrawled <= policy.scope.maxPages
    }

    constructor (
        world: World, policy: Policy, urls: Urls, hasRenderer: bool, resumedAt: int, ghost me: SharedBudget.Sender)
      requires world.Balanced() && world.ceiling == policy.scope.maxRequests && policy.scope.maxPages >= 0
      requires SharedBudget.Books(world.events, me, resumedAt, false, 0, {}) && resumedAt == SentRows(world.ledger)
      ensures Valid() && this.world == world && this.policy == policy && this.urls == urls
      ensures this.resumedAt == resumedAt && this.me == me && this.hasRenderer == hasRenderer
      ensures Fresh() && pagesCrawled == 0 && unseen == 0 && beside == {}
    {
      this.world, this.policy, this.urls, this.hasRenderer := world, policy, urls, hasRenderer;
      this.resumedAt, this.me, unseen, beside, chain, inFlight := resumedAt, me, 0, {}, [], None;
      queue, toRender, seen, robots := [], [], {}, NO_ROBOTS;
      pagesCrawled, requestsMade, blockedPages := 0, resumedAt, 0;
      stoppedBy, robotsDisallowAll, visited, heard := None, false, [], [];
      setup, pages, rendered, revealed := [], [], [], [];
      rules := RulingFor(policy, urls, NO_ROBOTS);
    }

    /** Nothing was requested or queued yet. */
    ghost predicate Fresh()
      reads this
    {
      && Idle() && visited == [] && queue == [] && seen == {} && heard == [] && pages == [] && !robotsDisallowAll
      && toRender == [] && rendered == [] && revealed == []
    }

    /** The crawl's own requests so far, what they led to, and what was rendered. */
    ghost predicate Told()
      reads this`heard, this`setup, this`pages, this`visited, this`seen, this`rules, this`toRender, this`rendered,
        this`revealed
    {
      Story(rules, seen, Own(heard), setup, visited, pages, rendered, revealed, toRender)
    }

    /** The budget is spent but for `slack` requests; unlike the count, this is never undone. */
    ghost predicate Spent(slack: nat)
      reads this`stoppedBy, this`pagesCrawled, this`requestsMade, this`inFlight
    {
      || stoppedBy.Some? || pagesCrawled >= policy.scope.maxPages || Settled() + slack >= policy.scope.maxRequests
    }

    lemma NeverUndone(before: seq<Heard>, made: int, stop: Option<Halt>)
      requires Accounted() && before <= heard && Kept(before, made, stop)
      ensures stop.Some? ==> stoppedBy.Some?
    {
      OpenKept(before, made, stop);
      OpenKept(heard, Settled() - resumedAt, stoppedBy);
      if stop.Some? { StopStays(before, heard); }
    }

    function Waiting(): Pages
      reads this`queue, this`seen
    {
      Pages(queue, seen)
    }

    predicate WithinBudget()
      reads this
    {
      && stoppedBy.None? && pagesCrawled < policy.scope.maxPages
      && requestsMade < policy.scope.maxRequests
    }

    // -------------------------------------------------------------- requests

    /** A refused request never reached the target, so it does not count. */
    method Refuse(code: Code)
      modifies this`requestsMade, this`stoppedBy
      ensures requestsMade == old(requestsMade) - 1
      ensures stoppedBy == if code == KILL_SWITCH then Some(ByKillSwitch)
                           else if code == CEILING then Some(ByCeiling) else old(stoppedBy)
    {
      requestsMade := requestsMade - 1;
      if code == KILL_SWITCH { stoppedBy := Some(ByKillSwitch); }
      if code == CEILING { stoppedBy := Some(ByCeiling); }
    }

    /** The next request is counted before it is dispatched; a stopped scan makes none. */
    method Depart(c: Chained, ghost origin: Origin)
      requires Accounted() && inFlight.None?
      modifies this`requestsMade, this`stoppedBy, this`inFlight, this`heard, world`events
      ensures Accounted() && Settled() == old(Settled())
      ensures world.events == if inFlight.Some? then old(world.events) + [SharedBudget.Count(me)] else old(world.events)
      ensures inFlight.Some? ==>
                && stoppedBy == old(stoppedBy) && stoppedBy != Some(ByStop) && heard == old(heard)
                && inFlight.value.url == c.url && inFlight.value.request.url == urls.parse(c.url)
                && inFlight.value.request.depth == c.depth && inFlight.value.request.pagesCrawled == pagesCrawled
      ensures inFlight.None? ==> stoppedBy == Some(ByStop) && heard == old(heard) + [Heard(c.url, origin, Stopped)]
    {
      var killSwitch: bool, stop: bool := *, *;
      KeptStopped(heard, Heard(c.url, origin, Stopped), Settled() - resumedAt, stoppedBy);
      if stoppedBy == Some(ByStop) || (!killSwitch && stop) {
        stoppedBy, heard := Some(ByStop), heard + [Heard(c.url, origin, Stopped)];
        return;
      }
      var tokenTaken: bool, resolvedIps: seq<string> := *, *;
      SharedBudget.BooksAfterCount(
        world.events, world.ceiling, |world.contacted|, me, requestsMade, unseen, beside);
      SharedBudget.OpenBooks(world.events, me, requestsMade, false, unseen, beside);
      world.Count(me);
      inFlight := Some(Flight(c.url,
        Request(urls.parse(c.url), c.verb, tokenTaken, resolvedIps, killSwitch, pagesCrawled, requestsMade, c.depth)));
      requestsMade := requestsMade + 1;
    }

    /** The request under way is sent or refused, and either way leaves one ledger row. */
    method Settle(ghost origin: Origin) returns (reply: Reply)
      requires Accounted() && inFlight.Some?
      modifies this`requestsMade, this`stoppedBy, this`inFlight, this`heard, world
      ensures Accounted() && inFlight.None? && Settled() == old(Settled()) + if reply.Declined? then 0 else 1
      ensures world.events == old(world.events) + SharedBudget.Decided(me, !reply.Declined?)
      ensures old(world.ledger) <= world.ledger && |world.ledger| == old(|world.ledger|) + 1
      ensures heard == old(heard) + [Heard(old(inFlight.value.url), origin, reply)]
      ensures RefusedAs(policy, old(inFlight.value.request), reply)
      ensures !reply.Declined? ==>
                var r := old(inFlight.value.request);
                && requestsMade <= policy.scope.maxRequests && r.pagesCrawled < policy.scope.maxPages
                && r.depth <= policy.scope.maxDepth
      ensures stoppedBy == if reply == Declined(KILL_SWITCH) then Some(ByKillSwitch)
                           else if reply == Declined(CEILING) then Some(ByCeiling) else old(stoppedBy)
      ensures !reply.Stopped?
    {
      var url := inFlight.value.url;
      ghost var sofar, stop := Settled() - resumedAt, stoppedBy;
      reply := SettleCount();
      Log(Heard(url, origin, reply), sofar, stop);
    }

    method SettleCount() returns (reply: Reply)
      requires Booked() && inFlight.Some?
      modifies this`requestsMade, this`stoppedBy, this`inFlight, world
      ensures Booked() && inFlight.None? && Settled() == old(Settled()) + if reply.Declined? then 0 else 1
      ensures world.events == old(world.events) + SharedBudget.Decided(me, !reply.Declined?)
      ensures old(world.ledger) <= world.ledger && |world.ledger| == old(|world.ledger|) + 1
      ensures !reply.Stopped? && RefusedAs(policy, old(inFlight.value.request), reply)
      ensures !reply.Declined? ==>
                var r := old(inFlight.value.request);
                && requestsMade <= policy.scope.maxRequests && r.pagesCrawled < policy.scope.maxPages
                && r.depth <= policy.scope.maxDepth
      ensures stoppedBy == if reply == Declined(KILL_SWITCH) then Some(ByKillSwitch)
                           else if reply == Declined(CEILING) then Some(ByCeiling) else old(stoppedBy)
    {
      var answer: Option<Answer> := *;
      var r := inFlight.value.request;
      inFlight := None;
      reply := Sending(r, answer);
      if reply.Declined? { Refuse(reply.code); }
    }

    ghost method Log(h: Heard, sofar: int, stop: Option<Halt>)
      requires Kept(heard, sofar, stop) && !h.reply.Stopped?
      modifies this`heard
      ensures heard == old(heard) + [h]
      ensures Kept(heard, sofar + if h.reply.Declined? then 0 else 1,
                   if h.reply == Declined(KILL_SWITCH) then Some(ByKillSwitch)
                   else if h.reply == Declined(CEILING) then Some(ByCeiling) else stop)
    {
      if h.reply.Declined? {
        KeptDeclined(heard, h, sofar, stop);
      } else {
        KeptSent(heard, h, sofar, stop);
      }
      heard := heard + [h];
    }

    /** The dispatch of a counted request. */
    method Sending(r: Request, answer: Option<Answer>) returns (reply: Reply)
      requires world.Balanced() && world.ceiling == policy.scope.maxRequests
      requires SharedBudget.Books(world.events, me, r.requestsMade + 1, true, unseen, beside)
      modifies world
      ensures world.Balanced() && world.events == old(world.events) + SharedBudget.Decided(me, !reply.Declined?)
      ensures SharedBudget.Books(
                world.events, me, r.requestsMade + if reply.Declined? then 0 else 1, false, unseen, beside)
      ensures old(world.ledger) <= world.ledger && |world.ledger| == old(|world.ledger|) + 1
      ensures !reply.Stopped? && RefusedAs(policy, r, reply)
      ensures !reply.Declined? ==>
                && r.requestsMade < policy.scope.maxRequests && r.pagesCrawled < policy.scope.maxPages
                && r.depth <= policy.scope.maxDepth
    {
      ghost var sofar := |world.contacted|;
      var outcome := Dispatch(world, policy, r, answer);
      if !outcome.Refused? { ApprovalGives(policy, r); }
      Book(r.requestsMade + 1, sofar, !outcome.Refused?);
      assert |world.contacted| == sofar + if outcome.Refused? then 0 else 1;
      reply := match outcome case Refused(code) => Declined(code) case Ok(a) => Answered(a) case Threw => NoReply;
    }

    /** What became of the counted request, in the history. */
    ghost method Book(count: int, sofar: nat, sent: bool)
      requires world.Traced(sofar) && SharedBudget.Books(world.events, me, count, true, unseen, beside)
      requires sent ==> count <= world.ceiling
      modifies world`events
      ensures world.Traced(sofar + if sent then 1 else 0)
      ensures world.events == old(world.events) + SharedBudget.Decided(me, sent)
      ensures SharedBudget.Books(world.events, me, count - if sent then 0 else 1, false, unseen, beside)
    {
      SharedBudget.BooksAfterDecided(world.events, world.ceiling, sofar, me, count, unseen, beside, sent);
      SharedBudget.OpenBooks(world.events, me, count, true, unseen, beside);
      world.Decide(me, sofar, sent);
    }

    /**
     * One paced request through the guard. Unless the scan was stopped it leaves
     * one ledger row, and it counts exactly when it was not refused.
     */
    method Paced(c: Chained, ghost origin: Origin) returns (reply: Reply)
      requires Accounted() && inFlight.None?
      modifies this`requestsMade, this`stoppedBy, this`inFlight, this`heard, world
      ensures Accounted() && inFlight.None? && old(world.ledger) <= world.ledger
      ensures heard == old(heard) + [Heard(c.url, origin, reply)]
      ensures |world.ledger| == old(|world.ledger|) + if reply.Stopped? then 0 else 1
      ensures requestsMade == old(requestsMade) + if reply.Declined? || reply.Stopped? then 0 else 1
      ensures requestsMade > old(requestsMade) ==>
                requestsMade <= policy.scope.maxRequests && pagesCrawled < policy.scope.maxPages
                && c.depth <= policy.scope.maxDepth
      ensures stoppedBy == if reply.Stopped? then Some(ByStop)
                           else if reply == Declined(KILL_SWITCH) then Some(ByKillSwitch)
                           else if reply == Declined(CEILING) then Some(ByCeiling) else old(stoppedBy)
      ensures old(stoppedBy) == Some(ByStop) ==> reply.Stopped?
    {
      Depart(c, origin);
      if inFlight.None? { return Stopped; }
      reply := Settle(origin);
    }

    // ----------------------------------------------------------------- the chain

    /** The chain moves on by one step: a request departs, or the one under way is settled. */
    method Advance()
      requires Accounted()
      modifies this`requestsMade, this`stoppedBy, this`chain, this`inFlight, this`heard, world
      ensures Accounted() && old(world.ledger) <= world.ledger && old(heard) <= heard
      ensures if old(inFlight.Some?) then inFlight.None? && chain == old(chain)
              else chain == if old(chain) == [] then [] else old(chain[1..])
      ensures if old(inFlight.Some?) then
                && heard != [] && Settled() == old(Settled()) + (if heard[|heard| - 1].reply.Declined? then 0 else 1)
                && world.events == old(world.events) + SharedBudget.Decided(me, !heard[|heard| - 1].reply.Declined?)
              else
                && Settled() == old(Settled())
                && world.events == if inFlight.Some? then old(world.events) + [SharedBudget.Count(me)] else old(world.events)
      ensures Own(heard) == old(Own(heard)) && (old(Idle()) ==> Idle() && heard == old(heard) && stoppedBy == old(stoppedBy))
      ensures old(inFlight.None?) && inFlight.Some? ==>
                old(chain) != [] && inFlight.value.url == old(chain[0].url)
                && inFlight.value.request.depth == old(chain[0].depth)
      ensures old(inFlight.Some?) ==>
                |heard| == old(|heard|) + 1 && heard[|heard| - 1].url == old(inFlight.value.url)
    {
      ghost var before := heard;
      if inFlight.Some? {
        var reply := Settle(ForBrowser);
        OneMoreHeard(before, heard[|heard| - 1]);
      } else if chain != [] {
        var next := chain[0];
        chain := chain[1..];
        Depart(next, ForBrowser);
        OneMoreHeard(before, Heard(next.url, ForBrowser, Stopped));
      }
    }

    /** Any time passes, and the chain moves on meanwhile. */
    method Elapse()
      requires Accounted()
      modifies this`requestsMade, this`stoppedBy, this`chain, this`inFlight, this`heard, world
      ensures Accounted() && old(world.ledger) <= world.ledger && Settled() >= old(Settled())
      ensures old(heard) <= heard && Own(heard) == old(Own(heard)) && (old(Idle()) ==> Idle() && heard == old(heard))
      ensures old(stoppedBy).Some? ==> stoppedBy.Some?
    {
      ghost var sofar, made, stop := heard, Settled() - resumedAt, stoppedBy;
      var steps: int := *;
      for i := 0 to Max(steps, 0)
        invariant Accounted() && old(world.ledger) <= world.ledger && Settled() >= old(Settled())
        invariant old(heard) <= heard && Own(heard) == old(Own(heard)) && (old(Idle()) ==> Idle() && heard == old(heard))
      {
        Advance();
      }
      NeverUndone(sofar, made, stop);
    }

    /** All that is on the chain is made and answered. */
    method Await()
      requires Accounted()
      modifies this`requestsMade, this`stoppedBy, this`chain, this`inFlight, this`heard, world
      ensures Accounted() && Idle() && old(world.ledger) <= world.ledger && Settled() >= old(Settled())
      ensures old(heard) <= heard && Own(heard) == old(Own(heard)) && (old(Idle()) ==> heard == old(heard))
    {
      while !Idle()
        invariant Accounted() && old(world.ledger) <= world.ledger && Settled() >= old(Settled())
        invariant old(heard) <= heard && Own(heard) == old(Own(heard)) && (old(Idle()) ==> heard == old(heard))
        decreases 2 * |chain| + if inFlight.Some? then 1 else 0
      {
        Advance();
      }
    }

    /** A request of the crawl's own: made, and awaited, after all that is on the chain. */
    method Ask(url: string, depth: int, verb: string, ghost origin: Origin) returns (reply: Reply)
      requires Accounted() && !origin.ForBrowser?
      modifies this`requestsMade, this`stoppedBy, this`chain, this`inFlight, this`heard, world
      ensures Accounted() && Idle() && old(world.ledger) <= world.ledger && old(heard) <= heard
      ensures Own(heard) == old(Own(heard)) + [Heard(url, origin, reply)]
      ensures (old(Idle()) ==> heard == old(heard) + [Heard(url, origin, reply)]) && (old(Quiet()) ==> Quiet())
      ensures reply.Stopped? || |world.ledger| > old(|world.ledger|)
      ensures Settled() >= old(Settled()) + if reply.Answered? || reply.NoReply? then 1 else 0
      ensures reply.Answered? ==> pagesCrawled < policy.scope.maxPages
    {
      Await();
      ghost var before := heard;
      reply := Paced(Chained(url, depth, verb), origin);
      OneMoreHeard(before, Heard(url, origin, reply));
    }

    // -------------------------------------------------------------- frontier

    /** The absolute form of `raw` when it may be crawled. */
    method InScopeUrl(raw: string) returns (url: Option<string>)
      ensures url.Some? <==>
                urls.absolute(raw).Some? && InScope(policy, urls, robots, urls.absolute(raw).value)
      ensures url.Some? ==> url == urls.absolute(raw)
    {
      url := urls.absolute(raw);
      if url.None? { return None; }
      var parsed := urls.parse(url.value);
      if parsed.None? || !parsed.value.inOrigin { return None; }
      var inPaths := PathScope.PathAllowed(
        policy.decode, policy.lower, parsed.value.path, policy.scope.includedPaths, policy.scope.excludedPaths);
      if !inPaths { return None; }
      var permitted := Robots.RobotsAllows(urls.target(url.value), robots);
      if !permitted { return None; }
    }

    /** The same, by the rules in force. */
    method ScopedUrl(raw: string) returns (url: Option<string>)
      requires Ruled()
      ensures url.Some? <==> urls.absolute(raw).Some? && rules.scoped(urls.absolute(raw).value)
      ensures url.Some? ==> url == urls.absolute(raw)
    {
      url := InScopeUrl(raw);
    }

    method Enqueue(raw: string, depth: int)
      requires Frontier() && Ruled()
      modifies this`queue, this`seen
      ensures Frontier() && Waiting() == Queued(urls, rules.admits, old(Waiting()), raw, depth)
    {
      var url := InScopeUrl(raw);
      assert url.Some? && depth <= policy.scope.maxDepth ==> Admissible(policy, urls, robots, QueuedUrl(url.value, depth));
      assert urls.absolute(raw).Some? && (url.None? || depth > policy.scope.maxDepth) ==>
          !Admissible(policy, urls, robots, QueuedUrl(urls.absolute(raw).value, depth));
      if depth > policy.scope.maxDepth || url.None? { return; }
      var key := urls.canonical(url.value);
      if key in seen { return; }
      var q := QueuedUrl(url.value, depth);
      AdmitPage(urls.canonical, rules.admits, visited + queue, seen, q);
      assert visited + (queue + [q]) == visited + queue + [q];
      seen := seen + {key};
      queue := queue + [q];
    }

    method EnqueueAll(links: seq<string>, depth: int)
      requires Frontier() && Ruled()
      modifies this`queue, this`seen
      ensures Frontier() && Waiting() == QueuedAll(urls, rules.admits, old(Waiting()), links, depth)
    {
      for i := 0 to |links|
        invariant Frontier() && Waiting() == QueuedAll(urls, rules.admits, old(Waiting()), links[..i], depth)
      {
        assert links[..i + 1][..i] == links[..i];
        Enqueue(links[i], depth);
      }
      assert links[..|links|] == links;
    }

    // ----------------------------------------------------------------- pages

    /** Strictly less left to do: more requests settled, or fewer pages to render, or a shorter queue. */
    ghost predicate Less(made: int, rendering: nat, queued: nat)
      reads this
    {
      || Settled() > made
      || (Settled() == made && (|toRender| < rendering || (|toRender| == rendering && |queue| < queued)))
    }

    ghost predicate NoMore(made: int, rendering: nat, queued: nat)
      reads this
    {
      Less(made, rendering, queued) || (Settled() == made && |toRender| == rendering && |queue| == queued)
    }

    /** One page: counted, its links queued and itself set aside for rendering, when the target answered. */
    method Visit(next: QueuedUrl) returns (ghost reply: Reply)
      requires Valid()
      modifies this`requestsMade, this`stoppedBy, this`chain, this`inFlight, this`heard, this`queue, this`seen,
        this`toRender, this`pagesCrawled, this`blockedPages, world
      ensures Valid() && Idle() && old(world.ledger) <= world.ledger && old(heard) <= heard && (old(Quiet()) ==> Quiet())
      ensures Own(heard) == old(Own(heard)) + [Heard(next.url, ForPage, reply)]
      ensures Settled() >= old(Settled()) + if reply.Answered? then 1 else 0
      ensures reply.Answered? ==> Waiting() == AfterVisit(urls, rules.admits, old(Waiting()), next, reply.answer)
      ensures reply.Answered? ==>
                toRender == old(toRender) + if reply.answer.html && reply.answer.status == 200 then [next] else []
      ensures reply.Answered? ==>
                && pagesCrawled == old(pagesCrawled) + 1
                && blockedPages == old(blockedPages) + if IsBlockedStatus(reply.answer.status) then 1 else 0
      ensures !reply.Answered? ==>
                && Waiting() == old(Waiting()) && toRender == old(toRender)
                && pagesCrawled == old(pagesCrawled) && blockedPages == old(blockedPages)
    {
      var got := Ask(next.url, next.depth, "GET", ForPage);
      reply := got;
      if got.Answered? {
        Absorb(next, got.answer);
      }
    }

    /** What an answer adds to the crawl. */
    method Absorb(next: QueuedUrl, answer: Answer)
      requires Valid() && pagesCrawled < policy.scope.maxPages
      modifies this`queue, this`seen, this`toRender, this`pagesCrawled, this`blockedPages
      ensures Valid() && Waiting() == AfterVisit(urls, rules.admits, old(Waiting()), next, answer)
      ensures toRender == old(toRender) + if answer.html && answer.status == 200 then [next] else []
      ensures pagesCrawled == old(pagesCrawled) + 1
      ensures blockedPages == old(blockedPages) + if IsBlockedStatus(answer.status) then 1 else 0
    {
      Follow(next, answer);
      if answer.html && answer.status == 200 { toRender := toRender + [next]; }
      pagesCrawled := pagesCrawled + 1;
      if IsBlockedStatus(answer.status) { blockedPages := blockedPages + 1; }
    }

    /** Queues a redirect at the page's own depth, and the page's links one deeper. */
    method Follow(page: QueuedUrl, answer: Answer)
      requires Frontier() && Ruled()
      modifies this`queue, this`seen
      ensures Frontier() && Waiting() == AfterVisit(urls, rules.admits, old(Waiting()), page, answer)
    {
      if 300 <= answer.status < 400 && answer.location.Some? {
        Enqueue(answer.location.value, page.depth);
      }
      if answer.html {
        EnqueueAll(answer.links, page.depth + 1);
      }
    }

    /** Renders every page not yet rendered; what the renders request may still be on the chain afterwards. */
    method RenderPending()
      requires Valid() && Told()
      modifies this`requestsMade, this`stoppedBy, this`chain, this`inFlight, this`heard, this`queue, this`seen,
        this`toRender, this`rendered, this`revealed, world
      ensures Valid() && Told() && old(world.ledger) <= world.ledger && old(heard) <= heard
      ensures NoMore(old(Settled()), old(|toRender|), old(|queue|))
      ensures visited == old(visited) && pagesCrawled == old(pagesCrawled)
      ensures Own(heard) == old(Own(heard)) && old(seen) <= seen
      ensures if hasRenderer then toRender == [] || Spent(1) else rendered == old(rendered) && (old(Quiet()) ==> Quiet())
    {
      if !hasRenderer { return; }
      while toRender != [] && WithinBudget()
        invariant Valid() && Told() && old(world.ledger) <= world.ledger && old(heard) <= heard
        invariant NoMore(old(Settled()), old(|toRender|), old(|queue|))
        invariant Own(heard) == old(Own(heard)) && old(seen) <= seen
        decreases policy.scope.maxRequests - Settled(), |toRender|
      {
        RenderNext();
      }
    }

    method RenderNext()
      requires Valid() && Told() && toRender != []
      modifies this`requestsMade, this`stoppedBy, this`chain, this`inFlight, this`heard, this`queue, this`seen,
        this`toRender, this`rendered, this`revealed, world
      ensures Valid() && Told() && old(world.ledger) <= world.ledger && old(heard) <= heard
      ensures toRender == old(toRender[1..]) && Settled() >= old(Settled())
      ensures rendered == old(rendered + [toRender[0]])
      ensures Own(heard) == old(Own(heard)) && old(seen) <= seen
    {
      var page := toRender[0];
      ghost var tasks := toRender;
      toRender := toRender[1..];
      RenderTold(page, tasks);
    }

    method RenderTold(page: QueuedUrl, ghost tasks: seq<QueuedUrl>)
      requires Valid() && tasks != [] && toRender == tasks[1..] && page == tasks[0]
      requires Story(rules, seen, Own(heard), setup, visited, pages, rendered, revealed, tasks)
      modifies this`requestsMade, this`stoppedBy, this`chain, this`inFlight, this`heard, this`queue, this`seen,
        this`rendered, this`revealed, world
      ensures Valid() && Told() && old(world.ledger) <= world.ledger && old(heard) <= heard
      ensures Settled() >= old(Settled()) && rendered == old(rendered) + [page]
      ensures Own(heard) == old(Own(heard)) && old(seen) <= seen
    {
      ghost var before := Waiting();
      ghost var links := Render(page);
      TellRender(tasks, links, before);
    }

    ghost method TellRender(tasks: seq<QueuedUrl>, links: seq<string>, before: Pages)
      requires Valid() && tasks != [] && toRender == tasks[1..]
      requires Story(rules, before.seen, Own(heard), setup, visited, pages, rendered, revealed, tasks)
      requires Ruled() && Waiting() == QueuedAll(urls, rules.admits, before, links, tasks[0].depth + 1)
      modifies this`rendered, this`revealed
      ensures Valid() && Told() && rendered == old(rendered) + [tasks[0]]
    {
      StoryRendered(
        rules, before, Waiting(), Own(heard), setup, visited, pages, rendered, revealed, tasks, links);
      rendered, revealed := rendered + [tasks[0]], revealed + [links];
    }

    /**
     * The browser puts any number of requests for one page on the chain, which moves
     * on meanwhile as far as it will. The links the page reveals are one deeper.
     */
    method Render(page: QueuedUrl) returns (ghost found: seq<string>)
      requires Valid()
      modifies this`requestsMade, this`stoppedBy, this`chain, this`inFlight, this`heard, this`queue, this`seen, world
      ensures Valid() && old(world.ledger) <= world.ledger && old(heard) <= heard && Settled() >= old(Settled())
      ensures Own(heard) == old(Own(heard))
      ensures Waiting() == QueuedAll(urls, rules.admits, old(Waiting()), found, page.depth + 1)
    {
      Fire(page.depth);
      var links: seq<string> := *;
      found := links;
      EnqueueAll(links, page.depth + 1);
      Elapse();
    }

    method Fire(depth: int)
      requires Accounted()
      modifies this`requestsMade, this`stoppedBy, this`chain, this`inFlight, this`heard, world
      ensures Accounted() && old(world.ledger) <= world.ledger && Settled() >= old(Settled())
      ensures old(heard) <= heard && Own(heard) == old(Own(heard))
    {
      var fired: int := *;
      for i := 0 to Max(fired, 0)
        invariant Accounted() && old(world.ledger) <= world.ledger && Settled() >= old(Settled())
        invariant old(heard) <= heard && Own(heard) == old(Own(heard))
      {
        var url: string, verb: string := *, *;
        chain := chain + [Chained(url, depth, verb)];
        Elapse();
      }
    }

    /** Visits the first page of the queue, after which strictly less is left to do. */
    method VisitNext()
      requires Valid() && Told() && queue != []
      modifies this`requestsMade, this`stoppedBy, this`chain, this`inFlight, this`heard, this`queue, this`seen,
        this`toRender, this`pagesCrawled, this`blockedPages, this`visited, this`pages, world
      ensures Valid() && Told() && Idle() && old(world.ledger) <= world.ledger
      ensures old(heard) <= heard && (old(Quiet()) ==> Quiet())
      ensures visited == old(visited + [queue[0]]) && old(seen) <= seen && pagesCrawled >= old(pagesCrawled)
      ensures Less(old(Settled()), old(|toRender|), old(|queue|))
    {
      ghost var own, sofar, tasks := Own(heard), visited, toRender;
      var next := TakeNext();
      ghost var before := Waiting();
      ghost var reply := Visit(next);
      Tell(before, own, sofar, tasks, next, reply);
    }

    /** The page's request and its reply join those of the pages before. */
    ghost method Tell(
        before: Pages, own: seq<Heard>, sofar: seq<QueuedUrl>, tasks: seq<QueuedUrl>, next: QueuedUrl, reply: Reply)
      requires Valid() && visited == sofar + [next]
      requires Story(rules, before.seen, own, setup, sofar, pages, rendered, revealed, tasks)
      requires if reply.Answered? then Waiting() == AfterVisit(urls, rules.admits, before, next, reply.answer)
               else Waiting() == before
      requires toRender == tasks +
               if reply.Answered? && reply.answer.html && reply.answer.status == 200 then [next] else []
      requires Own(heard) == own + [Heard(next.url, ForPage, reply)]
      modifies this`pages
      ensures Valid() && Told() && before.seen <= seen
    {
      var h := Heard(next.url, ForPage, reply);
      StoryVisited(rules, before, Waiting(), own, setup, sofar, pages, rendered, revealed, tasks, next, h);
      pages := pages + [h];
    }

    method TakeNext() returns (next: QueuedUrl)
      requires Frontier() && queue != []
      modifies this`queue, this`visited
      ensures Frontier() && next == old(queue[0]) && queue == old(queue[1..]) && visited == old(visited) + [next]
    {
      next := queue[0];
      assert visited + [next] + queue[1..] == visited + queue;
      visited := visited + [next];
      queue := queue[1..];
    }

    /** Visits until the queue or the budget runs dry. */
    method VisitAll()
      requires Valid() && Told()
      modifies this`requestsMade, this`stoppedBy, this`chain, this`inFlight, this`heard, this`queue, this`seen,
        this`toRender, this`pagesCrawled, this`blockedPages, this`visited, this`pages, world
      ensures Valid() && Told() && old(world.ledger) <= world.ledger && old(heard) <= heard
      ensures old(visited) <= visited && old(seen) <= seen && (old(Quiet()) ==> Quiet()) && pagesCrawled >= old(pagesCrawled)
      ensures if old(queue != [] && WithinBudget()) then Less(old(Settled()), old(|toRender|), old(|queue|))
              else NoMore(old(Settled()), old(|toRender|), old(|queue|))
    {
      ghost var turns := 0;
      while queue != [] && WithinBudget()
        invariant Valid() && Told() && old(world.ledger) <= world.ledger && old(heard) <= heard
        invariant old(visited) <= visited && old(seen) <= seen && (old(Quiet()) ==> Quiet()) && pagesCrawled >= old(pagesCrawled)
        invariant if turns == 0 then queue == old(queue) && unchanged(this)
                  else Less(old(Settled()), old(|toRender|), old(|queue|))
        decreases policy.scope.maxRequests - Settled(), |toRender|, |queue|
      {
        VisitNext();
        turns := turns + 1;
      }
    }

    /** Visits until the queue or the budget runs dry, then renders; the chain goes on. */
    method Drain()
      requires Valid() && Told()
      modifies this`requestsMade, this`stoppedBy, this`chain, this`inFlight, this`heard, this`queue, this`seen,
        this`toRender, this`rendered, this`revealed, this`pagesCrawled, this`blockedPages, this`visited, this`pages, world
      ensures Valid() && Told() && old(world.ledger) <= world.ledger && old(heard) <= heard
      ensures old(visited) <= visited && old(seen) <= seen && pagesCrawled >= old(pagesCrawled)
      ensures if hasRenderer then toRender == [] || Spent(1) else rendered == old(rendered) && (old(Quiet()) ==> Quiet())
      ensures NoMore(old(Settled()), old(|toRender|), old(|queue|))
      ensures old(queue != [] && WithinBudget()) ==> Less(old(Settled()), old(|toRender|), old(|queue|))
    {
      VisitAll();
      RenderAndWait();
    }

    method RenderAndWait()
      requires Valid() && Told()
      modifies this`requestsMade, this`stoppedBy, this`chain, this`inFlight, this`heard, this`queue, this`seen,
        this`toRender, this`rendered, this`revealed, world
      ensures Valid() && Told() && old(world.ledger) <= world.ledger && old(heard) <= heard
      ensures old(seen) <= seen && NoMore(old(Settled()), old(|toRender|), old(|queue|))
      ensures if hasRenderer then toRender == [] || Spent(1) else rendered == old(rendered) && (old(Quiet()) ==> Quiet())
    {
      RenderPending();
      Elapse();
    }

    // ------------------------------------------------------------------ setup

    /** The rules are those of the reply to the robots.txt request, the next one heard. */
    method ReadRobots() returns (served: Robots.Rules, ghost reply: Reply)
      requires Valid() && Idle()
      modifies this`requestsMade, this`stoppedBy, this`chain, this`inFlight, this`heard, this`robotsDisallowAll, world
      ensures Accounted() && Idle() && old(world.ledger) <= world.ledger
      ensures heard == old(heard) + [Heard("/robots.txt", ForRobots, reply)] && served == RulesFrom(reply)
      ensures robotsDisallowAll <==> old(robotsDisallowAll) || Unreachable(reply)
    {
      var got := Ask("/robots.txt", 0, "GET", ForRobots);
      reply := got;
      if got.NoReply? || got.Stopped? || (got.Answered? && got.answer.status >= 500) {
        robotsDisallowAll := true;
        return DISALLOW_ALL, got;
      }
      if got.Declined? || got.answer.status != 200 { return NO_ROBOTS, got; }
      return got.answer.robots, got;
    }

    method EnqueueSitemap(locs: seq<string>) returns (nested: seq<string>)
      requires Frontier() && Ruled()
      modifies this`queue, this`seen
      ensures Frontier() && Waiting() == AfterSitemap(urls, rules.admits, old(Waiting()), locs)
      ensures nested == NestedSitemaps(locs)
    {
      nested := [];
      for i := 0 to |locs|
        invariant Frontier() && Waiting() == AfterSitemap(urls, rules.admits, old(Waiting()), locs[..i])
        invariant nested == NestedSitemaps(locs[..i])
      {
        assert locs[..i + 1][..i] == locs[..i];
        if EndsWith(locs[i], ".xml") {
          nested := nested + [locs[i]];
        } else {
          Enqueue(locs[i], 1);
        }
      }
      assert locs[..|locs|] == locs;
    }

    /** The nested sitemaps of a sitemap that was read, the pages it lists queued. */
    method ReadSitemap(sitemap: string) returns (nested: seq<string>, ghost reply: Reply)
      requires Valid()
      modifies this`requestsMade, this`stoppedBy, this`chain, this`inFlight, this`heard, this`queue, this`seen, world
      ensures Valid() && Idle() && old(world.ledger) <= world.ledger && old(heard) <= heard && (old(Quiet()) ==> Quiet())
      ensures Own(heard) == old(Own(heard)) + [Heard(sitemap, ForSitemap, reply)]
      ensures Waiting() == AfterSitemap(urls, rules.admits, old(Waiting()), LocsIn(reply))
      ensures nested == NestedSitemaps(LocsIn(reply))
    {
      nested := [];
      var got := Ask(sitemap, 0, "GET", ForSitemap);
      reply := got;
      if !got.Answered? || got.answer.status != 200 { return; }
      nested := EnqueueSitemap(got.answer.locs);
    }

    /**
     * Sitemaps are requested in the order they are learnt of, each once, and all of those
     * in scope unless five were requested or the budget is spent.
     */
    method ReadSitemaps()
      returns (fetched: set<string>, ghost sitemaps: seq<Heard>, ghost done: seq<string>, ghost left: seq<string>)
      requires Valid() && Quiet()
      modifies this`requestsMade, this`stoppedBy, this`chain, this`inFlight, this`heard, this`queue, this`seen, world
      ensures Valid() && Quiet() && old(world.ledger) <= world.ledger && old(heard) <= heard
      ensures old(queue) <= queue && old(seen) <= seen
      ensures Own(heard) == old(Own(heard)) + sitemaps && Sofar(rules, seen, sitemaps, fetched, done, left)
      ensures SitemapsRead(urls, rules.scoped, rules.admits, seen, sitemaps)
      ensures InOrder(urls, rules.scoped, robots, sitemaps, done, left)
      ensures left == [] || |sitemaps| == MAX_SITEMAPS || Spent(0)
    {
      var pending := robots.sitemaps + ["/sitemap.xml"];
      fetched := {};
      sitemaps, done, left := [], [], pending;
      SofarNothing(rules, seen, pending);
      while pending != [] && |fetched| < MAX_SITEMAPS && WithinBudget()
        invariant Valid() && Quiet() && old(world.ledger) <= world.ledger && old(heard) <= heard
        invariant old(queue) <= queue && old(seen) <= seen && |fetched| <= MAX_SITEMAPS
        invariant Own(heard) == old(Own(heard)) + sitemaps
        invariant left == pending && Sofar(rules, seen, sitemaps, fetched, done, left)
        decreases MAX_SITEMAPS - |fetched|, |pending|
      {
        var nested;
        ghost var asked;
        fetched, nested, asked := NextSitemap(pending[0], fetched, sitemaps, done, left);
        Regrouped(old(Own(heard)), sitemaps, asked);
        pending := pending[1..] + nested;
        sitemaps, done, left := sitemaps + asked, done + [left[0]], left[1..] + nested;
      }
      OpenSofar(rules, seen, sitemaps, fetched, done, left);
    }

    /** Fetches a sitemap when it is in scope and was not fetched before. */
    method NextSitemap(
        raw: string, fetched: set<string>, ghost sofar: seq<Heard>, ghost done: seq<string>, ghost left: seq<string>)
      returns (now: set<string>, nested: seq<string>, ghost asked: seq<Heard>)
      requires Valid() && Quiet() && |fetched| < MAX_SITEMAPS
      requires left != [] && left[0] == raw && Sofar(rules, seen, sofar, fetched, done, left)
      modifies this`requestsMade, this`stoppedBy, this`chain, this`inFlight, this`heard, this`queue, this`seen, world
      ensures Valid() && Quiet() && old(world.ledger) <= world.ledger && old(heard) <= heard
      ensures old(queue) <= queue && old(seen) <= seen && Own(heard) == old(Own(heard)) + asked
      ensures Sofar(rules, seen, sofar + asked, now, done + [raw], left[1..] + nested)
      ensures |now| == |fetched| + 1 || (now == fetched && nested == [])
    {
      now, nested, asked := fetched, [], [];
      var sitemap := ScopedUrl(raw);
      if sitemap.None? || sitemap.value in fetched {
        SofarSkipped(rules, seen, sofar, fetched, done, left);
        return;
      }
      ghost var before := Waiting();
      ghost var reply;
      nested, reply := ReadSitemap(sitemap.value);
      now := fetched + {sitemap.value};
      asked := [Heard(sitemap.value, ForSitemap, reply)];
      SitemapIsRead(before, sofar, fetched, done, left, asked[0]);
    }

    lemma SitemapIsRead(
        before: Pages, sofar: seq<Heard>, fetched: set<string>, done: seq<string>, left: seq<string>, h: Heard)
      requires Sofar(rules, before.seen, sofar, fetched, done, left) && left != [] && |fetched| < MAX_SITEMAPS
      requires Ruled() && urls.absolute(left[0]) == Some(h.url) && rules.scoped(h.url) && h.url !in fetched
      requires h.origin == ForSitemap && Waiting() == AfterSitemap(urls, rules.admits, before, LocsIn(h.reply))
      ensures Sofar(rules, seen, sofar + [h], fetched + {h.url}, done + [left[0]],
                    left[1..] + NestedSitemaps(LocsIn(h.reply)))
    {
      AfterSitemapFinds(urls, rules.admits, before, LocsIn(h.reply));
      SofarRequested(rules, before.seen, seen, sofar, fetched, done, left, h);
    }

    /** What the setup asked for and found. */
    ghost predicate SetUp(sitemaps: seq<Heard>, done: seq<string>, left: seq<string>)
      reads this`seen, this`rules
    {
      SetUpAs(rules, policy.scope, seen, sitemaps, done, left)
    }

    /** Reads robots.txt, then queues the entry points and what the sitemaps list. */
    method Start() returns (ghost reply: Reply, ghost sitemaps: seq<Heard>, ghost done: seq<string>, ghost left: seq<string>)
      requires Valid() && Fresh()
      modifies this`requestsMade, this`stoppedBy, this`chain, this`inFlight, this`heard, this`queue, this`seen,
        this`robotsDisallowAll, this`robots, this`rules, world
      ensures Valid() && Quiet() && old(world.ledger) <= world.ledger
      ensures [Heard("/robots.txt", ForRobots, reply)] <= heard && robots == RulesFrom(reply)
      ensures robotsDisallowAll <==> Unreachable(reply)
      ensures QueuedAll(urls, rules.admits, Pages([], {}), Entries(policy.scope), 0).queue <= queue
      ensures Own(heard) == [Heard("/robots.txt", ForRobots, reply)] + sitemaps && SetUp(sitemaps, done, left)
      ensures left == [] || |sitemaps| == MAX_SITEMAPS || Spent(0)
    {
      reply := ReadRules();
      sitemaps, done, left := EnqueueEntries();
    }

    /** The entry paths and the contact file, then what the sitemaps list. */
    method EnqueueEntries() returns (ghost sitemaps: seq<Heard>, ghost done: seq<string>, ghost left: seq<string>)
      requires Valid() && Quiet() && queue == [] && seen == {}
      modifies this`requestsMade, this`stoppedBy, this`chain, this`inFlight, this`heard, this`queue, this`seen, world
      ensures Valid() && Quiet() && old(world.ledger) <= world.ledger && old(heard) <= heard
      ensures QueuedAll(urls, rules.admits, Pages([], {}), Entries(policy.scope), 0).queue <= queue
      ensures Own(heard) == old(Own(heard)) + sitemaps && SetUp(sitemaps, done, left)
      ensures left == [] || |sitemaps| == MAX_SITEMAPS || Spent(0)
    {
      EnqueueAll(EntryPaths(policy.scope), 0);
      Enqueue(CONTACT_FILE, 0);
      ghost var before, entries := seen, Entries(policy.scope);
      assert entries[..|entries| - 1] == EntryPaths(policy.scope);
      QueuedAllFinds(urls, rules.admits, Pages([], {}), entries, 0);
      var fetched;
      fetched, sitemaps, done, left := ReadSitemaps();
      CloseSetUp(rules, policy.scope, before, seen, sitemaps, fetched, done, left);
    }

    /** From here on the site's rules decide what is admitted. */
    method ReadRules() returns (ghost reply: Reply)
      requires Valid() && Fresh()
      modifies this`requestsMade, this`stoppedBy, this`chain, this`inFlight, this`heard, this`robotsDisallowAll,
        this`robots, this`rules, world
      ensures Valid() && Quiet() && old(world.ledger) <= world.ledger
      ensures heard == Own(heard) == [Heard("/robots.txt", ForRobots, reply)] && robots == RulesFrom(reply)
      ensures robotsDisallowAll <==> Unreachable(reply)
    {
      var served;
      served, reply := ReadRobots();
      robots, rules := served, RulingFor(policy, urls, served);
      assert visited + queue == [];
      OneHeard(heard[0]);
    }

    lemma VisitedAreAdmissible()
      requires Frontier() && Ruled()
      ensures forall i :: 0 <= i < |visited| ==> Admissible(policy, urls, robots, visited[i])
      ensures forall i, j :: 0 <= i < j < |visited| ==>
                urls.canonical(visited[i].url) != urls.canonical(visited[j].url)
    {
      var pages := visited + queue;
      forall i | 0 <= i < |visited| ensures Admissible(policy, urls, robots, visited[i]) {
        assert visited[i] == pages[i] && rules.admits(pages[i]);
      }
      forall i, j | 0 <= i < j < |visited|
        ensures urls.canonical(visited[i].url) != urls.canonical(visited[j].url)
      {
        assert visited[i] == pages[i] && visited[j] == pages[j];
      }
    }

    lemma NothingVisitedUnderDisallowAll()
      requires Frontier() && Ruled() && robots == DISALLOW_ALL && Rooted(urls)
      ensures visited == []
    {
      if visited != [] {
        NothingPermitted(urls.target(visited[0].url));
        VisitedAreAdmissible();
      }
    }

    lemma SitemapsAreInScope(sitemaps: seq<Heard>)
      requires Ruled() && SitemapsRead(urls, rules.scoped, rules.admits, seen, sitemaps)
      ensures forall i :: 0 <= i < |sitemaps| ==> InScope(policy, urls, robots, sitemaps[i].url)
    {
      forall i | 0 <= i < |sitemaps| ensures InScope(policy, urls, robots, sitemaps[i].url) {
        assert SitemapRead(urls, rules.scoped, rules.admits, seen, sitemaps[i]);
      }
    }

    lemma NoneLeft(sitemaps: seq<Heard>, done: seq<string>)
      requires Ruled() && InOrder(urls, rules.scoped, robots, sitemaps, done, [])
      ensures AllInScopeRequested(policy, urls, robots, sitemaps)
    {
      NoneLeftMeansAll(urls, rules.scoped, robots, sitemaps, done);
      var raws := KnownSitemaps(robots, sitemaps);
      forall i | 0 <= i < |raws| && urls.absolute(raws[i]).Some?
                 && InScope(policy, urls, robots, urls.absolute(raws[i]).value)
        ensures urls.absolute(raws[i]).value in UrlsOf(sitemaps)
      {
        assert rules.scoped(urls.absolute(raws[i]).value);
      }
    }

    lemma NothingLeftQueued()
      requires Frontier() && queue == []
      ensures seen == KeysOf(urls.canonical, visited)
    {
      assert visited + queue == visited;
    }

    /**
     * The crawl ends, whatever the target and the renderer do. Its own requests are
     * one for robots.txt, whose reply gives the rules in force, then those for
     * sitemaps, then one for each visited URL, in order. No canonical URL was visited
     * twice; each visited page is in scope, permitted by the rules the site served, and
     * shallow enough; none was visited when the robots.txt request got no answer or a
     * server error. Every sitemap in scope was requested, unless five were or the budget
     * is spent, and with a renderer every HTML page was rendered, unless it is nearly
     * spent. Whatever an entry path, a sitemap, a redirect, a link or a render points to
     * and the rules admit was seen, and when the queue ran dry, what was seen was
     * visited. Browser requests may be left on the chain, if there is a browser.
     */
    method Run() returns (ghost reply: Reply, ghost sitemaps: seq<Heard>, ghost done: seq<string>, ghost left: seq<string>)
      requires Valid() && Fresh()
      modifies this`requestsMade, this`stoppedBy, this`chain, this`inFlight, this`heard, this`queue, this`seen,
        this`toRender, this`rendered, this`revealed, this`pagesCrawled, this`blockedPages, this`visited, this`pages,
        this`setup, this`robotsDisallowAll, this`robots, this`rules, world
      ensures Valid() && old(world.ledger) <= world.ledger
      ensures !hasRenderer ==> Quiet()
      ensures queue == [] || !WithinBudget()
      ensures [Heard("/robots.txt", ForRobots, reply)] <= heard && robots == RulesFrom(reply)
      ensures robotsDisallowAll <==> Unreachable(reply)
      ensures Own(heard) == [Heard("/robots.txt", ForRobots, reply)] + sitemaps + pages
      ensures InOrder(urls, rules.scoped, robots, sitemaps, done, left)
      ensures left == [] || |sitemaps| == MAX_SITEMAPS || Spent(0)
      ensures left == [] ==> AllInScopeRequested(policy, urls, robots, sitemaps)
      ensures SitemapsRead(urls, rules.scoped, rules.admits, seen, sitemaps)
      ensures forall i :: 0 <= i < |sitemaps| ==> InScope(policy, urls, robots, sitemaps[i].url)
      ensures PagesFollowed(urls, rules.admits, seen, visited, pages)
      ensures AllFound(urls, rules.admits, seen, Entries(policy.scope), 0)
      ensures Tasks(visited, pages, rendered, toRender) && Revealed(urls, rules.admits, seen, rendered, revealed)
      ensures if hasRenderer then toRender == [] || Spent(1) else rendered == []
      ensures queue == [] ==> seen == KeysOf(urls.canonical, visited)
      ensures forall i :: 0 <= i < |visited| ==> Admissible(policy, urls, robots, visited[i])
      ensures forall i, j :: 0 <= i < j < |visited| ==>
                urls.canonical(visited[i].url) != urls.canonical(visited[j].url)
      ensures Unreachable(reply) && Rooted(urls) ==> visited == []
    {
      reply, sitemaps, done, left := StartAndDrain();
      WhatRunMeans(sitemaps, done, left);
    }

    lemma WhatRunMeans(sitemaps: seq<Heard>, done: seq<string>, left: seq<string>)
      requires Frontier() && Ruled() && Told() && SetUp(sitemaps, done, left)
      ensures Own(heard) == setup + pages && PagesFollowed(urls, rules.admits, seen, visited, pages)
      ensures Tasks(visited, pages, rendered, toRender) && Revealed(urls, rules.admits, seen, rendered, revealed)
      ensures AllFound(urls, rules.admits, seen, Entries(policy.scope), 0)
      ensures SitemapsRead(urls, rules.scoped, rules.admits, seen, sitemaps)
      ensures InOrder(urls, rules.scoped, robots, sitemaps, done, left)
      ensures left == [] ==> AllInScopeRequested(policy, urls, robots, sitemaps)
      ensures forall i :: 0 <= i < |sitemaps| ==> InScope(policy, urls, robots, sitemaps[i].url)
      ensures queue == [] ==> seen == KeysOf(urls.canonical, visited)
      ensures forall i :: 0 <= i < |visited| ==> Admissible(policy, urls, robots, visited[i])
      ensures forall i, j :: 0 <= i < j < |visited| ==>
                urls.canonical(visited[i].url) != urls.canonical(visited[j].url)
      ensures robots == DISALLOW_ALL && Rooted(urls) ==> visited == []
    {
      OpenStory(rules, seen, Own(heard), setup, visited, pages, rendered, revealed, toRender);
      OpenSetUp(rules, policy.scope, seen, sitemaps, done, left);
      VisitedAreAdmissible();
      SitemapsAreInScope(sitemaps);
      if left == [] { NoneLeft(sitemaps, done); }
      if queue == [] { NothingLeftQueued(); }
      if robots == DISALLOW_ALL && Rooted(urls) { NothingVisitedUnderDisallowAll(); }
    }

    method StartTold()
      returns (ghost reply: Reply, ghost sitemaps: seq<Heard>, ghost done: seq<string>, ghost left: seq<string>)
      requires Valid() && Fresh()
      modifies this`requestsMade, this`stoppedBy, this`chain, this`inFlight, this`heard, this`queue, this`seen,
        this`setup, this`robotsDisallowAll, this`robots, this`rules, world
      ensures Valid() && Told() && Quiet() && old(world.ledger) <= world.ledger
      ensures [Heard("/robots.txt", ForRobots, reply)] <= heard && robots == RulesFrom(reply)
      ensures robotsDisallowAll <==> Unreachable(reply)
      ensures setup == [Heard("/robots.txt", ForRobots, reply)] + sitemaps && SetUp(sitemaps, done, left)
      ensures left == [] || |sitemaps| == MAX_SITEMAPS || Spent(0)
    {
      reply, sitemaps, done, left := Start();
      TellSetup();
    }

    ghost method TellSetup()
      requires visited == [] && pages == [] && toRender == [] && rendered == [] && revealed == []
      modifies this`setup
      ensures Told() && setup == Own(heard)
    {
      setup := Own(heard);
      StoryBegins(rules, seen, setup);
    }

    method StartAndDrain()
      returns (ghost reply: Reply, ghost sitemaps: seq<Heard>, ghost done: seq<string>, ghost left: seq<string>)
      requires Valid() && Fresh()
      modifies this`requestsMade, this`stoppedBy, this`chain, this`inFlight, this`heard, this`queue, this`seen,
        this`toRender, this`rendered, this`revealed, this`pagesCrawled, this`blockedPages, this`visited, this`pages,
        this`setup, this`robotsDisallowAll, this`robots, this`rules, world
      ensures Valid() && Told() && old(world.ledger) <= world.ledger
      ensures queue == [] || !WithinBudget()
      ensures [Heard("/robots.txt", ForRobots, reply)] <= heard && robots == RulesFrom(reply)
      ensures robotsDisallowAll <==> Unreachable(reply)
      ensures setup == [Heard("/robots.txt", ForRobots, reply)] + sitemaps && SetUp(sitemaps, done, left)
      ensures left == [] || |sitemaps| == MAX_SITEMAPS || Spent(0)
      ensures if hasRenderer then toRender == [] || Spent(1) else rendered == [] && Quiet()
    {
      reply, sitemaps, done, left := StartTold();
      ghost var before, sofar, made, stop := seen, heard, Settled() - resumedAt, stoppedBy;
      DrainAll();
      NeverUndone(sofar, made, stop);
      SetUpStays(rules, policy.scope, before, seen, sitemaps, done, left);
    }

    /** Visits and renders in turn until neither leaves anything queued, or the budget is spent. */
    method DrainAll()
      requires Valid() && Told()
      modifies this`requestsMade, this`stoppedBy, this`chain, this`inFlight, this`heard, this`queue, this`seen,
        this`toRender, this`rendered, this`revealed, this`pagesCrawled, this`blockedPages, this`visited, this`pages, world
      ensures Valid() && Told() && old(world.ledger) <= world.ledger && old(heard) <= heard
      ensures old(seen) <= seen && Settled() >= old(Settled()) && pagesCrawled >= old(pagesCrawled)
      ensures if hasRenderer then toRender == [] || Spent(1) else rendered == old(rendered) && (old(Quiet()) ==> Quiet())
      ensures queue == [] || !WithinBudget()
    {
      Drain();
      while queue != [] && WithinBudget()
        invariant Valid() && Told() && old(world.ledger) <= world.ledger && old(heard) <= heard
        invariant old(seen) <= seen && Settled() >= old(Settled()) && pagesCrawled >= old(pagesCrawled)
        invariant if hasRenderer then toRender == [] || Spent(1)
                  else rendered == old(rendered) && (old(Quiet()) ==> Quiet())
        decreases policy.scope.maxRequests - Settled(), |toRender|, |queue|
      {
        Drain();
      }
    }
  }
}
