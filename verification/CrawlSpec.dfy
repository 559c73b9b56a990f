/** What a crawl is made of, and what its requests and their replies lead to. */
module CrawlSpec {
  import opened Options
  import opened Guard
  import opened Blocklist
  import Robots
  import PathScope

  /** What the URL library makes of text: an absolute form, its parts, its path with the query, its canonical form. */
  datatype Urls = Urls(
    absolute: string -> Option<string>,
    parse: string -> Option<Url>,
    target: string -> string,
    canonical: string -> string)

  /** What the target sent back, as far as the crawl reads it. */
  datatype Answer = Answer(
    status: int,
    location: Option<string>,
    html: bool,
    links: seq<string>,
    locs: seq<string>,
    robots: Robots.Rules)

  /**
   * A request was answered, refused by the guard, failed on the way, or stopped before
   * it was made; the code sees the last two alike.
   */
  datatype Reply = Answered(answer: Answer) | Declined(code: Code) | NoReply | Stopped

  /** A request on the chain, and one that was counted and is under way. */
  datatype Chained = Chained(url: string, depth: int, verb: string)

  datatype Flight = Flight(url: string, request: Request)

  /** Who asked for a URL; the first three are the crawl's own requests. */
  datatype Origin = ForRobots | ForSitemap | ForPage | ForBrowser

  datatype Heard = Heard(url: string, origin: Origin, reply: Reply)

  /** The crawl's own requests among those heard, in order. */
  function Own(heard: seq<Heard>): seq<Heard> {
    if heard == [] then []
    else Own(heard[..|heard| - 1]) + if heard[|heard| - 1].origin.ForBrowser? then [] else [heard[|heard| - 1]]
  }

  predicate NoneForBrowser(heard: seq<Heard>) {
    Own(heard) == heard
  }

  lemma Regrouped(a: seq<Heard>, b: seq<Heard>, c: seq<Heard>)
    ensures a + b + c == a + (b + c)
  {
  }

  lemma OneHeard(h: Heard)
    requires !h.origin.ForBrowser?
    ensures Own([h]) == [h]
  {
  }

  lemma OneMoreHeard(heard: seq<Heard>, h: Heard)
    ensures Own(heard + [h]) == if h.origin.ForBrowser? then Own(heard) else Own(heard) + [h]
  {
    assert (heard + [h])[..|heard|] == heard;
  }

  /** A request that a proof looks into; `RefusedAs` stays closed, like `Kept`. */
  predicate Asked(r: Request) {
    true
  }

  /** The reply is the guard's refusal exactly when the guard refuses. */
  ghost predicate RefusedAs(p: Policy, r: Request, reply: Reply) {
    forall q {:trigger Asked(q)} :: Asked(q) && q == r ==>
      match Refusal(p, q)
      case Some(code) => reply == Declined(code)
      case None => reply.Answered? || reply.NoReply?
  }

  /** The guard approves exactly when `ok`; closed as well. */
  ghost predicate Judged(p: Policy, r: Request, ok: bool) {
    forall q {:trigger Asked(q)} :: Asked(q) && q == r ==> (Refusal(p, q).None? <==> ok)
  }

  /** No answer, or a server error: section 2.3.1.4 of RFC 9309 assumes complete disallow. */
  predicate Unreachable(reply: Reply) {
    reply.NoReply? || reply.Stopped? || (reply.Answered? && reply.answer.status >= 500)
  }

  /** The rules a reply to the robots.txt request leaves in force. */
  function RulesFrom(reply: Reply): Robots.Rules {
    if Unreachable(reply) then DISALLOW_ALL
    else if reply.Answered? && reply.answer.status == 200 then reply.answer.robots
    else NO_ROBOTS
  }

  /**
   * What the reply permits: nothing when the site was not reached or failed, what its
   * rules permit when it served them, and everything otherwise.
   */
  lemma RulesPermit(reply: Reply, target: string)
    requires target != "" && target[0] == '/'
    ensures reply.NoReply? || reply.Stopped? || (reply.Answered? && reply.answer.status >= 500) ==>
              !Robots.Permitted(target, RulesFrom(reply))
    ensures reply.Answered? && reply.answer.status == 200 ==>
              (Robots.Permitted(target, RulesFrom(reply)) <==> Robots.Permitted(target, reply.answer.robots))
    ensures reply.Declined? || (reply.Answered? && reply.answer.status < 500 && reply.answer.status != 200) ==>
              Robots.Permitted(target, RulesFrom(reply))
  {
    if Unreachable(reply) { NothingPermitted(target); }
  }

  datatype Halt = ByKillSwitch | ByCeiling | ByStop

  // ---------------------------------------------------------------- what was heard

  /** How many of the requests were sent: answered, or failed on the way. */
  function SentIn(heard: seq<Heard>): nat {
    if heard == [] then 0
    else
      var reply := heard[|heard| - 1].reply;
      SentIn(heard[..|heard| - 1]) + if reply.Answered? || reply.NoReply? then 1 else 0
  }

  /** Why the crawl is to end: the last request that was stopped, or refused by the switch or a ceiling. */
  function StopOf(heard: seq<Heard>): Option<Halt> {
    if heard == [] then None
    else
      match heard[|heard| - 1].reply
      case Stopped => Some(ByStop)
      case Declined(KILL_SWITCH) => Some(ByKillSwitch)
      case Declined(CEILING) => Some(ByCeiling)
      case _ => StopOf(heard[..|heard| - 1])
  }

  /** A log that a proof looks into; what `Kept` says stays closed where one only passes it on. */
  predicate LookedInto(heard: seq<Heard>) {
    true
  }

  /** What the log of requests says of the count and of the end of the crawl. */
  ghost predicate Kept(heard: seq<Heard>, sent: int, stop: Option<Halt>) {
    forall h {:trigger LookedInto(h)} :: LookedInto(h) && h == heard ==> SentIn(h) == sent && StopOf(h) == stop
  }

  lemma OpenKept(heard: seq<Heard>, sent: int, stop: Option<Halt>)
    requires Kept(heard, sent, stop)
    ensures SentIn(heard) == sent && StopOf(heard) == stop
  {
    assert LookedInto(heard);
  }

  lemma KeptAtFirst()
    ensures Kept([], 0, None)
  {
  }

  lemma KeptSent(heard: seq<Heard>, h: Heard, sent: int, stop: Option<Halt>)
    requires Kept(heard, sent, stop) && (h.reply.Answered? || h.reply.NoReply?)
    ensures Kept(heard + [h], sent + 1, stop)
  {
    OpenKept(heard, sent, stop);
    assert (heard + [h])[..|heard|] == heard;
  }

  lemma KeptStopped(heard: seq<Heard>, h: Heard, sent: int, stop: Option<Halt>)
    requires Kept(heard, sent, stop) && h.reply.Stopped?
    ensures Kept(heard + [h], sent, Some(ByStop))
  {
    OpenKept(heard, sent, stop);
    assert (heard + [h])[..|heard|] == heard;
  }

  lemma KeptDeclined(heard: seq<Heard>, h: Heard, sent: int, stop: Option<Halt>)
    requires Kept(heard, sent, stop) && h.reply.Declined?
    ensures Kept(heard + [h], sent, if h.reply.code == KILL_SWITCH then Some(ByKillSwitch)
                                    else if h.reply.code == CEILING then Some(ByCeiling) else stop)
  {
    OpenKept(heard, sent, stop);
    assert (heard + [h])[..|heard|] == heard;
  }

  /** A crawl that is to end stays so. */
  lemma {:induction false} StopStays(heard: seq<Heard>, more: seq<Heard>)
    requires heard <= more && StopOf(heard).Some?
    ensures StopOf(more).Some?
  {
    if heard != more {
      StopStays(heard, more[..|more| - 1]);
    }
  }

  datatype QueuedUrl = QueuedUrl(url: string, depth: int)

  const MAX_SITEMAPS := 5

  const NO_ROBOTS := Robots.Rules([], [], [])

  const DISALLOW_ALL := Robots.Rules(["/"], [], [])

  function Max(a: int, b: int): int {
    if a >= b then a else b
  }

  /** In scope, permitted by robots.txt, and no deeper than allowed. */
  ghost predicate Admissible(p: Policy, urls: Urls, robots: Robots.Rules, q: QueuedUrl) {
    InScope(p, urls, robots, q.url) && q.depth <= p.scope.maxDepth
  }

  ghost predicate InScope(p: Policy, urls: Urls, robots: Robots.Rules, url: string) {
    var parsed := urls.parse(url);
    && parsed.Some? && parsed.value.inOrigin
    && PathScope.Allowed(p.decode, p.lower, parsed.value.path, p.scope.includedPaths, p.scope.excludedPaths)
    && Robots.Permitted(urls.target(url), robots)
  }

  /** The rules in force: `scoped` is what scope and robots.txt admit, and `admits` what depth admits besides. */
  datatype Ruling = Ruling(
    policy: Policy, urls: Urls, robots: Robots.Rules, scoped: string -> bool, admits: QueuedUrl -> bool)

  ghost predicate Agrees(r: Ruling) {
    && (forall url {:trigger InScope(r.policy, r.urls, r.robots, url)} ::
         InScope(r.policy, r.urls, r.robots, url) <==> r.scoped(url))
    && forall q {:trigger Admissible(r.policy, r.urls, r.robots, q)} ::
         Admissible(r.policy, r.urls, r.robots, q) <==> r.admits(q)
  }

  ghost function RulingFor(p: Policy, urls: Urls, robots: Robots.Rules): (r: Ruling)
    ensures Agrees(r) && r.policy == p && r.urls == urls && r.robots == robots
  {
    Ruling(p, urls, robots, url => InScope(p, urls, robots, url), q => Admissible(p, urls, robots, q))
  }

  type Rule = r: Ruling | Agrees(r)
    ghost witness RulingFor(Policy(Scope([], [], [], 0, 0, 0), [], path => path, path => path),
                            Urls(url => None, url => None, url => url, url => url), NO_ROBOTS)

  /** A URL's path starts with a slash. */
  ghost predicate Rooted(urls: Urls) {
    forall url :: urls.target(url) != "" && urls.target(url)[0] == '/'
  }

  lemma NothingPermitted(target: string)
    requires target != "" && target[0] == '/'
    ensures !Robots.Permitted(target, DISALLOW_ALL)
  {
    Robots.PlainRuleIsAPrefix("/", target);
    assert "/" in DISALLOW_ALL.disallowed;
  }

  ghost function KeysOf(canonical: string -> string, pages: seq<QueuedUrl>): set<string> {
    set q | q in pages :: canonical(q.url)
  }

  /** Pages admitted to the frontier: no two with one canonical URL, and theirs are exactly those marked seen. */
  ghost predicate Distinct(canonical: string -> string, pages: seq<QueuedUrl>, seen: set<string>) {
    && (forall i, j {:trigger canonical(pages[i].url), canonical(pages[j].url)} :: 0 <= i < j < |pages| ==>
         canonical(pages[i].url) != canonical(pages[j].url))
    && seen == KeysOf(canonical, pages)
  }

  ghost predicate GoodFrontier(
      canonical: string -> string, admits: QueuedUrl -> bool, pages: seq<QueuedUrl>, seen: set<string>)
  {
    && Distinct(canonical, pages, seen)
    && forall i {:trigger admits(pages[i])} :: 0 <= i < |pages| ==> admits(pages[i])
  }

  lemma AdmitPage(
      canonical: string -> string, admits: QueuedUrl -> bool, pages: seq<QueuedUrl>, seen: set<string>, q: QueuedUrl)
    requires GoodFrontier(canonical, admits, pages, seen) && canonical(q.url) !in seen && admits(q)
    ensures GoodFrontier(canonical, admits, pages + [q], seen + {canonical(q.url)})
  {
    var more := pages + [q];
    assert q in more && forall r :: r in more <==> r in pages || r == q;
    assert KeysOf(canonical, more) == seen + {canonical(q.url)};
    forall i, j | 0 <= i < j < |more| ensures canonical(more[i].url) != canonical(more[j].url) {
      assert more[i] == pages[i] && pages[i] in pages;
    }
    forall i | 0 <= i < |more| ensures admits(more[i]) {
      assert i < |pages| ==> admits(pages[i]);
    }
  }

  /** The pages waiting, and the canonical URLs ever queued. */
  datatype Pages = Pages(queue: seq<QueuedUrl>, seen: set<string>)

  /** A link found at some depth joins the queue when it is admitted and new. */
  function Queued(urls: Urls, admits: QueuedUrl -> bool, pages: Pages, raw: string, depth: int): (r: Pages)
    ensures pages.queue <= r.queue && pages.seen <= r.seen
  {
    match urls.absolute(raw)
    case None => pages
    case Some(url) =>
      var q := QueuedUrl(url, depth);
      if admits(q) && urls.canonical(url) !in pages.seen then
        Pages(pages.queue + [q], pages.seen + {urls.canonical(url)})
      else pages
  }

  function QueuedAll(urls: Urls, admits: QueuedUrl -> bool, pages: Pages, links: seq<string>, depth: int): (r: Pages)
    ensures pages.queue <= r.queue && pages.seen <= r.seen
  {
    if links == [] then pages
    else Queued(urls, admits, QueuedAll(urls, admits, pages, links[..|links| - 1], depth), links[|links| - 1], depth)
  }

  /** What an answered visit leaves queued: a redirect at the page's own depth, its links one deeper. */
  function AfterVisit(urls: Urls, admits: QueuedUrl -> bool, pages: Pages, page: QueuedUrl, a: Answer): (r: Pages)
    ensures pages.queue <= r.queue && pages.seen <= r.seen
  {
    var redirected :=
      if 300 <= a.status < 400 && a.location.Some? then Queued(urls, admits, pages, a.location.value, page.depth)
      else pages;
    if a.html then QueuedAll(urls, admits, redirected, a.links, page.depth + 1) else redirected
  }

  /** What a sitemap leaves queued: its pages at depth 1; the nested sitemaps are read in turn. */
  function AfterSitemap(urls: Urls, admits: QueuedUrl -> bool, pages: Pages, locs: seq<string>): (r: Pages)
    ensures pages.queue <= r.queue && pages.seen <= r.seen
  {
    if locs == [] then pages
    else
      var before, loc := AfterSitemap(urls, admits, pages, locs[..|locs| - 1]), locs[|locs| - 1];
      if EndsWith(loc, ".xml") then before else Queued(urls, admits, before, loc, 1)
  }

  function NestedSitemaps(locs: seq<string>): seq<string> {
    if locs == [] then []
    else NestedSitemaps(locs[..|locs| - 1]) + if EndsWith(locs[|locs| - 1], ".xml") then [locs[|locs| - 1]] else []
  }

  // ---------------------------------------------------------- what is found is seen

  /** A link found at some depth was seen, if it is admitted there. */
  ghost predicate Found(urls: Urls, admits: QueuedUrl -> bool, seen: set<string>, raw: string, depth: int) {
    var url := urls.absolute(raw);
    url.Some? && admits(QueuedUrl(url.value, depth)) ==> urls.canonical(url.value) in seen
  }

  ghost predicate AllFound(urls: Urls, admits: QueuedUrl -> bool, seen: set<string>, links: seq<string>, depth: int) {
    forall i {:trigger Found(urls, admits, seen, links[i], depth)} :: 0 <= i < |links| ==>
      Found(urls, admits, seen, links[i], depth)
  }

  /** Everything a reply to a page's request points to was found: a redirect at the page's depth, links one deeper. */
  ghost predicate Followed(urls: Urls, admits: QueuedUrl -> bool, seen: set<string>, page: QueuedUrl, reply: Reply) {
    reply.Answered? ==>
      var a := reply.answer;
      && (300 <= a.status < 400 && a.location.Some? ==> Found(urls, admits, seen, a.location.value, page.depth))
      && (a.html ==> AllFound(urls, admits, seen, a.links, page.depth + 1))
  }

  /** The pages a sitemap lists, as its reply has them. */
  function LocsIn(reply: Reply): seq<string> {
    if reply.Answered? && reply.answer.status == 200 then reply.answer.locs else []
  }

  ghost predicate LocsFound(urls: Urls, admits: QueuedUrl -> bool, seen: set<string>, locs: seq<string>) {
    forall i {:trigger Found(urls, admits, seen, locs[i], 1)} :: 0 <= i < |locs| && !EndsWith(locs[i], ".xml") ==>
      Found(urls, admits, seen, locs[i], 1)
  }

  lemma {:induction false} QueuedAllFinds(
      urls: Urls, admits: QueuedUrl -> bool, pages: Pages, links: seq<string>, depth: int)
    ensures AllFound(urls, admits, QueuedAll(urls, admits, pages, links, depth).seen, links, depth)
  {
    if links != [] {
      var before := links[..|links| - 1];
      QueuedAllFinds(urls, admits, pages, before, depth);
      forall i | 0 <= i < |links| - 1
        ensures Found(urls, admits, QueuedAll(urls, admits, pages, links, depth).seen, links[i], depth)
      {
        assert Found(urls, admits, QueuedAll(urls, admits, pages, before, depth).seen, before[i], depth);
      }
    }
  }

  lemma AllFoundStays(
      urls: Urls, admits: QueuedUrl -> bool, seen: set<string>, more: set<string>, links: seq<string>, depth: int)
    requires AllFound(urls, admits, seen, links, depth) && seen <= more
    ensures AllFound(urls, admits, more, links, depth)
  {
    forall i | 0 <= i < |links| ensures Found(urls, admits, more, links[i], depth) {
      assert Found(urls, admits, seen, links[i], depth);
    }
  }

  lemma AfterVisitFollows(urls: Urls, admits: QueuedUrl -> bool, pages: Pages, page: QueuedUrl, a: Answer)
    ensures Followed(urls, admits, AfterVisit(urls, admits, pages, page, a).seen, page, Answered(a))
  {
    var redirected :=
      if 300 <= a.status < 400 && a.location.Some? then Queued(urls, admits, pages, a.location.value, page.depth)
      else pages;
    QueuedAllFinds(urls, admits, redirected, a.links, page.depth + 1);
  }

  lemma {:induction false} AfterSitemapFinds(urls: Urls, admits: QueuedUrl -> bool, pages: Pages, locs: seq<string>)
    ensures LocsFound(urls, admits, AfterSitemap(urls, admits, pages, locs).seen, locs)
  {
    if locs != [] {
      var before := locs[..|locs| - 1];
      AfterSitemapFinds(urls, admits, pages, before);
      forall i | 0 <= i < |locs| - 1 && !EndsWith(locs[i], ".xml")
        ensures Found(urls, admits, AfterSitemap(urls, admits, pages, locs).seen, locs[i], 1)
      {
        assert Found(urls, admits, AfterSitemap(urls, admits, pages, before).seen, before[i], 1);
      }
    }
  }

  /** A request for a visited page, and what its reply points to was found. */
  ghost predicate PageFollowed(urls: Urls, admits: QueuedUrl -> bool, seen: set<string>, page: QueuedUrl, h: Heard) {
    h.url == page.url && h.origin == ForPage && Followed(urls, admits, seen, page, h.reply)
  }

  /** The requests for pages are those of the visited URLs, in order. */
  ghost predicate PagesFollowed(
      urls: Urls, admits: QueuedUrl -> bool, seen: set<string>, visited: seq<QueuedUrl>, pages: seq<Heard>)
  {
    && |pages| == |visited|
    && forall i {:trigger PageFollowed(urls, admits, seen, visited[i], pages[i])} :: 0 <= i < |pages| ==>
         PageFollowed(urls, admits, seen, visited[i], pages[i])
  }

  lemma FollowedStays(
      urls: Urls, admits: QueuedUrl -> bool, seen: set<string>, more: set<string>, visited: seq<QueuedUrl>,
      pages: seq<Heard>)
    requires PagesFollowed(urls, admits, seen, visited, pages) && seen <= more
    ensures PagesFollowed(urls, admits, more, visited, pages)
  {
    forall i | 0 <= i < |pages| ensures PageFollowed(urls, admits, more, visited[i], pages[i]) {
      assert PageFollowed(urls, admits, seen, visited[i], pages[i]);
      OneFollowedStays(urls, admits, seen, more, visited[i], pages[i].reply);
    }
  }

  lemma OneFollowedStays(
      urls: Urls, admits: QueuedUrl -> bool, seen: set<string>, more: set<string>, page: QueuedUrl, reply: Reply)
    requires Followed(urls, admits, seen, page, reply) && seen <= more
    ensures Followed(urls, admits, more, page, reply)
  {
    if reply.Answered? && reply.answer.html {
      AllFoundStays(urls, admits, seen, more, reply.answer.links, page.depth + 1);
    }
  }

  lemma OnePageMore(
      urls: Urls, admits: QueuedUrl -> bool, seen: set<string>, visited: seq<QueuedUrl>, pages: seq<Heard>,
      page: QueuedUrl, h: Heard)
    requires PagesFollowed(urls, admits, seen, visited, pages) && PageFollowed(urls, admits, seen, page, h)
    ensures PagesFollowed(urls, admits, seen, visited + [page], pages + [h])
  {
    var more, told := visited + [page], pages + [h];
    forall i | 0 <= i < |told| ensures PageFollowed(urls, admits, seen, more[i], told[i]) {
      if i < |pages| {
        assert PageFollowed(urls, admits, seen, visited[i], pages[i]);
      }
    }
  }

  /** A request for a sitemap: in scope, and the pages its reply lists were found. */
  ghost predicate SitemapRead(
      urls: Urls, scoped: string -> bool, admits: QueuedUrl -> bool, seen: set<string>, h: Heard)
  {
    h.origin == ForSitemap && scoped(h.url) && LocsFound(urls, admits, seen, LocsIn(h.reply))
  }

  /** The requests for sitemaps: at most five, and all different. */
  ghost predicate SitemapsRead(
      urls: Urls, scoped: string -> bool, admits: QueuedUrl -> bool, seen: set<string>, sitemaps: seq<Heard>)
  {
    && |sitemaps| <= MAX_SITEMAPS
    && (forall i, j :: 0 <= i < j < |sitemaps| ==> sitemaps[i].url != sitemaps[j].url)
    && forall i {:trigger SitemapRead(urls, scoped, admits, seen, sitemaps[i])} :: 0 <= i < |sitemaps| ==>
         SitemapRead(urls, scoped, admits, seen, sitemaps[i])
  }

  lemma SitemapsStayRead(
      urls: Urls, scoped: string -> bool, admits: QueuedUrl -> bool, seen: set<string>, more: set<string>,
      sitemaps: seq<Heard>)
    requires SitemapsRead(urls, scoped, admits, seen, sitemaps) && seen <= more
    ensures SitemapsRead(urls, scoped, admits, more, sitemaps)
  {
    forall i | 0 <= i < |sitemaps| ensures SitemapRead(urls, scoped, admits, more, sitemaps[i]) {
      assert SitemapRead(urls, scoped, admits, seen, sitemaps[i]);
      LocsStayFound(urls, admits, seen, more, LocsIn(sitemaps[i].reply));
    }
  }

  lemma LocsStayFound(urls: Urls, admits: QueuedUrl -> bool, seen: set<string>, more: set<string>, locs: seq<string>)
    requires LocsFound(urls, admits, seen, locs) && seen <= more
    ensures LocsFound(urls, admits, more, locs)
  {
    forall i | 0 <= i < |locs| && !EndsWith(locs[i], ".xml") ensures Found(urls, admits, more, locs[i], 1) {
      assert Found(urls, admits, seen, locs[i], 1);
    }
  }

  /** The URLs fetched are those of the requests made, each once. */
  ghost predicate Fetched(sitemaps: seq<Heard>, fetched: set<string>) {
    |sitemaps| == |fetched| && (set h | h in sitemaps :: h.url) == fetched
  }

  lemma OneMoreSitemap(
      urls: Urls, scoped: string -> bool, admits: QueuedUrl -> bool, seen: set<string>, sitemaps: seq<Heard>,
      fetched: set<string>, h: Heard)
    requires SitemapsRead(urls, scoped, admits, seen, sitemaps) && |sitemaps| < MAX_SITEMAPS
    requires Fetched(sitemaps, fetched) && h.url !in fetched && SitemapRead(urls, scoped, admits, seen, h)
    ensures SitemapsRead(urls, scoped, admits, seen, sitemaps + [h]) && Fetched(sitemaps + [h], fetched + {h.url})
  {
    var more := sitemaps + [h];
    forall i | 0 <= i < |more| ensures SitemapRead(urls, scoped, admits, seen, more[i]) {
      if i < |sitemaps| {
        assert SitemapRead(urls, scoped, admits, seen, sitemaps[i]);
      }
    }
    forall i, j | 0 <= i < j < |more| ensures more[i].url != more[j].url {
      assert sitemaps[i] in sitemaps;
    }
    assert h in more && forall k :: k in more <==> k in sitemaps || k == h;
    assert (set k | k in more :: k.url) == fetched + {h.url};
  }

  // ------------------------------------------------------------- which sitemaps

  /** The sitemaps that the replies to those requests list, in order. */
  function AllNested(sitemaps: seq<Heard>): seq<string> {
    if sitemaps == [] then []
    else AllNested(sitemaps[..|sitemaps| - 1]) + NestedSitemaps(LocsIn(sitemaps[|sitemaps| - 1].reply))
  }

  /** All sitemaps a crawl learns of: those of robots.txt, the usual one, and those that sitemaps list. */
  function KnownSitemaps(robots: Robots.Rules, sitemaps: seq<Heard>): seq<string> {
    robots.sitemaps + ["/sitemap.xml"] + AllNested(sitemaps)
  }

  /** The URLs to request for a list of sitemaps: those in scope, each where it comes first. */
  ghost function Wanted(urls: Urls, scoped: string -> bool, raws: seq<string>): seq<string> {
    if raws == [] then []
    else
      var before, url := Wanted(urls, scoped, raws[..|raws| - 1]), urls.absolute(raws[|raws| - 1]);
      if url.Some? && scoped(url.value) && url.value !in before then before + [url.value] else before
  }

  function UrlsOf(requests: seq<Heard>): (r: seq<string>)
    ensures |r| == |requests| && forall i :: 0 <= i < |r| ==> r[i] == requests[i].url
  {
    seq(|requests|, i requires 0 <= i < |requests| => requests[i].url)
  }

  /**
   * Of the sitemaps learnt of, some were looked at, in order, and those of them that are
   * wanted requested; the others are left.
   */
  ghost predicate InOrder(
      urls: Urls, scoped: string -> bool, robots: Robots.Rules, sitemaps: seq<Heard>, done: seq<string>, left: seq<string>)
  {
    done + left == KnownSitemaps(robots, sitemaps) && UrlsOf(sitemaps) == Wanted(urls, scoped, done)
  }

  lemma LookedAt(
      urls: Urls, scoped: string -> bool, robots: Robots.Rules, sitemaps: seq<Heard>, fetched: set<string>,
      done: seq<string>, left: seq<string>)
    requires InOrder(urls, scoped, robots, sitemaps, done, left) && Fetched(sitemaps, fetched) && left != []
    requires var url := urls.absolute(left[0]); url.None? || !scoped(url.value) || url.value in fetched
    ensures InOrder(urls, scoped, robots, sitemaps, done + [left[0]], left[1..])
  {
    var all := done + [left[0]];
    assert all[..|all| - 1] == done && all + left[1..] == done + left;
    var url := urls.absolute(left[0]);
    if url.Some? && url.value in fetched {
      var h :| h in sitemaps && h.url == url.value;
      var i :| 0 <= i < |sitemaps| && sitemaps[i] == h;
      assert UrlsOf(sitemaps)[i] == url.value;
    }
  }

  lemma ListedMore(robots: Robots.Rules, sitemaps: seq<Heard>, h: Heard)
    ensures KnownSitemaps(robots, sitemaps + [h]) == KnownSitemaps(robots, sitemaps) + NestedSitemaps(LocsIn(h.reply))
  {
    assert (sitemaps + [h])[..|sitemaps|] == sitemaps;
  }

  lemma UrlsOfMore(sitemaps: seq<Heard>, fetched: set<string>, h: Heard)
    requires Fetched(sitemaps, fetched) && h.url !in fetched
    ensures UrlsOf(sitemaps + [h]) == UrlsOf(sitemaps) + [h.url] && h.url !in UrlsOf(sitemaps)
  {
    forall i | 0 <= i < |sitemaps| ensures sitemaps[i].url in fetched {
      assert sitemaps[i] in sitemaps;
    }
  }

  lemma MovedAlong(done: seq<string>, left: seq<string>, nested: seq<string>)
    requires left != []
    ensures done + [left[0]] + (left[1..] + nested) == done + left + nested
  {
  }

  lemma Requested(
      urls: Urls, scoped: string -> bool, robots: Robots.Rules, sitemaps: seq<Heard>, fetched: set<string>,
      done: seq<string>, left: seq<string>, h: Heard)
    requires InOrder(urls, scoped, robots, sitemaps, done, left) && Fetched(sitemaps, fetched) && left != []
    requires urls.absolute(left[0]) == Some(h.url) && scoped(h.url) && h.url !in fetched
    ensures InOrder(
              urls, scoped, robots, sitemaps + [h], done + [left[0]], left[1..] + NestedSitemaps(LocsIn(h.reply)))
  {
    ListedMore(robots, sitemaps, h);
    UrlsOfMore(sitemaps, fetched, h);
    MovedAlong(done, left, NestedSitemaps(LocsIn(h.reply)));
    assert (done + [left[0]])[..|done|] == done;
  }

  /** Where reading sitemaps is, closed like `Kept`. */
  ghost predicate Sofar(
      r: Ruling, seen: set<string>, sitemaps: seq<Heard>, fetched: set<string>, done: seq<string>, left: seq<string>)
  {
    forall h {:trigger LookedInto(h)} :: LookedInto(h) && h == sitemaps ==>
      && SitemapsRead(r.urls, r.scoped, r.admits, seen, h) && Fetched(h, fetched)
      && InOrder(r.urls, r.scoped, r.robots, h, done, left)
  }

  lemma OpenSofar(
      r: Ruling, seen: set<string>, sitemaps: seq<Heard>, fetched: set<string>, done: seq<string>, left: seq<string>)
    requires Sofar(r, seen, sitemaps, fetched, done, left)
    ensures SitemapsRead(r.urls, r.scoped, r.admits, seen, sitemaps) && Fetched(sitemaps, fetched)
    ensures InOrder(r.urls, r.scoped, r.robots, sitemaps, done, left)
  {
    assert LookedInto(sitemaps);
  }

  lemma SofarNothing(r: Ruling, seen: set<string>, first: seq<string>)
    requires first == r.robots.sitemaps + ["/sitemap.xml"]
    ensures Sofar(r, seen, [], {}, [], first)
  {
    assert [] + first == KnownSitemaps(r.robots, []);
    assert UrlsOf([]) == [];
  }

  lemma SofarSkipped(
      r: Ruling, seen: set<string>, sitemaps: seq<Heard>, fetched: set<string>, done: seq<string>, left: seq<string>)
    requires Sofar(r, seen, sitemaps, fetched, done, left) && left != []
    requires var url := r.urls.absolute(left[0]); url.None? || !r.scoped(url.value) || url.value in fetched
    ensures Sofar(r, seen, sitemaps + [], fetched, done + [left[0]], left[1..] + [])
  {
    OpenSofar(r, seen, sitemaps, fetched, done, left);
    LookedAt(r.urls, r.scoped, r.robots, sitemaps, fetched, done, left);
    assert sitemaps + [] == sitemaps && left[1..] + [] == left[1..];
  }

  lemma SofarRequested(
      r: Ruling, seen: set<string>, more: set<string>, sitemaps: seq<Heard>, fetched: set<string>, done: seq<string>,
      left: seq<string>, h: Heard)
    requires Sofar(r, seen, sitemaps, fetched, done, left) && left != [] && |fetched| < MAX_SITEMAPS && seen <= more
    requires r.urls.absolute(left[0]) == Some(h.url) && h.url !in fetched && SitemapRead(r.urls, r.scoped, r.admits, more, h)
    ensures Sofar(r, more, sitemaps + [h], fetched + {h.url}, done + [left[0]],
                  left[1..] + NestedSitemaps(LocsIn(h.reply)))
  {
    OpenSofar(r, seen, sitemaps, fetched, done, left);
    SitemapsStayRead(r.urls, r.scoped, r.admits, seen, more, sitemaps);
    OneMoreSitemap(r.urls, r.scoped, r.admits, more, sitemaps, fetched, h);
    Requested(r.urls, r.scoped, r.robots, sitemaps, fetched, done, left, h);
  }

  /** Every listed sitemap that is in scope was requested. */
  ghost predicate AllRequested(urls: Urls, scoped: string -> bool, raws: seq<string>, sitemaps: seq<Heard>) {
    forall i {:trigger raws[i]} :: 0 <= i < |raws| ==>
      var url := urls.absolute(raws[i]);
      url.Some? && scoped(url.value) ==> url.value in UrlsOf(sitemaps)
  }

  /** Every sitemap the crawl learns of that is in scope was requested. */
  ghost predicate AllInScopeRequested(p: Policy, urls: Urls, robots: Robots.Rules, sitemaps: seq<Heard>) {
    var raws := KnownSitemaps(robots, sitemaps);
    forall i {:trigger raws[i]} :: 0 <= i < |raws| ==>
      var url := urls.absolute(raws[i]);
      url.Some? && InScope(p, urls, robots, url.value) ==> url.value in UrlsOf(sitemaps)
  }

  lemma {:induction false} WantedHasAll(urls: Urls, scoped: string -> bool, raws: seq<string>, i: nat)
    requires i < |raws| && urls.absolute(raws[i]).Some? && scoped(urls.absolute(raws[i]).value)
    ensures urls.absolute(raws[i]).value in Wanted(urls, scoped, raws)
  {
    if i < |raws| - 1 {
      WantedHasAll(urls, scoped, raws[..|raws| - 1], i);
    }
  }

  lemma NoneLeftMeansAll(
      urls: Urls, scoped: string -> bool, robots: Robots.Rules, sitemaps: seq<Heard>, done: seq<string>)
    requires InOrder(urls, scoped, robots, sitemaps, done, [])
    ensures AllRequested(urls, scoped, KnownSitemaps(robots, sitemaps), sitemaps)
  {
    var raws := KnownSitemaps(robots, sitemaps);
    assert done + [] == done;
    forall i | 0 <= i < |raws| && urls.absolute(raws[i]).Some? && scoped(urls.absolute(raws[i]).value)
      ensures urls.absolute(raws[i]).value in UrlsOf(sitemaps)
    {
      WantedHasAll(urls, scoped, raws, i);
    }
  }

  /** What a sitemap lists and ends in `.xml` is a nested sitemap. */
  lemma {:induction false} NestedExactly(locs: seq<string>, loc: string)
    ensures loc in NestedSitemaps(locs) <==> loc in locs && EndsWith(loc, ".xml")
  {
    if locs != [] {
      NestedExactly(locs[..|locs| - 1], loc);
      assert locs == locs[..|locs| - 1] + [locs[|locs| - 1]];
    }
  }

  // ------------------------------------------------------------- which renders

  /** The visited pages that answered 200 with HTML, in order. */
  function HtmlPages(visited: seq<QueuedUrl>, pages: seq<Heard>): seq<QueuedUrl>
    requires |visited| == |pages|
  {
    if visited == [] then []
    else
      var n := |visited| - 1;
      var reply := pages[n].reply;
      HtmlPages(visited[..n], pages[..n]) +
      if reply.Answered? && reply.answer.html && reply.answer.status == 200 then [visited[n]] else []
  }

  predicate Tasks(
      visited: seq<QueuedUrl>, pages: seq<Heard>, rendered: seq<QueuedUrl>, toRender: seq<QueuedUrl>)
  {
    |visited| == |pages| && rendered + toRender == HtmlPages(visited, pages)
  }

  lemma OneMoreHtmlPage(visited: seq<QueuedUrl>, pages: seq<Heard>, page: QueuedUrl, h: Heard)
    requires |visited| == |pages|
    ensures HtmlPages(visited + [page], pages + [h]) == HtmlPages(visited, pages) +
            if h.reply.Answered? && h.reply.answer.html && h.reply.answer.status == 200 then [page] else []
  {
    assert (visited + [page])[..|visited|] == visited && (pages + [h])[..|pages|] == pages;
  }

  /** What the renders revealed was found, one deeper than the page. */
  ghost predicate Revealed(
      urls: Urls, admits: QueuedUrl -> bool, seen: set<string>, rendered: seq<QueuedUrl>, revealed: seq<seq<string>>)
  {
    && |revealed| == |rendered|
    && forall i {:trigger AllFound(urls, admits, seen, revealed[i], rendered[i].depth + 1)} :: 0 <= i < |rendered| ==>
         AllFound(urls, admits, seen, revealed[i], rendered[i].depth + 1)
  }

  lemma RevealedStays(
      urls: Urls, admits: QueuedUrl -> bool, seen: set<string>, more: set<string>, rendered: seq<QueuedUrl>,
      revealed: seq<seq<string>>)
    requires Revealed(urls, admits, seen, rendered, revealed) && seen <= more
    ensures Revealed(urls, admits, more, rendered, revealed)
  {
    forall i | 0 <= i < |rendered| ensures AllFound(urls, admits, more, revealed[i], rendered[i].depth + 1) {
      assert AllFound(urls, admits, seen, revealed[i], rendered[i].depth + 1);
      AllFoundStays(urls, admits, seen, more, revealed[i], rendered[i].depth + 1);
    }
  }

  lemma OneMoreRevealed(
      urls: Urls, admits: QueuedUrl -> bool, seen: set<string>, rendered: seq<QueuedUrl>, revealed: seq<seq<string>>,
      page: QueuedUrl, links: seq<string>)
    requires Revealed(urls, admits, seen, rendered, revealed) && AllFound(urls, admits, seen, links, page.depth + 1)
    ensures Revealed(urls, admits, seen, rendered + [page], revealed + [links])
  {
    var pages, all := rendered + [page], revealed + [links];
    forall i | 0 <= i < |pages| ensures AllFound(urls, admits, seen, all[i], pages[i].depth + 1) {
      if i < |rendered| {
        assert AllFound(urls, admits, seen, revealed[i], rendered[i].depth + 1);
      }
    }
  }

  /** What the setup found: the entries were seen, the sitemaps read, in order, and the pages they list seen. Closed. */
  ghost predicate SetUpAs(
      r: Ruling, scope: Scope, seen: set<string>, sitemaps: seq<Heard>, done: seq<string>, left: seq<string>)
  {
    forall h {:trigger LookedInto(h)} :: LookedInto(h) && h == sitemaps ==>
      && AllFound(r.urls, r.admits, seen, Entries(scope), 0) && SitemapsRead(r.urls, r.scoped, r.admits, seen, h)
      && InOrder(r.urls, r.scoped, r.robots, h, done, left)
  }

  lemma OpenSetUp(
      r: Ruling, scope: Scope, seen: set<string>, sitemaps: seq<Heard>, done: seq<string>, left: seq<string>)
    requires SetUpAs(r, scope, seen, sitemaps, done, left)
    ensures AllFound(r.urls, r.admits, seen, Entries(scope), 0)
    ensures SitemapsRead(r.urls, r.scoped, r.admits, seen, sitemaps)
    ensures InOrder(r.urls, r.scoped, r.robots, sitemaps, done, left)
  {
    assert LookedInto(sitemaps);
  }

  lemma CloseSetUp(
      r: Ruling, scope: Scope, before: set<string>, seen: set<string>, sitemaps: seq<Heard>, fetched: set<string>,
      done: seq<string>, left: seq<string>)
    requires AllFound(r.urls, r.admits, before, Entries(scope), 0) && before <= seen
    requires Sofar(r, seen, sitemaps, fetched, done, left)
    ensures SetUpAs(r, scope, seen, sitemaps, done, left)
  {
    OpenSofar(r, seen, sitemaps, fetched, done, left);
    AllFoundStays(r.urls, r.admits, before, seen, Entries(scope), 0);
  }

  lemma SetUpStays(
      r: Ruling, scope: Scope, before: set<string>, seen: set<string>, sitemaps: seq<Heard>, done: seq<string>,
      left: seq<string>)
    requires SetUpAs(r, scope, before, sitemaps, done, left) && before <= seen
    ensures SetUpAs(r, scope, seen, sitemaps, done, left)
  {
    OpenSetUp(r, scope, before, sitemaps, done, left);
    SitemapsStayRead(r.urls, r.scoped, r.admits, before, seen, sitemaps);
    AllFoundStays(r.urls, r.admits, before, seen, Entries(scope), 0);
  }

  // ------------------------------------------------------------ the crawl so far

  /**
   * The crawl's own requests are those of the setup and then those for the visited pages;
   * what their replies point to was seen; the pages rendered and to render are the HTML
   * ones, in order; and what was revealed was seen. Closed, like `Kept`.
   */
  ghost predicate Story(
      r: Ruling, seen: set<string>, own: seq<Heard>, setup: seq<Heard>, visited: seq<QueuedUrl>, pages: seq<Heard>,
      rendered: seq<QueuedUrl>, revealed: seq<seq<string>>, toRender: seq<QueuedUrl>)
  {
    forall h {:trigger LookedInto(h)} :: LookedInto(h) && h == pages ==>
      && own == setup + h && PagesFollowed(r.urls, r.admits, seen, visited, h)
      && Tasks(visited, h, rendered, toRender) && Revealed(r.urls, r.admits, seen, rendered, revealed)
  }

  lemma OpenStory(
      r: Ruling, seen: set<string>, own: seq<Heard>, setup: seq<Heard>, visited: seq<QueuedUrl>, pages: seq<Heard>,
      rendered: seq<QueuedUrl>, revealed: seq<seq<string>>, toRender: seq<QueuedUrl>)
    requires Story(r, seen, own, setup, visited, pages, rendered, revealed, toRender)
    ensures own == setup + pages && PagesFollowed(r.urls, r.admits, seen, visited, pages)
    ensures Tasks(visited, pages, rendered, toRender) && Revealed(r.urls, r.admits, seen, rendered, revealed)
  {
    assert LookedInto(pages);
  }

  lemma StoryBegins(r: Ruling, seen: set<string>, setup: seq<Heard>)
    ensures Story(r, seen, setup, setup, [], [], [], [], [])
  {
    assert setup + [] == setup;
  }

  lemma StoryVisited(
      r: Ruling, before: Pages, after: Pages, own: seq<Heard>, setup: seq<Heard>, visited: seq<QueuedUrl>,
      pages: seq<Heard>, rendered: seq<QueuedUrl>, revealed: seq<seq<string>>, toRender: seq<QueuedUrl>,
      page: QueuedUrl, h: Heard)
    requires Story(r, before.seen, own, setup, visited, pages, rendered, revealed, toRender)
    requires h.url == page.url && h.origin == ForPage
    requires if h.reply.Answered? then after == AfterVisit(r.urls, r.admits, before, page, h.reply.answer)
             else after == before
    ensures before.seen <= after.seen
    ensures Story(
              r, after.seen, own + [h], setup, visited + [page], pages + [h], rendered, revealed,
              toRender + if h.reply.Answered? && h.reply.answer.html && h.reply.answer.status == 200 then [page] else [])
  {
    OpenStory(r, before.seen, own, setup, visited, pages, rendered, revealed, toRender);
    FollowedStays(r.urls, r.admits, before.seen, after.seen, visited, pages);
    if h.reply.Answered? { AfterVisitFollows(r.urls, r.admits, before, page, h.reply.answer); }
    OnePageMore(r.urls, r.admits, after.seen, visited, pages, page, h);
    RevealedStays(r.urls, r.admits, before.seen, after.seen, rendered, revealed);
    Regrouped(setup, pages, [h]);
    OneMoreTask(visited, pages, rendered, toRender, page, h);
  }

  lemma OneMoreTask(
      visited: seq<QueuedUrl>, pages: seq<Heard>, rendered: seq<QueuedUrl>, toRender: seq<QueuedUrl>, page: QueuedUrl,
      h: Heard)
    requires Tasks(visited, pages, rendered, toRender)
    ensures Tasks(
              visited + [page], pages + [h], rendered,
              toRender + if h.reply.Answered? && h.reply.answer.html && h.reply.answer.status == 200 then [page] else [])
  {
    OneMoreHtmlPage(visited, pages, page, h);
    var more := if h.reply.Answered? && h.reply.answer.html && h.reply.answer.status == 200 then [page] else [];
    assert rendered + toRender + more == rendered + (toRender + more);
  }

  lemma StoryRendered(
      r: Ruling, before: Pages, after: Pages, own: seq<Heard>, setup: seq<Heard>, visited: seq<QueuedUrl>,
      pages: seq<Heard>, rendered: seq<QueuedUrl>, revealed: seq<seq<string>>, toRender: seq<QueuedUrl>,
      links: seq<string>)
    requires Story(r, before.seen, own, setup, visited, pages, rendered, revealed, toRender) && toRender != []
    requires after == QueuedAll(r.urls, r.admits, before, links, toRender[0].depth + 1)
    ensures Story(
              r, after.seen, own, setup, visited, pages, rendered + [toRender[0]], revealed + [links], toRender[1..])
  {
    OpenStory(r, before.seen, own, setup, visited, pages, rendered, revealed, toRender);
    FollowedStays(r.urls, r.admits, before.seen, after.seen, visited, pages);
    RevealedWith(r, before, after, rendered, revealed, toRender[0], links);
    assert rendered + [toRender[0]] + toRender[1..] == rendered + toRender;
  }

  lemma RevealedWith(
      r: Ruling, before: Pages, after: Pages, rendered: seq<QueuedUrl>, revealed: seq<seq<string>>, page: QueuedUrl,
      links: seq<string>)
    requires Revealed(r.urls, r.admits, before.seen, rendered, revealed)
    requires after == QueuedAll(r.urls, r.admits, before, links, page.depth + 1)
    ensures Revealed(r.urls, r.admits, after.seen, rendered + [page], revealed + [links])
  {
    RevealedStays(r.urls, r.admits, before.seen, after.seen, rendered, revealed);
    QueuedAllFinds(r.urls, r.admits, before, links, page.depth + 1);
    OneMoreRevealed(r.urls, r.admits, after.seen, rendered, revealed, page, links);
  }

  predicate IsBlockedStatus(status: int) {
    status == 401 || status == 403 || status == 429
  }

  /** The scope's include paths, or the site root when it has none. */
  function EntryPaths(scope: Scope): seq<string> {
    if scope.includedPaths != [] then scope.includedPaths else ["/"]
  }

  const CONTACT_FILE := "/.well-known/security.txt"

  /** What is asked for by name: the entry paths, then the RFC 9116 contact file. */
  function Entries(scope: Scope): seq<string> {
    EntryPaths(scope) + [CONTACT_FILE]
  }
}
