/** The check every outbound connection passes first, and the ledger row every attempt leaves. */
module Guard {
  import opened Options
  import opened Text
  import opened Address
  import opened RefusedBlocks
  import opened BlockedNetworks
  import opened Blocklist
  import opened VerifiedSet
  import PathScope
  import SharedBudget

  // ------------------------------------------------------------------ the decision

  datatype Code =
    | UNVERIFIED
    | EMPTY_VERIFIED_IPS
    | OUT_OF_SCOPE
    | BLOCKLIST
    | PRIVATE_OR_METADATA
    | RATE_LIMIT
    | CEILING
    | KILL_SWITCH
    | DNS_FAILED
    | REBINDING
    | UNSAFE_METHOD

  datatype Scope = Scope(
    includedPaths: seq<string>,
    excludedPaths: seq<string>,
    verifiedIpSet: seq<string>,
    maxPages: int,
    maxRequests: int,
    maxDepth: int)

  /** What one scan is judged by; `decode` is one round of percent-decoding, `lower` is lower-casing of paths. */
  datatype Policy = Policy(scope: Scope, blocklist: seq<Entry>, decode: string -> string, lower: string -> string)

  /** A parsed URL, and whether it is of the scope's origin, or its admitted plaintext twin. */
  datatype Url = Url(hostname: string, path: string, inOrigin: bool)

  datatype Request = Request(
    url: Option<Url>,
    httpMethod: string,
    tokenTaken: bool,
    resolvedIps: seq<string>,
    killSwitch: bool,
    pagesCrawled: int,
    requestsMade: int,
    depth: int)

  predicate IsSafeMethod(name: string) {
    Upper(name) == "GET" || Upper(name) == "HEAD" || Upper(name) == "OPTIONS"
  }

  predicate IsBlockedHostname(hostname: string) {
    Lower(hostname) == "metadata.google.internal" || Lower(hostname) == "metadata.google.internal."
  }

  predicate IpsMatchVerified(resolved: seq<string>, verified: seq<string>) {
    resolved != [] && forall i :: 0 <= i < |resolved| ==> IsWithinVerifiedSet(resolved[i], verified).Within?
  }

  /** The switch, the request itself, the scope and the ceilings. */
  function RequestRefusal(p: Policy, url: Url, r: Request): Option<Code> {
    if r.killSwitch then Some(KILL_SWITCH)
    else if !IsSafeMethod(r.httpMethod) then Some(UNSAFE_METHOD)
    else if IsBlockedHostname(url.hostname) then Some(PRIVATE_OR_METADATA)
    else if !url.inOrigin
            || !PathScope.Allowed(p.decode, p.lower, url.path, p.scope.includedPaths, p.scope.excludedPaths) then
      Some(OUT_OF_SCOPE)
    else if r.requestsMade >= p.scope.maxRequests || r.pagesCrawled >= p.scope.maxPages then Some(CEILING)
    else if r.depth > p.scope.maxDepth then Some(CEILING)
    else None
  }

  predicate SomeBlocked(ips: seq<string>) {
    exists i :: 0 <= i < |ips| && IsBlockedAddress(ips[i])
  }

  predicate Listed(p: Policy, url: Url, ips: seq<string>) {
    !MatchBlocklist(Some(url.hostname), ips, p.blocklist).Clear?
  }

  /** The resolved addresses. */
  function AddressRefusal(p: Policy, url: Url, ips: seq<string>): Option<Code> {
    if p.scope.verifiedIpSet == [] then Some(EMPTY_VERIFIED_IPS)
    else if ips == [] then Some(DNS_FAILED)
    else if SomeBlocked(ips) then Some(PRIVATE_OR_METADATA)
    else if Listed(p, url, ips) then Some(BLOCKLIST)
    else if !IpsMatchVerified(ips, p.scope.verifiedIpSet) then Some(REBINDING)
    else None
  }

  /** The ordered checks; None is approval. */
  function Evaluate(p: Policy, url: Url, r: Request): Option<Code> {
    match RequestRefusal(p, url, r)
    case Some(code) => Some(code)
    case None => AddressRefusal(p, url, r.resolvedIps)
  }

  /** The whole check: a URL that parses, a token, then the ordered checks. */
  function Refusal(p: Policy, r: Request): Option<Code> {
    match r.url
    case None => Some(OUT_OF_SCOPE)
    case Some(url) => if !r.tokenTaken then Some(RATE_LIMIT) else Evaluate(p, url, r)
  }

  // -------------------------------------------------- the decision, by what holds

  /** The text is the word in some case: each letter, or one that raises to it. */
  predicate Spells(text: string, word: string) {
    && |text| == |word|
    && forall k :: 0 <= k < |word| ==>
         || text[k] == word[k] || text[k] as int == word[k] as int + 32
         || (word[k] == 'I' && text[k] == '\U{131}') || (word[k] == 'S' && text[k] == '\U{17F}')
  }

  /** The text is the lower-case word in some case. */
  predicate SpellsLower(text: string, word: string) {
    && |text| == |word|
    && forall k :: 0 <= k < |word| ==>
         text[k] == word[k] || ('a' <= word[k] <= 'z' && text[k] as int + 32 == word[k] as int)
  }

  const METADATA_HOST := "metadata.google.internal"

  /** The host name that serves instance credentials, in any case, with or without a final dot. */
  predicate MetadataHost(hostname: string) {
    SpellsLower(hostname, METADATA_HOST) || SpellsLower(hostname, METADATA_HOST + ".")
  }

  /** Segment by segment: under no excluded path, and under an included one if any is given. */
  predicate InPaths(p: Policy, path: string) {
    var segments := PathScope.SegmentsOf(p.decode, path);
    && !PathScope.UnderExcluded(p.decode, p.lower, segments, p.scope.excludedPaths)
    && (p.scope.includedPaths == [] || PathScope.UnderIncluded(p.decode, segments, p.scope.includedPaths))
  }

  /** Some address is none, lies in a refused block, or routes to one that does. */
  ghost predicate SomeForbidden(ips: seq<string>) {
    exists i :: 0 <= i < |ips| && (NumberNamed(ips[i]).None? || Forbidden(NumberNamed(ips[i]).value))
  }

  /** Some entry of the blocklist matches, or cannot be evaluated. */
  predicate SomeEntryHits(p: Policy, url: Url, ips: seq<string>) {
    exists i :: 0 <= i < |p.blocklist| &&
      !Misses(p.blocklist[i], NormaliseHostname(url.hostname), NumbersIn(ips))
  }

  /** The address is named by an entry of the recorded set, all entries before which parse. */
  ghost predicate IsRecorded(recorded: seq<string>, ip: string) {
    Canonicalise(ip).Some? && exists i :: FoundAt(ParseEntry, Canonicalise(ip).value, recorded, i)
  }

  ghost predicate AllRecorded(p: Policy, ips: seq<string>) {
    forall k :: 0 <= k < |ips| ==> IsRecorded(p.scope.verifiedIpSet, ips[k])
  }

  /** What the decision depends on. */
  datatype Facts = Facts(
    parses: bool,
    token: bool,
    switch: bool,
    safe: bool,
    metadata: bool,
    scoped: bool,
    spent: bool,
    noSet: bool,
    unresolved: bool,
    forbidden: bool,
    listed: bool,
    recorded: bool)

  /** Each code is given exactly when its own reason holds and none before it does. */
  predicate DueOn(f: Facts, refusal: Option<Code>) {
    var asked := f.parses && f.token;
    var live := asked && !f.switch;
    var safe := live && f.safe;
    var hosted := safe && !f.metadata;
    var scoped := hosted && f.scoped;
    var room := scoped && !f.spent;
    var owned := room && !f.noSet;
    var resolved := owned && !f.unresolved;
    var routable := resolved && !f.forbidden;
    var unlisted := routable && !f.listed;
    && (refusal == Some(OUT_OF_SCOPE) <==> !f.parses || (hosted && !scoped))
    && (refusal == Some(RATE_LIMIT) <==> f.parses && !f.token)
    && (refusal == Some(KILL_SWITCH) <==> asked && f.switch)
    && (refusal == Some(UNSAFE_METHOD) <==> live && !safe)
    && (refusal == Some(PRIVATE_OR_METADATA) <==> (safe && !hosted) || (resolved && !routable))
    && (refusal == Some(CEILING) <==> scoped && !room)
    && (refusal == Some(EMPTY_VERIFIED_IPS) <==> room && !owned)
    && (refusal == Some(DNS_FAILED) <==> owned && !resolved)
    && (refusal == Some(BLOCKLIST) <==> routable && !unlisted)
    && (refusal == Some(REBINDING) <==> unlisted && !f.recorded)
    && (refusal.None? <==> unlisted && f.recorded)
    && refusal != Some(UNVERIFIED)
  }

  /** The facts, in terms of methods, names, segments, numbers and entries. */
  ghost function FactsOf(p: Policy, r: Request): Facts {
    match r.url
    case None => Facts(false, r.tokenTaken, r.killSwitch, false, false, false, false, false, false, false, false, false)
    case Some(url) =>
      Facts(
        true, r.tokenTaken, r.killSwitch,
        Spells(r.httpMethod, "GET") || Spells(r.httpMethod, "HEAD") || Spells(r.httpMethod, "OPTIONS"),
        MetadataHost(url.hostname),
        url.inOrigin && InPaths(p, url.path),
        r.requestsMade >= p.scope.maxRequests || r.pagesCrawled >= p.scope.maxPages || r.depth > p.scope.maxDepth,
        p.scope.verifiedIpSet == [], r.resolvedIps == [],
        SomeForbidden(r.resolvedIps), SomeEntryHits(p, url, r.resolvedIps), AllRecorded(p, r.resolvedIps))
  }

  /** The facts as the code finds them. */
  function FactsFound(p: Policy, r: Request): Facts {
    match r.url
    case None => Facts(false, r.tokenTaken, r.killSwitch, false, false, false, false, false, false, false, false, false)
    case Some(url) =>
      Facts(
        true, r.tokenTaken, r.killSwitch, IsSafeMethod(r.httpMethod), IsBlockedHostname(url.hostname),
        url.inOrigin && PathScope.Allowed(p.decode, p.lower, url.path, p.scope.includedPaths, p.scope.excludedPaths),
        r.requestsMade >= p.scope.maxRequests || r.pagesCrawled >= p.scope.maxPages || r.depth > p.scope.maxDepth,
        p.scope.verifiedIpSet == [], r.resolvedIps == [],
        SomeBlocked(r.resolvedIps), Listed(p, url, r.resolvedIps), IpsMatchVerified(r.resolvedIps, p.scope.verifiedIpSet))
  }

  ghost predicate DecidedAsDue(p: Policy, r: Request, refusal: Option<Code>) {
    DueOn(FactsOf(p, r), refusal)
  }

  lemma RefusalDueAsFound(p: Policy, r: Request)
    ensures DueOn(FactsFound(p, r), Refusal(p, r))
  {
  }

  /** The switch refuses every request that parses and has its token, and nothing else answers so. */
  lemma SwitchRefusesExactly(p: Policy, r: Request)
    ensures Refusal(p, r) == Some(KILL_SWITCH) <==> r.url.Some? && r.tokenTaken && r.killSwitch
  {
    RefusalDueAsFound(p, r);
  }

  lemma SafeMethodsAre(name: string)
    ensures IsSafeMethod(name) <==> Spells(name, "GET") || Spells(name, "HEAD") || Spells(name, "OPTIONS")
  {
    SpellsExactly(name, "GET");
    SpellsExactly(name, "HEAD");
    SpellsExactly(name, "OPTIONS");
  }

  lemma SpellsExactly(name: string, word: string)
    requires forall k :: 0 <= k < |word| ==> 'A' <= word[k] <= 'Z'
    ensures Upper(name) == word <==> Spells(name, word)
  {
    if Upper(name) == word {
      forall k | 0 <= k < |word| ensures UpperChar(name[k]) == word[k] {
        assert Upper(name)[k] == word[k];
      }
    }
    if Spells(name, word) {
      assert forall k :: 0 <= k < |word| ==> Upper(name)[k] == word[k];
      assert Upper(name) == word;
    }
  }

  lemma SpellsLowerExactly(name: string, word: string)
    requires forall k :: 0 <= k < |word| ==> word[k] != 'k' && ('a' <= word[k] <= 'z' || word[k] == '.')
    ensures Lower(name) == word <==> SpellsLower(name, word)
  {
    if Lower(name) == word {
      forall k | 0 <= k < |word| ensures LowerChar(name[k]) == word[k] {
        assert Lower(name)[k] == word[k];
      }
    }
    if SpellsLower(name, word) {
      assert forall k :: 0 <= k < |word| ==> Lower(name)[k] == word[k];
      assert Lower(name) == word;
    }
  }

  lemma MetadataHostIs(hostname: string)
    ensures IsBlockedHostname(hostname) <==> MetadataHost(hostname)
  {
    SpellsLowerExactly(hostname, METADATA_HOST);
    SpellsLowerExactly(hostname, METADATA_HOST + ".");
    assert METADATA_HOST + "." == "metadata.google.internal.";
  }

  lemma SomeBlockedIs(ips: seq<string>)
    ensures SomeBlocked(ips) <==> SomeForbidden(ips)
  {
    forall i | 0 <= i < |ips|
      ensures IsBlockedAddress(ips[i]) <==> NumberNamed(ips[i]).None? || Forbidden(NumberNamed(ips[i]).value)
    {
      BlockedExactly(ips[i]);
    }
  }

  lemma ListedIs(p: Policy, url: Url, ips: seq<string>)
    ensures Listed(p, url, ips) <==> SomeEntryHits(p, url, ips)
  {
    ClearMeansNoEntryMatches(NormaliseHostname(url.hostname), NumbersIn(ips), p.blocklist);
  }

  lemma WithinIsRecorded(recorded: seq<string>, ip: string)
    ensures IsWithinVerifiedSet(ip, recorded).Within? <==> IsRecorded(recorded, ip)
  {
    WithinExactly(ip, recorded);
  }

  lemma RecordedIs(p: Policy, ips: seq<string>)
    requires ips != []
    ensures IpsMatchVerified(ips, p.scope.verifiedIpSet) <==> AllRecorded(p, ips)
  {
    var recorded := p.scope.verifiedIpSet;
    if IpsMatchVerified(ips, recorded) {
      forall k | 0 <= k < |ips| ensures IsRecorded(recorded, ips[k]) {
        WithinIsRecorded(recorded, ips[k]);
      }
    }
    if AllRecorded(p, ips) {
      forall k | 0 <= k < |ips| ensures IsWithinVerifiedSet(ips[k], recorded).Within? {
        assert IsRecorded(recorded, ips[k]);
        WithinIsRecorded(recorded, ips[k]);
      }
    }
  }

  lemma RequestFoundAsIs(p: Policy, r: Request, url: Url)
    requires PathScope.FoldsSegments(p.lower)
    ensures IsSafeMethod(r.httpMethod) <==>
            Spells(r.httpMethod, "GET") || Spells(r.httpMethod, "HEAD") || Spells(r.httpMethod, "OPTIONS")
    ensures IsBlockedHostname(url.hostname) <==> MetadataHost(url.hostname)
    ensures PathScope.Allowed(p.decode, p.lower, url.path, p.scope.includedPaths, p.scope.excludedPaths) <==>
            InPaths(p, url.path)
  {
    SafeMethodsAre(r.httpMethod);
    MetadataHostIs(url.hostname);
    PathScope.AllowedExactly(p.decode, p.lower, url.path, p.scope.includedPaths, p.scope.excludedPaths);
  }

  lemma AddressesFoundAsAre(p: Policy, url: Url, ips: seq<string>)
    ensures SomeBlocked(ips) <==> SomeForbidden(ips)
    ensures Listed(p, url, ips) <==> SomeEntryHits(p, url, ips)
    ensures ips != [] ==> (IpsMatchVerified(ips, p.scope.verifiedIpSet) <==> AllRecorded(p, ips))
  {
    SomeBlockedIs(ips);
    ListedIs(p, url, ips);
    if ips != [] { RecordedIs(p, ips); }
  }

  /** What the code finds is so; the recorded set matters only when a name was resolved. */
  lemma FoundAsIs(p: Policy, r: Request)
    requires PathScope.FoldsSegments(p.lower)
    ensures FactsFound(p, r) == FactsOf(p, r).(recorded := FactsFound(p, r).recorded)
    ensures r.url.Some? && r.resolvedIps != [] ==> FactsFound(p, r).recorded == FactsOf(p, r).recorded
  {
    if r.url.Some? {
      RequestFoundAsIs(p, r, r.url.value);
      AddressesFoundAsAre(p, r.url.value, r.resolvedIps);
    }
  }

  lemma OnlyWhenResolved(f: Facts, recorded: bool, refusal: Option<Code>)
    requires DueOn(f, refusal) && (f.parses && !f.unresolved ==> recorded == f.recorded)
    ensures DueOn(f.(recorded := recorded), refusal)
  {
  }

  /**
   * For every case folding: the check approves exactly when nothing stands against the
   * request, and gives each code exactly when its own reason is the first that does.
   */
  lemma RefusalIsDue(p: Policy, r: Request)
    requires PathScope.FoldsSegments(p.lower)
    ensures DecidedAsDue(p, r, Refusal(p, r))
  {
    FoundAsIs(p, r);
    RefusalDueAsFound(p, r);
    OnlyWhenResolved(FactsFound(p, r), FactsOf(p, r).recorded, Refusal(p, r));
  }

  /** Approval, for every case folding: exactly when nothing at all stands against the request. */
  lemma ApprovalMeans(p: Policy, r: Request)
    requires PathScope.FoldsSegments(p.lower)
    ensures var f := FactsOf(p, r);
            Refusal(p, r).None? <==>
            && f.parses && f.token && !f.switch && f.safe && !f.metadata && f.scoped && !f.spent
            && !f.noSet && !f.unresolved && !f.forbidden && !f.listed && f.recorded
  {
    RefusalIsDue(p, r);
  }

  /** An address a scan may connect to: routable, not routed to a refused one, and in the verified set. */
  predicate MayContact(p: Policy, ip: string) {
    !IsBlockedAddress(ip) && IsWithinVerifiedSet(ip, p.scope.verifiedIpSet).Within?
  }

  lemma RequestApproved(p: Policy, url: Url, r: Request)
    requires RequestRefusal(p, url, r).None?
    ensures !r.killSwitch && r.requestsMade < p.scope.maxRequests && r.pagesCrawled < p.scope.maxPages
    ensures r.depth <= p.scope.maxDepth
  {
  }

  lemma AddressesApproved(p: Policy, url: Url, ips: seq<string>)
    requires AddressRefusal(p, url, ips).None?
    ensures ips != [] && !SomeBlocked(ips) && !Listed(p, url, ips) && IpsMatchVerified(ips, p.scope.verifiedIpSet)
  {
  }

  lemma ApprovedMayBeContacted(p: Policy, ips: seq<string>, i: nat)
    requires !SomeBlocked(ips) && IpsMatchVerified(ips, p.scope.verifiedIpSet) && i < |ips|
    ensures MayContact(p, ips[i])
  {
  }

  lemma BothApproved(p: Policy, r: Request)
    requires Refusal(p, r).None?
    ensures r.url.Some? && RequestRefusal(p, r.url.value, r).None?
    ensures AddressRefusal(p, r.url.value, r.resolvedIps).None?
  {
  }

  /** Approval means every ceiling had room, the switch was off, and every resolved address may be contacted. */
  lemma ApprovalGives(p: Policy, r: Request)
    requires Refusal(p, r).None?
    ensures !r.killSwitch && r.requestsMade < p.scope.maxRequests && r.pagesCrawled < p.scope.maxPages
    ensures r.depth <= p.scope.maxDepth
    ensures r.resolvedIps != [] && forall i :: 0 <= i < |r.resolvedIps| ==> MayContact(p, r.resolvedIps[i])
  {
    BothApproved(p, r);
    RequestApproved(p, r.url.value, r);
    AddressesApproved(p, r.url.value, r.resolvedIps);
    forall i | 0 <= i < |r.resolvedIps| ensures MayContact(p, r.resolvedIps[i]) {
      ApprovedMayBeContacted(p, r.resolvedIps, i);
    }
  }

  // ------------------------------------------------------- what approval rules out

  /** An address that may be contacted is one recorded at verification, and its number is in no refused block. */
  lemma ContactIsRecordedAddress(p: Policy, ip: string, recorded: seq<string>)
    requires MayContact(p, ip) && p.scope.verifiedIpSet == ToRanges(recorded)
    ensures ClassifyAddress(ip).allowed && NumberNamed(ip).Some? && !Forbidden(NumberNamed(ip).value)
    ensures exists s :: s in recorded && NumberNamed(s) == NumberNamed(ip)
  {
    StoredSetAdmitsItsMembers(ip, recorded);
    BlockedExactly(ip);
    var s :| s in recorded && ToAddressNumber(s) == ToAddressNumber(ip);
    NumberIsOfWhatIsNamed(s);
    NumberIsOfWhatIsNamed(ip);
  }

  predicate Misses(entry: Entry, host: Option<string>, numbers: seq<Number>) {
    Compile(entry).Some? && MatchedBy(Compile(entry).value, host, numbers).None?
  }

  lemma FirstThenRest(host: Option<string>, numbers: seq<Number>, entries: seq<Entry>)
    requires entries != []
    ensures FirstMatch(host, numbers, entries).Clear? <==>
            Misses(entries[0], host, numbers) && FirstMatch(host, numbers, entries[1..]).Clear?
  {
  }

  lemma {:induction false} ClearMeansNoEntryMatches(host: Option<string>, numbers: seq<Number>, entries: seq<Entry>)
    ensures FirstMatch(host, numbers, entries).Clear? <==>
            forall i :: 0 <= i < |entries| ==> Misses(entries[i], host, numbers)
  {
    if entries != [] {
      FirstThenRest(host, numbers, entries);
      ClearMeansNoEntryMatches(host, numbers, entries[1..]);
      assert forall i :: 0 < i < |entries| ==> entries[i] == entries[1..][i - 1];
    }
  }

  lemma ApprovedIsNumbered(ip: string)
    requires !IsBlockedAddress(ip)
    ensures ToAddressNumber(ip).Some?
  {
    ClassifiedByAddressReached(ip);
    NumberOfAddressReached(ip);
  }

  lemma UnlistedIsClear(p: Policy, url: Url, ips: seq<string>)
    requires !Listed(p, url, ips)
    ensures FirstMatch(NormaliseHostname(url.hostname), NumbersIn(ips), p.blocklist).Clear?
  {
  }

  lemma ApprovedIsClear(p: Policy, r: Request)
    requires Refusal(p, r).None?
    ensures r.url.Some?
    ensures FirstMatch(NormaliseHostname(r.url.value.hostname), NumbersIn(r.resolvedIps), p.blocklist).Clear?
  {
    BothApproved(p, r);
    AddressesApproved(p, r.url.value, r.resolvedIps);
    UnlistedIsClear(p, r.url.value, r.resolvedIps);
  }

  /** No approved request goes to an address that a blocklist block or range covers, and no entry was left unevaluated. */
  lemma ApprovedAddressIsNotListed(p: Policy, r: Request, ip: string, k: nat)
    requires Refusal(p, r).None? && ip in r.resolvedIps && Unsuffixed(ip) && k < |p.blocklist|
    ensures Compile(p.blocklist[k]).Some? && ToAddressNumber(ip).Some?
    ensures !Covers(Compile(p.blocklist[k]).value, ToAddressNumber(ip).value)
  {
    ApprovalGives(p, r);
    assert !IsBlockedAddress(ip) by {
      var i :| 0 <= i < |r.resolvedIps| && r.resolvedIps[i] == ip;
      assert MayContact(p, r.resolvedIps[i]);
    }
    ApprovedIsNumbered(ip);
    ApprovedIsClear(p, r);
    NumberedClear(NormaliseHostname(r.url.value.hostname), r.resolvedIps, p.blocklist, ip, k);
  }

  lemma NumberedClear(host: Option<string>, ips: seq<string>, entries: seq<Entry>, ip: string, k: nat)
    requires FirstMatch(host, NumbersIn(ips), entries).Clear? && ip in ips && Unsuffixed(ip) && k < |entries|
    requires ToAddressNumber(ip).Some?
    ensures Compile(entries[k]).Some? && !Covers(Compile(entries[k]).value, ToAddressNumber(ip).value)
  {
    PlainNumber(ip);
    GatherHolds(NumberFrom, ips, ip, ToAddressNumber(ip).value);
    ClearMeansNoEntryMatches(host, NumbersIn(ips), entries);
    NotCovered(Compile(entries[k]).value, host, NumbersIn(ips), ToAddressNumber(ip).value);
  }

  lemma NotCovered(m: Matcher, host: Option<string>, numbers: seq<Number>, n: Number)
    requires MatchedBy(m, host, numbers).None? && n in numbers
    ensures !Covers(m, n)
  {
  }

  // ------------------------------------------------------------------- the ledger

  datatype Decision =
    | ALLOWED
    | BLOCKED_VERIFICATION
    | BLOCKED_SCOPE
    | BLOCKED_BLOCKLIST
    | BLOCKED_RATE_LIMIT
    | BLOCKED_CEILING
    | BLOCKED_KILL_SWITCH
    | BLOCKED_DNS_REBINDING
    | ERROR

  function LedgerDecision(code: Code): Decision {
    match code
    case UNVERIFIED => BLOCKED_VERIFICATION
    case EMPTY_VERIFIED_IPS => BLOCKED_VERIFICATION
    case OUT_OF_SCOPE => BLOCKED_SCOPE
    case UNSAFE_METHOD => BLOCKED_SCOPE
    case BLOCKLIST => BLOCKED_BLOCKLIST
    case PRIVATE_OR_METADATA => BLOCKED_BLOCKLIST
    case RATE_LIMIT => BLOCKED_RATE_LIMIT
    case CEILING => BLOCKED_CEILING
    case KILL_SWITCH => BLOCKED_KILL_SWITCH
    case REBINDING => BLOCKED_DNS_REBINDING
    case DNS_FAILED => ERROR
  }

  /** A row of the ledger; `timed` when it has a response time. */
  datatype Row = Row(decision: Decision, resolvedIp: string, timed: bool)

  /** The rows a resumed run counts as requests already sent. */
  predicate IsSent(row: Row) {
    row.decision == ALLOWED || (row.decision == ERROR && row.timed)
  }

  function SentRows(ledger: seq<Row>): nat {
    if ledger == [] then 0
    else SentRows(ledger[..|ledger| - 1]) + if IsSent(ledger[|ledger| - 1]) then 1 else 0
  }

  function FirstIp(ips: seq<string>): string {
    if ips == [] then "" else ips[0]
  }

  /** A refusal's row; nothing is resolved for a URL that does not parse or without a token. */
  function DeniedRow(code: Code, r: Request): (row: Row)
    ensures !IsSent(row)
    ensures row.decision == BLOCKED_KILL_SWITCH <==> code == KILL_SWITCH
    ensures row.decision == BLOCKED_SCOPE <==> code == OUT_OF_SCOPE || code == UNSAFE_METHOD
    ensures row.decision == BLOCKED_BLOCKLIST <==> code == BLOCKLIST || code == PRIVATE_OR_METADATA
    ensures row.decision == BLOCKED_VERIFICATION <==> code == UNVERIFIED || code == EMPTY_VERIFIED_IPS
    ensures row.decision == BLOCKED_RATE_LIMIT <==> code == RATE_LIMIT
    ensures row.decision == BLOCKED_CEILING <==> code == CEILING
    ensures row.decision == BLOCKED_DNS_REBINDING <==> code == REBINDING
    ensures row.decision == ERROR <==> code == DNS_FAILED
  {
    var resolved := if r.url.None? || !r.tokenTaken then [] else r.resolvedIps;
    Row(LedgerDecision(code), FirstIp(resolved), false)
  }

  lemma OneMoreRow(ledger: seq<Row>, row: Row)
    ensures SentRows(ledger + [row]) == SentRows(ledger) + if IsSent(row) then 1 else 0
  {
    assert (ledger + [row])[..|ledger|] == ledger;
  }

  /** A scan's ledger, the addresses its connections went to, and what the senders of its requests did, in order. */
  class World {
    var ledger: seq<Row>
    ghost var contacted: seq<string>
    ghost const ceiling: int
    ghost var events: SharedBudget.Trace
    /** Senders are numbered from zero. */
    ghost var senders: SharedBudget.Sender

    /**
     * Every sender kept to the ceiling by its own count, runs followed one another,
     * and each of the requests sent so far has its row.
     */
    ghost predicate Traced(sent: nat)
      reads this`events, this`senders
    {
      SharedBudget.Lawful(events, ceiling, sent) && SharedBudget.Numbered(events, senders)
    }

    /** The ledger accounts for every connection, and each was some sender's. */
    ghost predicate Balanced()
      reads this
    {
      |contacted| == SentRows(ledger) && Traced(|contacted|)
    }

    constructor (ghost ceiling: int)
      ensures Balanced() && ledger == [] && events == [] && this.ceiling == ceiling
    {
      ledger, contacted, events, senders := [], [], [], 0;
      this.ceiling := ceiling;
      SharedBudget.LawfulAtFirst(ceiling);
    }

    /** A sender begins, by reading the ledger. */
    ghost method Begin() returns (j: SharedBudget.Sender)
      requires Balanced()
      modifies this`events, this`senders
      ensures Balanced() && events == old(events) + [SharedBudget.Begin(j)]
      ensures SharedBudget.Books(events, j, SentRows(ledger), false, 0, {})
    {
      j := senders;
      SharedBudget.OpenLawful(events, ceiling, |contacted|);
      SharedBudget.Begins(events, ceiling, j);
      events, senders := events + [SharedBudget.Begin(j)], senders + 1;
    }

    /** A sender begins, with a copy of the count of the only one in turn. */
    ghost method Copy(from: SharedBudget.Sender, count: int, open: bool, unseen: nat) returns (j: SharedBudget.Sender)
      requires Balanced() && SharedBudget.Books(events, from, count, open, unseen, {})
      modifies this`events, this`senders
      ensures Balanced() && events == old(events) + [SharedBudget.Copy(j, from)] && j != from
      ensures SharedBudget.Counting(events, j, count) && SharedBudget.Books(events, from, count, open, unseen, {j})
      ensures SharedBudget.LateOf(events, from) == 0 && (SharedBudget.OpenAtCopy(events, from) <==> open)
    {
      j := senders;
      SharedBudget.OpenLawful(events, ceiling, |contacted|);
      SharedBudget.OpenBooks(events, from, count, open, unseen, {});
      SharedBudget.LiveHasBegun(events, from);
      SharedBudget.OnlyCopiedAreLate(events, from);
      SharedBudget.Copies(events, ceiling, j, from);
      SharedBudget.CopiesElsewhere(events, j, from, from);
      events, senders := events + [SharedBudget.Copy(j, from)], senders + 1;
      assert SharedBudget.Holds(events, from, count, open) && SharedBudget.Turn(events, from, {j});
    }

    /** A sender counts a request, before the guard decides. */
    ghost method Count(j: SharedBudget.Sender)
      requires Balanced() && SharedBudget.Live(events, j) && j !in SharedBudget.Counted(events)
      modifies this`events
      ensures Balanced() && events == old(events) + [SharedBudget.Count(j)]
    {
      SharedBudget.OpenLawful(events, ceiling, |contacted|);
      SharedBudget.Counts(events, ceiling, j);
      SharedBudget.TurnAfterCount(events, j, j);
      events := events + [SharedBudget.Count(j)];
    }

    /** The counted request was sent and ledgered, or refused. */
    ghost method Decide(j: SharedBudget.Sender, sofar: nat, sent: bool)
      requires Traced(sofar) && SharedBudget.Live(events, j) && j in SharedBudget.Counted(events)
      requires sent ==> SharedBudget.Counter(events, j) <= ceiling && j in SharedBudget.Current(events)
      modifies this`events
      ensures Traced(sofar + if sent then 1 else 0) && events == old(events) + SharedBudget.Decided(j, sent)
    {
      SharedBudget.OpenLawful(events, ceiling, sofar);
      SharedBudget.Decides(events, ceiling, j, sent);
      SharedBudget.TurnAfterDecided(events, j, sent, j);
      events := events + SharedBudget.Decided(j, sent);
    }

    method Record(row: Row)
      modifies this`ledger
      ensures ledger == old(ledger) + [row]
      ensures SentRows(ledger) == old(SentRows(ledger)) + if IsSent(row) then 1 else 0
    {
      OneMoreRow(ledger, row);
      ledger := ledger + [row];
    }

    /** A connection attempt; only ever to an address the scan's policy admits. */
    ghost method Contact(p: Policy, ip: string)
      requires MayContact(p, ip)
      modifies this`contacted
      ensures contacted == old(contacted) + [ip]
    {
      contacted := contacted + [ip];
    }
  }

  /** The check, with its refusal ledgered; an approved caller ledgers its own outcome. */
  method Authorize(world: World, p: Policy, r: Request) returns (refusal: Option<Code>)
    modifies world`ledger
    ensures refusal == Refusal(p, r)
    ensures PathScope.FoldsSegments(p.lower) ==> DecidedAsDue(p, r, refusal)
    ensures world.ledger == old(world.ledger) + if refusal.Some? then [DeniedRow(refusal.value, r)] else []
    ensures SentRows(world.ledger) == old(SentRows(world.ledger))
  {
    if PathScope.FoldsSegments(p.lower) { RefusalIsDue(p, r); }
    if r.url.None? {
      world.Record(DeniedRow(OUT_OF_SCOPE, r));
      return Some(OUT_OF_SCOPE);
    }
    if !r.tokenTaken {
      world.Record(DeniedRow(RATE_LIMIT, r));
      return Some(RATE_LIMIT);
    }
    refusal := Evaluate(p, r.url.value, r);
    if refusal.Some? {
      world.Record(DeniedRow(refusal.value, r));
    }
  }

  datatype Outcome<T> = Ok(answer: T) | Refused(code: Code) | Threw

  /** The outcome of an attempt the target answers with `answer`; None is a timeout or network error. */
  function OutcomeOf<T>(p: Policy, r: Request, answer: Option<T>): Outcome<T> {
    match Refusal(p, r)
    case Some(code) => Refused(code)
    case None => match answer case Some(a) => Ok(a) case None => Threw
  }

  function RefusalIn<T>(outcome: Outcome<T>): Option<Code> {
    if outcome.Refused? then Some(outcome.code) else None
  }

  lemma OutcomeIsDue<T>(p: Policy, r: Request, answer: Option<T>)
    ensures PathScope.FoldsSegments(p.lower) ==> DecidedAsDue(p, r, RefusalIn(OutcomeOf(p, r, answer)))
  {
    if PathScope.FoldsSegments(p.lower) {
      RefusalIsDue(p, r);
      assert RefusalIn(OutcomeOf(p, r, answer)) == Refusal(p, r);
    }
  }

  /** Every attempt, allowed or refused, leaves one ledger row; a row counts as sent exactly when a connection was made. */
  method Dispatch<T>(world: World, p: Policy, r: Request, answer: Option<T>) returns (outcome: Outcome<T>)
    modifies world`ledger, world`contacted
    ensures outcome == OutcomeOf(p, r, answer)
    ensures PathScope.FoldsSegments(p.lower) ==> DecidedAsDue(p, r, RefusalIn(outcome))
    ensures |world.ledger| == old(|world.ledger|) + 1 && old(world.ledger) < world.ledger
    ensures var row := world.ledger[|world.ledger| - 1];
            match outcome
            case Refused(code) => row == DeniedRow(code, r)
            case Ok(_) => row == Row(ALLOWED, FirstIp(r.resolvedIps), true)
            case Threw => row == Row(ERROR, FirstIp(r.resolvedIps), true)
    ensures world.contacted == old(world.contacted) + if outcome.Refused? then [] else [FirstIp(r.resolvedIps)]
    ensures SentRows(world.ledger) == old(SentRows(world.ledger)) + if outcome.Refused? then 0 else 1
    ensures !outcome.Refused? ==> MayContact(p, FirstIp(r.resolvedIps))
  {
    OutcomeIsDue(p, r, answer);
    var refusal := Authorize(world, p, r);
    if refusal.Some? { return Refused(refusal.value); }
    ApprovalGives(p, r);
    world.Contact(p, r.resolvedIps[0]);
    if answer.None? {
      world.Record(Row(ERROR, FirstIp(r.resolvedIps), true));
      return Threw;
    }
    world.Record(Row(ALLOWED, FirstIp(r.resolvedIps), true));
    return Ok(answer.value);
  }
}
