# Verification of the scanner's core

A Dafny model of the web vulnerability scanner's hardest parts, with proofs of what they keep true. It verifies with
Dafny 4.11: `dafny verify dfyconfig.toml`.

**The scan lifecycle.** API calls (start, pause, resume, cancel), the worker, the reconciler and the kill switch all write
the same scan rows and a queue keyed by scan id. `ScanDatabase` gives every committed write as a guarded function on the
tables. `ScanStore` is the code that performs the writes, each method proved to commit exactly its function.
`ScanProtocol` is the state machine: a process is a program counter, a step commits at most one transaction or one queue
operation, and any process may take the next step. Resume's check and its compare-and-set are separate steps; so are the
worker's reading of the row, claim, checkpoint, choice of the previous scan, reading of its findings, and persist. A
process that takes no further step has crashed. Targets and whole organisations may be deleted at any step; their scans,
findings and diffs go with them, and no process and no queue is told. `ScanInvariant` says what a single write keeps, and
`ScanSafety` what holds in every state of every run; `ConcreteRuns` is four runs in full. `TriageDiff` is the comparison
with the previous scan.

**The crawl and its budget.** `Guard` is the check every connection passes and the ledger row every attempt leaves;
`CrawlSpec` is what requests and replies lead to, and `Crawler` the crawl loop, with the chain of requests that the browser
adds to and nobody awaits; `Engine` is one run (crawl, TLS probe, active probes) with the rest of the chain going on beside
the probes and after them, and any number of resumed runs. Every request is also an event of its sender in the ledger's
history. `SharedBudget` is what becomes of the request ceiling in any such history: the senders are crawls and copied counts,
of one run or of runs that overlap.
What the target, the renderer, the resolver, the limiter, the kill switch and the status row answer is chosen freely at
each read, so the proofs hold for all of them. A connection can be recorded only for an address the policy admits: that
is the precondition of `World.Contact`, the one member that extends the list of contacted addresses.

**Addresses.** `Ipv6Text`, `Address`, `RefusedBlocks`, `BlockedNetworks`, `Powers`, `Blocklist` and `VerifiedSet` are the two
IPv6 printers, the parser and the classifier, the refused blocks as networks and prefix lengths, the third reader, CIDR
masking on big integers, stored patterns that are parsed again, and the verified set.
Addresses of both families are numbers without a width limit; masks are divisions by powers of two.

**Small algorithms.** `Robots` (wildcard matching, rule precedence, groups), `PathScope` (canonical paths and prefixes),
`FindingSort` (sort orders and keyset cursors under SQL's three-valued logic), `RateLimit` (token bucket over reals),
`ClientHello` (builder, decoder, reply reader), `Deduplicator`, and `Text` for the string operations they share.

What the code does not promise, although its comments suggest it:

- `packages/shared/src/scans/lifecycle.ts` presents its table as the route every status change takes. The kill switch also
  moves QUEUED and PAUSED scans to ABORTED_SAFETY, which the table does not list; `ScanSafety.TableViolatedExactlyByHalt`
  says those are the only exceptions, and `ConcreteRuns.QueuedScanIsAborted` is a run with one.
- A scan's attempt can go down. `ScanSafety.AttemptDropsExactlyOnRollback` says exactly when, and
  `ConcreteRuns.AttemptGoesDown` is a run in which it does.
- A worker whose attempt was superseded by a pause and a resume can still complete the scan:
  `ConcreteRuns.OldAttemptCompletes` is the run, and `ScanSafety.CompletesTheClaimedAttempt` says exactly when the attempt
  completed is the one claimed. The guard that is missing from the persist is `attempt`, as the claim has it.
- Crawl, TLS and active requests do not share one ceiling, even in a single run. The crawl chains the browser's requests
  but a render does not await them (`apps/worker/src/crawler/crawler.ts:117-133`, `:224-233`), so some may be left when the
  crawl returns. They are then sent and ledgered under the crawl's own count, while the probes count from the copy taken at
  `apps/worker/src/engine/scan-engine.ts:87`. The count a run reports is that of the ledger exactly when as many requests of
  the crawl were sent after the copy as were under way then, which is none or one (`Engine.RunScanEngine`); the total passes
  the ceiling by at most the late ones, over any number of runs (`Engine.RunScan`). Without a renderer (`SCANNER_RENDER_JS`
  off, or a browser that does not start) nothing is ever left on the chain, and both contracts say that the report is exact
  and the ceiling kept. With one, `SharedBudget.LateRequestsPassTheCeiling` is, for every ceiling and every copied count, a
  run that passes it by all that was free, and `SharedBudget.CopiedCountMayBeOneTooHigh` one that reports a request too many.
- Nor do runs of one scan that overlap. A stalled job is delivered again while its worker runs on
  (`ConcreteRuns.TwoWorkersServeOneScan`), and each run then counts from its own reading of the ledger
  (`SharedBudget.OverCeilingExactly`, `SharedBudget.TwoRunsSpendTwice`).

A comment in `packages/scope-rules/src/address.ts` names the NAT64 prefix 64:ff9b::/96; the code refuses all of 64:ff9b::/32,
and `RefusedBlocks` follows the code.

`RateLimit.SmallBurstNeverAllows` is about a burst the service does not configure: the rate limit, which is also the burst,
is at least one (`packages/shared/src/scans/profiles.ts:65`).

## Model

| member | source | states |
|---|---|---|
| Lifecycle.TablesAgree | packages/shared/src/scans/lifecycle.ts:14-115 | a status is terminal exactly when it holds no quota and exactly when the table leaves it nowhere to go; controls are planned only along table edges |
| TriageDiff.ProcessScanTriage | apps/worker/src/processors/triage-carrier.ts:29-88 | the loops give every finding its carried decision (the latest recorded, else OPEN) and its comparison, and the diff is exactly the reported records followed by the resolved ones |
| TriageDiff.CarriedIsLatest | apps/worker/src/processors/triage-carrier.ts:38-52 | the decision carried is the last one recorded for this target and this fingerprint |
| TriageDiff.OpenWhenNoneDecides | apps/worker/src/processors/triage-carrier.ts:38-52 | a finding on which nothing was recorded is OPEN |
| TriageDiff.DiffSaysWhatChanged | apps/worker/src/processors/triage-carrier.ts:46-82 | NEW, PERSISTING and RESOLVED are the three set differences, so replaying a diff over the previous fingerprints gives the current ones |
| ScanStore.Store.ReserveScan | apps/api/src/modules/scans/scan-reservation.ts:53-169 | each answer exactly when its own reason holds and none before it does, an unscannable target among them; an unrefused request inserts one row, queued, first attempt, at the smaller of the rate asked for and the cap; a target already in use names the scan that holds it |
| ScanStore.Store.PreviousScanFingerprints | apps/worker/src/orchestrator/scan-orchestrator.ts:309-326 | the chosen scan is a completed one of the target, not this one, with none completed later; its findings are returned |
| ScanStore.Store.PersistResults | apps/worker/src/orchestrator/scan-orchestrator.ts:334-374 | exactly for a running row: status, count, findings and diff are written together and no other scan's row, findings or diff changes; otherwise nothing does |
| ScanStore.Store.EngageKillSwitch | apps/api/src/modules/scope-guard/kill-switch.ts:120-208 | everything queued, running or paused is aborted in one write, and exactly the aborted scans' jobs that no worker holds leave the queue |
| ScanStore.Store.RemoveScanJobs | apps/api/src/modules/scans/scan-queue.ts:76-84 | jobs of the given scans go, except those a worker holds; no other job changes |
| ScanStore.Store.ControlScan | apps/api/src/modules/scans/scan-service.ts:341-401 | each of the seven outcomes exactly when it is due, success included; any outcome but success leaves rows and queue as they were, so a resume the queue refuses is undone completely |
| ScanStore.RollbackUndoesResume | apps/api/src/modules/scans/scan-service.ts:302-331 | resuming a paused scan and rolling the resume back gives the tables back, attempt included |
| ScanStore.Store.DeleteTarget | apps/api/src/modules/targets/targets.routes.ts:393-416 | only an organisation's own target is deleted, and with it exactly its scans in any status, their findings and diffs; the queue is not told |
| ScanStore.Store.ReconcileOne | apps/api/src/modules/scans/scan-reconciler.ts:122-160 | a scan too old or no longer scannable is failed if it is still QUEUED, any other gets a first-attempt job unless the queue is down or holds one; no other scan changes, and the answer says which happened |
| ScanStore.Store.ReconcileScans | apps/api/src/modules/scans/scan-reconciler.ts:169-209 | after a sweep every candidate, moved on or not, is ended, held by the queue, requeued or as it was; nothing else changed, and the counters add up |
| ScanInvariant.OnlyPersistWritesResults | apps/worker/src/orchestrator/scan-orchestrator.ts:334-374 | only its own persist completes a scan, no write changes a completed one, and only deleting its target removes it |
| ScanInvariant.DeletionIsWhole | packages/database/prisma/schema.prisma:328 | the cascade takes every row, finding and diff of the targets deleted and leaves every other scan as it was |
| ScanInvariant.HistoryStaysDiffed | apps/worker/src/orchestrator/scan-orchestrator.ts:213-223 | every write keeps each stored diff the comparison with the scan completed right before |
| ScanInvariant.WritesKeepInv | apps/api/src/modules/scans/scan-service.ts:254-331 | every write to these tables, the deletion of targets and organisations included, keeps all invariants together |
| ScanSafety.LatestStaysCurrent | apps/worker/src/orchestrator/scan-orchestrator.ts:213-223 | while a scan is active no other write changes which completed scan is its target's latest, so the earlier read is still current at persist |
| ScanSafety.StepKeepsInv | apps/worker/src/orchestrator/scan-orchestrator.ts:110-252 | every step of every process keeps the invariants of tables, processes and queue |
| ScanSafety.ReachableInv | apps/worker/src/orchestrator/scan-orchestrator.ts:110-252 | they hold in every state of every run |
| ScanSafety.OneScanPerTarget | apps/api/src/modules/scans/scan-reservation.ts:132-147 | a target never has two scans queued, running or paused |
| ScanSafety.QuotaHolds | apps/api/src/modules/scans/scan-reservation.ts:86-165 | an organisation never holds more slots than the largest limit that was in force; with a fixed limit, never more than it |
| ScanSafety.EngagedMeansIdle | apps/api/src/modules/scope-guard/kill-switch.ts:120-174 | while the switch is engaged no scan is queued, running or paused, whatever resume was between its check and its write |
| ScanSafety.ReleaseRevivesNothing | apps/api/src/modules/scope-guard/kill-switch.ts:211-232 | whatever existed while the switch was engaged is never active again: it stays as it was, or goes with its target for good |
| ScanSafety.TerminalIsFinal | apps/worker/src/orchestrator/scan-orchestrator.ts:294-407 | in every continuation of every run a terminal scan's status, attempt, completion time, count, findings and diff are what they were, or its target was deleted and nothing of it is left |
| ScanSafety.DeletionIsForGood | apps/api/src/modules/targets/targets.routes.ts:393-416 | once a scan went with its target, no row, finding or diff of it, nor the target, ever exists again, whatever worker or job still holds its id |
| ScanSafety.EveryMoveHasItsMover | apps/worker/src/orchestrator/scan-orchestrator.ts:387-407 | in every run a worker starts only queued scans and completes or fails only running ones, the reconciler fails only queued ones, controls move as planned, and no other step, releasing the switch included, moves a status |
| ScanSafety.OnlyScannableIsReserved | apps/api/src/modules/scans/scan-reservation.ts:110-165 | in every run a row is new in a step exactly when the step starts that scan, and then its target was scannable, its organisation's own and free, a slot was left and the switch off |
| ScanSafety.OnlyClearedIsResumed | apps/api/src/modules/scans/scan-service.ts:266-299 | in every run a paused scan runs again only by a resume that found the switch off and the target scannable at an earlier step |
| ScanSafety.ResultsWrittenOnce | apps/worker/src/orchestrator/scan-orchestrator.ts:334-374 | the steps that wrote a scan's results number one exactly when it was ever COMPLETED, which is when it is COMPLETED if it still exists; only then has it rows, and the count is their number |
| ScanSafety.DiffsReplayToLatest | apps/worker/src/orchestrator/scan-orchestrator.ts:309-374 | in every reachable state a target's completed scans have an order of completion, and folding their diffs along it from the empty set gives the latest one's fingerprints |
| ScanSafety.TableViolatedExactlyByHalt | apps/api/src/modules/scope-guard/kill-switch.ts:134-144 | a step changes a status off the transition table exactly when it engages the switch on a queued or paused scan |
| ScanSafety.AttemptAccounting | apps/api/src/modules/scans/scan-service.ts:266-330 | while a scan exists its attempt is one plus the number of resumes won less the number of rollbacks, and never less than one |
| ScanSafety.AttemptDropsExactlyOnRollback | apps/api/src/modules/scans/scan-service.ts:302-331 | the attempt goes down in a step exactly when a refused resume is rolled back on a row still running |
| ScanSafety.CompletesTheClaimedAttempt | apps/worker/src/orchestrator/scan-orchestrator.ts:343-345 | whenever a worker completes a scan, the row's attempt is the one it claimed exactly when resumes won and rollbacks applied since the claim are equal in number, which is when the row's attempt read before the write is the claimed one |
| ConcreteRuns.OldAttemptCompletes | apps/worker/src/orchestrator/scan-orchestrator.ts:343-345 | a concrete run in which a worker that claimed attempt one completes the scan as attempt two |
| ConcreteRuns.QueuedScanIsAborted | apps/api/src/modules/scope-guard/kill-switch.ts:134-144 | a concrete run in which the kill switch takes a reserved scan from QUEUED to ABORTED_SAFETY, off the transition table |
| ConcreteRuns.AttemptGoesDown | apps/api/src/modules/scans/scan-service.ts:302-331 | a concrete run in which the queue refuses a resumed scan's job and the rollback takes the running row from attempt two to one |
| ConcreteRuns.TwoWorkersServeOneScan | apps/worker/src/orchestrator/scan-orchestrator.ts:110-152 | a concrete run in which a stalled job is delivered again and two workers serve one attempt at the same time |
| ScanSafety.QueuedScanIsClaimable | apps/api/src/modules/scans/scan-reconciler.ts:140-149 | a queued row is claimed by the job the queue holds, by the default-attempt job the reconciler adds, and by any worker about to claim it |
| Robots.LaterStarSuffices | apps/worker/src/crawler/robots.ts:94-115 | keeping only the last star loses no match |
| Robots.GlobMatches | apps/worker/src/crawler/robots.ts:94-115 | the two-index walk decides the declarative wildcard match, in at most pattern length + (text length + 1)^2 turns |
| Robots.RuleMatches | apps/worker/src/crawler/robots.ts:82-87 | a rule applies anchored when it ends in `$`, else as a prefix pattern |
| Robots.UnanchoredMatchesAPrefix | apps/worker/src/crawler/robots.ts:82-87 | an unanchored rule applies exactly when it matches some prefix of the target |
| Robots.PlainRuleIsAPrefix | apps/worker/src/crawler/robots.ts:82-87 | a rule without wildcards applies exactly to targets that start with it |
| Robots.Longest | apps/worker/src/crawler/robots.ts:75-79 | the length found is that of the longest rule that applies, -1 when none does |
| Robots.RobotsAllows | apps/worker/src/crawler/robots.ts:75-79 | allowed exactly when every applicable Disallow is answered by an applicable Allow at least as long |
| Robots.ReadDirectives | apps/worker/src/crawler/robots.ts:32-53 | every directive lands in the group opened by its agent lines, in order; a group's agents, Disallow and Allow rules are exactly those directives that stand in it, rules without a value aside; sitemaps belong to none |
| Robots.SitemapsExactly | apps/worker/src/crawler/robots.ts:32-53 | the sitemaps are exactly the values of the Sitemap lines, wherever they stand |
| Robots.ConsecutiveAgentsShareAGroup | apps/worker/src/crawler/robots.ts:32-53 | user-agent lines with only sitemaps between them share one group |
| Robots.PickGroup | apps/worker/src/crawler/robots.ts:64-69 | the first group naming the product token, else the first `*` group, else none exactly when there is neither |
| Ipv6Text.LeftmostLongestIsUnique | packages/scope-rules/src/address.ts:139-165 | the run to compress, by section 4.2 of RFC 5952, is unique, so two scans that both find it print the same |
| Ipv6Text.GroupsToText | packages/scope-rules/src/address.ts:139-165 | the first printer's scan compresses the leftmost longest run of at least two zero groups |
| Ipv6Text.CanonicalIpv6 | packages/scope-rules/src/blocklist.ts:118-141 | the second printer's different scan prints the same text |
| Ipv6Text.PrintThenRead | packages/scope-rules/src/address.ts:84-165 | for all eight groups, the printed text reads back as those groups, and holds only hex digits and colons |
| Ipv6Text.TextIsInjective | packages/scope-rules/src/address.ts:139-165 | different groups never print alike |
| Address.ParseIpv4 | packages/scope-rules/src/address.ts:39-52 | four decimal parts of one to three digits, no leading zero, at most 255, and nothing else |
| Address.PrintThenReadV4 | packages/scope-rules/src/address.ts:39-52 | every four octets read back from their dotted text |
| Address.OneSpellingV4 | packages/scope-rules/src/address.ts:39-52 | every IPv4 address has exactly one accepted spelling, its canonical text |
| Address.ParseIpv6 | packages/scope-rules/src/address.ts:84-128 | the step-by-step parse (brackets, zone, dotted tail, halves) agrees with its specification on every text |
| Address.DottedTailAgrees | packages/scope-rules/src/address.ts:84-128 | what parses is eight 16-bit groups, and a dotted tail is exactly the last two of them |
| Address.ClassifiedByAddressReached | packages/scope-rules/src/address.ts:167-229 | verdict, reason and normalised text depend only on the address a spelling leads to |
| Address.PrintThenParse | packages/scope-rules/src/address.ts:84-165 | for all eight groups, those that embed an IPv4 address included, the printed text parses as those groups with no dotted tail, and not as an IPv4 address |
| Address.NameParses | packages/scope-rules/src/address.ts:139-165 | the canonical name of an address parses as that address, in its own family |
| Address.NameResolves | packages/scope-rules/src/address.ts:218-229 | the canonical name of every address leads back to it |
| Address.NormalisedIsFixedPoint | packages/scope-rules/src/address.ts:218-229 | classifying the normalised text gives the same verdict again |
| Address.NumberOfAddressReached | packages/scope-rules/src/address.ts:261-273 | the number found by re-parsing the normalised text is the number of the address reached |
| Address.NumberIsInjective | packages/scope-rules/src/address.ts:261-273 | different addresses have different numbers |
| Address.SameNumberSameVerdict | packages/scope-rules/src/address.ts:167-273 | two spellings with one number get one verdict, reason and normalised text, and the same normalised text means the same number |
| RefusedBlocks.BlockInterval | packages/scope-rules/src/address.ts:54-78 | a block, by the first bits of a network, is the interval from the network on, 2^(host bits) values long |
| RefusedBlocks.NumberIsOfWhatIsNamed | packages/scope-rules/src/address.ts:167-273 | the number found by classifying and parsing again is that of the text: an IPv6 number of its own, or the lower 32 bits when the upper 96 are 0 or 0xffff and it is not `::` or `::1` |
| RefusedBlocks.FourByBlock | packages/scope-rules/src/address.ts:54-78 | an IPv4 address is refused for a reason exactly when its number lies in one of the blocks of that reason, fourteen in all, 169.254.169.254 apart |
| RefusedBlocks.SixByBlock | packages/scope-rules/src/address.ts:167-216 | an IPv6 address that embeds none is refused for a reason exactly when its number lies in one of that reason's blocks, eight in all, fd00:ec2::254 apart |
| RefusedBlocks.ClassifiedByBlock | packages/scope-rules/src/address.ts:218-229 | for every text: malformed exactly when it names no address, refused for a reason exactly when its number lies in that reason's blocks, allowed exactly when it lies in none |
| BlockedNetworks.ChunkIsItsNumber | packages/scope-guard/src/blocked-networks.ts:74-81 | on one to four hex digits the lenient number reader finds what the parser finds |
| BlockedNetworks.ExpandAgrees | packages/scope-guard/src/blocked-networks.ts:74-81 | on every text the parser accepts, the third, unchecking reader finds the same groups |
| BlockedNetworks.PrintThenExpand | packages/scope-guard/src/blocked-networks.ts:74-81 | for all eight groups, the third reader finds them in the printed text |
| BlockedNetworks.TargetOfFour | packages/scope-guard/src/blocked-networks.ts:84-88 | the name of an IPv4 address, read as groups, is never taken for a 6to4 address |
| BlockedNetworks.BlockedExactly | packages/scope-guard/src/blocked-networks.ts:97-102 | for every text: blocked exactly when it names no address, a number in a refused block, or a 6to4 address whose 32 bits behind the prefix are one |
| Powers.BlockIsInterval | packages/scope-rules/src/blocklist.ts:182-188 | masking to a network is lying in its interval of 2^hostBits values |
| Powers.MaskingKeepsFamily | packages/scope-rules/src/blocklist.ts:77-98 | masking an IPv6 value never lands it among the ones that embed an IPv4 address, `::` and `::1` aside |
| Blocklist.FoldEight | packages/scope-rules/src/address.ts:261-273 | how the embedded ranges look in the folded 128-bit number |
| Blocklist.FormatReads | packages/scope-rules/src/blocklist.ts:109-115 | formatting a number and reading it back gives the number |
| Blocklist.CanonicalText | packages/scope-rules/src/blocklist.ts:118-141 | the groups taken off by shifting are the value's digits, and their text is canonical |
| Blocklist.CanonicalPatternIsStable | packages/scope-rules/src/blocklist.ts:149-167 | a pattern that was accepted and stored is accepted again, unchanged, for all three kinds |
| Blocklist.SecondParseSucceeds | packages/scope-rules/src/blocklist.ts:182-207 | the matchers' second parse never fails and finds the same block or range |
| Blocklist.CidrCoversInterval | packages/scope-rules/src/blocklist.ts:182-188 | a CIDR entry covers exactly [network, network + 2^hostBits - 1] of its family |
| Blocklist.CidrAgreesWithRange | packages/scope-rules/src/blocklist.ts:182-195 | a CIDR and an IP_RANGE entry over one interval give the same match and report |
| Blocklist.CidrAsWritten | packages/scope-rules/src/blocklist.ts:77-98 | a CIDR pattern as written is accepted exactly when its address has a number and the prefix length fits the family, and covers the addresses with the same first bits |
| Blocklist.RangeAsWritten | packages/scope-rules/src/blocklist.ts:100-107 | a range as written is accepted exactly when its ends have numbers of one family, in order, and covers what lies between |
| Blocklist.SuffixMatchesWholeLabels | packages/scope-rules/src/blocklist.ts:169-207 | a host pattern matches exactly the hosts whose last labels are its own, whole labels only, and nothing when there is no host |
| Blocklist.HostInAnyCase | packages/scope-rules/src/blocklist.ts:65-71 | a host name is the same in any case and with a final dot |
| Blocklist.FirstHitIsReported | packages/scope-rules/src/blocklist.ts:225-241 | the entry reported is the first that matches, or that cannot be evaluated |
| VerifiedSet.WithinExactly | packages/scope-rules/src/verified-set.ts:66-89 | over any set, malformed members included: admitted exactly when a member names the address and all before it parse |
| VerifiedSet.ToVerifiedIpRanges | packages/scope-rules/src/verified-set.ts:96-104 | the loop keeps each parseable address once, in first-seen order |
| VerifiedSet.EntryRoundTrip | packages/scope-rules/src/verified-set.ts:37-57 | a stored entry parses back to the canonical name it was made from |
| VerifiedSet.StoredSetAdmitsItsMembers | packages/scope-rules/src/verified-set.ts:23-104 | the stored set admits an address exactly when its number is that of some parseable member it was made from |
| VerifiedSet.StoredSetBlocksTheSame | packages/scope-rules/src/blocklist.ts:209-241 | matching the blocklist over the stored set gives the verdict, entry and match of matching over the addresses |
| VerifiedSet.UnsuffixedWhenSlashFree | packages/scope-rules/src/blocklist.ts:209-211 | text without a slash keeps everything but its surrounding space |
| FindingSort.OrderIsTotal | apps/api/src/modules/findings/finding-sort.ts:91-105 | every sort order is a strict total order on rows with distinct ids, nulls last both ways |
| FindingSort.SortMeans | apps/api/src/modules/findings/finding-sort.ts:20-105 | which of two rows comes first, by the rows themselves: by severity and then CVSS, or by the one column the key names, in either direction, nulls last, ties by id |
| FindingSort.IssuedCursorDecodes | apps/api/src/modules/findings/finding-sort.ts:112-171 | the cursor of any row passes the decoder's checks |
| FindingSort.BeyondIsLater | apps/api/src/modules/findings/finding-sort.ts:173-198 | the single-column filter selects exactly the non-null values strictly later in the column's order, severities by membership |
| FindingSort.FilterIsTheTail | apps/api/src/modules/findings/finding-sort.ts:200-232 | the recursively built filter is true of exactly the rows strictly after the cursor's row, for every sort and direction |
| FindingSort.PageIsNextStretch | apps/api/src/modules/findings/finding-queries.ts:393-410 | a page is the next stretch of the order, with a cursor exactly when rows remain |
| FindingSort.ReadAllPages | apps/api/src/modules/findings/finding-queries.ts:371-410 | following cursors with any limit of at least one lists every row once, in order, and stops after the expected number of requests |
| RateLimit.TokenBucket.TryRemove | packages/scope-guard/src/rate-limit.ts:12-17 | a token is taken exactly when the tokens there and gained come to a whole one and the burst has room for one; those not taken are left, but for what is above the burst; on a clock that does not go back nothing else comes in |
| RateLimit.TokenBucket.MsUntilAvailable | packages/scope-guard/src/rate-limit.ts:20-24 | with a burst of at least one and no call in between, tryRemove succeeds at a later time exactly when the returned wait is over |
| RateLimit.Conserved | packages/scope-guard/src/rate-limit.ts:12-31 | tokens taken plus tokens left never exceed tokens at the start plus tokens gained |
| RateLimit.WindowBound | packages/scope-guard/src/rate-limit.ts:12-31 | in any window of any sequence of calls on a monotone clock, at most burst + rate * T calls take a token |
| RateLimit.WaitIsExact | packages/scope-guard/src/rate-limit.ts:20-24 | with a burst of at least one and no other caller, a token can be taken at a later time exactly when the wait is over |
| RateLimit.SmallBurstNeverAllows | packages/scope-guard/src/rate-limit.ts:12-17 | with a burst below one no call ever takes a token |
| PathScope.ResolveSegments | packages/scope-guard/src/scope.ts:62-70 | the stack loop yields the canonical text of the resolved segments, none of them empty, `.` or `..` |
| PathScope.ResolvingIsIdempotent | packages/scope-guard/src/scope.ts:62-70 | resolving a resolved path changes nothing |
| PathScope.DotSegments | packages/scope-guard/src/scope.ts:62-70 | `..` takes away the segment before it and nothing at the root, `.` and empty pieces stand for nothing, wherever they are in a path |
| PathScope.NormalisePath | packages/scope-guard/src/scope.ts:51-59 | at most three decoding rounds, stopping when one changes nothing, then slashes and segments |
| PathScope.ThreeRounds | packages/scope-guard/src/scope.ts:51-59 | stopping early loses nothing: the result is always that of three decoding rounds |
| PathScope.IncludedIsSegmentPrefix | packages/scope-guard/src/scope.ts:83-88 | the text test of inclusion holds exactly when the prefix's segments are a prefix of the path's |
| PathScope.TextPrefixIsOverMatch | packages/scope-guard/src/scope.ts:77-80 | the text test of exclusion holds exactly when all segments but the last agree and the last is a text prefix |
| PathScope.AllowedExactly | packages/scope-guard/src/scope.ts:72-94 | for every case folding that keeps slashes and segments: allowed exactly when no exclusion over-matches the segments ignoring case and, if any are given, an inclusion's segments begin them |
| PathScope.NothingUnderAnExclusion | packages/scope-guard/src/scope.ts:72-94 | whatever lies segment-wise under an excluded path, in any case, is refused |
| PathScope.LetterwiseFolds | packages/scope-guard/src/scope.ts:77-80 | lower-casing letter by letter is such a folding |
| Guard.RefusalIsDue | packages/scope-guard/src/evaluate.ts:17-63 | for every case folding: each code exactly when its own reason, put in terms of methods, names, segments, numbers and entries, holds and none before it does |
| Guard.ApprovalMeans | packages/scope-guard/src/evaluate.ts:17-63 | approval exactly when the URL parses, a token was taken, the switch is off, the method is GET, HEAD or OPTIONS in any case, the host is not the metadata host, the URL is of the origin and its segments under no excluded path and under an included one, the ceilings have room, and every address resolved is recorded, lies in no refused block and meets no blocklist entry |
| Guard.ContactIsRecordedAddress | packages/scope-guard/src/scope.ts:96-104 | an address that may be contacted names the number of one recorded at verification, and that number lies in no refused block and routes to none |
| Guard.ClearMeansNoEntryMatches | packages/scope-rules/src/blocklist.ts:225-241 | the verdict is clear exactly when every entry could be evaluated and none matches |
| Guard.ApprovedAddressIsNotListed | packages/scope-guard/src/evaluate.ts:50-57 | no approved request goes to an address a blocklist block or range covers |
| Guard.Authorize | apps/worker/src/scope-guard/dispatch.ts:103-143 | the refusal is the one that is due, reason by reason, and leaves one uncounted ledger row; approval leaves none |
| Guard.Dispatch | apps/worker/src/scope-guard/dispatch.ts:149-207 | the outcome is a refusal exactly when one is due; every attempt leaves exactly one ledger row, ALLOWED, ERROR with a time, or the refusal's, which counts as sent exactly when a connection was made, and that to an admitted address |
| CrawlSpec.RulesPermit | apps/worker/src/crawler/crawler.ts:135-146 | a robots.txt that was not reached or failed permits nothing, one that was served permits what its rules do, any other reply everything |
| Crawler.Crawl.Paced | apps/worker/src/crawler/crawler.ts:235-279 | a request leaves one ledger row and counts exactly when it was not refused, never past the ceiling; once stopped nothing is sent or ledgered; the crawl is to end exactly as the last stop, switch or ceiling says |
| Crawler.Crawl.InScopeUrl | apps/worker/src/crawler/crawler.ts:308-320 | crawlable exactly when it parses, is of the origin, in the path scope and permitted by robots.txt |
| Crawler.Crawl.Enqueue | apps/worker/src/crawler/crawler.ts:298-306 | a link joins the queue exactly when it is admitted, shallow enough and new by canonical URL |
| Crawler.Crawl.Start | apps/worker/src/crawler/crawler.ts:97-102 | the rules in force are those of the robots.txt reply; the queue begins with the entry paths and the contact file, as they are admitted; sitemaps follow, in order and all that is due, and nothing else was requested |
| Crawler.Crawl.Visit | apps/worker/src/crawler/crawler.ts:169-195 | the page's own URL is requested, and by what came back: a redirect is queued at the page's depth and its links one deeper, an HTML 200 awaits rendering, no answer changes nothing |
| Crawler.Crawl.Advance | apps/worker/src/crawler/crawler.ts:223-233 | the chain moves on one request at a time and in order: the next departs, counted unless the scan stopped, or the one under way is sent or refused, whoever still waits for it |
| Crawler.Crawl.Ask | apps/worker/src/crawler/crawler.ts:223-233 | a request of the crawl's own comes after all that is on the chain, and nothing is on it or under way when it is answered; unless the scan was stopped it left a ledger row, and it was counted unless refused |
| Crawler.Crawl.RenderPending | apps/worker/src/crawler/crawler.ts:116-133 | rendering ends, whatever the renderer requests, leaves on the chain and reveals; with a renderer every page that awaits it is rendered, unless the budget is nearly spent, and what is revealed was seen; no page is counted |
| Crawler.Crawl.Drain | apps/worker/src/crawler/crawler.ts:104-109 | each turn strictly decreases (settled requests left, pages to render, queue length), though a request under way may still come off the count |
| Crawler.Crawl.ReadRobots | apps/worker/src/crawler/crawler.ts:135-146 | the next request is for robots.txt; its reply decides: no answer or a 5xx disallows everything and sets the flag, a 200 gives its rules, anything else none |
| Crawler.Crawl.ReadSitemap | apps/worker/src/crawler/crawler.ts:161-167 | the sitemap is requested; the pages its reply lists are queued at depth one and its nested sitemaps returned, none unless it was a 200 |
| Crawler.Crawl.ReadSitemaps | apps/worker/src/crawler/crawler.ts:148-158 | sitemaps are requested in the order they are learnt of, each once and in scope, those that sitemaps list included; all of them in scope, unless five were requested or the budget is spent; every page they list was found |
| Crawler.Crawl.Run | apps/worker/src/crawler/crawler.ts:97-113 | the crawl ends for any site and renderer; its own requests are one for robots.txt, those for sitemaps, and one for each visited URL, in order, and without a renderer there are no others; every sitemap in scope was requested unless five were or the budget is spent, and every HTML page rendered, given a renderer, unless it is nearly spent; no canonical URL is visited twice; visited pages are in scope, within maxDepth and permitted by the rules the site served, pages stay within maxPages, and none is visited when the robots.txt request got no answer or a 5xx; every admitted entry path, sitemap page, redirect, link and revealed link was seen, and when the queue ran dry exactly what was seen was visited; what was heard says how many requests were sent and why the crawl is to end |
| Engine.Guarded | apps/worker/src/tls/tls-probe.ts:101-136 | a TLS connection is approved under the copied count, counted once and ledgered once, or refused and not counted |
| Engine.ProbeTls | apps/worker/src/tls/tls-probe.ts:40-89 | five connections for an https origin, unless the guard refuses one, none for a plaintext one, within the ceiling by the copied count, while the chain goes on beside them |
| Engine.ActiveRun.TryProbe | apps/worker/src/engine/scan-engine.ts:225-268 | a probe goes to the guard unless a pause or cancel was read, is sent and counted exactly when approved, and leaves one row; it aborts the run exactly when the stop was read or the engaged switch refuses it; after an abort or a spent budget nothing is sent or ledgered |
| Engine.NotAbortedExactly | apps/worker/src/engine/scan-engine.ts:101-131 | a run is reported as not aborted exactly when the crawl was not told to end by the switch or a stop, both checkpoints let it go on, and no probe asked before the budget was spent aborts it |
| Engine.WhatBesideMeans | apps/worker/src/engine/scan-engine.ts:86-88 | at every moment after the crawl returned the ledger's sent rows are the probes' count, less the request that was open when it was copied, plus the late ones; the total passes the ceiling by at most the late ones, and by at most what was free at the copy |
| Engine.LateIsUnseen | apps/worker/src/engine/scan-engine.ts:86-88 | late less open requests are what the copied count does not see less what it counts in vain |
| Engine.LoadResume | apps/worker/src/engine/scan-engine-factory.ts:63-73 | the count read back is that of the ledger's sent rows: allowed, or failed with a response time |
| Engine.CrawlFirst | apps/worker/src/engine/scan-engine.ts:86-88 | the copied count is the crawl's when its renderer was closed, with the request then under way in it; whether the crawl was told to end is what its requests say; without a renderer nothing is under way or left on the chain |
| Engine.AfterCrawl | apps/worker/src/engine/scan-engine.ts:101-131 | the abort reported is the first one due; a crawl told to end by the switch or a stop is followed by no request and its count reported; the late requests and those still pending are at most those that were on the chain or under way |
| Engine.RunScanEngine | apps/worker/src/engine/scan-engine.ts:75-131 | at the end of a run the reported count equals the connections made and the rows a resumed run would count exactly when as many requests of the crawl were sent since its count was copied as were under way then; the total is over maxRequests exactly when the late ones are more than the report leaves free, and never by more than they are; without a renderer there are none, so the report is exact and the ceiling is kept; the abort reported is the first that was due, of the crawl, a checkpoint or a probe |
| Engine.RunScan | apps/worker/src/engine/scan-engine-factory.ts:63-123 | over any number of runs, each begun after the one before and its chain ended, crawl, TLS and active requests pass maxRequests by at most the requests sent by a crawl after its count was copied, never when no renderer is up, and exactly when some request's sender missed too much |
| SharedBudget.CountedAndUnseen | apps/worker/src/engine/scan-engine-factory.ts:63-73 | however senders overlap, copy counts or break off, what one counts, less what of it was not sent, and what it does not see are all the requests there were |
| SharedBudget.CountIsExactly | apps/worker/src/engine/scan-engine.ts:86-88 | a count is the number of requests sent exactly when as many were sent unseen as were counted and not sent |
| SharedBudget.TotalIsBounded | packages/scope-guard/src/evaluate.ts:37-39 | by every sender that sent a request, the total is at most maxRequests plus what that sender did not see |
| SharedBudget.OverCeilingExactly | packages/scope-guard/src/evaluate.ts:37-39 | a request takes the total over the ceiling exactly when its sender misses more than its own count leaves free, what it counts in vain included |
| SharedBudget.PassedExactly | packages/scope-guard/src/evaluate.ts:37-39 | the total is over the ceiling exactly when some request was sent by a sender that missed too much |
| SharedBudget.RunsInTurnPassByTheLate | apps/worker/src/engine/scan-engine.ts:86-88 | when runs follow one another and each copies its crawl's count once, the total passes the ceiling by at most the requests sent under a count that had been copied, so not at all when there are none |
| SharedBudget.LastReaderMayMissNothing | apps/worker/src/engine/scan-engine-factory.ts:63-73 | the bound is by every sender that sent: a run that begins past the ceiling misses nothing and yet the total is over it |
| SharedBudget.TwoRunsSpendTwice | apps/worker/src/engine/scan-engine-factory.ts:28-46 | for every ceiling there are two overlapping runs that each spend all of it |
| SharedBudget.LateRequestsPassTheCeiling | apps/worker/src/engine/scan-engine.ts:86-88 | for every ceiling and every count copied within it there is one run by itself, each request with its row, that passes the ceiling by all that was free at the copy, and that is by all its late requests |
| SharedBudget.CopiedCountMayBeOneTooHigh | apps/worker/src/crawler/crawler.ts:254-279 | there is a run in which the copied count has one request more than were ever sent, because that request was under way and then refused |
| ClientHello.ExtensionsFit | apps/worker/src/tls/client-hello.ts:92-114 | every extension fits its fields, and their total length is as computed |
| ClientHello.DecodesWhatWasBuilt | apps/worker/src/tls/client-hello.ts:57-73 | a hello is built exactly when every number fits its field, and decoding it by sections 6.2.1 and 7.4.1.2 of RFC 5246 gives back every field with every nested length exact |
| ClientHello.NameIsSent | apps/worker/src/tls/client-hello.ts:92-100 | the server_name extension holds exactly the host name, and is absent for an address |
| ClientHello.AnswerIsStable | apps/worker/src/tls/client-hello.ts:75-90 | once the reader has an answer, more bytes never change it |
| ClientHello.ServerHelloReads | apps/worker/src/tls/client-hello.ts:75-90 | the version and suite of a ServerHello are found, for every session id and whatever follows |
| ClientHello.ExchangeHello | apps/worker/src/tls/tls-probe.ts:140-157 | however the reply is cut into chunks, the answer is that to all of it |
| Deduplicator.Deduplicate | apps/worker/src/processors/deduplicator.ts:40-84 | one result for each fingerprint, in first-seen order, each the collapse of exactly that fingerprint's findings |
| Deduplicator.SameKeyExactly | apps/worker/src/processors/deduplicator.ts:20-38 | two findings have one key text exactly when detector, URL and parameter agree, blanks around them aside and none being `global`, provided no detector or URL holds a bar |
| Deduplicator.SortIsStable | apps/worker/src/processors/deduplicator.ts:61-66 | sorting by severity keeps the order of equals |
| Deduplicator.CollapseKeepsGroup | apps/worker/src/processors/deduplicator.ts:60-81 | a result's occurrences are its group's findings, counted, and its master is the first most severe one |
| Deduplicator.CountsAddUp | apps/worker/src/processors/deduplicator.ts:40-84 | the groups' sizes add up to the number of findings |

## Left out

- Progress columns, phases, events, audit rows, notifications and statistics written beside the status changes.
- Completion times are handed out in commit order, as one clock would; wall clocks that disagree are not modelled.
- The serializable isolation of `reserveScan` and `haltAll`, and its retry, are taken as given: each is one atomic step.
- That a resumed scan is eventually picked up is not stated: a kept failed job or a crashed worker can hold its id.
- The guards of `isScannable` before its blocklist match; its answer is an input of the protocol's steps.
- ScanStore.Store.ReconcileOne: takes the age of a candidate and whether its target is still scannable as inputs.
- Scan and target ids are never handed out twice, as random ids are taken to be.
- Deletions by seeding scripts, and of users, which leave scans in place.
- Crawler.Crawl.Run: does not state that depths are shortest, because redirects keep their page's depth.
- Crawler.Crawl.Run: the set of URLs seen starts empty, as a resumed run's does.
- Deduplicator.SameKeyExactly: does not cover detectors or URLs with a bar, whose key texts can coincide.
- Guard.ApprovalMeans: is for case foldings that keep slashes and segments, as lower-casing does.
- Crawler.Crawl.Run: states the page ceiling for one run only, because a resumed run starts its page count at zero.
- Engine.RunScan: assumes ledger writes succeed, and that a run begins after the one before it and that one's chain have
  ended; runs and chains that overlap a later run, or stop between a request and its row, are in SharedBudget, which does
  not model what the requests are.
- The chain goes on between the probes' requests, not inside one; the two count apart, so the counts are the same.
- The detector versions of a scan, recorded once by the engine, may still be set on a row that a cancel or the kill switch
  has ended meanwhile (`apps/worker/src/engine/scan-engine-factory.ts:79-84`); the column is not part of the rows.
- A connection that fails before it is made (an address the URL could not be pinned to) is counted as made, as the source counts it.
- URL parsing, canonical URLs, the origin test with its plaintext twin, percent-decoding, HTML and sitemap extraction, DNS,
  sockets, TLS handshakes, JSON and base64url are parameters or arbitrary answers.
- Robots.ReadDirectives: lines are already split into lower-cased keys and trimmed values.
- Lower-casing of host names and addresses covers ASCII and the Kelvin sign, upper-casing of methods ASCII, the dotless i and
  the long s, the letters that can change what is accepted; paths are proved for every case folding. Text is a sequence of
  characters, not of UTF-16 code units.
- VerifiedSet.StoredSetBlocksTheSame: is stated for addresses from which no single-host prefix is stripped, which includes all
  slash-free text; `8.8.8.8/32` itself is matched as written but dropped from the stored set.
- Names and ids in sort orders are represented by their place in the database's collation, floating-point scores and the
  token bucket's tokens by reals.
- `FindingSort` fixes the rows while pages are read; rows inserted or removed in between are not modelled.
- `listScans` pages by the same method over two columns that are never null.
- `generateFingerprint` is an arbitrary hash of the source's key text; severities outside the five names are not modelled.
- Blocked IPv4 and IPv6 range constants kept beside `isBlockedAddress`, which that function does not use.
- The web application, report rendering, email, authentication, detectors, CVSS scoring, report status and the verification
  in-flight counter.
