# Verification of the backend's protocols and scores

A Dafny model of the algorithms and state machines of the backend, with proofs of what they promise. Code
that the backend writes as expressions is modelled as functions; loops and stored state are methods and
classes, each proved against a function, and the results are lemmas about that function over all inputs,
all runs or all interleavings.

| Modules | What they model |
|---|---|
| `Utf8`, `Base64Url`, `Cursor` | the opaque pagination cursor, from instant and id to text and back |
| `Keyset`, `ResumedWalk`, `Pagination` | the opportunity list, and walks along its cursors while the table changes |
| `RefreshTokens`, `TokenRuns` | refresh-token families: issue, rotation, reuse detection, revocation |
| `SlidingWindow`, `RateLimiter` | the rate-limit middleware |
| `Trust`, `FounderScore`, `FounderScoreLaws`, `FounderScoreAgeing` | claim trust; the founder score, and what age and weight do to it |
| `Thesis`, `ThesisGates`, `Recommendation`, `Screening` | thesis fit, the gates read off company and thesis, and the recommendation they feed |
| `Extraction`, `DeckAdvice` | claims drawn from a deck, their provenance, and what a deck alone can do to the advice |
| `AxisRows` | versioned axis scores and their two readers |
| `EventStream`, `HarvestStream`, `Jobs` | the resumable job event stream, and a harvest as it tells it; idempotent job creation |
| `Candidates`, `CandidateRuns`, `SharedSites`, `Attribution`, `Mailboxes` | applications, manual entries and outbound signals converging on shared companies and persons |
| `FounderEvidence` | from harvested signals to the founder score: the events on record, and what counts as a source |
| `Harvest`, `HarvestLaws`, `ScreeningJobs`, `SourceCounts` | the harvest job around them, the screening jobs it queues, and the counters it keeps |
| `Slugs` | names, slugs, and the search for a free slug |
| `Prelude`, `Domain`, `Text`, `Sequences`, `Rounding`, `Products`, `Analysis` | shared vocabulary and arithmetic |

`dafny verify dfyconfig.toml` checks everything.

## Conventions

- Numbers are reals where the backend uses floats; `round` is written out (half to even). `exp`, the normal
  distribution function and the recency decay are arbitrary functions that obey the laws in `Analysis`.
- Unicode folding, white-space cleaning, pattern search and identity hints are parameters about which
  nothing, or only a stated law, is assumed.
- Random secrets and new ids are values not drawn before. Clocks are parameters.
- A request or a page is one atomic step on the database, except where a transaction boundary matters: a
  refresh that raises keeps only what it had committed, and a poll of the event stream may be two statements.
- A row's id is its place in its table; a query without an order returns the first match, and the model
  proves there is only one.

## Where the code and its documentation part

- `docs/architecture.md:80` calls refresh tokens single-use. That is proved for requests that are atomic;
  `rotate_refresh_token` takes no row lock, so nothing is claimed of two requests interleaved on one token.
- `docs/architecture.md:27-38` lets inbound and outbound candidates converge. They do on one company row,
  but an application that finds a company by name does not record its own domain on it, so a signal from
  that very site may open a second company (`SameSiteConvergesIff`, `SameSiteCanSplit`).
- Signals from github.com, arxiv.org and news.ycombinator.com go by name (`SharedSiteSignalsMeetIff`), but an
  application's website is not checked against those sites: two applicants with pages on one of them are merged
  into one company (`SharedSiteApplicationsMerge`).
- `backend/app/services/founders.py:28` makes every signal a source of its own, so the independent sources of a
  founder score count signals, and three signals of one site end a cold start (`EveryEventIsASource`,
  `ColdStartIff`).
- Half-lives weigh a founder's events against each other only: without new evidence, and with none dated ahead of
  the clock, neither score nor interval ever changes (`TimeAloneChangesNothing`).
- `docs/frontend-revision-guide.md:360` has a client wait for `done`. The poll reads steps and status in two
  statements; `done` can precede the last step when a commit falls between, and only then (`DoneCanComeEarly`,
  `TwoStatementPoll`).
- `docs/frontend-revision-guide.md:21` promises one screening job per resolved candidate. It is one per new
  signal: two signals of one candidate queue two jobs and count twice as resolved (`TwoJobsOneCandidate`). The
  promise holds exactly when the items are placed at distinct companies (`OneJobPerCandidateIff`).
- `backend/app/services/pipeline.py:383` speaks of evidence-backed claims; the axes count claims whatever their
  status (`StatusesDoNotCount`), so a deck nobody verified, even one taken for prompt injection, can carry
  INVEST (`DeckInvestIff`, `InjectedDeckCanInvest`). Cold start does not block INVEST, which is decided first.
- More evidence can lower a claim's trust when it is not added at the end (`InsertionLowersIff`).
- A signal's duplicate key names no organisation: what one organisation harvested, no other one ingests
  again (`HarvestAgainMovesNothing`).
- A person's `source_count` counts signals: it always equals `signal_count`, and is the number of sources
  exactly when no source gave two signals (`HarvestRunsStayValid`, `SourceCountIsSourcesIff`).
- Logging out with a token that was already rotated leaves the session's live token in use
  (`LogoutEndsFamilyIff`, `LateLogoutLeavesSession`).
- `Retry-After` is rounded to whole seconds: a client that keeps to it is admitted exactly when its wait was
  not cut short (`ReportedRetryAdmitsIff`), and can be rejected (`PunctualClientRejected`).
- The claim patterns accept a decimal comma, and the number parser drops it: "1,5M" is read as fifteen million
  (`CommasNeverMatter`).

## Model

| member | source | states |
|---|---|---|
| Pagination.PagingUnderChange | backend/app/services/opportunities.py:200-240 | Paging to the end by `next_cursor` while other requests insert rows or rewrite them without lowering `updated_at`: every row of the tenant with the stage, origin and text asked for that is untouched during the walk is returned exactly once, no row twice, and the returned keys strictly fall |
| Pagination.PagingEnds | backend/app/services/opportunities.py:221-240 | Such a walk finishes: among as many pages as would, if full, hold more rows than the table has, one is the last, however the table changed meanwhile |
| Pagination.ListWalkIsWalk | backend/app/services/opportunities.py:188-240 | Requests to the endpoint, each with the cursor of the response before, are the walk the paging theorems are about |
| Pagination.PagingAFixedTable | backend/app/services/opportunities.py:200-240 | On a table nobody changes the walk by cursor strings finishes, has as many pages as hold the tenant's rows with the stage, origin and text asked for, and the concatenated pages are those rows in `(updated_at, id)` descending order |
| Pagination.ListedIsAskedFor | backend/app/services/opportunities.py:200-240 | Every item of every listing of a walk is, in the table as that request found it, a row of the tenant with the stage and origin asked for and the text in its name or description, under its own key |
| Pagination.TenantsDoNotInterfere | backend/app/services/opportunities.py:200-200 | Two runs of tables that agree on one tenant's rows, whatever other tenants' rows do, give that tenant the same listings and cursors |
| Pagination.PromisedIff | backend/app/services/opportunities.py:200-211 | The query keeps a row exactly when its tenant is the one asking, its stage and origin are those given, and its name or description holds a non-empty text |
| Text.ContainsIff | backend/app/services/opportunities.py:205-211 | The text test holds exactly when the text reads something, the part, something |
| Pagination.CursorResumes | backend/app/services/opportunities.py:214-240 | The cursor printed after a row is accepted by the next request and stands for exactly that row's key |
| Pagination.CodecIsFaithful | backend/app/services/opportunities.py:214-240 | Every row of every table prints a non-empty cursor that reads back as the row's key |
| Pagination.RankIsChronological | backend/app/services/opportunities.py:221-231 | The number an instant is ordered by orders exactly as comparing its fields does, so keyset comparisons are chronological |
| Pagination.WritesAdvance | backend/app/services/opportunities.py:221-231 | Any number of inserts and updates that lower no `updated_at` keeps every row, at no earlier key |
| ResumedWalk.ListingIsPage | backend/app/services/opportunities.py:214-240 | A listing asked for by cursor text is the keyset page of the decoded key, and its next cursor stands for the page's next key |
| ResumedWalk.WalkMirrorsKeys | backend/app/services/opportunities.py:214-240 | A whole walk by opaque cursor texts shows page for page what the walk by keys shows |
| ResumedWalk.WalkUnderChange | backend/app/services/opportunities.py:214-240 | For any faithful codec: untouched matching rows exactly once, keys strictly falling, no row twice |
| ResumedWalk.WalkEnds | backend/app/services/opportunities.py:214-240 | The walk by cursor strings finishes under change |
| ResumedWalk.WalkOfFixedTable | backend/app/services/opportunities.py:214-240 | For any faithful codec: the walk of a fixed table finishes and returns the sorted selection |
| Keyset.PageIsSound | backend/app/services/opportunities.py:214-240 | A page shows distinct matching rows below the cursor, in falling order, under their keys, and a next key is the key of its last row |
| Keyset.PageCovers | backend/app/services/opportunities.py:214-240 | A selected row is on the page or strictly below its next key: no row falls between two pages |
| Keyset.FewerRowsLeft | backend/app/services/opportunities.py:221-240 | After a page with a next key exactly the rows ranked after it remain, in the same order |
| Keyset.Shrinks | backend/app/services/opportunities.py:221-240 | The rows below the cursor are a termination measure of the walk |
| Keyset.WalkFalls | backend/app/services/opportunities.py:221-240 | What a walk over changing tables lists lies below its cursor in strictly falling keys, without a row twice, and never under a lower key than before |
| Keyset.WalkCovers | backend/app/services/opportunities.py:221-240 | A complete walk lists every matching row below its cursor that nobody touches while it lasts |
| Keyset.WalkUnderChange | backend/app/services/opportunities.py:221-240 | Both halves together, by keys |
| Keyset.WalkEnds | backend/app/services/opportunities.py:221-240 | A walk over advancing tables is complete once its full pages would hold more than the last table's rows |
| Keyset.FixedWalkIsSortedTable | backend/app/services/opportunities.py:221-240 | Concatenated pages of a fixed table equal the selection sorted descending |
| Keyset.FixedWalkPageCount | backend/app/services/opportunities.py:236-240 | The number of pages is what holding the rows takes, one if there are none |
| Keyset.PageCountIsCeiling | backend/app/services/opportunities.py:236-240 | That number is the rows divided by the page size, rounded up |
| Keyset.FallingIsUnique | backend/app/services/opportunities.py:232-235 | Keys order totally: a set of rows has one falling order, so `ORDER BY` is determined |
| Cursor.RoundTripIff | backend/app/services/utils.py:48-60 | For every UTC instant and every text as row id: decoding the encoded cursor gives exactly the instant and the id if and only if the id holds no bar |
| Cursor.IsoRoundTrip | backend/app/services/utils.py:49-58 | `fromisoformat` reads back every `isoformat` text, with and without microseconds |
| Cursor.UuidRoundTrip | backend/app/services/opportunities.py:216-218 | `uuid.UUID` reads back the printed form of every 128-bit id, which holds no bar |
| Cursor.UuidShape | backend/app/services/opportunities.py:240-240 | The printed id has dashes at its four places and lower-case hexadecimal digits at all others |
| Cursor.CursorsAreDistinct | backend/app/services/utils.py:48-50 | Distinct positions print distinct cursors |
| Base64Url.RoundTrip | backend/app/services/utils.py:50-56 | For every byte string: base64url with `=` stripped, re-padded by `-len % 4` and decoded, is the byte string (section 5 of RFC 4648) |
| Base64Url.AlphabetRuns | backend/app/services/utils.py:50-50 | The letters run as in table 2 of RFC 4648 |
| Base64Url.QuadSpells | backend/app/services/utils.py:50-50 | Four letters, as digits of base 64, spell the number that three bytes spell in base 256 |
| Base64Url.PadStripIdentity | backend/app/services/utils.py:50-55 | Stripping `=` and padding by `-len % 4` restores the base64url text of every byte string |
| Base64Url.ReadsEncoded | backend/app/services/utils.py:50-56 | The decoder, sextet by sextet, gives back every encoded byte string, whatever its length modulo three |
| Utf8.RoundTrip | backend/app/services/utils.py:49-56 | Strict UTF-8 decoding inverts encoding for every text (RFC 3629) |
| RefreshTokens.Session.RotateRefreshToken | backend/app/services/auth.py:247-296 | The service as it writes: what it leaves committed and pending on the unknown, reused, expired, unavailable and successful paths |
| RefreshTokens.Session.RefreshEndpoint | backend/app/routers/auth.py:137-168 | With the router's commit and the session's rollback the stored state is the atomic refresh step: expiry and unavailable accounts leave nothing behind, reuse does |
| RefreshTokens.Session.IssueTokens | backend/app/services/auth.py:109-136 | One live token is appended, in the given family under the given parent |
| RefreshTokens.Session.LoginEndpoint | backend/app/routers/auth.py:104-134 | Login commits one live token at the root of a new family |
| RefreshTokens.Session.RevokeRefresh | backend/app/services/auth.py:299-315 | Logging out revokes the presented token when it is the user's own, or all live tokens of the user |
| RefreshTokens.Session.LogoutEndpoint | backend/app/routers/auth.py:171-190 | The same, committed |
| RefreshTokens.Session.RevokeForPassword | backend/app/routers/auth.py:225-230 | A password change or reset revokes every live token of the user, committed |
| RefreshTokens.Session.DeleteSessionEndpoint | backend/app/routers/auth.py:295-309 | Deleting a session stamps every token of that family of that user, also those revoked before |
| RefreshTokens.Session.ListSessions | backend/app/routers/auth.py:266-292 | The `seen` loop returns the user's live tokens, newest first, one per family |
| TokenRuns.StepKeepsInv | backend/app/services/auth.py:247-315 | Every atomic request keeps the families' shape, revokes for good, and appends at most one token |
| TokenRuns.RunsKeepInv | backend/app/services/auth.py:109-136 | Over every run of requests the shape holds and `revoked_at` never becomes null again |
| TokenRuns.FamilyHasOneOwner | backend/app/services/auth.py:287-295 | All tokens of a family belong to one user |
| TokenRuns.FamilyIsAChain | backend/app/services/auth.py:282-295 | Of any two tokens the earlier is an ancestor of the later, along parent links, if and only if they share a family |
| TokenRuns.NoTwoChildren | backend/app/services/auth.py:282-295 | No two tokens have one parent, so a family does not branch |
| TokenRuns.LiveTokenIsTheTail | backend/app/services/auth.py:282-295 | A family has at most one unrevoked token, and it is the last of the chain |
| TokenRuns.SessionListDropsNothing | backend/app/routers/auth.py:277-282 | In every reachable state the session list returns exactly the live rows: its `seen` filter never drops one |
| TokenRuns.SessionsAreTheLiveTokens | backend/app/routers/auth.py:266-292 | After any run the session list holds exactly the user's live tokens, each once, later ones first |
| TokenRuns.RotatesAtMostOnce | backend/app/services/auth.py:255-277 | After a raw token rotated once, presenting it anywhere later in any run is answered with reuse |
| TokenRuns.RevokedNeverRefreshes | backend/app/services/auth.py:255-277 | A token revoked for whatever reason is answered with reuse in every later state of every run |
| TokenRuns.RefreshOkIff | backend/app/services/auth.py:255-289 | In every well-shaped state a refresh succeeds if and only if some token bears the presented secret, is live, expires later than now, and its user exists and is active; it is reuse exactly for a revoked token and EXPIRED exactly for a live one whose time has come |
| TokenRuns.ExpiredNeverRefreshes | backend/app/services/auth.py:278-281 | A token presented at or after its expiry is refused in every continuation of every run |
| TokenRuns.ExpiredFamilyStopsGrowing | backend/app/services/auth.py:278-295 | A family whose tokens have all run out gets no further token by any run on a clock that never goes back |
| TokenRuns.DeletedSessionStaysEnded | backend/app/routers/auth.py:295-309 | Deleting a session ends its family for good |
| TokenRuns.LogoutEndsFamilyIff | backend/app/services/auth.py:309-315 | Logging out with one token ends its family if and only if that token is the live one or the family had ended; with an already rotated token the live one stays in use |
| TokenRuns.LateLogoutLeavesSession | backend/app/services/auth.py:309-315 | A run of login, refresh and logout with the first token, after which the session's second token is live and refreshes |
| TokenRuns.OthersAreUntouched | backend/app/services/auth.py:261-315 | A refresh changes tokens of one family only, and logout, password change and session deletion only the user's own |
| TokenRuns.StepKeepsDead | backend/app/services/auth.py:260-295 | A family without a live member gets none by any request: it only grows by rotating one |
| TokenRuns.RunsKeepDead | backend/app/services/auth.py:260-295 | Nor by any run |
| TokenRuns.ReuseKillsTheFamily | backend/app/services/auth.py:260-277 | After a revoked token was presented no state of any continuation has a live token of its family |
| TokenRuns.NewPasswordLocksOut | backend/app/routers/auth.py:218-263 | After a password change, a reset or a logout everywhere, no token issued before ever refreshes again |
| TokenRuns.LogoutEverywhereLocksOut | backend/app/services/auth.py:302-308 | After a logout on all devices no token issued to the user before ever refreshes again |
| RateLimiter.Limiter.Dispatch | backend/app/middleware.py:103-147 | The pops and the append on the key's deque are one decision of the sliding window; other keys' deques stay |
| RateLimiter.KeyDeterminesRequest | backend/app/middleware.py:88-112 | Equal keys come from equal client, verb and path, so limit and window are constant per key |
| RateLimiter.RequestsAreCoherent | backend/app/middleware.py:88-113 | Every run of requests on a clock that never goes back has one rule per key |
| RateLimiter.MiddlewareCountsExactly | backend/app/middleware.py:103-142 | A request is admitted if and only if fewer than its limit of earlier admissions of its key lie in the window ending at it, and no window of that length, wherever it ends, holds more than the limit |
| RateLimiter.Quotas | backend/app/middleware.py:88-142 | Over any run, per client, verb and path: 10 attempts in 900 seconds at a login or password path, 5 applications in an hour, 60 searches or writes and 300 reads in a minute, 600 probes in a minute whatever else their path holds, and ten times as many when relaxed; a request is admitted exactly while its quota is not used up, and no window ever exceeds it |
| SlidingWindow.AdmittedIffFewRecent | backend/app/middleware.py:114-142 | The deque agrees with counting over the full history in decision, remaining count and contents |
| SlidingWindow.EveryWindowWithinLimit | backend/app/middleware.py:116-142 | Every window holds at most `limit` admissions |
| SlidingWindow.EvictIsFilter | backend/app/middleware.py:116-117 | Popping from the left of sorted times is filtering to the window |
| SlidingWindow.RunsStayFaithful | backend/app/middleware.py:114-142 | In every reachable state the deque is the sorted tail of the history, and what it lacks has left the window |
| SlidingWindow.RetryBound | backend/app/middleware.py:118-119 | On a rejection the exact wait is in `(0, window]`; with no admission of the key in between a later request is admitted if and only if that wait has passed; the reported value is computed from it |
| SlidingWindow.ReportedRetry | backend/app/middleware.py:119-119 | The reported value is within half a second of the exact wait or the floor of 1 |
| SlidingWindow.ReportedRetrySuffices | backend/app/middleware.py:119-119 | The reported seconds cover the exact wait if and only if the wait is at most a second, whole, or has a fraction above a half, or exactly a half over an odd number of seconds |
| SlidingWindow.ReportedRetryAdmitsIff | backend/app/middleware.py:116-119 | In every run, a rejected client that comes back after exactly the reported seconds, with no admission of its key in between, is admitted if and only if the exact wait it was given satisfies that condition |
| RateLimiter.PunctualClientRejected | backend/app/middleware.py:88-142 | A run of well-formed requests in which a client is told to wait one second, does, and is rejected again |
| Trust.Corroborate | backend/app/services/score/trust.py:52-58 | The loop computes the product over independence groups, first member at full weight and the rest at a quarter, and meets exactly the groups of the evidence |
| Trust.ComputeTrust | backend/app/services/score/trust.py:40-94 | The whole function meets the order-free trust score, its status bands and its reported inputs |
| Trust.ReorderingKeepsCorroboration | backend/app/services/score/trust.py:52-58 | A reordering that keeps each group's first item changes nothing |
| Trust.StrongestFirstMaximises | backend/app/services/score/trust.py:52-58 | Over all orders, putting each group's strongest item first corroborates most |
| Trust.AppendingNeverLowers | backend/app/services/score/trust.py:52-58 | Evidence added at the end never lowers corroboration |
| Trust.InsertionLowersIff | backend/app/services/score/trust.py:52-58 | Evidence added at any place lowers corroboration exactly when it takes the head of its group from a first item too strong for it and no other group is beyond doubt |
| Trust.InsertionCanHurt | backend/app/services/score/trust.py:52-58 | Such a case: more evidence, less corroboration |
| Trust.RaisingReliabilityNeverLowers | backend/app/services/score/trust.py:52-58 | Raising reliabilities never lowers corroboration |
| Trust.TrustMonotone | backend/app/services/score/trust.py:65-71 | More corroboration never lowers the trust score |
| Trust.RecencyRange | backend/app/services/score/trust.py:59-64 | Recency is in `(0, 1]`, also for evidence dated in the future |
| Trust.RecencyFalls | backend/app/services/score/trust.py:59-64 | Recency never rises with age, falls strictly once the date has passed under a strict exponential, and is `exp(-1)` at the half-life of the category |
| Trust.TractionFadesFirst | backend/app/services/score/trust.py:14-25 | Of one age, traction is the least recent and funding and legal claims the most |
| Trust.AgeingNeverRaises | backend/app/services/score/trust.py:59-71 | A dated claim that grows older and is otherwise as it was never gains trust |
| Trust.TrustCeiling | backend/app/services/score/trust.py:65-81 | For all evidence, ages and flags the score is within its tier's ceiling: self-reported at most 0.46 and never corroborated or verified, inferred never claimed, aggregated never verified, contradicted always CONTRADICTED below 0.48 |
| Trust.CeilingReached | backend/app/services/score/trust.py:65-71 | The ceilings are met by full corroboration, recency and extraction confidence |
| Trust.CeilingTable | backend/app/services/score/trust.py:7-13 | Where the ceilings lie against the status bands |
| Trust.CeilingsAre | backend/app/services/score/trust.py:67-71 | What the best evidence makes of each tier, to the thousandth: plain, independently verified, contradicted, or both |
| Trust.BestStandingIsBest | backend/app/services/score/trust.py:59-81 | The best status of each tier, by whether the claim is dated and independently verified: no evidence, age or extraction exceeds it, and some evidence reaches it |
| Trust.VerifiedReachable | backend/app/services/score/trust.py:65-81 | VERIFIED is reachable for a tier if and only if it is primary or verified third party |
| Trust.UndatedNeedsVerification | backend/app/services/score/trust.py:59-75 | Evidence without a date is never VERIFIED without independent verification; with it, one fully reliable item of a primary source is |
| Trust.DeckClaimsStayUnverifiable | backend/app/services/pipeline.py:304-313 | A claim whose one evidence is the deck scores at most 0.2 and is UNVERIFIABLE |
| FounderScore.ComputeFounderScore | backend/app/services/score/founder.py:48-110 | The nested loops meet the sums over components |
| FounderScore.Partition | backend/app/services/score/founder.py:56-59 | The buckets hold, per known component, exactly its events in order |
| FounderScore.ScoreComponents | backend/app/services/score/founder.py:61-89 | The outer loop's weighted mean, observation weight, source set and summaries |
| FounderScore.ScoreComponent | backend/app/services/score/founder.py:65-89 | One component's value, contribution and sources |
| FounderScore.Accumulate | backend/app/services/score/founder.py:66-78 | The inner loop's sums and source set |
| FounderScore.ComponentsAreWellWeighted | backend/app/services/score/founder.py:5-22 | The seven components have distinct names and positive weights that add up to exactly one |
| FounderScore.ComponentTable | backend/app/services/score/founder.py:5-22 | No two components hold half the weight together; velocity fades fastest and outcomes last longest |
| FounderScoreLaws.PermutationInvariance | backend/app/services/score/founder.py:56-110 | The whole result is the same for every order of the events |
| FounderScoreLaws.UnknownComponentIgnored | backend/app/services/score/founder.py:57-59 | An event of an unknown component, anywhere in the list, changes nothing |
| FounderScoreLaws.RaisingDeltas | backend/app/services/score/founder.py:69-110 | Raising deltas never lowers score or interval and leaves confidence and cold start as they are |
| FounderScoreLaws.Shrinkage | backend/app/services/score/founder.py:91-102 | The posterior lies between cohort mean and weighted mean; the score is in [300, 900] and in its interval; the half-width is in [45, 170] and met by the interval unless clamped |
| FounderScoreLaws.PullRemains | backend/app/services/score/founder.py:83-95 | However much evidence there is, at least 4/18.7 of the distance to the cohort mean stays |
| FounderScoreLaws.LeastPullIff | backend/app/services/score/founder.py:83-95 | The pull towards the cohort mean is at its least exactly when every component has been heard from three sources, or there is nothing to pull |
| FounderScoreLaws.Report | backend/app/services/score/founder.py:79-109 | A component reports a value exactly when some event of it carries weight, the cohort mean as prior otherwise, and its distinct sources; a cold start is fewer than three distinct sources over the events of known components |
| FounderScoreLaws.WidthFromConfidence | backend/app/services/score/founder.py:98-102 | The reported interval is 170 points less 125 times the reported confidence on either side, but for rounding and the ends of the scale |
| FounderScoreLaws.OneDeviation | backend/app/services/score/founder.py:95-97 | A posterior one cohort deviation above the mean scores what the distribution function says of one; a spread below one counts as one |
| FounderScoreLaws.SixSources | backend/app/services/score/founder.py:98-98 | Evidence worth six sources leaves an uncertainty of `exp(-1)` |
| FounderScoreLaws.MoreSourcesNeverWiden | backend/app/services/score/founder.py:83-99 | More distinct sources per component never widen the interval or lower confidence |
| FounderScoreLaws.RepeatsChangeNoConfidence | backend/app/services/score/founder.py:78-103 | A further event of a known source changes neither confidence nor half-width nor cold start |
| FounderScoreLaws.NeutralEvidenceKeepsMean | backend/app/services/score/founder.py:69-97 | Evidence at the cohort mean gives exactly the cohort-mean score |
| FounderScoreLaws.NoEvidence | backend/app/services/score/founder.py:79-110 | No evidence gives 600 in [430, 770] with confidence 0 and cold start |
| FounderScoreAgeing.AgeingFades | backend/app/services/score/founder.py:69-97 | An event that grows older counts for less: where it lies above its component's value neither score nor interval rises, where it lies below neither falls, and confidence and cold start stay |
| FounderScoreAgeing.HalfLifeHalves | backend/app/services/score/founder.py:73-79 | Of two events of one weight, the one older by the component's half-life counts half as much: the component reports `(2a + b) / 3` |
| FounderScoreAgeing.WeightsAddUp | backend/app/services/score/founder.py:75-78 | An event says as much as two like it that share its weight, in every field of the result |
| FounderScoreAgeing.TimeAloneChangesNothing | backend/app/services/score/founder.py:69-110 | Scoring the same events any number of days later gives the same result in every field: all evidence of a component fades alike, and fading widens no interval |
| FounderScoreAgeing.AheadOfTheClock | backend/app/services/score/founder.py:73-73 | The one exception: an event dated ahead of the clock does not fade before its day, so waiting shifts its component's value |
| Thesis.GateIffZero | backend/app/services/score/thesis.py:23-68 | The fit is zero if and only if a gate fired; an ungated fit is in [52.5, 100], because a stage mismatch is gated before it can count as a half |
| ThesisGates.ZeroIff | backend/app/services/score/thesis.py:23-41 | The fit is zero if and only if a company sector and an excluded one fold alike, or the thesis names sectors, the company has some and none fold alike, or its stage is not among the named stages, or its country is not among the named places and none of them is `remote` |
| ThesisGates.GateReported | backend/app/services/score/thesis.py:23-41 | When several hold, the gate reported is the first in that order |
| ThesisGates.ExcludingTurnsDown | backend/app/services/score/thesis.py:23-25 | Naming a sector of a company as excluded, in any spelling that folds alike, turns the company down whatever else the thesis says |
| ThesisGates.UngatedFit | backend/app/services/score/thesis.py:42-68 | An ungated company starts from 100 and loses 20 when the thesis names sectors and it has none, 7.5 when only `remote` let its country pass, and 20 in proportion to the must-haves left open |
| ThesisGates.CoverageIs | backend/app/services/score/thesis.py:42-46 | A must-have is covered exactly when each of the first three words of the folded rule occurs in the folded company text |
| ThesisGates.WordsAre | backend/app/services/score/thesis.py:44-44 | Splitting skips blanks and ends a word at the next blank |
| Thesis.LeastFitIsMet | backend/app/services/score/thesis.py:38-68 | 52.5 is met |
| Thesis.MoreCoverageNeverFitsLess | backend/app/services/score/thesis.py:42-68 | A company text that keeps every must-have it satisfied never fits less |
| Recommendation.InvestIsUpwardClosed | backend/app/services/score/recommendation.py:32-49 | No higher axis, confidence or fit takes an INVEST away, cold start or not |
| Recommendation.WeakAxisIff | backend/app/services/score/recommendation.py:32-44 | The weak-axis rule decides exactly when some axis is below 25 and neither a contradiction nor a gate came before it |
| Screening.PassIffGated | backend/app/services/pipeline.py:548-566 | For every thesis, in-range founder scores and claims: PASS if and only if a thesis gate fired and no critical claim is contradicted; the weak-axis rule never fires |
| Screening.TurnedDownIff | backend/app/services/pipeline.py:548-566 | Read off company, thesis and claims: PASS if and only if a sector is excluded, or no sector, stage or place fits, and no claim on revenue, traction or the team is contradicted; never without a thesis |
| Screening.ExcludedSectorAdvice | backend/app/services/pipeline.py:548-566 | Excluding a sector of the company makes the advice PASS, or NEEDS_HUMAN when such a claim is contradicted, whatever the rest says |
| Screening.AxisFloors | backend/app/services/pipeline.py:361-393 | Axes stay in [35, 95], [48, 80] and [50, 80] |
| Screening.MoreEvidenceNeverHurts | backend/app/services/pipeline.py:370-393 | Adding a claim that is not a contradicted critical one, anywhere, lowers no axis score or confidence and never turns INVEST into anything else |
| Screening.InvestIff | backend/app/services/pipeline.py:361-566 | INVEST in terms of the evidence: best founder at 650, market and product counts past their bars, fit 65, mean confidence 0.55, no contradicted critical claim |
| Screening.StatusesDoNotCount | backend/app/services/pipeline.py:370-393 | Changing claims' statuses in any way leaves all three axes as they are, and the advice too unless a critical contradiction comes or goes |
| Screening.WithoutAFounder | backend/app/services/pipeline.py:366-393 | Without a founder profile, a gate or a contradiction the advice is NEEDS_HUMAN for thin evidence, except exactly when there are five product claims and none of market, traction or revenue, which reads as disagreeing axes |
| Screening.ShortOfInvest | backend/app/services/score/recommendation.py:50-60 | The advice that is neither gated, contradicted nor INVEST, counted out from scores and claims: two axes more than thirty points apart are watched as a disagreement, a mean or founder confidence below 0.4 goes to a human, anything else is watched |
| Screening.ConfidenceBars | backend/app/services/pipeline.py:361-393 | The mean confidence clears 0.55 and 0.4 exactly when the founder's confidence and the market, product and traction counts add up to 1.65 and 1.2 |
| Screening.BestIsFirst | backend/app/services/pipeline.py:361-369 | Of several founders with the highest score the first counts, with its confidence |
| Screening.FounderBar | backend/app/services/pipeline.py:361-369 | The founder axis clears 70 exactly at a founder score of 650 |
| Screening.MarketBar | backend/app/services/pipeline.py:379-385 | The market axis clears 70 exactly when four times the market claims plus the traction claims reach 11 |
| Screening.IdeaBar | backend/app/services/pipeline.py:386-392 | The idea axis clears 70 exactly when twice the product claims plus the traction claims reach 7 |
| Screening.ComputedRowsAreInRange | backend/app/services/score/founder.py:97-104 | Rows written by founder scoring are in the range the axis bounds need |
| Screening.DeckScreening | backend/app/services/pipeline.py:304-315 | A first screening on deck claims alone never escalates for a contradiction and is PASS exactly when a gate fired |
| Extraction.ExtractClaims | backend/app/services/extraction.py:68-102 | The nested loops collect, in order, what each pattern finds past the provenance gate |
| Extraction.ExtractFromPage | backend/app/services/extraction.py:70-102 | One page: its non-blank stripped lines in order |
| Extraction.ExtractFromLine | backend/app/services/extraction.py:72-102 | One line: the four patterns in order |
| Extraction.ExtractedIffFound | backend/app/services/extraction.py:69-101 | A claim is extracted if and only if some pattern finds it, past the gate, on a non-blank line of some page |
| Extraction.LinesAre | backend/app/services/extraction.py:70-72 | A line ends at the first break and the text after it is read on |
| Extraction.StripIs | backend/app/services/extraction.py:71-72 | Stripping takes the blanks off both ends and nothing else |
| Extraction.Provenance | backend/app/services/extraction.py:77-99 | Whatever the patterns report, every claim quotes a passage standing character for character on the page it names; injected lines give 0.30 and unverifiable, all others 0.82 |
| Extraction.ReadOff | backend/app/services/extraction.py:72-99 | A claim's number, unit, text and quotation are read off one match of its pattern on one line of its page: euros or pounds when the match shows their sign, dollars otherwise |
| Extraction.SummaryIff | backend/app/services/pipeline.py:243-257 | A product summary is drawn if and only if some line of some page has twelve characters |
| Extraction.SummaryQuotes | backend/app/services/pipeline.py:246-256 | The summary quotes the page it names |
| Extraction.SummaryIsFirst | backend/app/services/pipeline.py:243-257 | The summary is the first long line of the first page that has one |
| Extraction.ParseCompactNumber | backend/app/services/extraction.py:52-66 | Currency signs and commas are dropped and a last k, m or b scales what `Decimal` reads |
| Extraction.CommasNeverMatter | backend/app/services/extraction.py:52-64 | For every text and every `Decimal`, a comma anywhere changes nothing, also where it is a decimal comma the patterns accept |
| Extraction.FigureReads | backend/app/services/extraction.py:50-63 | A currency sign or none, plain digits, and a scale letter or none read as what `Decimal` makes of the digits times a thousand, a million, a thousand million or one |
| DeckAdvice.AxisCounts | backend/app/services/pipeline.py:370-376 | The counts behind the axes are, for a deck, the numbers of lines on which the patterns hit, and one product claim if a line is long enough |
| DeckAdvice.DeckInvestIff | backend/app/services/pipeline.py:361-566 | On a deck's claims alone, all of them UNVERIFIABLE, the advice is INVEST if and only if founder, hits, summary, fit and mean confidence clear their bars; injected lines hit like others |
| DeckAdvice.InjectedDeckCanInvest | backend/app/services/extraction.py:71-99 | A deck every line of which is taken for prompt injection, with a strong founder, gives INVEST |
| Extraction.DeckTextToAdvice | backend/app/services/pipeline.py:301-315 | From arbitrary deck pages to the advice: never a contradiction, PASS exactly when a gate fired |
| AxisRows.ScoreBook.ScoreAxes | backend/app/services/pipeline.py:394-434 | One row per axis is appended under the next version, its trend read off the latest row |
| AxisRows.LatestAxes | backend/app/services/opportunities.py:65-81 | The dictionary loop keeps, per axis, the first row of the query |
| AxisRows.CurrentAxes | backend/app/routers/opportunities.py:349-354 | The `seen` loop keeps each axis once, by its first row, in order |
| AxisRows.RecordKeepsVersions | backend/app/services/pipeline.py:396-432 | Scoring keeps versions distinct and without gaps per axis and leaves history in place |
| AxisRows.FirstByVersionIsLatest | backend/app/services/opportunities.py:66-81 | In any order by falling version the first row of an axis is its newest |
| AxisRows.ReadersAgree | backend/app/routers/opportunities.py:340-358 | Both readers show the same row per axis, the newest, whatever order ties come in |
| AxisRows.RescoringIsStable | backend/app/services/pipeline.py:408-418 | Scoring the value last recorded again is reported STABLE |
| AxisRows.TrendMirrors | backend/app/services/pipeline.py:408-418 | A rise of three points or more improves, an equal fall declines, and taking the step back reverses the trend |
| AxisRows.StoredRows | backend/app/services/pipeline.py:419-432 | The rows appended are of the axes scored, in order, with scores to the hundredth and confidences to the thousandth nearest to the values |
| EventStream.Generator.Turn | backend/app/routers/jobs.py:64-110 | One turn yields the steps newer than the cursor in order, then `done` on a terminal status or a heartbeat every fifteenth turn, and moves the cursor to the last step |
| EventStream.ReceivedIsAPrefix | backend/app/routers/jobs.py:61-110 | Over every interleaving of commits, polls, deliveries, disconnects and reconnects with the last received id, the received steps are a duplicate-free prefix of the committed rows |
| EventStream.DeliverAll | backend/app/routers/jobs.py:78-91 | The rows a poll read can be delivered one by one, which moves the cursor to the last one's number |
| EventStream.TurnIsPollAndDeliver | backend/app/routers/jobs.py:64-110 | A turn of the generator is a run of the protocol: a poll, the deliveries of exactly the rows in the frames it yields, and the conclusion it comes to, generator and connection agreeing on the cursor |
| EventStream.ConcludesWithAllPolled | backend/app/routers/jobs.py:92-105 | When the stream concludes, the client holds exactly the rows of the last poll |
| EventStream.DoneComesLast | backend/app/routers/jobs.py:70-105 | With polls that read in one snapshot, `done` comes only after every committed step |
| EventStream.FreshJob | backend/app/services/pipeline.py:206-223 | Both guarantees from a fresh job on |
| EventStream.DoneCanComeEarly | backend/app/services/pipeline.py:501-651 | A run of a screening job as the worker commits it, in which a client that received steps one to five is told `done` before the sixth |
| EventStream.TwoStatementPoll | backend/app/routers/jobs.py:70-105 | A two-statement poll that announces `done` delivered everything exactly when nothing was committed between its statements |
| HarvestStream.DoneAfterHarvest | backend/app/routers/jobs.py:92-105 | Whatever a client did while a harvest ran, the first poll after its end, in one statement or two, delivers every step it lacks and says `done`, also when the harvest ended PARTIAL |
| HarvestStream.PollAfterEnd | backend/app/routers/jobs.py:92-105 | The same for any job whose status is neither QUEUED nor RUNNING |
| HarvestStream.NotDoneBefore | backend/app/routers/jobs.py:92-105 | A stream that has seen its job queued or running goes on |
| HarvestStream.HarvestCommits | backend/app/services/pipeline.py:181-203 | The steps of a harvest are numbered as the stream needs them, so the worker can commit them one by one and then its status |
| Slugs.FreeSlug | backend/app/services/auth.py:176-181 | The loop ends after at most one suffix more than there are slugs, and its result is the first candidate that is unused |
| Slugs.BaseTriedTwice | backend/app/services/auth.py:181-181 | Why it may be one more: a base that is itself a suffixed slug is tried twice |
| Slugs.Orgs.Signup | backend/app/services/auth.py:176-184 | Slugs stay unique over every run of signups |
| Slugs.TriedCount | backend/app/services/auth.py:178-181 | The slugs tried are pairwise distinct |
| Slugs.SuffixedInjective | backend/app/services/auth.py:181-181 | Different suffixes give different slugs |
| Slugs.PrintInjective | backend/app/services/auth.py:181-181 | Decimal printing is injective |
| Slugs.Slugify | backend/app/services/utils.py:25-26 | A slug is never empty, at most 80 characters, of letters, digits and dashes |
| Slugs.SlugReads | backend/app/services/utils.py:25-26 | A slug reads as the normalised name, word for word up to 80 characters; a name without any has a stock slug |
| Slugs.NormalizeIdempotent | backend/app/services/utils.py:19-22 | Normalised names are trimmed, single-spaced and fixed by normalising again |
| Jobs.JobTable.CreateJob | backend/app/services/jobs.py:20-51 | A request within 24 hours of a job of its key gets that job, any other appends one |
| Jobs.RunsAreSpaced | backend/app/services/jobs.py:30-50 | Over every run jobs of one key lie more than a day apart |
| Jobs.RecentIsUnique | backend/app/services/jobs.py:30-38 | So the lookup has one answer |
| Jobs.ReplayWindow | backend/app/services/jobs.py:30-51 | A repetition is answered with the same job exactly when it comes within 24 hours of that job's creation |
| Candidates.Store.ResolveOutboundSignal | backend/app/services/ingestion.py:378-431 | The service, step by step on the store, is the resolution function |
| Candidates.Store.RecordFounderEvents | backend/app/services/ingestion.py:304-324 | The loop records each component once per person and signal |
| CandidateRuns.StepKeeps | backend/app/services/ingestion.py:214-431 | Outbound resolution, applications, manual entries, archiving and merges each keep the convergence invariant |
| CandidateRuns.RunsConverge | backend/app/services/applications.py:74-146 | Over every run no two companies share a normalised name or a domain, each organisation has at most one live opportunity per company, and persons, affiliations and memory are kept once |
| CandidateRuns.SubmitKeeps | backend/app/services/applications.py:50-174 | An application keeps the invariant |
| CandidateRuns.CreateManualKeeps | backend/app/services/opportunities.py:261-307 | A manual entry keeps the invariant, also on its two error paths |
| CandidateRuns.LookupsAreDetermined | backend/app/services/ingestion.py:214-230 | Whichever row an unordered query returns, there is only one |
| CandidateRuns.ResolveSettles | backend/app/services/ingestion.py:378-431 | After a resolution everything it searches for is found |
| CandidateRuns.ReplayIsIdempotent | backend/app/services/ingestion.py:378-431 | From any state, resolving the same signal again returns the same ids with nothing created and leaves every table and counter as it was |
| CandidateRuns.SubmissionReplay | backend/app/services/applications.py:60-72 | Submitting again under the same idempotency key returns the first receipt and changes nothing |
| CandidateRuns.SubmitLands | backend/app/services/applications.py:121-166 | A new application lands on a live opportunity of the company it found or created, opened as INBOUND when there was none |
| CandidateRuns.ManualOpensIff | backend/app/services/opportunities.py:271-307 | A manual entry is refused exactly when its company id is unknown or the company has a live opportunity in the organisation; a refusal changes nothing, a success opens the one live opportunity |
| CandidateRuns.AffiliationRecorded | backend/app/services/ingestion.py:89-111 | The affiliation ends up on record with at least the given confidence, and no confidence ever falls |
| CandidateRuns.SignalJoinsIff | backend/app/services/ingestion.py:214-240 | A new signal joins a live opportunity of its organisation exactly when the domain is the company's, or nobody's while the name is the company's |
| SharedSites.GoesByName | backend/app/services/ingestion.py:207-230 | A signal from one of the three shared sites, or without a host, is put down to a company that bears its normalised name, and no company gains a domain by it |
| SharedSites.GoesBySite | backend/app/services/ingestion.py:207-230 | A signal from any other site is put down to the company that has the site, and if nobody had it, to one that bears its name, new with that site when nobody did |
| SharedSites.SharedSiteSignalsMeetIff | backend/app/services/ingestion.py:207-230 | Two signals from shared sites, with anything in between, are put down to one company if and only if their normalised names are equal |
| SharedSites.SignalsOwnNoSharedSite | backend/app/services/ingestion.py:207-230 | No run of signals, manual entries, archiving and merges gives a company one of those domains |
| SharedSites.ApplicationGoes | backend/app/services/applications.py:74-90 | An application goes by its website, whatever site that is, before its name |
| SharedSites.SharedSiteApplicationsMerge | backend/app/services/applications.py:74-90 | Two applications of different companies that give a page on one shared site are merged into one company and one opportunity |
| Attribution.RefusedIff | backend/app/services/applications.py:50-59 | An application is refused exactly when its company has no name or it brings neither deck nor website, and a refusal changes nothing |
| Attribution.ReplayedIff | backend/app/services/applications.py:60-72 | An application is a replay exactly when its own organisation has had one under the key it gives |
| Attribution.ApplicationLeaves | backend/app/services/ingestion.py:114-188 | A new application leaves a founder who is not merged into another, affiliated with the company of its opportunity, with work samples on record if it brought any; a new founder bears the contact's name, or one that names the company |
| Attribution.NeverToTheMerged | backend/app/services/ingestion.py:63-86 | No signal is attributed to a person merged into another |
| Attribution.ProfileFindsThem | backend/app/services/ingestion.py:63-86 | A person met under a GitHub or Hacker News name is found again under the address of that profile and under the name in any case |
| Attribution.NamelessStayApart | backend/app/services/ingestion.py:63-86 | Persons whose names normalise to nothing are never taken for one by name |
| Attribution.ResolveRemembers | backend/app/services/ingestion.py:327-375 | A new signal is remembered once, if it has text, and its channel is linked, with the person and company it was put down to |
| Mailboxes.RunsKeepMail | backend/app/services/ingestion.py:130-162 | Over every run no two persons that are not merged away share an e-mail address, whatever its case |
| Mailboxes.MailDecides | backend/app/services/ingestion.py:130-162 | The founder of an application with an address is the one who had it, if anybody did, and otherwise one found by name, or new, who has it now |
| Mailboxes.ApplicantIsOnePerson | backend/app/services/ingestion.py:130-165 | After any run an application with an address lands on the one person who has it, and that person founds the company of its opportunity |
| FounderEvidence.SignalLeaves | backend/app/services/ingestion.py:277-326 | A new signal leaves exactly the events its kind stands for, in the name of the person it is attributed to, and one that names nobody leaves none |
| FounderEvidence.RunsKeepOrder | backend/app/services/ingestion.py:170-186 | Over every run each component is recorded once per person and signal, and work samples once per person |
| FounderEvidence.EveryEventIsASource | backend/app/services/founders.py:21-32 | After any run the evidence sources the score reports of a component are the number of its events on record, wherever their signals were found |
| FounderEvidence.ColdStartIff | backend/app/services/founders.py:21-32 | After any run a founder is scored as a cold start exactly while fewer than three signals or samples are on record, even when all are of one site |
| CandidateRuns.SameSiteConvergesIff | backend/app/services/applications.py:74-90 | An application and a signal from one site share an opportunity exactly when a company already had the domain, or the application brought a new company, or both carry one name |
| CandidateRuns.SameSiteCanSplit | backend/app/services/applications.py:77-80 | A reachable case in which they do not |
| Harvest.Harvester.ProcessHarvest | backend/app/services/pipeline.py:60-203 | The visits of the planned sources and the job's status and counters |
| Harvest.Harvester.IngestItems | backend/app/services/pipeline.py:108-174 | The item loop of one source |
| Harvest.Harvester.IngestItem | backend/app/services/pipeline.py:109-174 | One item: skipped as a duplicate, or stored, resolved, queued and counted |
| HarvestLaws.HarvestConserves | backend/app/services/pipeline.py:76-203 | Signals ingested, candidates resolved, screening jobs, child ids and channel discoveries are one number; advances are the opportunities opened; every job is for its signal's opportunity; no two signals share source, hash and time |
| HarvestLaws.HarvestAgainMovesNothing | backend/app/services/pipeline.py:109-117 | A second harvest of the same answers, for any organisation, ingests nothing and changes neither database nor queue |
| ScreeningJobs.HarvestJobsShareIff | backend/app/services/pipeline.py:142-171 | Over one harvest, two of its screening jobs are for the same opportunity if and only if their signals were resolved to the same company |
| ScreeningJobs.NextJobSharesIff | backend/app/services/pipeline.py:142-171 | At any moment of a harvest the next new item shares an earlier job's candidate exactly when its domain is that candidate's, or nobody's while its name is that candidate's |
| ScreeningJobs.ItemsShareIff | backend/app/services/pipeline.py:108-171 | Of a source's new items two get jobs for one candidate if and only if the company table and the items' names and hosts, looked at before the harvest, place them at one company |
| ScreeningJobs.OneJobPerCandidateIff | backend/app/services/pipeline.py:108-171 | So there is one screening job per candidate exactly when those places are distinct |
| ScreeningJobs.OneNameOnePlace | backend/app/services/ingestion.py:214-240 | Two items of one normalised name and host are placed at one company, whatever the table |
| SourceCounts.SourceCountIsSourcesIff | backend/app/services/ingestion.py:270-274 | In every reachable store a person's `source_count` is at least the number of sources of the person's signals, and equals it if and only if no source gave two |
| SourceCounts.TwoJobsOneCandidate | backend/app/services/pipeline.py:142-174 | A harvest from an empty store that counts two resolved candidates, queues two jobs for one opportunity, and leaves a founder with a source count of two from one source |
| HarvestLaws.HarvestRunsStayValid | backend/app/services/pipeline.py:60-203 | Over every run of harvests, applications, manual entries, archiving and merges: the convergence invariant, distinct signal keys, fitting screening jobs, and person counters that equal the signals attributed |
| HarvestLaws.PartialIff | backend/app/services/pipeline.py:190-190 | A harvest ends PARTIAL exactly in demonstration mode or when a planned source was disabled or failed |
| HarvestLaws.FailuresAreTheSilentSources | backend/app/services/pipeline.py:83-175 | The failures are listed one per silent source, in order, each with whether the source was disabled or failed |
| HarvestLaws.VisitMarksSource | backend/app/services/pipeline.py:171-180 | A source that answered is marked active, a known one that failed degraded, no other is remarked |
| HarvestLaws.ResolveCounts | backend/app/services/ingestion.py:270-274 | A new signal adds one to both counters of the person it is attributed to and to no other |
| HarvestLaws.ResolveFrame | backend/app/services/ingestion.py:388-425 | A resolution leaves other signals' rows alone, only adds opportunities, opens at most one, as OUTBOUND, and advances the channel exactly then |
| HarvestLaws.StepsClimb | backend/app/services/pipeline.py:86-189 | Step numbers climb, and the numbers missing are those of disabled sources |
| HarvestLaws.PlanIs | backend/app/services/pipeline.py:67-85 | Nothing is planned in demonstration mode, the four connectors by default, and otherwise the requested ones among them as often as requested |
| HarvestLaws.StepsFlagFailures | backend/app/services/pipeline.py:181-189 | A step names the source of the visit it numbers and says `degraded` exactly when a visit of that source so far gave no items |

## Left out

- Cursor.IsoRoundTrip: reads only the spellings `isoformat()` produces for UTC; `fromisoformat` accepts more, and naive or other-zone instants are taken as already converted.
- Cursor.UuidRoundTrip: reads the plain and dashed hexadecimal forms; the `urn:uuid:` and braced forms are not part of this model.
- Cursor.RoundTripIff: the row id's text is arbitrary, but the characters are Unicode scalar values, which is what `encode()` accepts.
- Pagination.PagingUnderChange: each page is one snapshot, the filter is fixed and `sla_risk` is off, because it reads the clock; deleted rows are outside the runs.
- TokenRuns.RotatesAtMostOnce: requests are atomic; two interleaved refreshes of one token are outside it, for want of a row lock in the code.
- EventStream.DoneComesLast: needs polls that read in one snapshot and a worker that commits nothing after a terminal status; a concurrent cancel or reap, or a second attempt at the same job, is outside it. `TwoStatementPoll` says what holds of the poll as written.
- CandidateRuns.RunsConverge: requests are atomic. PATCH of `stage` (backend/app/routers/opportunities.py:114-115) and `process_job` (backend/app/services/pipeline.py:493) can revive an archived opportunity and are outside these runs, as are merges of companies.
- CandidateRuns.ReplayIsIdempotent: founder-score rows and timestamps are not part of the compared state.
- CandidateRuns.SubmissionReplay: the receipt is found through the application instead of its queue row, which is written in the same transaction; the deck document and its deduplication by digest are not modelled.
- Candidates.Store.ResolveOutboundSignal: the name, host and strongest identity hint of a signal arrive as inputs; `_company_name_from_signal` and the choice among hints are string helpers.
- Candidates.Store.RecordFounderEvents: weights and reasons of events, and the row of the recomputed score, are not stored; `EveryEventIsASource` and `ColdStartIff` hold for any weights and ages.
- Mailboxes.RunsKeepMail: needs a folding that folds once and for all, which `casefold` is; a merge of persons moves no addresses, as in the code.
- Harvest.Harvester.ProcessHarvest: a connector answers with items, is disabled, or fails before its first item; a failure in the middle of the items, and progress figures, are not modelled.
- Jobs.RunsAreSpaced: only `create_job` writes the table; jobs inserted elsewhere carry other kinds or keys.
- Slugs.FreeSlug: the choice of the name to slug, and signup by invitation, are not modelled.
- Slugs.NormalizeIdempotent: the Unicode decomposition and case folding are an arbitrary function that fixes texts of letters, digits and spaces.
- Extraction.ExtractClaims: the regular expressions, the injection test and `Decimal` are arbitrary.
- Screening.PassIffGated: decimal storage of axis values is exact, since they are rounded before they are stored.
- FounderScore.ComputeFounderScore: ages arrive as whole days and the recency decay is any function with the laws of `0.5 ** (age / half_life)` in `Analysis`; float rounding error is not modelled.
- Trust.ComputeTrust: ages arrive as whole days; float rounding error is not modelled.
- Thesis.GateIffZero: the wording of gate reasons is an enumeration.
- Cancelling and reaping jobs, and the remaining stages of `process_job`: they may overwrite each other's status, so no invariant over them is claimed.
- Login lockout: failed attempts are counted and then raised past without a commit, so no run-level claim rests on them.
- `decide_opportunity`, audit rows, memo text, search ranking, thesis editing, outreach, data erasure and seeding: they would only add easy members.
- HTTP, schemas, logging, object store, document parsing, queues, cryptography: library calls without an algorithm of this backend.
