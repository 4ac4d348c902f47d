# Verified model of the agency platform's concurrent protocols and exact algorithms

The platform keeps its hard logic in small protocols built from conditional database
updates, in two importers that promise a dry run tells what the live run will do, and in a
few exact algorithms. This project models them in Dafny and proves what they promise over
every interleaving, every run and every input. `dafny verify dfyconfig.toml` checks it.

Where the code changes a row or a map step by step, a class has the same methods, each
proved against a function of the old state. Where requests interleave, every conditional
update, Redis command or transaction is one step of a state machine, requests work from
possibly stale reads and may crash between any two steps, and the theorems speak of every
run of that machine.

| files | what they model |
|---|---|
| `Escalation`, `EscalationResponses` | thread escalation: the optimistic marker, one alert per activity cycle, and exactly which responses endanger it |
| `SecondFactor`, `AttemptBudget`, `CodeReplay` | second factor: attempt budget, lockout, TOTP steps, recovery codes |
| `McpScopes`, `McpOAuth`, `McpOAuthRuns`, `McpOAuthRecords`, `McpOAuthSingleUse`, `McpOAuthRevocation`, `McpOAuthExpiry`, `McpOAuthUndisturbed` | the MCP OAuth provider: scopes, single use, rotation, replay, revocation, expiry, and requests with nobody in between |
| `AiGovernance`, `AiBudget` | governed AI calls: route, cost, the budget check and how far it can be overspent |
| `AgentRun`, `AgentRunRuns` | client agent runs: claim, deadline, dispatch, sweep, cancellation |
| `BreakGlass`, `BreakGlassRuns` | break-glass grants: two kinds of lock, row compare-and-set |
| `RecurringDates`, `RecurringInvoices`, `RecurringRace` | billing dates, one run of the invoice job, competing workers |
| `BonsaiDomains`, `BonsaiExact` | the Bonsai importer's client loop, dry and live, and exactly when the two agree |
| `NotionImport`, `NotionDryRun` | the Notion importer, dry and live |
| `Bits`, `Base32`, `Totp` | base32 over a 32-bit accumulator, HOTP truncation, TOTP verification |
| `CanonicalUrl`, `CanonicalScheme` | canonical request URLs, token by token, and exactly when a second pass changes nothing |
| `Pagination` | keyset pagination, with the table at rest and changing |
| `Options`, `FreshIds`, `WhiteSpace` | the option type; unused ids; JavaScript's white space |

## Promises that hold only under a condition

Each of these is proved as an if-and-only-if.

- **One escalation per activity cycle.** A response (`src/routes/response.routes.js:277-287`)
  resets the marker to null, so a check that read a null marker matches again. When every
  check reads the clock at a moment of its own, a run comes to a point from which an alert
  goes out of turn if and only if one of its responses lands while a check in flight, its
  claim not yet missed, holds a null-marker snapshot and the log already has the alert it
  would send (`EscalationResponses.OutOfTurnExactlyWhenCareless`). The clock assumption is
  needed (`EscalationResponses.EqualClocksRepeatAnEscalation`); without it, keeping responses
  away from all checks in flight still suffices, for arbitrary clocks
  (`Escalation.AtMostOncePerCycle`).
- **Five codes in any 15 minutes.** Between two lockouts at most five codes are evaluated,
  always. The bound per span of time needs every request to lock within 15 minutes of
  reserving: a request that stalls longer writes a lock that has already expired
  (`AttemptBudget.SpanBoundExactlyWhenPrompt`).
- **The Bonsai dry run decides like the live run.** For given names, emails and contacts, the
  two decide alike whatever the websites and current domains are if and only if no row is
  matched to a pre-existing client by one mode alone, or the first row stands for the only
  client there was (`BonsaiExact.AlwaysAlikeExactlyWhenMatchedAlike`). The matching depends on
  the export and the address book only, so it can be computed before either run. Two rows that
  share a new email break it (`BonsaiDomains.SharedEmailBreaksTheDryRun`);
  `BonsaiDomains.ExportIsClear` is a simpler check that suffices.
- **The Notion dry run tells what the live run does** exactly when it plans no two notes with
  one title under one parent (`NotionDryRun.DryRunTellsExactlyWhenSitesAreDistinct`).
- **Canonicalizing a URL is idempotent** exactly on origin-form targets, on absolute-form
  targets, and on everything else whose well-formed path does not spell `http` or `https`, with
  an escape, before `://` and a slash on the same line (`CanonicalScheme.IdempotentExactlyWhen`).
  `%68ttp://h/p` loses its host on a second pass.
- **Base32 decoding is inverted by encoding** exactly on texts without a superfluous letter
  and without bits in the part that fills no byte; decoding after encoding is always the identity.
- **`lastDay` is the month's last day** except for February of year 0, where `Date.UTC` reads
  the year as 1900 (`RecurringDates.LastDayIsTheMonthsLast`).

Where the code and its comments differ, the model follows the code. The comment of
`canonicalRequestUrl` says reserved escapes are left untouched and malformed paths are
returned as sent; the code upper-cases the digits of reserved escapes, and strips the scheme
and host of an absolute-form URL even when its path is malformed. The comment of
`reserveAttempt` says at most five requests can ever be evaluated before the account locks,
which is what `FiveBetweenLockouts` states. The importer's comment says the domain decision is
identical in a dry run and a live run, without the condition above.

## Model

| member | source | states |
|---|---|---|
| Escalation.ThreadStore.ClaimEscalationLevel | src/jobs/escalation.js:35-51 | claims a level exactly when the marker is as read and the level is new; no other column changes |
| Escalation.ThreadStore.CheckThread | src/jobs/escalation.js:60-139 | one transaction of claims writes exactly the notifications of the alerts it claimed; a check that wants nothing writes nothing |
| Escalation.NotificationsOfTwo | src/jobs/escalation.js:93-138 | the fan-out of a claim and a breach is the two fan-outs in order |
| Escalation.ClaimRaisesMarker | src/jobs/escalation.js:35-51 | every claim moves the marker strictly forward, by the hour thresholds, even from a stale read: no ABA |
| Escalation.CommitKeepsInv | src/jobs/escalation.js:92-139 | a commit from any stale snapshot keeps "every snapshot whose marker is current remembers all alerts of its cycle" |
| Escalation.AtMostOncePerCycle | src/jobs/escalation.js:73-139 | in every interleaving whose responses find no check in flight: one warning, one escalation per cycle, warning before escalation, one breach ever |
| Escalation.ResponseUnderACheckRepeatsAWarning | src/routes/response.routes.js:277-287 | a run in which a response under a check makes a second warning for one cycle go out |
| EscalationResponses.ClaimIsInTurn | src/jobs/escalation.js:35-51 | a claim that matches, from however stale a read, sends an alert whose turn it is |
| EscalationResponses.OutOfTurnExactlyWhenCareless | src/routes/response.routes.js:277-287 | with clock readings of their own, runs come to an alert out of turn if and only if a response lands on an endangering check |
| EscalationResponses.QuietIsCareful | src/jobs/escalation.js:31-51 | keeping responses away from all checks in flight is one way to avoid that |
| EscalationResponses.EqualClocksRepeatAnEscalation | src/jobs/escalation.js:38-49 | two checks that read the same millisecond can repeat an escalation although no response endangers anything |
| Escalation.UndisturbedCheckDelivers | src/jobs/escalation.js:73-133 | an undisturbed check sends exactly the alerts its cycle still owes, and records the level |
| SecondFactor.NormalizeIsIdempotent | src/auth/mfa.js:70-72 | normalizing a recovery code twice is normalizing it once |
| SecondFactor.JoinedIsNormalized | src/auth/mfa.js:70-90 | a code handed out as four dashed groups normalizes to its sixteen characters |
| SecondFactor.GeneratedCodesAreFound | src/auth/mfa.js:78-104 | a generated code is found exactly while its hash is stored, whatever case and separators it is typed with |
| SecondFactor.FindRecoveryCodeHash | src/auth/mfa.js:95-104 | the loop that compares every hash returns the first stored hash of the submitted code, if any |
| SecondFactor.UserAccount.ReserveAttempt | src/auth/mfa.js:188-200 | counts an attempt exactly when no lock is active, and returns its number |
| SecondFactor.UserAccount.LockAccount | src/auth/mfa.js:202-208 | starts a lock and clears the counter unless a lock is active |
| SecondFactor.UserAccount.ClaimTotpStep | src/auth/mfa.js:215-227 | moves the last used step only forward |
| SecondFactor.UserAccount.ConsumeRecoveryCode | src/auth/mfa.js:271-279 | the list is replaced only if the session version is the one read and the hash is still stored |
| SecondFactor.UserAccount.VerifySecondFactor | src/auth/mfa.js:263-307 | no code is looked at while locked or past the budget; a code is accepted if and only if it is good; the whole row after each outcome |
| AttemptBudget.FiveBetweenLockouts | src/auth/mfa.js:177-200 | in every run, of any six evaluated codes a lockout fell in between |
| AttemptBudget.PromptRunsAreSpaced | src/auth/mfa.js:202-208 | if requests lock within 15 minutes of reserving, any six evaluations span at least 15 minutes |
| AttemptBudget.EvaluationRate | src/auth/mfa.js:243-261 | so in any stretch of a run, T long, at most 5 * (1 + T / 15 min) codes are evaluated |
| AttemptBudget.SlowRunBreaksTheBound | src/auth/mfa.js:202-208 | a run in which a slow request's expired lock lets six codes through in 15 minutes |
| AttemptBudget.SpanBoundExactlyWhenPrompt | src/auth/mfa.js:27-28 | the bound per span holds of all runs if and only if no request stalls longer than the lockout |
| CodeReplay.WithoutIsUnused | src/auth/mfa.js:271 | removing a code from the unused ones leaves the issued list minus one more used code |
| CodeReplay.ConsumeKeepsSingleUse | src/auth/mfa.js:272-279 | the list computed from a snapshot is right whenever the conditional update goes through |
| CodeReplay.CodesAreSingleUse | src/auth/mfa.js:263-307 | in every run: the list is the issued one minus the used codes, no code is used twice, each use raises sessionVersion once, accepted TOTP steps strictly increase until the secret is replaced or removed |
| CodeReplay.FreshReadConsumes | src/auth/mfa.js:268-288 | a fresh read of a stored code suffices to use it, and removes exactly that code |
| McpScopes.NormalizeKeepsTheSet | src/auth/mcp-oauth-scopes.js:19-22 | accepted exactly when well formed with read; the result names exactly the same scopes |
| McpScopes.NormalizeIgnoresOrder | src/auth/mcp-oauth-scopes.js:19-22 | two requests normalize alike if and only if they name the same scopes |
| McpScopes.NormalizeIsIdempotent | src/auth/mcp-oauth-scopes.js:19-22 | normalizing twice is normalizing once |
| McpScopes.FourScopes | src/auth/mcp-oauth-scopes.js:2-22 | the four supported scopes, their stored order, and the default |
| McpScopes.WritingIsAllButReading | src/auth/mcp-oauth-scopes.js:18 | an accepted request writes exactly when it names anything besides reading |
| McpScopes.ConsentExactlyWhen | src/auth/mcp-oauth-provider.js:102-106 | consent is given to exactly the well-formed selections within the pending request |
| McpScopes.ConsentNeverWidens | src/auth/mcp-oauth-provider.js:85-106 | consented scopes are a subset of the requested ones and always include workspace:read |
| McpOAuthUndisturbed.ConsentIssuesACode | src/auth/mcp-oauth-provider.js:81-118 | a code is issued for the scopes selected exactly when they are well formed and within a well-formed request |
| McpOAuth.GrantStandsExactlyWhen | src/auth/mcp-oauth-provider.js:62-68 | a grant stands exactly for its own active key and owner, before its end, with one set of supported scopes |
| McpOAuth.ScopesMatchExactlyWhen | src/auth/mcp-oauth-provider.js:158 | a refresh may name no scopes, or exactly the set its grant has |
| McpOAuth.Provider.TakeCode | src/auth/mcp-oauth-provider.js:132 | a code is handed out once and removed |
| McpOAuth.Provider.TakeRefresh | src/auth/mcp-oauth-provider.js:161 | a refresh token is handed out once and removed |
| McpOAuth.Provider.RotateKey | src/auth/mcp-oauth-provider.js:164-171 | the key changes only if it is as read, active, unrevoked and still carries the grant's owner and scopes |
| McpOAuth.Provider.ExchangeAuthorizationCode | src/auth/mcp-oauth-provider.js:125-147 | succeeds exactly when the code is live and all checks pass; all five tables afterwards, also when it is refused after taking the code |
| McpOAuth.Provider.ExchangeRefreshToken | src/auth/mcp-oauth-provider.js:148-174 | succeeds exactly when the token stands; all five tables afterwards; what it hands out has not expired and does not outlive its grant; a replayed token revokes its key |
| McpOAuthRecords.GrantsNeverWiden | src/auth/mcp-oauth-provider.js:133-173 | in every run, rotation neither extends a grant nor changes its scopes, which are consented ones; no access token outlives its grant |
| McpOAuthRecords.RunKeepsConsents | src/auth/mcp-oauth-provider.js:102-118 | in every run, whatever is consented came through consent |
| McpOAuthSingleUse.TokensAreSingleUse | src/auth/mcp-oauth-provider.js:125-174 | in every interleaving each code and refresh token succeeds at most once and a grant has at most one live refresh token |
| McpOAuthRevocation.RevocationIsFinal | src/auth/mcp-oauth-provider.js:152-195 | in every run, after a revocation commits no rotation of the key commits, and no exchange or verification that reads the key later succeeds |
| McpOAuthRevocation.OnlyTheNewestTokenVerifies | src/auth/mcp-oauth-provider.js:175-184 | an access token verifies only if it was its key's newest when the key was read (`McpOAuthExpiry` says until when) |
| McpOAuthRevocation.RotationsReplaceWhatTheyRead | src/auth/mcp-oauth-provider.js:164-172 | in every run, no other token was issued between a refresh reading its key and rotating it |
| McpOAuthExpiry.VerificationIsInTime | src/auth/mcp-oauth-provider.js:175-179 | in every run, a token that verifies at t was issued by an exchange or rotation at some t0 with t < t0 + 1 hour, and t lies before its grant's end, 30 days after the grant's creation |
| McpOAuthExpiry.VerifiesExactlyInTime | src/auth/mcp-oauth-provider.js:175-184 | in every reachable state, an undisturbed verification of a connected key's newest token succeeds if and only if less than an hour passed since its issue and the grant has not ended |
| McpOAuthExpiry.TimeEndsATokensUse | src/auth/mcp-oauth-provider.js:175-179 | once the clock has come to an hour after its issue, or to its grant's end, the token no longer verifies |
| McpOAuthUndisturbed.CodeExchangeSucceeds | src/auth/mcp-oauth-provider.js:125-147 | the steps of one code exchange, undisturbed, end in the tables the method promises |
| McpOAuthUndisturbed.RefreshExchangeSucceeds | src/auth/mcp-oauth-provider.js:148-174 | so do the steps of one refresh: token recorded as used, key rotated within the grant, one live refresh token |
| McpOAuthUndisturbed.RevokeTokenRevokes | src/auth/mcp-oauth-provider.js:185-195 | presenting any token of a connection to revocation revokes its active key and nothing else |
| McpOAuthRevocation.ReplayRevokes | src/auth/mcp-oauth-provider.js:153-157 | presenting a recorded used token revokes its key and changes nothing else |
| McpOAuthUndisturbed.OnlyItsClientReplays | src/auth/mcp-oauth-provider.js:153-157 | a used token presented by another client, or an unknown one, changes nothing |
| AiGovernance.AttemptedExactlyWhen | src/ai/governance.js:226-248 | a call goes upstream exactly when AI is on, it is not aborted, and its connection works and is under budget or, without a connection, the platform is configured |
| AiGovernance.RefusalsAreExact | src/ai/governance.js:351-389 | which worlds are refused with which code, the first reason counting |
| AiGovernance.AttemptsReturnTheUpstream | src/ai/governance.js:364-411 | an attempted call answers what the provider answered, or tells its failure |
| AiGovernance.PricesArePerMillion | src/ai/pricing.js:65-69 | a million prompt tokens cost the input price, a million completion tokens the output price, and costs add up |
| AiGovernance.CostIsWithinHalfAUnit | src/ai/pricing.js:65-70 | a recorded cost is within half a recording unit of the exact price |
| AiGovernance.CostIsMonotone | src/ai/pricing.js:65-70 | more tokens never cost less, so a token bound is a cost bound |
| AiBudget.UsageLedger.RecordUsage | src/ai/governance.js:313-337 | appends one record and raises the month's spend by exactly its cost |
| AiBudget.UsageLedger.MonthToDate | src/ai/governance.js:74-95 | the sum over this month's records |
| AiBudget.UsageLedger.AssertWithinBudget | src/ai/governance.js:265-282 | passes exactly while the month's spend is under the budget |
| AiBudget.OverspendIsBounded | src/ai/governance.js:387-406 | with n calls at once costing at most C each, spend stays below budget + n * C in every interleaving |
| AiBudget.OverspendIsReached | src/ai/governance.js:265-282 | and a run reaches budget + n * C - 1, so the bound is the best possible |
| AgentRun.OutcomesAreExact | src/jobs/client-agent-run.js:153-170 | in terms of what the governed call met: FAILED exactly when AI was off or the budget spent, SUCCEEDED exactly on a valid answer from upstream, UNKNOWN otherwise |
| AgentRun.RunStore.ClaimRun | src/jobs/client-agent-run.js:62-70 | one claimant, from QUEUED only |
| AgentRun.RunStore.SettleRun | src/jobs/client-agent-run.js:71-79 | settles its own running row before the deadline, expires it after |
| AgentRun.RunStore.Sweep | src/jobs/client-agent-run-recovery.js:14-21 | afterwards no row runs past its deadline; a running row still in time is untouched; a queued row is FAILED exactly when ten minutes old; terminal rows stay |
| AgentRun.RunStore.ProcessRun | src/jobs/client-agent-run.js:54-174 | an undisturbed worker: when it dispatches, what it stores first, and which status and error it ends with; AI switched off or a spent budget means FAILED with that code and no dispatch |
| AgentRunRuns.FinishTellsTheTruth | src/jobs/client-agent-run.js:161-170 | an outcome mapped to FAILED hides no provider attempt; one mapped to SUCCEEDED carries a valid answer |
| AgentRunRuns.OutcomesTellTheTruth | src/jobs/client-agent-run.js:117-170 | over all workers, sweeps, redeliveries, cancellations and crashes: one claim, one dispatch of the stored snapshot; FAILED means no dispatch, SUCCEEDED exactly one with a valid answer in time, otherwise UNKNOWN |
| AgentRunRuns.TerminalIsFinal | src/jobs/client-agent-run.js:65-79 | a terminal row never changes, RUNNING never returns to QUEUED, a stored snapshot stays |
| AgentRunRuns.StepIsFinal | src/services/client-agent-run.service.js:202-222 | the same for one step of any worker, sweep or cancellation |
| AgentRunRuns.SweepsAreExact | src/jobs/client-agent-run-recovery.js:14-21 | in every reachable state: which run each update of the sweep, and a cancellation, ends and how |
| AgentRunRuns.OverdueRunsEnd | src/jobs/client-agent-run-recovery.js:14-17 | a run found overdue by a sweep is UNKNOWN for good, whoever is still at work on it |
| AgentRunRuns.DeadlinesAreTwoMinutesFromAStart | src/jobs/client-agent-run.js:62-70 | in every run, a deadline lies two minutes after the start of a worker, so no sweep ends a run sooner |
| AgentRunRuns.WinnersOwnTheRun | src/jobs/client-agent-run.js:58-70 | in every run, the worker that won the claim of a running run holds its token and its deadline |
| AgentRunRuns.AloneSucceeds | src/jobs/client-agent-run.js:54-170 | a worker left alone claims, snapshots, dispatches once and stores the answer it gets in time |
| BreakGlass.Recovery.RevokeGrantRow | src/auth/break-glass.js:226-231 | closes an open grant once, reports whether it did |
| BreakGlass.Recovery.RevokeGrant | src/auth/break-glass.js:244-255 | not found, already closed, or revoked: the three outcomes and their tables |
| BreakGlass.Recovery.IssueGrant | src/auth/break-glass.js:156-213 | exactly who may be granted, and why others are refused; the new grant, good for 30 minutes, is the target's only redeemable one and nothing else changed |
| BreakGlass.Recovery.RedeemGrant | src/auth/break-glass.js:264-324 | stands exactly under the checks; then the grant is closed and the account is an active administrator without old sessions or second factor |
| BreakGlassRuns.AtMostOneRedeemableGrant | src/auth/break-glass.js:176-213 | in every run a target has at most one redeemable grant at any time |
| BreakGlassRuns.RacingRedemptionsNeverBothPromote | src/auth/break-glass.js:288-322 | promotions commit only without an active administrator; between two of them an active administrator was deactivated or demoted |
| BreakGlassRuns.GrantsCloseOnce | src/auth/break-glass.js:226-299 | a grant closes one way, at most once, and stays as it closed |
| BreakGlassRuns.EachGrantRestoresOnce | src/auth/break-glass.js:288-324 | in every run, an account is restored exactly as often as a grant for it was redeemed, however redemptions race |
| BreakGlassRuns.RevocationCloses | src/auth/break-glass.js:244-255 | a revoked grant stays revoked and is never redeemable again |
| BreakGlassRuns.AloneIssues | src/auth/break-glass.js:161-213 | the steps of an issue, undisturbed, replace the target's redeemable grants by one for 30 minutes |
| BreakGlassRuns.AloneRedeems | src/auth/break-glass.js:264-324 | the steps of a redemption, undisturbed, close the grant and restore the account as an administrator |
| RecurringDates.DaysAreContiguous | src/jobs/recurring-invoices.js:46-54 | the model's calendar: time values count days from the epoch without gap over month and year ends |
| RecurringDates.TimeValueOrdersDates | src/jobs/recurring-invoices.js:69 | comparing time values is comparing calendar fields, leap years included |
| RecurringDates.LastDayIsTheMonthsLast | src/jobs/recurring-invoices.js:51 | the clamp is the month's last day if and only if it is not February of year 0 |
| RecurringDates.AddMonthsKeepsTheDay | src/jobs/recurring-invoices.js:46-54 | the date lies in exactly the month asked for, on the anchor's day clamped, at its time of day |
| RecurringDates.DateObject.SetUTCMonth | src/jobs/recurring-invoices.js:50 | month overflow carries into the year |
| RecurringDates.AddMonthsFromAnchor | src/jobs/recurring-invoices.js:46-54 | the date object changed in place ends at that date |
| RecurringDates.BoundaryExactly | src/jobs/recurring-invoices.js:43-54 | the k-th boundary is exactly the date k months, 3k months or k years on, on the anchor's day clamped |
| RecurringDates.YearsAreQuartersAreMonths | src/jobs/recurring-invoices.js:43 | a year is four quarters is twelve months, to the day; an unknown interval is a month |
| RecurringDates.BoundariesIncrease | src/jobs/recurring-invoices.js:65-72 | later intervals are strictly later dates |
| RecurringDates.GuessIsTight | src/jobs/recurring-invoices.js:66-67 | the first guess is never past the answer and one more interval is always enough |
| RecurringDates.FirstRecurringIsLeast | src/jobs/recurring-invoices.js:63-74 | it is the least boundary k >= 1 strictly after now: every k is after now exactly from it on |
| RecurringDates.FirstRecurringDate | src/jobs/recurring-invoices.js:63-74 | the loop returns the first date a whole number of months, quarters or years after the anchor that is past now, and runs at most once, for every anchor, interval and now |
| RecurringDates.ConsecutiveDatesAreOneIntervalApart | src/jobs/recurring-invoices.js:63-74 | each billing date follows the one before by one month, three months or one year |
| RecurringDates.QuarterlyFromJanuary | src/jobs/recurring-invoices.js:56-74 | a quarterly invoice of 31 January is due on 30 April, then on 31 July |
| RecurringInvoices.InvoiceTable.ClaimAndGenerate | src/jobs/recurring-invoices.js:116-163 | one transaction: the next date moves and one copy is made, or neither |
| RecurringInvoices.InvoiceTable.Process | src/jobs/recurring-invoices.js:97-190 | the loop is its batch specification; generated counts the copies, failures lists the failed sources |
| RecurringInvoices.RunSettlesWhatIsDue | src/jobs/recurring-invoices.js:80-165 | a run alone copies each due source once however many periods passed; still due is exactly what failed |
| RecurringInvoices.NoSourceIsCopiedTwice | src/jobs/recurring-invoices.js:105-108 | no source is copied twice in one run |
| RecurringRace.ClaimAdvances | src/jobs/recurring-invoices.js:116-127 | each claim moves the date to a later boundary, after the worker's clock |
| RecurringRace.ChainIncreases | src/jobs/recurring-invoices.js:116-163 | the due dates of committed copies strictly increase |
| RecurringRace.CalendarIsLawful | src/jobs/recurring-invoices.js:45-74 | the job's dates satisfy the laws the race argument uses |
| RecurringRace.CalendarIsTheJobs | src/jobs/recurring-invoices.js:63-74 | the calendar of the race argument has the job's own boundaries, time values and next dates |
| RecurringRace.WorkerAloneCopies | src/jobs/recurring-invoices.js:80-163 | a worker alone copies a source exactly when it recurs, is issued and is due |
| RecurringRace.NeverMoreCopiesThanBoundaries | src/jobs/recurring-invoices.js:80-163 | across competing workers with differing clocks, never more copies than elapsed boundaries |
| BonsaiDomains.MatchFinds | scripts/import-bonsai-full.js:422-435 | a known email finds its contact's client; otherwise a client of the row's name, if there is one |
| BonsaiDomains.ClientImport.IsDomainTaken | scripts/import-bonsai-full.js:397-403 | the decision as a function of claims, releases and current holders |
| BonsaiDomains.ClientImport.DecideDomain | scripts/import-bonsai-full.js:462-471 | decides the column, records the claim |
| BonsaiDomains.ClientImport.ReleaseDomain | scripts/import-bonsai-full.js:473-478 | records the domain an update moves a client off |
| BonsaiDomains.ClientImport.ImportAll | scripts/import-bonsai-full.js:420-525 | the loop over rows and mutable maps is the fold of its row step, in both modes |
| BonsaiDomains.DecisionsDifferExactlyWhenMatchesDo | scripts/import-bonsai-full.js:390-403 | for one row, the exact condition for the two modes to decide differently |
| BonsaiDomains.AllowedDomainIsFree | scripts/import-bonsai-full.js:397-403 | an allowed domain is held by nobody but the row's own client |
| BonsaiDomains.LiveRowKeepsLiveOk | scripts/import-bonsai-full.js:462-498 | a live row keeps every domain on one client |
| BonsaiDomains.RowKeepsAgreement | scripts/import-bonsai-full.js:462-498 | a row keeps the frozen and the written database telling one story |
| BonsaiDomains.DryRunDecidesLikeLiveRun | scripts/import-bonsai-full.js:390-498 | for every database and every export whose rows are matched to pre-existing clients alike (several to one client, perhaps): the same decisions in both modes, one client per domain |
| BonsaiDomains.FirstMismatchDecides | scripts/import-bonsai-full.js:397-403 | the first row not matched alike is decided differently exactly when its domain is unclaimed and held by the one client that a single mode matched |
| BonsaiDomains.ClearExportDecidesAlike | scripts/import-bonsai-full.js:422-435 | an export an operator can check to be clear is matched, and so decided, alike |
| BonsaiExact.MatchIsWho | scripts/import-bonsai-full.js:422-435 | which client a row stands for depends on names, emails and contacts alone |
| BonsaiExact.MismatchIsDecidedUnalike | scripts/import-bonsai-full.js:397-403 | for any mismatch there are websites and domains on which the two modes decide differently |
| BonsaiExact.AlwaysAlikeExactlyWhenMatchedAlike | scripts/import-bonsai-full.js:390-498 | the two modes decide alike for all websites and domains if and only if all rows are matched alike, or the first row stands for the only client |
| BonsaiDomains.DryRunWritesNothing | scripts/import-bonsai-full.js:479-497 | a dry run leaves clients and contacts as they were |
| BonsaiDomains.SharedEmailBreaksTheDryRun | scripts/import-bonsai-full.js:424-430 | an export with a shared email on which the modes decide differently |
| NotionImport.DecideExactly | scripts/import-notion-markdown.js:86-131 | exactly when each outcome is decided, told from records, notes and known parents; a conflict is a live note of that title in that place |
| NotionImport.Importer.ProcessPage | scripts/import-notion-markdown.js:86-149 | the loop body with its early exits is one step of the specification |
| NotionImport.Importer.ProcessPayloads | scripts/import-notion-markdown.js:85-150 | the loop is the fold of that step |
| NotionImport.Importer.Run | scripts/import-notion-markdown.js:152-163 | a live run throws exactly on findings and then leaves the database unchanged; a dry run never writes |
| NotionImport.ReportAddsUp | scripts/import-notion-markdown.js:70-149 | the counters sum to the pages; findings, records and hierarchy agree with them |
| NotionImport.CleanRunImports | scripts/import-notion-markdown.js:136-149 | after a live run without findings every page is in the database as read |
| NotionImport.RerunChangesNothing | scripts/import-notion-markdown.js:91-110 | running a successful import again creates nothing and reports every page unchanged |
| NotionDryRun.OccupiedAgrees | scripts/import-notion-markdown.js:124-131 | the live run finds a place taken where the dry run does or where it planned a note |
| NotionDryRun.DecisionsAgree | scripts/import-notion-markdown.js:86-131 | both runs take the same branch unless the dry run plans a site twice |
| NotionDryRun.DryRunTellsExactlyWhenSitesAreDistinct | scripts/import-notion-markdown.js:85-163 | plan, hierarchy, findings and counts agree if and only if the planned sites are distinct |
| Base32.AlphabetIsRfc4648 | src/auth/totp.js:9 | the letters are A-Z, 2-7 in the order of RFC 4648 |
| Base32.PushKeepsTheLowBits | src/auth/totp.js:23 | the bits still needed survive the unmasked 32-bit shift |
| Base32.Base32Encode | src/auth/totp.js:19-33 | the loop yields ceil(8n/5) letters spelling the bits of the bytes, zero padded |
| Base32.Base32Decode | src/auth/totp.js:35-50 | the loop yields the bytes the letters spell, and fails exactly on a letter outside the alphabet |
| Base32.RoundTrip | src/auth/totp.js:18-50 | decoding an encoding gives the bytes back, for every byte sequence |
| Base32.EncodingIsBackExactlyWhenCanonical | src/auth/totp.js:35-50 | encoding a decoding gives the text back if and only if it is canonical |
| Base32.FormattingIsIgnored | src/auth/totp.js:36 | spaces, dashes and padding anywhere do not matter |
| Base32.CaseIsIgnored | src/auth/totp.js:36 | nor does letter case |
| Base32.CleanByCharacter | src/auth/totp.js:36 | exactly white space, padding and dashes are dropped; what upper-cases to letters counts as them |
| Totp.TruncationIsTheLow31Bits | src/auth/totp.js:66-70 | the four bytes read lie inside the digest and give their low 31 bits |
| Totp.CodeIsTheNumber | src/auth/totp.js:71 | exactly `digits` decimal digits reading as the number modulo 10^digits |
| Totp.CodesAgreeExactlyWhenNumbersDo | src/auth/totp.js:71 | two counters share a code if and only if their numbers agree modulo 10^digits |
| Totp.HotpIsTheCode | src/auth/totp.js:62-72 | the code of a counter is the one string of `digits` digits reading as the low 31 bits of its own digest, at the offset of the last nibble, modulo 10^digits |
| Totp.MatchStep | src/auth/totp.js:98-106 | the loop without early exit returns the first step of the window whose code matches |
| Totp.VerifyTotp | src/auth/totp.js:91-107 | malformed codes, invalid secrets; otherwise the first step of the window whose truncated digest the digits read as, and the current step's code is never missed |
| Totp.StepsArePeriods | src/auth/totp.js:75-77 | step c is exactly the c-th period from the epoch |
| Totp.SpacesAreIgnored | src/auth/totp.js:94 | white space typed into a code does not matter |
| Totp.TextAndBytesAreOneKey | src/auth/totp.js:57-59 | a base32 secret verifies the codes of the bytes it encodes |
| Totp.WindowInTime | src/auth/totp.js:75-77 | which moments a step of the window can belong to |
| CanonicalUrl.CharactersOfRfc3986 | src/config/http.js:22-24 | hexadecimal digits, their values and case, and the unreserved characters are those of RFC 3986 |
| CanonicalUrl.ReplacedParses | src/config/http.js:49-52 | replacing normalizes each token of a well-formed path: no escape assembled, none lost |
| CanonicalUrl.ReplacedAgain | src/config/http.js:49-52 | a canonical path is well formed and stays as it is |
| CanonicalUrl.DecodedPathIsKept | src/config/http.js:30-36 | the percent-decoded path is preserved |
| CanonicalUrl.NoUnreservedEscapeIsLeft | src/config/http.js:49-52 | no escaped unreserved character is left |
| CanonicalUrl.CanonicalExactlyWhenEquivalent | src/config/http.js:30-36 | two well-formed paths share a canonical form if and only if they are equivalent under sections 6.2.2.1 and 6.2.2.2 of RFC 3986 |
| CanonicalUrl.OnlyTheWellFormedPathChanges | src/config/http.js:41-54 | below the target only a well-formed path changes; the query is exact |
| CanonicalUrl.IdempotentExactlyWhenNotAbsolute | src/config/http.js:41-54 | a second pass changes exactly the results in absolute form |
| CanonicalScheme.AbsoluteExactlyWhenSpelled | src/config/http.js:43-54 | a result is in absolute form exactly when the URL spells one with an escaped scheme |
| CanonicalScheme.UnreservedText | src/config/http.js:49-52 | a well-formed path is replaced by an unreserved text exactly when it stands for it |
| CanonicalScheme.IdempotentExactlyWhen | src/config/http.js:41-54 | idempotent if and only if the URL is origin-form, absolute-form, or spells no absolute form |
| CanonicalUrl.RequestTargetsAreIdempotent | src/config/http.js:43 | idempotent on every origin-form and absolute-form target |
| CanonicalUrl.EscapedSchemeIsNotIdempotent | src/config/http.js:43 | the escaped scheme that loses its host on the second pass |
| CanonicalUrl.LetterAndSlash | src/config/http.js:41-54 | an escaped letter is decoded, an escaped slash upper-cased, any query kept |
| CanonicalUrl.RequestPathExactly | src/config/http.js:63-73 | the route of a matched request; otherwise the canonical path up to the query or fragment |
| CanonicalUrl.RequestPathIsAPath | src/config/http.js:63-73 | the path decided on starts with a slash and, off the routes, has no query or fragment |
| CanonicalUrl.EquivalentSpellingsDecideAlike | src/config/http.js:63-73 | equivalent spellings of a path, with any query, are decided alike |
| Pagination.SelectContinues | src/integrations/workspace-tools.js:56-59 | selecting after a row's id gives exactly what follows it |
| Pagination.PageIsTheNextRows | src/integrations/workspace-tools.js:56-61 | a page is the next rows and has a cursor exactly when more follow |
| Pagination.FollowingShowsEveryRowOnce | src/integrations/workspace-tools.js:49-65 | following the cursor ends and shows every matching row once in id order |
| Pagination.NoRowIsShownTwice | src/integrations/workspace-tools.js:56-61 | whatever changes between pages, ids strictly increase |
| Pagination.RowsThereThroughoutAreShown | src/integrations/workspace-tools.js:56-61 | a row there throughout is shown by the time the cursor ends |
| Pagination.OnlyMatchingRowsAreShown | src/integrations/workspace-tools.js:56-61 | nothing is shown that did not match when its page was read |

## Left out

- Escalation.ThreadStore.CheckThread: takes the active administrators as a parameter and returns the notifications; subjects, messages, live delivery and the sweep's counters (`checkAllEscalations`) are not modelled.
- SecondFactor.UserAccount.VerifySecondFactor: takes the matched TOTP step as an input (`Totp` proves how it is found); decrypting the secret is not modelled.
- AttemptBudget.EvaluationRate: needs requests that lock within 15 minutes of reserving, because the bound is false of slower ones.
- McpOAuth.Provider.ExchangeAuthorizationCode: PKCE, redirect and account checks are one boolean each time they are made; the five-key limit is part of the second one.
- McpOAuth.Provider.RotateKey: the account check repeated in its transaction is a boolean of the exchange that calls it.
- McpOAuth.Provider.ExchangeRefreshToken: the resource and account checks are booleans.
- McpOAuthSingleUse.TokensAreSingleUse: says nothing of consent tickets, which `preview` rewrites.
- McpOAuthExpiry.VerificationIsInTime: all requests read one clock that never runs backwards; clocks that differ between servers are not modelled.
- McpOAuthRevocation.RevocationIsFinal: `revokeToken` finds its key in one step and revokes in another; its separate reads are not separate steps.
- AgentRun.RunStore.ProcessRun: covers runs without a source channel; the source-channel settlement (`src/services/workspace-account-manager.service.js`) is not part of this model.
- AgentRunRuns.OutcomesTellTheTruth: an aborted provider call is an attempt; whether the upstream service finished it is not observable.
- AiGovernance.CostIsWithinHalfAUnit: computes over real numbers; the rounding of binary floating point is not modelled.
- AiGovernance.CostIsMonotone: computes over real numbers too.
- AiBudget.UsageLedger.RecordUsage: a failed write, which the source logs and ignores, is not modelled.
- AiBudget.UsageLedger.AssertWithinBudget: the throttled audit event of a refusal is not modelled.
- AiBudget.OverspendIsBounded: fixes month and budget and has every usage write succeed; month rollover, budget edits, failed usage writes and the alert are not modelled.
- BreakGlassRuns.RacingRedemptionsNeverBothPromote: administrators change by redemption, deactivation and demotion; an administrator activated by another route between a check and its commit is not modelled.
- BreakGlass.Recovery.IssueGrant: the feature flag, the reason and the operator's account are not modelled.
- BreakGlass.Recovery.RevokeGrant: the operator's account is not modelled.
- BreakGlass.Recovery.RedeemGrant: the token is already resolved to its grant; the password, API keys, impersonation sessions and notifications are not modelled.
- RecurringInvoices.InvoiceTable.Process: a copy is the id of its source; invoice numbers, totals and the final thrown error are not modelled.
- CodeReplay.CodesAreSingleUse: steps are told apart per secret, so a step accepted under a removed secret says nothing about the next one.
- RecurringRace.NeverMoreCopiesThanBoundaries: no other writer moves the next date; edits of a source's date or interval are not modelled.
- BonsaiDomains.ClientImport.ImportAll: a row has one contact email; row errors, tiers, addresses and counters, and the project, invoice and time-entry loops, are not modelled.
- NotionImport.Importer.Run: pages come planned and hashed; reading files, the report file and note contents are not modelled.
- Base32.Base32Decode: upper-casing follows Unicode exactly for the characters that become letters of the alphabet; any other character is left as it is, which is refused all the same.
- Totp.VerifyTotp: needs `digits` of at least 1, as the constant-time comparison demands; timing itself is not modelled.
- CanonicalUrl.RequestPathIsAPath: a URL is a string; other values are returned as they are and not modelled.
- Pagination.FollowingShowsEveryRowOnce: ids are integers in the order of the database; the decoration keeps order and ids; authorization and preflight are not modelled.
- Hashes and digests are injective and fresh tokens are new; HMAC is a parameter.
- A single statement, a transaction under its isolation level, an advisory lock and a Redis command are atomic; the databases themselves are not modelled.
- Routing, cookies, mail, PDF, seed data, browser automation and the front end.
- Route and role tables and status guards, which would add only easy members.
