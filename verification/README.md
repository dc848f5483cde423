# A verified model of the email scheduler

The scheduler sends campaigns of emails through SMTP at planned times. MySQL rows are the source of
truth, a BullMQ queue wakes workers, and a Redis script limits the rate of each sender. This project
models its core in Dafny and proves what it promises.

`dafny verify dfyconfig.toml` checks everything.

## What is modelled

- **The job ledger as a concurrent protocol** (`Schema`, `Ledger*`, `EmailProcessor`,
  `CampaignCancel`). Any number of worker runs, cancellations and stale-failing passes act on shared
  rows. One action is one database statement, one transaction, one Lua script or one SMTP conversation,
  and actions interleave in any order. A run may start at any time on any job id, so duplicate
  deliveries, stalled re-runs and retries are covered whatever the queue holds; it may crash, or its next
  statement may throw, at every point. `Ledger` gives the protocol, the other `Ledger*` modules prove its
  invariants over all runs, and `EmailProcessor` and `CampaignCancel` run the worker and a cancellation
  statement by statement on mutable stores, with any actions of other actors between any two statements,
  and show that each execution is a run of the protocol.
- **The rate limiter** (`Redis`, `RateLimiter`, `Limiter*`, `Calendar`). The Lua script over two
  expiring keys is compared with a limiter that remembers every allowed send, first with one clock and
  then with clocks that differ. `Calendar` shows that the names of the hourly counters tell UTC hours apart.
- **The planner** (`Planner`, `PlanMeetsLimiter`). The closed formula is the least schedule under both
  constraints, and what it plans the limiter allows.
- **Cursor pages** (`Ordering`, `Pagination`, `LedgerPages`), of tables that stand still and of tables that
  workers, cancellations and creations change between pages.
- **Loops with a simple specification** (`EmailQueue`, `Reconciler`, `CampaignService`, `Idempotency`).
  Chunked enqueueing, the boot-time scan, recipient deduplication with round-robin senders, and replayed
  creation requests. `Sets` has set sizes.

## Assumptions

- Every single SQL statement, every transaction and the Lua script is atomic; adding a queue job whose
  key exists does nothing.
- `sendEmail` throwing means that the message was not accepted.
- The `try` block of the worker also covers the write of SENT and the campaign update, so a database
  error after SMTP acceptance enters the `catch` block. The protocol has these throws, also from a write
  that commits and then reports an error. One of them is harmful to sending: the write of SENT throws
  while the row is PROCESSING and attempts are left (`Hazard`). `HazardIsExact` shows that exactly this
  makes a second acceptance possible, and `LateThrowSendsTwice` gives a run with two. The results on
  single sends, final statuses and answers are over hazard-free runs.
- Of the other late throws the results say exactly what they do, and exclude none: a SENT row is lost
  if and only if the `catch` block of a run on its last attempt writes FAILED over it (`LateCatch`,
  `SentIsFinalExactly`), "failed" is the answer for an accepted message if and only if a statement after
  the acceptance threw (`LateThrow`, `OutcomesAreTrue`), and a COMPLETED campaign has a failed job if and
  only if a `LateCatch` hit one (`CompletedCampaignsAreSentExactly`); each has a reachable case. The hourly
  cap, the absence of pending jobs in a finished campaign, and the results on stranded campaigns need no
  assumption on throws at all.
- A throw of the limiter call is outside the `try`; like a crash, it leaves the row PROCESSING.
- The order of the gates is the code's: load, claim, rate check, send. The repository's own README
  (lines 13-18) describes another order.
- Sender caps do not change while the system runs, and rows are not deleted.
- Redis's clock does not go back. A key can still be read in the millisecond in which it expires, so the
  tolerated spread of clock skews is 5001 ms, one more than the 5 second buffer; 5002 ms break the cap.
- Row and campaign ids are integers in the order in which the database sorts them.
- Times that name an hour are valid, non-negative JavaScript dates (at most 8.64e15 ms). Beyond that
  every hour has the same name; `SameBucketIffSameHour` states exactly when names agree.

Where the code and its comments differ, the model follows the code: `createCampaign` accepts any active
sender, not only the caller's (backend/src/services/campaignService.ts:82-96); a cancelled campaign's
status can be overwritten by a run that was in flight (`CancelledStatusStep`, `CancelledStatusIsOverwritten`);
and a row that was failed as stale under a slow worker can still be sent after a cancellation, so "only
PROCESSING rows can be sent after a cancel" is false, and `AfterCancelOnlyHeldRowsAreSent` and
`FailedRowIsSentAfterCancel` give the exact condition and a case. A campaign can be left open for good
although all its jobs have finished; `LedgerStranding` says exactly when. The list of all jobs drops its
search text from the second page on, because in the query the cursor's key `OR` replaces the search's
(backend/src/services/campaignService.ts:497-550); `ListAllJobsIsComplete` says exactly when that shows,
and `SearchIsDropped` gives a case.

## Model

| member | source | states |
|---|---|---|
| Ledger.WorkHasEffect | backend/src/queue/emailProcessor.ts:81-236 | Each statement of a worker run moves only its own run, writes only its own row and only its own campaign, accepts mail only at the send and touches Redis only at the rate check. |
| LedgerSafety.WorkKeepsInv | backend/src/queue/emailProcessor.ts:89-236 | Every worker statement keeps the invariant: one live holder per row, a held row is PROCESSING or FAILED, each row accepted at most once, SENT rows were accepted, accepted rows are never SCHEDULED or CANCELLED. |
| LedgerSafety.NextKeepsInv | backend/src/queue/reconciler.ts:53-68 | So does every other action, a stale-failing pass, a creation, a cancellation, a crash or a throw, other than the hazard. |
| LedgerSafety.RunKeepsInv | backend/src/queue/emailProcessor.ts:81-236 | The invariant holds in every state of every hazard-free interleaving. |
| LedgerSafety.OneHolderPerRow | backend/src/queue/emailProcessor.ts:111-144 | Two runs never hold the same row at once, although the roll-back guards test no owner, and a held row is PROCESSING or FAILED. |
| LedgerSafety.AtMostOneAcceptance | backend/src/queue/emailProcessor.ts:112-206 | Over every interleaving of workers, duplicate runs, cancellations, stale-failing passes, crashes and throws other than the hazard, SMTP accepts each row at most once. |
| LedgerReach.CanBeSentIffSendable | backend/src/queue/emailProcessor.ts:111-195 | A row can still be accepted in some continuation if and only if it is SCHEDULED or a run holds it with a way to a first send. |
| LedgerReach.HazardIsExact | backend/src/queue/emailProcessor.ts:147-195 | From a reachable state, one more action makes a second acceptance of some row possible if and only if that action is a throw of the SENT write with the row still PROCESSING and attempts left. |
| LedgerReach.LateThrowSendsTwice | backend/src/queue/emailProcessor.ts:166-194 | There is a run in which one row is accepted twice, so the assumption on the SENT write is needed. |
| LedgerReach.AfterCancelOnlyHeldRowsAreSent | backend/src/services/campaignService.ts:677-683 | After a cancellation commits, a row of the campaign can reach SMTP if and only if a run held it at that moment and may still send; such a row was PROCESSING or FAILED. |
| LedgerReach.FailedRowIsSentAfterCancel | backend/src/services/campaignService.ts:672-683 | A reachable case of the second kind: a row failed as stale under a slow worker is still sent after the cancellation. |
| LedgerOutcomes.StepOnRow | backend/src/queue/emailProcessor.ts:112-206 | Any one step leaves a CANCELLED row alone, takes a SENT row only to FAILED and only by a late `catch`, a FAILED row only to SENT and only by the run that holds it, and never changes a job's campaign, sender, position, due time or, once set, time of sending. |
| LedgerOutcomes.SentIsFinalExactly | backend/src/queue/emailProcessor.ts:165-202 | Over any hazard-free run a SENT row stays SENT if and only if no late `catch` writes FAILED over it. |
| LedgerOutcomes.CancelledIsFinal | backend/src/services/campaignService.ts:677-683 | CANCELLED rows stay CANCELLED in every hazard-free run, even when statements after acceptance throw. |
| LedgerOutcomes.SentIsLostExactly | backend/src/queue/emailProcessor.ts:199-202 | The one step that takes a row out of SENT is the unguarded FAILED write of a run that had written SENT, on its last attempt. |
| LedgerOutcomes.LateThrowUnsendsARow | backend/src/queue/emailProcessor.ts:166-202 | A reachable case: a SENT row becomes FAILED when the statement after the SENT write throws. |
| LedgerOutcomes.FailedChangesOnlyThroughItsHolder | backend/src/queue/emailProcessor.ts:166-202 | Over any hazard-free run a FAILED row stays FAILED or ends SENT, the latter only if some run already held it. |
| LedgerOutcomes.TerminalIsForever | backend/src/queue/emailProcessor.ts:133-202 | No SENT, FAILED or CANCELLED row becomes SCHEDULED or PROCESSING again, whatever throws or crashes. |
| LedgerAnswers.OutcomesAreTrue | backend/src/queue/emailProcessor.ts:147-206 | Over any hazard-free run, a run that answered "sent" has a SENT row accepted exactly once; one that answered "failed" has a FAILED row, accepted once if a statement after the acceptance threw in that run, and never otherwise. |
| LedgerAnswers.AcceptedMessageIsReportedFailed | backend/src/queue/emailProcessor.ts:166-205 | A reachable case: the SENT write throws on the last attempt, and an accepted message is answered "failed". |
| LedgerOutcomes.SentRowsStayStamped | backend/src/queue/emailProcessor.ts:166-175 | In every run a SENT row carries the time it was sent. |
| LedgerOutcomes.JobsAreKept | backend/src/queue/emailProcessor.ts:112-202 | Over any hazard-free run no job disappears or changes its campaign, sender, position or due time, and a time of sending, once written, is never written again. |
| LedgerRows.ClaimStep | backend/src/queue/emailProcessor.ts:112-115 | A row is taken to PROCESSING only from SCHEDULED and by its own run's statement, which stamps that statement's clock reading and counts one attempt; no other step counts an attempt or changes the stamp, except that a row made SCHEDULED again loses it. |
| LedgerRows.ProcessingRowsAreStamped | backend/src/queue/reconciler.ts:57-60 | In every reachable state a PROCESSING row carries the instant of a claim, so the clause for unstamped rows never applies. |
| LedgerRows.ClaimedRowGoesStale | backend/src/queue/reconciler.ts:53-64 | A row claimed at some instant and neither released nor finished since is failed by a stale-failing pass if and only if that instant is before the pass's cutoff. |
| LedgerRows.AttemptsCountClaims | backend/src/queue/emailProcessor.ts:112-115 | Over any run the attempts recorded on a row grow by exactly the number of times it was claimed. |
| LedgerRows.SentAtIsItsWrite | backend/src/queue/emailProcessor.ts:166-175 | Over any hazard-free run the time of sending is the clock reading of the statement that made the row SENT. |
| LedgerRows.PassFailsTheStale | backend/src/queue/reconciler.ts:53-64 | A stale-failing pass changes exactly the PROCESSING rows that are unstamped or stamped before the cutoff, and of them only the status. |
| LedgerRows.CancelTakesTheScheduled | backend/src/services/campaignService.ts:677-683 | The cancelling transaction changes exactly the SCHEDULED rows of its campaign, and of them only the status, and the campaign. |
| LedgerRows.CancelStartsOnOpenCampaigns | backend/src/services/campaignService.ts:658-668 | A cancellation goes on to its transaction only if it found the campaign SCHEDULED or PROCESSING. |
| LedgerCampaigns.RunKeepsVerdictInv | backend/src/queue/emailProcessor.ts:214-236 | What a run has counted about its campaign is still true when it writes the status, although others write in between: the pending count in every run, the failed count for every campaign that no late `catch` hits. |
| LedgerCampaigns.FinishedCampaignsHaveNonePending | backend/src/queue/emailProcessor.ts:214-236 | In every reachable state, whatever throws, crashes or hazards led to it, a COMPLETED or PARTIALLY_FAILED campaign has no SCHEDULED or PROCESSING job. |
| LedgerVerdicts.FinishedStatusHasFitted | backend/src/queue/emailProcessor.ts:229-235 | In every run, whatever throws or crashes, a COMPLETED or PARTIALLY_FAILED campaign had at some moment no job SCHEDULED or PROCESSING, and at that moment a job FAILED if and only if it is PARTIALLY_FAILED. |
| LedgerVerdicts.AnsweredCampaignsAreUnderWay | backend/src/queue/emailProcessor.ts:219-227 | In every run, once a worker has answered "sent" or "failed", the campaign of its job is no longer SCHEDULED. |
| LedgerCampaigns.SentOrCancelledIsLostExactly | backend/src/queue/emailProcessor.ts:199-202 | When all jobs of a campaign are SENT or CANCELLED, a step ends that if and only if it is a late `catch` on one of them. |
| LedgerCampaigns.CompletedCampaignsAreSentExactly | backend/src/queue/emailProcessor.ts:229-235 | After any hazard-free run, the jobs of a COMPLETED campaign are all SENT or CANCELLED if and only if no late `catch` has hit one of them. |
| LedgerCampaigns.CompletedCampaignHasFailedJob | backend/src/queue/emailProcessor.ts:176-205 | A reachable case otherwise: the status write commits and then throws, the `catch` block fails the job, and the worker dies. |
| LedgerCampaigns.CancelledStatusStep | backend/src/queue/emailProcessor.ts:232-235 | A step takes a campaign out of CANCELLED if and only if it is the status write of a run that had counted the campaign before. |
| LedgerCampaigns.CancelledStatusIsOverwritten | backend/src/queue/emailProcessor.ts:232-235 | A reachable case: a cancelled campaign becomes COMPLETED. |
| LedgerProgress.RunKeepsProgressInv | backend/src/queue/emailProcessor.ts:214-236 | Whenever nothing of a campaign is pending, it is finished or some run has still to count it. |
| LedgerProgress.QuietCampaignsAreFinished | backend/src/queue/emailProcessor.ts:214-236 | If no run stops while finalising and no pass fails a stale row, then once no run is in flight and no job is SCHEDULED or PROCESSING, the campaign is COMPLETED, PARTIALLY_FAILED or CANCELLED. |
| LedgerStranding.CanCloseIffSomeCloser | backend/src/queue/emailProcessor.ts:123-236 | An unfinished campaign with nothing pending can still be finished without a cancellation if and only if some run of it is at the rate check, the send, the SENT write, a count or the status write, or in the `catch` block on its last attempt (or, if statements may throw, at the PROCESSING mark or the return after a send on its last attempt). |
| LedgerStranding.StrandedForGood | backend/src/queue/emailProcessor.ts:214-236 | Without such a run it stays unfinished over every continuation that does not cancel it. |
| LedgerStranding.QuietMeansFinishedOrStranded | backend/src/queue/emailProcessor.ts:214-236 | In every run, once no run is in flight and nothing of a campaign is pending, it is finished, or nothing but a cancellation will ever finish it. |
| LedgerStranding.StrandingIsExact | backend/src/queue/emailProcessor.ts:123-236 | Which steps strand an open campaign, both ways: its only such run crashes, throws, is denied, is refused with attempts left, or returns, with nothing pending; or a pass fails all that is pending while no such run is left. |
| LedgerStranding.StrandedIffSomeStepStrands | backend/src/queue/emailProcessor.ts:123-236 | Over any run without a cancellation, whatever throws and crashes, an open campaign ends stranded if and only if some step of the run strands it. |
| LedgerStranding.QuietIsUnfinishedIffStranded | backend/src/queue/emailProcessor.ts:214-236 | A quiet campaign is finished if and only if no step stranded it. |
| LedgerStranding.LostFinalizerStrandsCampaign | backend/src/queue/emailProcessor.ts:176-178 | A reachable case: a worker dies between the SENT write and its count, and no continuation without a cancellation finishes the campaign. |
| LedgerStranding.StalePassStrandsCampaign | backend/src/queue/reconciler.ts:53-68 | A reachable case: a pass fails a dead worker's last row, with the same consequence. |
| LedgerLimits.SmtpCallsWithinHourlyCap | backend/src/queue/emailProcessor.ts:123-163 | End to end, over all workers and any interleaving, crashes and throws included, the SMTP calls made for a sender whose limiter decision fell in one UTC hour, accepted, refused or cut off, never exceed the sender's own number, or the default for a sender without one, with clocks within the tolerance. |
| LedgerLimits.AcceptancesAreCalls | backend/src/queue/emailProcessor.ts:147-163 | The acceptances of a run are exactly its accepted SMTP calls, in order. |
| LedgerLimits.AcceptancesWithinHourlyCap | backend/src/queue/emailProcessor.ts:123-163 | Hence a sender's acceptances decided in one UTC hour never exceed its cap. |
| LedgerCalls.EveryCallHasItsOwnAllow | backend/src/queue/emailProcessor.ts:123-163 | Every SMTP call, accepted or not, was permitted by an allow that the limiter made for that very run, sender and instant, at a step where that run held the row; no two calls share a run or an allow. |
| LedgerCalls.CallerHeldAlone | backend/src/queue/emailProcessor.ts:111-144 | In a hazard-free run the caller was the row's only holder when the limiter decided, and the row was PROCESSING or FAILED. |
| EmailProcessor.Backend.LoadRow | backend/src/queue/emailProcessor.ts:89-109 | Gate 1 is a protocol step; it stands down on a missing, CANCELLED or SENT row, with that reason, and on no other. |
| EmailProcessor.Backend.ClaimRow | backend/src/queue/emailProcessor.ts:111-121 | Gate 2 is a protocol step; exactly when the row was SCHEDULED it reports one changed row, now PROCESSING, stamped with the run's own clock reading and with one more attempt. |
| EmailProcessor.Backend.CheckRate | backend/src/queue/emailProcessor.ts:123-129 | Gate 3 is a protocol step at Redis's current time. |
| EmailProcessor.Backend.Defer | backend/src/queue/emailProcessor.ts:130-144 | A denied run gives its claim back, and is done. |
| EmailProcessor.Backend.SendEmail | backend/src/queue/emailProcessor.ts:146-163 | Gate 4 is a protocol step: the acceptance is recorded, or the failure is to be handled. |
| EmailProcessor.Backend.MarkSent | backend/src/queue/emailProcessor.ts:165-175 | The SENT write is a protocol step; it needs no particular status of the row and stamps the run's own clock reading. |
| EmailProcessor.Backend.RecordFailure | backend/src/queue/emailProcessor.ts:179-202 | The `catch` block, whatever threw, is a protocol step: roll-back with attempts left, FAILED on the last one. |
| EmailProcessor.Backend.MaybeFinalizeCampaign | backend/src/queue/emailProcessor.ts:176-178 | Count, then mark or classify and write, then return, with others between the statements, is a run of the protocol; after a send a throw anywhere in it leads to the `catch` block, and in the `catch` block out of the run. |
| EmailProcessor.Backend.Meet | backend/src/queue/emailProcessor.ts:81-207 | A statement that throws leads where the code goes, into the `catch` block or out of the run, and a death of the worker ends the run where it is; both are steps of the protocol. |
| EmailProcessor.ThrowOutIsCrash | backend/src/queue/emailProcessor.ts:123-129 | A throw outside the `try`, such as the limiter's, has the effect of a crash: the row is left as it is. |
| EmailProcessor.Backend.ProcessEmailJob | backend/src/queue/emailProcessor.ts:81-207 | A whole delivery, with any actions of others between its statements and any of its statements throwing or killing its worker, is a run of the protocol. "sent" is answered only for an accepted message, "failed" only on the last attempt and for an accepted message only after a throw, a skipped or deferred run sent nothing, and without faults it throws only with attempts left. If no hazard occurs, "sent" means SENT and accepted exactly once, "failed" means FAILED, accepted once or never as the SMTP server answered, and the row carries the run's own readings of the clock: a row it claimed and left PROCESSING is failed by a pass if and only if that reading is before the cutoff. |
| EmailProcessor.DoneMeansOutcome | backend/src/queue/emailProcessor.ts:63-66 | With the invariant of hazard-free runs, what the answer of a finished run says is true of the stores, whatever the others did. |
| CampaignCancel.CheckStatus | backend/src/services/campaignService.ts:658-668 | Somebody else's, a missing or a finished campaign is refused, a cancelled one is left alone, and only an open one goes on to the transaction. |
| CampaignCancel.FindScheduled | backend/src/services/campaignService.ts:672-675 | The ids read are exactly the campaign's SCHEDULED jobs, each once. |
| CampaignCancel.Commit | backend/src/services/campaignService.ts:677-683 | The transaction on jobs and campaign is one protocol step. |
| CampaignCancel.CancelCampaign | backend/src/services/campaignService.ts:654-688 | A whole cancellation, with any actions of others before its read and before its commit, takes exactly its two steps of the protocol; the reply follows from ownership and status; when it commits, exactly the campaign's SCHEDULED rows and the campaign become CANCELLED; the count and the queue jobs removed are those of the rows SCHEDULED at the read, locked jobs apart; any other reply changes nothing. |
| RateLimiter.RateLimitScript | backend/src/queue/rateLimiter.ts:46-80 | The script, run command by command, leaves the keys and the reply of the specification, and a denial changes no key. |
| RateLimiter.CheckSenderRateLimit | backend/src/queue/rateLimiter.ts:122-142 | The call names the sender's keys and the current hour's counter, and allows exactly when the gap marker is gone or old enough and the counter is below the sender's own number, or the default for a sender without one. |
| RateLimiter.SameCounterIffSameHour | backend/src/queue/rateLimiter.ts:129-130 | Two calls share a counter exactly when they have the same sender and UTC hour, whatever characters a sender id holds. |
| RateLimiter.GapNamesDiffer | backend/src/queue/rateLimiter.ts:129-130 | Gap markers differ between senders and never collide with a counter. |
| Calendar.DayFromYearFormula | backend/src/queue/rateLimiter.ts:105-110 | Counting days year by year with the Gregorian leap rule gives the closed formula of section 21.4.1 of ECMA-262. |
| Calendar.BucketRoundTrip | backend/src/queue/rateLimiter.ts:105-110 | The number of the hour can be read back from its bucket string. |
| Calendar.SameBucketIffSameHour | backend/src/queue/rateLimiter.ts:105-110 | Two non-negative instants get the same bucket exactly when they fall in the same hour, or are both past the last valid date. |
| Calendar.HourBucketIsFaithful | backend/src/queue/rateLimiter.ts:105-110 | Bucket names tell valid hours apart and contain no colon. |
| LimiterTheory.TtlCoversHour | backend/src/queue/rateLimiter.ts:112-116 | A counter set to expire at `now` lives to between 5 and 6 seconds past the end of the hour. |
| LimiterTheory.CheckKeepsCounters | backend/src/queue/rateLimiter.ts:65-79 | Every call keeps each hourly counter equal to the number of allows in that sender's hour, alive until after the hour for every tolerated clock. |
| LimiterTheory.CapSurvivesSkew | backend/src/queue/rateLimiter.ts:73-75 | If the differences between Redis's clock and the callers' clocks spread over at most 5001 ms, no hour of any sender sees more allows than the sender's own number, or the default for a sender without one. |
| LimiterTheory.SkewedCallsBreakCap | backend/src/queue/rateLimiter.ts:112-116 | Two calls whose skews differ by 5002 ms exceed a cap of one. |
| LimiterTheory.SkewToleranceIsExact | backend/src/queue/rateLimiter.ts:73-75 | The cap holds for every policy and every run of calls with that spread if and only if the spread is at most 5001 ms. |
| LimiterRefinement.CallRefines | backend/src/queue/rateLimiter.ts:54-79 | One call agrees with the full-history limiter and keeps keys and history coupled. |
| LimiterRefinement.ExpiringKeysRefineHistory | backend/src/queue/rateLimiter.ts:46-80 | On one non-decreasing clock, over any mix of senders, the script allows exactly when no earlier allow of the sender is closer than the gap and its cap is not used up in the UTC hour. |
| LimiterRefinement.DecisionsAreExact | backend/src/queue/rateLimiter.ts:46-80 | The same from the calls alone: on one clock a call is allowed exactly when no earlier call allowed for its sender is closer than the gap, and fewer of those fall in its UTC hour than the sender's own number, or the default for a sender without one. |
| LimiterRefinement.GapRetryIsExact | backend/src/queue/rateLimiter.ts:55-63 | A gap denial names the first instant at which the gap is over. |
| LimiterRefinement.HourlyRetryLands | backend/src/queue/rateLimiter.ts:65-71 | An hourly denial's retry lands at least 5 s and less than 6 s after the next UTC hour begins. |
| LimiterRefinement.HourlyRetryIsTheExpiry | backend/src/queue/rateLimiter.ts:66-70 | An hourly refusal's retry is exactly the instant at which the counter expires, so all refusals of one hour name the same one; without a counter it is reckoned from the call. |
| LimiterRefinement.AtMostTwoDeferrals | backend/src/queue/emailProcessor.ts:130-144 | With a positive cap and no other allow of the sender in between, a job retried no sooner than told is deferred at most twice. |
| Planner.PlanIsSpaced | backend/src/lib/planner.ts:59-66 | Consecutive planned emails are at least `delayMs` apart. |
| Planner.PlanSkipsAnHour | backend/src/lib/planner.ts:59-66 | Position n + hourlyLimit is at least one hour after position n. |
| Planner.PlanIsCapped | backend/src/lib/planner.ts:59-66 | Every half-open hour, wherever it begins, holds at most `hourlyLimit` planned emails. |
| Planner.PlanIsLeast | backend/src/lib/planner.ts:59-66 | Any schedule with that start, spacing and cap is at or after the plan at every position. |
| Planner.PlanIsLeastSchedule | backend/src/lib/planner.ts:4-24 | The plan is itself such a schedule, hence the least one. |
| Planner.PlanSendTimeMeaning | backend/src/lib/planner.ts:44-67 | The formula answers exactly when the arguments are not negative and some schedule reaches that position, with the earliest time any schedule can give it; otherwise the error names the first bad argument. |
| PlanMeetsLimiter.RivalsFit | backend/src/queue/rateLimiter.ts:65-71 | Of the jobs dealt round-robin to distinct senders, an hour apart every `hourlyLimit` positions, no more fall to one sender in one UTC hour than its cap, if that is at least its rounded-up share. |
| PlanMeetsLimiter.FittingJobsAreAllowed | backend/src/queue/rateLimiter.ts:54-71 | Such jobs, also a gap apart, are all allowed in any run of calls on one clock in which their senders make no other calls; other senders' calls may come anywhere, and jobs due in the same millisecond in any order. |
| PlanMeetsLimiter.PlannedJobsAreNeverDenied | backend/src/services/campaignService.ts:117-127 | A campaign alone on its senders whose jobs fire exactly when planned is never denied, whatever other campaigns send through other senders. |
| CampaignService.CreatedCampaignIsNeverDenied | backend/src/services/campaignService.ts:113-127 | The same for the rows that a creation request commits, with the operator's floors and ceilings applied. |
| CampaignService.FirstOccurrencesMeaning | backend/src/services/campaignService.ts:103-111 | Deduplication keeps exactly the first item of every key, in input order. |
| CampaignService.RowsFollowRecipients | backend/src/services/campaignService.ts:103-127 | Each row is for the first recipient with its cleaned address and carries the cleaned name, or none when it is empty; rows are in request order and numbered 0 to n-1, no address comes twice and none is lost. |
| CampaignService.RowsAreTheLeastSchedule | backend/src/services/campaignService.ts:113-145 | The committed times are the least schedule under the tighter of the campaign's own and the operator's delay and hourly limit, and these two are stored with the campaign. |
| CampaignService.SharesAreEven | backend/src/services/campaignService.ts:122 | Of n rows dealt to k distinct senders, each gets n / k, and the first n mod k one more. |
| CampaignService.SendersDifferByAtMostOne | backend/src/services/campaignService.ts:121-127 | No sender of a created campaign gets two rows more than another. |
| CampaignService.Database.FindByIdempotencyKey | backend/src/services/campaignService.ts:198-213 | It finds a campaign of that user and key, and says none only when there is none. |
| CampaignService.Database.CollectContacts | backend/src/services/campaignService.ts:103-111 | The loop over a `seen` set computes the first occurrences. |
| CampaignService.Database.InsertRows | backend/src/services/campaignService.ts:148-154 | The chunked inserts add up to all rows, in order. |
| CampaignService.Database.Insert | backend/src/services/campaignService.ts:129-158 | The transaction adds one campaign with all its rows, or, exactly when the user's key is taken, nothing. |
| CampaignService.Database.CheckRequest | backend/src/services/campaignService.ts:77-96 | A known key is answered with its campaign; otherwise the request is refused if and only if some requested sender is not active, with exactly those, each once and in request order. |
| CampaignService.UnknownAreTheInactive | backend/src/services/campaignService.ts:83-96 | The ids reported are exactly the requested ids that are not active, each once, in request order. |
| CampaignService.Database.Transact | backend/src/services/campaignService.ts:129-182 | A failed transaction leaves nothing; after a unique violation the winner is returned; after a commit every row gets a queue job, or, if enqueueing fails part-way, the first ones do. |
| CampaignService.Database.CreateCampaign | backend/src/services/campaignService.ts:69-196 | One call with other calls' transactions between its checks and its own, which may fail, and enqueueing that may fail part-way: a known key, or one taken meanwhile, returns that campaign and changes nothing; without an earlier campaign of its key it is refused for its senders if and only if a requested one is not active, with exactly those in request order; otherwise exactly one campaign with all its rows, each from an active sender, is added to what the transaction finds, and every row, or if enqueueing fails a prefix of them, has a queue job, which if new fires when the row is due. |
| CampaignService.EnqueueingIsCompleted | backend/src/services/campaignService.ts:170-182 | After enqueueing failed part-way, enqueueing the same rows again gives each its queue job and leaves those added untouched. |
| CampaignService.LookupIsStep | backend/src/services/campaignService.ts:77-80 | Both lookups of a key, as the methods make them, are steps of the protocol of concurrent calls. |
| CampaignService.InsertIsStep | backend/src/services/campaignService.ts:129-167 | The transaction, as the method makes it, is the commit step of that protocol: one more campaign, or the unique violation. |
| Idempotency.RunKeepsInv | backend/src/services/campaignService.ts:69-196 | Over every interleaving of creation calls with failures, keys stay unique, row sets match campaigns one to one, and no two calls committed the same campaign. |
| Idempotency.OneCampaignPerKey | backend/src/services/campaignService.ts:77-167 | For one user and key at most one campaign and one set of rows is ever committed, every returning call returns its id, and at most one reports that it was not a duplicate. |
| Idempotency.LoserFindsWinner | backend/src/services/campaignService.ts:159-167 | A call that lost the race always finds the winner; the unique violation never surfaces. |
| EmailQueue.AddedAllKeys | backend/src/queue/emailQueue.ts:51-58 | Enqueueing leaves existing jobs untouched and adds exactly the planned keys. |
| EmailQueue.NewJobDelay | backend/src/queue/emailQueue.ts:71-73 | A new job fires at its scheduled time, or at once when that is past. |
| EmailQueue.EnqueuedFires | backend/src/queue/emailQueue.ts:51-78 | After an enqueueing existing jobs are as before, every planned key is there and no other is new, and each new one fires at its scheduled time, or at once when that is past. |
| EmailQueue.EnqueueIsRepeatable | backend/src/queue/emailQueue.ts:50-58 | Enqueueing again after a crash part-way gives the keys of one complete enqueue and leaves what was added untouched. |
| EmailQueue.Queue.EnqueueEmailJobs | backend/src/queue/emailQueue.ts:59-78 | The chunks add up to the whole list, with the firing times above. |
| EmailQueue.Queue.RemoveEmailJobs | backend/src/queue/emailQueue.ts:91-99 | Exactly the named jobs that are not locked are removed. |
| Reconciler.PassFailsExactlyTheStale | backend/src/queue/reconciler.ts:53-68 | A pass fails exactly the PROCESSING rows that were claimed more than the threshold ago or never stamped, and changes nothing else in the table. |
| Reconciler.PassLeavesNoneMissing | backend/src/queue/reconciler.ts:74-120 | Afterwards every SCHEDULED row has a job key, existing keys keep their delays, no other key appears, and the report counts exactly the rows that lacked one. |
| Reconciler.PassEnqueues | backend/src/queue/reconciler.ts:74-120 | The rows enqueued are exactly the SCHEDULED ones without a job key, each firing at its own time or at once when that is past, and the report counts them and the rows scanned. |
| Reconciler.SecondPassIsIdle | backend/src/queue/reconciler.ts:39-46 | A second pass at the same time reports zero for both counts and changes nothing. |
| Reconciler.Store.FailStaleProcessing | backend/src/queue/reconciler.ts:53-68 | The bulk update fails exactly those rows and counts them. |
| Reconciler.Store.FindScheduled | backend/src/queue/reconciler.ts:84-89 | A page holds SCHEDULED ids above the cursor, ascending, with none left out up to its last one, and a short page is the last. |
| Reconciler.Store.FindMissing | backend/src/queue/reconciler.ts:94-106 | The rows to enqueue are those of the page without a job key, in order. |
| Reconciler.Store.RequeueMissingScheduled | backend/src/queue/reconciler.ts:74-120 | The keyset scan terminates, visits each SCHEDULED row once, and enqueues and counts exactly the missing ones. |
| Reconciler.Store.Reconcile | backend/src/queue/reconciler.ts:39-46 | The whole pass: a PROCESSING row fails if and only if it was claimed more than the threshold ago or never stamped, every other row is unchanged, each SCHEDULED row without a job key gets one that fires at the row's time or at once when that is past, existing jobs stay, and the report counts exactly the rows scanned, enqueued and failed. |
| Pagination.PageThenRest | backend/src/services/campaignService.ts:322-363 | A page is the first `limit` rows beyond the cursor, and the next page continues exactly after it. |
| Pagination.FollowIsComplete | backend/src/services/campaignService.ts:348-363 | Following `nextCursor` to null yields exactly the rows beyond the first cursor, in order, each once. |
| Pagination.ListCampaignsIsComplete | backend/src/services/campaignService.ts:318-364 | A client sees each of the user's campaigns once, newest first, and no one else's. |
| Pagination.GetCampaignJobsIsComplete | backend/src/services/campaignService.ts:416-455 | A job of the campaign is listed if and only if it has the wanted status, or no status is wanted; each once, in send order, and no other job. |
| Pagination.LaterPagesDropTheSearch | backend/src/services/campaignService.ts:497-550 | Once the cursor resolves, its condition replaces that of the search, and the client walks the view of its status tab without the search. |
| Pagination.ListAllJobsShowsExactly | backend/src/services/campaignService.ts:493-604 | Each job is shown at most once, by schedule or last sent first on the SENT tab; shown are exactly the jobs of the view that match the search or lie beyond the first page. |
| Pagination.ListAllJobsIsComplete | backend/src/services/campaignService.ts:493-604 | The walk yields exactly the jobs that match tab and search, in order, if and only if every job of the view beyond the first page matches the search. |
| Pagination.WithoutSearchNothingIsMissed | backend/src/services/campaignService.ts:493-604 | Without a search the walk always yields exactly the jobs of the view. |
| Pagination.SearchIsDropped | backend/src/services/campaignService.ts:497-550 | A case: of three jobs the search matches the first and the last, and with pages of one the second page shows the other. |
| Pagination.ForeignCursorStartsOver | backend/src/services/campaignService.ts:318-329 | In all three lists a cursor that is no row of the caller's gives the first page. |
| Pagination.SentTabBeyondUnsentRow | backend/src/services/campaignService.ts:516-543 | On the SENT tab a cursor at a row that was never sent gives the first of the user's SENT jobs due after that row, last sent first. |
| Pagination.ChangingWalkNeverRepeats | backend/src/services/campaignService.ts:423-454 | If statuses change between pages, no row is listed twice. |
| Pagination.ChangingWalkMissesNothing | backend/src/services/campaignService.ts:423-454 | A row that matches the filter throughout is listed by a walk that reaches the end. |
| Pagination.ChangingJobsAreListedOnce | backend/src/services/campaignService.ts:416-455 | Both, for the job table of a campaign whose rows change status between pages. |
| Pagination.ChangingAllJobsAreListedOnce | backend/src/services/campaignService.ts:493-604 | In every view, the SENT tab included, and with any search: while statuses change and rows come in, no job is listed twice, and a job wanted throughout is listed by a walk that reaches the end. |
| LedgerPages.AllJobsPagesOfARun | backend/src/services/campaignService.ts:493-604 | The same for pages of all jobs read at any moments of any hazard-free run of the workers, cancellations, passes and creations. |
| LedgerPages.CampaignPagesOfARun | backend/src/services/campaignService.ts:416-455 | For pages of one campaign's jobs read at any moments of any run, whatever throws or crashes: no job is listed twice, and one that matches the filter throughout is listed. |

## Left out

- HTTP routes, authentication, request parsing, sender administration, the frontend, scripts and logging: plumbing; the bounds that parsing guarantees are preconditions.
- `mailer.ts` and `crypto.ts`: SMTP is a nondeterministic accept or throw, and encryption is not modelled.
- Message ids, preview links, error texts, subjects and bodies: stored and returned, never branched on.
- MySQL, Redis and BullMQ internals, BullMQ's global limiter and its back-off: only the atomicity listed above is used.
- Liveness: that a SCHEDULED row is sent eventually. The reconciler tests only that a job key exists, so "has a job key" is what is proved.
- The queue inside the ledger: a run may start at any time there, which allows more than the queue does; deferral times are the subject of `LimiterRefinement`. A denied run whose `moveToDelayed` throws leaves what a deferred one leaves.
- Status tallies and the first and last scheduled time in a reply: easy, and read-only.
- The ownership checks of single reads, such as the one before `getCampaignJobs`: the lists themselves show no foreign row.
- Changes of a sender's cap while the system runs, and deletion of rows: the hourly cap is stated for fixed caps.
- Collation and Unicode case folding: trimming and lower-casing are parameters, and addresses are compared exactly afterwards.
- Non-integer or non-finite planner arguments: the schema makes them integers.
- Reconciler.Store.Reconcile: no concurrent writer; beside other writers only its stale-failing statement is an action of the ledger.
