# A verified model of the analyst agent's stateful core

The repository runs a bounded, tool-using agent and the services around it. This project models
the parts of it that keep state and make promises over time, and proves those promises for every
input, every run and every interleaving that the code allows. One file models one component:

- **The agent run** (`agent_state`, `agent_run`, `agent_accounts`, `agent_finish`, `agent_runner`, with
  `planning`, `caveats`, `retry`). A run is a state machine: each iteration applies one action chosen
  by the model (use a tool, load a skill, delegate, finish), within budgets of iterations, tool calls,
  errors, repeats and redirected finishes. `agent_run` states what an action does to a run and
  proves what every run keeps; `agent_runner` is the imperative program, with mutable state, loop,
  executor and approval store, proved to do exactly that; `agent_accounts` reads a run's errors,
  observations, redirects and ending off the model's actions and the world's answers alone;
  `agent_finish` proves how a run finishes.
- **Approvals** (`approvals`, `approval_expiry`, `approval_protocol`, `approval_resume`,
  `approval_refinement`, `approval_runs`). A run may pause at a tool that needs a human's word.
  `approvals` is the store and the history it refines, `approval_expiry` says when a request expires;
  `approval_protocol` lets any number of callers start, resume, decide, expire, crash and record in any
  order, and proves that a run is carried on from one place only and an approved action runs at most
  once; `approval_resume` says what pausing stores and resuming starts from; `approval_refinement`
  proves that the runner's own resume methods are runs of that protocol, and `approval_runs` shows
  one run of it.
- **The scheduler** (`calendar`, `zones`, `calculator`, `firing_dates`, `schedules`, `lease_protocol`,
  `lease_order`, `lease_edits`, `lease_runs`, `lease_refinement`, `periods`). Calendar arithmetic, the
  search for the next firing, the table of schedules, the worker, the lease that keeps several workers
  apart through crashes, and the proof that a worker's sweep is a run of it.
- **Stores that must agree with a history** (`rate_limit`, `limiter_history`, `pool`, `pool_sharing`,
  `pool_store`, `datasources`, `datasource_history`, `artifacts`, `retention_expiry`,
  `retention_protocol`, `retention_claims`, `retention_refinement`, `identity`, `identity_history`,
  `account_history`, `trace_store`). Each is a mutable class; what it holds is characterised by the
  operations it has seen, and where several callers or workers share it, by any interleaving of them.

The program's classes stay classes here. Each method's contract ties the new state to a function
of the old one, and the lemmas are about that function and about runs of it. The world outside is
an input: the model's action, tool results, policy decisions, skill texts, delegation outcomes,
clock readings, new identifiers, and what a file system or a database answers.

## Where the code and its promises part

Some promises do not hold of the code as written. For each, the lemma named first gives inputs or a
run on which it fails, and what it takes for it to hold is proved beside it, as an exact condition
where one is named so.

- A finish accepted with open items is meant to disclose them. Their lines share the ten-entry,
  500-character bounds of ordinary caveats, so a long question, or ten stated caveats, hides them
  (`LongQuestionHidden`, `TenDigitsHideAGap`; exact: `AllGapsDisclosedIff`).
- The error limit is meant to stop a run. A resumed rejection counts an error and does not, so a run
  goes on at the limit (`RejectionOutrunsLimit`; how far: `OutrunOnlyByRejections`,
  `RejectionStopsLikeErrorIff`).
- `compute_next_run` promises an instant strictly after the reference. It compares wall clocks, so
  in the second pass of a repeated hour it can answer with an instant already past
  (`AnswerInThePast`; exact: `StrictlyAfterIff`, `DueAgainIff`).
- No occurrence of a schedule is meant to be finished twice. One is when, with every worker prompt,
  a crashed run is claimed again in the second pass of its own hour (`RepeatedHourRunsTwice`; exact
  for a record: `FinishKeepsOrderIff`, for an edit: `EditKeepsOrderIff`, for whole runs:
  `FinishedInOrderIff`; and no stricter than needed: `AheadIff`).
- No two workers are meant to hold one schedule. `record_run_result` clears a claim whoever holds it,
  so the lease needs prompt workers (`SlowWorkerShares`; under promptness alone: `NeverTwoHolders`).
- An edit of a schedule is meant to stand. A worker that claimed it before records the old schedule's
  next run over it (`EditLostToRecord`; exact for a step:
  `OwnNextKeptIff`, for whole runs: `OwnNextThroughoutIff`).
- The module description of `periods.py` says a period never includes today; the code's current
  month, quarter and year do, and run past it (`CurrentRunsPastToday`).
- Invalidating a data source is meant to retire its older runtimes; it does not reach one still being
  built (`LateInstallOutlivesInvalidate`; exact: `InvalidateLastsIff`).
- A runtime of version v may carry a later version's password (`SecretMayBeLater`; exact:
  `OwnSecretIff`; never an earlier one's, and always v's settings: `ReturnedRuntime`).
- A disabled connection can leave that status without being enabled (`DisabledBecomesActive`;
  exact: `StaysDisabledIff`).
- A reset with too short a password spends the link without resetting anything
  (`ShortPasswordSpendsLink`; exact: `ResetSucceedsIff`).
- The announced retry wait is refused at its own last moment (`RetryAfterExact`), and a refused
  request has already spent hits on the keys before the refused one (`RefusedRequestSpends`; in
  general: `EnforceSpendsPrefix`).
- No artifact is meant to see more failures than `max_attempts`. k workers whose claims overlap past
  `stale_after` overstep it by k - 1 (`LateWorkersOverstep`; never by more than the claims that ran
  late: `AttemptsWithinLateness`; never when none does: `PromptWorkersStayBounded`).

## Assumptions

- One clock that never goes back, per store; identifiers and raw tokens are new when created.
- Fingerprints and hashes are injective; nothing else is assumed of them.
- White space and case folding are arbitrary functions; everything about caveats holds for all of them.
- A zone is a base offset and a list of transitions whose clock changes do not overlap
  (`Zones.WellSeparated`); where a statement needs them a day apart or skipping at most a day, it says
  so (`Zones.ChangesApart`, `Zones.SkipsAtMost`); wall times are read with `fold=0`, as the code does.
- A clock reading used for a claim or an edit is not ahead of the clock when the call is made.
- Each store call is atomic, as the code's lock or transaction makes it. Service operations that
  read and then write are taken one after another, except where a protocol file says otherwise.

## Model

Results first, then the operations they are about.

| member | source | states |
|---|---|---|
| `ApprovalProtocol.NextKeeps` | backend/app/runtime/runner.py:532-628 | every step of any caller (start, iterate, exhaust, record, look, list, resolve, claim, execute, crash) keeps: one token per run, executed tools within the calls counted, intact records, claims and log entries that match |
| `ApprovalProtocol.OneContinuation` | backend/app/runtime/runner.py:564-628 | after any interleaving of resumers, approvers, expiry and crashes, a run is carried on from at most one place: one live caller or one unclaimed approval |
| `ApprovalProtocol.ApprovedActionRunsOnce` | backend/app/runtime/runner.py:564-602 | an approval's action executes at most once, only when its status is approved and it was claimed, and what ran is the action asked for |
| `ApprovalProtocol.OnlyApprovedRun` | backend/app/security/approvals.py:173-200 | rejected, expired and pending approvals have executed nothing |
| `ApprovalProtocol.ToolsWithinBudget` | backend/app/runtime/runner.py:349-429 | across all pauses and resumes, executed tools (ordinary and approved) plus what is still owed stay within `total_tool_calls`, `max_tool_calls` and `max_iterations`, and a running run has fewer errors than the limit plus the rejections resumed |
| `ApprovalProtocol.CarriedRunsStaySound` | backend/app/runtime/runner.py:359-389 | wherever a run is carried on, its plan is backed by evidence and no request is repeated past the limit |
| `ApprovalProtocol.ActionNeverChanges` | backend/app/security/approvals.py:183-189 | no step changes the action or fingerprint an approval was created with |
| `ApprovalProtocol.BehaviourKeeps` | backend/app/runtime/runner.py:532-628 | the protocol invariant holds in every reachable state, by induction over any sequence of steps |
| `ApprovalResume.OnlyRecomputedRuns` | backend/app/runtime/runner.py:575-584 | over any interleaving an approved action runs only if a caller resuming it computed the same action afresh |
| `ApprovalResume.PauseStores` | backend/app/runtime/runner.py:545-556 | a pause stores a pending request for exactly the action asked for and a checkpoint of the run still running, with that call counted |
| `ApprovalResume.ApprovedStartTells` | backend/app/runtime/runner.py:573-595 | a resumed approval goes on from its checkpoint with one observation more, which shows the result only if all three fingerprints agree |
| `ApprovalResume.RejectedStartTells` | backend/app/runtime/runner.py:614-621 | a resumed rejection goes on with a failed observation and one error more, and nothing else |
| `ApprovalRefinement.ResumeRefines` | backend/app/runtime/runner.py:564-602 | resuming an approved request as the runner does it is a run of the protocol by one caller: same store, a log grown by the approved execution when still valid and by the tools the loop executed, nothing left behind |
| `ApprovalRefinement.RejectionRefines` | backend/app/runtime/runner.py:604-628 | so is resuming a rejected one, with the rejection logged and nothing executed for it |
| `ApprovalRefinement.LoopRefines` | backend/app/runtime/runner.py:206-344 | the loop run to its end is a sequence of the protocol's iterations with the same final state, store and executed tools |
| `ApprovalRefinement.EventsAreExecutions` | backend/app/runtime/runner.py:391-404 | the tools in the protocol's log are the ones the runner's executor ran, in order |
| `Approvals.GrantedIff` | backend/app/security/approvals.py:173-181 | over any history of calls, a claim is granted if and only if an earlier call decided the request that way and no earlier claim of it was granted |
| `Approvals.DecidedOnce` | backend/app/security/approvals.py:153-165 | a request is decided at most once, so never both approved and rejected |
| `Approvals.StoreExplained` | backend/app/security/approvals.py:128-200 | a stored request is started if and only if some claim was granted, approved (rejected) if and only if some call decided so |
| `ApprovalExpiry.ExpiresAtItsDeadline` | backend/app/security/approvals.py:196-198 | a request nobody decided before its own expiry, or else before its creation plus the store's lifetime, is lost: from then on it reads as expired, every decision conflicts and no claim is granted |
| `ApprovalExpiry.FirstDecisionAccepted` | backend/app/security/approvals.py:153-165 | before that moment, and always without one, the first decision is accepted |
| `ApprovalExpiry.DecisionAcceptedIff` | backend/app/security/approvals.py:153-165 | over any history a decision is accepted if and only if it repeats the one made, or none was made and the deadline has not come; otherwise it conflicts |
| `ApprovalExpiry.ClaimGrantedIff` | backend/app/security/approvals.py:173-181 | a claim is granted if and only if what it expects is what a reader would be told then and none was granted before |
| `ApprovalExpiry.ReadTells` | backend/app/security/approvals.py:135-141 | a read tells the decision made in time, else pending before the deadline and expired from the deadline on |
| `ApprovalExpiry.ListTells` | backend/app/security/approvals.py:143-151 | a listing tells the same |
| `ApprovalExpiry.UnknownRefused` | backend/app/security/approvals.py:153-157 | only approving and rejecting decide, and only what was created can be decided or claimed |
| `ApprovalExpiry.StoreTells` | backend/app/security/approvals.py:128-200 | every stored record is the one created, with the deadline, decision, start, completion and state the calls gave it |
| `AgentRun.IterationKeeps` | backend/app/runtime/runner.py:206-325 | one iteration, whatever the model chooses, keeps the budgets, the duplicate bound, the plan's evidence and the numbering of observations |
| `AgentRun.RunKeeps` | backend/app/runtime/runner.py:206-344 | running on from a kept state ends in a kept state, and ends only by waiting, completing, stopping for a reason, or an exception |
| `AgentRun.RunAccounts` | backend/app/runtime/runner.py:359-389 | over a whole run the call counter equals the admitted requests, the fingerprint list is exactly those admitted since a skill was last made ready, and the run waits if and only if its last effect was to pause |
| `AgentAccounts.RunCountsFailures` | backend/app/runtime/runner.py:421-428 | over a whole run the errors counted are exactly the executed tools that failed, the unknown skills and the failed or refused delegations; the run stops for too many errors if and only if one of them brings the count to the limit |
| `AgentAccounts.RunReports` | backend/app/runtime/runner.py:641-654 | over a whole run every new observation is the report of one iteration with its source, success and output, numbered in order, and every tool that ran is reported: no success is made up and no result lost |
| `AgentAccounts.RunEnds` | backend/app/runtime/runner.py:349-356 | every finish tried is either counted as redirected or completes the run with its answer; a run stops at the call limit if and only if a tool was asked for with no call left |
| `AgentAccounts.RunObeysPolicy` | backend/app/runtime/runner.py:391-404 | over a whole run no tool runs that the policy did not let run, and none but the one the model asked for; an action waits only where approval is asked for and can be given |
| `AgentAccounts.OneLearns` | backend/app/runtime/runner.py:418-420 | the plan is the last one an update brought, reconciled with what was observed before it, and a skill once loaded keeps its text |
| `AgentAccounts.FinishSentBackIff` | backend/app/runtime/runner.py:495-498 | a finish is sent back if and only if the plan has something open and two iterations, a call and a redirect are left |
| `AgentRun.AdmitKeepsBlocks` | backend/app/runtime/runner.py:359-389 | admitting a request that trails fewer than the limit keeps every block of the fingerprint list within the limit |
| `AgentRun.TrailingMeaning` | backend/app/runtime/runner.py:630-639 | the consecutive-duplicate count is the length of the maximal block of this request at the end of the list |
| `AgentRun.RepeatBlockedIff` | backend/app/runtime/runner.py:361-386 | below the call limit a request is refused if and only if it already stands at the end of the list as often as allowed, and refusing changes only the observations |
| `AgentRun.AppliedKeepsBudget` | backend/app/runtime/runner.py:346-530 | any action of a running iteration keeps tool calls, iterations, redirects and errors within their limits, and status and stop reason consistent |
| `AgentRun.AppliedKeepsHistory` | backend/app/runtime/runner.py:641-681 | any action keeps the stored plan backed by this run's observations and the observations in sequence |
| `AgentRun.AppliedKeepsBlocks` | backend/app/runtime/runner.py:359-389 | any action keeps every block of equal fingerprints within the limit |
| `AgentFinish.FinishCompletes` | backend/app/runtime/runner.py:495-530 | a model that only finishes completes the run in exactly the stated number of iterations, at most redirects left plus one, never more than the iterations left and never with the iteration limit |
| `AgentFinish.AllGapsDisclosedIff` | backend/app/runtime/runner.py:518-527 | an answer discloses every open item if and only if every line fits 500 characters and there are at most ten different caveats and lines |
| `AgentFinish.LongQuestionHidden` | backend/app/runtime/runner.py:520-527 | the finding: a pending question of more than 450 characters leaves no trace in the answer's caveats |
| `AgentFinish.TenStatedHideGaps` | backend/app/runtime/runner.py:520-527 | with ten stated caveats the answer prints those alone, and every open item they do not happen to state is undisclosed |
| `AgentFinish.TenDigitsHideAGap` | backend/app/runtime/runner.py:520-527 | the finding: a concrete answer with ten caveats and an open question that is not disclosed |
| `AgentFinish.StatedSurvive` | backend/app/runtime/runner.py:518-527 | stated caveats stay first and unchanged, and there are at most ten in all |
| `AgentFinish.CompletedPlanIsBacked` | backend/app/runtime/runner.py:495-530 | a finish with nothing open completes with the plan unchanged, every question blocked or answered by queries this run made |
| `AgentRunners.RejectionStopsLikeErrorIff` | backend/app/runtime/runner.py:620-622 | a resumed rejection leaves the run where an ordinary error would if and only if the count stays under the limit |
| `ApprovalRuns.RejectionOutrunsLimit` | backend/app/runtime/runner.py:620-626 | the finding: a reachable world in which a run is carried on, running, with its error count at the limit, after a resumed rejection |
| `ApprovalRuns.OutrunOnlyByRejections` | backend/app/runtime/runner.py:620-626 | in every reachable world a run that goes on at or past the limit has had more rejections resumed than errors past it |
| `Planning.SuccessfulOutputs` | backend/app/runtime/planning.py:20-33 | the loop yields exactly the successful dictionary outputs of the tool, in run order |
| `Planning.OutputsMeaning` | backend/app/runtime/planning.py:20-33 | an output is listed if and only if some observation of that tool succeeded with it |
| `Planning.ResolvedQueryIds` | backend/app/runtime/planning.py:36-43 | an id is resolved if and only if some successful query produced it |
| `Planning.CreatedDisplayIds` | backend/app/runtime/planning.py:46-55 | the loop maps each created display to the type of the last chart under its id |
| `Planning.DisplayIdMeaning` | backend/app/runtime/planning.py:46-55 | a display is known if and only if some successful chart call created it |
| `Planning.ReconcilePlan` | backend/app/runtime/planning.py:58-88 | the loops compute the reconciled plan |
| `Planning.ReconcileSupported` | backend/app/runtime/planning.py:58-88 | after reconciling, every answered question cites a nonempty set of this run's queries and every created output a display this run created |
| `Planning.ReconcileFixesIff` | backend/app/runtime/planning.py:58-88 | reconciling changes nothing if and only if the run backs every claim |
| `Planning.ReconcileIdempotent` | backend/app/runtime/planning.py:58-88 | reconciling twice is reconciling once |
| `Planning.ReconcileOnlyDowngrades` | backend/app/runtime/planning.py:58-88 | no status is ever upgraded; exactly what keeps an answered question and a created output |
| `Planning.SupportedMonotone` | backend/app/runtime/runner.py:641-654 | later observations never take a claim's evidence away |
| `Planning.FinishWithoutGapsIff` | backend/app/runtime/planning.py:124-161 | a finish has no gaps if and only if nothing asked for is open and a detailed report has its table; it is refused if and only if something is open and iterations, calls and redirects all remain |
| `Planning.MissingLines` | backend/app/runtime/planning.py:136-148 | the gaps are one line for each open question, each required output still pending and a missing table, and no other |
| `Planning.HasCreatedTableIff` | backend/app/runtime/planning.py:106-109 | a table was created if and only if one is planned and marked created, or the last chart under some id is of type table |
| `Planning.DisplayTypeMeaning` | backend/app/runtime/planning.py:46-55 | a display is of a type if and only if the last successful chart call under its id gave that type |
| `Planning.AcceptedFinishIsBacked` | backend/app/runtime/planning.py:124-161 | a finish accepted with no gaps has every question blocked or backed by this run |
| `Retry.BackoffGrows` | backend/app/reliability/retry.py:28-32 | waits never shorten or exceed the ceiling, and once one attempt is the last no later one is retried |
| `Retry.LastAttempt` | backend/app/runtime/runner.py:241-273 | the retry loop ends: there is a first attempt that stops it, no later than the largest `max_attempts` |
| `Retry.CallWithRetries` | backend/app/runtime/runner.py:241-273 | the loop returns the first attempt that succeeds or is not retried, with its failure |
| `Retry.SucceedsIff` | backend/app/runtime/runner.py:241-273 | the call succeeds if and only if some attempt does and every one before it was to be retried |
| `Retry.DefaultPoliciesBound` | backend/app/reliability/retry.py:20-32 | with the default rules there are at most three attempts |
| `Retry.DelaysDouble` | backend/app/reliability/retry.py:28-32 | the first wait is the initial delay and each later one twice the one before, up to the ceiling |
| `Retry.AlwaysFailingIsTried` | backend/app/reliability/retry.py:28-32 | an operation that always fails the same way is tried as often as its rule says, and once without a rule |
| `Caveats.NormalizeCaveats` | backend/app/contracts/actions.py:18-47 | the loop, with its early stop at ten, computes the first ten distinct printable caveats |
| `Caveats.DistinctMeaning` | backend/app/contracts/actions.py:18-47 | before the cap the list holds exactly the keys of the printable values, each once, stripped and within length |
| `Caveats.NormalizeBounded` | backend/app/contracts/actions.py:18-47 | at most ten entries, each stripped, nonempty, within 500 characters, no two with one key |
| `Caveats.NormalizeIdempotent` | backend/app/contracts/actions.py:18-47 | normalising twice is normalising once |
| `Caveats.StatedStayFirst` | backend/app/runtime/runner.py:518-527 | normalised caveats followed by more keep the first ones as a prefix |
| `Caveats.DisclosedIff` | backend/app/contracts/actions.py:18-47 | a printable value appears, itself or an equal, if and only if fewer than ten distinct ones precede it or one of the first ten equals it |
| `Caveats.NewCaveatPrinted` | backend/app/contracts/actions.py:18-47 | a new printable value within the first ten is printed, stripped |
| `Caveats.UnfitDropped` | backend/app/contracts/actions.py:18-47 | a value that is not text, blank or too long is as good as absent |
| `Caveats.KeyIgnoresSpacing` | backend/app/contracts/actions.py:40-42 | caveats that differ only in the width of white space count as equal |
| `Caveats.StripIdempotent` | backend/app/contracts/actions.py:35-39 | stripping twice is stripping once |
| `Caveats.StripMeaning` | backend/app/contracts/actions.py:35-39 | stripping takes all the white space off both ends and nothing else |
| `Caveats.PlainKey` | backend/app/contracts/actions.py:40-42 | a caveat with single blanks is compared by its own text with case folded |
| `LeaseProtocol.HeldIsNotDue` | backend/app/scheduling/store.py:180-183 | a row somebody holds is not due to any other worker |
| `LeaseProtocol.NeverTwoHolders` | backend/app/scheduling/store.py:171-201 | if live workers finish within `stale_after` of the moment they claimed for, no two hold one schedule, whatever is edited, created or recorded, in whatever hour, and whoever crashes |
| `LeaseProtocol.LeaseKept` | backend/app/scheduling/worker.py:79-184 | from promptness alone every step keeps: a live hold is the one its row's claim names, in time, and the only one on the row |
| `LeaseProtocol.FinishKeepsOrderIff` | backend/app/scheduling/worker.py:177-184 | a record keeps its row's finished occurrences in order and before the next run it stores if and only if no firing up to the one just run comes round again after the moment claimed for |
| `LeaseProtocol.EditKeepsOrderIff` | backend/app/api/routes/scheduled_reports.py:136-146 | an edit keeps that order if and only if the schedule it brings has no firing ahead, on its own clock at the edit's clock reading, whose instant is at or before the last occurrence finished |
| `LeaseProtocol.FinishedInOrderIff` | backend/app/scheduling/store.py:203-221 | over any run of prompt workers, finished occurrences stay in order and before the next run at every point if and only if no record or edit brings back a firing already run |
| `LeaseProtocol.NoneFinishedTwice` | backend/app/scheduling/store.py:203-221 | then the finished occurrences of every schedule strictly increase, so none is finished twice even after a crash and reclaim |
| `LeaseOrder.AheadIff` | backend/app/scheduling/store.py:171-221 | and the condition is not stricter than the promise: a step brings back no firing if and only if nothing prompt workers may do after it, by steps that before the last bring back none, finishes an occurrence out of order |
| `LeaseOrder.NextStepAheadIff` | backend/app/scheduling/store.py:171-221 | the same at any point of a run from an empty table |
| `LeaseRuns.RepeatedHourRunsTwice` | backend/app/scheduling/worker.py:177-184 | the finding: prompt workers, one crash and a reclaim in the second pass of a repeated hour finish the 05:30 occurrence twice |
| `LeaseRuns.SlowWorkerShares` | backend/app/scheduling/store.py:218 | the finding: from an empty table, a worker past `stale_after` shares its row with the next, and its recording frees the row for a third while the second is at work |
| `LeaseEdits.OwnNextKeptIff` | backend/app/scheduling/worker.py:177-184 | every step keeps stored next runs those of the rows' own schedules, but the record of a row edited since its claim: that one if and only if the edited schedule fires at the instant of the old schedule's next run |
| `LeaseEdits.OwnNextThroughoutIff` | backend/app/scheduling/store.py:203-221 | over any run, prompt or not, every next run is one of the row's own schedule at every point if and only if each record of a row edited meanwhile falls on an instant its new schedule fires at |
| `LeaseEdits.FiresAtIff` | backend/app/scheduling/calculator.py:99-109 | an instant is the calculator's answer to some reference if and only if the schedule fires at it, in a zone that never skips more than a day |
| `LeaseRuns.EditLostToRecord` | backend/app/scheduling/store.py:218-220 | the finding: an edit made while a worker runs is lost, and the stored next run is one at which the row's schedule never fires |
| `LeaseProtocol.CrashedRowIsDueAgainIff` | backend/app/scheduling/store.py:176-183 | a crashed worker's row is due again if and only if it is enabled, its run is due, and the claim is older than `stale_after` |
| `LeaseRefinement.SweepRefines` | backend/app/scheduling/worker.py:79-89 | a sweep as the worker performs it is a run of the protocol: every claim at the sweep's moment, then every record, ending with the same table and no hold left |
| `LeaseRefinement.ClaimsRun` | backend/app/scheduling/store.py:171-201 | claiming a batch in one statement is claiming its rows one by one at the same moment |
| `LeaseRefinement.FinishesRun` | backend/app/scheduling/store.py:203-221 | recording the results one by one records each row and releases each hold |
| `Schedules.ResultIff` | backend/app/scheduling/worker.py:91-162 | completed if and only if the report is active and some attempt succeeds before the policy gives up; skipped if and only if it is not active; one execution unless skipped |
| `Schedules.FailuresAreTheStreak` | backend/app/scheduling/store.py:212-217 | the failure count is the number of failures since the last completion, over any sequence of recordings |
| `Schedules.RowShowsLastRecord` | backend/app/scheduling/store.py:203-221 | after any records a row shows the last one's time, result and next run, no claim, and is otherwise as it was |
| `Schedules.ClaimedAreDue` | backend/app/scheduling/store.py:171-201 | every claimed row is enabled, due and unclaimed or stale, in the order of its next run; every such row left out runs no earlier, and none is left out while there is room |
| `Schedules.ExecutionTells` | backend/app/scheduling/worker.py:91-162 | what is written about a run says that it completed exactly if it did, and counts the attempts after the first |
| `Schedules.DueAgainIff` | backend/app/scheduling/worker.py:177-184 | a recorded row is still due at the same moment if and only if it is enabled and the moment is in a repeated hour with a firing time left |
| `Schedules.NextRunUnique` | backend/app/scheduling/calculator.py:90-109 | the calculator's answer is determined by schedule, zone and reference |
| `Calculator.NextLocalRun` | backend/app/scheduling/calculator.py:99-109 | the search ends, with the least local wall time strictly after the reference at which the schedule fires |
| `Calculator.ComputeNextRun` | backend/app/scheduling/calculator.py:90-109 | converted to the schedule's clock and back, the answer is that least firing read with the zone's offset |
| `Calculator.NextFiringUnique` | backend/app/scheduling/calculator.py:90-109 | there is one next firing |
| `Calculator.NextFiringSoon` | backend/app/scheduling/calculator.py:48-87 | it comes within a day, seven days, the next month, or three months on |
| `Calculator.StrictlyAfterIff` | backend/app/scheduling/calculator.py:102-108 | the finding: the answer is later in UTC if and only if the reference is not in the second pass of a repeated hour with a firing time left |
| `Calculator.LaterThanIff` | backend/app/scheduling/calculator.py:102-108 | the answer is later than a moment already past if and only if no firing up to that moment comes round again after the reference |
| `Calculator.LaterThanAnyIff` | backend/app/scheduling/calculator.py:99-109 | the answer lies after any moment, past or to come, if and only if no firing ahead comes as an instant by that moment |
| `Calculator.FiringIsAnswer` | backend/app/scheduling/calculator.py:99-109 | every firing is, as an instant, the answer to some reference, in a zone that never skips more than a day |
| `Calculator.NextFiringExists` | backend/app/scheduling/calculator.py:48-109 | every schedule has a next firing after every reference |
| `FiringDates.NextFiringMeaning` | backend/app/scheduling/calculator.py:90-109 | the next firing without a word of the search: on a date the schedule names (its weekday counted from Monday 19 January 2026, its day of the month, its months of the quarter by number), at its hour and minute, after the reference, with none before it still ahead |
| `FiringDates.MatchesIffNamed` | backend/app/scheduling/calculator.py:42-87 | a schedule fires on the dates it names and on no others |
| `FiringDates.WeekdaySinceMonday` | backend/app/scheduling/calculator.py:62-69 | a weekday is the distance from a known Monday, modulo seven |
| `FiringDates.MondayOrdinal` | backend/app/scheduling/calculator.py:62-69 | that Monday's ordinal is 739635 |
| `FiringDates.DailyFiresNext` | backend/app/scheduling/calculator.py:56-60 | a daily schedule asked before its time of day fires that day, otherwise the day after |
| `FiringDates.MondayFiresOnMonday` | backend/app/scheduling/calculator.py:62-69 | asked at midnight of that Monday, a schedule for Mondays at nine fires that morning |
| `Calculator.StrictlyAfterOutsideRepeat` | backend/app/scheduling/calculator.py:102-108 | outside second passes, and in every fixed-offset zone, the answer is strictly later in UTC |
| `Calculator.AnswerInThePast` | backend/app/scheduling/calculator.py:102-108 | a concrete instant for which the answer is forty minutes ago |
| `Calculator.AdvanceMonth` | backend/app/scheduling/calculator.py:33-39 | between the firsts of two successive months lie exactly the dates of the month |
| `Zones.LaterWallIsLaterIff` | backend/app/scheduling/calculator.py:99-108 | when a later wall time is a later instant, exactly |
| `Zones.RepeatReadsFirstPass` | backend/app/scheduling/calculator.py:99-108 | in a second pass, a wall time still ahead in the repeated stretch reads as its first pass |
| `Zones.FarWallIsNoEarlier` | backend/app/scheduling/calculator.py:99-109 | where no clock change skips more than a day and changes are a day apart, a wall time a day later is read as no earlier an instant |
| `Zones.ShownBefore` | backend/app/scheduling/calculator.py:99-109 | within a day before any wall time the local clock shows some time, unless the whole day is skipped and both its ends are one instant |
| `Zones.LocalRoundTripIff` | backend/app/scheduling/calculator.py:99-108 | going to the local clock and back is exact if and only if the instant is not in a second pass |
| `Calendar.DaysBeforeYearFormula` | backend/app/reports/periods.py:54-117 | counting years agrees with the proleptic Gregorian formula |
| `Calendar.OrdinalCountsDays` | backend/app/reports/periods.py:119-122 | the day after has the next ordinal, the day before the previous one |
| `Calendar.OrdinalOrder` | backend/app/reports/periods.py:119-122 | dates are ordered and determined by their ordinals |
| `Calendar.AddDays` | backend/app/reports/periods.py:119-122 | adding days moves the ordinal by that many, in either direction |
| `Calendar.OrdinalRoundTrip` | backend/app/reports/periods.py:119-122 | date to ordinal to date is the identity |
| `Calendar.AddMonthsComposes` | backend/app/reports/periods.py:45-51 | month steps compose additively with any signs, and undo each other on firsts of months |
| `Calendar.BeforeMonthIff` | backend/app/reports/periods.py:45-51 | a date precedes the first of a month if and only if its month does |
| `Periods.WindowsAreUnits` | backend/app/reports/periods.py:54-117 | the current and previous rules name the unit today is in and the one before |
| `Periods.WindowsTile` | backend/app/reports/periods.py:54-117 | each date lies in exactly one current window |
| `Periods.PreviousMeetsCurrent` | backend/app/reports/periods.py:54-117 | previous ends where current starts, and is the current window of each of its days |
| `Periods.LastDaysExact` | backend/app/reports/periods.py:54-117 | `last_n_days` is exactly the n days before today |
| `Periods.ResolvesIff` | backend/app/reports/periods.py:54-117 | exactly which periods resolve, at both ends of the calendar and at the length limit |
| `Periods.RefusedAs` | backend/app/reports/periods.py:54-117 | a period that does not resolve is refused as too long if it is a fixed range within the calendar, and as out of range otherwise |
| `Periods.CurrentRunsPastToday` | backend/app/reports/periods.py:1-20 | the finding: a current window includes today and runs past it except on the unit's last day, against the module's description |
| `RateLimit.DequeRefinesHistory` | backend/app/identity/rate_limit.py:46-64 | at nondecreasing times the deque agrees with the full history on every later window |
| `RateLimit.AdmittedIff` | backend/app/identity/rate_limit.py:53-64 | a check is admitted if and only if the closed window ending now holds fewer than `limit` admitted hits |
| `RateLimit.WindowNeverOverfull` | backend/app/identity/rate_limit.py:53-64 | no closed window anywhere holds more than `limit` admitted hits |
| `RateLimit.RetryAfterExact` | backend/app/identity/rate_limit.py:58-64 | after a refusal the next check is admitted if and only if it is strictly later than the announced wait |
| `RateLimit.FullOnRefusal` | backend/app/identity/rate_limit.py:58-64 | a refusal means exactly `limit` live hits |
| `RateLimit.EnforceSpendsPrefix` | backend/app/identity/rate_limit.py:67-72 | only the request's own buckets change; it passes if and only if every key in turn is admitted; when refused, every key before the refused one was admitted and its hit is on record, and keys only named later are untouched |
| `RateLimit.RefusedRequestSpends` | backend/app/identity/rate_limit.py:67-72 | the finding: a refused registration leaves one more hit on the address checked first |
| `LimiterHistory.LimiterNeverOverfull` | backend/app/identity/rate_limit.py:46-72 | over any history of requests over any buckets, no closed window holds more than the action's limit of admitted hits for a key |
| `LimiterHistory.BucketHistory` | backend/app/identity/rate_limit.py:46-72 | through any history of requests each bucket holds, and has admitted, exactly what it would on its own |
| `LimiterHistory.RequestsReplay` | backend/app/identity/rate_limit.py:67-72 | serving requests is replaying the checks they make, up to each first refusal |
| `RateLimit.BucketsDistinct` | backend/app/identity/rate_limit.py:54 | buckets collide only for the same action and key |
| `Pool.PoolConserves` | backend/app/datasources/pool.py:53-112 | conservation and right versions hold after any interleaving of acquires, invalidations and disposals |
| `Pool.EveryRuntimeInOnePlace` | backend/app/datasources/pool.py:53-112 | every runtime ever built is exactly one of in flight, cached, being retired, disposed |
| `Pool.StaysPurged` | backend/app/datasources/pool.py:83-100 | once purged, a source stays purged while callers present current versions |
| `Pool.InvalidateLastsIff` | backend/app/datasources/pool.py:83-100 | after an invalidation no older version is cached in any run with current callers if and only if nobody was on the way to install one at that moment |
| `PoolSharing.CachedIsShared` | backend/app/datasources/pool.py:53-81 | once a runtime is cached for a version every caller of that version gets that one, in any interleaving, until its source is invalidated or the pool disposed of |
| `PoolSharing.ReturnedBelongsToAsker` | backend/app/datasources/pool.py:50-51 | no caller is handed a runtime of another workspace, source or version |
| `PoolSharing.ServedAtOnceIff` | backend/app/datasources/pool.py:53-66 | a caller is served at once if and only if a runtime is cached for its workspace, source and version |
| `PoolSharing.StaysCachedIff` | backend/app/datasources/pool.py:83-100 | a cached runtime stays cached through a step if and only if the step is not an invalidation of that source or the end of the pool |
| `PoolSharing.LoserIsDisposed` | backend/app/datasources/pool.py:74-81 | of two callers that built for one version the later one's runtime is disposed of and it gets the earlier one's |
| `PoolSharing.InvalidateDropsExactly` | backend/app/datasources/pool.py:83-100 | an invalidation drops every version of its own source and nothing of another workspace or source |
| `PoolStore.ReturnedRuntime` | backend/app/datasources/pool.py:53-81 | with the stored connection changing meanwhile, a runtime returned for version v has v's settings and a password of v or a later version |
| `PoolStore.SecretMayBeLater` | backend/app/datasources/pool.py:69-73 | the finding: the password may be of a later version than the settings; `OwnSecretIff` says exactly when |
| `PoolStore.OwnSecretIff` | backend/app/datasources/pool.py:53-81 | over any moves from an empty pool, every runtime built has its own version's password if and only if every password was read while the version its caller presented was the newest |
| `PoolStore.MoveOwnIff` | backend/app/datasources/pool.py:69-73 | one move leaves every runtime with its own password if and only if all had theirs and the move, if it reads a password, reads it while the presented version is the newest: a wrong one never becomes right |
| `PoolStore.TimelyRuntime` | backend/app/datasources/pool.py:53-81 | then a caller gets settings and password of the one version it asked for |
| `Pool.ReturnedSettings` | backend/app/datasources/pool.py:53-81 | a runtime returned for a version was built from that version's settings, whatever gives each version its settings |
| `Pool.LateInstallOutlivesInvalidate` | backend/app/datasources/pool.py:70-100 | the finding: a runtime in flight when its source is invalidated is cached afterwards |
| `TraceStore.PresentIff` | backend/app/observability/in_memory.py:12-31 | a trace is present if and only if it was saved and fewer than `max_traces` other keys were touched since its last touch |
| `TraceStore.OrderIsRecent` | backend/app/observability/in_memory.py:12-31 | the store's order is the last `max_traces` keys by recency of touch |
| `TraceStore.HoldsLastSaved` | backend/app/observability/in_memory.py:12-31 | what is present is what was saved last under that key |
| `TraceStore.SmallerIncluded` | backend/app/observability/in_memory.py:12-31 | fed the same operations, a smaller store never holds a trace a larger one lacks |
| `TraceStore.SmallerAgrees` | backend/app/observability/in_memory.py:12-31 | what both hold they hold alike |
| `TraceStore.SavedMeaning` | backend/app/observability/in_memory.py:19-24 | a save evicts at most one key, the least recent, and keeps the rest as they were |
| `Artifacts.BatchIsEarliest` | backend/app/artifacts/store.py:235-251 | each batch is the earliest-expiring eligible artifacts, distinct, as many as allowed |
| `Artifacts.SweptMeaning` | backend/app/artifacts/retention.py:49-78 | a sweep deletes or counts a failure for exactly its batch and touches nothing else |
| `Artifacts.NeverTouchedByRounds` | backend/app/artifacts/store.py:238-246 | over any sweeps at any times, artifacts on legal hold, permanent, or not ready stay exactly as they are |
| `RetentionExpiry.ClaimedHasExpired` | backend/app/artifacts/store.py:235-251 | every artifact claimed has an expiry that has come, is ready, on no hold, below the limit, and unclaimed or stale |
| `RetentionExpiry.RoundsSpare` | backend/app/artifacts/retention.py:49-78 | over any sweeps an artifact that expires after all of them, or never, is exactly as it was |
| `RetentionExpiry.RunSpares` | backend/app/artifacts/store.py:235-269 | so is, over any steps of any workers, one that nobody holds and nobody asks for at a moment at which it has expired |
| `RetentionExpiry.NotClaimableEarly` | backend/app/artifacts/store.py:235-251 | a claim of an artifact that has not expired is not possible |
| `RetentionExpiry.SweepTakes` | backend/app/artifacts/retention.py:49-78 | a sweep as large as the registry takes every artifact that is ready, standard, expired, unclaimed or stale and below the limit: it is deleted if its file can be discarded, and has one failure more otherwise |
| `RetentionExpiry.BatchExpiresFirst` | backend/app/artifacts/store.py:235-251 | a batch is in the order of expiry and whatever else could be taken expires no earlier |
| `Artifacts.NeverTouched` | backend/app/artifacts/store.py:238-246 | the same of one sweep |
| `Artifacts.SweepDecreases` | backend/app/artifacts/retention.py:49-78 | each sweep lowers the total of remaining attempts by at least the size of its batch |
| `Artifacts.FinitelyManyClaims` | backend/app/artifacts/retention.py:49-78 | over any whole sweeps at any times the claims made do not exceed the attempts that were left, and no limit is overstepped; with crashes: `RetentionClaims.ClaimsWithinBudget` |
| `Artifacts.AttemptsStayBounded` | backend/app/artifacts/retention.py:59-78 | no artifact exceeds `max_attempts` failures |
| `Artifacts.SweepDrains` | backend/app/artifacts/retention.py:49-57 | enough sweeps at one moment leave nothing eligible |
| `Artifacts.EmptyRoundIff` | backend/app/artifacts/retention.py:49-57 | a sweep takes nothing if and only if nothing is eligible, and then changes nothing |
| `Artifacts.GaveUpIff` | backend/app/artifacts/retention.py:59-78 | giving up is reported if and only if the artifact stays with its attempts used up |
| `Artifacts.OutcomeTells` | backend/app/artifacts/retention.py:59-78 | a deletion is reported if and only if the artifact ends up deleted, and a failure if and only if it stays with attempts left |
| `RetentionProtocol.AttemptsWithinLateness` | backend/app/artifacts/store.py:235-269 | under any interleaving of workers and crashes, an artifact's failures and live holders exceed `max_attempts` by at most the claims that ran past `stale_after`, held or settled |
| `RetentionProtocol.PromptWorkersStayBounded` | backend/app/artifacts/store.py:235-269 | if every live claim is settled within `stale_after`, no artifact is held twice and none exceeds `max_attempts` failures |
| `RetentionProtocol.LateWorkersOverstep` | backend/app/artifacts/store.py:235-269 | the finding: for every k, k workers who each claim after the claim before went stale and then fail leave k - 1 failures more than `max_attempts`: the bound is reached |
| `RetentionProtocol.StepKeeps` | backend/app/artifacts/retention.py:49-78 | every step of every worker keeps the count of attempts, holders in time and overdue settlements |
| `RetentionClaims.ClaimsWithinBudget` | backend/app/artifacts/store.py:235-269 | under any interleaving of workers and crashes every claim of an artifact is settled, crashed or still held, and there are no more than the attempts it had left, the claims crashed and the claims that ran past `stale_after` |
| `RetentionClaims.PromptClaims` | backend/app/artifacts/retention.py:49-78 | if every live claim is settled within `stale_after`, there are no more claims than the attempts it had left and the crashes |
| `RetentionRefinement.SweepRefines` | backend/app/artifacts/retention.py:49-78 | a sweep as the worker performs it is a run of that protocol, ending with the same registry and no hold left |
| `RetentionRefinement.ClaimsRun` | backend/app/artifacts/store.py:235-251 | claiming a batch in one call is claiming its artifacts one by one at the same moment |
| `RetentionRefinement.SettlesRun` | backend/app/artifacts/retention.py:53-57 | settling a batch one by one is what the worker's loop does to the registry, and releases every hold |
| `DataSources.ActiveMeansVerified` | backend/app/datasources/service.py:126-163 | over any operations, active or verified implies a successful read-only verification since the last configuration or credential change or re-enabling |
| `DataSources.OnlyActivationActivates` | backend/app/datasources/service.py:239-254 | a connection becomes active only from verified, with an approved table |
| `DataSources.VersionNamesSettings` | backend/app/datasources/store.py:339-372 | versions never fall, strictly rise with each change of settings or secret, and so determine both |
| `DataSources.StaysDisabledIff` | backend/app/datasources/service.py:316-367 | a disabled connection stays disabled if and only if nobody tests, verifies, edits, has refused, enables or deletes it |
| `DataSourceHistory.ActiveIff` | backend/app/datasources/service.py:239-256 | a connection shows as verified if and only if the last operation that counts was a successful verification, and as active if and only if an activation with an approved table followed it |
| `DataSourceHistory.DisabledIff` | backend/app/datasources/service.py:316-340 | it shows as disabled if and only if it was disabled and nothing since led out of it |
| `DataSourceHistory.ContentsAreTheLastGiven` | backend/app/datasources/store.py:175-187 | after any run it has the settings and the password last given, and one version for every time either was |
| `DataSourceHistory.DeletedIff` | backend/app/datasources/store.py:189-196 | it is deleted if and only if some operation deleted it |
| `DataSourceHistory.DeletedStays` | backend/app/datasources/store.py:189-196 | a deleted connection is never changed again |
| `DataSourceHistory.OnlyTheTenantsOwn` | backend/app/datasources/store.py:141-148 | an operation finds only a connection of its own workspace that is not deleted; otherwise nothing changes, and no other connection ever does |
| `DataSourceHistory.ActivatesIff` | backend/app/datasources/service.py:239-256 | a connection is activated if and only if it shows as verified and a table was approved |
| `DataSourceHistory.StatusShows` | backend/app/datasources/service.py:126-165 | a passed test shows as testing, anything found wrong as failed, a change or an enabling as pending |
| `DataSources.DisabledBecomesActive` | backend/app/datasources/service.py:150-163 | the finding: verify and activate make a disabled connection active without enabling it |
| `IdentityHistory.ValidatesIff` | backend/app/identity/service.py:162-180 | a session validates now if and only if nothing ended it, its lifetime has not passed, and no pause between login, the times it was presented, and now exceeds the idle limit |
| `IdentityHistory.InvalidForever` | backend/app/identity/service.py:162-180 | once invalid, always invalid, whatever follows |
| `IdentityHistory.RecoveryEndsSessions` | backend/app/identity/service.py:231-237 | no session that existed at a completed password reset or email change ever validates again |
| `IdentityHistory.LoginOpens` | backend/app/identity/service.py:131-160 | login succeeds if and only if the address exists with this password and is active; it opens an unrevoked session of the absolute lifetime |
| `AccountHistory.LoginTakesLastPasswordIff` | backend/app/identity/service.py:131-160 | over any run a login succeeds if and only if the account is active and the password is the last one a successful registration, change or reset gave to that account |
| `AccountHistory.PasswordIsTheLastGiven` | backend/app/identity/service.py:199-239 | after any run the password in force is the last one given to that user; nothing done for other users moves it |
| `AccountHistory.AccountIsAsTold` | backend/app/identity/service.py:241-342 | after any run address, pending address, verification, activity and last login are what the operations that succeeded made of them |
| `AccountHistory.EmailChangeConfirmed` | backend/app/identity/service.py:322-342 | a confirmed email change moves the account to the pending address, verified, with nothing pending |
| `AccountHistory.LinkWorksIff` | backend/app/identity/service.py:344-379 | over any run a link works if and only if its lifetime since the operation that sent it is not over, and it was neither redeemed nor replaced by a newer one for the same user and purpose |
| `AccountHistory.RegisterSucceedsIff` | backend/app/identity/service.py:117-127 | registering succeeds if and only if the password has eight characters and nobody has the address |
| `AccountHistory.ChangeSucceedsIff` | backend/app/identity/service.py:199-208 | a change succeeds if and only if the current password is given and the new one has eight characters |
| `AccountHistory.EmailChangeAskedIff` | backend/app/identity/service.py:284-298 | an email change is accepted for confirmation if and only if the current password is given and nobody has the address |
| `AccountHistory.LoginRefusals` | backend/app/identity/service.py:131-149 | a login is told that the account is disabled if and only if it knows the password, and otherwise only that the credentials are wrong |
| `AccountHistory.ResetRefusals` | backend/app/identity/service.py:231-234 | a reset is refused for its link if and only if the link does not work, and for its password only by a working one |
| `IdentityHistory.SessionTracked` | backend/app/identity/store.py:366-391 | what a session's record holds after any run, told from the history alone |
| `IdentityHistory.RedeemedOnce` | backend/app/identity/service.py:371-377 | over any run a link is redeemed at most once |
| `IdentityHistory.RedeemedForItsPurpose` | backend/app/identity/service.py:371-377 | a link is redeemed if and only if it is outstanding, unexpired and presented for its own purpose |
| `IdentityHistory.SpentForever` | backend/app/identity/store.py:500-515 | a used or superseded token never works again |
| `IdentityHistory.ResetSucceedsIff` | backend/app/identity/service.py:231-237 | a reset succeeds if and only if its link still works and the password is long enough |
| `IdentityHistory.ShortPasswordSpendsLink` | backend/app/identity/service.py:231-234 | the finding: a too short password spends the link, and no later attempt with it can succeed |
| `IdentityHistory.RunKeepsValid` | backend/app/identity/service.py:117-377 | over any run emails stay pairwise distinct, token hashes too, and at most one token per user and purpose is outstanding |
| `Identity.ApplyKeepsValid` | backend/app/identity/service.py:117-377 | every operation keeps those three |
| `Identity.IssueKeeps` | backend/app/identity/service.py:344-352 | issuing supersedes: it leaves one outstanding token for the user and purpose |
| `Approvals.FileApprovalStore.Create` | backend/app/security/approvals.py:128-133 | creating stores request and checkpoint, with an expiry from the store's lifetime when the request has none |
| `Approvals.FileApprovalStore.Expire` | backend/app/security/approvals.py:196-200 | exactly a pending request whose expiry has come becomes expired |
| `Approvals.FileApprovalStore.Get` | backend/app/security/approvals.py:135-141 | reading ages the one request it reads and returns it, or nothing |
| `Approvals.FileApprovalStore.ListForRun` | backend/app/security/approvals.py:143-151 | listing ages exactly the run's requests and returns all of them, each once, the oldest first |
| `Approvals.FileApprovalStore.Resolve` | backend/app/security/approvals.py:153-165 | only approve and reject are accepted; the same answer again is idempotent, a different one conflicts, an overdue request conflicts |
| `Approvals.FileApprovalStore.Claim` | backend/app/security/approvals.py:173-181 | a claim needs the expected status and nobody started; it marks the start, and changes nothing else but age |
| `Approvals.FileApprovalStore.CompleteExecution` | backend/app/security/approvals.py:183-189 | completion replaces the checkpoint's state and stamps the time, and nothing else |
| `AgentRunners.AgentRunner.Loop` | backend/app/runtime/runner.py:206-325 | the while loop alone, with the invariants that tie each pass to the state machine |
| `AgentRunners.AgentRunner.Run` | backend/app/runtime/runner.py:157-344 | the loop, over mutable state, executor and store, does exactly what the state machine says from any state: final state, tools executed in order, and one stored approval when it pauses; a waiting run is returned untouched |
| `AgentRunners.AgentRunner.Iterate` | backend/app/runtime/runner.py:241-320 | one pass: a model that cannot be reached raises before the iteration counts; otherwise it counts and the action is applied |
| `AgentRunners.AgentRunner.ApplyAction` | backend/app/runtime/runner.py:346-530 | each action changes the run, the executed tools and the approval store as the state machine says |
| `AgentRunners.AgentRunner.UseToolAction` | backend/app/runtime/runner.py:349-429 | call limit, then duplicate check, then counting, then approval or execution, in that order; a failed tool counts an error and may stop the run |
| `AgentRunners.AgentRunner.LoadSkillAction` | backend/app/runtime/runner.py:431-485 | a loaded or already loaded skill clears the fingerprints; an unknown one is an error; any other failure raises and changes nothing |
| `AgentRunners.AgentRunner.FinishAction` | backend/app/runtime/runner.py:495-530 | a refused finish counts a redirect; an accepted one completes with the answer and the caveats |
| `AgentRunners.AgentRunner.PauseForApproval` | backend/app/runtime/runner.py:532-562 | pausing stores the exact action with a checkpoint of the still running state, unless there is no store or no known capability |
| `AgentRunners.AgentRunner.ResumeApproval` | backend/app/runtime/runner.py:564-602 | only the caller whose claim is granted executes, once and only if the fingerprints still agree; others get the checkpoint; completion is recorded unless the run fails |
| `AgentRunners.AgentRunner.ResumeRejection` | backend/app/runtime/runner.py:604-628 | the rejection becomes an observation and an error and the run goes on; nothing is executed for it |
| `AgentRunners.AgentRunner.GoOn` | backend/app/runtime/runner.py:595-602 | a resumed run goes on as the loop says, and its end is recorded on the approval unless it raised |
| `AgentRunners.AgentRunner.ConsecutiveDuplicateCount` | backend/app/runtime/runner.py:630-639 | the backwards loop counts the trailing block |
| `AgentRunners.AgentRunner.RecordObservation` | backend/app/runtime/runner.py:641-654 | appends one observation with the next sequence number and nothing else |
| `AgentRunners.AgentRunner.UpdateInvestigationPlan` | backend/app/runtime/runner.py:656-681 | stores the reconciled plan, or leaves the plan when none was given |
| `AgentRunners.AgentRunner.Stop` | backend/app/runtime/control.py:67-84 | a stop fails the run with its reason and answer and touches nothing else |
| `AgentRunners.AgentRunner.RecordRecoverableError` | backend/app/runtime/control.py:58-65 | an error is counted and stops the run exactly at the limit |
| `Schedules.ScheduledReportStore.ClaimDue` | backend/app/scheduling/store.py:171-201 | claims the earliest due rows, as many as asked for or all there are, stamps exactly those, and returns them in order |
| `Schedules.ScheduledReportStore.RecordRunResult` | backend/app/scheduling/store.py:203-221 | records time and result, resets or counts failures, clears the claim whoever holds it, and sets the next run |
| `Schedules.SchedulerWorker.RunOnce` | backend/app/scheduling/worker.py:79-89 | every row of the earliest batch is run and recorded exactly once with the next run of its own schedule, one execution is written for each that was not skipped, and no other row changes |
| `Schedules.SchedulerWorker.RunBatch` | backend/app/scheduling/worker.py:86-89 | the loop over the claimed definitions |
| `Schedules.SchedulerWorker.RunOne` | backend/app/scheduling/worker.py:91-162 | skipped, completed or failed as the definition and the retry loop say, written down at most once and rescheduled once |
| `Schedules.SchedulerWorker.Reschedule` | backend/app/scheduling/worker.py:177-184 | the next run comes from the calculator at the claimed moment and is recorded with the result |
| `Calculator.CandidateDates.Next` | backend/app/scheduling/calculator.py:48-87 | the generator yields the matching dates one after another and skips none |
| `Calculator.CandidateDates.NextWeekday` | backend/app/scheduling/calculator.py:62-69 | the weekly branch finds the next date of its weekday and skips none |
| `Calculator.CandidateDates.NextQuarterDay` | backend/app/scheduling/calculator.py:78-84 | the quarterly branch steps months until the cycle matches and skips none |
| `RateLimit.InMemoryRateLimiter.Check` | backend/app/identity/rate_limit.py:53-64 | expired hits leave the bucket, then the hit is admitted and appended or refused with the remaining wait; other buckets are untouched |
| `RateLimit.InMemoryRateLimiter.EnforceRateLimit` | backend/app/identity/rate_limit.py:67-72 | the keys are checked in turn until the first refusal |
| `Pool.DataSourceRuntimePool.LookUp` | backend/app/datasources/pool.py:53-67 | returns what is cached for the connection's workspace, source and version, and nothing else |
| `Pool.DataSourceRuntimePool.Install` | backend/app/datasources/pool.py:69-81 | the loser of a race is disposed and the winner returned; otherwise the new runtime is cached |
| `Pool.DataSourceRuntimePool.Invalidate` | backend/app/datasources/pool.py:83-100 | exactly the source's entries leave the cache and are disposed |
| `Pool.DataSourceRuntimePool.Dispose` | backend/app/datasources/pool.py:102-112 | everything cached is disposed and the cache is empty |
| `TraceStore.InMemoryTraceStore.Save` | backend/app/observability/in_memory.py:19-24 | the trace is stored, becomes most recent, and at most the least recent one goes |
| `TraceStore.InMemoryTraceStore.Get` | backend/app/observability/in_memory.py:26-31 | a hit is returned and becomes most recent; a miss changes nothing |
| `Artifacts.WorkspaceArtifactStore.ClaimExpired` | backend/app/artifacts/store.py:235-251 | the batch is the sorted eligible prefix; exactly its rows are stamped |
| `Artifacts.WorkspaceArtifactStore.CollectEligible` | backend/app/artifacts/store.py:238-246 | the filter keeps exactly the eligible rows, in insertion order |
| `Artifacts.WorkspaceArtifactStore.Record` | backend/app/artifacts/store.py:193-202 | a new row is appended, a known one replaced in place |
| `Artifacts.WorkspaceArtifactStore.MarkDeleted` | backend/app/artifacts/store.py:253-260 | only the named artifact of the workspace is marked and its claim cleared |
| `Artifacts.WorkspaceArtifactStore.RecordDeletionFailure` | backend/app/artifacts/store.py:262-269 | only the named artifact of the workspace gets one more attempt and the error, and its claim is cleared |
| `Artifacts.RetentionWorker.RunOnce` | backend/app/artifacts/retention.py:49-57 | a sweep claims a batch and settles each of it, reporting what became of each |
| `Artifacts.RetentionWorker.DeleteOne` | backend/app/artifacts/retention.py:59-78 | deleted, failed, or given up at the limit, as the file system answers |
| `DataSources.DataSourceStore.CreateConnection` | backend/app/datasources/store.py:260-282 | a new connection is stored as created and nothing else changes |
| `DataSources.DataSourceStore.GetConnection` | backend/app/datasources/store.py:284-289 | finds exactly a connection of the workspace that is not deleted |
| `DataSources.DataSourceStore.UpdateConnectionStatus` | backend/app/datasources/store.py:313-337 | sets status of exactly the visible connection |
| `DataSources.DataSourceStore.UpdateConnectionConfig` | backend/app/datasources/store.py:339-372 | settings, secret and version of exactly the visible connection change |
| `DataSources.DataSourceStore.SoftDeleteConnection` | backend/app/datasources/store.py:374-385 | the connection is marked deleted and is not found again |
| `DataSources.DataSourceOnboardingService.RuntimeFor` | backend/app/datasources/service.py:82-103 | a missing connection raises; a refusal by policy is recorded on the connection |
| `DataSources.DataSourceOnboardingService.TestConnectivity` | backend/app/datasources/service.py:126-146 | the outcome of a connectivity test, on store and caller |
| `DataSources.DataSourceOnboardingService.VerifyReadOnlyBehavior` | backend/app/datasources/service.py:150-163 | the outcome of a read-only verification |
| `DataSources.DataSourceOnboardingService.ActivateConnection` | backend/app/datasources/service.py:239-254 | activation needs a verified status and an approved table |
| `DataSources.DataSourceOnboardingService.Update` | backend/app/datasources/service.py:258-292 | a changed configuration raises the version and invalidates the pool; an unchanged one only reads |
| `DataSources.DataSourceOnboardingService.Replace` | backend/app/datasources/service.py:294-314 | new credentials raise the version and invalidate the pool |
| `DataSources.DataSourceOnboardingService.DisableConnection` | backend/app/datasources/service.py:316-340 | disabling sets the status and invalidates the pool |
| `DataSources.DataSourceOnboardingService.EnableConnection` | backend/app/datasources/service.py:342-367 | enabling only leaves a disabled status |
| `DataSources.DataSourceOnboardingService.Delete` | backend/app/datasources/service.py:369-385 | deletion hides the connection and invalidates the pool |
| `Identity.InMemoryUserStore.GetByEmail` | backend/app/identity/store.py:116-118 | finds the one user with the address, or nobody |
| `Identity.InMemoryUserStore.UpdatePasswordHash` | backend/app/identity/store.py:120-125 | changes the hash of that user only |
| `Identity.InMemoryUserStore.SetActive` | backend/app/identity/store.py:141-146 | changes the flag of that user only |
| `Identity.InMemorySessionStore.GetByTokenHash` | backend/app/identity/store.py:362-364 | finds the one session with the hash, or none |
| `Identity.InMemorySessionStore.Revoke` | backend/app/identity/store.py:373-378 | revokes exactly that session |
| `Identity.InMemorySessionStore.RevokeAllForUser` | backend/app/identity/store.py:380-391 | revokes exactly the user's unrevoked sessions but the one kept, and counts them |
| `Identity.InMemoryIdentityTokenStore.GetByTokenHash` | backend/app/identity/store.py:493-498 | finds the token of that hash and purpose, or none |
| `Identity.InMemoryIdentityTokenStore.RevokeActiveForUser` | backend/app/identity/store.py:507-515 | supersedes exactly the user's outstanding tokens of the purpose |
| `Identity.AuthService.IssueToken` | backend/app/identity/service.py:344-352 | older links of the purpose are superseded before the new one is stored, with the purpose's lifetime |
| `Identity.AuthService.ConsumeToken` | backend/app/identity/service.py:371-377 | a token that can be redeemed is returned and marked used; any other leaves the store alone |
| `Identity.AuthService.RegisterUser` | backend/app/identity/service.py:117-127 | refused for a short password or a taken address, otherwise creates the user and a verification link |
| `Identity.AuthService.LogIn` | backend/app/identity/service.py:131-160 | refuses unknown, wrong and disabled accounts in that order, otherwise opens a session |
| `Identity.AuthService.Validate` | backend/app/identity/service.py:162-180 | a usable session is touched, any other changes nothing |
| `Identity.AuthService.LogOut` | backend/app/identity/service.py:188-190 | revokes that session |
| `Identity.AuthService.LogOutAll` | backend/app/identity/service.py:192-195 | revokes and counts the user's sessions |
| `Identity.AuthService.ChangeOwnPassword` | backend/app/identity/service.py:199-210 | needs the current password and a long enough new one; ends the other sessions |
| `Identity.AuthService.RequestPasswordReset` | backend/app/identity/service.py:212-229 | issues a link only for an active account |
| `Identity.AuthService.ResetForgottenPassword` | backend/app/identity/service.py:231-237 | consumes the link first, then checks the password, then changes it and ends all sessions |
| `Identity.AuthService.ResendEmailVerification` | backend/app/identity/service.py:241-247 | issues a new link unless the address is verified |
| `Identity.AuthService.ConfirmEmail` | backend/app/identity/service.py:249-252 | consumes the link and marks the address verified |
| `Identity.AuthService.RequestNewEmail` | backend/app/identity/service.py:284-320 | needs the password and a new, free address; stores it as pending with a link |
| `Identity.AuthService.ConfirmNewEmail` | backend/app/identity/service.py:322-340 | consumes the link, refuses a taken address, otherwise changes it and ends all sessions |

## Left out

- The language model, prompts, context building, memory, summaries, logging, traces, citations, artifacts registered by a run and pricing: they do not feed back into the state modelled here.
- Delegation limits and bookkeeping (`delegation_requests`, child run ids, delegation fingerprints): a delegation is one observation with or without an error, as every path of `backend/app/runtime/steps/delegation_step.py` leaves it.
- The policy, the tool executor and the risk classifier: their answers are inputs; policy refusals arrive as failed tool results.
- Goal and depth mismatches at the start of a run, and fatal errors after an action: a raised error ends the run, and only its effect on state and store is modelled.
- AgentRunners.AgentRunner.LoadSkillAction: the registry is an input; only an unknown skill is told apart from other failures, as the code does.
- Identity.AuthService.LogIn: like the other operations that look up an address or a token, it asks for distinct addresses and hashes, which `Identity.ApplyKeepsValid` proves of every state the operations reach.
- File-level atomicity and corrupt files in the approval store; SQL, row locks and `skip_locked`: each call is one step on a map.
- Approvals with status cancelled: no operation of the store produces it.
- LeaseProtocol.NeverTwoHolders: assumes that a live worker is done within `stale_after` of its reference, and nothing else; the code does not enforce it, and `LeaseRuns.SlowWorkerShares` shows what then happens.
- LeaseProtocol.NoneFinishedTwice: assumes promptness and that no record or edit brings back a firing already run; `LeaseProtocol.FinishedInOrderIff` says that this is exactly what order needs, and `LeaseRuns.RepeatedHourRunsTwice` shows a run without it.
- LeaseProtocol.FinishedInOrderIff: for an edit that read the clock before an occurrence since finished, asks that the new zone's clock changes are a day apart and skip at most a day.
- Pool.ReturnedSettings: leaves the separately read password out; `PoolStore.ReturnedRuntime` and `PoolStore.OwnSecretIff` have it.
- Artifacts.FinitelyManyClaims: speaks of whole sweeps; claims of workers that crash or come late are in `RetentionClaims.ClaimsWithinBudget`.
- Schedules.SchedulerWorker.RunOne: an exception other than a failed execution, which would abandon the batch, is the protocol's crash step; delivery of artifacts is left out.
- Dates outside the years 1 to 9999 in the calculator, where Python would raise; `Periods.ResolvesIff` says exactly when periods do.
- DataSources.ActiveMeansVerified: operations run one after another; the code does not guard a verification against a concurrent change, so nothing is claimed for that race.
- Disposal failures in the pool, deep copies in the trace store, table catalogues and relationships of data sources, freshness checks.
- Identity: rehashing at login, profile fields, session listing, the mail itself, audit records and the concurrent race between reading and marking a token.
- The artifact registry's files: registering writes a row only, and deleting a file either works or fails.
- Postgres-backed variants of the in-process stores, HTTP routes, the front end, metrics, evaluation and governed columns: they would add only easy members.
