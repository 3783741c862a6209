# PAcopilot.ai: the protocols, verified

A Dafny model of the parts of PAcopilot.ai whose correctness is a statement about whole
runs: the report execution protocol and the workers it trusts, the chat turn loops with
their fallback provider and token quota, the rate limiters, the chunker, engineering
memory and the framing of gateway answers.

Check everything with `dafny verify dfyconfig.toml`.

## What is modelled

**Report execution** (`ReportEnums` to `ExecutionService`). One row is the datatype
`Executions.Execution`; each lifecycle call is a function from a row and a clock reading to
the new row or the exception. `ReportProtocol` makes the table a transition system over
rows, report definitions, row locks and a clock that only moves forward: one action is one
committed call, and a claim is two, taking the lock (`FOR UPDATE SKIP LOCKED`) and writing
the row. `Inv` ties rows, keys, parent links, locks and clock together and every action
keeps it. From it follow one chain per logical run, one success ever, exclusive and fair
claims, own-child retries, leases that stand their length and end in time, and termination.
`ReportCalls` says the same of single calls by the columns alone. `EnqueueRace` splits `enqueue`
into its lookup, insert and recovery, for any number of callers; `ReportAdmission` holds the
checks it makes before. The classes
`ReportExecution`, `Repository` and `Service` carry out the calls in place, and each method
is proved to be the action or function it implements; the reaper's loops are proved to be
a sequence of actions that clears what it selected.

**Worker identity** (`WorkerRecords`, `WorkerIdentity`). Enrolment, rotation, re-issue,
disabling and token resolution over all workers. Secrets and tokens are fresh numbers, and
hashing is an injective constructor.

**Chat turns** (`AiMessages` to `TurnProperties`, `QuotaLedger`). The model and the tools are
an environment that answers the n-th call as it likes, or fails. The blocking loop and the
streaming loop are two methods, each proved equal to its own recursive definition; a stream
may be closed by the client at any event it yields. The two definitions are then compared.
The quota is a ledger over any interleaving of turns.

**Rate limiting** (`SlidingWindows`, `RateLimiter`). The pruned deque with its sweep and the
Redis script with its key expiry, both against counting a full log.

**Chunking** (`TextShape`, `Chunking`, `ChunkPacking`). Python's `strip`, `splitlines`, `join`
and the paragraph `re.split` are defined on characters; the test for a structural boundary
is a parameter. Text is measured by its ink, the characters that are not white space.

**Engineering memory** (`EngineeringMemories`, `EngineeringMemoryServices`) and **gateway framing**
(`Base64`, `GatewayFraming`).

## What the proofs found

- An overdue heartbeat writes TIMED_OUT and then raises, and the session rolls back on a
  raise: the time-out never lasts. The lease is not extended either way, and the reaper
  later records the same run as a lapsed lease (`ReportExecutions.ReportExecution.ReportProgress`).
- A retry's queue time counts from its creation, not from the end of its backoff. Every poll
  reaps first, so while an organization has at most 50 overdue rows its polls are offered a
  retry exactly from the end of its backoff to the end of its timeout (`RetryOfferedIff`):
  never when the backoff is longer, as for the third attempt of a 60-second report
  (`ThirdAttemptOfShortReportNeverRuns`). With more than 50, an overdue row can miss the
  reaper's page and still be claimed (`ClaimedInItsWindowIff`, `PageMayMissIff`).
- The retry lookup is safe because root keys hold no `#`, which nothing checks
  (`ForeignKeyIsMistakenForRetry`).
- A comment in `backend/src/reports/state_machine.py` has the reaper put ASSIGNED rows back
  in the queue; no code does, and that edge is the only one that does not lower the rank.
- Two worker credentials can share a version: a worker disabled before it enrols, rotated
  and enabled can still enrol with its first token, and access tokens minted by the rotated
  secret keep resolving (`TwoCredentialsShareAnEpoch`).
- Plain streaming chat (no agent, `enable_tools` false) is offered tools but stops after one
  round; blocking chat goes on (`PlainChatAgreesIff`).
- A blocking turn writes no usage row when a call raises; a streamed turn always does
  (`RowsAgreeIff`).
- The quota check awaits the database between reading the month's total and the turns in
  flight. A turn that records and ends in between is counted by neither. The bound on the
  overshoot survives exactly when the later total would have admitted the turn too, or the
  earlier one refused it (`SplitCheckIsSafeIff`); it can fail under any limit
  (`StaleTotalOvershoots`).
- Engineering memory takes no lock between reading and writing. A late edit keeps the version
  chains exactly when no other edit came first (`LateEditKeepsChainIff`); a late decision
  undoes an archive or replaces a decider unless the memory is still proposed
  (`LateDecisionIff`).
- Enrolment takes no lock either: overlapping calls with one token both succeed, and a late
  write can undo a re-issue or a disable (`LateEnrolmentIsACallIff`).
- The gateway relay counts answer parts without looking at their index. What it hands over
  is whole exactly when no part has come twice (`HandOverIsWholeIffNoRepeat`).

## Model

| member | source | states |
|---|---|---|
| StateMachine.RankFalls | backend/src/reports/state_machine.py:17-52 | every allowed move lowers a rank of at most four, except the edge from ASSIGNED back to QUEUED |
| IdempotencyKeys.ManualKey | backend/src/reports/execution_service.py:98-114 | a manual key is a root key: it holds no `#` |
| IdempotencyKeys.ManualKeysMeetPerMinute | backend/src/reports/execution_service.py:98-114 | two manual keys are equal exactly for the same report, user and minute |
| IdempotencyKeys.ScheduledKeyInjective | backend/src/reports/execution_service.py:116-127 | one key per report and scheduled occurrence, and it is a root key |
| IdempotencyKeys.ManualIsNotScheduled | backend/src/reports/execution_service.py:98-127 | no scheduled occurrence shares its key with a manual run |
| IdempotencyKeys.RetryKeyInjective | backend/src/reports/execution_service.py:548-549 | key ++ `#a` ++ digits determines key and attempt, whatever the key holds |
| IdempotencyKeys.RetryKeyIsNotRoot | backend/src/reports/execution_service.py:548-549 | no retry key is a root key |
| Executions.TimeoutFor | backend/src/reports/execution_service.py:75-96 | no readable request gives the default; a request between 60 seconds and the maximum is kept, any other is clamped |
| Executions.BackoffGrowsToItsCap | backend/src/reports/execution_service.py:521-530 | the backoff never falls from one attempt to the next and never exceeds its cap |
| Executions.BackoffDoubles | backend/src/reports/execution_service.py:521-530 | the first retry waits the base delay and each later one twice the one before, up to the cap |
| ReportProtocol.RetryKeyFindsOwnChild | backend/src/reports/execution_service.py:548-556 | whatever row the lookup under a retry key finds is this row's own child, the next attempt, and this row is RETRYING |
| ReportProtocol.ApplyKeepsInv | backend/src/reports/execution_service.py:354-606 | every step keeps: lease set exactly on ASSIGNED and RUNNING, completed_at exactly on finished rows, worker and assignment together, RETRYABLE only on FAILED, TIMED_OUT or RETRYING, leases bounded, keys unique, parent links sound |
| ReportProtocol.PlayKeepsInv | backend/src/reports/execution_service.py:354-606 | the invariant holds after any sequence of actions |
| ReportRuns.OneRunIsOneChain | backend/src/reports/execution_service.py:515-606 | the rows of one correlation id are attempts 1..k, k at most max_attempts, each the child of the one before, with the same run columns, all but the last RETRYING |
| ReportRuns.OneTail | backend/src/reports/execution_service.py:515-606 | at most one row of a run is not RETRYING, so at most one is live |
| ReportRuns.RetiredExactlyWithChild | backend/src/reports/execution_service.py:596-606 | a row is RETRYING exactly when it has a child, and it has at most one |
| ReportHistory.RowsEvolve | backend/src/reports/state_machine.py:17-52 | over any run a row keeps its identity and, once claimed, its worker; SUCCEEDED, CANCELLED and RETRYING rows never change |
| ReportHistory.OneSuccessEver | backend/src/reports/state_machine.py:8-52 | two rows of one logical run that are SUCCEEDED at any two times are the same row |
| ReportHistory.HoldersWereGranted | backend/src/repositories/report_execution_repository.py:130-168 | every row with a worker was granted to it: queued, available, same organization, pinned to nobody or to it, formats supported, and first by (available_at, queued_at) among the eligible unlocked rows at that moment |
| ReportHistory.ClaimedOnce | backend/src/repositories/report_execution_repository.py:109-115 | once a row has been claimed no later lock or write claims it again, whatever the interleaving |
| ReportHistory.OneMovePerStep | backend/src/reports/execution_service.py:354-606 | one action changes the status of at most one existing row of a run |
| ReportHistory.MoveCostsOne | backend/src/reports/execution_service.py:521-606 | a status change or spawned retry lowers the run's remaining budget, a lexicographic measure of attempts left and rank |
| ReportHistory.RunsFinish | backend/src/reports/execution_service.py:515-673 | a logical run changes status at most 4 * max_attempts times over any history |
| ReportCalls.StartAnswers | backend/src/reports/execution_service.py:354-375 | by the columns: not found unless the row is held by this worker in its organization, a conflict unless ASSIGNED, else RUNNING from now with a full lease |
| ReportCalls.ExtendAnswers | backend/src/reports/execution_service.py:393-437 | by the columns: a holder of a leased row gets a full lease until its timeout has passed since it started, or else was assigned, and only then times out |
| ReportCalls.SucceedAnswers | backend/src/reports/execution_service.py:449-459 | by the columns: only the holder of a RUNNING row, with completion now and no lease |
| ReportCalls.FailAnswers | backend/src/reports/execution_service.py:473-490 | by the columns: the service, or the holder; a queued row can only time out; the code and its class are recorded |
| ReportCalls.CancelAnswers | backend/src/reports/execution_service.py:498-509 | by the columns: any unfinished row, as not retryable |
| ReportCalls.MayLockIff | backend/src/repositories/report_execution_repository.py:130-151 | by the columns: capabilities, queued, due, unlocked, organization, pin, formats, and no such row that became available, or then was queued, earlier |
| ReportCalls.OnlyTheHolderMoves | backend/src/reports/execution_service.py:746-763 | a worker's call changes a row only if the row names this worker and its organization, and is not found otherwise |
| ReportCalls.SuccessIsTheHolders | backend/src/reports/execution_service.py:746-763 | over any run every SUCCEEDED row was started, and later finished, by calls of the worker it was granted to |
| ReportCalls.RetriedIffRetryable | backend/src/reports/execution_service.py:515-519 | only a RETRYABLE row with an attempt left has or gets a child |
| ReportCalls.OtherFailuresAreFinal | backend/src/reports/execution_service.py:478-486 | a failure of any other class is kept as it is for good, without a child |
| ReportCalls.LeaseIsWritten | backend/src/reports/execution_service.py:345-373 | claiming, starting and extending write a lease of exactly the configured length from their clock reading |
| ReportCalls.LeaseStandsItsLength | backend/src/reports/execution_service.py:345-430 | over any run a row keeps at least that lease for as long as it keeps one |
| ReportRetries.RetryAnswersOwnChild | backend/src/reports/execution_service.py:545-606 | create_retry never raises, spawns exactly when the row may retry and has no child, and otherwise answers its own child |
| ReportRetries.RetryIsIdempotent | backend/src/reports/execution_service.py:537-556 | a repeated create_retry, at any later time, answers the child made first |
| ReportRetries.ForeignKeyIsMistakenForRetry | backend/src/reports/execution_service.py:548-556 | without the root-key discipline the lookup returns a stranger's row |
| ReportRetries.NothingIsHeldForever | backend/src/reports/execution_service.py:367-430 | in every reachable table a lease ends by (started, else assigned) + timeout + lease, and the reaper's query selects the row after that |
| ReportRetries.RootClaimableForItsTimeout | backend/src/repositories/report_execution_repository.py:217-228 | an untouched first attempt is available and not overdue exactly from queueing to the end of its timeout |
| ReportRetries.RetryClaimableIffBackoffFits | backend/src/reports/execution_service.py:576-579 | a retry is available and not overdue at some moment if and only if its backoff is at most its timeout |
| ReportRetries.ThirdAttemptOfShortReportNeverRuns | backend/src/reports/execution_service.py:521-579 | with the default settings the third attempt of a 60-second report is overdue before it is available |
| EnqueueRace.RaceKeepsInv | backend/src/reports/execution_service.py:158-203 | any interleaving of lookups, inserts and recoveries keeps the race invariant |
| EnqueueRace.EnqueueIsExactlyOnce | backend/src/reports/execution_service.py:158-203 | for any number of callers of one key: none crashes, all that return name the one row, and exactly one is told it created it |
| ReportExecutions.ReportExecution.MarkStarted | backend/src/reports/execution_service.py:354-375 | in place: ownership, then the transition, then RUNNING with a fresh lease, or the row untouched |
| ReportExecutions.ReportExecution.Succeed | backend/src/reports/execution_service.py:439-459 | in place: SUCCEEDED and finalized, or the row untouched |
| ReportExecutions.ReportExecution.Fail | backend/src/reports/execution_service.py:461-490 | in place: the target status with error code and its retry class, or the row untouched |
| ReportExecutions.ReportExecution.Cancel | backend/src/reports/execution_service.py:492-509 | in place: CANCELLED, not retryable, or the row untouched |
| ReportExecutions.ReportExecution.Finalize | backend/src/reports/execution_service.py:765-777 | completed_at set and the lease released |
| ReportExecutions.ReportExecution.ExtendLease | backend/src/reports/execution_service.py:377-437 | a timely heartbeat extends the lease; an overdue one fails the row and raises |
| ReportExecutions.ReportExecution.ReportProgress | backend/src/database/session.py:58-65 | the whole request: after the rollback an overdue heartbeat has changed nothing |
| ExecutionRepository.Repository.GetByIdempotencyKey | backend/src/repositories/report_execution_repository.py:26-40 | finds the row of this organization and key, or nothing exactly when there is none |
| ExecutionRepository.Repository.Create | backend/alembic/versions/a7d31f905c48_add_report_automation.py:361-365 | inserts the row, or nothing when the unique index already holds its key |
| ExecutionRepository.Repository.ClaimNext | backend/src/repositories/report_execution_repository.py:130-168 | assigns the first eligible row in order and no other; none only when no row is eligible |
| ExecutionRepository.Repository.FindExpiredLeases | backend/src/repositories/report_execution_repository.py:170-199 | a page of at most 50 distinct lapsed leases, all of them if they fit |
| ExecutionRepository.Repository.FindStaleQueued | backend/src/repositories/report_execution_repository.py:201-238 | a page of at most 50 distinct overdue queued rows, all of them if they fit |
| Reaping.NothingNewIsDue | backend/src/reports/execution_service.py:608-673 | after a sweep only rows it did not select can still be due |
| Reaping.LeaseGetsOneChild | backend/src/reports/execution_service.py:631-650 | each swept lease with attempts left has exactly one child, and it is queued |
| Reaping.QueuedGetsNoChild | backend/src/reports/execution_service.py:656-666 | a swept queued row is TIMED_OUT and has no child |
| ReportAdmission.RequiredForAClaim | backend/src/reports/execution_service.py:277-297 | the capabilities admission requires of a worker are exactly those a claim requires |
| ReportAdmission.AssertAWorkerCouldRun | backend/src/reports/execution_service.py:205-275 | admits exactly when the pinned worker, or some worker of the organization, is schedulable and capable; the refusal says whether any was schedulable |
| ReportAdmission.AdmittedForThoseWhoMayClaim | backend/src/reports/execution_service.py:205-275 | a report is admitted for exactly the schedulable workers that may claim any execution of it that is queued and due, retries included |
| ReportAdmission.RunIsOf | backend/src/reports/execution_service.py:169-184 | the report, workbook, user, attempts and clamped timeout a queued run carries |
| ExecutionService.Service.Enqueue | backend/src/reports/execution_service.py:129-203 | refuses for the report, returns the existing row unchanged, refuses for want of a worker, or inserts exactly the new row |
| ExecutionService.Service.CreateRetry | backend/src/reports/execution_service.py:532-606 | its outcome and whole new table: parent RETRYING with a new child, or nothing changed |
| ExecutionService.LeaseReapedIsTwoActions | backend/src/reports/execution_service.py:631-650 | reaping one lease is a failure and then, exactly when an attempt is left, a spawned retry; neither raises |
| ExecutionService.Service.ReapStaleExecutions | backend/src/reports/execution_service.py:608-673 | the reaper's loops are a run of protocol actions that keeps the invariant and sweeps exactly the two pages it selected |
| ExecutionService.ReapInColumns | backend/src/reports/execution_service.py:627-666 | by the columns: a reap changes only leased rows whose lease ended before now and queued rows past their timeout, of the organization asked for, and what it writes to each |
| ExecutionService.LiveLeaseIsLeftAlone | backend/src/repositories/report_execution_repository.py:184-190 | a leased row whose lease has not run out is as it was after every reap |
| ExecutionService.LeaseIsHonoured | backend/src/reports/execution_service.py:627-650 | over any run a row claimed, started or extended at t is swept as a lease by no reap up to t + lease |
| ExecutionService.QueueUntouched | backend/src/reports/execution_service.py:627-654 | reaping leases leaves the overdue queue as it was before the second query |
| ExecutionService.FullReapClears | backend/src/reports/execution_service.py:608-673 | with at most 50 rows in each population nothing stays due, the count is exact, every lapsed lease with attempts left has one queued child and no queued row has any |
| ExecutionService.Service.ClaimNext | backend/src/reports/execution_service.py:303-352 | a poll reaps its organization, then claims the first eligible row or nothing |
| ExecutionService.OfferedIff | backend/src/reports/execution_service.py:317-347 | a poll is offered a queued row exactly inside its claim window, or after it if the row is overdue and missed the reaper's page |
| ExecutionService.OfferedExactlyInItsWindow | backend/src/reports/execution_service.py:317-347 | with at most 50 overdue rows, exactly inside its claim window |
| ExecutionService.RootOfferedIff | backend/src/reports/execution_service.py:165-184 | with at most 50 overdue rows polls are offered an untouched first attempt for exactly its timeout |
| ExecutionService.RetryOfferedIff | backend/src/reports/execution_service.py:576-579 | with at most 50 overdue rows polls are offered an untouched retry exactly from the end of its backoff to the end of its timeout, so never if the backoff is longer |
| ExecutionService.ClaimedInItsWindowIff | backend/src/reports/execution_service.py:317-352 | a claimed row is inside its claim window if and only if it is not an overdue row that missed the page |
| ExecutionService.ClaimedInItsWindow | backend/src/reports/execution_service.py:317-352 | with at most 50 overdue rows every claimed row is inside its claim window |
| ExecutionRepository.PageMayMissIff | backend/src/repositories/report_execution_repository.py:236 | an overdue row can miss the page if and only if there are more than 50 |
| WorkerRecords.ReportWorker.Enroll | backend/src/reports/worker_service.py:219-276 | in place: a new credential for a live token of an enabled worker, the token spent, or nothing changed |
| WorkerRecords.ReportWorker.RotateCredential | backend/src/reports/worker_service.py:123-151 | in place: a new secret and version, refused before enrolment |
| WorkerRecords.ReportWorker.ReissueEnrollment | backend/src/reports/worker_service.py:153-184 | in place: a new token, the credential gone, a new version, refused while disabled |
| WorkerRecords.ReportWorker.SetEnabled | backend/src/reports/worker_service.py:186-217 | in place: disabled, or back to offline or pending by whether it has a credential |
| WorkerIdentity.EnrolsOnce | backend/src/reports/worker_service.py:219-276 | in serialised calls an enrolment token that has succeeded is never accepted again |
| WorkerIdentity.LateEnrolmentIsACallIff | backend/src/reports/worker_service.py:235-274 | an enrolment that writes late does what a call then would do if and only if its token would still be accepted |
| WorkerIdentity.OverlappingEnrolmentsBothSucceed | backend/src/reports/worker_service.py:235-274 | two enrolments that overlap each hand out a credential for one token |
| WorkerIdentity.EpochEndsItsTokens | backend/src/reports/worker_service.py:123-184 | an access token minted before a rotation or re-issue never resolves after it |
| WorkerIdentity.RevokedForGood | backend/src/reports/worker_service.py:306-346 | the same over a whole history from an empty table |
| WorkerIdentity.EnrolmentAndEarlierTokens | backend/src/reports/worker_service.py:219-276 | when earlier tokens of the current version keep resolving after an enrolment |
| WorkerIdentity.TwoCredentialsShareAnEpoch | backend/src/reports/worker_service.py:123-276 | a concrete run in which two secrets share one version |
| WorkerIdentity.DisabledStaysOut | backend/src/reports/worker_service.py:186-346 | until it is enabled again nothing a disabled worker holds resolves, authenticates or enrols |
| WorkerIdentity.DisabledIffSwitchedOff | backend/src/reports/worker_service.py:186-217 | after any calls a worker is disabled exactly while the last switch of its organization was off |
| WorkerIdentity.OnlyTheLastSecretAuthenticates | backend/src/reports/worker_service.py:278-304 | after any calls a secret authenticates a worker if and only if it is the last one handed to it, not taken away by a re-issue, and the worker is not disabled |
| WorkerIdentity.FreshTokenResolves | backend/src/reports/worker_service.py:278-346 | the access token an authentication mints resolves |
| WorkerIdentity.EnrolmentAcceptedIff | backend/src/reports/worker_service.py:235-261 | accepted if and only if some worker that is not disabled holds the token and its last moment has not passed |
| WorkerIdentity.TokensExpire | backend/src/reports/worker_service.py:252-261 | over any run an enrolment token is not accepted after the moment it was issued with |
| FallbackProviders.FallbackProvider.Chat | backend/src/ai/routing.py:171-178 | one retry on the fallback model for a retryable failure, and the switch is kept |
| FallbackProviders.FallbackProvider.StreamChat | backend/src/ai/routing.py:180-193 | the same for a stream, only if it had yielded nothing |
| FallbackProviders.FallsBackExactly | backend/src/ai/routing.py:168-178 | which calls fall back, what is sent and whose answer is given |
| FallbackProviders.StreamFallsBackExactly | backend/src/ai/routing.py:180-193 | the same for streams |
| AiMessages.SumAddsEachCounter | backend/src/ai/orchestrator.py:916-919 | the totals are the sums of the four counters |
| FallbackProviders.SwitchesOnce | backend/src/ai/routing.py:153-193 | the models tried stay primary* fallback*, with one extra call for the one switch |
| FallbackProviders.RendersThroughFallback | backend/src/ai/routing.py:171-193 | chat and stream fall back together when the provider's streams are its answers in pieces |
| ToolLoop.ResolveMaxToolRounds | backend/src/ai/orchestrator.py:307-311 | five rounds by default, a persona's own number between 1 and 15, 15 for more, and none for a negative number |
| ToolLoop.RunToolLoop | backend/src/ai/orchestrator.py:905-996 | the blocking loop is its recursive definition: history, requests, tool calls, totals, answer |
| StreamedTurn.LiveTurn.Round | backend/src/ai/orchestrator.py:1585-1679 | one round of the streaming loop, however it ends, and what it leaves for the finally block |
| StreamedTurn.LiveTurn.Last | backend/src/ai/orchestrator.py:1680-1725 | the call without tools when the budget has run out, usage added as it arrives |
| StreamedTurn.LiveTurn.Finish | backend/src/ai/orchestrator.py:1728-1817 | one row: what was reported, plus an estimate for a round that was cut off |
| StreamedTurn.StreamTurn | backend/src/ai/orchestrator.py:1523-1817 | the streaming turn with the client leaving at any yield is its recursive definition; no row if it leaves before the provider is asked |
| TurnProperties.LoopsAgree | backend/src/ai/orchestrator.py:905-996 | with tools enabled and nobody leaving, both loops make the same requests, inner calls, tool calls, history and usage; the stream is cut short exactly when blocking chat raises |
| TurnProperties.LeavingCutsShort | backend/src/ai/orchestrator.py:1584-1729 | wherever the client leaves, the requests asked and the tools run are an initial part of those of the whole turn, and a turn that completes is the whole turn |
| TurnProperties.LeavingCutsThere | backend/src/ai/orchestrator.py:1604-1671 | a client that leaves at event n sees n + 1 events of a turn cut off there, or the whole of a turn with fewer |
| TurnProperties.PlainChatAgreesIff | backend/src/ai/orchestrator.py:1633-1638 | without enable_tools the two turns agree if and only if the first answer asks for no tool |
| TurnProperties.TurnsAreBoundedAndSound | backend/src/ai/orchestrator.py:905-996 | for any provider, persona and closing point: at most 16 requests and 17 inner calls, primary* fallback*, every request extends the last and pairs tool calls with results id by id, and only called tools ran, in order |
| TurnProperties.RunOffers | backend/src/ai/orchestrator.py:905-981 | each request of the loop carries the turn's model, system prompt, context and tools, the one after the budget the same without tools |
| TurnProperties.StreamOffers | backend/src/ai/orchestrator.py:1591-1694 | the same for the streamed turn, wherever the client leaves |
| TurnProperties.RoundGoesOnIff | backend/src/ai/orchestrator.py:905-958 | a round goes on if and only if the answer ends in "tool_use" with a call, and then with the answer and each tool's own result added |
| TurnProperties.LastCallAsks | backend/src/ai/orchestrator.py:969-986 | after the budget: the history, the note, no tools, and its usage counted |
| TurnProperties.RaisesIffLastCallFailed | backend/src/ai/orchestrator.py:905-986 | a blocking turn raises if and only if the model failed the last call made of it, its one fallback included |
| TurnProperties.RowsAgreeIff | backend/src/ai/orchestrator.py:1315-1374 | both loops write the same usage row if and only if the model did not fail that call; the streamed turn writes one in either case |
| TurnProperties.EveryRoundIsReported | backend/src/ai/orchestrator.py:1599-1626 | of the rounds a streamed turn asked for, all but one that was cut off are in its totals |
| TurnProperties.StreamedTurnIsCharged | backend/src/ai/orchestrator.py:1727-1817 | a streamed turn that reached the provider writes exactly one row, at least what was reported, more if a cut-off round had shown text |
| TurnProperties.CutOffRoundIsEstimated | backend/src/ai/orchestrator.py:1734-1749 | the charge for a cut-off round: the last reported prompt, or a quarter of the characters sent, and a quarter of those shown |
| TurnProperties.RowsNameTheLastModel | backend/src/ai/orchestrator.py:1343-1373 | the usage row names the model of the last request sent |
| QuotaLedger.InflightTurns.BeginTurn | backend/src/ai/orchestrator.py:133-134 | one more turn for this organization, every other as it was |
| QuotaLedger.InflightTurns.EndTurn | backend/src/ai/orchestrator.py:137-143 | one fewer, never a count below one in the dictionary, every other organization as it was |
| QuotaLedger.InflightTurns.CheckUsageQuota | backend/src/ai/orchestrator.py:1100-1145 | passes exactly while total plus reservations is below the limit, always without a limit |
| QuotaLedger.PlayKeepsCounts | backend/src/ai/orchestrator.py:133-147 | over any interleaving the counter is the number of turns begun and not ended |
| QuotaLedger.OvershootIsBounded | backend/src/ai/orchestrator.py:1126-1145 | if no turn costs more than the reservation a month stays below limit + reservation |
| QuotaLedger.BoundedIffReservationCovers | backend/src/ai/orchestrator.py:1135-1142 | that bound holds for all runs of turns costing at most c if and only if c is at most the reservation |
| QuotaLedger.StaleTotalKeepsBoundIff | backend/src/ai/orchestrator.py:1131-1142 | spent plus reserved stays below limit + reservation after a check on an earlier total if and only if that total refuses or the present one would admit too |
| QuotaLedger.DrainingSpendsReserved | backend/src/ai/orchestrator.py:1135-1140 | what is reserved can be spent: ending all running turns at the reservation reaches spent plus reserved |
| QuotaLedger.SplitCheckIsSafeIff | backend/src/ai/orchestrator.py:1131-1142 | the same condition decides whether every future of turns within the reservation keeps the month below limit + reservation |
| QuotaLedger.StaleTotalOvershoots | backend/src/ai/orchestrator.py:1131-1142 | under any limit a turn that records and ends between the two readings leads to a month of at least limit + reservation |
| SlidingWindows.LimitersAgree | backend/src/core/rate_limit.py:49-102 | for checks and sweeps in time order the deque, the Redis script and the full log give the same answers and waits |
| SlidingWindows.AcceptedIffRoom | backend/src/core/rate_limit.py:71-82 | a check is accepted if and only if fewer than the limit of accepted hits are younger than the window |
| SlidingWindows.NeverMoreThanLimit | backend/src/core/rate_limit.py:65-82 | no half-open interval one window long holds more than the limit of accepted hits |
| SlidingWindows.RetryAfterIsExact | backend/src/core/rate_limit.py:76-78 | a refused key is refused at every moment before retry_after has passed and accepted from then on |
| RateLimiter.MemoryLimiter.CheckMemory | backend/src/core/rate_limit.py:65-82 | the answer and the whole new dictionary |
| RateLimiter.MemoryLimiter.Sweep | backend/src/core/rate_limit.py:49-62 | removes exactly the keys that are empty or idle longer than the larger window |
| RateLimiter.MemoryLimiter.Enforce | backend/src/core/rate_limit.py:147-218 | organization first, then user; what each refusal has spent; a sweep every 1000 hits |
| RateLimiter.RedisStore.Eval | backend/src/core/rate_limit.py:89-102 | the script's answer, its key's new state, no other key touched |
| TextShape.StripTrims | backend/src/knowledge/chunking.py:111 | strip leaves a stretch of the text with white space at neither end and only white space around it |
| TextShape.LinesKeepInk | backend/src/knowledge/chunking.py:61 | splitlines loses no ink |
| TextShape.SplitLinesAreLines | backend/src/knowledge/chunking.py:61 | the lines are the stretches between line boundaries, one character or a carriage return with its newline |
| TextShape.FirstBreak | backend/src/knowledge/chunking.py:81 | the leftmost, longest match of the paragraph break |
| TextShape.ParagraphsKeepInk | backend/src/knowledge/chunking.py:81 | splitting at paragraph breaks loses no ink |
| TextShape.SplitsIntoParagraphs | backend/src/knowledge/chunking.py:81 | the paragraphs are the stretches between the first and longest blank gaps |
| TextShape.StripAllKeepsNonBlank | backend/src/knowledge/chunking.py:75-82 | stripping and dropping the empty keeps exactly the parts that are not blank, in order |
| Chunking.SectionsPartition | backend/src/knowledge/chunking.py:61-73 | the sections in order are exactly the lines |
| Chunking.CutExactlyAtBoundaries | backend/src/knowledge/chunking.py:65-70 | a line after the first begins a new section if and only if it is a boundary before the lines that follow it |
| Chunking.SectionsAreStretches | backend/src/knowledge/chunking.py:65-73 | each section runs from the start or a boundary line to the next boundary line |
| Chunking.OneWayToStretch | backend/src/knowledge/chunking.py:65-73 | the boundaries leave one way to cut the lines so |
| Chunking.BlocksFollowTheStructure | backend/src/knowledge/chunking.py:75-84 | the blocks are the stripped texts of exactly the stretches that are not blank if there are two or more, otherwise the stripped paragraphs that are not blank |
| Chunking.Blocks | backend/src/knowledge/chunking.py:58-84 | the loop cuts before every boundary line but the first, strips, drops empty blocks and falls back to paragraphs |
| Chunking.BlocksKeepInk | backend/src/knowledge/chunking.py:58-84 | the blocks in order hold the ink of the text |
| Chunking.SplitOversized | backend/src/knowledge/chunking.py:87-102 | the loop yields the overlapping windows, stripped |
| Chunking.WindowsOverlap | backend/src/knowledge/chunking.py:93-100 | neighbouring windows share exactly `overlap` characters, and all but the last are full |
| Chunking.WindowsReassemble | backend/src/knowledge/chunking.py:93-100 | the first window and the new part of each later one are the block |
| Chunking.WindowCount | backend/src/knowledge/chunking.py:93-100 | the number of windows is (len - overlap) / (chunk_size - overlap) rounded up |
| Chunking.SplittingEnds | backend/src/knowledge/chunking.py:93-100 | an oversized block has a last pass if and only if overlap is smaller than chunk_size |
| ChunkPacking.ChunkText | backend/src/knowledge/chunking.py:105-139 | the packing loop is its recursive definition, and its last filter drops nothing |
| ChunkPacking.EveryChunkFits | backend/src/knowledge/chunking.py:119-139 | every chunk is nonempty and at most chunk_size |
| ChunkPacking.OversizedBlockIsWindowed | backend/src/knowledge/chunking.py:119-126 | the chunks of an oversized block are its stripped overlapping windows, between those of the blocks before it and those of the blocks after it |
| ChunkPacking.NothingIsLost | backend/src/knowledge/chunking.py:105-139 | the ink of any text is a subsequence of that of its chunks, and equal to it when no block is oversized or the overlap is 0 |
| ChunkPacking.FewestChunks | backend/src/knowledge/chunking.py:119-137 | with no oversized block the chunks are a split of the blocks into consecutive groups that fit, and no such split has fewer |
| EngineeringMemories.Validated | backend/src/services/engineering_memory_service.py:51-61 | passes exactly a known kind and object type with 1 to 1000 characters after stripping, and answers the stripped text |
| EngineeringMemories.CreateWrites | backend/src/services/engineering_memory_service.py:77-98 | when it raises, and every column of the new row |
| EngineeringMemories.DecideWrites | backend/src/services/engineering_memory_service.py:109-119 | each refusal in its order, and every column written |
| EngineeringMemories.EditWrites | backend/src/services/engineering_memory_service.py:126-153 | each refusal in its order, and every column of the new version: the new text stripped, the given kind or the old one, the same object, this user |
| EngineeringMemories.RowsTellTheirMaker | backend/src/services/engineering_memory_service.py:80-149 | over any run every row holds the stripped text, author, kind and object of the call that made it |
| EngineeringMemories.ApplyKeepsInv | backend/src/services/engineering_memory_service.py:63-164 | every call keeps: supersedes points to an archived memory of the same organization one version lower, none is superseded twice, decided rows have a decider |
| EngineeringMemories.OneApprovedPerLineage | backend/src/services/engineering_memory_service.py:121-153 | a lineage has at most one memory that is not archived |
| EngineeringMemories.NothingIsOverwritten | backend/src/services/engineering_memory_service.py:11-13 | over any run rows and their content stay, archived is final, a decider is never replaced |
| EngineeringMemories.SomeoneVouched | backend/src/services/engineering_memory_service.py:5-10 | every approved memory was approved by its decider in a call allowed to vouch, and none of the assistant's by its own creation |
| EngineeringMemories.TrailIsNewestVersions | backend/src/services/engineering_memory_service.py:166-175 | history is the min(version, 50) newest versions of the lineage in descending order |
| EngineeringMemories.LateEditKeepsChainIff | backend/src/services/engineering_memory_service.py:126-150 | whatever calls came between its reading and its writing, an edit keeps the invariant if and only if nothing supersedes the memory yet |
| EngineeringMemories.LateDecisionIff | backend/src/services/engineering_memory_service.py:109-117 | a late decision keeps the invariant if and only if the memory is not superseded, and what rows promise if and only if it is still proposed or had been decided the same |
| EngineeringMemories.LateArchiveIsHarmless | backend/src/services/engineering_memory_service.py:155-164 | a late archive breaks nothing |
| EngineeringMemories.PromptWritesAreTheCalls | backend/src/services/engineering_memory_service.py:106-164 | written over the table it read, each write is its call |
| EngineeringMemories.OverlappingEditsFork | backend/src/services/engineering_memory_service.py:126-150 | any two edits that read the same approved version leave two approved successors |
| EngineeringMemories.OverlappingDecisions | backend/src/services/engineering_memory_service.py:106-164 | a decision that overlaps an archive brings the memory back, one that overlaps a decision replaces its decider |
| EngineeringMemoryServices.Service.Create | backend/src/services/engineering_memory_service.py:63-98 | the call is its action of the protocol, answer and table |
| EngineeringMemoryServices.Service.Decide | backend/src/services/engineering_memory_service.py:106-119 | the call is its action of the protocol, answer and table |
| EngineeringMemoryServices.Service.Edit | backend/src/services/engineering_memory_service.py:121-153 | the call is its action of the protocol, answer and table |
| EngineeringMemoryServices.Service.Archive | backend/src/services/engineering_memory_service.py:155-164 | the call is its action of the protocol, answer and table |
| EngineeringMemoryServices.Service.History | backend/src/services/engineering_memory_service.py:166-175 | the traversal loop returns the stored objects of the trail |
| EngineeringMemoryServices.HistoryListsNewest | backend/src/services/engineering_memory_service.py:166-175 | after any calls, versions v, v - 1, ... as far as 50 of them |
| Base64.Base64RoundTrip | gateway/pa_gateway.py:116-121 | decoding inverts encoding, and n bytes take 4 * ceil(n / 3) characters (section 4 of RFC 4648) |
| Base64.SymbolTable | gateway/pa_gateway.py:116-121 | the alphabet of Table 1 of RFC 4648 |
| Base64.TestVectors | gateway/pa_gateway.py:116-121 | vectors of section 10 of RFC 4648 |
| GatewayFraming.SplitAnswer | gateway/pa_gateway.py:124-135 | the loops build exactly the parts of the encoded body |
| GatewayFraming.PartsAreWellFormed | gateway/pa_gateway.py:127-134 | part i has index i below the count, at most 699050 characters, and only part 0 carries the answer |
| GatewayFraming.OneSortedOrder | backend/src/tm1/gateway/relay.py:278 | parts with distinct indices sort into one order |
| GatewayFraming.FramingRoundTrip | backend/src/tm1/gateway/relay.py:278-291 | the parts in any order of arrival give back the answer and the body |
| GatewayFraming.CompleteWhenAllArrived | backend/src/tm1/gateway/relay.py:212-213 | while no part has come twice, complete means every part is there |
| GatewayFraming.HandOverIsWholeIffNoRepeat | backend/src/tm1/gateway/relay.py:212-213 | when the broker hands over parts of an answer, however many there are, all are there if and only if none has come twice |
| GatewayFraming.RepeatCountsAsArrival | backend/src/tm1/gateway/relay.py:212-213 | any part of an answer of several can be missing at the hand-over, with another in its place |

## Left out

Report execution:

- ReportProtocol.ApplyKeepsInv: steps are serialised except claims and enqueues; the stale reads of the calls that take no row lock are not modelled, nor the recovery branch of create_retry, which needs two of them at once.
- ReportProtocol.RetryKeyFindsOwnChild: keys are unbounded strings, the column holds 200 characters.
- ExecutionService.Service.Enqueue: an output format is one of the three known ones; the service that stores reports refuses any other.
- EnqueueRace.EnqueueIsExactlyOnce: a refusal is a step any caller may take before its insert; when it is due is in ReportAdmission.AssertAWorkerCouldRun.
- ExecutionService.Service.ReapStaleExecutions: one clock reading a call, where the source reads the clock again for each row and compares the queue with the database's clock.
- `fail` with a target other than FAILED or TIMED_OUT, which no caller uses; deletion of rows and users (ON DELETE SET NULL); diagnostics, trace log, duration and messages; listing and counting queries.
- Report definitions beyond pin and output formats; schedules, e-mail, artifacts, the worker program.

Worker identity:

- WorkerIdentity.EnrolsOnce: calls are serialised; WorkerIdentity.LateEnrolmentIsACallIff says what an overlapping enrolment does. Overlaps of the other calls are not modelled.
- Host facts, effective status and the expiry of access tokens; secrets never collide and hashes are injective.

Chat turns:

- TurnProperties.LoopsAgree: the text a reader sees (separators, stop-reason notices) differs between the loops by design and is not compared.
- ToolLoop.RunToolLoop: the text of earlier rounds, joined into the answer afterwards, and the stop-reason note are not modelled.
- FallbackProviders.FallbackProvider.Chat: which errors another model may get round (`is_retryable`, a regular expression) is a flag of the failure.
- TurnProperties.StreamedTurnIsCharged: database writes succeed, and a turn is cut only at a yield or by a provider error, not by cancellation while it persists its row.
- QuotaLedger.OvershootIsBounded: one process; the check is one step, which QuotaLedger.SplitCheckIsSafeIff takes apart; recording the row and ending the turn is one step, though the row commits after the count has dropped.
- The inner working of tools: a tool call answers some text and an error flag, and never raises. Prompt building, attachments, conversation storage, cost estimates, routing tiers and plan limits, which become parameters.

Rate limiting:

- SlidingWindows.LimitersAgree: one limit of at least 1 and one window per key, times in order and exact; scores are not printed and parsed as Lua numbers. With a limit of 0 the source indexes an empty deque.
- Falling back to the local limiter when Redis fails, and finding the client's address.

Chunking:

- Chunking.Blocks: the boundary regular expressions are a parameter.
- ChunkPacking.ChunkText: asks for overlap < chunk_size only where a block is oversized; `Chunking.SplittingEnds` shows the source does not end otherwise.

Engineering memory:

- EngineeringMemories.ApplyKeepsInv: calls are serialised; the late writes of edit, decide and archive are in EngineeringMemories.LateEditKeepsChainIff, LateDecisionIff and LateArchiveIsHarmless.
- Search, the prompt block and the audit log; deletion of users and connections.

Gateway:

- GatewayFraming.FramingRoundTrip: zlib (RFC 1950) is assumed to be an inverse pair that never writes an empty stream.
- Base64.Base64RoundTrip: the decoder refuses characters outside the alphabet, where Python's drops them; no encoder writes any.
- Brokers, time-outs, the allow-list and the polling loop with its backoff.

Not modelled at all: Excel and COM automation, TM1 and MCP transports, storage, sign-in,
migrations, middleware, request logging and the frontend.
