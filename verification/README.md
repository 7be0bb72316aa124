# Verified core of the Wildflow gateway

A Dafny model of the parts of the Wildflow API gateway whose behaviour is decided by state machines and
algorithms rather than by HTTP, SQL or OAuth plumbing, with proofs about every input, every run or every
reachable state. `dafny verify dfyconfig.toml` checks the whole project.

| module | what it models |
|---|---|
| `WorkerPool` | the channel health check: a producer, workers, a closer and a reducer over two unbuffered channels, with cancellation |
| `UpstreamModels` | detecting how a channel's models differ from its provider's, applying a selection, the scan over all channels |
| `BillingLedger` | the reservation ledger: wallets, keys and one record per request, changed by atomic transactions |
| `BillingSession` | one request's session on the wallet: open, top up, mark as sent, settle, refund |
| `RelayRetry` | the relay's retry loop and its deferred refund |
| `TaskSubmission` | task submission with its durability barrier between refund and settlement |
| `PricingSync`, `PricingDiff`, `ModelsDev` | the pricing normalizer, the difference table with its pruning, the choice among providers |
| `QuotaMath` | quota rounding, the decimal to binary64 conversion, saturation, the staged test quota |
| `RateLimit`, `AdmissionLimiter` | the queue-based rate limiter and the four-scope admission counter |
| `MultiKey` | the key list of a multi-key channel and the three maps that follow it |
| `BodyStorage` | request bodies in memory or in a cache file, and the counters of both |
| `OggScan`, `ETag` | the Ogg page scan for Opus durations and the If-None-Match matcher |
| `Text`, `Basics` | string splitting, joining and trimming; an option type and bytes |

Code that changes things in place is modelled by classes and methods with loops; what the source promises
about it is stated about specification functions and proved over runs. Clocks, the network, the database's
own failures, regular expressions, JSON parsing and the retry policy are parameters or scripts, so the
theorems hold whatever they do.

Where the code does not do what its surroundings promise, the model follows the code:

- The deferred top-up of a task (controller/relay.go:794-807) is meant to raise the reservation to the
  adjusted cost before a submitted row is stored. A request that was sent is already marked as started, and a
  started record cannot be raised (model/billing_reservation.go:407-410), so a task is stored only when the
  reservation made before sending already covers it (`TaskSubmission.Complete`, with an input in
  `BillingLedger.TopUpAfterSendingIsRefused`).
- `delete_disabled_keys` on a channel whose keys are all automatically disabled writes the cleared marks but
  not the empty key text, so all keys stay and count as enabled (`MultiKey.Channel.DeleteDisabledKeys`, with
  an input in `MultiKey.DeletingTheOnlyKeyEnablesIt`).
- Saving a channel drops statuses past its last key but keeps times and reasons there, so a key added later
  can show those of a key that is gone (`MultiKey.LeftoverMarksShow`; `MultiKey.Channel.Save` says exactly
  when saving leaves such marks).
- A key list is stored as text, one key a line, and read back with blank lines trimmed from both ends. So
  deleting keys changes the list further when an empty key comes to an end of it, and also when a remaining
  key contains a line break, as keys read from a pretty-printed JSON array do (`MultiKey.ReadBackIff`,
  `MultiKey.LineBreakFallsApart`).
- Appending keys to a text that begins like a JSON array but is not one starts from an empty list
  (`MultiKey.AppendBaseIff`, with an input in `MultiKey.AppendLosesAKey`).
- Model names that contain a comma, or that begin like an ignore expression, break the agreement between
  applying and detecting (`UpstreamModels.AddingACommaName`, `UpstreamModels.IgnoringAnExpressionName`);
  `UpstreamModels.ApplyCommutesWithDetect` says exactly when they agree.
- An expression that reads `same` imitates the marker of the difference table
  (`PricingDiff.MarkerLosesARow`; `PricingDiff.RowIsLostIff` says exactly when a row is lost).
- The room for cache files is looked up before a body is written and counted afterwards, with no lock
  between, so simultaneous requests can together pass the configured maximum
  (`BodyStorage.TwoRequestsPassTheLimit`); and a streamed body is admitted by its declared length
  (`BodyStorage.DishonestStreamPassesTheCap`); `BodyStorage.WithinIffCommitsFit` says exactly when a run
  stays within it.
- Two requests under one request id share a reservation record. A task submission that finds the record
  always ends in a refund, which releases what the first one holds (`TaskSubmission.SubmitTask`, with an
  input in `BillingLedger.DuplicateReleasesTheHold`; a started record survives duplicates exactly when
  `BillingLedger.DuplicatesDisturbIff` says). A duplicate relay leaves the record but can raise it before it
  is sent, and the first request then pays the raise (`BillingLedger.DuplicateTopUpIsPaid`; a request pays
  exactly its cost when `BillingSession.PaysItsCostIff` says).
- The Opus duration does not subtract the pre-skip as section 4 of RFC 7845 does, so it is the playing time
  iff the pre-skip is zero (`OggScan.DurationIgnoresPreSkip`, with an input in `OggScan.PreSkipIsCounted`).

## Model

| member | source | states |
|---|---|---|
| WorkerPool.HealthCheck | controller/channel-test.go:920-964 | one test's counters are balanced; failed iff the call returned an error or was too slow with automatic disabling on, disabled iff moreover an enabled channel may be banned for it, enabled iff an automatically disabled channel succeeded and may come back; a cancelled test counts nothing |
| WorkerPool.StepKeepsInv | controller/channel-test.go:969-1057 | every step of the pool, in any order, keeps the control, accounting and ran-once invariants |
| WorkerPool.RunKeepsInv | controller/channel-test.go:969-1057 | so every run does, whatever the interleaving and wherever it is cancelled |
| WorkerPool.EachChannelInOnePlace | controller/channel-test.go:976-1057 | at every point of every run each channel is in exactly one of unsent, held by a worker, reduced, dropped after cancellation |
| WorkerPool.StepDescends | controller/channel-test.go:987-1056 | every step, cancellation included, lowers a measure |
| WorkerPool.EveryRunIsBounded | controller/channel-test.go:987-1056 | a run has at most six steps per channel, one per worker and four |
| WorkerPool.Progress | controller/channel-test.go:987-1056 | a state that is not final has a step other than cancellation: no deadlock |
| WorkerPool.EveryPointIsObservable | controller/channel-test.go:976-1057 | for any configured concurrency and at every point: at most that many callbacks overlap, reported progress is 0, 1, ..., k with k within the total, and the summary is balanced |
| WorkerPool.MaximalRunsFinish | controller/channel-test.go:987-1056 | a run that cannot go on has closed both channels, stopped all workers and returned, with the sum of what the callbacks returned; without cancellation each runnable channel ran exactly once and the summary is the sum over channels |
| WorkerPool.SummaryIsWhatCallbacksReturned | controller/channel-test.go:1010-1056 | at every point the summary and the results still being sent are together the sum of what the callbacks returned; a final summary, cancelled or not, is exactly that sum |
| WorkerPool.StepReturns | controller/channel-test.go:1010-1050 | only a callback that returns changes that sum, by its result |
| WorkerPool.WorkerCountIs | setting/operation_setting/monitor_setting.go:65-73 | how many workers are started for every concurrency and number of channels |
| UpstreamModels.NormalizeMember | controller/channel_upstream_update.go:101-106 | the normalized list holds exactly the trimmed names that are not blank |
| UpstreamModels.NormalizeIsClean | controller/channel_upstream_update.go:101-106 | and holds each once |
| UpstreamModels.NormalizeOfClean | controller/channel_upstream_update.go:101-106 | a clean list is its own normalization, order included |
| UpstreamModels.Merge | controller/channel_upstream_update.go:108-122 | the loop gives the normalization of the concatenation: order of both sides, only new names added |
| UpstreamModels.SubtractMember | controller/channel_upstream_update.go:124-133 | set difference on normalized names |
| UpstreamModels.IntersectMember | controller/channel_upstream_update.go:135-144 | set intersection on normalized names |
| UpstreamModels.ApplySelectedShape | controller/channel_upstream_update.go:146-151 | the new list is the old one with the additions behind it and the removals gone |
| UpstreamModels.PendingMembers | controller/channel_upstream_update.go:180-239 | exactly which names are reported to add and to remove |
| UpstreamModels.DetectIsExact | controller/channel_upstream_update.go:180-239 | exactly which names are reported to add and to remove, and in which order, with what an ignore entry and an ignore expression hide written out |
| UpstreamModels.ChosenIs | controller/channel_upstream_update.go:968-974 | exactly which of the selected names are added, ignored and removed |
| UpstreamModels.Channel.Apply | controller/channel_upstream_update.go:955-1003 | applies the pending part of a selection, stores the rest as remaining and records the time |
| UpstreamModels.Channel.Check | controller/channel_upstream_update.go:510-557 | skips a check that is too soon, keeps the lists when the fetch fails, otherwise stores what detection reports; automatic syncing adds every pending name |
| UpstreamModels.ModelListRoundTrip | model/channel.go:294-299 | a stored list of comma-free names reads back as it was |
| UpstreamModels.ApplyCommutesWithDetect | controller/channel_upstream_update.go:180-239 | after any selection whatever, detecting again reports, as sequences, exactly what apply stored as remaining, iff the comma-separated parts of the added names and the ignore entries that stay agree with the selection |
| UpstreamModels.StoredNamesReadBack | model/channel.go:294-299 | a stored list of any names reads back as the parts of its names |
| UpstreamModels.PlainApplyCommutes | controller/channel_upstream_update.go:955-1003 | for selections without expression names that is so iff no added name contains a comma |
| UpstreamModels.SelectingEverything | controller/channel_upstream_update.go:955-1003 | selecting everything stores empty lists |
| UpstreamModels.SelectingEverythingSettles | controller/channel_upstream_update.go:180-239 | after a plain choice of everything, detecting again reports nothing iff no added name contains a comma |
| UpstreamModels.CommaNameReturnsIff | controller/channel_upstream_update.go:979-983 | for any choice, an added name with a comma is detected again iff no ignore entry that stays hides it |
| UpstreamModels.CheckSettles | controller/channel_upstream_update.go:530-543 | after a check the stored lists are current iff nothing added automatically contains a comma, and then a second check changes nothing |
| UpstreamModels.IgnoringAnExpressionName | controller/channel_upstream_update.go:219-225 | an input on which ignoring does not stick |
| UpstreamModels.AddingACommaName | controller/channel_upstream_update.go:979-983 | an input on which adding does not stick |
| UpstreamModels.ScanChannels | controller/channel_upstream_update.go:709-797 | keyset pagination visits every enabled channel once in id order; it stops early exactly at the first cancellation or failed query it meets, leaving a prefix |
| UpstreamModels.EnabledRowsAre | controller/channel_upstream_update.go:717-723 | the channels visited are all the enabled ones of the table |
| BillingLedger.Ledger.Reserve | model/billing_reservation.go:275-304 | wallet and key are both charged and the record made, or nothing changes; a known request id changes nothing |
| BillingLedger.Ledger.Append | model/billing_reservation.go:390-439 | raises a reservation that is still reserved, all or nothing |
| BillingLedger.Ledger.MarkStarted | model/billing_reservation.go:447-472 | marks once, repeats harmlessly, refuses ended or missing records |
| BillingLedger.Ledger.Settle | model/billing_reservation.go:479-561 | moves the difference and ends the record, or changes nothing; an ended record is left alone |
| BillingLedger.ReserveIsGrantedIff | model/billing_reservation.go:103-186 | exactly when a reservation is granted, and which error every other case gives: unlimited keys are never short |
| BillingLedger.AppendIsGrantedIff | model/billing_reservation.go:390-430 | the same for a top-up |
| BillingLedger.SettleIsGrantedIff | model/billing_reservation.go:191-237 | the same for a settlement |
| BillingLedger.MarkAndReleaseReplies | model/billing_reservation.go:447-620 | the replies of a mark and of both releases, phase by phase |
| BillingLedger.UnknownIsNotFound | model/billing_reservation.go:390-612 | without a record every operation but a reservation reports that it is not found |
| BillingLedger.Ledger.Release | model/billing_reservation.go:585-670 | gives the reservation back and ends the record; the recovery variant only from reserved |
| BillingLedger.Ledger.ReleaseStale | model/billing_reservation.go:675-706 | the recovery job is a sequence of recovery releases |
| BillingLedger.LookupSwept | model/billing_reservation.go:710-719 | cleanup removes a request's record iff it is named and ended, and leaves every other record as it was |
| BillingLedger.StepConserves | model/billing_reservation.go:134-719 | every transaction, successful or not, keeps each wallet's and each key's total of balance, open reservations and charges |
| BillingLedger.RunConserves | model/billing_reservation.go:134-719 | so does every run |
| BillingLedger.RunKeepsAllowance | model/billing_reservation.go:167-250 | over every run what a key has left and what it has used keep their sum |
| BillingLedger.RunSolvent | model/billing_reservation.go:153-237 | over every run no wallet and no limited key is overdrawn |
| BillingLedger.StepMoves | model/billing_reservation.go:390-719 | what each event can do to one request's record and to the number of times it was ended |
| BillingLedger.RunMovesForward | model/billing_reservation.go:25-40 | a record only moves forward: reserved amounts grow, started ones are fixed, ended ones never change |
| BillingLedger.StartedIsKept | model/billing_reservation.go:587-611 | once marked as started, no recovery, cleanup, top-up or other request touches a record |
| BillingLedger.EndsAtMostOnce | model/billing_reservation.go:513-670 | a request is charged or refunded at most once, and exactly once when its record has ended |
| BillingLedger.SweptSize | model/billing_reservation.go:714-718 | cleanup removes something iff a settled or released record is among those named |
| BillingLedger.CleanupForgets | model/billing_reservation.go:710-719 | after cleanup the same request id can be reserved again |
| BillingLedger.ForeignEvents | model/billing_reservation.go:592-670 | other requests, recovery and cleanup never change what a request paid, and never a started record |
| BillingLedger.DuplicatesDisturbIff | model/billing_reservation.go:390-670 | whatever duplicates of a request do short of settling it, a started record survives iff none of them releases it, and what the request paid is unchanged |
| BillingLedger.DuplicateReleasesTheHold | controller/relay.go:687-690 | an input: a duplicate's refund releases a record that was sent |
| BillingLedger.DuplicateTopUpIsPaid | service/tiered_settle.go:152-154 | an input: a duplicate raises the record and the first request pays the raise |
| BillingSession.PaysItsCostIff | service/billing_session.go:47-83 | whatever duplicates and others do between reserving and settling, a settlement that goes through makes the request pay exactly its cost iff no duplicate was granted a raise, or, when a release ended the record, iff the cost is zero |
| BillingLedger.TopUpAfterSendingIsRefused | model/billing_reservation.go:407-410 | an input: raising a record that was sent is refused although the wallet covers it |
| BillingSession.Open | service/billing_session.go:448-483 | a session opens with its own reserved record, or observes an existing one, or nothing changes |
| BillingSession.Session.Settle | service/billing_session.go:47-83 | an open record ends and the request pays what the record holds plus the difference, which is exactly the actual cost when the record is the session's own; it cannot fail when the reservation covers it |
| BillingSession.Session.MarkProviderStarted | service/billing_session.go:97-110 | succeeds for the session's own open record and for nothing else |
| BillingSession.Session.Refund | service/billing_session.go:145-196 | releases the record once, and nothing after settlement |
| BillingSession.Session.RefundUnsent | service/billing_session.go:202-210 | the same, except that a replayed request leaves the record |
| BillingSession.Session.Reserve | service/billing_session.go:239-267 | the reservation reaches the target or is unchanged; raising succeeds only while reserved |
| BillingSession.Session.Meanwhile | model/billing_reservation.go:390-706 | anyone may run meanwhile: with other requests, recovery and cleanup alone the session's view of its record stays true and a started record stays; with duplicates too, a started record stays iff none of them releases it |
| RelayRetry.Prepare | controller/relay.go:210-244 | exactly when the call may be made: the top-up goes through, nothing fails midway, and after what others did the session's own record is there and has not ended; and the ledger it leaves |
| RelayRetry.Call | controller/relay.go:246-256 | what a call does to the ledger and what it charges |
| RelayRetry.Serve | controller/relay.go:208-256 | one attempt with a session: nothing is called without the mark, and, undisturbed by duplicates, the bill grows by what was settled and a started record stays |
| RelayRetry.Try | controller/relay.go:208-256 | how far an attempt gets, told from its script and the ledger, with a session and without |
| RelayRetry.Attempts | controller/relay.go:208-274 | the retry loop told from the script: which attempts are entered, which calls are made, why it stops and whether an error remains; a call left in doubt is the last one and, undisturbed by duplicates, its reservation is still held |
| RelayRetry.LastCallTells | controller/relay.go:252-262 | what the last call says about the provider |
| RelayRetry.Deferred | controller/relay.go:182-196 | the refund chosen from what the last call says, none when it says nothing |
| RelayRetry.Relay | controller/relay.go:83-274 | over whole runs, panics and anything others do to the ledger included: the acts and the remaining error are told from the script; one refund follows, of the kind the last call's result asks for, iff a session has an error left and that result is definite; every call directly follows a successful mark; whenever a refund is called, before any send or after, the record is ended; ledger totals are conserved; and when no duplicate acts on the record, the request pays exactly what was settled and a reservation in doubt stays held |
| RelayRetry.NoChannelIsRefunded | controller/relay.go:210-216 | a request that finds no channel at first fails at once and has made no call |
| TaskSubmission.EnsureBilling | relay/relay_task.go:327-333 | the session is opened once, on the first attempt that needs it, and exactly when that succeeds |
| TaskSubmission.Dispatch | relay/relay_task.go:341-352 | exactly when the mark is made, and the ledger it leaves |
| TaskSubmission.Submit | relay/relay_task.go:197-389 | exactly when something is sent; after a send the rejected flag is set iff the reply is one of the six refusing statuses, and a result is what an accepting reply says |
| TaskSubmission.Attempts | controller/relay.go:706-772 | the attempts told from the script: which are entered, how many submit, which was sent last, what its reply makes of the flags and the result, and why the loop stops; an image operation is submitted at most once; undisturbed by duplicates, a result means the reservation is in flight |
| TaskSubmission.Insert | model/task_operation.go:77-150 | exactly when a row is stored; storing an image task settles its reservation at the quota in the same transaction |
| TaskSubmission.Complete | controller/relay.go:789-874 | absent failures an accepted submission is stored iff the reservation made before sending covers its quota; then settlement succeeds, draws nothing further and charges exactly the quota |
| TaskSubmission.SubmitTask | controller/relay.go:645-882 | on every path, whatever others do to the ledger, a submission is stored once and never refunded, or is not stored and exactly one of refund, hold for recovery or no billing holds; an image operation that was sent is held unless it was accepted or refused by one of the six statuses; a refund leaves the record ended; one that finds a record under its request id always ends in a refund; ledger totals are conserved; and when no duplicate acts on the record, an accepted submission is stored iff the reservation covers it, settled at its quota, and a held record stays marked as sent |
| PricingSync.Normalize | controller/ratio_sync.go:145-199 | the loops compute the normalized table, whatever order entries and models are visited in |
| PricingSync.KeepEffective | controller/ratio_sync.go:165-197 | one model's entries become what billing would use and no other model's change |
| PricingSync.EffectiveRowIs | controller/ratio_sync.go:149-197 | exactly what is kept of a model, mode by mode: expression before price before ratio |
| PricingSync.ThreeShapes | controller/ratio_sync.go:142-199 | a surviving model is in exactly one shape: expression only, fixed price only, token ratio without fixed price |
| PricingSync.ShapesAreFixed | controller/ratio_sync.go:142-199 | a row in one of the shapes is unchanged by normalizing |
| PricingSync.NormalizeIsIdempotent | controller/ratio_sync.go:145-199 | normalizing twice is normalizing once |
| PricingSync.ModelsAreIndependent | controller/ratio_sync.go:145-199 | a model's result depends on that model's entries alone |
| PricingDiff.Compare | controller/ratio_sync.go:708-774 | one row: what each eligible channel shows, how far it is trusted, and that the row is wanted iff some eligible channel differs |
| PricingDiff.PruneDifferences | controller/ratio_sync.go:776-815 | channels that differ nowhere go, then rows that show only "same" |
| PricingDiff.BuildDifferences | controller/ratio_sync.go:634-816 | the whole computation equals the pruned rows of the normalized tables |
| PricingDiff.PruningKeepsRows | controller/ratio_sync.go:776-815 | pruning removes channels, never a row |
| PricingDiff.RowsAreExact | controller/ratio_sync.go:634-816 | a row is in the result iff its field is compared and some eligible channel has a value absent here or unequal to ours |
| PricingDiff.RowIsLostIff | controller/ratio_sync.go:786-807 | a row that was built is lost to pruning iff every eligible channel that differs in it has an expression that reads "same" |
| PricingDiff.RowsAreExactly | controller/ratio_sync.go:634-816 | with nothing assumed of the values: a row is in the result iff its field is compared and some eligible channel differs in it other than by an expression that reads "same" |
| PricingDiff.ResultInPlainTerms | controller/ratio_sync.go:634-816 | the whole result from the normalized tables: which rows there are, our value, which channels a row shows, as what, and which it does not trust |
| PricingDiff.MarkerIsAnExpression | controller/ratio_sync.go:145-199 | only an expression can read like the marker |
| PricingDiff.MarkerLosesARow | controller/ratio_sync.go:726-746 | a normalized input on which that loses a row |
| PricingDiff.SelfDiffIsEmpty | controller/ratio_sync.go:634-816 | comparing a table with copies of itself gives nothing |
| ModelsDev.Select | controller/ratio_sync.go:1041-1064 | per model the nested loops give the fold over providers, whatever order models are visited in |
| ModelsDev.ChoiceIsCheapest | controller/ratio_sync.go:1001-1064 | in sorted provider order the chosen price is zero iff every offer is, and otherwise no positive offer is cheaper by the tolerance or more |
| ModelsDev.ChoiceIsEarliest | controller/ratio_sync.go:1001-1064 | which offer is chosen in sorted order: every positive offer before it costs more, and a zero offer is chosen only as the first of all |
| ModelsDev.BuildIs | controller/ratio_sync.go:965-999 | exactly which prices are usable and what is kept of them |
| ModelsDev.LessIs | controller/ratio_sync.go:1013-1013 | the order of provider names |
| ModelsDev.UnsortedDrifts | controller/ratio_sync.go:48-53 | an order in which the tolerance lets the choice drift away |
| QuotaMath.RoundHalfAwayExact | common/quota_math.go:140-175 | rounding gives the one integer nearest, ties away from zero |
| QuotaMath.NearestIsNearest | common/quota_math.go:159-175 | the integer to binary64 conversion picks a nearest multiple of the last place, even on a tie, with a significand of 53 bits |
| QuotaMath.NearestBoundary | common/quota_math.go:172-175 | integers of at most 53 bits are exact and larger ones never round below 2^53 |
| QuotaMath.FiniteIff | common/quota_math.go:159-175 | the conversion gives an infinity, of the right sign, exactly from half a last place below 2^1024 |
| QuotaMath.ConversionKeepsBounds | common/quota_math.go:86-107 | checking a bound within 53 bits after the conversion is checking it before |
| QuotaMath.WalletConversionExact | common/quota_math.go:172-175 | accepts exactly the decimals that round into [-(2^53-1), 2^53-1] and returns that integer |
| QuotaMath.DecimalConversionExact | common/quota_math.go:159-164 | the same for int32, saturating to the nearer bound |
| QuotaMath.RoundConversionExact | common/quota_math.go:140-150 | which floats are accepted when rounding, NaN and infinities included |
| QuotaMath.FloatConversionExact | common/quota_math.go:119-130 | which floats are accepted when truncating, and that truncation is toward zero and off by less than one; what each refused float is clamped to and reported as |
| QuotaMath.TestQuotaMonotone | controller/channel-test.go:548-559 | more tokens never cost less |
| QuotaMath.TestQuotaIs | controller/channel-test.go:548-559 | the test quota for fixed prices and for ratios, each stage rounded and bounded, with its minimum of one |
| QuotaMath.TestQuotaNearExact | controller/channel-test.go:548-557 | without saturation the staged quota is within half the model ratio plus one half of the exact product |
| RateLimit.InMemoryRateLimiter.Request | common/rate-limit.go:45-70 | one request's decision and the queue it leaves |
| RateLimit.InMemoryRateLimiter.ClearExpiredItems | common/rate-limit.go:28-42 | one pass of the background task over the store |
| RateLimit.SameDecision | common/rate-limit.go:45-70 | the queue's answer is the sliding window's answer |
| RateLimit.LimiterIsSlidingWindow | common/rate-limit.go:28-70 | in every run with a clock that does not go back, a request is accepted iff fewer than the bound of the accepted ones are younger than the duration, when durations fit the expiration or the background task does not run |
| RateLimit.ClearingIsInvisible | common/rate-limit.go:28-42 | the background task, run at any times, changes no decision |
| RateLimit.ClearingTooEarlyShows | common/rate-limit.go:28-42 | a run on which a too short expiration shows |
| RateLimit.SlidingWindowIff | common/rate-limit.go:14-70 | the limiter is a sliding window in every run iff no duration exceeds the expiration by more than one second or the background task was never started |
| RateLimit.Drive | common/rate-limit.go:14-70 | a limiter driven through any requests and background passes decides as the runs say |
| AdmissionLimiter.Limiter.Acquire | controller/plugin_protocol_limiter.go:65-157 | granted iff the identity is valid and all four scopes have room; otherwise the counters are restored exactly and the first full scope is reported; the counters stay exact for the leases held |
| AdmissionLimiter.Limiter.TakeSlots | controller/plugin_protocol_limiter.go:81-130 | the four staged increments with their rollback: all or nothing |
| AdmissionLimiter.Limiter.Release | controller/plugin_protocol_limiter.go:132-156 | gives the slots back once, and keeps the counters exact for the leases still held |
| AdmissionLimiter.Drive | controller/plugin_protocol_limiter.go:65-157 | a limiter driven through any acquires and releases goes through the states of the run, so what is proved of runs holds of it |
| AdmissionLimiter.RunIsExact | controller/plugin_protocol_limiter.go:65-157 | after any interleaving each counter is the number of live leases in its scope, within its limit, with no zero entry kept |
| AdmissionLimiter.EveryRunIsExact | controller/plugin_protocol_limiter.go:65-157 | from an idle limiter; an acquire succeeds iff each of its scopes holds fewer live leases than its limit, and with nothing held the limiter is as it began |
| AdmissionLimiter.CountersInPlainTerms | controller/plugin_protocol_limiter.go:65-157 | every counter as the number of live leases with that plugin, user or token, and when an acquire is granted |
| AdmissionLimiter.RefusalNamesTheFirstFull | controller/plugin_protocol_limiter.go:80-130 | which of the four limits a refusal names after any run |
| AdmissionLimiter.ReleaseTwiceIsOnce | controller/plugin_protocol_limiter.go:132-156 | releasing again at any later point changes nothing |
| MultiKey.ReadBackIff | model/channel.go:180-201 | a stored key list reads back as it was iff its keys have no line break and neither end is an empty key, or, when the text parses as an array, iff it parses to that list |
| MultiKey.LineBreakFallsApart | model/channel.go:189-200 | a list without empty keys that does not read back |
| MultiKey.DropKey | controller/channel.go:1849-1881 | the loop removes one key and every other key keeps its status, time and reason |
| MultiKey.DropAutoDisabled | controller/channel.go:1911-1949 | the loop keeps the rows that are not automatically disabled, marks following their keys |
| MultiKey.WithoutIs | controller/channel.go:1849-1881 | position by position, what deleting one key leaves |
| MultiKey.RowsThatStay | controller/channel.go:1919-1949 | position by position, which rows deleting the disabled keys leaves: those whose status is not three, in order |
| MultiKey.Channel.Save | model/channel.go:556-603 | what saving writes: an empty key text is skipped, the size is recounted, statuses beyond it dropped; and that afterwards every mark belongs to a key iff no recorded time or reason lies at or past the new count |
| MultiKey.LeftoverMarksShow | model/channel.go:584-592 | a run in which a new key shows the time and reason of a key that is gone |
| MultiKey.DeletingTheOnlyKeyEnablesIt | controller/channel.go:1911-1978 | a run in which deleting the only, automatically disabled key leaves it enabled |
| MultiKey.Channel.DisableKey | controller/channel.go:1675-1716 | that key's status alone changes, its recorded time and reason stay; index errors change nothing |
| MultiKey.Channel.EnableKey | controller/channel.go:1718-1758 | that key's row is cleared, the others stay |
| MultiKey.Channel.EnableAllKeys | controller/channel.go:1760-1782 | every row is cleared |
| MultiKey.Channel.DisableAllKeys | controller/channel.go:1784-1829 | enabled keys are disabled by hand with their recorded times and reasons untouched, disabled ones keep their rows, and with none enabled nothing happens |
| MultiKey.Channel.DeleteKey | controller/channel.go:1831-1909 | the view loses exactly that row iff the remaining list is storable in the sense of ReadBackIff; missing index, range and last-key errors change nothing |
| MultiKey.Channel.DeleteDisabledKeys | controller/channel.go:1911-1978 | the view becomes its rows that are not automatically disabled iff some key stays and the remaining list is storable; when none stays, all keys stay and count as enabled |
| MultiKey.Channel.KeyStatus | controller/channel.go:1561-1673 | counts over all keys and one page of the matching ones with their previews |
| MultiKey.MatchingIsExact | controller/channel.go:1625-1634 | the filtered list holds exactly the matching keys, at their indices, in order |
| MultiKey.PagesConcatenate | controller/channel.go:1636-1657 | the pages one after the other are the filtered list |
| MultiKey.TotalPagesIs | controller/channel.go:1636-1641 | the fewest pages that hold the list, and one for an empty list |
| MultiKey.ClampIs | controller/channel.go:1566-1644 | which page is shown for any number asked for |
| MultiKey.PageIs | controller/channel.go:1646-1657 | which entries a page holds |
| MultiKey.CountIs | controller/channel.go:1590-1598 | the counts are the numbers of keys with each status |
| MultiKey.PreviewIs | controller/channel.go:1609-1612 | short keys whole, longer ones by their first ten characters |
| MultiKey.AppendKeys | controller/channel.go:1064-1096 | the old list is kept as a prefix and only new distinct keys that are not blank follow, each once |
| MultiKey.AppendText | controller/channel.go:1026-1098 | the text after appending; a channel without keys takes the input |
| MultiKey.AppendBaseIff | controller/channel.go:1032-1045 | appending starts from the channel's keys unless its text looks like an array and is not one |
| MultiKey.AppendLosesAKey | controller/channel.go:1033-1041 | an input on which that loses a key |
| MultiKey.AppendReadsBack | controller/channel.go:1026-1098 | for any text, the channel then has its old keys followed by the new ones iff appending starts from its keys, they have no line break and no empty key comes to an end of the list; or, when the new text parses as an array, iff it parses to that list |
| MultiKey.AppendToLinesReadsBack | controller/channel.go:1042-1097 | in the newline format that is so iff the text was more than blank lines |
| BodyStorage.DiskStorage.Bytes | common/body_storage.go:225-257 | returns all bytes and puts the one file position back |
| BodyStorage.DiskStorage.Close | common/body_storage.go:214-223 | gives the counters back the first time only |
| BodyStorage.MemoryStorage.Close | common/body_storage.go:80-87 | gives the counters back the first time only |
| BodyStorage.BytesReader.Read | common/body_storage.go:62-69 | the in-memory reader refines the reference read |
| BodyStorage.File.Read | common/body_storage.go:196-203 | the file refines the reference read |
| BodyStorage.UseMemory | common/body_storage.go:62-108 | any sequence of reads, seeks, whole reads, new readers and closes gives the reference results |
| BodyStorage.UseDisk | common/body_storage.go:196-275 | so does the same sequence on disk |
| BodyStorage.CompareStorages | common/body_storage.go:62-275 | hence both give the same results, independent readers included |
| BodyStorage.ReadIs | common/body_storage.go:62-69 | what a read gives and where it leaves the position |
| BodyStorage.ReadingToTheEnd | common/body_storage.go:62-69 | reads of any sizes, enough of them, give exactly the rest of the body |
| BodyStorage.SeekIs | common/body_storage.go:71-78 | where each kind of seek goes and when it is refused |
| BodyStorage.ReadersAreIndependent | common/body_storage.go:89-108 | taking all bytes and reading from one reader move nothing else |
| BodyStorage.ClosedStays | common/body_storage.go:80-108 | a closed storage answers nothing else, for ever |
| BodyStorage.ChoosesDiskIff | common/disk_cache_config.go:170-177 | when disk is chosen |
| BodyStorage.Cache.Create | common/body_storage.go:286-304 | which storage is chosen from the counters before writing, what it holds, and what it counts afterwards, with other requests in between |
| BodyStorage.Cache.CreateFromReader | common/body_storage.go:307-348 | an oversized stream is refused on both paths and counts nothing; otherwise the storage holds the whole stream; other requests run while it is read |
| BodyStorage.CountersAreExact | common/disk_cache_config.go:109-134 | over every interleaving of the steps of all requests the counters are the number and bytes of the open storages |
| BodyStorage.WithinIffCommitsFit | common/disk_cache_config.go:109-177 | a run stays within the disk limit iff every body still fits when it is counted |
| BodyStorage.TwoRequestsPassTheLimit | common/body_storage.go:290-296 | two simultaneous requests that pass it |
| BodyStorage.OvershootIsBounded | common/disk_cache_config.go:170-177 | with honest declared lengths disk use passes the limit by at most what was admitted and not counted at some admission, so not at all when bodies are admitted one at a time |
| BodyStorage.DishonestStreamPassesTheCap | common/body_storage.go:307-328 | a stream that passes the maximum |
| BodyStorage.StaysShut | common/body_storage.go:80-87 | closing again at any later point changes nothing |
| OggScan.OpusDuration | common/audio.go:196-254 | the loop ends on any bytes and gives the largest granule position of the headers it meets |
| OggScan.OggScanExact | common/audio.go:206-249 | on any sequence of well-formed pages, after anything that does not read as a page, it stops exactly at the page boundaries and gives the largest granule position that is not negative |
| OggScan.LargestIsLargest | common/audio.go:228-232 | that value is the maximum |
| OggScan.DurationIgnoresPreSkip | common/audio.go:251-253 | on every Opus file the computed duration exceeds the playing time of section 4 of RFC 7845 by exactly the pre-skip, so the two agree iff it is zero |
| OggScan.PreSkipIsCounted | common/audio.go:251-253 | an Opus file on which they differ |
| OggScan.ScanIsSound | common/audio.go:206-249 | on any bytes the result is zero or the granule position of some header |
| ETag.ServerTagShape | common/etag.go:21-33 | a server-made tag is a well-formed weak entity tag |
| ETag.MatchIsExact | common/etag.go:35-50 | on every well-formed list, tags with commas included, the header matches iff some member weakly equals the tag; the wildcard matches and a blank header does not |
| ETag.MatchOwnTag | common/etag.go:35-50 | a tag matches itself inside any white space |
| ETag.DifferentDigestsDiffer | common/etag.go:21-30 | tags are equal iff their digests are |

## Left out

- Subscription funding and the Redis cache of balances.
- BillingSession.Open: a session that reserves nothing has no record and ends at `Unrecorded`.
- BillingSession.Session.Reserve: the bookkeeping without a record, which the source falls back to, ends at `WithoutRecord`.
- TaskSubmission.EnsureBilling: a session that reserves nothing counts as none.
- BillingLedger.Ledger.Reserve: covers the wallet; database errors and their retry are not modelled, because every transaction here either commits or refuses.
- RelayRetry.Relay: a session opened in the middle of the loop by a switch to a paid group is not modelled; classifying an error as explicit, unsent or unclear, and the retry policy, are part of the script; refunds happen at once instead of on a background goroutine.
- RelayRetry.Relay: the fee for policy violations that can be charged to the wallet after the refund.
- RelayRetry.Relay: no bound on the number of attempts, because the retry counter can be reset by channel selection.
- TaskSubmission.SubmitTask: the artifact store's readiness test, diagnostics, task rows' contents and the consumption log.
- UpstreamModels.ScanChannels: the table of channels does not change during the scan; the per-channel notification summary and its samples.
- PricingSync.Normalize: the nested maps by field and model are one map by cell, so an empty inner map and a missing one are the same.
- PricingDiff.RowsAreExact: asks for distinct channel names and no value that reads like the marker; RowsAreExactly drops the second condition.
- ModelsDev.Select: the final conversion of the chosen costs to ratios, rounded to six places.
- QuotaMath.TestQuotaNearExact: is over real arithmetic; float rounding inside the products is not modelled.
- RateLimit.SlidingWindowIff: the expiration is in whole seconds; zero with a started background task stands for a positive duration under one second.
- RateLimit.InMemoryRateLimiter.Request: a negative bound, which makes the source panic when it allocates a queue.
- MultiKey.AppendText: the Vertex AI input formats.
- BodyStorage.CompareStorages: reads of zero bytes and closing an independent reader, on which the two storages differ; seek origins 3 and 4, which a Linux file accepts and an in-memory reader does not; I/O errors; and 64-bit overflow of positions.
- OggScan.OpusDuration: short reads before the end of the file.
- BillingLedger.Ledger.MarkStarted: the update and the read that follows when it changed nothing are one step, so a record that ends between them, which the source then refuses, is not modelled.
- Concurrency below the level of one database transaction, one section behind a mutex or one counter function (which adds to a count and to a byte sum): each is one step.
- Error classification, channel selection, OAuth, passkeys, email, audit, Midjourney polling, the plugin protocol bridge, cache cleanup and resynchronization, HTTP fetching and JSON decoding.
