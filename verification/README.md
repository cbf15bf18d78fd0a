# Verified model of the Qoder plugin

This project models the protocols and state machines of the Qoder plugin under `plugins/qoder/` in Dafny 4.11
and proves properties of them. Verify it with `dafny verify dfyconfig.toml`.

Parts that only compute are functions; parts that the plugin does step by step on shared state are classes with
loops, proved equal to those functions; what is promised is then proved about all runs.

| files | part of the plugin |
|---|---|
| `Frames`, `StreamIntegrity` | decoded frames; the engine that passes text through, buffers tool calls and validates the end |
| `StreamMeaning`, `StreamBounds` | what frames mean, said without the engine; the limits every accepted frame keeps |
| `StreamFold`, `StreamWalk`, `StreamAccept`, `StreamPlain`, `StreamPump` | the non-streaming fold, the acceptance boundary with its consumers, exactly which streams it accepts, what the client gets field by field, the retry loops |
| `CheckinAttempt`, `CheckinOutcome`, `CheckinRuns`, `CheckinProtocol`, `CheckinRepost` | one check-in against the upstream, what it comes to reply by reply, the shared run table, all interleavings, when a claim can be posted twice |
| `OAuthRecord`, `OAuthProtocol`, `OAuthLogin` | the pending-login record, its protocol with crashes, the polling code |
| `AccountCache`, `ModelStore`, `Cooldown`, `RateBucket` | CAS merge, crash-safe catalogue, cooldown table, token bucket |
| `HostReader`, `StreamSource` | the chunk reader, and its composition with the walk |
| `QoderEncoding`, `ContextOverride` | permuted base64, context-window overrides |
| `Collections` | options, ascending order, sums over maps |

Strings have one character per byte. Times are integers, days come from a calendar function, token counts are
reals. JSON values are already decoded; a field keeps the difference between absent, null, wrong type and value.
The upstream, the host, failing writes, crashes and clocks are inputs over which the theorems quantify.

## What the proofs found

- A claim can be posted twice. When a legacy POST and its confirming read are both lost, `finishCheckin` (checkin.go
  lines 460-465) keeps the contract and campaign of an earlier run, so the next run looks for that campaign, takes an
  old claim of it for the confirmation, and the same day's check-in is posted again
  (`CheckinRepost.LegacyIsRepostedBlindly`, a legal run). Exactly which POSTs can be repeated for the same claim is
  `CheckinRepost.RepostExactly`; for all others `CheckinProtocol.NoBlindRepost` holds in every interleaving.
- Another day's check-in passes for the confirmation of a lost legacy POST. The read-only mark survives the change of
  days (checkin.go lines 305-309), while the legacy status tells only of the day it is read on (billing.go line 107);
  a check-in found on the next day therefore clears the mark, and the lost POST is never accounted for
  (`CheckinRepost.NextDayPassesForConfirmation`, a legal run over three days). That day's check-in is not posted
  again (`PastDayIsNotReposted`). Exactly when an account posts before a claim was found is
  `CheckinRepost.PostUnfoundExactly`.
- Saving after the durable checkpoint holds only while the record has not expired. `pruneOAuthPending` scans the
  store without the login's lock, so a poll that reaches its save after the expiry may save with no record on
  disk (`OAuthProtocol.LateSaveIsUnprotected`, from every state about to save).
- A grant whose `user_id` is blank but not empty can never be completed: `validOAuthPendingRecord` demands that
  the credential repeats it and that it names a file (`OAuthRecord.BlankUserIdNeverValid`; exact condition in
  `ResultValidExactly`).
- The credits half of the cache merge depends on the commit order (`AccountCache.CreditsOrderMatters`; exact
  condition in `CreditsCommuteExactly`). The plan half does not.
- The header of `model_store.go` (lines 6-13) promises crash safety without exception. Where the replacement
  removes first (Windows), a stop between remove and rename makes the account load nothing although its backup is
  there (`ModelStore.RemovingReplaceExactly`, if and only if).
- A mark in a full cooldown table may give up another pair's live quota entry
  (`Cooldown.QuotaStandsExactly` lists every way such an entry can go).
- A reply with an interim status below 200 counts as a definite business rejection of a claim, which it is not: the
  POST is forgotten (`CheckinAttempt.InformationalIsForgotten`; if and only if in `KeptReadOnlyExactly`).

## Model

| member | source | states |
|---|---|---|
| `StreamIntegrity.Engine.constructor` | plugins/qoder/stream_integrity.go:32-34 | a new engine has seen no choice, frame or byte |
| `StreamIntegrity.Engine.NoteLabel` | plugins/qoder/stream_integrity.go:278-291 | an id or type fragment is charged, and refused when it is no string or differs from the first one seen |
| `StreamIntegrity.Engine.NoteFunction` | plugins/qoder/stream_integrity.go:292-306 | name and argument fragments are charged in order and refused when they are no strings |
| `StreamIntegrity.Engine.NoteCall` | plugins/qoder/stream_integrity.go:278-309 | a fragment passes exactly when label and function checks do and the total stays within the byte limit; only the byte count changes |
| `StreamIntegrity.Engine.FeedTool` | plugins/qoder/stream_integrity.go:260-311 | one fragment of one call: same refusal reason and same new state as the step function whose meaning StreamMeaning proves |
| `StreamIntegrity.Engine.FeedToolCalls` | plugins/qoder/stream_integrity.go:254-314 | all fragments of a delta in order, stopping at the first refused one |
| `StreamIntegrity.Engine.NoteText` | plugins/qoder/stream_integrity.go:227-239 | content and reasoning are counted, and refused when they are no strings |
| `StreamIntegrity.Engine.FeedDeltaTools` | plugins/qoder/stream_integrity.go:240-314 | a legacy function call becomes call 0, mixed protocols are refused, empty shells are dropped |
| `StreamIntegrity.Engine.NoteFinish` | plugins/qoder/stream_integrity.go:315-329 | only the five known finish reasons are recorded, each counted once |
| `StreamIntegrity.Engine.FeedOneChoice` | plugins/qoder/stream_integrity.go:193-329 | one choice of a frame: index, limits, finish and delta checks in the code's order, all failure states included |
| `StreamIntegrity.Engine.FeedFrameChoices` | plugins/qoder/stream_integrity.go:190-335 | all choices of a frame in order; what stays visible is rebuilt without calls and finish |
| `StreamIntegrity.Engine.FeedFrame` | plugins/qoder/stream_integrity.go:164-347 | one frame: refusal reason, new state and the frame shown agree with the step function that the meaning, bound and fold theorems are about |
| `StreamIntegrity.Engine.FeedFrameBody` | plugins/qoder/stream_integrity.go:166-189 | refusals before the choices are looked at, and the usage-only frame that passes |
| `StreamIntegrity.Engine.ShowFrame` | plugins/qoder/stream_integrity.go:336-346 | a frame with nothing visible and no usage shows nothing; otherwise its cleaned form |
| `StreamIntegrity.Engine.Finish` | plugins/qoder/stream_integrity.go:362-430 | the end validates every choice before it returns any terminal |
| `StreamIntegrity.Engine.FinishChoices` | plugins/qoder/stream_integrity.go:366-429 | the terminals of the given indices in order, or the first choice's error and no terminal |
| `StreamIntegrity.Engine.FinishChoice` | plugins/qoder/stream_integrity.go:374-417 | a choice's calls and the ids used so far, or why it is invalid; which finishes drop the calls and which need one is written out in StreamPlain.TerminalsExactly |
| `StreamIntegrity.Engine.FinishTools` | plugins/qoder/stream_integrity.go:388-413 | the calls in tool-index order, refusing bad names, arguments, types and repeated ids |
| `StreamMeaning.CallParts` | plugins/qoder/stream_integrity.go:260-311 | an accepted fragment changes one buffer of one choice and no other |
| `StreamMeaning.BuffersStep` | plugins/qoder/stream.go:784-809 | appending a fragment to the arrival order merges it into exactly its own buffer |
| `StreamMeaning.FeedCallsTracks` | plugins/qoder/stream_integrity.go:254-314 | after a list of fragments the buffers are the arrival-order concatenations of all fragments so far |
| `StreamMeaning.FeedToolsTracks` | plugins/qoder/stream_integrity.go:240-314 | the same through legacy normalisation |
| `StreamMeaning.StateStep` | plugins/qoder/stream_integrity.go:240-329 | a choice's buffers and finish after a delta are the meaning of its deltas so far |
| `StreamMeaning.FeedChoiceTracks` | plugins/qoder/stream_integrity.go:193-335 | feeding an accepted choice extends the meaning of its index by that choice and of no other index |
| `StreamMeaning.FeedTracks` | plugins/qoder/stream_integrity.go:164-347 | the same for a whole frame |
| `StreamMeaning.EngineHoldsMeaning` | plugins/qoder/stream_integrity.go:164-347 | after any accepted frames the engine holds, per choice index, exactly the arrival-order meaning of what was addressed to it |
| `StreamBounds.CallBounded` | plugins/qoder/stream_integrity.go:260-311 | a fragment keeps the tool count, the byte total and their limits |
| `StreamBounds.FinishBounded` | plugins/qoder/stream_integrity.go:315-329 | a finish keeps the finish count equal to the number of finished choices |
| `StreamBounds.ChoiceBounded` | plugins/qoder/stream_integrity.go:202-335 | a choice keeps all bounds, opening at most the 32nd |
| `StreamBounds.FrameBounded` | plugins/qoder/stream_integrity.go:15-17 | an accepted frame keeps: at most 32 choices, the tool count equal to the sum over choices and at most 128, buffered bytes at most the byte count and that at most 2^20 |
| `StreamBounds.StreamBounded` | plugins/qoder/stream_integrity.go:15-30 | the bounds hold after every accepted frame sequence |
| `StreamFold.KeptIsVisible` | plugins/qoder/stream.go:636-686 | the sanitizer on a visible choice keeps exactly its delta without padding |
| `StreamFold.KeptFolds` | plugins/qoder/stream.go:633-686 | dropping padding loses no text, reasoning or role |
| `StreamFold.VisibleFolds` | plugins/qoder/stream.go:715-740 | folding what is shown of an accepted choice collects its text, reasoning and role under its own index |
| `StreamFold.FrameLive` | plugins/qoder/stream.go:696-742 | a shown frame carries no call and no finish and folds to the meaning so far |
| `StreamFold.StreamLive` | plugins/qoder/stream.go:696-742 | the same for every frame sequence, with the last usage |
| `StreamFold.EndToolsMeant` | plugins/qoder/stream_integrity.go:388-413 | the calls of a terminal are, per tool index in ascending order, the concatenated fragments with the first id |
| `StreamFold.EndChoiceMeant` | plugins/qoder/stream_integrity.go:374-417 | a terminal carries exactly the calls its choice's deltas mean, none when the finish is length or content_filter |
| `StreamFold.TerminalStep` | plugins/qoder/stream.go:715-740 | folding a terminal completes its choice and touches no other |
| `StreamFold.TerminalsFold` | plugins/qoder/stream.go:715-740 | folding all terminals completes every choice |
| `StreamFold.FoldRefinement` | plugins/qoder/stream.go:696-778 | main theorem: folding the emitted frames of an accepted stream yields exactly the completion its accepted frames mean: per index in ascending order all text and reasoning, the declared finish, and unless that is length or content_filter one call per tool index with concatenated name and arguments |
| `StreamWalk.WalkAccepts` | plugins/qoder/stream_integrity.go:81-128 | a walk succeeds exactly when all frames are accepted, no line is bad or a refusal, the read completed and the end validates; then it emits their frames and terminals |
| `StreamWalk.ShownIsPure` | plugins/qoder/stream_integrity.go:116-127 | no frame emitted before the end carries a tool call, a legacy call or a finish, accepted stream or not |
| `StreamWalk.EndToolsAccepts` | plugins/qoder/stream_integrity.go:388-413 | tools validate exactly when each name, argument object, type and id is valid and no id repeats, here or before |
| `StreamWalk.EndChoiceAccepts` | plugins/qoder/stream_integrity.go:374-417 | a choice validates exactly when it is finished, has its tools if its finish needs them, and shares no id with earlier choices |
| `StreamWalk.EndAccepts` | plugins/qoder/stream_integrity.go:362-430 | the end accepts exactly when there is a choice, all are valid and ids are pairwise distinct across choices |
| `StreamWalk.FallbackIdsDistinct` | plugins/qoder/stream_integrity.go:404-407 | generated ids of different calls never coincide |
| `StreamWalk.EndChoicesIds` | plugins/qoder/stream_integrity.go:366-429 | the ids of all calls of all terminals emitted are non-empty, pairwise distinct and not among those used before |
| `StreamWalk.TransactionalEnd` | plugins/qoder/stream_integrity.go:116-127 | main theorem: for every line sequence, read outcome and host capacity, a stream that does not validate emits no terminal; a validated one has exactly one terminal per addressed index in ascending order, each with a finish; the ids of all calls in all terminals are non-empty and pairwise distinct |
| `StreamWalk.Walk` | plugins/qoder/stream_integrity.go:81-128 | live streaming emits exactly the walk's emissions, cut where the host stops taking frames |
| `StreamWalk.Collect` | plugins/qoder/stream.go:604-614 | collection accepts the same streams and returns all emissions or none |
| `StreamWalk.AggregateStream` | plugins/qoder/stream.go:696-778 | the fold accepts the same streams and returns the completion their frames mean |
| `StreamWalk.FoldChunks` | plugins/qoder/stream.go:701-752 | the fold loop over emitted chunks |
| `StreamAccept.LabelsFromBuffer` | plugins/qoder/stream_integrity.go:278-291 | comparing an id or type with the buffer is the same as demanding that every one given equals the first one given |
| `StreamAccept.FragmentAccepts` | plugins/qoder/stream_integrity.go:260-311 | one fragment is accepted exactly when it is well-formed, keeps id and type, and calls and bytes stay within the limits; what it is charged |
| `StreamAccept.FragmentsAccept` | plugins/qoder/stream_integrity.go:254-314 | a list of fragments is accepted exactly when each is well-formed, ids and types never change, and opened calls and charged bytes stay within the limits |
| `StreamAccept.OpenedTotal` | plugins/qoder/stream_integrity.go:269-277 | the calls counted are the distinct (choice, tool) indices of the history |
| `StreamAccept.ChoiceAccepts` | plugins/qoder/stream_integrity.go:193-335 | a choice is accepted exactly when it is admissible after everything fed before, said without engine state |
| `StreamAccept.FrameAccepts` | plugins/qoder/stream_integrity.go:164-347 | a frame is accepted exactly when it is a chunk without error marker whose choices are admissible in turn; rebuilding it never fails |
| `StreamAccept.FramesAccept` | plugins/qoder/stream_integrity.go:164-347 | the engine accepts exactly the admissible frame sequences |
| `StreamAccept.StreamAcceptedExactly` | plugins/qoder/stream_integrity.go:81-128 | main theorem: live streaming, collection and the fold accept a stream if and only if every line is good, the read completed, each choice is admissible after those before it, and every choice ends well with ids distinct across choices |
| `StreamPlain.IndexExactly` | plugins/qoder/stream_integrity.go:130-139 | an index is a whole number from 0 to 65535, and 0 where none is given |
| `StreamPlain.MeaningGrows` | plugins/qoder/stream_integrity.go:227-329 | what one more choice adds to the meaning of its index, field by field, and nothing to any other |
| `StreamPlain.CallGrows` | plugins/qoder/stream.go:784-809 | what one more fragment adds to the call with its index, field by field, and nothing to any other |
| `StreamPlain.ShownExactly` | plugins/qoder/stream_integrity.go:329-347 | what the client sees of an accepted frame, field by field: text, role and other members of each choice without padding, calls and finish; a choice or frame of which nothing is left is not shown; everything else is unchanged |
| `StreamPlain.FrameCounts` | plugins/qoder/stream_integrity.go:164-239 | every accepted frame is counted once, with the bytes of its text and reasoning |
| `StreamPlain.WalkReports` | plugins/qoder/stream_integrity.go:81-128 | the error of a walk is that of the first refused frame, else of the line that ended it, else the read failure, else what does not validate at the end |
| `StreamPlain.StopExactly` | plugins/qoder/stream_integrity.go:88-102 | the first line that is malformed, a refusal or the end marker ends the walk, and only the marker ends it well |
| `StreamPlain.TerminalsExactly` | plugins/qoder/stream_integrity.go:366-429 | the terminals of an accepted stream, field by field: one for each choice in ascending order with one of the five finish reasons; for length and content_filter no call, otherwise one call for each tool index with its id, whole name and whole arguments; for tool_calls and function_call at least one |
| `StreamPlain.CompletionExactly` | plugins/qoder/stream.go:696-778 | main theorem: the same of the folded completion, with all text, reasoning and the last role: a stream that finishes with tool_calls folds to its calls |
| `StreamPump.PumpAttempt` | plugins/qoder/stream.go:484-543 | what one attempt emits, and that it asks for a retry only for a rate limit with nothing emitted and attempts left |
| `StreamPump.Pump` | plugins/qoder/stream.go:432-474 | at most three attempts; every chunk in the host log stems from the last one; every earlier one could be retried safely |
| `StreamPump.PumpSafety` | plugins/qoder/stream.go:432-474 | reading any run's log: one close at the very end, one release if there was a slot, one error frame exactly unless delivered or the backoff failed, and a delivered run shows one complete validated stream |
| `StreamPump.RateLimitIsRetried` | plugins/qoder/stream.go:432-543 | a run that ends in an error before its third attempt did not end in a rate limit with nothing shown: that is always tried again |
| `StreamPump.CollectStream` | plugins/qoder/stream.go:555-614 | the collected chunks are those of one fully validated attempt; chunks of a half-read attempt are dropped; only rate limits are retried |
| `CheckinAttempt.UncertainExactly` | plugins/qoder/checkin.go:345-443 | nothing is posted while an earlier POST is uncertain; the attempt asks for read-only confirmation exactly when such a POST stays unconfirmed, or its own is neither settled nor confirmed nor answered by an interim status |
| `CheckinAttempt.KeptReadOnlyExactly` | plugins/qoder/campaign.go:303-323 | a POST that is neither settled nor confirmed is kept read-only if and only if its status is no interim one below 200 |
| `CheckinAttempt.InformationalIsForgotten` | plugins/qoder/campaign.go:303-323 | the failing input: a claim answered by status 103 is forgotten although nothing settled it |
| `CheckinAttempt.ClaimUncertain` | plugins/qoder/campaign.go:202-248 | for both contracts, a claim ends uncertain exactly when its reply neither confirms nor refuses nor is interim, and no read confirms it |
| `CheckinAttempt.ConcludeUncertain` | plugins/qoder/checkin.go:405-442 | the same for the conclusion drawn from a receipt, an error and the confirming read |
| `CheckinAttempt.ReadsAreCertain` | plugins/qoder/campaign.go:303-323 | reading the state never leaves anything uncertain |
| `CheckinAttempt.ConfirmedExactlyByEvidence` | plugins/qoder/checkin.go:345-442 | an attempt with a confirming read is confirmed exactly when that read found the claim it looked for, for the legacy contract the check-in of the day of the read; the read is about the contract and campaign its own POST or the record names, and about the POST's very claim if and only if that is a campaign or the day has not changed since; every open POST but an interim-answered one is read back; without a read a POST is confirmed exactly by its reply |
| `CheckinAttempt.ClaimDays` | plugins/qoder/billing.go:107-107 | a legacy POST is for the day it is made on, a legacy read about the day it is made on |
| `CheckinAttempt.PostsOnlyAfterClaimableRead` | plugins/qoder/checkin.go:375-404 | a POST is made only after a read that showed something claimable and not yet claimed; exactly when is CheckinOutcome.AttemptExactly |
| `CheckinOutcome.ReadExactly` | plugins/qoder/campaign.go:255-323 | a read succeeds exactly with a success status and a well-formed body, and may be retried exactly after a passing connection failure, 408, 429 or a server error |
| `CheckinOutcome.KindsExactly` | plugins/qoder/campaign.go:303-323 | the kind of failure each status is reported as |
| `CheckinOutcome.FirstExactly` | plugins/qoder/campaign.go:85-146 | the campaign found is the first of the listing with that status whose window, bounds included, contains the present |
| `CheckinOutcome.ObservedExactly` | plugins/qoder/billing.go:61-76 | main theorem: what an attempt observes, by cases that exclude each other: the first claimable campaign in its window; none, but a claimed one in its window; neither; the legacy status, asked without a campaign contract or domestically when the listing is not found; or nothing readable |
| `CheckinOutcome.AttemptExactly` | plugins/qoder/checkin.go:375-404 | main theorem: exactly when an attempt reports the check-in done, finds no benefit, posts a claim and for which campaign or day, or fails before it could post, and whether that may be retried |
| `CheckinOutcome.ReplyExactly` | plugins/qoder/campaign.go:202-248 | the receipt and the error taken from a claim's reply, in terms of its status and marks |
| `CheckinOutcome.ClaimExactly` | plugins/qoder/checkin.go:405-443 | main theorem: every field of the conclusion after a claim was posted: confirmed at once by a receipt, denied at once by an interim status, a client error, a rejection or an explicit refusal, otherwise as one confirming read shows it; what state is reported, what is retried, and what stays read-only |
| `CheckinOutcome.RecheckExactly` | plugins/qoder/checkin.go:345-374 | the same for a read-only attempt |
| `CheckinRuns.Runs.OldestEvictable` | plugins/qoder/checkin.go:288-303 | finds an oldest record among those that may be evicted, or none when there is none |
| `CheckinRuns.Runs.ReserveRun` | plugins/qoder/checkin.go:279-324 | admission: room, day change, retry budget charged at once, in-flight mark; the whole new table |
| `CheckinRuns.Runs.FinishRun` | plugins/qoder/checkin.go:445-475 | the outcome record: confirmation, checkpoint, campaign and contract binding, next retry |
| `CheckinRuns.Runs.RetryAt` | plugins/qoder/checkin.go:466-472 | the next retry time: only with retries left, auto on, no cancellation since, and on the record's own day |
| `CheckinRuns.Runs.CancelRetry` | plugins/qoder/checkin.go:257-265 | clears one schedule and marks the run in progress |
| `CheckinRuns.Runs.CancelScheduled` | plugins/qoder/checkin.go:267-275 | clears every schedule and marks every run in progress |
| `CheckinRuns.Runs.ScanDue` | plugins/qoder/checkin.go:581-594 | drops schedules of other days and collects exactly the due runs |
| `CheckinRuns.AdmittedExactly` | plugins/qoder/checkin.go:279-324 | a run is admitted exactly when there is room and it is manual, or automatic with no outcome of today yet, or a retry that is due today with fewer than three spent |
| `CheckinRuns.VictimExactly` | plugins/qoder/checkin.go:286-304 | a record makes way exactly for a new account in a table of 512, and only an oldest of those without a run in progress, an uncertain POST, or retries spent or scheduled today |
| `CheckinRuns.DueIsAdmitted` | plugins/qoder/checkin.go:572-594 | with a retry left, the due scan finds a run exactly when its retry would be admitted |
| `CheckinRuns.SchedulesGo` | plugins/qoder/checkin.go:257-275 | exactly what a scan and a cancellation change of a record |
| `CheckinRuns.AdmittedRecord` | plugins/qoder/checkin.go:305-323 | what an admitted run starts from: of another day only the uncertain POST, contract and campaign; a retry is charged |
| `CheckinRuns.RetryExactly` | plugins/qoder/checkin.go:466-472 | a retry is scheduled exactly 60, 120 and 300 seconds after the first, second and third attempt, on the record's own day, for a retryable outcome, with auto on and no cancellation since |
| `CheckinRuns.OutcomeKeeps` | plugins/qoder/checkin.go:445-475 | an outcome loses a confirmation exactly to another campaign's unconfirmed claim and an uncertain POST exactly to a confirmation; every other field, and every other account |
| `CheckinProtocol.KeepsTable` | plugins/qoder/checkin.go:231-243 | every step keeps the table within 512 records, schedules on their record's day and in range of the delays, and each run's record in flight |
| `CheckinProtocol.AdmissionParts` | plugins/qoder/checkin.go:279-324 | an admission changes one record and drops at most evictable ones |
| `CheckinProtocol.EvictionIsSafe` | plugins/qoder/checkin.go:287-304 | only an admission to a table of 512 drops a record, an oldest of those that may go, and never one in flight, with an uncertain POST, or with today's spent or pending budget |
| `CheckinProtocol.HeldExactly` | plugins/qoder/checkin.go:445-465 | an open POST leaves a read-only record naming its contract and campaign if and only if it is holdable: no interim status and, for the legacy contract, a record that named it before or a confirming read that came through |
| `CheckinProtocol.PostNames` | plugins/qoder/checkin.go:460-465 | for a POST kept read-only: the record names its contract and campaign if and only if it is a campaign's, the record named the legacy contract before, or the confirming read succeeded |
| `CheckinProtocol.ReadOnlyRunNames` | plugins/qoder/checkin.go:346-374 | a read-only run posts nothing, confirms exactly when it finds a claim under the named contract and campaign (for the legacy contract that of the day of the read), and otherwise names the same afterwards |
| `CheckinProtocol.KeepsClaims` | plugins/qoder/checkin.go:508-568 | every step keeps: an account with a holdable POST that is open, no read having found a claim under its contract and campaign since, is read-only and names that contract and campaign, in its record or in its run |
| `CheckinProtocol.KeepsEvidence` | plugins/qoder/checkin.go:346-374 | every step keeps: a read-only run that is confirmed has as its account's last upstream event the finding of a claim under the contract and campaign its record names |
| `CheckinProtocol.CheckpointLostOnlyByConfirmation` | plugins/qoder/checkin.go:445-475 | a read-only record keeps mark, contract and campaign until a run of the account concludes whose confirming read, its last upstream event, found a claim under them: the campaign's, or for the legacy contract the check-in of the day of that read |
| `CheckinProtocol.KeepsDays` | plugins/qoder/checkin.go:279-324 | every step keeps: the legacy claims an account posts and finds are in the order of their days, none later than today nor than the day of its run |
| `CheckinProtocol.KeepsBudget` | plugins/qoder/checkin.go:310-317 | every step keeps the log of admitted retries equal to the table's spent budget of the day |
| `CheckinProtocol.KeepsQuiet` | plugins/qoder/checkin.go:249-275 | once auto is off and cancelled, no step schedules a retry again |
| `CheckinProtocol.EveryRunIsGood` | plugins/qoder/checkin.go:508-594 | all six invariants hold in every interleaving |
| `CheckinProtocol.FoundSameBetween` | plugins/qoder/checkin.go:345-443 | the same said of any log that keeps the invariants: before a campaign is followed by any POST, or a day's check-in by one for the same day, a read found that very claim |
| `CheckinProtocol.NoBlindRepost` | plugins/qoder/checkin.go:345-443 | main theorem: in every interleaving, between a holdable open POST and any later POST of that account a read found a claim under the same contract and campaign; when the POST is a campaign's, or the later one is for the same day's check-in, it found that very claim; in general that very claim was found if and only if it is a campaign's or such a read was made on its own day |
| `CheckinRepost.LegacyIsRepostedBlindly` | plugins/qoder/checkin.go:456-465 | the first failing run: a legal run from the start with two legacy POSTs for the same day, the first one lost, and between them only a finding of campaign X |
| `CheckinRepost.NextDayPassesForConfirmation` | plugins/qoder/checkin.go:305-309 | the second failing run: a legal run over three days in which a legacy POST is lost, the next day's check-in is found claimed, and the account posts on the third day; what became of the first POST was never read |
| `CheckinRepost.UnheldIsReposted` | plugins/qoder/checkin.go:427-475 | from every reachable world, an open POST that is not holdable, of a campaign or of the day it still is, is followed in some legal continuation by a POST for the same claim before that was found |
| `CheckinRepost.HeldIsNotReposted` | plugins/qoder/checkin.go:345-374 | in no continuation is a holdable open POST made again for the same claim before that very claim was found, nor a campaign's followed by any other POST |
| `CheckinRepost.PastDayIsNotReposted` | plugins/qoder/checkin.go:305-309 | in no continuation is a legacy POST made again for a day that is over |
| `CheckinRepost.RepostExactly` | plugins/qoder/checkin.go:345-475 | main theorem: in every reachable world an open POST can be repeated for the same claim, before a read found it, if and only if it is not holdable and, for the legacy contract, its day is not over |
| `CheckinRepost.PostUnfoundExactly` | plugins/qoder/checkin.go:345-475 | main theorem: in every reachable world an open POST can be followed by a POST of any kind, before a read found its claim, if and only if its own confirming read did not find it and it is a legacy one or not holdable |
| `CheckinProtocol.BudgetAndSchedules` | plugins/qoder/checkin.go:279-324 | main theorem: at most 512 records, at most three retry admissions per account and day even under eviction, schedules on their own day with budget left, none after the switch-off |
| `CheckinProtocol.CancelRemembered` | plugins/qoder/checkin.go:257-275 | a cancellation stays visible to the run in progress through any steps |
| `CheckinProtocol.CancelIsNeverLost` | plugins/qoder/checkin.go:466-473 | a cancel between admission and conclusion leaves no retry scheduled, whatever happens in between |
| `OAuthRecord.FileUidExists` | plugins/qoder/oauth_pending.go:191-191 | a user id names a file exactly when it is not blank |
| `OAuthRecord.FileUidIs` | plugins/qoder/authfile.go:24-34 | the file name of a user id: up to 64 letters, digits, underscores and hyphens, and the id itself when it is of that kind |
| `OAuthRecord.AcceptedExactly` | plugins/qoder/oauth_pending.go:135-196 | the validator accepts exactly the records on the chain started, token, credential, saved, each stage written out in characters and seconds |
| `OAuthRecord.NewLoginValid` | plugins/qoder/oauth.go:495-504 | a new login's record is accepted from its registration on |
| `OAuthRecord.ValidLater` | plugins/qoder/oauth_pending.go:160-180 | an accepted record stays accepted as the clock advances |
| `OAuthRecord.GrantValidExactly` | plugins/qoder/oauth_pending.go:348-353 | receiving a token keeps the record acceptable exactly when the exchange returns before the overall deadline; the expiry never shrinks nor passes the cap |
| `OAuthRecord.GrantKept` | plugins/qoder/oauth_pending.go:348-353 | a token is kept as it came; the deadline becomes ten minutes from then, capped at twenty from the start; nothing else changes |
| `OAuthRecord.ResultValidExactly` | plugins/qoder/oauth_pending.go:357-381 | the built credential keeps the record acceptable exactly when the grant's user id is absent or not blank |
| `OAuthRecord.BlankUserIdNeverValid` | plugins/qoder/oauth_pending.go:188-193 | the failing input: for a user id of one space no credential is ever acceptable |
| `OAuthRecord.SavedValidExactly` | plugins/qoder/oauth_pending.go:195-195 | the saved marker keeps a record with a result acceptable exactly for the panel |
| `OAuthProtocol.WrittenChain` | plugins/qoder/oauth_pending_store_unix.go:245-296 | a checkpoint write, failed or not, leaves the old record, none, or the record of memory |
| `OAuthProtocol.KeepsChain` | plugins/qoder/oauth_pending.go:202-214 | every step keeps the disk behind memory on the chain none, token, result, saved, and the expiry under its cap |
| `OAuthProtocol.KeepsExchanges` | plugins/qoder/oauth_pending.go:317-356 | every step keeps exchanges within one plus the tokens lost in crashes |
| `OAuthProtocol.KeepsSaves` | plugins/qoder/oauth.go:376-401 | every step keeps saves within one plus the markers lost in crashes, none for a host-owned login |
| `OAuthProtocol.KeepsReplay` | plugins/qoder/oauth_pending.go:357-385 | every step keeps the published result, in memory and on disk |
| `OAuthProtocol.KeepsCheckpoint` | plugins/qoder/oauth_pending.go:382-385 | every step keeps the durable record in agreement with memory from the second checkpoint to the save |
| `OAuthProtocol.RecordsStayValid` | plugins/qoder/oauth_pending.go:135-196 | under the latency and user-id conditions no write of any run is refused as malformed |
| `OAuthProtocol.EveryRunIsGood` | plugins/qoder/oauth_pending.go:202-386 | all invariants hold in every run |
| `OAuthProtocol.RegisteredIsGood` | plugins/qoder/oauth_pending.go:216-241 | registration establishes them |
| `OAuthProtocol.NoCrashLosesNothing` | plugins/qoder/oauth_pending.go:202-214 | without a crash no token and no save marker is lost |
| `OAuthProtocol.RestartResumes` | plugins/qoder/oauth_pending.go:243-272 | after a crash at any point, an unexpired record on disk that shows a token is taken up by its owner's next poll as it is, without another exchange |
| `OAuthProtocol.LostRecordKeepsGrant` | plugins/qoder/oauth_pending.go:317-329 | a login whose stored record was deleted or swept never uses up the one-time grant |
| `OAuthProtocol.AtMostOnce` | plugins/qoder/oauth_pending.go:317-386 | main theorem: over any run with failing writes, restarts and repeated polls, exchanges and saves are each at most one plus the crashes that lost them; expiry stays under the cap; the disk never runs ahead |
| `OAuthProtocol.SaveAfterCheckpoint` | plugins/qoder/oauth.go:366-391 | main theorem: whenever the panel saves before the record's expiry, the durable record holds the same token and result |
| `OAuthProtocol.LateSaveIsUnprotected` | plugins/qoder/oauth_pending.go:274-295 | the expiry condition is needed: from every state about to save, the clock and the janitor's sweep lead to a save without a durable record |
| `OAuthProtocol.PrunedIsGone` | plugins/qoder/oauth_pending.go:274-295 | an expired login that the janitor took can never be polled again, whether or not its record could be removed |
| `OAuthProtocol.ReplaysUnchanged` | plugins/qoder/oauth_pending.go:315-316 | main theorem: after the first delivery every later one is the same result |
| `OAuthLogin.Login.Persist` | plugins/qoder/oauth_pending_store_unix.go:245-272 | refuses malformed records first, sweeps expired ones, then replaces the file; exactly which files can be there afterwards |
| `OAuthLogin.Login.LockLogin` | plugins/qoder/oauth_pending.go:298-313 | gives the login exactly to its owner, before expiry, from memory or disk; a run of protocol steps |
| `OAuthLogin.Login.Advance` | plugins/qoder/oauth_pending.go:317-386 | done exactly when a token is there or usably granted, both checkpoints commit and an identity is found, with that record and time; waiting exactly while the user has not authorized; a token once received stays in memory; a run of protocol steps that saves nothing |
| `OAuthLogin.Login.Complete` | plugins/qoder/oauth_pending.go:354-356 | the part after the token is in memory: exactly when it is done, and with what |
| `OAuthLogin.Login.Identify` | plugins/qoder/oauth_pending.go:368-381 | the user is looked up exactly when the grant names none, and must then name a file |
| `OAuthLogin.Login.Build` | plugins/qoder/oauth_pending.go:357-385 | the part after the token is durable: exactly when it is done, and with what |
| `OAuthLogin.Login.Publish` | plugins/qoder/oauth_pending.go:382-385 | the second checkpoint and the publication of its result |
| `OAuthLogin.Login.PollPanel` | plugins/qoder/oauth.go:345-405 | the panel's poll is a run of protocol steps; it saves exactly when the login is ready, was not saved before and the host takes the credential; it answers well exactly when the login is ready, saved now or before, and the marker's checkpoint commits; it waits exactly while the user has not authorized |
| `OAuthLogin.Login.SaveReady` | plugins/qoder/oauth.go:376-401 | its saving half |
| `OAuthLogin.Login.PollHost` | plugins/qoder/oauth.go:585-610 | the host's poll is a run of protocol steps, saves nothing, and returns the published credential exactly when the login is ready |
| `OAuthLogin.OrdinaryLoginCompletes` | plugins/qoder/oauth_pending.go:317-386 | main theorem: a login whose user authorizes within twenty minutes completes in one poll, as its own user, unless a write fails, the stored record is lost or no identity can be found |
| `AccountCache.Combine` | plugins/qoder/cache.go:190-222 | builds the next entry field by field: exactly the merge the laws are about |
| `AccountCache.Cache.Store` | plugins/qoder/cache.go:183-229 | the compare-and-swap loop ends with the merge applied after all rival commits, whatever they were |
| `AccountCache.Cache.StoreConfirmation` | plugins/qoder/cache.go:231-241 | commits a confirmation, or nothing for an empty account |
| `AccountCache.MergeShows` | plugins/qoder/cache.go:192-222 | one commit, part by part: exactly when check-in, balance, plan and times come from the snapshot and when they stay |
| `AccountCache.FirstCommitShows` | plugins/qoder/cache.go:183-222 | of an account not cached yet everything read is shown, but a balance older than the check-in |
| `AccountCache.ConfirmationIsShown` | plugins/qoder/cache.go:231-241 | a confirmation is recorded at its time and shown at once when reported with its summary; balance and plan stay |
| `AccountCache.TimesNeverGoBack` | plugins/qoder/cache.go:192-216 | under any interleaving of commits no cached timestamp goes back |
| `AccountCache.CreditsFollowCheckin` | plugins/qoder/cache.go:209-211 | after a check-in at time t credits change only to a read begun at or after t |
| `AccountCache.CreditsAfterConfirmation` | plugins/qoder/cache.go:231-241 | after storeCheckinConfirmation at now no balance read before now appears |
| `AccountCache.ConfirmationStands` | plugins/qoder/cache.go:198-208 | today's confirmed check-in is displaced only through an auth rejection whose read is not older |
| `AccountCache.MergesToLatestPlan` | plugins/qoder/cache.go:212-214 | the plan is that of the latest read, or the cached one if newer than all |
| `AccountCache.PlanOrderIndependent` | plugins/qoder/cache.go:212-214 | with distinct read times the final plan does not depend on the commit order |
| `AccountCache.CreditsOrderMatters` | plugins/qoder/cache.go:209-211 | the credits half has no such law: two commits whose order changes the credits |
| `AccountCache.CreditsCommuteExactly` | plugins/qoder/cache.go:192-211 | for any two commits, their order shows in the credits if and only if one alone is fresh but older than the other's check-in and differs from the cached balance, or both are fresh, read at the same time, and differ |
| `AccountCache.CreditsAfter` | plugins/qoder/cache.go:209-211 | the credits after two commits, from the cached entry alone |
| `ModelStore.Directory.Replace` | plugins/qoder/model_store.go:400-407 | the renames, and removes, of one replacement |
| `ModelStore.Directory.Read` | plugins/qoder/model_store.go:356-365 | the file a running process sees in a slot, pending renames included |
| `ModelStore.Directory.Sync` | plugins/qoder/model_store.go:409-419 | the pending renames become durable |
| `ModelStore.Directory.Save` | plugins/qoder/model_store.go:315-354 | a save stopped at any call: exact disk state and whether it completed |
| `ModelStore.Directory.Write` | plugins/qoder/model_store.go:337-353 | its writing half, after both files were read |
| `ModelStore.Directory.KeepBackup` | plugins/qoder/model_store.go:337-347 | a validated primary is copied to the backup first, or the save ends there |
| `ModelStore.Directory.LoadDocument` | plugins/qoder/model_store.go:170-184 | the primary if it validates for its identity, else the backup beside it |
| `ModelStore.LoadsExactly` | plugins/qoder/model_store.go:170-210 | loading yields the primary if it is a sound document of schema 1 and of that identity, else such a backup beside an existing primary, else nothing |
| `ModelStore.CompletesExactly` | plugins/qoder/model_store.go:315-354 | a save completes exactly for a sound document of schema 1 with no file of a later schema, when none of the calls it makes fails |
| `ModelStore.CompletedDisk` | plugins/qoder/model_store.go:337-353 | a completed save leaves the new document, and the validated old primary as backup |
| `ModelStore.EveryRunIsOk` | plugins/qoder/model_store.go:315-354 | in every run of saves, crashes and outside writes each surviving set of renames shows only recent documents |
| `ModelStore.CrashSafe` | plugins/qoder/model_store.go:6-10 | main theorem: at every point of every run, once a save completed after the last outside write, loading yields the last completed document or one whose save was started after it |
| `ModelStore.UnsyncedIsOpen` | plugins/qoder/model_store.go:409-419 | a save that fails at the directory sync is seen by the running process; a crash may undo it or keep it with its backup |
| `ModelStore.DamageFallsBack` | plugins/qoder/model_store.go:11-13 | after two completed saves, damage to the primary still loads the last completed document, the one completed before it, or one whose save was started after that one |
| `ModelStore.DamageLoadsPrevious` | plugins/qoder/model_store.go:11-13 | damage right after a completed save loads exactly what loaded from the primary before it |
| `ModelStore.BackupOnlyFromValidatedPrimary` | plugins/qoder/model_store.go:337-347 | on both platforms the backup only ever receives a validated primary |
| `ModelStore.FutureIsNeverOverwritten` | plugins/qoder/model_store.go:331-336 | while either file has a future schema, no run of saves and crashes changes the disk |
| `ModelStore.RemovingReplaceExactly` | plugins/qoder/model_store.go:400-407 | with the removing replace of Windows the account loads after a save exactly unless it stopped between remove and rename |
| `Cooldown.Table.SweepExpired` | plugins/qoder/cooldown.go:321-327 | drops exactly the expired entries |
| `Cooldown.Table.OldestEntry` | plugins/qoder/cooldown.go:135-143 | finds an entry that expires first |
| `Cooldown.Table.MarkCooldown` | plugins/qoder/cooldown.go:114-151 | a mark leaves a live quota entry of its pair alone and gives up an entry expiring first when full |
| `Cooldown.MarkedUntil` | plugins/qoder/cooldown.go:114-151 | a mark lasts 300 seconds for a rate limit, 1800 for a daily cap and 60 otherwise; a live quota entry of the pair stands; at most the victim of a full table goes |
| `Cooldown.Table.RecordQuotaObservation` | plugins/qoder/quota_observation.go:246-273 | files shared credit under the account, others under the pair; never extends a freeze; refuses when full |
| `Cooldown.ObservationBlocks` | plugins/qoder/quota_observation.go:246-273 | main theorem: a quota observation blocks the pair, for exhausted shared credits every model of the account, from then until its reset time, or for 1800 seconds without one ahead, or until a live daily cap or an earlier observation of the kind ends, and no longer; nothing else live changes |
| `Cooldown.ObservedIsStopped` | plugins/qoder/daily_quota.go:49-66 | and the dispatch guard stops every call until then |
| `Cooldown.FullTableFilesNothing` | plugins/qoder/quota_observation.go:268-271 | a full table files no observation and loses nothing live |
| `Cooldown.HintMoves` | plugins/qoder/quota_observation.go:231-244 | a reset hint ahead moves the end of a rate limit, and nothing else |
| `Cooldown.PositiveCreditsFree` | plugins/qoder/quota_observation.go:286-298 | a positive balance read at or after the observation, and nothing else, frees the account of exhausted shared credits |
| `Cooldown.Table.ClearCooldown` | plugins/qoder/cooldown.go:183-208 | removes the pair or the whole account and counts what it removed |
| `Cooldown.ClearingFrees` | plugins/qoder/cooldown.go:183-208 | exactly which entries go when a pair or an account is cleared |
| `Cooldown.Table.CoolingUntil` | plugins/qoder/cooldown.go:155-174 | the end of a live entry, dropping an expired one |
| `Cooldown.Table.CoolingModels` | plugins/qoder/cooldown.go:216-245 | exactly the account's models with a live entry that is no quota entry |
| `Cooldown.Table.OtherQuotaError` | plugins/qoder/quota_observation.go:315-335 | errs exactly for a live quota entry other than the daily one on either key |
| `Cooldown.Table.DailyQuotaError` | plugins/qoder/daily_quota.go:53-65 | the second locked part: the pair's live daily cap, dropping an expired one |
| `Cooldown.ReadersDropExpired` | plugins/qoder/cooldown.go:155-245 | readers change nothing but that the expired entries they look at go |
| `Cooldown.Table.DispatchGuard` | plugins/qoder/daily_quota.go:49-66 | when nothing else touches the table meanwhile: blocks whatever is blocked while it runs and nothing that was not blocked when it began |
| `Cooldown.GuardErrsOnlyWhenBlocked` | plugins/qoder/daily_quota.go:49-66 | one of the guard's two locked parts errs if and only if the pair is blocked at that moment |
| `Cooldown.GuardUnderInterference` | plugins/qoder/daily_quota.go:49-66 | with any steps of other callers between its two locked parts, a quota entry live when the guard begins and left alone until it ends always stops the call, whichever part finds it |
| `Cooldown.StepKeepsTable` | plugins/qoder/cooldown.go:114-151 | every step keeps at most 4096 entries and only shared credit on account keys |
| `Cooldown.EveryRunKeepsTable` | plugins/qoder/cooldown.go:31-33 | the same over every run from the empty table |
| `Cooldown.QuotaStandsExactly` | plugins/qoder/cooldown.go:130-134 | a live quota entry survives a step unchanged exactly unless it is cleared, refuted by fresh positive credits, superseded by another kind of quota observation, or given up to a full table |
| `Cooldown.BlockedUntilExpiry` | plugins/qoder/daily_quota.go:44-66 | a pair with a live quota entry stays blocked through every run that leaves the entry alone, until it expires |
| `Cooldown.DailyCapIsFinite` | plugins/qoder/quota_observation.go:263-267 | a live daily entry is never prolonged nor downgraded |
| `Cooldown.EvictionCanDropQuota` | plugins/qoder/cooldown.go:135-145 | a mark for another pair drops a quota entry only from a full table where no live entry expires earlier |
| `RateBucket.Limiter.Allow` | plugins/qoder/management.go:493-525 | one call: the decision and the whole new table |
| `RateBucket.Limiter.EvictIdle` | plugins/qoder/management.go:516-523 | drops exactly the buckets idle for more than ten minutes |
| `RateBucket.EveryClientAgrees` | plugins/qoder/management.go:493-525 | after any calls a client's bucket is the one it would have alone, or is gone when that would be full again |
| `RateBucket.DecidedAlone` | plugins/qoder/management.go:516-523 | eviction and sharing change no decision: each call is decided as if its client were alone and never evicted |
| `RateBucket.SpentAndLeft` | plugins/qoder/management.go:503-514 | calls allowed plus tokens left never exceed a full bucket and the refill |
| `RateBucket.AllowedAtMost` | plugins/qoder/management.go:442-446 | in any interval T a client is allowed at most 5 + T/6s calls |
| `RateBucket.BurstIsAllowed` | plugins/qoder/management.go:493-525 | a client that called less than five times is allowed, however fast it called and whatever the others did |
| `RateBucket.SixthIsRefused` | plugins/qoder/management.go:493-525 | the sixth of six calls at the same time is refused |
| `RateBucket.EvictedExactly` | plugins/qoder/management.go:516-523 | a bucket goes exactly after an allowed call that leaves more than 1024, when it was idle for more than ten minutes |
| `RateBucket.SilenceIsRewarded` | plugins/qoder/management.go:442-446 | a client silent for six seconds is allowed, whatever the others do |
| `QoderEncoding.Codec.FillTables` | plugins/qoder/encoding.go:25-32 | the loop fills both arrays with the substitution and its inverse, zero elsewhere |
| `QoderEncoding.Codec.constructor` | plugins/qoder/encoding.go:20-32 | the filled arrays |
| `QoderEncoding.Codec.Encode` | plugins/qoder/encoding.go:35-52 | the byte-by-byte encoder computes the encoding whose symbols EncodedAt gives one by one |
| `QoderEncoding.TablesInvert` | plugins/qoder/encoding.go:20-32 | the two arrays undo each other on their 65 symbols |
| `QoderEncoding.CustomSymbolHasValue` | plugins/qoder/encoding.go:15-15 | the 64 custom symbols are distinct, below 128 and not the pad |
| `QoderEncoding.SubstitutionIsBijective` | plugins/qoder/encoding.go:25-32 | the substitution is a bijection of the 65 symbols |
| `QoderEncoding.SwapTwice` | plugins/qoder/encoding.go:37-39 | the thirds swap is its own inverse |
| `QoderEncoding.SwapPermutes` | plugins/qoder/encoding.go:37-39 | the thirds swap moves symbols and adds none |
| `QoderEncoding.Base64RoundTrip` | plugins/qoder/encoding.go:36-36 | base64 decoding recovers every byte string |
| `QoderEncoding.AlphabetsAre` | plugins/qoder/encoding.go:15-16 | the two alphabets as literals |
| `QoderEncoding.Base64Is` | plugins/qoder/encoding.go:36-36 | the base64 symbol at i stands for the six bits of the input from bit 6i on; a pad where no bit is left |
| `QoderEncoding.EncodedAt` | plugins/qoder/encoding.go:35-52 | main theorem: every symbol of an encoding, position by position: the custom symbol of the six bits at the last third for the first, the first for the last, the same for the middle, and $ for a pad |
| `QoderEncoding.RoundTrip` | plugins/qoder/encoding.go:35-52 | main theorem: inverting the substitution, swapping again and decoding recovers every byte string |
| `QoderEncoding.EncodingIsInjective` | plugins/qoder/encoding.go:35-52 | no two byte strings share an encoding |
| `QoderEncoding.EncodedSymbols` | plugins/qoder/encoding.go:35-52 | an encoding has four symbols for every three bytes begun, all custom |
| `HostReader.HostStream.Next` | plugins/qoder/host_bridge.go:348-353 | the next answer, or done past the last |
| `HostReader.Reader.Read` | plugins/qoder/host_bridge.go:414-449 | delivers the next bytes in order and loses none; an error only when all bytes were delivered; terminates |
| `HostReader.Reader.Serve` | plugins/qoder/host_bridge.go:420-423 | copies what fits and keeps exactly the rest |
| `HostReader.Drain` | plugins/qoder/host_bridge.go:398-402 | reading with any buffer sizes yields the same bytes and end |
| `HostReader.WholeIsConcatenation` | plugins/qoder/host_bridge.go:418-448 | those bytes are the concatenation of the chunks up to the host's end, its error, or the 101st empty chunk in a row |
| `HostReader.GivesUpExactly` | plugins/qoder/host_bridge.go:443-447 | a reader gives up for want of progress exactly on a stream with 101 empty chunks in a row before its end |
| `HostReader.ChunkingIsInvisible` | plugins/qoder/host_bridge.go:398-402 | without these, every chunking of the same bytes reads the same |
| `StreamSource.ScanLine` | plugins/qoder/stream_integrity.go:84-87 | a line short enough is framed by itself, without its carriage return, and the rest as before |
| `StreamSource.ScanJoined` | plugins/qoder/stream_integrity.go:84-87 | complete lines short enough are framed one after the other, whatever follows them |
| `StreamSource.LinesExactly` | plugins/qoder/stream_integrity.go:84-87 | in plain bytes: a line ends at byte 10, with or without a byte 13 before it, or where the bytes end |
| `StreamSource.LongLineFails` | plugins/qoder/stream_integrity.go:84-87 | a line of 4194304 bytes or more fails the scan |
| `StreamSource.WalkReader` | plugins/qoder/stream_integrity.go:81-128 | live streaming from a reader with any buffer sizes emits what the walk makes of the whole bytes; a read failure counts only when no end marker comes before it |
| `StreamSource.NothingAfterTheMarker` | plugins/qoder/stream_integrity.go:98-113 | whatever the host does after the end marker, more bytes, an overlong line, an error or nothing, changes neither frames nor outcome |
| `StreamSource.BrokenStreamFails` | plugins/qoder/stream_integrity.go:84-115 | without an end marker, a stream that breaks off or has an overlong line is never accepted; one read to its end fails for nothing but its lines |
| `StreamSource.ChunksAreInvisible` | plugins/qoder/stream_integrity.go:84-101 | main theorem: two undisturbed chunkings of the same bytes give the same lines to the engine, so the same frames and the same terminals or error |
| `ContextOverride.Catalog.SupportedTiers` | plugins/qoder/context_override.go:136-174 | ascending, and exactly what every account serving the model offers |
| `ContextOverride.Catalog.HandleWrite` | plugins/qoder/context_override.go:243-300 | accepts exactly in-range windows common to all serving accounts (or a deletion), changes nothing and proposes the next table |
| `ContextOverride.Catalog.Replace` | plugins/qoder/context_override.go:76-92 | the committed table: the valid entries of the snapshot |
| `ContextOverride.Catalog.EffectiveModels` | plugins/qoder/context_override.go:213-228 | an account's models with windows from its own facts alone |
| `ContextOverride.Catalog.AllModels` | plugins/qoder/models.go:122-148 | each model once with the smallest window any account advertises |
| `ContextOverride.MergeModels` | plugins/qoder/models.go:136-146 | merging one account's list keeps that minimum |
| `ContextOverride.DefaultExactly` | plugins/qoder/model_region_facts.go:392-404 | the default window is the one token count all valid default tiers agree on |
| `ContextOverride.WindowExactly` | plugins/qoder/context_override.go:178-228 | main theorem: an account's window, case by case: the override if it has such a tier, else the one size of its valid default tiers, else its reported length in range when it has no tiers, else unknown |
| `ContextOverride.RequestExactly` | plugins/qoder/body.go:244-283 | a request carries exactly the advertised window, or leaves the template's own value |
| `ContextOverride.OverrideOnlyWhereOffered` | plugins/qoder/context_override.go:178-208 | an override decides an account's advertised and requested window exactly when the account offers it; otherwise both are as without overrides |
| `ContextOverride.WindowIsOwn` | plugins/qoder/context_override.go:210-228 | an account's window is always unknown, its own tier or its own reported length |
| `ContextOverride.AcceptedExactly` | plugins/qoder/context_override.go:243-300 | a window is accepted exactly when after the commit every serving account resolves to it and some account serves the model |
| `ContextOverride.AcceptedIsUsed` | plugins/qoder/body.go:244-283 | then every serving account's request carries it and the provider-wide minimum is that window |

## Left out

- JSON, YAML and SSE text decoding within a line, redaction and the substring classification of error bodies: the model starts from decoded lines, frames and outcome classes.
- Response metadata (id, model, created, object), the log counters `done` and `reportedModel`, and rendering defaults such as the role "assistant" or a generated completion id.
- Panics of the host and of Go; the exact text of errors and user messages.
- Cryptography of the pending store and of request signing: an authenticated record reads back what was written or is not there. An outside rollback of a disk record to an older valid one is not modelled.
- Capacity of the pending store and of the login map, directory permissions and key loading; failures there appear as refused writes.
- Several pending logins at once: the protocol model follows one login state; others share only the store's capacity and its sweep.
- `pruneAccountCacheSoftCap`, `invalidateAccountCredits` and dashboard pruning of the account cache: they drop entries and are outside the merge laws.
- Wrap-around of the run generation counter and of byte counters: they are unbounded here.
- Trimming and normalisation of account, model and context ids, Unicode spaces included: the tables are keyed by names already trimmed or normalised (`normalizeCooldownModel` is not idempotent).
- `setContextOverride`, which only tests call, and display-only functions such as snapshots, sorting of rows and override states.
- Model names, prices and ordering in the provider-wide catalogue: only ids and windows are kept, in no particular order.
- Floating-point rounding in the token bucket: tokens are reals.
- Host RPC, HTTP clients, proxies, cookies, panel and usage reporting: they have no invariant of their own here.
- Cooldown.Table.DispatchGuard: its contract is for a guard nobody interferes with; `Cooldown.GuardUnderInterference` states what holds when others do.
- StreamSource.WalkReader: the model reads the bytes to the end before it walks them; the plugin stops reading at the end marker or the first error, so how much it asks the host for is not modelled. The outcome is the same.
- AccountCache.Cache.Store: rivals are given as a list of commits on the same account; commits on other accounts touch other map keys and are not interleaved.
- ModelStore.FutureIsNeverOverwritten: a future-schema file that no longer decodes with this version's types is not recognised as such by the code and is outside the statement.
