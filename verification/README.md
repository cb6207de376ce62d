# Credits, orders and provider calls of an image generation service

A Dafny model of the parts of the service that move money or cause outside effects, and of the small
algorithms beside them, with proofs of what they keep. `dafny verify dfyconfig.toml` verifies all of it.

| files | what they hold |
|---|---|
| `CreditTables`, `AlipayOrders` | the credit tables as values and every transaction on them as a function |
| `CreditStore` | the same transactions statement by statement, on a mutable database, proved equal to those functions |
| `CreditEffects` | what each transaction does to balances, rows and log and when it is refused, read off the tables |
| `CreditInvariants`, `CreditSteps`, `CreditConservation`, `CreditRuns` | the ledger invariant, one lemma per transaction, whole runs with any number of order callbacks in flight |
| `CreditTheorems` | what the invariant is good for: no stuck hold, claims that happen once and commute, orders credited once |
| `QueueRace` | one job of the durable queue between its worker and a cancellation |
| `Failover` | error classification and the two failover loops over channels and models |
| `ProviderRuns` | provider calls over any number of runs and crashes, as a state machine around the durable record |
| `Routing` | de-duplication, cooldown partition and least-called-first order of candidate models |
| `JsonWalker` | the recursive check for repeated JSON keys |
| `Canvas`, `Bresenham`, `ExpandGeometry` | pictures changed in place: captcha lines, growing a picture and restoring the original |
| `SmsLimit`, `AlipayAmount` | sliding-window limits on verification codes, the text form of amounts |
| `Foundations`, `Arithmetic` | options, decimal digits, sums over table columns, rounding |

A transaction is one atomic step; an error inside it leaves the tables as they were. A callback of the
payment provider is two steps (load and check; compare-and-set), so that other steps may come between
them. A provider may answer in any way at any time, and a run of the executor may stop between any two steps.

## What does not hold

Each of these is proved, with an input that shows it and the exact condition.

- Settling a queued job does not look at its released flag (`internal/app/generation_queue.go:361-396`).
  Settling a job after its hold was released takes the credits from somebody else's hold of the same user.
  Reserved balances equal the holds after a settlement if and only if the job was not released before
  (`CreditSteps.SettleJobKeepsReservedIff`); `CreditTheorems.LateSettlementExample` is a history in which a
  second job can then no longer be settled. The log, the items, the orders and conservation survive even that.
- A cancellation leads there. A worker writes the record as running when it starts, without looking at it
  (`internal/app/generation.go:497-509`), and looks at it only once, after the provider has answered
  (`internal/app/generation.go:739-741`); the success transaction checks neither the job's status nor its
  lease. With any number of workers on the job, a worker about to commit settles a released hold if and only
  if the hold was released after that worker's look, or a worker wrote the record as running again between
  the release and that look (`QueueRace.CommitIsLateIff`). For a single worker this means: released between
  claim and start, or between look and commit (`QueueRace.OneWorkerIsLateIff`). Of everything that can happen
  to a job exactly such a commit breaks the reserved balance (`QueueRace.InvIsLostIff`). Each way is open:
  `QueueRace.CancelAfterClaim`, `QueueRace.CancelBeforeCommit`, and `QueueRace.StaleWorkerHidesCancel` with a
  worker whose lease ran out. In all cases the hold is settled at most once
  (`QueueRace.SettledAndReleasedOnce`).
- A run that is cut off by the attempt cap while it moves to another channel names a channel it never called
  (`internal/app/generation.go:1105-1107`), and the record takes that channel's id but keeps the idempotency
  flag of the channel before it (`internal/app/generation.go:678-691`). The guarantee that a call which may
  have had an effect is the last one is unconditional for calls sent without a key. For channels without
  idempotency support it fails: `ProviderRuns.DangerousListRepeatsACall` is a history, with the same truthful
  candidates offered throughout, in which a call without an answer on such a channel is followed by another.
  Before any run the guarantee holds over every history if and only if the candidate list is not dangerous,
  that is, no channel with support at the second or third place stands right before one without
  (`ProviderRuns.ListIsSafeIff`). Between runs it is safe for good if and only if the record's flag is honest
  (`ProviderRuns.GuaranteeHoldsIff`), or over histories that discard no result the record succeeded
  (`ProviderRuns.UndiscardedGuaranteeHoldsIff`), and the flag stops being honest at exactly that cut-off
  (`ProviderRuns.HonestyIsLostIff`).
- A picture restored into a result of one or two pixels can vanish; three pixels are enough for every
  picture and all valid margins, and no fewer are (`ExpandGeometry.NeverVanishesIff`). For a single picture
  the condition on its margins in pixels is exact as well (`ExpandGeometry.PreserveRectIsEmptyIff`).
- The hour that a caller over an hourly limit is told to wait can be too long or too short: it is enough, and
  it is the least, exactly under the conditions of `SmsLimit.HourAdviceIff` (`SmsLimit.HourAdviceExamples`).
- Two codes can reach one phone within a minute when the clock is set back
  (`SmsLimit.ClockSetBackSendsTwice`). Below the hourly limits the spacing of a phone's codes survives a
  request if and only if none of them lies in the future (`SmsLimit.SpacingSurvivesIff`). The hourly limits do
  not depend on the clock's order.

## Model

| member | source | states |
|---|---|---|
| `CreditStore.Database.ReserveTx` | internal/app/ecommerce_credit_adapter.go:24-81 | the statements of a reservation leave exactly the specified tables: invalid input, replay, conflict, missing credits and success |
| `CreditStore.Database.ClaimSettlement` | internal/app/ecommerce_credit_adapter.go:190-209 | the claim row is inserted once; a second claim is a no-op in the same scope and an error in another |
| `CreditStore.Database.MoveReservedCredits` | internal/app/ecommerce_credit_adapter.go:232-246 | the hold leaves the reserved balance and the released part becomes available, unless less is reserved |
| `CreditStore.Database.UpdateReservationSettlement` | internal/app/ecommerce_credit_adapter.go:248-276 | one hold moves from reserved to settled and released, and the status closes when nothing is left |
| `CreditStore.Database.CreateReleaseTransaction` | internal/app/ecommerce_credit_adapter.go:278-291 | a release is logged with the balance after it, and only when credits were released |
| `CreditStore.Database.SettleItemTx` | internal/app/ecommerce_credit_adapter.go:83-143 | claim, scope, balance, reservation, item and log in sequence equal one atomic claim; any refusal leaves no trace |
| `CreditStore.Database.ReleaseItemTx` | internal/app/ecommerce_credit_adapter.go:145-175 | the same for giving a hold back |
| `CreditStore.Database.BatchTotal` | internal/app/ecommerce/batches.go:192-202 | the sum of the item costs, refused as soon as one cost is not positive |
| `CreditStore.Database.CreateItems` | internal/app/ecommerce/batches.go:231-260 | one item row per cost, each holding exactly its cost |
| `CreditStore.Database.SubmitBatchTx` | internal/app/ecommerce/batches.go:110-281 | batch row, reservation of the total and items appear together or not at all; the same key replays or conflicts |
| `CreditStore.Database.CreateSignupBonusTx` | internal/app/signup_bonus.go:10-25 | the bonus creates the balance and its log row once |
| `CreditStore.Database.ApplyAdminCreditAdjustment` | internal/app/admin_user_handlers.go:651-688 | a grant or a deduction moves balance and log together; a deduction beyond the balance changes nothing |
| `CreditStore.Database.ChargeGenerationTx` | internal/app/generation.go:1002-1026 | a direct charge never takes a balance below zero and is logged with its result |
| `CreditStore.Database.EnqueueJobTx` | internal/app/generation_queue.go:190-244 | enqueueing moves the cost from available to reserved and logs it |
| `CreditStore.Database.SettleQueuedCreditsTx` | internal/app/generation_queue.go:361-396 | settling a queued job takes its cost from the reserved balance once, whatever its released flag says |
| `CreditStore.Database.ReleaseQueuedCreditsTx` | internal/app/generation_queue.go:398-428 | releasing gives an open hold back once and is a no-op otherwise |
| `CreditStore.Database.LoadOrder` | internal/app/alipay_handlers.go:444-464 | the checks before settling, in their order: unknown order, amount, already paid, trade status |
| `CreditStore.Database.SettleOrderTx` | internal/app/alipay_handlers.go:467-521 | compare-and-set from pending, then balance and log; a lost race changes nothing |
| `CreditStore.Database.CompleteAlipayOrder` | internal/app/alipay_handlers.go:440-524 | an uninterrupted callback credits if and only if the order is pending, the amount matches and the trade succeeded |
| `CreditEffects.AdjustEffect` | internal/app/admin_user_handlers.go:651-688 | for a positive amount: accepted if and only if granted or covered; the balance then moves by plus or minus the amount, which is also logged, the answer is the new balance, and nothing else changes |
| `CreditEffects.SignupEffect` | internal/app/signup_bonus.go:10-25 | five credits with their log row if and only if the user has no balance, and nothing else |
| `CreditEffects.ChargeEffect` | internal/app/generation.go:1002-1026 | a charge takes the price, or one credit without a price, if and only if that much is available, and logs it |
| `CreditEffects.ReserveEffect` | internal/app/ecommerce_credit_adapter.go:40-81 | a fresh key is accepted if and only if it is usable and covered; the amount moves from available to reserved, with one log row and one reservation row holding all of it |
| `CreditEffects.ReserveAnswer` | internal/app/ecommerce_credit_adapter.go:28-38 | a taken key is answered with its row as it stands and what the user has left, or as a conflict when any of five fields differs |
| `CreditEffects.SubmitIsAcceptedIff` | internal/app/ecommerce/batches.go:110-230 | a fresh batch key is accepted if and only if there are items, all with a positive cost, and the user can pay their sum |
| `CreditEffects.SubmitEffect` | internal/app/ecommerce/batches.go:203-281 | then the sum of the costs moves from available to reserved, and the batch, its reservation and one item per cost appear, each item holding its cost |
| `CreditEffects.SettleEffect` | internal/app/ecommerce_credit_adapter.go:83-143 | an unclaimed item is settled if and only if the request names its row and the hold is covered; the user pays the actual cost, at least nothing and at most the hold, and gets the rest back, in balance, log, item, reservation and claim |
| `CreditEffects.ReleaseEffect` | internal/app/ecommerce_credit_adapter.go:145-175 | the same with nothing paid and the whole hold given back |
| `CreditEffects.ClaimAgain` | internal/app/ecommerce_credit_adapter.go:190-209 | a claimed item never changes again; the answer is success if and only if user, project, batch and reservation are those of the first claim |
| `CreditEffects.EnqueueEffect` | internal/app/generation_queue.go:190-244 | the cost moves from available to reserved if and only if it is available, with one log row and one job row |
| `CreditEffects.SettleJobEffect` | internal/app/generation_queue.go:361-396 | the first settlement takes the cost from the reserved credits and leaves the available ones; a second one changes nothing |
| `CreditEffects.ReleaseJobEffect` | internal/app/generation_queue.go:398-428 | an open hold moves from reserved back to available; a settled, released or empty one changes nothing |
| `CreditEffects.CheckAnswersIff` | internal/app/alipay_handlers.go:444-464 | each of the five answers to a callback is given if and only if its own condition on the order row holds; a paid order with the right amount is already paid whatever the trade status |
| `CreditEffects.SettleOrderEffect` | internal/app/alipay_handlers.go:467-521 | committing pays a pending order and moves exactly its credits to its buyer with one log row; any other order stays |
| `CreditEffects.RepeatedCallbackIsAlreadyPaid` | internal/app/alipay_handlers.go:456-459 | the same callback after it was credited is answered as already paid |
| `CreditSteps.SubmitKeepsInv` | internal/app/ecommerce/batches.go:192-260 | a new batch starts with item holds that add up to its reservation, so the ledger invariant holds from the first item on |
| `CreditSteps.ClaimKeepsInv` | internal/app/ecommerce_credit_adapter.go:83-175 | a settle or release keeps every sum: parts of the reservation, reserved balance, open holds, log |
| `CreditSteps.SettleJobKeepsSound` | internal/app/generation_queue.go:361-396 | settling a queued job keeps everything except possibly the reserved equation, released or not |
| `CreditSteps.SettleJobKeepsReservedIff` | internal/app/generation_queue.go:370-379 | the reserved balance still equals the holds after a settlement if and only if the job had not been released |
| `CreditSteps.ReleaseJobKeepsInv` | internal/app/generation_queue.go:398-428 | releasing a queued job keeps the whole invariant |
| `CreditSteps.PendingHasNoTopUp` | internal/app/alipay_handlers.go:500-519 | a pending order never has a top-up row, so the branch that skips the log row is unreachable |
| `CreditSteps.SettleCallbackKeepsInv` | internal/app/alipay_handlers.go:467-521 | committing a callback with a row loaded earlier keeps log and balance in agreement |
| `CreditSteps.CloseOrderKeepsInv` | internal/app/alipay_handlers.go:318-327 | a closed trade moves exactly the named order, only from pending, to failed; no other row changes and the invariant is kept |
| `CreditSteps.ExpireStaleKeepsInv` | internal/app/payment_risk.go:27-35 | exactly the pending orders older than the cutoff become expired; no other row changes and the invariant is kept |
| `CreditSteps.CompleteRefundKeepsInv` | internal/app/finance_handlers.go:304-315 | a refund that covers the order makes exactly that order refunded; balances and log stay and the invariant is kept |
| `CreditRuns.StepKeepsSystemSound` | internal/app/ecommerce_credit_adapter.go:24-291 | every modelled writer keeps ledger, conservation and the soundness of callbacks in flight |
| `CreditRuns.StepConserves` | internal/app/ecommerce_credit_adapter.go:232-276 | available + reserved + spent changes only by top-ups, grants and direct charges |
| `CreditRuns.InitialIsSound` | cmd/migrate-sqlite-to-postgres/main.go:483-499 | the empty system satisfies everything that is kept |
| `CreditRuns.RunsStaySound` | cmd/migrate-sqlite-to-postgres/main.go:483-499 | over every run: balances equal the sum of their log rows and the last balance-after, and are never negative; reservations, items, jobs and orders stay sound; credits are conserved |
| `CreditRuns.RunsKeepReservedBacked` | internal/app/ecommerce_credit_adapter.go:232-276 | over every run without a late settlement, a user's reserved balance is the sum of what their reservations and jobs hold |
| `CreditRuns.LateSettlementBreaksReserved` | internal/app/generation_queue.go:361-396 | after such a run, settling a job keeps that equation if and only if the job was not released |
| `CreditTheorems.OpenItemIsClaimable` | internal/app/ecommerce_credit_adapter.go:211-276 | no stuck hold: an unclaimed item can be settled and released if and only if the request describes its row |
| `CreditEffects.OpenItemPays` | internal/app/ecommerce_credit_adapter.go:83-291 | after any run without a late settlement an unclaimed item can be settled for any cost or given back, with exactly that effect on balance, log and rows |
| `CreditTheorems.FullyClaimedReservationCloses` | internal/app/ecommerce_credit_adapter.go:248-276 | nothing stays reserved if and only if every item is claimed, and the status is then released when nothing was paid and settled otherwise |
| `CreditTheorems.FirstClaimStays` | internal/app/ecommerce_credit_adapter.go:190-209 | over every run the first claim of an item and the item row stay as they are |
| `CreditTheorems.ReserveReplaysForever` | internal/app/ecommerce_credit_adapter.go:28-38 | after any run, repeating the key changes nothing and finds the same reservation, or conflicts as its original row says |
| `CreditTheorems.SubmitReplaysForever` | internal/app/ecommerce/batches.go:123-142 | after any run, submitting again with a key that is taken changes nothing and finds that batch, or conflicts as its original row says |
| `CreditTheorems.ClaimsAreConfluent` | internal/app/ecommerce_credit_adapter.go:83-175 | any two orders of the same decisions, with any repetitions, end in the same balances, reservations, items and claims |
| `CreditTheorems.NetDebit` | internal/app/ecommerce_credit_adapter.go:87-97 | what a list of decisions costs is the sum of min(max(actual, 0), held) over the items newly settled, never above the total |
| `CreditTheorems.LateSettlementExample` | internal/app/generation_queue.go:361-428 | a history in which a late settlement takes another job's hold and that job cannot be settled any more |
| `CreditTheorems.NonPendingOrderIsNeverCredited` | internal/app/alipay_handlers.go:467-490 | once an order has left pending no run makes it pending or credits it |
| `CreditTheorems.CreditingStep` | internal/app/alipay_handlers.go:444-519 | a step credits an order only by committing a callback with the right amount and a successful trade while the order is pending, by exactly its credits |
| `CreditEffects.PaymentIsCredited` | internal/app/alipay_handlers.go:440-524 | no payment is lost: a callback that passed its checks, whatever ran before it commits, pays the order and credits its buyer if the order is still pending, and changes nothing otherwise |
| `CreditTheorems.OrderIsCreditedAtMostOnce` | internal/app/alipay_handlers.go:440-524 | over every interleaving an order is credited at most once: once when paid, not at all when pending, failed or expired |
| `CreditTheorems.SecondCommitIsNoOp` | internal/app/alipay_handlers.go:467-490 | two callbacks that both saw the order pending credit it once |
| `QueueRace.InvIsLostIff` | internal/app/generation.go:893-913 | of everything that workers, cancellation and recovery can do to a job, exactly a commit that settles a released hold breaks the ledger invariant |
| `QueueRace.GivenBackIff` | internal/app/generation_queue.go:398-428 | a hold is given back if and only if an open unsettled job is closed, by the holder of its lease when one is required |
| `QueueRace.TakenIff` | internal/app/generation.go:893-913 | a hold is taken if and only if a worker commits that saw the record active, whatever became of job and lease since, or the lease holder commits a stored result |
| `QueueRace.LeaseMoves` | internal/app/generation_queue.go:779-902 | a lease is given only to a new worker of a waiting job, and a job has one exactly while it runs |
| `QueueRace.HistoriesKeepInv` | internal/app/generation_queue.go:779-902 | over every history of a job without such a commit the ledger invariant is kept |
| `QueueRace.SettledAndReleasedOnce` | internal/app/generation_queue.go:361-428 | with any number of workers the hold is settled at most once, released at most once, and never released after it was settled |
| `QueueRace.CommitIsLateIff` | internal/app/generation.go:739-758 | over every history with any number of workers: the hold of a job about to be committed was released if and only if that happened after the worker's look at the record, or some worker brought the record back between the release and the look |
| `QueueRace.OneWorkerIsLateIff` | internal/app/generation.go:497-509 | with one worker: if and only if it was released between claim and start or between the look and the commit |
| `QueueRace.CancelAfterClaim` | internal/app/generation.go:497-509 | a cancellation right after the claim is never noticed and the commit breaks the invariant |
| `QueueRace.CancelBeforeCommit` | internal/app/generation.go:1927-1948 | so does one between the look at the record and the commit |
| `QueueRace.StaleWorkerHidesCancel` | internal/app/generation_queue.go:1085-1098 | a worker whose lease was taken over brings back the record that the next worker then trusts |
| `Failover.GenerateOverChannels` | internal/app/generation.go:1082-1146 | the nested loop makes exactly the attempts of the specified trace and returns its verdict |
| `Failover.GenerateOverModels` | internal/app/generation.go:1028-1080 | the same for plain models, one attempt each |
| `Failover.TraceShape` | internal/app/generation.go:1098-1145 | at most three calls, numbered 1, 2, 3; positions start at the first, never go back or skip, at most two calls each; each kind of continuation follows only its kind of error |
| `ProviderErrors.Classification` | internal/app/generation.go:1463-1533 | the codes and statuses that move on, are retried, wait in the queue or must not be repeated, each if and only if |
| `Failover.WhatFollows` | internal/app/generation.go:1109-1141 | what follows a failed attempt, both ways: the same channel again, the next candidate, or nothing, each exactly under its conditions |
| `Failover.StoppedForAReason` | internal/app/generation.go:1123-1141 | a run that failed before the cap had to stop, or its error does not move on, or no candidate was left; and it was not worth a retry |
| `Failover.Verdict` | internal/app/generation.go:1105-1146 | the verdict read off the last attempt: success with its number, its error, renamed exactly when the effect of a keyless outside call is unknown, and the place |
| `Failover.TraceIsUnique` | internal/app/generation.go:1098-1145 | candidates and answers determine the attempts |
| `Failover.SuccessIffLastCallSucceeded` | internal/app/generation.go:1118-1121 | success is reported if and only if some call succeeded, and that call is the last one |
| `Failover.NamedChannelWasNotCalledIff` | internal/app/generation.go:1105-1107 | a failed run names a channel that was never called if and only if the cap cut it off on the way to one |
| `ProviderRuns.NarrowedIff` | internal/app/ecommerce_generation_adapter.go:317-325 | narrowing finds the recorded channel if and only if it is offered, and marks it idempotent |
| `ProviderRuns.GenerationJob.CommerceReplaySafe` | internal/app/ecommerce_generation_adapter.go:307-327 | the loop decides whether a run may go on, a succeeded record first, and narrows the candidates in place |
| `ProviderRuns.StepKeepsSound` | internal/app/generation.go:1424-1431 | every step, failure or crash keeps: only the last call can be open, and the durable flags know when it is |
| `ProviderRuns.StartEffect` | internal/app/ecommerce_generation_adapter.go:307-327 | a run starts if and only if the record has not succeeded and, once started, is idempotent on an offered channel; and with which candidates |
| `ProviderRuns.CallsAreRecordedFirst` | internal/app/generation.go:1424-1431 | over every history a call goes to the channel that the durable record names, with a key if and only if the record says so |
| `ProviderRuns.DeliveredIsNeverRepeated` | internal/app/ecommerce_generation_adapter.go:51-61 | after any history, a delivered result that was saved stays the last call for good unless it is discarded |
| `ProviderRuns.UnsafeCallIsTheLast` | internal/app/ecommerce_generation_adapter.go:51-77 | over any number of runs and crashes, a keyless call that succeeded, never returned or failed ambiguously is the last call ever |
| `ProviderRuns.ResumedCallsRepeatTheRecordedOne` | internal/app/ecommerce_generation_adapter.go:314-326 | from a started record every later call is on its channel under the same key, and there is none when it is not idempotent |
| `ProviderRuns.KeysAlwaysNameTheirChannel` | internal/app/generation.go:1156-1168 | every key ever sent is the execution key, `:channel-` and the digits of the channel called |
| `ProviderRuns.EqualKeysAreTheSameRequest` | internal/app/generation.go:1162-1163 | over any two histories, equal keys come from the same execution key and the same channel |
| `ProviderRuns.ItemsNeverShareAKey` | internal/app/ecommerce_generation_adapter.go:31 | over any histories of two items, equal keys belong to the same item |
| `ProviderRuns.CrashWhileWaiting` | internal/app/generation.go:1156-1168 | after a stop between call and answer, later calls repeat that channel and that key, or there are none |
| `ProviderRuns.HonestyIsLostIff` | internal/app/generation.go:678-691 | recorded flags become wrong if and only if the cap cuts a run off between a channel with support and one without |
| `ProviderRuns.UnsupportedCallIsTheLast` | internal/app/generation.go:1183-1196 | over every history without such a cut-off, a call with a possible effect on a channel without support is the last one |
| `ProviderRuns.GuaranteeHoldsIff` | internal/app/ecommerce_generation_adapter.go:307-327 | from a state between runs every continuation with truthful candidates keeps that guarantee if and only if the recorded flag is honest |
| `ProviderRuns.UndiscardedGuaranteeHoldsIff` | internal/app/ecommerce_generation_adapter.go:51-61 | over continuations that discard no late result, if and only if the flag is honest or the record has succeeded |
| `ProviderRuns.SafeListsKeepGuarantee` | internal/app/generation.go:1098-1108 | over every history whose candidate lists are truthful and not dangerous the guarantee holds |
| `ProviderRuns.ListIsSafeIff` | internal/app/generation.go:1098-1108 | over every history that offers one truthful list the guarantee holds if and only if the list is not dangerous: no supporting channel at the second or third place right before one without support |
| `ProviderRuns.WrongFlagIsReachable` | internal/app/generation_model_routing.go:452-464 | with the same truthful candidates throughout, three calls answered by server errors, and no others, leave a record that claims support for the third channel, which has none |
| `ProviderRuns.WrongFlagIsReachableLater` | internal/app/generation_model_routing.go:452-464 | the same for the fourth channel after one failed call on each of the first three |
| `ProviderRuns.WrongFlagRepeatsTheCall` | internal/app/ecommerce_generation_adapter.go:317-325 | from such a record two crashes leave two open calls on that channel |
| `ProviderRuns.DangerousListRepeatsACall` | internal/app/ecommerce_generation_adapter.go:317-325 | every dangerous list has a history in which a call without an answer on a channel without support is followed by another |
| `ProviderRuns.RunFollowsTheLoop` | internal/app/generation.go:1109-1138 | after each answer the state machine goes where the failover loop goes, including the channel it names |
| `ProviderRuns.RunMakesTheAttempts` | internal/app/generation.go:1098-1145 | the calls of an uninterrupted run are the attempts of the loop's trace, one by one with their keys and answers |
| `ProviderRuns.RunEndsAsTheLoop` | internal/app/generation.go:1098-1145 | and it ends with the loop's verdict, naming the channel that the loop names |
| `Routing.DedupeModelCandidates` | internal/app/generation_model_routing.go:322-336 | the loop with its seen set computes the specified list |
| `Routing.DedupedKeepsFirstOccurrences` | internal/app/generation_model_routing.go:322-336 | each non-zero id once, as its first row, in the order of those rows |
| `Routing.DedupingTwiceIsDedupingOnce` | internal/app/generation_model_routing.go:80-113 | removing duplicates among the defaults first makes no difference |
| `Routing.CompleteImageModelCandidates` | internal/app/generation_model_routing.go:80-88 | the completed list is the de-duplicated primary, chosen and online models |
| `Routing.PrioritizeModelFailoverCooldown` | internal/app/generation_model_routing.go:338-383 | the loops find the cooling ids and move those models behind the others |
| `Routing.CoolsIff` | internal/app/generation_model_routing.go:351-371 | a model cools if and only if it is a candidate and an attempt of it failed within the last minute with an error that moves on |
| `Routing.RoutedListIsRight` | internal/app/generation_model_routing.go:42-78 | exactly the non-zero ids as first rows, none twice, none cooling before one that is not, first-occurrence order in each class |
| `Routing.LeastCalledFirstSorts` | internal/app/generation_model_routing.go:303-317 | the order is a rearrangement sorted by calls, sort order and id |
| `Routing.PickIsLeast` | internal/app/generation_model_routing.go:303-318 | the first candidate comes strictly before every other one |
| `Routing.PicksKeepSpread` | internal/app/generation_model_routing.go:274-320 | over any number of recorded picks the spread of call counts never grows beyond the larger of itself and one |
| `Routing.RoundRobin` | internal/app/generation_model_routing.go:274-320 | from equal counts pick number n is model n modulo the number of models |
| `Routing.EveryRoundPicksEachOnce` | internal/app/generation_model_routing.go:274-320 | any full round of consecutive picks chooses each model exactly once |
| `Canvas.Image.Set` | internal/app/auth_captcha.go:239 | a pixel outside the picture is ignored |
| `Bresenham.DrawLine` | internal/app/auth_captcha.go:228-255 | the loop ends after exactly max(\|dx\|, \|dy\|) moves, having set the pixels of the rounded line in order and no others |
| `Bresenham.LineJoinsItsEnds` | internal/app/auth_captcha.go:238-242 | the line has one pixel per move plus one, from the first end to the second |
| `Bresenham.NeighboursFollow` | internal/app/auth_captcha.go:244-253 | consecutive pixels are neighbours, one step apart on the longer axis |
| `Bresenham.LineStaysInBox` | internal/app/auth_captcha.go:228-255 | no pixel leaves the bounding box of the two ends |
| `Bresenham.LineIsWithinHalfAPixel` | internal/app/auth_captcha.go:228-255 | every pixel is within half a pixel of the ideal line on the shorter axis, as a bound on the cross product |
| `JsonWalker.Decoder.WalkCommerceJSONValue` | internal/app/ecommerce_handlers.go:941-988 | the recursion with its loops and seen sets equals the walk as a function and consumes what it consumes; remaining tokens are the measure |
| `JsonWalker.RejectDuplicateJSONKeys` | internal/app/ecommerce_handlers.go:927-939 | accepts if and only if the tokens are those of exactly one value without repeated keys |
| `JsonWalker.WalkOfValue` | internal/app/ecommerce_handlers.go:941-988 | on any value followed by anything: success if and only if no object repeats a key, and exactly the value is consumed |
| `JsonWalker.WalkFindsValue` | internal/app/ecommerce_handlers.go:941-988 | on arbitrary tokens: whatever is accepted starts with such a value |
| `JsonWalker.TokensDetermineValue` | internal/app/ecommerce_handlers.go:931-936 | a token list is the tokens of at most one value with at most one remainder |
| `ExpandGeometry.BuildExpandedSourceImage` | internal/app/generation_references.go:283-329 | the canvas shows the source at its place and nothing elsewhere, the mask covers the same rectangle; refused exactly when empty or too large |
| `ExpandGeometry.PreserveExpandedResultOriginalArea` | internal/app/generation_references.go:344-409 | the result everywhere except in the preserved rectangle, which shows the scaled original; refused exactly when that is empty |
| `ExpandGeometry.DrawScaledNearest` | internal/app/provider.go:2083-2098 | the loops show in each point of the rectangle the sampled pixel of the source and change nothing else |
| `ExpandGeometry.ScaledPixelCovers` | internal/app/provider.go:2083-2098 | each point shows the pixel of the original whose share of the rectangle it lies in, across and down |
| `ExpandGeometry.PercentPixelsBounds` | internal/app/generation_references.go:411-416 | a margin is never negative and never wider than the picture |
| `ExpandGeometry.CanvasHasItsMargins` | internal/app/generation_references.go:303-318 | the four margins are their percentages of width and height to the nearest pixel, and the original keeps its size between them |
| `ExpandGeometry.GrownBounds` | internal/app/generation_references.go:303-318 | the source lies inside the canvas, which is at most three times as large |
| `ExpandGeometry.PreserveSpanFits` | internal/app/generation_references.go:379-398 | the scaled interval stays inside the result and is the source interval when the size is unchanged |
| `ExpandGeometry.SpanIsProportional` | internal/app/generation_references.go:390-397 | for every result size both ends of the interval are in proportion to those on the canvas, to the nearest pixel |
| `ExpandGeometry.NeverVanishesIff` | internal/app/generation_references.go:390-398 | over all pictures and valid margins the original survives if and only if the result has at least three pixels on the axis |
| `ExpandGeometry.VanishesIff` | internal/app/generation_references.go:390-398 | for any picture, valid margins and result size, the exact margins in pixels with which an axis loses the original |
| `ExpandGeometry.PreserveRectIsEmptyIff` | internal/app/generation_references.go:398-402 | for any result size the empty error is returned if and only if one of the axes is in that case |
| `ExpandGeometry.PreserveRectIsRight` | internal/app/generation_references.go:384-398 | for valid margins and at least three pixels each way, the rectangle is not empty and the intersection changes nothing |
| `ExpandGeometry.PreserveRectIsProportional` | internal/app/generation_references.go:390-398 | for every result size whatever is preserved is in proportion to the original on the canvas, each edge to the nearest pixel |
| `ExpandGeometry.UnchangedSizePreservesSource` | internal/app/generation_references.go:384-398 | on a result of the size asked for, the preserved rectangle is the source rectangle |
| `ExpandGeometry.OriginalComesBackExactly` | internal/app/generation_references.go:384-398 | then every pixel of the original comes back in its place |
| `SmsLimit.CodeStore.SmsSendLimited` | internal/app/auth_sms.go:176-205 | the three limits in their order, with the time to wait |
| `SmsLimit.CodeStore.HandleSendSMSCode` | internal/app/auth_sms.go:115-149 | a row is stored if and only if no limit applied and the message was sent and stored |
| `SmsLimit.PhoneWindowIsBounded` | internal/app/auth_sms.go:189-195 | every closed one-hour window of every history holds at most five codes of a phone |
| `SmsLimit.IpWindowIsBounded` | internal/app/auth_sms.go:196-203 | and at most twenty codes asked for from one address |
| `SmsLimit.CodesAreSpacedOut` | internal/app/auth_sms.go:177-187 | with a clock that never goes back, codes to one phone are at least a minute apart |
| `SmsLimit.SpacingSurvivesIff` | internal/app/auth_sms.go:182-187 | below the hourly limits the codes of a phone stay a minute apart, whenever the next row is written, if and only if none lies in the future |
| `SmsLimit.ClockSetBackSendsTwice` | internal/app/auth_sms.go:182-187 | for every phone and every amount the clock is set back, a history of two requests that sends both codes at once |
| `SmsLimit.SendingIsAllowedIff` | internal/app/auth_sms.go:176-205 | sending is allowed if and only if fewer than five codes of the phone and twenty of the address are at most an hour old and the newest code of the phone is a minute old or in the future |
| `SmsLimit.QuietHourIsEnough` | internal/app/auth_sms.go:189-204 | nobody is locked out: an hour without codes is always enough |
| `SmsLimit.MinuteAdviceIsExact` | internal/app/auth_sms.go:182-187 | the advised rest of a minute is refused throughout and no longer refuses at its end |
| `SmsLimit.HourAdviceIff` | internal/app/auth_sms.go:189-204 | the advised hour is enough if and only if no limit is filled by codes no older than now, and the least wait if and only if one is filled by codes no older than the moment before |
| `SmsLimit.HourAdviceExamples` | internal/app/auth_sms.go:189-204 | codes with which a moment would do, and codes with which an hour will not |
| `AlipayAmount.AmountRoundTrip` | internal/app/alipay_handlers.go:1035-1054 | for every number of cents, negative included, reading what was printed gives it back, with any white space around it |
| `AlipayAmount.PrintsNumeral` | internal/app/alipay_handlers.go:1035-1042 | a minus sign for a negative amount, a whole part without leading zeros, a point and two digits, with the value of the cents |
| `AlipayAmount.ReadsExactlyNumerals` | internal/app/alipay_handlers.go:1045-1053 | read are exactly an optional sign, digits, an optional point and digits, with a digit somewhere |
| `AlipayAmount.ParseOfNumeral` | internal/app/alipay_handlers.go:1050-1053 | and what is read is the value of those digits with that sign |
| `AlipayAmount.ReadsNearestCents` | internal/app/alipay_handlers.go:1045-1054 | any decimal number, with any white space around it, is read as the nearest number of cents, halves away from zero |
| `AlipayAmount.FloatingRoundTrip` | internal/app/alipay_handlers.go:1045-1054 | below 2^51 cents the two roundings of 53-bit floating point still give the cents back |

## Left out

- 64-bit overflow: all numbers are unbounded integers.
- Rows without credits: events, payment records, audit rows, reasons, idempotency keys and reserved-after of log rows, completion times.
- Other writers of the same balance: WeChat payment, video, soundtrack, prompt templates; and batches created by retrying items.
- The project lock and the compilation of a batch before it is stored, and the trimming of its key: a request comes with its digest, its costs and a key without surrounding white space.
- The pricing of recipes and of queued jobs: costs are inputs. A queued job is settled for the cost it was enqueued with, which is what the record carries.
- Database isolation below the transaction: a transaction is atomic, as is each half of an order callback; two verification codes asked for at the same moment are handled one after the other.
- In `CreditRuns` settle and release of a queued job may come in any order and number. `QueueRace` says which of these the queue's statuses, leases and record allow for one job. The signal that stops a worker is not modelled beyond that a worker may stop at any time, and the clock not beyond that a lease may run out at any time.
- Leases of commerce items: one executor at a time runs an item.
- Text handling of provider errors: trimming and recognising codes, and the search for policy rejections in messages, are given as fields of the error.
- The single attempt of an installation without any model or channel is the failover over one plain model.
- Prompt building, asset storage, result transformation and signed URLs between the provider's answer and the stored work: a run may stop there.
- Later edits of a channel's capability tags: `Declares` fixes which channels support idempotency.
- The database queries of routing: the online models, the failed calls of the last minute and the calls per model are inputs; the speed-first strategy is not modelled.
- The lexical part of JSON: a token list stands for the text, with `Bad` where the decoder reports an error.
- Decoding and encoding of pictures, and colours: a pixel is a number. The rounding of margins is exact, where the program rounds quotients of floating point numbers.
- AlipayAmount.ParseAlipayAmountCents: reads signs, digits and one decimal point only; exponents, hexadecimal digits, underscores, infinities and not-a-number, which the library also reads, are not modelled.
- HTTP handlers, sessions, signatures of the payment provider, administration pages, migrations.
