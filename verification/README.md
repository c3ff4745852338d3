# Basalt verification

A Dafny model of the parts of Basalt in which money, transactions and shared data must come out right, with
proofs of what they keep. `dafny verify dfyconfig.toml` checks the whole project.

- `FeeMath`, `BasketMath`, `Lifecycle`: the share arithmetic of a basket (mint, redeem, management accrual with a
  carried remainder, the 90/10 split) and the transition check of the lifecycle proof, up to whole-run results:
  conservation, no dilution of the passive holders and no extraction by an investor.
- `Bootstrap` (`BootstrapHistory`), `Submission` (`ReceiptLedger`): the two write-ahead, at-most-once submission
  protocols. Every awaited call may answer anything, answer nothing or be the last thing a process does; what is
  proved is about the durable journal, everything ever broadcast and what a run asked before it did so.
- `OwnerSetup`, `Reconcile`: the owner's planner, packer and rounds of review, the single broadcast, and what a
  reconciled receipt says about the chain.
- `RpcCache`, `AltScope`: the read cache with generations and the one-flight preparation scope. A method is the code
  between two awaits, so a schedule of method calls is an interleaving, and the results hold for every schedule.
- `SignAndSend` (`Retry`), `BoundedFetch` (`FetchHistory`): the retry loop, the ambiguous broadcast of one signed
  transaction, and the serialized, bounded RPC transport.
- `WordWrap` (`WordText`): greedy wrapping with grapheme splitting, against every other wrapping.
- `ShareLink` (`Base64Url`, `ConceptBasket`, `ConceptFacts`, `PlainPlatform`): base64url, the basket validator and the versioned link
  payload, over a platform whose assumed properties `PlainPlatform` shows can be met.
- `Decimals` (`DigitStrings`, `DecimalText`): the two scaled-amount printers and the token amount parser and printer.
- `Performance` (`PerformanceFacts`): the fixed-quantity performance model, what it reports of the candles, and the
  check its consumer makes.
- `Results`: shared result types.

Conventions: addresses, signatures and message bytes are distinct tokens (`nat`); RPC replies, clocks, random jitter,
wallets and crashes are arbitrary values; heights and dates are integers; closes and values are real numbers.

Where the code and its own comments differ, the model follows the code:

- `jitteredWait` is described as capped at 30 seconds, but adds its jitter after the cap
  (`app/lib/rpc-retry.ts:122-127`): `Retry.JitterExceedsCapIff` gives exactly when the cap is exceeded.
- When the deadline passes during a wait, the retry loop reports one attempt more than it made, and its first attempt
  runs even after the deadline (`app/lib/rpc-retry.ts:138-164`): `Retry.CountOverstatedIff` and
  `Retry.DeadlineKeptIff` give exactly when, and `Retry.LateStartAndOverstatedCount` an example.
- A preparation that resolves to null is not remembered (`app/lib/alt-preparation-scope.ts:18`):
  `AltScope.NullIsPreparedAgain`; a new preparation starts exactly when the context holds neither value nor promise.
- Submitted receipts are distinct by label, not by signature (`scripts/devnet-owner-lifecycle-proof.ts:169`): a
  broadcast repeats a signature exactly when the request's signature was sent before (`Submission.LifecycleRun.SubmitOnce`),
  `Submission.SameTransactionTwice` does so, and `Submission.LifecycleRun.SubmitAll` never does for distinct new ones.
- A journalled step that is not found finalized without error stops every later send, but not every send: a run asks
  about it only when it gets there, and may broadcast earlier steps before, if something up to them was neither
  journalled nor satisfied in its first read (`Bootstrap.PrivateRun.Execute`, `BootstrapHistory.UncheckedBlocks`).
  That never happens while reads only gain steps, but the first read has no minimum slot
  (`scripts/devnet-owner-bootstrap.ts:208`), and in `Bootstrap.StaleFirstRead` a lagging one lets a step be sent.
- `checkGrossShares` accepts empty lists with an undefined gross (`app/components/basket/basket-math.ts:75-97`), which the
  other form refuses: `BasketMath.CheckGrossShares`.
- An expired verdict is sound for replies from a ledger that only moves forward; for replies from lagging nodes
  `Reconcile.ExpiredSoundIff` gives the exact condition and `Reconcile.LaggingReplyMisreports` an example.
- The two scaled-amount printers agree exactly when the multiplier's text has no exponent; with one, the general
  printer refuses (`Decimals.PrintersAgreeIff`).

## Model

| member | source | states |
|---|---|---|
| FeeMath.SplitFee | app/lib/protocol-policy.ts:45-53 | A fee splits into the floor of 90% and the exact remainder; only a negative fee is refused. |
| FeeMath.ManagementFee | backend/src/workers/feeMath.ts:31-55 | Fee and carried remainder are quotient and rest of one numerator; zero supply or rate clears the remainder; the error cases. |
| FeeMath.PathIndependent | backend/src/workers/feeMath.ts:31-55 | At constant supply any list of accruals gives the fee, remainder and error of one accrual over the total time. |
| FeeMath.CompoundNumerator | scripts/testXStockBaskets.ts:99-104 | When fee shares join the supply, the charged numerator is never below that of one accrual, and the remainder stays below the denominator. |
| FeeMath.CompoundNeverLess | scripts/testXStockBaskets.ts:99-104 | Accruing in parts with fee shares added to the supply never collects less than one accrual, and fails exactly when it fails. |
| FeeMath.DecodeFeeCheckpoint | scripts/testXStockBaskets.ts:80-85 | The five-byte loop reads exactly the little-endian remainder at offset 881, and the time at offset 152 is a signed 64-bit value; exactly short accounts and foreign discriminators are refused. |
| FeeMath.StoreRoundTrip | programs/basket/src/lib.rs:902-917 | Little-endian storing and reading are inverse for every value that fits the width. |
| FeeMath.TimeRoundTrip | scripts/testXStockBaskets.ts:84 | Every signed 64-bit accrual time is read back from its two's complement bytes. |
| FeeMath.RemainderFitsFiveBytes | programs/basket/src/lib.rs:908-917 | Every remainder a charge leaves survives the five-byte field. |
| BasketMath.CheckGrossShares | app/components/basket/basket-math.ts:58-97 | The loops return the expected gross shares and the first limiting leg, and each error exactly in its case and order; empty lists are accepted without a gross. |
| BasketMath.ListLegs | app/components/basket/basket-math.ts:65-73 | The loop over the legs gives the shares of each, or names the first leg whose deposit or vault is not positive. |
| BasketMath.LegErrorIs | app/components/basket/basket-math.ts:65-73 | The named leg is the first whose deposit or vault is not positive, and the deposit is looked at first. |
| BasketMath.Extremes | app/components/basket/basket-math.ts:75-84 | The scan finds the first least leg and the greatest one. |
| BasketMath.MintKeepsBacking | scripts/testXStockBaskets.ts:88 | One mint leg never lowers the vault's backing per share. |
| BasketMath.MintQuoteFacts | scripts/testXStockBaskets.ts:86-93 | An accepted mint keeps every vault's backing per share and conserves gross, net, creator and treasury shares. |
| BasketMath.RedeemKeepsBacking | scripts/testXStockBaskets.ts:97 | One payout is within the vault and never lowers the backing of the remaining shares. |
| BasketMath.RedeemQuoteFacts | app/components/basket/basket-math.ts:115-130 | A redemption pays each leg at most its vault, burns shares less the fee, and keeps every backing per share. |
| BasketMath.BurnsKeepBacking | scripts/testXStockBaskets.ts:94-98 | Over any list of burns the backing of the remaining shares never falls, and burning the whole supply empties the vault. |
| BasketMath.BurnsPay | scripts/testXStockBaskets.ts:94-98 | Any list of k burns pays more than the pro-rata claim at the start less k units. |
| BasketMath.BurnsAreFair | scripts/testXStockBaskets.ts:94-98 | Any list of k burns pays at most the floor of the pro-rata claim, more than that claim less k, and everything when all shares burn. |
| BasketMath.SizedDepositBounds | scripts/mintAndRedeem.ts:306-311 | A deposit sized up from a target implies at least the target and overshoots by less than one supply-to-vault ratio. |
| BasketMath.SizedDepositsAccepted | scripts/mintAndRedeem.ts:306-314 | Deposits sized for a target pass the 1% test and mint at least the target whenever 100 supplies fit the target times the least vault. |
| Lifecycle.ConservationFollows | scripts/devnet-owner-lifecycle-proof.ts:133-137 | The share-conservation check can never be the one that fails: the other checks imply it for all rates and roundings. |
| Lifecycle.StepFacts | scripts/devnet-owner-lifecycle-proof.ts:111-139 | Every accepted step moves exactly what its action may: the management fee is the charge of the elapsed time, the action fee the floored rate on the gross or the redeemed shares, the creator gains 90% of each and the treasury the rest, and both fees are reported; payouts are the floored pro-rata ones, vault plus investor assets stay, and every backing per share after accrual is kept. |
| Lifecycle.CompareIsLawful | scripts/devnet-owner-lifecycle-proof.ts:111-132 | What the ledger comparison accepts moves shares and assets as the action alone says and pays creator and treasury their parts of both fees. |
| Lifecycle.LawfulIsAccepted | scripts/devnet-owner-lifecycle-proof.ts:111-139 | Conversely, every snapshot whose fees are charged and paid and whose shares and assets moved as the action says passes all checks of the transition. |
| Lifecycle.StepWellFormed | scripts/devnet-owner-lifecycle-proof.ts:111-139 | An accepted step starts from a positive supply and ends in non-negative balances that add up to the supply. |
| Lifecycle.StepKeepsPassiveClaim | scripts/devnet-owner-lifecycle-proof.ts:111-139 | Creator and treasury together never lose claim on any vault in any accepted step, accrual included. |
| Lifecycle.RunKeeps | scripts/devnet-owner-lifecycle-proof.ts:111-139 | Over every run: conservation, non-decreasing creator and treasury shares, the passive claim on each vault, and vault plus investor assets. |
| Lifecycle.NoExtraction | scripts/devnet-owner-lifecycle-proof.ts:111-139 | An investor who starts and ends a run without shares leaves every vault at least as full and holds no more assets than before. |
| Lifecycle.ExampleRun | scripts/devnet-owner-lifecycle-proof.ts:111-139 | A concrete mint and full redemption accepted by every check, which costs the investor both fees. |
| Lifecycle.EmptyBasketIsFinal | scripts/devnet-owner-lifecycle-proof.ts:123-132 | No step is ever accepted from an empty supply. |
| BootstrapHistory.UnrecordedNeverSent | scripts/devnet-owner-bootstrap.ts:226-234 | In a safe history a step missing from the durable journal was never broadcast. |
| BootstrapHistory.SafeSend | scripts/devnet-owner-bootstrap.ts:253-256 | Broadcasting a durably recorded, never sent step keeps write-ahead, at-most-once and remembered signatures. |
| BootstrapHistory.SafeWrite | scripts/devnet-owner-bootstrap.ts:252-254 | Replacing the journal by one that keeps every recorded signature keeps all four safety properties. |
| BootstrapHistory.OrderedNewStep | scripts/devnet-owner-bootstrap.ts:224-254 | Steps are journalled in plan order: all earlier ones are journalled or were seen satisfied. |
| BootstrapHistory.UnclearRunSendsNothing | scripts/devnet-owner-bootstrap.ts:227-231 | While finalized reads only gain steps, a run that stops at a step of unknown or failed status has broadcast nothing. |
| BootstrapHistory.UnclearStops | scripts/devnet-owner-bootstrap.ts:227-231 | A run that stops at an unclear step has broadcast nothing exactly when every earlier step was journalled before the run or satisfied in its first read. |
| BootstrapHistory.SubmittingRules | scripts/devnet-owner-bootstrap.ts:226-256 | A broadcast of the step at hand is due: an earlier run did not journal it, something up to it was unsettled, and every earlier step of earlier runs was re-checked before. |
| BootstrapHistory.UncheckedBlocks | scripts/devnet-owner-bootstrap.ts:226-232 | However a run ends: as long as it has not found a journalled step finalized, it broadcasts only earlier steps up to which something was unsettled at its start, and nothing when everything before that step was settled. |
| BootstrapHistory.UncheckedRunSendsNothing | scripts/devnet-owner-bootstrap.ts:208-231 | While finalized reads only gain steps, a run that has not found some journalled step finalized without error has broadcast nothing. |
| BootstrapHistory.PartLaunches | scripts/devnet-owner-bootstrap.ts:235-256 | However a submission is interrupted, its broadcast comes right after its five checks and records. |
| BootstrapHistory.ChecksGrow | scripts/devnet-owner-bootstrap.ts:218-270 | A submission made with funds checked and every earlier broadcast finished keeps every broadcast checked. |
| Bootstrap.PrivateRun.Write | scripts/devnet-owner-bootstrap.ts:289-291 | A durable write leaves the old or the new journal, whatever reply is lost, and keeps every safety property; it succeeds exactly when the file was replaced and the reply came. |
| Bootstrap.PrivateRun.Send | scripts/devnet-owner-bootstrap.ts:256 | The broadcast happens only for a durably recorded and never sent step, is counted even when the reply is lost, and succeeds exactly when its own signature is returned. |
| Bootstrap.PrivateRun.Confirm | scripts/devnet-owner-bootstrap.ts:258-265 | A new submission is confirmed exactly when one of the first 46 polls, in time, shows it finalized without error and all polls before it, in time, showed nothing; only then is that taken down. |
| Bootstrap.PrivateRun.CheckFunds | scripts/devnet-owner-bootstrap.ts:218-222 | The need is the sum of the quoted rents and the full fee of every remaining step; the check passes exactly when every quote is valid, need, past spending and the balance already lost stay within 0.02 SOL, and 0.001 SOL remain. |
| Bootstrap.RemainingIs | scripts/devnet-owner-bootstrap.ts:220 | The steps that remain are the unsatisfied ones of the seven planned. |
| Bootstrap.PrivateRun.Authorize | scripts/devnet-owner-bootstrap.ts:235 | Every step but the first needs the bootstrap signer to hold the whitelist authority, and only then is that taken down. |
| Bootstrap.PrivateRun.Price | scripts/devnet-owner-bootstrap.ts:237-244 | A transaction is priced exactly when it was signed, its fee is positive and within 0.0001 SOL and its simulation succeeded, and only then is that taken down. |
| Bootstrap.PrivateRun.Enter | scripts/devnet-owner-bootstrap.ts:248-253 | A receipt is entered exactly when the reserve quote is valid and past spending, reserve and fee stay within 0.02 SOL; it adds exactly both. |
| Bootstrap.PrivateRun.Quote | scripts/devnet-owner-bootstrap.ts:235-252 | Preparing a step leaves a part of the sequence authority, successful simulation, new read without the step; success means all three and exactly one new receipt within the cap, and nothing is broadcast. |
| Bootstrap.PrivateRun.Broadcast | scripts/devnet-owner-bootstrap.ts:252-257 | Durable record, clock and broadcast follow one another; success means the journal naming the signature is durable and one broadcast happened. |
| Bootstrap.PrivateRun.Settle | scripts/devnet-owner-bootstrap.ts:258-270 | Finality, a read with the step, the finalized mark and the spending guard follow one another; the journal changes only after the submission was confirmed, and success means all four and exactly that step marked finalized. |
| Bootstrap.PrivateRun.CheckGuard | scripts/devnet-owner-bootstrap.ts:269-270 | The guard after a step passes exactly when at most the cap was lost and the reserve remains, and only then is that taken down. |
| Bootstrap.PrivateRun.Revisit | scripts/devnet-owner-bootstrap.ts:226-233 | The first thing done about a journalled step is to ask for its status, and nothing is sent; the run goes on only when it is finalized without error and the step is satisfied. |
| Bootstrap.PrivateRun.Execute | scripts/devnet-owner-bootstrap.ts:204-274 | From any durable journal, with a crash or lost reply at any await: every broadcast comes right after its authority check, successful simulation, re-read, durable record and clock check, with funds checked and every earlier broadcast of the run finished and guarded; no step of an earlier run is sent again, every send comes after a clean re-check of every earlier step of earlier runs, and a step not found finalized blocks all later ones; receipts are marked finalized only on a finalized status; a journal of another identity is left alone; success means every receipt is finalized and the whole plan satisfied. |
| Bootstrap.PrivateRun.RunOnce | scripts/devnet-owner-bootstrap.ts:282-292 | A run needs the exclusive lock, and without it neither journal nor history changes; with it the same rules hold for everything the run sends. |
| Bootstrap.PrivateRun.RunMany | scripts/devnet-owner-bootstrap.ts:204-292 | Over any number of runs and crashes no step is broadcast twice and every broadcast follows its durable record; the lock is held exactly when it was taken, at first or by a crash, and not cleared since. |
| Bootstrap.PrivateRun.Visit | scripts/devnet-owner-bootstrap.ts:224-256 | One turn of the plan: nothing happens past the deadline; otherwise a journalled step is re-checked, a satisfied one skipped and any other submitted. |
| Bootstrap.StaleFirstRead | scripts/devnet-owner-bootstrap.ts:208-256 | Two runs of the code, the second from a stale first read: it broadcasts a step before a journalled one and ends without asking about that one. |
| ReceiptLedger.Prepare | scripts/devnet-owner-lifecycle-proof.ts:187-191 | Appending a receipt within the actor's ceiling keeps labels distinct, accounts exact and only the last receipt open. |
| ReceiptLedger.Finalize | scripts/devnet-owner-lifecycle-proof.ts:199-202 | Marking the sent last receipt finalized keeps the whole ledger sound. |
| ReceiptLedger.SpentIgnoresStatus | scripts/devnet-owner-lifecycle-proof.ts:191-201 | An actor's allocation does not depend on receipt status. |
| ReceiptLedger.SoundPublishable | scripts/devnet-owner-lifecycle-proof.ts:244-258 | Every sound ledger passes the ceilings, counts and openness re-checked before a journal is published. |
| ReceiptLedger.SentIsPrefix | scripts/devnet-owner-lifecycle-proof.ts:187-193 | What was sent is a prefix of the receipts' signatures, at most one short of all. |
| ReceiptLedger.FreshStaysDistinct | scripts/devnet-owner-lifecycle-proof.ts:187-193 | Sending any subsequence of distinct, never sent signatures sends no signature twice. |
| Submission.LifecycleRun.Record | scripts/devnet-owner-lifecycle-proof.ts:187-192 | The receipt and its cost are in memory before the write, and the write succeeds exactly when the file is replaced and the reply arrives; then the ledger is durable before anything is sent. |
| Submission.LifecycleRun.Deliver | scripts/devnet-owner-lifecycle-proof.ts:193-205 | One broadcast of the last receipt; the receipt is closed exactly when the RPC returned its own signature and the first status that was not merely waiting was finalized at a kept slot. |
| Submission.VerdictDecides | scripts/devnet-owner-lifecycle-proof.ts:194-202 | The first poll that is not merely waiting decides: only a finalized one at a kept slot passes, and each failure has its own kind of poll. |
| Submission.LeftFinal | scripts/devnet-owner-lifecycle-proof.ts:187-202 | A receipt is left final exactly by a durable record, its own signature returned and a final status at a kept slot. |
| Submission.LifecycleRun.Confirm | scripts/devnet-owner-lifecycle-proof.ts:194-202 | The polling loop passes exactly when the first poll that is not merely waiting is a finalized one at a kept slot, and fails with the error of that poll or with ambiguity. |
| Submission.LifecycleRun.AdmittedIff | scripts/devnet-owner-lifecycle-proof.ts:161-186 | A request reaches the journal exactly when none of the checks before it fails, ceilings and reserves of each actor included. |
| Submission.LifecycleRun.SubmitOnce | scripts/devnet-owner-lifecycle-proof.ts:161-206 | Exactly the admissible requests add one receipt, and exactly a durable one is broadcast, once; success means all receipts are closed and durable, and a broadcast repeats a signature exactly when the request's signature was sent before. |
| Submission.LifecycleRun.SubmitAll | scripts/devnet-owner-lifecycle-proof.ts:161-206 | Over any list of requests with any replies: what was sent is a subsequence of the requests' signatures, distinct when they are distinct and new; nothing follows an open receipt, and an admissible first request is taken. |
| Submission.SameTransactionTwice | scripts/devnet-owner-lifecycle-proof.ts:168-170 | Two submissions of one signed transaction under two labels, both accepted: labels, not signatures, are checked. |
| OwnerSetup.Inspect | app/lib/devnet-owner-setup.ts:188-242 | The imperative inspection computes the specified state and step list, which describe the accounts, or the first problem they have. |
| OwnerSetup.InspectionIs | app/lib/devnet-owner-setup.ts:188-242 | An inspection fails exactly for the first problem the accounts have; otherwise it describes them, and plans in order exactly the steps that are due. |
| OwnerSetup.ListSteps | app/lib/devnet-owner-setup.ts:230-238 | The pushing loop builds the specified plan. |
| OwnerSetup.AdmitFirst | programs/whitelist/src/lib.rs:32-64 | Admitting the first missing token removes exactly the head of the missing list and raises the count by one. |
| OwnerSetup.PlannedStep | app/lib/devnet-owner-setup.ts:230-238 | The first planned step is accepted by the programs and leaves exactly the rest of the plan. |
| OwnerSetup.PrefixLeavesSuffix | app/lib/devnet-owner-setup.ts:188-242 | After applying any prefix of the plan, every step being ready when reached, the client plans exactly the remaining suffix. |
| OwnerSetup.EmptyPlanIsComplete | app/lib/devnet-owner-setup.ts:229-242 | For an owner who is not waiting, an empty plan means exactly complete setup. |
| OwnerSetup.Pack | app/lib/devnet-owner-setup.ts:271-276 | The loop packs the longest run of prefixes that fit one by one, and refuses exactly when it reaches the factory step without a treasury. |
| OwnerSetup.RentCounts | app/lib/devnet-owner-setup.ts:278-285 | Every step but a claim adds its own rent to the total, wherever it stands. |
| OwnerSetup.PreparableIff | app/lib/devnet-owner-setup.ts:271-290 | A plan can be prepared exactly when some steps fit one by one and the next does not, the factory step is not reached without a treasury, every rent quote is valid, the fee is at most 0.0001 SOL, rent and fee at most 0.02 SOL and 0.001 SOL remain. |
| OwnerSetup.Prepare | app/lib/devnet-owner-setup.ts:257-290 | A preparation succeeds exactly for an owner who is not waiting and whose plan is empty, or whose packed prefix is not empty, has its treasury and is affordable; each of the first four refusals has its exact case. |
| OwnerSetup.GreedyIsMaximal | app/lib/devnet-owner-setup.ts:271-277 | For a size measure that never shrinks, exactly the prefixes up to the packed one fit. |
| OwnerSetup.SetupRounds | app/lib/devnet-owner-setup.ts:257-290 | Repeating review and application ends in complete setup within as many rounds as planned steps; a refusal names a remaining plan that cannot be prepared, and when every step fits, the treasury is recorded and every stretch of the plan is affordable, an owner who is not waiting always succeeds. |
| OwnerSetup.ProvidedIsPreparable | app/lib/devnet-owner-setup.ts:271-290 | When single steps fit, the treasury is recorded and every stretch is affordable, every remaining plan can be prepared. |
| Reconcile.ExpiredNeverLands | app/lib/devnet-owner-setup.ts:339-350 | With replies from a ledger that only moves forward, an expired receipt has not landed and never will, races included. |
| Reconcile.FinalVerdictsAreTrue | app/lib/devnet-owner-setup.ts:334-354 | Finalized and failed are the chain's own verdicts, a finalized landing is always reported, and a handoff never expires. |
| Reconcile.VerdictIff | app/lib/devnet-owner-setup.ts:334-354 | Each verdict has its exact case: expiry when two statuses around a passed last valid height show nothing, finality when either shows the landing finalized, and otherwise the receipt stays prepared. |
| Reconcile.ExpiredSoundIff | app/lib/devnet-owner-setup.ts:339-350 | With lagging replies, unfinalized landings shown or not, expiry is sound exactly when one status reply was processed up to the last valid height. |
| Reconcile.LaggingReplyMisreports | app/lib/devnet-owner-setup.ts:339-350 | Concrete lagging replies for which a landed transaction is reported expired. |
| Reconcile.PolledIsTrue | app/lib/devnet-owner-setup.ts:366-376 | Over any number of polls with replies in order, the reported verdict is true of the transaction. |
| Reconcile.PolledIff | app/lib/devnet-owner-setup.ts:366-376 | Polling reports what the first deciding turn says, as long as every reply before it came and the owner stayed. |
| Reconcile.LandingIsReported | app/lib/devnet-owner-setup.ts:366-376 | A landing that is finalized at some poll is reported with its own outcome, if polling lasts until then. |
| Reconcile.Session.Broadcast | app/lib/devnet-owner-setup.ts:355-376 | The receipt is persisted before the one send and no outcome sends again; the verdict is the first one polling gives, and is true of the transaction: expired means it never lands, finalized and failed are its own outcome. |
| RpcCache.RpcState.ResumeCall | app/lib/devnet-baskets.ts:203-216 | A caller is answered from a fresh entry, joins a pending read or begins one, in that order, and a new read begins only without a pending one. |
| RpcCache.RpcState.SettleRead | app/lib/devnet-baskets.ts:210-212 | A read fills the cache only when no invalidation happened since it began. |
| RpcCache.RpcState.CleanupRead | app/lib/devnet-baskets.ts:213 | A finished read removes only its own pending entry, never a newer one. |
| RpcCache.RpcState.InvalidateCache | app/lib/devnet-baskets.ts:219-221 | Invalidation starts a new generation with empty cache and pending maps. |
| RpcCache.RpcState.Act | app/lib/devnet-baskets.ts:203-221 | One stretch of code at one step: invalidations and calls are recorded at that step, due reads settle, are cleaned up and are delivered, and nothing recorded is lost. |
| RpcCache.BeginKeepsOneFlight | app/lib/devnet-baskets.ts:207-215 | A read begun without a pending entry is the only one in flight for its key and generation. |
| RpcCache.DoneKeeps | app/lib/devnet-baskets.ts:213 | Removing a finished read keeps the pending map equal to the unfinished reads of the current generation. |
| RpcCache.RpcState.RunSchedule | app/lib/devnet-baskets.ts:203-221 | Under every interleaving every action leaves its mark at its own step, and a returned value was read for the caller's key after every invalidation of the schedule that preceded the call. |
| AltScope.BeginKeeps | app/lib/alt-preparation-scope.ts:13-28 | Starting a preparation in a context without value or promise keeps one flight per context. |
| AltScope.FinishKeeps | app/lib/alt-preparation-scope.ts:21-24 | Settling a preparation records a value only in its own, still selected context. |
| AltScope.CleanupKeeps | app/lib/alt-preparation-scope.ts:25 | Clearing a promise never clears a newer one. |
| AltScope.PreparationScope.Select | app/lib/alt-preparation-scope.ts:4-9 | A context is replaced exactly when identity or connection differ. |
| AltScope.PreparationScope.Run | app/lib/alt-preparation-scope.ts:13-28 | Refusal exactly for another context; a preparation starts exactly when the context holds neither a value nor a promise. |
| AltScope.PreparationScope.Finish | app/lib/alt-preparation-scope.ts:21-24 | A value is kept exactly when it is not null and its context is still the one selected last, and nothing else is touched; a null succeeds unkept, and everything else is a rejection. |
| AltScope.PreparationScope.Cleanup | app/lib/alt-preparation-scope.ts:25 | The promise of the context is cleared exactly when it is this one, and nothing else is touched. |
| AltScope.PreparationScope.RunSchedule | app/lib/alt-preparation-scope.ts:2-29 | Under every interleaving: one flight per context and none after a success, rejection after replacement, no answer from another identity or connection, the runs of the schedule are the calls in order, and the last selection stands. |
| AltScope.NullIsPreparedAgain | app/lib/alt-preparation-scope.ts:18 | A run that shows a preparation resolving to null is not remembered and starts again. |
| Retry.JitterExceedsCapIff | app/lib/rpc-retry.ts:123-127 | The jittered wait can exceed the 30 second cap exactly for base waits above 24 seconds, and is never above 37.5 seconds. |
| Retry.TotalWaitBounds | app/lib/rpc-retry.ts:134-167 | The whole backoff lies within a quarter of the schedule used, up to half a millisecond a wait. |
| Retry.DefaultWaitBounds | app/lib/rpc-retry.ts:28-38 | With the default delays the backoff is at most 1.25 times the schedule, which is at most one minute. |
| Retry.DeadlineKeptIff | app/lib/rpc-retry.ts:138-164 | All attempts start before the deadline exactly when the first one does. |
| Retry.CountOverstatedIff | app/lib/rpc-retry.ts:143-164 | The reported number of attempts exceeds the attempts made, by one, exactly when the clock passed the deadline during a wait, which is then the wait after the last attempt. |
| Retry.LateStartAndOverstatedCount | app/lib/rpc-retry.ts:138-164 | On a clock that only moves forward: a first attempt after the deadline, and one attempt reported as two. |
| SignAndSend.Sender.Catch | app/lib/rpc-retry.ts:141-165 | A failed attempt stops at once exactly for a non-transient error, the last attempt or a passed deadline, and otherwise waits; the reported count is the number of waits plus one. |
| SignAndSend.Sender.WithRetry | app/lib/rpc-retry.ts:134-167 | At most the given attempts, all but the last failed transiently, only the first may start at or past the deadline, and the result is determined by the last attempt. |
| SignAndSend.Sender.Attempt | app/lib/sign-and-send-local.ts:31-43 | Guards come first; only a transient send failure makes the call ambiguous, and what is sent are the signed bytes. |
| SignAndSend.Sender.SignAndSendLocal | app/lib/sign-and-send-local.ts:12-54 | All broadcasts carry the same bytes and number at most six; exactly a signature that is not 64 bytes, or all zero, is invalid; an error is reported exactly when nothing was accepted and nothing was ambiguous, and an exhausted one after six attempts. |
| WordText.WordsAreRuns | app/lib/basket-image-layout.ts:3 | Replacing, collapsing, trimming and splitting gives exactly the maximal runs of visible characters. |
| WordText.WordsHoldText | app/lib/basket-image-layout.ts:3 | The words hold all visible characters in order; none is empty or holds a break. |
| WordText.CharacterCodes | app/lib/basket-image-layout.ts:3 | The control and white space characters of the two patterns, by code. |
| WordWrap.StaysAhead | app/lib/basket-image-layout.ts:7-18 | Line by line, greedy wrapping never starts earlier in the text than any other wrapping. |
| WordWrap.GreedyIsOptimal | app/lib/basket-image-layout.ts:7-18 | No wrapping of the same words uses fewer lines, when the measure grows with the words on a line. |
| WordWrap.SplitWord | app/lib/basket-image-layout.ts:12-16 | A word wider than a line is put down grapheme by grapheme without losing text; each line fits or is one grapheme, and no line ends before the next grapheme does not fit. |
| WordWrap.PlaceWord | app/lib/basket-image-layout.ts:7-17 | One turn of the loop keeps the text with its line ends, the fit of all lines, the reason for every line end and, when every word fits, the greedy wrapping. |
| WordWrap.WrapImageText | app/lib/basket-image-layout.ts:2-20 | The lines are the words with single spaces, broken at spaces or inside words wider than a line; every line fits or is one grapheme, and none ends before a word or grapheme that fits; when every word fits there are no fewer lines. |
| Base64Url.OctetsOfSextets | app/lib/concept-share.ts:11 | Regrouping bytes into six-bit values and back loses nothing. |
| Base64Url.UrlDigits | app/lib/concept-share.ts:11 | The URL alphabet by character codes, and nothing else. |
| Base64Url.AtobInvertsBtoa | app/lib/concept-share.ts:7-12 | The platform's decoder inverts its padded encoder on every byte string. |
| Base64Url.ToBase64Url | app/lib/concept-share.ts:7-12 | The loop over bytes, padded base64 and the replacements give the unpadded URL alphabet of section 5 of RFC 4648. |
| Base64Url.DecodeInvertsEncode | app/lib/concept-share.ts:33-35 | Decoding inverts encoding on every byte string, and encoded text is within the URL alphabet. |
| ConceptBasket.CheckRow | app/lib/concept-basket.ts:64-89 | A row adds exactly its own errors and passes its symbol, mint and weight on exactly when they are well formed. |
| ConceptBasket.CheckRows | app/lib/concept-basket.ts:61-90 | The loop reports exactly the errors some row has after the rows before it, and accepts exactly distinct acceptable rows whose weights total 10000. |
| ConceptBasket.CheckTop | app/lib/concept-basket.ts:40-60 | Each top-level error is reported exactly when its field is wrong. |
| ConceptBasket.CheckFees | app/lib/concept-basket.ts:92-105 | The fee loop reports exactly the fees that are not whole or exceed their caps. |
| ConceptBasket.ValidateConceptBasket | app/lib/concept-basket.ts:35-128 | The validator accepts exactly the declaratively valid baskets and returns their normal form; a refusal lists exactly the problems the input has, each once. |
| ConceptBasket.NormalFormIsFixed | app/lib/concept-basket.ts:109-126 | A normal form is valid and normalizes to itself. |
| ConceptBasket.TrimIsIdempotent | app/lib/concept-basket.ts:113-114 | Trimming twice is trimming once and never lengthens. |
| ConceptFacts.ValidIff | app/lib/concept-basket.ts:35-107 | Exactly the objects are accepted whose name, thesis, amount, cover, two to twenty distinct rows adding up to 100% and three fees are each within their bounds, said of the plain fields. |
| ConceptFacts.HeadProblems | app/lib/concept-basket.ts:42-49 | Version, name and thesis are each reported exactly when out of their bounds, whatever else is wrong. |
| ConceptFacts.MoreHeadProblems | app/lib/concept-basket.ts:50-60 | Amount, cover and number of assets are each reported exactly when out of their bounds, whatever else is wrong. |
| ConceptFacts.RowProblem | app/lib/concept-basket.ts:64-89 | Each problem of a row has its exact cause in the row's fields and the symbols and mints before it. |
| ConceptFacts.FeeProblem | app/lib/concept-basket.ts:92-105 | A fee is reported exactly when it is not a whole number from 0 to 300, 100 or 300. |
| ConceptFacts.NormalizedIs | app/lib/concept-basket.ts:109-128 | An accepted basket keeps every field, without the space around name and thesis, and has the cover asked for or the legacy one. |
| ShareLink.RowsOfFlat | app/lib/concept-share.ts:47-55 | Packing three values per asset, null for a missing mint, is inverted exactly. |
| ShareLink.ShapeIff | app/lib/concept-share.ts:40-46 | Exactly the payloads of wrong length, version or kind of part are refused, for each of the three versions. |
| ShareLink.ExpandedHead | app/lib/concept-share.ts:48-60 | Every field of every accepted payload of whatever version: no cover before version 4, no thesis in the shortest, no fees below six values. |
| ShareLink.ExpandedRows | app/lib/concept-share.ts:40-55 | Every row of every accepted payload: two values before version 3 and three from it on, where a null mint is none. |
| ShareLink.ExpandedCompact | app/lib/concept-share.ts:40-60 | Unpacking the version 4 payload of a basket gives that basket. |
| ShareLink.EncodeConceptBasket | app/lib/concept-share.ts:15-25 | A link exists exactly for valid baskets whose text fits 4096 characters, and is the one specified. |
| ShareLink.LimitImpliesBound | app/lib/concept-share.ts:20-37 | When no character takes less than a byte, every link within 4096 characters decodes to at most 3070 bytes, below the decoder's bound. |
| ShareLink.DecodeInvertsLink | app/lib/concept-share.ts:15-68 | Decoding the link of any valid basket whose amount is a number of the platform gives its normal form. |
| ShareLink.DecodeIff | app/lib/concept-share.ts:28-68 | A link is read exactly when it has at most 4096 characters of the alphabet after its version and holds at most 3072 characters of JSON that mean a valid basket; what is read is its normal form. |
| ShareLink.DecodedIsNormal | app/lib/concept-share.ts:28-68 | Whatever link of any version a basket was read from, it is in normal form and sharing it again gives a link to the same basket. |
| ShareLink.CompactIsExact | app/lib/concept-share.ts:19 | The payload of a valid basket holds only values that JSON represents exactly. |
| PlainPlatform.PlainIsFaithful | app/lib/concept-share.ts:7-12 | What is assumed of the platform's numbers, JSON and UTF-8 functions can be met: a small concrete platform meets it. |
| DigitStrings.PadSplits | app/lib/format.ts:231-235 | A number padded to p + 1 digits is its whole part followed by exactly its last p digits. |
| DigitStrings.ByDivision | app/lib/devnet-baskets.ts:162-164 | The digit-wise whole part and rest are quotient and remainder by the power of ten. |
| DecimalText.PlainIff | app/lib/format.ts:218-228 | The general printer's pattern accepts exactly the texts without an exponent and reads their digits. |
| DecimalText.TextSplits | app/lib/devnet-baskets.ts:157-158 | Splitting a positive number's text at the exponent and at the point gives back its parts. |
| Decimals.PrintersAgreeIff | app/lib/devnet-baskets.ts:155-165 | For every amount, decimals 0 to 12 and positive multiplier, both printers print the same text exactly when the multiplier's text has no exponent; otherwise only one accepts it. |
| Decimals.UnitsPrinted | app/lib/format.ts:226-237 | The general printer prints the whole part and the trimmed last digits. |
| Decimals.PlacesPrinted | app/lib/devnet-baskets.ts:160-164 | The devnet printer prints the same whole part and trimmed digits. |
| Decimals.PrintedValue | app/lib/format.ts:206-238 | The printed text denotes the scaled amount exactly. |
| Decimals.FormatIsScaledByOne | app/lib/managed-chain.ts:148-152 | The token printer is the devnet printer with multiplier one. |
| Decimals.ParseInvertsFormat | app/lib/managed-chain.ts:137-152 | Every 64-bit amount survives printing and parsing; a larger one is refused. |
| Decimals.FormatInvertsParse | app/lib/managed-chain.ts:137-152 | Printing a parsed amount gives its text back without the zeros that end its fraction. |
| Performance.CheckSymbols | app/lib/basket-performance.ts:115-138 | The loop finds the first failing symbol of a basket and records the closes of the others. |
| Performance.CheckBaskets | app/lib/basket-performance.ts:105-140 | The filter's failures, prices and eligible baskets are the specified ones, and every basket without a recorded failure has all its prices. |
| Performance.FindCommonDates | app/lib/basket-performance.ts:142-144 | Filtering the first symbol's dates by the price maps of all symbols gives exactly the dates every eligible symbol has. |
| PerformanceFacts.ClosesAre | app/lib/basket-performance.ts:121-123 | The recorded close of a day is that of the last usable candle of the day, up to today. |
| PerformanceFacts.BasketFailureIs | app/lib/basket-performance.ts:106-139 | A basket fails for its weights before any symbol, and for its first failing symbol only: no dollar closes, only closes older than four days, or none within four days of the base. |
| PerformanceFacts.RecordedIsLast | app/lib/basket-performance.ts:103-139 | What is recorded under an id is the failure of the last failing basket of that id. |
| PerformanceFacts.CommonDatesAre | app/lib/basket-performance.ts:142-144 | The common dates are exactly the days on which every symbol of every sound basket is priced. |
| PerformanceFacts.BaseDateIs | app/lib/basket-performance.ts:145-147 | The base is the first common date of the five days from 1 September 2026 on. |
| PerformanceFacts.WindowStartIs | app/lib/basket-performance.ts:148-150 | The window starts at the latest common date that is not before the base and at least a week before the last one. |
| PerformanceFacts.SharedFailureIs | app/lib/basket-performance.ts:151-154 | The three shared failures, each with its exact condition on the common dates. |
| PerformanceFacts.ValueIsHolding | app/lib/basket-performance.ts:159-163 | The model values units that put each weight's percentage into its symbol at the base close and are never rebalanced. |
| PerformanceFacts.ItemsAreReported | app/lib/basket-performance.ts:156-172 | Every item is its recorded failure, the shared failure, or ready with the shared dates and a point for each common date from the base on. |
| PerformanceFacts.StatusIs | app/lib/basket-performance.ts:173-178 | The status follows from the items, and the shared dates are reported exactly when some item is ready. |
| Performance.CalculateBasketPerformance | app/lib/basket-performance.ts:99-180 | The response calculated from the filled price map is the specified one: every ready item's price is what its fixed units are worth at the last date, and its return their growth in percent over the window. |
| Performance.ReturnIsGrowth | app/lib/basket-performance.ts:164-169 | An item is ready exactly when both values are positive; one plus its return times the earlier value is the later one. |
| Performance.SharedDatesPass | app/lib/basket-performance.ts:143-154 | Dates that pass the calculator's shared check satisfy all date checks of the consumer. |
| Performance.ReadyIffShared | app/lib/basket-share-performance.ts:32-57 | For an id listed once, the consumer shares a model exactly when the calculator marked it ready, with the same numbers. |
| PerformanceFacts.SharedIff | app/lib/basket-share-performance.ts:32-57 | The consumer shares exactly the only item of an id, and exactly when it agrees with its response and its dates are recent and a week apart within four days. |
| Performance.ValueAtBaseIsWeight | app/lib/basket-performance.ts:159-163 | The value at the base date is the weight sum in percent. |
| Performance.BaseValueIsExact | app/lib/basket-performance.ts:159-171 | Every ready basket is worth exactly 100 at the base date, and every series point is the modelled value. |
| Performance.ScaleInvariance | app/lib/basket-performance.ts:99-180 | Multiplying all closes of one symbol by a positive constant changes nothing in the response. |
| FetchHistory.PacedStep | scripts/devnet-owner-lifecycle-proof.ts:508-514 | A transport that is spaced, in time and new or the retry of a throttled read keeps the log paced, in order and bounded. |
| FetchHistory.AtMostOnce | scripts/devnet-owner-lifecycle-proof.ts:507-534 | No request named sendTransaction is transported twice, no request more than three times, and everything between two transports of a request is a throttled try of it. |
| FetchHistory.RateLimit | scripts/devnet-owner-lifecycle-proof.ts:509-513 | Any run of consecutive transports is spread over half a second each. |
| FetchHistory.Spread | scripts/devnet-owner-lifecycle-proof.ts:508-514 | Transports follow the order of arrival and start at least half a second apart. |
| BoundedFetch.Fetcher.Fetch | scripts/devnet-owner-lifecycle-proof.ts:501-505 | A request is queued, under its own RPC name, exactly for the fixed endpoint, POST and an allowed RPC method. |
| BoundedFetch.RetryableIff | scripts/devnet-owner-lifecycle-proof.ts:515-523 | A retry in the request's own terms: HTTP 429 to anything but sendTransaction, on the first or second try, with a delay of at most fifteen seconds, five by default, that ends before the deadline. |
| BoundedFetch.Fetcher.Admit | scripts/devnet-owner-lifecycle-proof.ts:509-512 | A physical request is admitted only within count and deadline and half a second after the last one, and refused only when count or time are used up. |
| BoundedFetch.Fetcher.Retry | scripts/devnet-owner-lifecycle-proof.ts:515-523 | Another attempt follows exactly a 429 of a read, at most twice, with a well-formed delay of at most 15 seconds that leaves time, and not before that delay. |
| BoundedFetch.Fetcher.Perform | scripts/devnet-owner-lifecycle-proof.ts:507-534 | One queued request adds only its own transports, all but the last throttled; it is answered exactly when the last one succeeded in full, and refused only when count or time are used up or after a reply that is not to be retried. |
| BoundedFetch.Fetcher.Drain | scripts/devnet-owner-lifecycle-proof.ts:535 | Requests are performed one at a time in order of arrival, whatever arrives while they wait: as many as wait are served up to the limit, refused ones included, and answered exactly when a transport succeeded in full. |
| BoundedFetch.Fetcher.NeverRebroadcast | scripts/devnet-owner-lifecycle-proof.ts:507-534 | Whatever was queued and whatever came back, a sendTransaction is transported at most once. |
| BoundedFetch.Fetcher.WithinBudget | scripts/devnet-owner-lifecycle-proof.ts:498-513 | Everything transported started before the deadline, is one of at most 600 and calls an allowed method. |

## Left out

- Solana RPC encoding, message compilation, signing, address derivation, hashing and account byte layouts, except the five-byte fee remainder.
- The Rust programs, beyond the conditions and effects of the four setup steps and the remainder encoding; managed baskets beyond their amount parser and printer.
- User interface, routes, metadata, drawing, analytics, wallet adapters, Yahoo and Jupiter fetching and time zones.
- FeeMath.DecodeFeeCheckpoint: the eight discriminator bytes are a parameter, as hashing is not modelled.
- FeeMath.PathIndependent: does not model the empty list of accruals, for which nothing is charged and nothing is checked.
- BasketMath.MintQuoteFacts: 64-bit overflow is not modelled; amounts are unbounded as in the source's BigInt arithmetic.
- Lifecycle.RunKeeps: account hashes are not modelled, and a management step given an economic input cannot be written down.
- Bootstrap.PrivateRun.Execute: a submission is polled at most 46 times, reads carry no minimum slot, manifest, proof and authority hashes are one identity, account sizes are not modelled, the wire hash and block height of a receipt are omitted, and removing the lock of a crashed run is left to an operator.
- ReceiptLedger.SoundPublishable: does not model the label, key, hash and size checks of a published journal.
- Submission.LifecycleRun.SubmitOnce: submissions do not overlap, as the executor awaits each one; key, message and packet checks are one arbitrary refusal.
- OwnerSetup.SetupRounds: wallet review, signing and simulation between rounds are taken to succeed; their refusals end the rounds without effect.
- Reconcile.Session.Broadcast: the 40 seconds of polling are a list of polls of any length, package and signature checks before the broadcast are omitted, and a transaction seen on a fork that is later abandoned is not modelled.
- RpcCache.RpcState.RunSchedule: the chain identity check is one arbitrary answer; its own cache, and the paced queue under it, which has the pacing of `BoundedFetch` without its limits, are omitted.
- AltScope.PreparationScope.RunSchedule: a preparation function that calls back into its scope before returning its promise is not modelled.
- SignAndSend.Sender.WithRetry: what makes an error transient is a flag of the error, not the message pattern.
- WordWrap.WrapImageText: text is a sequence of characters, and a measure that is not a number is not modelled; grid and stack layout are omitted.
- ShareLink.DecodeInvertsLink: the platform's numbers and its JSON and UTF-8 functions are parameters with the assumed properties, text lengths count characters and not UTF-16 units, and the asset catalogue, mint syntax and cover gallery are parameters whose legacy resolver answers with a gallery cover.
- Decimals.PrintersAgreeIff: raw amounts given to the general printer as text, and the shortest-text algorithm of numbers, are not modelled.
- Performance.ReadyIffShared: rounding to fixed digits and infinite values are not modelled, today is the market date of the fetch, and finding the sample of a basket is omitted.
- BoundedFetch.Fetcher.Perform: sizes of response bodies and the per-request timeout are part of an arbitrary reply, delays are whole milliseconds, and timers do not fire early.
- The estimate of the accrued supply and the percentage, category and avatar helpers would only add easy members.
