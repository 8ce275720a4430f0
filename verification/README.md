# NimHunt payment system: a Dafny model

NimHunt hands out rewards at map locations ("Spots"). Creators deposit funds, hunters make claims,
and background workers pay claims, refund what is left, or sweep a banned Spot. Everything that
matters is decided in short immediate SQLite transactions, between which HTTP requests, workers,
crashes and chain results interleave freely.

Each protocol is modelled twice and the two are tied together. A *state machine* gives the tables as
a value and one event per transaction (or per answer from the chain, the clock or a worker); a run is
any sequence of events, so every interleaving is covered, and a request or worker that crashes simply
has no further events. A *class* holds the same tables as fields and carries out each transaction in
place, statement by statement and with the source's loops; its methods ensure
`State() == Next(old(State()), event)`. The theorems are proved about runs, by an invariant that every
event keeps. Beside them, the `...Exactly` lemmas and the modules `SpotOutcomes`, `ThrottleClock`,
`PrizedrawOutcomes` and `AuthorizationApproval` say when each main step happens, in both directions and
written out over the rows, claims, times and events themselves and not in terms of the model's guards.

`dafny verify dfyconfig.toml` checks the project (Dafny 4.11).

## Modules

| files | subject |
|---|---|
| `Sums`, `Tables`, `Options`, `Ordering` | sums over rows and sets, TRANSACTION rows, optional values, id lists |
| `SpotLedger`, `SpotTotals`, `SpotSolvency`, `SpotPreservation`, `SpotExactness`, `SpotTheorems`, `SpotOutcomes`, `SpotStore` | money of one Standard Spot, from draft to refund or ban sweep |
| `SpotTruncation`, `SpotFunding`, `SpotRace`, `SpotBlindRefund` | what the row limit of the queries does, and two runs that go wrong |
| `PayoutThrottle`, `ThrottleSafety`, `ThrottleRuns`, `ThrottleTheorems`, `ThrottleClock`, `ThrottleReview`, `ThrottleLate`, `ThrottleStore` | the payout budgets, their reservation ledger and the review mark |
| `Prizedraw`, `PrizedrawRuns`, `PrizedrawOutcomes`, `PrizedrawStore` | the draw, its split and its retried payouts |
| `ClaimCodes`, `ClaimCodeStore` | one-time codes and the capacity they share |
| `Authorization`, `AuthorizationApproval`, `AuthorizationStore` | one-time claim authorizations under concurrent requests |
| `CancellationLease`, `CancellationStore` | the crash-safe lease around cancellation sends |
| `RateLimiter`, `CleanupCursor`, `DraftAdmission` | rolling windows, rotating maintenance, draft admission |
| `Geohash`, `Utf8`, `TravelCooldown`, `Caches` | algorithms with a specification of their own |

## What the proofs found

* **A remainder refund can be inserted after a ban sweep.** The Spot's status is checked in
  `trans_updater.py:2273-2277`, in an earlier transaction than the one that inserts the row
  (`db_access.py:3860-3889`), and the insertion does not look again. `SpotRace.RaceOvercommits` gives,
  for every draft and every creation fee, a run in which the same Luna is committed twice;
  `SpotTheorems.RemainderInsertExact` says that an insertion keeps the Spot solvent if and only if no
  sweep is active. Without that one step every run, of any length, is solvent
  (`SpotTheorems.EveryRunIsSolvent`).
* **A remainder can be lost behind the row limit.** The settlement and ban passes read the newest 500
  rows only (`db_access.py:78`), and every failed payout attempt adds a row. What they compute is never
  too much (`SpotTruncation.TruncationIsSafe`), and it is right if and only if no confirmed deposit is
  older than those rows or there is nothing left (`TruncatedRemainderExact`, `TruncatedSweepExact`).
  `SpotBlindRefund.RemainderIsLost` is a run of 501 rows, from any draft, that ends with the Spot marked
  settled and a whole reward never refunded.
* **Admitting an open Standard claim holds it.** The Spot decisions of the payout throttle carry the
  review mark even when they allow (`ThrottleReview.AdmissionMarksReview`), and the sender then rechecks
  that mark. Over whole runs a claim that went through the throttle gets no payout row before it is
  released by hand (`ThrottleReview.PaidOnlyWhenReleased`), so the automatic share is never paid out.
* **A payout row inserted after its reservation has expired** can overfill a window:
  `ThrottleLate.LateRowOverfills` is such a run, under the default settings (`DefaultsAreRoomy`) among others.
  `ThrottleRuns.LateInsertExact` says for each budget when a row keeps it. Only the lifetime share needs
  no punctual sender (`ThrottleTheorems.LifetimeShareHolds`): there a reservation of any age still counts.
  A row can even come without a reservation: when the security check in front of the throttle refuses, the
  call goes on to the sender behind it (`claim_payout_throttle.py:717-727`), whose own check may by then allow.
* **A capacity refusal after a code was consumed cannot happen.** On a published password Spot free
  codes and free places are equally many, so the release branch of the code policy is dead:
  `ClaimCodes.FirstPromotionWins` decides a promotion by the code alone.
* **The cancellation lease rests on a lock that lives in one process.** Two processes on one database
  could replace a lease in use and start a second run: `CancellationLease.TwoLocksTwoRuns`.
* **Announced waiting times are a second too long.** The rate limiter admits, and the travel check allows,
  one second before the time they name (`RateLimiter.RetryIsExact`, `TravelCooldown.CooldownIsExact`).

Where code and comments disagree, the model follows the code: a comment in `db_access.py:2067-2070` says
that publishing does not wait for the creation fee, while the check installed in its place
(`funding_status.py:82-89`) requires the confirmed fee.

## Model

| member | source | states |
|---|---|---|
| SpotTheorems.EveryRunIsSolvent | settlement_updater.py:520-780 | in every run without the refund race, however many rows it has, through publishing, claims, payouts, retries, refund and ban: rewards, fee, refund and sweep not known to have failed never exceed the confirmed deposits |
| SpotTheorems.ConfirmedRefundConserves | settlement_updater.py:595-700 | when refunds and sweeps are computed with all confirmed deposits in view: once a remainder refund is confirmed, deposits equal confirmed rewards plus fee plus that refund, and nothing more is committed |
| SpotTheorems.ConfirmedSweepConserves | admin_moderation.py:176-341 | under the same condition: once a ban sweep is confirmed, deposits equal confirmed outgoing money and no second sweep can be inserted |
| SpotTheorems.RemainderNeverClamps | settlement_updater.py:675-685 | whenever a remainder is computed in view of all deposits the subtraction is exact, so the clamp at zero is not needed, and there is a funding wallet to send it to |
| SpotTheorems.RetriesKeepTheAmount | db_access.py:2812-2827 | any two outgoing rows of one type carry the same amount, however many attempts failed between them |
| SpotTheorems.BannedSpotGainsNoIntent | admin_moderation.py:431-449 | however a run goes on after a ban, the ban stays, old rows are at most decided, and every new row is a refund or a sweep |
| SpotTheorems.RemainderInsertExact | db_access.py:3860-3889 | inserting a remainder row keeps the Spot solvent if and only if no ban sweep is active |
| SpotTheorems.RunFunding | trans_updater.py:1562-1663 | in every run all confirmed deposits come from one sender |
| SpotTheorems.FundingWalletAgreed | db_access.py:1752-1774 | the queried funding address is the sender all deposits agree on |
| SpotRace.RaceOvercommits | trans_updater.py:2261-2294 | from every draft, whatever its fee, a run in which a delayed refund and a ban sweep commit the whole Spot value twice |
| SpotTruncation.TruncationIsSafe | settlement_updater.py:602-606 | in every run the remainder and the sweep amount computed from the newest 500 rows never exceed the true ones |
| SpotTruncation.TruncatedRemainderExact | settlement_updater.py:602-685 | in every run the computed remainder is the true one if and only if no confirmed deposit is older than the newest rows, or nothing is left |
| SpotTruncation.TruncatedSweepExact | admin_moderation.py:114-173 | the same for the amount of a ban sweep |
| SpotBlindRefund.RemainderIsLost | settlement_updater.py:595-730 | from every draft, a run of 501 rows that ends with the Spot completed and marked settled while a whole reward is never refunded |
| SpotSolvency.RewardsFitPool | settlement_updater.py:93-98 | capacity, one live payout per claim and the floor division together keep all live rewards within the pool |
| SpotPreservation.NextCore | database.py:1052-1098 | every transaction and chain result, outside the one race, keeps the invariant: unique indexes, claim and fee guards, the order of the rows, and solvency of every prefix of them |
| SpotExactness.NextExact | admin_moderation.py:114-173 | with all deposits in view, every transaction keeps each refund and sweep for exactly the rest, and never both alive |
| SpotOutcomes.CompletionExactly | settlement_updater.py:520-600 | a published Spot is completed if and only if a settlement pass finds it over: ended or full, nobody pending, every winner paid, nothing undecided in view, its fee confirmed; before that nothing is refunded or marked settled |
| SpotOutcomes.CompletedWasOver | settlement_updater.py:520-600 | in every run that ends with a completed Spot, some settlement pass found it published and over |
| SpotOutcomes.SettlementExactly | settlement_updater.py:595-730 | what a settlement pass leaves: nothing changed, or completed and either settled or with exactly the difference in view prepared for the wallet found |
| SpotOutcomes.RefundIsSent | trans_updater.py:2261-2294 | a prepared remainder, checked, inserted and confirmed, ends as a confirmed refund of that amount |
| SpotOutcomes.PublicationExactly | funding_status.py:82-89 | a draft is published if and only if it is complete, has a place, its value and fee are deposited, rewards reach the minimum and the fee row is confirmed |
| SpotOutcomes.EditExactly | db_access.py:1044-1145 | the value of a draft is free until a deposit is pending or confirmed |
| SpotOutcomes.DepositExactly | refund_address_safety.py:127-308 | a deposit is recorded if and only if the draft has nothing pending, something due, and the account is the remembered one; for at most what is due |
| SpotOutcomes.FeeExactly | funding_fee_worker.py:120-219 | a fee row appears if and only if value and fee are deposited and no attempt is alive |
| SpotOutcomes.ConfirmationExactly | trans_updater.py:1562-1663 | which chain details confirm a pending row; a deposit of another wallet fails and keeps its facts |
| SpotOutcomes.OpeningExactly | db_access.py:2074-2106 | an eligible claim is opened if and only if the published Spot has a place left |
| SpotOutcomes.PromotionExactly | db_access.py:2335-2441 | a pending claim wins if and only if a place is left, and the last place of a duration Spot ends all waiting |
| SpotOutcomes.RewardIsTheShare | settlement_updater.py:93-98 | in every run each reward row is for the value over the places, rounded down, and for at least 100 NIM |
| SpotOutcomes.WinnerCanBePaid | settlement_updater.py:101-161 | in every run a winner without a live attempt gets that share by the next attempt that goes through, however many have failed |
| SpotOutcomes.BanExactly | admin_moderation.py:344-415 | a ban fails exactly the claims without a live reward row and touches nothing else |
| SpotOutcomes.SweepExactly | admin_moderation.py:114-173 | a sweep is inserted if and only if the Spot is banned, nothing in view is undecided, no sweep is alive and the amount is the positive difference in view |
| SpotTotals.ConfirmedByIndex | settlement_updater.py:607-674 | a confirmed total is the sum of the amounts at the indices of the confirmed rows of that type |
| SpotTotals.OutgoingByIndex | admin_moderation.py:60-65 | and confirmed outgoing money that of all confirmed rows but deposits |
| SpotStore.Total | settlement_updater.py:607-674 | the loop's total is the sum of the rows of one type and status |
| SpotStore.OutgoingTotal | admin_moderation.py:60-65 | the loop's total is the confirmed outgoing money |
| SpotStore.FindConfirmedFee | db_access.py:1913-1946 | the search finds exactly a confirmed fee row of the fixed amount |
| SpotStore.Store.EditDraft | db_access.py:1044-1145 | changes value, places and duration of a draft exactly when the value is free to change |
| SpotStore.Store.RecordDeposit | refund_address_safety.py:127-308 | records a pending deposit, of at most what is due, exactly when the creator's remembered account and the other guards allow, with the whole new state |
| SpotStore.Store.SubmitCreationFee | funding_fee_worker.py:120-219 | inserts the fee once, when deposits cover value and fee |
| SpotStore.Store.Publish | funding_status.py:82-89 | publishes exactly when the Spot is complete, funded, its reward meets the minimum and its fee is confirmed |
| SpotStore.Store.ResolveClaim | db_access.py:2335-2441 | promotes within capacity, fails the claim at capacity, and closes a full duration Spot |
| SpotStore.Store.PreparePayout | settlement_updater.py:101-161 | the amount to send for one claim: nothing, the failed amount again, or the fixed reward |
| SpotStore.Store.InsertPayout | db_access.py:3892-3923 | inserts a payout row exactly when the Spot is not banned and the claim has none alive |
| SpotStore.Store.MarkConfirmed | trans_updater.py:1562-1663 | confirms a pending row under the verified details, once |
| SpotStore.Store.MarkFailed | trans_updater.py:1666-1699 | fails a pending row, once |
| SpotStore.Store.ReadyToSettle | settlement_updater.py:520-600 | the completion checks, in the source's order |
| SpotStore.Store.PrepareRemainder | settlement_updater.py:595-730 | completes the Spot and names the remainder to send, or nothing |
| SpotStore.Store.CheckRemainder | trans_updater.py:2261-2294 | the status check before a remainder is sent |
| SpotStore.Store.InsertRemainder | db_access.py:3860-3889 | inserts the refund row when none is alive, without looking at the Spot |
| SpotStore.Store.Ban | admin_moderation.py:344-415 | bans the Spot and fails the claims without a committed payout |
| SpotStore.Store.InsertSweep | admin_moderation.py:114-173 | sweeps exactly deposits minus confirmed outgoing money, with nothing pending |
| ThrottleTheorems.BudgetHolds | claim_payout_throttle.py:409-699 | each of the four budgets holds in every run whose rows are inserted for claims that hold a place in that budget, whatever the other budgets do |
| ThrottleTheorems.GlobalWindowsHold | claim_payout_throttle.py:112-175 | in such runs the claims with a live payout or reservation in the short or the daily window stay within both the count and the amount limit |
| ThrottleTheorems.SpotWindowHolds | claim_payout_throttle.py:364-380 | so do an open Standard Spot's claims of the rolling Spot window; only manually released claims are exempt |
| ThrottleTheorems.LifetimeShareHolds | claim_payout_throttle.py:383-406 | in every run whose rows belong to claims with a reservation of any age, a release or no Spot budget, an open Standard Spot's automatic payouts stay for ever within its share of capacity and pool |
| ThrottleTheorems.OneReservationPerClaim | claim_payout_throttle.py:409-699 | in every run at all the ledger holds at most one reservation for a claim |
| ThrottleClock.ShortLimitHolds | claim_payout_throttle.py:159-176 | by the clock: in every run whose rows have a reservation younger than the short window, the claims with an unfailed payout or a reservation younger than it stay within its count and amount |
| ThrottleClock.DailyLimitHolds | claim_payout_throttle.py:129-148 | the same for the daily window |
| ThrottleClock.SpotLimitHolds | claim_payout_throttle.py:364-380 | the same for an open Standard Spot's window, manually released claims aside |
| ThrottleClock.ShareHolds | claim_payout_throttle.py:383-406 | with reservations of any age: an open Standard Spot's unreleased claims never pass the percentage of its places and of its pool |
| ThrottleClock.FirstRequestExactly | claim_payout_throttle.py:605-648 | a claim's first request is allowed if and only if its reward is small enough and has room in both windows and, where it applies, in the share and the Spot's window |
| ThrottleClock.LaterRequestExactly | claim_payout_throttle.py:517-581 | a later request is allowed if and only if the reward still has room beside the other claims in those windows |
| ThrottleClock.AnswerExactly | claim_payout_throttle.py:409-699 | a claim just paid is waved through; any other answer takes a place, renews run out stamps, or changes no entry |
| ThrottleClock.PruneExactly | claim_payout_throttle.py:212-274 | which entries pruning keeps, by rows, Spots and times |
| ThrottleClock.InsertionExactly | claim_security.py:1087-1195 | a row is inserted if and only if the claim has a reward, is not held back and has no unfailed row |
| ThrottleTheorems.RepeatIsFree | claim_payout_throttle.py:517-593 | repeating an allowed request is allowed again and changes nothing |
| ThrottleTheorems.RefusalTakesNothing | claim_payout_throttle.py:409-699 | a refusal only prunes; it takes, drops or refreshes no place |
| ThrottleReview.AdmissionMarksReview | claim_payout_throttle.py:649-676 | which admissions put the claim under manual review although they allow it |
| ThrottleReview.PaidOnlyWhenReleased | claim_security.py:1087-1195 | in every run whose rows belong to reserved or released claims, an open Standard claim with a security record has a payout row only after a manual release; in the public deployment, every one |
| ThrottleReview.ReleasedCanBePaid | claim_security.py:1072-1084 | after a release by hand the row of a claim without an unfailed one goes through, whatever was marked before |
| ThrottleRuns.LateInsertExact | claim_payout_throttle.py:702-750 | inserting a row keeps a budget, any of the four, if and only if the claim holds a place in it, is exempt from it, or still fits its count and amount |
| ThrottleRuns.LateKeepsLifetime | claim_payout_throttle.py:212-274 | a row of a claim with a reservation of any age changes nothing in the lifetime share |
| ThrottleLate.LateRowOverfills | claim_payout_throttle.py:702-750 | a run in which every request is admitted and one stalled sender puts a claim too many into the short window |
| ThrottleRuns.PruneKeepsLifetimeSlots | claim_payout_throttle.py:212-274 | pruning never reopens a lifetime place of an open Standard Spot |
| ThrottleSafety.CombinedIsHeld | claim_payout_throttle.py:320-361 | the merged count and amount are those of the distinct claims that hold a row or a reservation |
| ThrottleStore.CombinedWindowState | claim_payout_throttle.py:320-361 | the two loops compute the merged load, counting a claim with both a row and a reservation once |
| ThrottleStore.PruneReservations | claim_payout_throttle.py:212-274 | the loop keeps exactly the reservations that are live, unmaterialised or lifetime |
| ThrottleStore.CheckGlobal | claim_payout_throttle.py:112-175 | the decision over both global windows |
| ThrottleStore.CheckSpotWindow | claim_payout_throttle.py:364-380 | the decision over the rolling Spot window |
| ThrottleStore.Ledger.RefreshStamps | claim_payout_throttle.py:582-588 | restamps the claim's expired reservation in place |
| ThrottleStore.Ledger.ReservePayoutSlot | claim_payout_throttle.py:409-699 | the whole reservation transaction for any claim identifier and amount: error, or decision and new ledger |
| ThrottleStore.Ledger.Recheck | claim_payout_throttle.py:517-581 | the decision for a claim that has a reservation, without counting it |
| ThrottleStore.Ledger.Admit | claim_payout_throttle.py:605-648 | the decision for a claim that has none |
| PrizedrawRuns.WinnersAreStable | settlement_updater.py:249-331 | a draw is made at most once, and in every later state the winners rebuilt from claims and rows are the drawn ones |
| PrizedrawRuns.WinnersAreDrawn | db_access.py:2862-2891 | the rebuilt winner set is the drawn set |
| PrizedrawRuns.AttemptsCarryTheShare | settlement_updater.py:334-432 | every payout attempt of any age and outcome goes to a drawn winner for that winner's one share |
| PrizedrawRuns.PayoutsFitPool | settlement_updater.py:334-432 | live payouts never exceed the prize pool |
| PrizedrawRuns.FinishedPaysThePool | settlement_updater.py:334-432 | once no winner waits, exactly the pool has been paid and confirmed |
| PrizedrawRuns.DrawSize | db_access.py:2830-2859 | as many winners as prizes, or as entrants when those are fewer |
| PrizedrawOutcomes.DrawNeedsTheEnd | settlement_updater.py:225-285 | a step that completes a published Prizedraw is a settlement after the end of the period or with every place taken |
| PrizedrawOutcomes.CompletedWasOver | settlement_updater.py:225-285 | in every run that ends with a completed Prizedraw, some settlement found it published and over |
| PrizedrawOutcomes.SettlementExactly | settlement_updater.py:249-331 | over, it draws: pending entries fail, the sample is set aside for payment, other successes stay; otherwise nothing changes |
| PrizedrawOutcomes.EntryExactly | db_access.py:2074-2106 | an entry is accepted if and only if it is new, the draw has not been held and a place is free |
| PrizedrawOutcomes.WinnerCanBePaid | settlement_updater.py:334-432 | in every run a waiting winner without a live attempt gets its share by the next attempt that goes through, and then waits no more |
| PrizedrawOutcomes.RetryExactly | settlement_updater.py:367-405 | a retry prepares exactly the shares of the waiting winners that have no live attempt |
| PrizedrawOutcomes.OnlyDrawnWait | settlement_updater.py:334-432 | in every run after the draw, only drawn claims wait |
| Prizedraw.AllocationOf | settlement_updater.py:79-90 | the amount of an id depends on the winner set only: the floor share, plus the remainder for the smallest id |
| Prizedraw.SplitIsExact | settlement_updater.py:55-76 | the allocations of any non-empty winner set add up to the pool |
| Prizedraw.SplitIsEven | settlement_updater.py:55-76 | two allocations differ by less than the number of winners |
| PrizedrawStore.AmountList | settlement_updater.py:55-76 | the adjusted list is the specified split |
| PrizedrawStore.AmountsByClaim | settlement_updater.py:79-90 | duplicate and non-positive ids are dropped and the rest paired in ascending order |
| PrizedrawStore.Store.Settle | settlement_updater.py:249-331 | the terminal decision: entries failed, winners marked, Spot completed, or nothing |
| PrizedrawStore.Store.PrepareRetries | settlement_updater.py:367-405 | the loop over pending winners: who is already paid, and what is sent to whom |
| PrizedrawStore.Store.RetryPendingPayouts | settlement_updater.py:334-432 | the retry transaction and the exact set of sends it prepares |
| PrizedrawStore.Store.InsertPayout | db_access.py:3892-3923 | one live payout per claim |
| ClaimCodes.CodesMatchCapacity | claim_code_policy.py:90-162 | successes never exceed the maximum, and unused codes equal the rewards left |
| ClaimCodes.OwnersAreWinners | claim_code_policy.py:90-162 | a code is used by c if and only if c succeeded with it, and attempt rows are exactly the pending claims |
| ClaimCodes.NobodyWaitsWhenFull | db_access.py:2643-2752 | at full capacity no claim is pending |
| ClaimCodes.FirstPromotionWins | claim_code_policy.py:107-162 | a pending claim succeeds if and only if its code is free, and fails if and only if it is gone |
| ClaimCodes.FreeCodeOpens | claim_code_policy.py:165-260 | in every run a permitted new claim with a free code is opened, and without a waiting period wins the code at once |
| ClaimCodes.OnlyFreeCodesOpen | claim_code_policy.py:165-260 | without permission, a new identifier or a free code nothing is opened |
| ClaimCodes.OwnersAreForever | claim_code_policy.py:62-71 | a consumed code keeps its owner in every later state |
| ClaimCodes.UsedAreSuccesses | database.py:886-936 | used codes and successful claims correspond one to one |
| ClaimCodeStore.Store.EnsureCodes | db_access.py:3612-3657 | leaves exactly the target number of codes, keeps every used one, and refuses when too many are used |
| ClaimCodeStore.Store.CloseIfFull | db_access.py:2643-2752 | fails every pending claim of a full duration Spot |
| ClaimCodeStore.Store.PromoteIfCapacity | db_access.py:2335-2441 | the capacity gate, with its clean-up |
| ClaimCodeStore.Store.Promote | claim_code_policy.py:90-162 | consume, promote and release as one step |
| ClaimCodeStore.Store.CreateAttempt | claim_code_policy.py:165-260 | opens a claim, or leaves no trace |
| AuthorizationRuns.OneVerification | claim_security.py:1372-1400 | each challenge lets at most one request reach signature verification, and only before it expires |
| AuthorizationRuns.OneClaim | claim_security.py:1297-1481 | each challenge lets at most one request reach the claim endpoint: one that was verified, with the issued Spot, device, location and wallet |
| AuthorizationApproval.SignatureWasValid | claim_security.py:1397-1485 | in every run, before a request reached the claim endpoint the wallet its challenge was issued to had validly signed for it with the account checks passed, and later the location checks passed |
| AuthorizationApproval.RefusedSignatureIsFinal | claim_security.py:1397-1421 | an invalid signature, one of another wallet than the challenge's or the session's, or a refused account never leads that request to the endpoint |
| AuthorizationApproval.BlockedIsFinal | claim_security.py:1484-1503 | nor does a request that the location checks block |
| AuthorizationApproval.HonestRequestArrives | claim_security.py:1297-1485 | a fresh challenge brought back within 90 seconds with the same claim and the session wallet's signature reaches the endpoint |
| AuthorizationApproval.CleanupExactly | claim_security.py:204-236 | a cleanup pass deletes exactly the expired records it looks at, claimed ones five minutes later |
| AuthorizationRuns.SpentForever | claim_security.py:245-251 | a claimed or deleted challenge is refused for ever |
| AuthorizationCleanup.CleanupOnlyRefuses | claim_security.py:204-236 | whatever is reached in a run with cleanup passes is reached in the same run without them |
| AuthorizationCleanup.CleanupOfExpiredIsInvisible | claim_security_maintenance.py:53-63 | deleting expired authorizations nobody claimed changes no decision, then or later |
| AuthorizationStore.Store.CleanupBatch | claim_security.py:204-236 | deletes exactly the removable rows of one batch |
| AuthorizationStore.Store.Prepare | claim_security.py:671-705 | issues one record under a fresh identifier |
| AuthorizationStore.Store.BeginVerify | claim_security.py:1372-1400 | claims the one permitted verification, or ends the request |
| AuthorizationStore.Store.BeginProcessing | claim_security.py:1467-1481 | takes a verified record on, unless it is gone |
| AuthorizationStore.Store.Retire | claim_security.py:245-251 | removes the attempted record |
| CancellationLease.DoubtIsLast | cancellation_safety.py:257-368 | under a shared lock at most one run is under way or in doubt, and it is the last that began |
| CancellationLease.DoubtIsFinal | cancellation_safety.py:257-368 | after a crash, an unexpected exception or an ambiguous send, no run ever begins again |
| CancellationLease.OneFeeAndAddress | cancellation_safety.py:89-135 | all runs not rolled back used one fee and one address |
| CancellationLease.TwoLocksTwoRuns | cancellation_safety.py:31-39 | without a shared lock there is a run in which two workflows are under way |
| CancellationLease.RetryableIsAlone | cancellation_safety.py:203-225 | the refund chosen for a retry is the only failed leg, and no refund stands beside it |
| CancellationLease.RetryableExactly | cancellation_safety.py:203-225 | a refund may be retried if and only if, among any other rows, it is the only refund, has failed, and no fee has failed |
| CancellationLease.FailedLegsExactly | cancellation_safety.py:185-200 | failed legs are found if and only if a refund or a fee has failed |
| CancellationStore.SubmissionExactly | cancellation_safety.py:257-368 | by the rows: a submission runs exactly when the guard is free or reports failed legs whose retry is proven, under the stored or a valid new policy; unproven failed legs block the Spot |
| CancellationStore.FirstHalfOutcome | cancellation_safety.py:270-311 | what the checks before sending leave of guard and call, for every prior state |
| CancellationStore.SecondHalfOutcome | cancellation_safety.py:313-368 | guard, policy and history after each of the four ways the workflow comes back |
| CancellationStore.Store.AcquireGuard | cancellation_safety.py:146-159 | the guard row is taken exactly when there is none |
| CancellationStore.Store.SnapshotPolicy | cancellation_safety.py:89-135 | an existing policy wins; a new one is clamped and stored; an invalid one leaves nothing |
| CancellationStore.Store.GuardedSubmit | cancellation_safety.py:257-368 | one whole submission is the run of its commits |
| RateLimiter.NoOverfullWindow | security_metadata.py:72-104 | while the clock never runs backwards, admissions within one half-open window number at most the limit |
| RateLimiter.OnlyAdmissionsMatter | security_metadata.py:96-99 | two histories with the same admissions decide the next call alike: refusals never extend a lockout |
| RateLimiter.PruningIsInvisible | claim_security_maintenance.py:78-97 | interleaved maintenance changes no admission |
| RateLimiter.AdmissionExactly | security_metadata.py:72-104 | in every run a call is admitted if and only if fewer than the limit of all admissions are younger than the window |
| RateLimiter.RetryIsExact | security_metadata.py:96-99 | after a refusal, with no admission since, a call succeeds if and only if it comes no earlier than one second before the announced time |
| RateLimiter.Row.Admit | security_metadata.py:72-104 | decision, retry time and stored list |
| RateLimiter.Row.PruneRow | claim_security_maintenance.py:78-97 | the stored list after maintenance |
| CleanupCursor.EveryRowIsReached | claim_security_maintenance.py:135-216 | from any cursor, with deletions only, each of n rows that stays is inspected within ceil(n / limit) + 1 passes |
| CleanupCursor.ExpiredRowsGo | claim_security_maintenance.py:46-100 | a row expired for good is gone after that many passes |
| CleanupCursor.EndedRowsGo | claim_security_maintenance.py:46-100 | by the clock: every row that has ended is gone after that many later passes |
| CleanupCursor.InspectionExactly | claim_security_maintenance.py:46-100 | an inspected row goes if and only if it has ended; a rate bucket loses exactly its stamps of ten minutes and more |
| CleanupCursor.ExpiryIsForGood | claim_security_maintenance.py:53-76 | an expired session, challenge or authorization stays deletable |
| CleanupCursor.PassesHideNothing | claim_security_maintenance.py:46-76 | any number of passes leaves unchanged what a request finds under a key, then and later |
| CleanupCursor.TurnsIsCeiling | claim_security_maintenance.py:135-145 | the bound is the ceiling of n / limit |
| CleanupCursor.CursorMoves | claim_security_maintenance.py:158-175 | each pass inspects a given row or brings its turn one pass closer |
| CleanupCursor.Store.CleanupPass | claim_security_maintenance.py:135-216 | rows, cursor and counters after one pass, wrapping included |
| DraftAdmission.HourlyBudgetHolds | db_access.py:565-603 | consumed, unfunded reservations of any rolling hour stay within the global and the per-user limit |
| DraftAdmission.AdmissionExactly | db_access.py:565-603 | a draft is admitted if and only if fewer than 200 admissions count, fewer than ten of them the user's |
| DraftAdmission.ConsumptionExactly | db_access.py:606-616 | a reservation is consumed exactly by its own user, and once |
| DraftAdmission.KeysAscend | db_access.py:541-562 | key indexes are handed out strictly ascending, also after rows were deleted |
| DraftAdmission.ConsumedOnce | db_access.py:606-616 | a reservation is consumed at most once |
| DraftAdmission.Store.ReserveDraft | funding_fee_worker.py:66-73 | release of funded admissions, pruning, limits and insertion as one step |
| DraftAdmission.Store.ConsumeDraft | db_access.py:606-616 | consumes exactly a pending reservation of that user |
| Geohash.EncodesToItsCell | db_access.py:454-504 | a point encodes to a hash if and only if it lies in the hash's cell |
| Geohash.CornerRoundTrips | db_access.py:454-504 | the lower corner of any hash's cell encodes to that hash |
| Geohash.ShorterIsPrefix | db_access.py:457-460 | the encoding at n is a prefix of the encoding at m >= n |
| Geohash.SharedPrefixIsSharedCell | db_access.py:457-460 | two points share n characters if and only if they lie in the same cell |
| Geohash.CellSize | db_access.py:473-502 | the cell's sides are 360 and 180 degrees halved once for each of their bits |
| Geohash.LonBitsAreHalf | db_access.py:473-502 | those are ceil(5n/2) and floor(5n/2) bits |
| Geohash.Encode | db_access.py:454-504 | the loop returns the specified hash, or an error exactly off the map or for a non-positive precision |
| Utf8.NeverTooLong | transaction_descriptions.py:14-39 | the truncated text never exceeds the byte budget |
| Utf8.KeepsTheLongestPrefix | transaction_descriptions.py:31-39 | a longer text keeps the longest whole-character prefix that leaves room for the dots, stripped at its end |
| Utf8.TruncateUtf8 | transaction_descriptions.py:14-39 | the loop returns the specified text after dropping at most three bytes |
| Utf8.DecodeCut | transaction_descriptions.py:32-38 | a byte prefix decodes if and only if it ends between two characters, and then to the characters before it |
| Utf8.DecodeEncode | transaction_descriptions.py:21-38 | strict decoding undoes encoding |
| TravelCooldown.CooldownIsExact | claim_location_guard.py:254-294 | with the same anchors a later check is allowed if and only if it comes no earlier than one second before the announced time |
| TravelCooldown.JumpsExactly | claim_location_guard.py:195-251 | a jump is soft, or hard, by the ground between the two areas and the seconds between the two checks |
| TravelCooldown.SoftEnds | claim_location_guard.py:195-251 | the last second of a soft violation is two before its retry time |
| TravelCooldown.BanDoesNotGrow | claim_location_guard.py:226-235 | waiting never turns a cooldown into a ban |
| TravelCooldown.Decide | claim_location_guard.py:254-294 | the loop bans for the fastest hard jump, or else names the longest soft cooldown |
| Caches.TimerIsExact | cache.py:977-993 | the cached lists equal a rebuild at t, with nothing expired, if and only if the next transition has not come |
| Caches.TimerByTheClock | cache.py:977-993 | until the timer rings no Spot starts and none ends, and when it rings one does |
| Caches.ListsByTheClock | cache.py:262-267 | current Spots have no start or have started, upcoming ones have not |
| Caches.ListsPartition | cache.py:262-267 | every cached Spot is in exactly one of the current and upcoming lists |
| Caches.Rebuild | cache.py:250-287 | the loops compute both lists and the earliest future transition |
| Caches.RefreshingIsRebuilding | cache.py:1185-1220 | once every written id was refreshed, the targeted snapshot equals a full rebuild in rows, order and hash index |
| Caches.BuildPending | cache.py:823-847 | from any order of the dictionary the loop sorts the rows and indexes every hash |
| Caches.RebuildPending | cache.py:850-857 | every table has such a snapshot of its pending rows |
| Caches.SortedOnce | cache.py:828-834 | sorting by key and id has one result |

## Left out

- Creator cancellation arithmetic (`trans_updater.py:2322-2647`): only its lease is modelled, so the money theorems are about Spots that are not being cancelled.
- Prizedraw deposits, fee rows and bans: `Prizedraw` models the draw and its payouts, `SpotLedger` the money of Standard Spots.
- Several Spots in one database: every money query filters by Spot, so one Spot is modelled; the throttle has many.
- Location heartbeats on completed Prizedraw winners (`db_access.py:3337-3420`), which can move a pending winner: not an event of `Prizedraw`.
- Prizedraw.SplitIsExact: does not say that the entrants the draw reads are all of them; past 500 the query returns only part.
- SpotTheorems.EveryRunIsSolvent: does not cover a refund row inserted beside an active sweep, for which it is false (`SpotRace.RaceOvercommits`).
- SpotTheorems.ConfirmedRefundConserves: is about runs whose refunds and sweeps were computed with every confirmed deposit among the newest 500 rows; in others the amount can be too small (`SpotBlindRefund.RemainderIsLost`), when exactly `SpotTruncation.TruncatedRemainderExact` says.
- SpotTheorems.ConfirmedSweepConserves: is about the same runs.
- SpotStore.Store.RecordDeposit: does not model a replay of a hash that is already recorded, which changes no row, or address formats.
- SpotStore.Store.Publish: the completeness, date, password and account checks are one boolean parameter.
- SpotStore.Store.MarkConfirmed: does not model a call without verified chain details, which no caller makes, or the last step of a cancellation.
- ThrottleStore.PruneReservations: does not model the cleaning of malformed entries or the Spot of entries written by an earlier release.
- ThrottleReview.PaidOnlyWhenReleased: the waiting time and the wallet comparison of the security check are left out; they only hold more payouts back.
- ThrottleTheorems.GlobalWindowsHold: assumes one fixed reward per claim, and rows in time; it is false for late rows (`ThrottleLate.LateRowOverfills`), exactly as `ThrottleRuns.LateInsertExact` says.
- ThrottleTheorems.SpotWindowHolds: makes the same assumptions, as do `ThrottleClock.ShortLimitHolds`, `ThrottleClock.DailyLimitHolds` and `ThrottleClock.SpotLimitHolds`.
- ThrottleClock.InsertionExactly: leaves out the same two parts of the security check.
- RateLimiter.PruningIsInvisible: holds for the windows the maintenance pass knows, which are no longer than the one it prunes by.
- The clock, randomness, signatures, the network and chain answers: parameters of events; identifiers drawn at random are taken to be fresh.
- Banning a password Spot, which fails unpaid successes without releasing their codes: the `ClaimCodes` theorems are about a published Spot.
- Address formats, titles, account checks and the completeness of a draft: single boolean parameters.
- The retry times of refusals in the payout throttle, and what a decision reports beside its reason.
- PrizedrawStore.Store.Settle: does not model how the winners are drawn; any sample of the right size may be passed.
- A rate limit of zero, for which `admit_timestamp` fails on an empty list, and stored stamps that are not integers.
- Geohash.Encode: does not model floating point rounding of coordinates and midpoints, because coordinates are real numbers here.
- TravelCooldown.Decide: does not model the great-circle formula; the distance of each anchor is given.
- The stored suspicion record that turns a second jump during a cooldown into a ban (`claim_location_guard.py:295-386`).
- Utf8.TruncateUtf8: does not fix which characters count as white space, and lone surrogates, which cannot be encoded, do not occur.
- Targeted refreshes of single Spots (`cache.py:1069-1106`) and overlapping refreshes of one snapshot.
- The key allocation that skips over taken deposit addresses (`db_access.py:619-638`): `DraftAdmission` models the counter it draws from.
- Web routes, templates, administration pages, Sybil scoring and profanity filters: input, output and policy.
