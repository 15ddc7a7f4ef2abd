# Staking vault: verified models

This project models the parts of a Soroban staking vault that keep numeric state across
ledgers and make a promise about every run: balance checkpoints and time-weighted averages,
the lockdrop campaign, the share price, withdrawal and reward limits, vesting, fee notice,
season rankings, rate halving, batched votes and burn milestones.

`dafny verify dfyconfig.toml` checks everything.

## How to read it

One module per component. `Numeric` holds the fixed-width integers (`u32`, `i128`, `u128`)
with the saturating, checked and truncating operations of the contract; `MapSums` sums the
values of a map; `RollingWindow` is the spending window that the withdrawal limit and the
reward cap have in common.

Inside a module:

- transition functions say what an entrypoint does to the state, error by error; an error
  leaves the state as it was;
- a class holds the stored fields, and its methods carry out the entrypoints step by step and
  are proved against those transitions;
- lemmas about transitions and about whole runs say what the component promises.

A token transfer is a change of what the contract holds. Ledger numbers are parameters.
The ledgers of a run never go back.

| component | module | main results |
|---|---|---|
| history of balances | `BalanceCheckpoints` | `TwabOfAnyRun`, `BalanceOfAnyRun`, `PastTwabNeverChanges` |
| user and total shares together | `ShareLedger` | `BalancesMakeTotal`, `TwabsMakeTotal` |
| lockdrop | `LockdropCampaign` | `SolventExactlyWhen`, `AllocatedWithinPool`, `ShortfallBelowCommitters`, `SplitIsProportional`, `TwiceTheLock` |
| share price | `SharePool` | `NobodyProfits`, `PiecesPayNoMore`, `AnyRedemptionOrder`, `FirstDepositorGetsAllBack` |
| square root and interval | `CompoundOptimizer` | `Isqrt`, `ComputeOptimalInterval` |
| withdrawal limit | `DailyWithdrawalLimit` | `AtMostTwicePerDay`, `TwiceInTwoLedgers`, `RollsExactlyWhen` |
| reward cap | `EpochRewardCap` | `AtMostTwiceTheCap`, `WithinCapExactlyWhen`, `NoCapBoundsPayouts`, `LossExactlyWhen`, `ClaimPaysAllItCan` |
| reward velocity | `DailyVelocityLimiter` | `DailyLimitHolds`, `Within24HoursExactlyWhen`, `LossExactlyWhen`, `LimitedPaysAllItCan` |
| claim vesting | `ClaimVesting` | `ClaimVestsLinearly`, `ReleasesCatchUp`, `NothingIsLost`, `VestedMonotone` |
| fee notice | `FeeChangeNotice` | `LazyRefinesEager`, `StoredFeeExactlyWhen`, `StoredRisesExactlyWhen` |
| season ranking | `CompetitiveSeason` | `StreamingIsStableTop`, `RankingBeats` |
| rate halving | `HalvingSchedule` | `Halving.HalvingAdjustedRate`, `ConstantUntilNext`, `ClassicHalving` |
| batched votes | `BatchVote` | `BatchIsOneByOne`, `TalliesAreAsked`, `AnsweredExactly` |
| burn milestones | `BurnMilestones` | `MilestonesFireOnce`, `NextIsLeastAbove` |

## Where the code and its documentation differ

The models follow the code.

- The lockdrop comments call claiming and exiting independent (src/lockdrop_campaign.rs:12-13).
  A claim needs a live commitment (src/lockdrop_campaign.rs:292-294), so they are independent
  exactly for different users (`ClaimAndExit`): a claim never affects an exit, but exiting first
  forfeits the reward until the user commits again (`ExitForfeits`, `ExitLosesAllocation`). The
  claimed flag also survives into later campaigns: a user can claim once ever (`OneClaimPerUser`).
- Twice the lock time is said to earn twice the allocation (src/lockdrop_campaign.rs:5-6).
  `TwiceTheScore` gives the exact condition on the floored remainder and on what saturation cuts
  off. Where nothing saturates the gap is at most one unit; where both products saturate, twice
  the score can earn nothing more at all (`TwiceTheScoreForNothing`). `TwiceTheLock` says it of two
  committers of one run.
- The pool split is not always covered. Once the total score is pinned at the top of `i128`,
  every committer whose product with the pool also saturates gets one unit, whatever the pool
  holds. `AllocatedWithinPool` gives the exact condition under which the allocations fit the
  pool, `SolventExactlyWhen` the one under which the contract stays solvent, and
  `SaturatedScoreOverAllocates` a five-call run that leaves it insolvent.
- The checkpoint comments say a window starting before the retained range is rejected
  (src/balance_checkpoints.rs:26-29). The code accepts it when the dropped part held no
  balance, and the answer is then exact (`TwabExact`).
- The withdrawal limit is described as a rolling day in which old withdrawals age out gradually
  (src/daily_withdrawal_limit.rs:17-24). The window restarts as a whole, so the true bound is
  twice the limit (`AtMostTwicePerDay`). Every positive limit lets exactly that much out within
  two ledgers (`TwiceInTwoLedgers`); a withdrawal of zero opens the window, which happens when a
  small unstake floors to zero tokens (src/vault.rs:981-986). `RollsExactlyWhen` says which runs
  keep the rolling day. With the limit at the top of `i128` the saturating total never exceeds it
  (`TopLimitNeverBinds`).
- The velocity limit is promised for any 24-hour window
  (src/daily_token_velocity_limiter.rs:3-5), and the code counts calendar days. Any 24 hours pay
  at most twice the limit (`AtMostTwicePer24Hours`), every limit lets that much out around
  midnight (`TwiceAroundMidnight`), and `Within24HoursExactlyWhen` says which runs keep the promise.
- A reward deferred by the epoch cap is later paid outside the cap. No cap and no epoch length
  bound what one ledger pays out (`NoCapBoundsPayouts`). `WithinCapExactlyWhen` says which runs
  keep all payouts within the cap; that each collection fits is not enough, since a later claim
  ignores what was collected (`FittingCollectionIsNotEnough`).
- In both limiters a claim can overflow the deferred bucket and lose rewards
  (`FullBucketLoses`). `LossExactlyWhen` says which runs lose none, in terms of the state before
  each claim.
- Every fee-reading entrypoint is said to settle a matured change first
  (src/fee_change_notice.rs:22-24, 108-111). None does: only a new proposal settles
  (src/fee_change_notice.rs:143), and readers take the stored fee (src/vault.rs:3063-3065, 6702).
  The stored fee therefore lags behind a matured change, where no enactment interfered exactly as
  `StoredFeeExactlyWhen` says, and it can rise to a value in the ledger that value is proposed
  (`StoredFeeJumps`).
- Not every fee setter goes through the notice period as src/fee_change_notice.rs:13-16 says:
  enacting a governance proposal writes the fee directly (src/vault.rs:9757-9764), without
  settling or clearing a pending change. `StoredRisesExactlyWhen` says exactly when all rises of
  the stored fee were still proposed, `EnactmentNeedsNoProposal` shows one that was not, and
  `LazyRefinesEager` says exactly when an enacted fee is not overridden by an older change that
  had matured unnoticed.
- `isqrt` aborts on the largest `u128`, where its first `x + 1` overflows.

## Model

| member | source | states |
|---|---|---|
| BalanceCheckpoints.Push | src/balance_checkpoints.rs:61-102 | the in-place edit (skip, overwrite, append, prune) yields the history after the write, and reports a change exactly when there is one |
| BalanceCheckpoints.RedundantWritesRecordNothing | src/balance_checkpoints.rs:21-29 | a write records nothing exactly when it repeats the balance that is read; any other overwrites its own ledger or adds one entry, up to a hundred |
| BalanceCheckpoints.PushKeepsFaith | src/balance_checkpoints.rs:61-102 | every write keeps the compacted, pruned history in agreement with the record of all writes: each kept stretch has the true balance and the true prefix sum, and a list that is not full has dropped nothing but zeros |
| BalanceCheckpoints.HistoryFaithful | src/balance_checkpoints.rs:21-29 | the same after any run of writes with balances below 2^95 |
| BalanceCheckpoints.Find | src/balance_checkpoints.rs:105-121 | binary search returns what a backward scan for the last entry at or before the ledger returns |
| BalanceCheckpoints.BalanceExact | src/balance_checkpoints.rs:123-125 | the balance read at a ledger is the true one, or zero exactly for ledgers before the oldest kept checkpoint |
| BalanceCheckpoints.CumulativeExact | src/balance_checkpoints.rs:127-135 | the prefix sum read at a ledger is the true sum of all earlier balances, or zero before the oldest kept checkpoint |
| BalanceCheckpoints.AreaFits | src/balance_checkpoints.rs:89-96 | below the balance bound no prefix sum leaves the integer range, so nothing saturates |
| BalanceCheckpoints.TwabExact | src/balance_checkpoints.rs:137-160 | on any faithful history a query answers the floor of the true average, and rejects a past window exactly when its start precedes the oldest checkpoint and the dropped history was not all zero |
| BalanceCheckpoints.TwabOfAnyRun | src/balance_checkpoints.rs:137-160 | the same after any run of writes and prunings; until the list is full no past window is rejected |
| BalanceCheckpoints.OldestOnlyAdvances | src/balance_checkpoints.rs:97-99 | later writes never bring an older checkpoint back, whatever the balances |
| BalanceCheckpoints.HistoryAscends | src/balance_checkpoints.rs:105-121 | after any run in ledger order, whatever the balances, the list is ascending, as the binary search needs |
| BalanceCheckpoints.BalanceOfAnyRun | src/balance_checkpoints.rs:123-125 | after any run in ledger order, whatever the balances, a balance reads as the last one written at or before the ledger, or zero before the oldest checkpoint |
| BalanceCheckpoints.ForgottenForever | src/balance_checkpoints.rs:137-160 | with balances below 2^95, a window whose dropped history was not all zero stays forgotten |
| BalanceCheckpoints.PastTwabNeverChanges | src/balance_checkpoints.rs:137-160 | whatever non-negative balances were and are written, saturated prefix sums included, the answer for a finished window stays the same or turns into the pruning error; a rejection stays that rejection |
| BalanceCheckpoints.PastBalanceNeverChanges | src/balance_checkpoints.rs:105-125 | a past balance, of any size, reads the same after later writes unless its ledger now precedes the oldest checkpoint, where it reads zero |
| ShareLedger.WritesAreLawful | src/balance.rs:58-80 | a run of mints and burns below 2^95 gives each user and the total a write record in ledger order within that bound |
| ShareLedger.BalancesMakeTotal | src/balance.rs:58-80 | at every ledger the users' recorded balances add up to the recorded total, however many half-updated states occurred inside the ledger |
| ShareLedger.AreasMakeTotal | src/balance_checkpoints.rs:184-199 | the users' prefix sums add up to the total's prefix sum |
| ShareLedger.TwabsMakeTotal | src/balance_checkpoints.rs:137-160 | with holdings and supply below 2^95, the answered averages of all k users of a window sum to at most the total average, short by less than k |
| ShareLedger.SomeTwabsBelowTotal | src/balance_checkpoints.rs:137-160 | with holdings and supply below 2^95, any k of the users together never exceed the total average |
| ShareLedger.ExtendLedger | src/balance.rs:58-80 | one mint or burn moves one holding, pushes onto exactly two histories and leaves all others |
| ShareLedger.ShareBook.SetShares | src/balance.rs:58-66 | stores a user's balance and checkpoint, touches no other user, and aborts without effect on a negative balance |
| ShareLedger.ShareBook.SetTotalShares | src/balance.rs:76-80 | the same for the total |
| ShareLedger.ShareBook.Record | src/balance.rs:58-80 | a mint or burn goes through exactly when both results are non-negative and fit, then keeps stored balances, total and all histories equal to those of the change record; otherwise nothing changes |
| LockdropCampaign.StartKeeps | src/lockdrop_campaign.rs:126-173 | starting a campaign keeps the invariant: what is held covers locks, unclaimed allocations and the undivided pool; live scores are at most the total score |
| LockdropCampaign.CommitKeeps | src/lockdrop_campaign.rs:178-238 | a commitment, repeated ones after an exit included, keeps the invariant |
| LockdropCampaign.FinalizeKeeps | src/lockdrop_campaign.rs:242-278 | a finalization whose split fits the pool keeps the invariant, stale allocations included |
| LockdropCampaign.FinalizeSolventExactly | src/lockdrop_campaign.rs:242-278 | a finalization leaves the contract solvent exactly when it was covered: the score is not pinned, or what is held covers the locks, the stale open claims and a unit for each top-heavy committer who can still claim |
| LockdropCampaign.ClaimKeeps | src/lockdrop_campaign.rs:282-317 | a claim keeps the invariant |
| LockdropCampaign.ExitKeeps | src/lockdrop_campaign.rs:321-346 | an exit, before or after finalization, keeps the invariant |
| LockdropCampaign.SolventExactlyWhen | src/lockdrop_campaign.rs:126-346 | over any sequence of campaigns, tokens held cover every lock, every unclaimed allocation and the undivided pool after each call, if and only if every finalization that went through was covered |
| LockdropCampaign.AlwaysSolvent | src/lockdrop_campaign.rs:126-346 | a run whose finalizations were covered ends with the full invariant |
| LockdropCampaign.SafeRunIsCovered | src/lockdrop_campaign.rs:254-268 | a run whose splits all fit their pools is covered |
| LockdropCampaign.PaymentsAreCovered | src/lockdrop_campaign.rs:282-346 | after any covered run every accepted claim or exit can be paid from what is held |
| LockdropCampaign.AllocatedWithinPool | src/lockdrop_campaign.rs:254-268 | the allocations of distinct users sum to at most the pool exactly when the total score is below the top of the type or the pool has a unit for each committer whose product saturates |
| LockdropCampaign.LargePoolIsSafe | src/lockdrop_campaign.rs:254-268 | a pool of at least one unit per listed committer is always safe to finalize |
| LockdropCampaign.ShortfallBelowCommitters | src/lockdrop_campaign.rs:254-268 | when everyone committed once, nobody left, and neither the total score nor any committer's product saturated, less than one unit per committer stays unallocated |
| LockdropCampaign.SaturatedScoreOverAllocates | src/lockdrop_campaign.rs:254-268 | a concrete run of five calls after which the contract owes more than it holds |
| LockdropCampaign.LockHolds | src/lockdrop_campaign.rs:9-11 | no call by anyone removes or alters a commitment before its unlock ledger |
| LockdropCampaign.OneClaimPerUser | src/lockdrop_campaign.rs:282-317 | after one claim every later claim of that user fails, whatever campaigns follow |
| LockdropCampaign.CommitmentsAreAsked | src/lockdrop_campaign.rs:212-236 | after any run each commitment stores the amount, lock and ledger of one call of that user, and its score is amount times lock |
| LockdropCampaign.ScoreIsCommitted | src/lockdrop_campaign.rs:216-236 | the total score is the sum of amount times lock over the commitments accepted since the latest start, exits notwithstanding, up to the top of the type; the list is exactly who made them |
| LockdropCampaign.ConfigIsLastCampaign | src/lockdrop_campaign.rs:126-173 | the stored campaign is the latest accepted start, ending its duration later, and is split once a finalization was accepted |
| LockdropCampaign.CommitAcceptedExactly | src/lockdrop_campaign.rs:178-218 | a commitment is accepted exactly while its campaign runs, for a positive amount and an allowed lock, from a user without one, while there is room and the score fits |
| LockdropCampaign.SplitAndStartExactly | src/lockdrop_campaign.rs:126-278 | a campaign is split once, exactly from the ledger after its end on, and another starts only after that |
| LockdropCampaign.SplitIsProportional | src/lockdrop_campaign.rs:254-268 | each committer of the campaign who still holds a commitment is allocated the floor of pool times amount times lock over all that was committed, where the product fits; nobody else's allocation changes |
| LockdropCampaign.TwiceTheLock | src/lockdrop_campaign.rs:3-7 | of two committers with one amount, the one who locks twice as long is allocated twice as much, up to one unit, where nothing saturates |
| LockdropCampaign.ExitAndClaimExactly | src/lockdrop_campaign.rs:282-346 | an exit goes through exactly from the end of its lock on, a claim exactly after the split, for a positive allocation, once |
| LockdropCampaign.ClaimedExactly | src/lockdrop_campaign.rs:282-317 | the claimed flag is set for exactly the users one of whose claims was accepted |
| LockdropCampaign.HeldIsFlow | src/lockdrop_campaign.rs:126-346 | what is held is the pools and amounts that came in less the allocations claimed and amounts unlocked, in full |
| LockdropCampaign.ClaimAndExit | src/lockdrop_campaign.rs:12-13 | a claim never changes whether an exit goes through or what it returns; an exit leaves a claim possible exactly when it is another user's, and then the order does not matter |
| LockdropCampaign.ExitForfeits | src/lockdrop_campaign.rs:292-294 | a user without a commitment claims nothing, whatever is called, until they commit again |
| LockdropCampaign.ExitLosesAllocation | src/lockdrop_campaign.rs:321-346 | a run in which an allocation of the whole pool is lost by exiting first |
| LockdropCampaign.TwiceTheScore | src/lockdrop_campaign.rs:3-7 | twice the score earns exactly twice the allocation if and only if the doubled remainder stays below the total score and is not outweighed by what saturation cuts off; without saturation the gap is at most one unit |
| LockdropCampaign.TwiceTheScoreForNothing | src/lockdrop_campaign.rs:254-268 | a pool, a score and a total for which both products saturate and twice the score earns nothing more |
| LockdropCampaign.Lockdrop.StartLockdrop | src/lockdrop_campaign.rs:126-173 | the stored fields follow the transition, error by error, and the invariant holds afterwards |
| LockdropCampaign.Lockdrop.CommitToLockdrop | src/lockdrop_campaign.rs:178-238 | an accepted commitment stores the amount, lock and ledger asked for, scores and answers amount times lock, and brings the amount in; errors leave everything as it was |
| LockdropCampaign.Lockdrop.FinalizeLockdrop | src/lockdrop_campaign.rs:242-278 | the loop over the committer list, duplicates included, writes one share per live committer and keeps earlier allocations; the invariant holds afterwards exactly when the finalization was covered |
| LockdropCampaign.Lockdrop.ClaimLockdropReward | src/lockdrop_campaign.rs:282-317 | pays the stored allocation once |
| LockdropCampaign.Lockdrop.ExitLockdrop | src/lockdrop_campaign.rs:321-346 | returns exactly the locked principal once the lock is over |
| SharePool.MintRoundsDown | src/balance.rs:609-622 | minted shares are worth at most what was paid, short by less than one share |
| SharePool.FirstMint | src/balance.rs:615-616 | into a pool without shares or deposits a mint converts the amount to seven decimals, exactly from seven or fewer, rounding down from more, and fails exactly when factor or result does not fit |
| SharePool.DepositAcceptedExactly | src/vault.rs:465-478 | a deposit goes through exactly for a positive amount whose mint and new totals fit |
| SharePool.FirstDepositorGetsAllBack | src/balance.rs:609-644 | the first depositor of a seven-decimal token gets a share per unit and redeems them for the whole deposit, exactly when its square fits |
| SharePool.BurnRoundsDown | src/balance.rs:631-644 | burned shares pay at most their value, short by less than one unit; burning all pays everything; the call fails exactly when the product overflows |
| SharePool.DepositStep | src/vault.rs:465-478 | a deposit never lowers deposited tokens per share, credits the mint to the depositor and leaves every other holding |
| SharePool.RedeemStep | src/liquidity_bridge.rs:113-129 | a redemption never lowers deposited tokens per share, takes the shares from the redeemer and leaves every other holding |
| SharePool.RedeemAcceptedExactly | src/liquidity_bridge.rs:93-120 | a redemption goes through exactly to an approved target, for a positive part of the caller's own shares whose product with the deposits fits |
| SharePool.NobodyProfits | README.md:34-39 | over any run without yield, from a pool owned by passive others, the participants take out at most what they put in; the difference covers the shares they still hold at the starting price |
| SharePool.PiecesPayNoMore | src/liquidity_bridge.rs:113-129 | whenever one redemption succeeds, so do its pieces; they pay at most as much, miss the exact value by less than one unit a piece, and redeeming every share pays out exactly the deposits |
| SharePool.RemainderInPieces | src/balance.rs:631-644 | what stays in the pool after consecutive pieces is at least its proportional part, above it by less than one unit a piece |
| SharePool.RedemptionsPayPieces | src/liquidity_bridge.rs:93-150 | a run of accepted redemptions by any users pays what its pieces pay |
| SharePool.AnyRedemptionOrder | src/liquidity_bridge.rs:113-129 | whoever redeems in whatever order, together they get at most the exact share, and the whole deposit when no share is left |
| SharePool.Vault.Stake | src/vault.rs:436-480 | the deposit's stored result and its error cases, with the exact first mint from up to seven decimals; holdings never exceed the total |
| SharePool.Vault.Bridge | src/liquidity_bridge.rs:93-150 | the burn's stored result and its error cases; holdings never exceed the total |
| CompoundOptimizer.Isqrt | src/compound_optimizer.rs:66-77 | Newton's loop ends at the floor of the square root; only the largest input aborts |
| CompoundOptimizer.RootUnique | src/compound_optimizer.rs:66-77 | the floor of a square root is unique |
| CompoundOptimizer.NewtonStaysAbove | src/compound_optimizer.rs:66-77 | a Newton step never falls below the root |
| CompoundOptimizer.ScaleCancels | src/compound_optimizer.rs:91-116 | scaling under the root by a square and dividing the scale out again gives the root of the unscaled quotient |
| CompoundOptimizer.ComputeOptimalInterval | src/compound_optimizer.rs:91-116 | for all 32-bit inputs the interval is max(1, root of 2 * cost / rate), so nothing saturates |
| RollingWindow.PayKeepsAccounts | src/daily_withdrawal_limit.rs:87-116 | a payment inside the window's allowance keeps the window counting at least the payments since its start, and every window-long stretch within twice the cap |
| DailyWithdrawalLimit.AtMostTwicePerDay | src/daily_withdrawal_limit.rs:87-116 | in any run, whatever windows were stored before, a user withdraws at most twice the limit in any 17,280 consecutive ledgers, exactly when the limit is below the top of the type |
| DailyWithdrawalLimit.TopLimitNeverBinds | src/daily_withdrawal_limit.rs:103-116 | a run that exceeds the bound under the largest limit |
| DailyWithdrawalLimit.TwiceInTwoLedgers | src/daily_withdrawal_limit.rs:17-24 | every positive limit lets exactly twice the limit out within two ledgers |
| DailyWithdrawalLimit.RollsExactlyWhen | src/daily_withdrawal_limit.rs:1-24 | a run keeps every user within the limit in every day-long stretch if and only if each accepted withdrawal fits what the limit leaves of the day ending with it |
| RollingWindow.TrailingDecides | src/daily_withdrawal_limit.rs:17-24 | one more payment keeps every stretch of a given length within a cap exactly when the stretch ending with it has room |
| DailyWithdrawalLimit.RemainingIsExact | src/daily_withdrawal_limit.rs:103-127 | under any limit but zero and the top of the type, a withdrawal passes exactly when the window is within the limit and the amount within the reported remainder; those two limits refuse nothing |
| DailyWithdrawalLimit.WithdrawalLimiter.SetDailyWithdrawalLimit | src/daily_withdrawal_limit.rs:133-140 | negative limits are refused without effect |
| DailyWithdrawalLimit.WindowIsAccounted | src/daily_withdrawal_limit.rs:87-96 | after any run the window a user's next withdrawal is charged to covers that ledger and counts at least what the run accepted since it started; for a user with no earlier window it counts exactly that |
| DailyWithdrawalLimit.WithdrawalLimiter.EnforceAndRecord | src/daily_withdrawal_limit.rs:103-116 | accepts and records, or refuses without effect; other users' windows stay |
| DailyWithdrawalLimit.WithdrawalLimiter.GetRemaining | src/daily_withdrawal_limit.rs:120-127 | reports the remainder of the current window |
| EpochRewardCap.AtMostTwiceTheCap | src/epoch_reward_cap.rs:95-104 | after the cap is set, capped claims of any run pay at most twice the cap in any epoch-long stretch |
| EpochRewardCap.ClaimSpendsWindow | src/epoch_reward_cap.rs:172-225 | a claim pays within the window's allowance and charges it in full |
| EpochRewardCap.ClaimPaysAllItCan | src/epoch_reward_cap.rs:172-225 | after any run from the setting of the cap, a claim covers the accrued reward as far as the cap leaves room beside the claims of its window, and goes through exactly when the pool has that |
| EpochRewardCap.LossExactlyWhen | src/epoch_reward_cap.rs:172-258 | over any run the pool falls by exactly what is paid, and of what a user earned nothing is lost if and only if none of their claims left more owed than the bucket can hold; what is lost stays lost |
| EpochRewardCap.NothingIsLost | src/epoch_reward_cap.rs:172-258 | over any run accrued plus deferred plus paid is what each user earned, for every user whose earnings fit the integer |
| EpochRewardCap.ClaimConserves | src/epoch_reward_cap.rs:172-225 | the pool falls by what is paid, nobody else moves, nothing stays accrued, and no reward is lost exactly when what is owed beyond the payable part fits the deferred bucket |
| EpochRewardCap.FullBucketLoses | src/epoch_reward_cap.rs:77-91 | under every cap a run from the setting of the cap in which a user loses four of five accrued |
| EpochRewardCap.ClaimDeferredConserves | src/epoch_reward_cap.rs:229-258 | collecting pays the whole bucket and conserves |
| EpochRewardCap.DeferredWaits | src/epoch_reward_cap.rs:172-258 | what a claim defers, with the bucket it joins, can be collected, whole, exactly from the end of the window it came from on, while the pool covers it |
| EpochRewardCap.NoCapBoundsPayouts | src/epoch_reward_cap.rs:229-258 | for every cap, epoch length and bound, some run from the setting of the cap pays more than the bound in one ledger |
| EpochRewardCap.WithinCapExactlyWhen | src/epoch_reward_cap.rs:172-258 | over any run from the setting of the cap, claims and collections together stay within it in every epoch-long stretch if and only if no call pays more, judged before it by the payable part or the bucket, than the stretch ending with it leaves |
| EpochRewardCap.FittingCollectionIsNotEnough | src/epoch_reward_cap.rs:172-258 | under every positive cap a run whose only collection fits, and whose later claim still takes one ledger above the cap |
| EpochRewardCap.RewardCap.SetEpochRewardCap | src/epoch_reward_cap.rs:110-135 | stores a valid cap and restarts the window |
| EpochRewardCap.QueuedIsHeldBack | src/epoch_reward_cap.rs:77-91 | queueing grows what the user is owed by the whole amount exactly when the bucket has room, touches nobody else, holds everything back, earlier deferrals included, until the new release ledger, and a collection from then on pays it all |
| EpochRewardCap.RewardCap.ClaimEpochCappedReward | src/epoch_reward_cap.rs:172-225 | follows the capped claim, error by error |
| EpochRewardCap.RewardCap.ClaimDeferredReward | src/epoch_reward_cap.rs:229-258 | follows the collection, error by error |
| DailyVelocityLimiter.DailyLimitHolds | src/daily_token_velocity_limiter.rs:155-246 | from any sound state on, a stale tracker above the limit included, both entrypoints together pay at most the positive limit on any day while it stays |
| DailyVelocityLimiter.LossExactlyWhen | src/daily_token_velocity_limiter.rs:155-246 | over any run the pool falls by exactly what is paid, and of what a user earned nothing is lost if and only if none of their claims left more owed than the bucket can hold |
| DailyVelocityLimiter.NothingIsLost | src/daily_token_velocity_limiter.rs:155-246 | over any run accrued plus deferred plus paid is what each user earned, for every user whose lifetime earnings fit the integer |
| DailyVelocityLimiter.AtMostTwicePer24Hours | src/daily_token_velocity_limiter.rs:3-9 | any run pays at most twice the limit in any 17,280 consecutive ledgers |
| DailyVelocityLimiter.TwiceAroundMidnight | src/daily_token_velocity_limiter.rs:87-97 | every positive limit lets exactly twice the limit out within two ledgers |
| DailyVelocityLimiter.Within24HoursExactlyWhen | src/daily_token_velocity_limiter.rs:3-9 | a run keeps every 24 hours within the limit if and only if no call pays more, judged before it by what is due and by today's headroom, than the 24 hours up to it leave |
| DailyVelocityLimiter.ClaimConserves | src/daily_token_velocity_limiter.rs:155-203 | a claim pays from the pool, moves nobody else, and loses no reward exactly when there is no limit, today's headroom covers it, or what is owed beyond the headroom fits the deferred bucket |
| DailyVelocityLimiter.FullBucketLoses | src/daily_token_velocity_limiter.rs:155-203 | under every limit a run in which a user loses four of five accrued |
| DailyVelocityLimiter.ClaimDeferredConserves | src/daily_token_velocity_limiter.rs:209-246 | collecting always conserves |
| DailyVelocityLimiter.PayoutsAreCharged | src/daily_token_velocity_limiter.rs:87-117 | every payout fits today's headroom and is charged to today |
| DailyVelocityLimiter.LimitedPaysAllItCan | src/daily_token_velocity_limiter.rs:155-246 | in a run from the first limited day on, a claim or collection covers what is due as far as the limit leaves room beside everything paid today, and goes through exactly when the pool has that |
| DailyVelocityLimiter.UnlimitedPaysAll | src/daily_token_velocity_limiter.rs:155-246 | without a limit a claim pays the whole accrued reward and a collection the whole bucket, exactly when the pool has it |
| DailyVelocityLimiter.VelocityLimiter.SetDailyVelocityLimit | src/daily_token_velocity_limiter.rs:123-130 | negative limits are refused without effect |
| DailyVelocityLimiter.VelocityLimiter.TransferReward | src/daily_token_velocity_limiter.rs:99-117 | pays exactly when the pool suffices |
| DailyVelocityLimiter.VelocityLimiter.ClaimWithDailyVelocityLimit | src/daily_token_velocity_limiter.rs:155-203 | follows the limited claim, error by error |
| DailyVelocityLimiter.VelocityLimiter.ClaimDeferredDailyReward | src/daily_token_velocity_limiter.rs:209-246 | follows the limited collection, error by error |
| ClaimVesting.VestedGap | src/claim_vesting.rs:74-88 | without overflow the unlocked amount is the exact linear floor; the overflow fallback is below it by less than the duration |
| ClaimVesting.VestedMonotone | src/claim_vesting.rs:74-88 | unlocking never goes backwards, not even where the product starts to overflow, and never passes the total |
| ClaimVesting.ReleaseMovesLocked | src/claim_vesting.rs:106-131 | a release never fails, pays exactly what leaves the locked amount, and clears a schedule that has run its length |
| ClaimVesting.NothingIsLost | src/claim_vesting.rs:106-230 | over any run everything ever locked has been paid or is still locked |
| ClaimVesting.FinalReleasePaysAll | src/claim_vesting.rs:106-131 | one release after the schedule has ended has paid all that was ever locked |
| ClaimVesting.ReleasesCatchUp | src/claim_vesting.rs:91-131 | between claims a release at ledger t brings the total paid to what had vested by t, whatever releases came before |
| ClaimVesting.ReleasesAfterClaim | src/claim_vesting.rs:167-230 | a claim merges the locked rest with the new reward, and releases after it pay exactly the vested amount of the merged schedule |
| ClaimVesting.ClaimVestsLinearly | src/claim_vesting.rs:200-216 | a claim of a positive net pays what had vested; the locked rest and the net then vest together from that ledger over the duration: releases up to t have paid the floor of the elapsed share of the sum while the product fits (short by less than the duration otherwise) and the whole sum once the duration is over |
| ClaimVesting.LockAcceptedExactly | src/claim_vesting.rs:200-206 | a claim is refused exactly when the locked rest and the net together do not fit |
| ClaimVesting.VestingDesk.SetClaimVestingDuration | src/claim_vesting.rs:138-154 | durations above a year are refused without effect |
| ClaimVesting.VestingDesk.ReleaseVested | src/claim_vesting.rs:233-236 | the user's account takes one release step, everyone's books stay balanced, nobody else moves |
| ClaimVesting.VestingDesk.ClaimIntoVesting | src/claim_vesting.rs:167-230 | with vesting enabled it is the vesting claim; disabled, it answers as the plain claim and no schedule moves |
| ClaimVesting.VestingDesk.LockReward | src/claim_vesting.rs:174-229 | the accrued reward is zeroed and counted as paid out once, the stored schedule starts at the claim's ledger with the configured duration and nothing released, and a failed or halted claim leaves everything as it was |
| FeeChangeNotice.LazyRefinesEager | src/fee_change_notice.rs:112-173 | however the settling calls are spaced, the fee after settling is, all through a run and ever after, that of a model that applies each change in the very ledger it becomes effective, if and only if no governance enactment met a matured, unsettled change of another value |
| FeeChangeNotice.StoredFeeExactlyWhen | src/fee_change_notice.rs:20-27 | over any run in which no enactment met a matured, unsettled change of another value, the stored fee is that of the eager model exactly while no matured change of another value waits to be settled |
| FeeChangeNotice.ProposalsRefine | src/fee_change_notice.rs:112-173 | without governance enactments that refinement holds for every run |
| FeeChangeNotice.StepRefines | src/vault.rs:9757-9764 | one call keeps the two models together exactly when it is not such an enactment; after one, settling puts the older change in place of the enacted value |
| FeeChangeNotice.StoredRisesExactlyWhen | src/fee_change_notice.rs:112-173 | every rise of the stored fee was proposed, either by a proposal without notice or up to the latest proposal accepted a full notice earlier, if and only if no accepted enactment raised it |
| FeeChangeNotice.RaisesStoredExactlyWhen | src/fee_change_notice.rs:136-173 | which calls raise the stored fee, kind by kind, in terms of the state before |
| FeeChangeNotice.StoredFeeJumps | src/fee_change_notice.rs:136-173 | with no enactment and under a notice, the stored fee rises to a value in the very ledger it is proposed, when a higher change had matured unsettled |
| FeeChangeNotice.ProposedExactlyWhen | src/fee_change_notice.rs:112-173 | every rise of the fee after settling was proposed, at once only without notice and otherwise a full notice period earlier, if and only if no enactment raised that fee |
| FeeChangeNotice.EnactmentNeedsNoProposal | src/vault.rs:9757-9764 | from every fee below 500 bps and under any notice period, one enactment raises the fee, stored and settled, with no proposal at all |
| FeeChangeNotice.AnswersExactly | src/fee_change_notice.rs:136-173 | a proposal is refused exactly above 2,000 bps; it is answered as applied exactly when the stored fee is the proposed one afterwards with nothing pending, and otherwise it waits for a full notice period |
| FeeChangeNotice.AlwaysAnnounced | src/fee_change_notice.rs:136-173 | a pending change is always the latest accepted proposal, made under a non-zero notice, and no fee passes the ceiling |
| FeeChangeNotice.RisesAreAnnounced | src/fee_change_notice.rs:112-173 | a fee that, after settling, rises with time was the latest accepted proposal, made a full notice period earlier (shorter only at the last ledger of the type) |
| FeeChangeNotice.RaisedAtOnceBy | src/fee_change_notice.rs:112-173 | a call raises the fee after settling at once only as a proposal while no notice is required (or in the last ledger of the type) or as an enactment above the fee, and every such enactment does |
| FeeChangeNotice.FeeNotice.EnactUnstakeFee | src/vault.rs:9757-9764 | refuses values that are no `u32` or exceed 500 bps without effect, else overwrites the fee and leaves a pending change in place |
| FeeChangeNotice.FeeNotice.SetFeeNoticeLedgers | src/fee_change_notice.rs:194-206 | changes the period for later proposals only |
| FeeChangeNotice.FeeNotice.SettlePendingFeeChange | src/fee_change_notice.rs:112-123 | applies a matured change and nothing else |
| FeeChangeNotice.FeeNotice.ProposeFeeChange | src/fee_change_notice.rs:136-173 | refuses above the ceiling without effect, applies reductions at once, queues rises |
| CompetitiveSeason.StreamingIsStableTop | src/competitive_season.rs:55-83 | cutting after every insertion gives the first n of any stable descending sort of the positive holders |
| CompetitiveSeason.RankingBeats | src/competitive_season.rs:55-83 | the ranking lists registered stakers with shares, each beating all after it by shares or else by earlier registration; a staker with shares is missing only when it is full and everyone on it beats them |
| CompetitiveSeason.HoldersAre | src/competitive_season.rs:58-65 | the candidates are the registered stakers with positive shares, each with their own amount, in registry order |
| CompetitiveSeason.StableSortUnique | src/competitive_season.rs:55-83 | there is only one stable descending sort |
| CompetitiveSeason.SortedIsStable | src/competitive_season.rs:55-83 | insertion before the first smaller amount sorts stably |
| CompetitiveSeason.CutBeforeInsert | src/competitive_season.rs:75-80 | cutting before an insertion does not change the cut after it |
| CompetitiveSeason.InsertAndCut | src/competitive_season.rs:62-80 | the inner loops insert at the stable place and keep the first n |
| CompetitiveSeason.TopStakers | src/competitive_season.rs:55-83 | the nested loops return the first n of the stable descending sort of the positive holders in registry order |
| CompetitiveSeason.RankedDistinct | src/balance.rs:583-595 | a registry without repeats gives a ranking of distinct stakers |
| CompetitiveSeason.Seasons.RegisterStaker | src/balance.rs:583-595 | adds a user once and keeps the registry free of repeats |
| CompetitiveSeason.Seasons.StartSeason | src/competitive_season.rs:89-134 | opens a season with the next number, or refuses without effect |
| CompetitiveSeason.Seasons.EndSeason | src/competitive_season.rs:144-191 | records the ranking and its first entry as winner; the history is always the newest twenty of all ended seasons, each with distinct stakers |
| HalvingSchedule.RateFalls | src/balance.rs:1779-1796 | the rate never rises with the ledger |
| HalvingSchedule.ConstantUntilNext | src/balance.rs:1725-1749 | count and rate stay put until exactly the announced ledger, where one more cut applies |
| HalvingSchedule.CutLowers | src/balance.rs:1779-1796 | a cut of at least one basis point lowers every positive rate |
| HalvingSchedule.CutsFall | src/balance.rs:1779-1796 | more cuts never give a higher rate |
| HalvingSchedule.CutIsFloor | src/balance.rs:1779-1796 | a cut keeps the floor of the part of the rate that is not removed |
| HalvingSchedule.ClassicHalving | src/balance.rs:1779-1796 | at 5,000 bps, k cuts leave the floor of the rate over two to the k |
| HalvingSchedule.CountIs | src/balance.rs:1725-1733 | between the k-th boundary after the start and the next, k intervals have elapsed |
| HalvingSchedule.NextIsFirstBoundary | src/balance.rs:1735-1749 | the announced ledger is the first boundary after the current one; none is announced exactly without a schedule |
| HalvingSchedule.RateIs | src/balance.rs:1779-1796 | in the k-th interval the rate is that after k cuts, but never below the floor; without a schedule, the base |
| HalvingSchedule.Halving.SetHalvingSchedule | src/vault.rs:3537-3563 | only positive intervals, reductions of 1 to 10,000 bps and non-negative floors are stored |
| HalvingSchedule.Halving.HalvingAdjustedRate | src/balance.rs:1779-1796 | the early-stopping loop gives every elapsed cut and then the floor, in at most max(0, base - floor) rounds |
| BatchVote.BatchIsOneByOne | src/batch_vote.rs:112-197 | a batch, duplicates included, succeeds exactly when its entries do one at a time, with the same proposals, flags, receipts, stamp and answers |
| BatchVote.LoopIsOneByOne | src/batch_vote.rs:132-190 | the same for a list of any length |
| BatchVote.TalliesAreAsked | src/batch_vote.rs:132-190 | over any run the votes for a proposal are the summed weight of the accepted entries that asked to support it, the votes against that of those that did not, and each receipt shows the side, weight and ledger asked for, once per user |
| BatchVote.AnsweredExactly | src/batch_vote.rs:132-190 | after any run each entry is answered as the calls before it deserve: it counts exactly when its proposal was created, never enacted or cancelled, is within its deadline, was not counted for this user before, in this batch or earlier, and the user has weight |
| BatchVote.BatchAcceptedExactly | src/batch_vote.rs:112-197 | a batch goes through exactly with at most ten entries, for a user with shares, when no counting entry pushes its side out of range; the last vote is stamped exactly when some entry counts |
| BatchVote.TalliesAreReceipts | src/batch_vote.rs:132-190 | after any run each tally is the sum of the receipts on its side, with each user counted once per proposal |
| BatchVote.CastOneBooks | src/batch_vote.rs:132-190 | one entry keeps tallies, flags and receipts in agreement with what was asked |
| BatchVote.Governance.CastEntry | src/batch_vote.rs:132-190 | one loop round: the answer code in the order the code checks; a counted vote adds its weight to the side it asked for and to no other, and its receipt shows that side, weight and ledger |
| BatchVote.Governance.CastBatch | src/batch_vote.rs:112-197 | the loop follows the batch; a tally overflow leaves everything as it was |
| BurnMilestones.MilestonesFireOnce | src/burn_milestone_tracker.rs:40-81 | over any run each threshold fires exactly once since configuration if burns followed and the sum of all accepted token, manual and fee amounts is at or above it, and not otherwise, at the first burn that got there; nothing but configured thresholds fires |
| BurnMilestones.CountersAreSums | src/balance.rs:1650-1654 | the counters are the sums of the accepted amounts, and the total that burns and events report is both together, up to the top of the type |
| BurnMilestones.BurnAcceptedExactly | src/burn_milestone_tracker.rs:164-173 | a burn goes through exactly while its counter holds it; a manual one must be positive |
| BurnMilestones.ThresholdsAreConfigured | src/burn_milestone_tracker.rs:86-119 | the thresholds in force are the latest configured list of at most ten, positive and strictly increasing |
| BurnMilestones.NextIsLeastAbove | src/burn_milestone_tracker.rs:139-153 | the flags form a prefix, and after a burn the next milestone is the least threshold above the sum of all that was burned |
| BurnMilestones.CheckCatchesUp | src/burn_milestone_tracker.rs:40-81 | a check brings the flags to the current total and fires the thresholds crossed in between |
| BurnMilestones.SecondCheckIsIdle | src/burn_milestone_tracker.rs:164-173 | the second check of a manual burn changes and announces nothing |
| BurnMilestones.CrossedOnce | src/burn_milestone_tracker.rs:40-81 | a threshold is crossed by at most one burn |
| BurnMilestones.CrossedAtFirst | src/burn_milestone_tracker.rs:40-81 | every event reports the first burn that left the total at or above its threshold |
| BurnMilestones.IncreasingIsAscending | src/burn_milestone_tracker.rs:86-119 | the setter's neighbour check accepts exactly the strictly increasing positive lists |
| BurnMilestones.Tracker.CheckBurnMilestones | src/burn_milestone_tracker.rs:40-81 | the flag loop announces the events of one check; afterwards every threshold that tokens and fees together have reached is flagged |
| BurnMilestones.Tracker.AddTokensBurned | src/balance.rs:1650-1710 | counts the amount and flags every threshold reached, or aborts without effect on overflow |
| BurnMilestones.Tracker.AddFeesBurned | src/balance.rs:2694-2754 | the same for fees |
| BurnMilestones.Tracker.BurnManually | src/burn_milestone_tracker.rs:164-173 | a positive burn counts once although the check is made twice |
| BurnMilestones.Tracker.SetBurnMilestones | src/burn_milestone_tracker.rs:86-119 | stores a valid list with all flags cleared, or refuses without effect |
| BurnMilestones.Tracker.GetNextBurnMilestone | src/burn_milestone_tracker.rs:139-153 | the first threshold whose flag is not set |

## Left out

- BalanceCheckpoints.TwabOfAnyRun: balances of 2^95 and more, where prefix sums can saturate.
- ShareLedger.TwabsMakeTotal: holdings or supply of 2^95 and more, and paths that change shares without both setters, such as the direct deletion in src/dust_cleanup.rs:197-201 and split positions.
- SharePool.Vault.Stake: the guards before the deposit (sunset, pool seeding, depositor and position caps) and the staker registration after it; the amount is what actually arrived.
- SharePool.NobodyProfits: yield, fees and slashing, which move deposits without shares.
- SharePool.Vault.Bridge: the second half of the bridge, which stakes into the target pool; whether that pool is approved is an input.
- EpochRewardCap.AtMostTwiceTheCap: collections from the deferred buckets, for which `NoCapBoundsPayouts` shows that no bound holds.
- ClaimVesting.VestingDesk.ClaimIntoVesting: with vesting disabled the code calls the plain claim; its answer and the balances it leaves are inputs. The bounty and fee deductions appear only as the resulting net.
- FeeChangeNotice.StoredRisesExactlyWhen: the stored fee is not what is charged while a dynamic fee is configured or the pool is withdraw-only (src/vault.rs:6696-6703).
- FeeChangeNotice.FeeNotice.EnactUnstakeFee: whether a governance proposal may be enacted (vote, delay, veto), and its other parameters; src/vault_extensions_761_764.rs, which no module includes, is not part of this model.
- BatchVote.Governance.CastBatch: how a vote weight is computed (it is an input), and the single-vote and vote-change entrypoints.
- HalvingSchedule.ConstantUntilNext: a next boundary beyond the 32-bit range, where the code aborts.
- Authorization, roles and pausing: a call is taken as already authorized.
- Events, except the milestone announcements; audit trails and statistics.
- Storage keys, entry expiry and the migration of legacy trackers.
- Token contracts, routers and oracles; a transfer is assumed to succeed.
- The trigger and enabling functions of the compound optimizer, NFT lending, badges, branding, keepers and other configuration modules.
