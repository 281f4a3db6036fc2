# YieldLadder verification

A Dafny model of the parts of YieldLadder where a mistake would cost money or lose it, with proofs of what those parts keep in every run.

1. **The vault ledger.** Four tier vaults behind a router, the token balances they move, the events they publish, and the off-chain script that folds those events. One class, `TierVault`, is configured four times; `Router` owns the vaults and the tokens. Each method of the classes refines a function on an abstract `World`, and the theorems are about every run of those functions from fresh contracts.
2. **Governance and capital.** The timelocked governance contract, the multisig that holds its veto, the strategy vault with its allocation caps and rebalance loop, and the harvester.
3. **The submission guard.** Payment intents and locks in one string-keyed store shared by browser tabs, the attempt that drives them, the polling loop, and the SDK's map of submissions in flight.

A failing call is rolled back as a whole, so it leaves the state unchanged. Signed 128-bit overflow traps. Addresses are strings, account kinds are disjoint by type, and authorisation means that the caller is the registered address. `initialize` is the constructor. Clocks, replies, the outcome of signing and submitting, and calls into contracts that are not part of the repository are parameters.

| file | contents |
|---|---|
| `Common.dfy`, `FloorArithmetic.dfy`, `MapSums.dfy` | outcomes of calls, floors of products, sums over maps |
| `TokenLedger.dfy`, `VaultEvents.dfy`, `TierVault.dfy`, `VaultRouter.dfy` | the contracts of the vault ledger |
| `VaultInvariants.dfy`, `VaultTheorems.dfy`, `VaultAnswers.dfy` | invariants of every run, the results, and what each call answers |
| `Reconcile.dfy`, `ReconcileTheorems.dfy` | the reconciliation script, and what it says about any run |
| `StrategyVault.dfy`, `Governance.dfy`, `GuardianMultisig.dfy`, `GovernanceTheorems.dfy`, `GovernanceAnswers.dfy`, `Harvester.dfy` | governance and capital |
| `PaymentIntent.dfy`, `PaymentTabs.dfy`, `PaymentTheorems.dfy` | intents, interleaved tabs, and the results |
| `Polling.dfy`, `InFlight.dfy` | waiting for a transaction, sharing a submission |

## Where the code does less than it says

Each of these is a theorem about the code as it is, with the exact condition.

- **The sign of an exit is not checked.** A withdrawal or early exit that succeeds keeps the vault's tokens equal to balances plus fees if and only if its amount is not negative (`SignDecidesBacking`). Three calls from initialisation reach a vault that is short (`ThreeCallsUnback`). The results over runs therefore assume non-negative exit amounts, and nothing else about the calls.
- **Reconciliation is not clean after an early exit.** `scripts/README.md:113-117` says that fees need no special treatment. Events carry the amount net of the fee while `total_balance` drops by the gross amount. So the aggregate check reports a tier if and only if some successful early exit of it, outside an emergency, had amount times rate of at least one unit, and it is off by the sum of the floored fees (`AggregateMismatchIsTheFees`). Three calls from initialisation reach it (`ThreeCallsMismatch`).
- **Governance cannot allow a pool.** With Governance as the strategy vault's admin, as its documentation requires, no call can ever add a pool, so from an empty allowlist no allocation can be made (`GovernanceCannotAllowPools`). A pool can be added if and only if the admin is an account (`PoolsGrowExactly`).
- **Multisig owners may repeat.** With fewer distinct owners than the threshold nothing can be vetoed (`TooFewOwnersNeverVeto`); with enough, confirmations alone veto any pending proposal (`EnoughOwnersCanVeto`).
- **The polling timeout is not a hard cap.** A wait that gives up is within its timeout if and only if some poll ends on the deadline to the millisecond (`KeptOnlyToTheInstant`); when polls take no time and sleeps are punctual, that is if and only if the timeout is a sum of the first few sleeps (`TimeoutKeptExactly`). The default of 60000 and the 20000 of a payment submission are not: both give up 4500 late (`DefaultsOvershoot`, `TimeoutIsNoHardCap`). No wait is late by more than one capped sleep plus the lag (`OvershootIsBounded`).
- **A shared key hides a different request.** A call gets the result of its own request if and only if no submission shared under its key is for another one (`OwnRequestExactly`, `SharedCallsDropTheirRequest`).
- **A tab closed in the middle of an attempt blocks its operation for good.** The deposit page says that an active intent found on load is resumed. It is only displayed: no run ever changes it again or grants another submission of the operation (`OrphansBlockTheirOperation`). An active intent can still end if and only if an open tab works on it (`EndsExactlyIfWorkedOn`), and a tab that stays open always finishes (`OpenTabsFinish`).

Four remarks beside the theorems. Locks are half as long as documented: L3's comment says three months at about 5 s a ledger, but 777,600 ledgers are 45 days, and L6 and L12 likewise (`TierTerms`). `README.md:18` lists 1.40x and 3.00% for L12; the contract uses 1.30x and 2.50% (contracts/vault_l12/src/lib.rs:91 and 180), and so does the model. The polling interval is documented as the delay before the first poll, but the first poll comes at once. The reconciliation takes its keys apart at `|`, which would truncate an asset name with a bar (`ReportedAssetIsExact`); its own callers never pass one, because the asset comes from an address in an event's topics (scripts/src/reconcile.ts:63).

## Model

| member | source | states |
|---|---|---|
| FloorArithmetic.TruncDiv | contracts/vault_l3/src/lib.rs:195-196 | Rust's integer division rounds toward zero: the quotient is bracketed by the dividend on both sides of zero |
| FloorArithmetic.MulFpBounds | contracts/vault_l3/src/lib.rs:48-50 | a fixed-point product is within one unit below the exact product, never exceeds the amount for factors up to 1.00x, and lies between the amount and its double for factors from 1.00x to 2.00x |
| FloorArithmetic.PortionsOfParts | contracts/vault_l3/src/lib.rs:237-244 | flooring n parts one by one never gives more than flooring their sum, and at most n - 1 units less |
| TokenLedger.TransferMoves | contracts/vault_router/src/lib.rs:166-167 | a transfer takes from one account, gives to the other and touches no third holding |
| TokenLedger.TransferGranted | contracts/vault_router/src/lib.rs:166-167 | a transfer is granted if and only if the amount lies between zero and the holding |
| TokenLedger.TransferConserves | contracts/vault_router/src/lib.rs:166-167 | a transfer leaves the total supply of every asset unchanged, even from an account to itself |
| TierVaults.MintIsPositive | contracts/vault_l3/src/lib.rs:122-123 | a deposit mints at least the amount and at most twice the amount in shares |
| TierVaults.BurnProportion | contracts/vault_l3/src/lib.rs:195-199 | the shares left after a partial burn are at least the exact proportion and less than one share above it |
| TierVaults.BurnKeepsShareBounds | contracts/vault_l3/src/lib.rs:195-201 | shares between balance and twice balance stay so under any partial burn |
| TierVaults.BurnIsExactAtPar | contracts/vault_flex/src/lib.rs:138-143 | in Flex, where shares equal the balance, a partial withdrawal burns exactly the amount |
| TierVaults.DepositDrift | contracts/vault_l3/src/lib.rs:122-129 | a deposit moves shares away from balance times multiplier by at most one unit, downwards only |
| TierVaults.BurnDrift | contracts/vault_l3/src/lib.rs:195-199 | a partial burn moves them by at most one unit, upwards only |
| TierVaults.TierVault.constructor | contracts/vault_l3/src/lib.rs:63-82 | a fresh vault has no positions, no flags, and the given cap or the default when it is not positive |
| TierVaults.TierVault.TotalsAreSums | contracts/vault_l3/src/lib.rs:116-133 | the running totals equal the sums of all balances and all shares |
| TierVaults.TierVault.Store | contracts/vault_l3/src/lib.rs:196-201 | writing one position with matching totals changes that position and nothing else, and keeps the totals equal to the sums |
| TierVaults.TierVault.Erase | contracts/vault_l3/src/lib.rs:183-193 | a full exit removes the position and its lock, keeps the totals equal to the sums, and the clamp at zero never takes effect |
| TierVaults.TierVault.CheckDeposit | contracts/vault_l3/src/lib.rs:112-135 | minimum, cap and every overflow are decided as on the abstract ledger |
| TierVaults.TierVault.Deposit | contracts/vault_l3/src/lib.rs:108-143 | refines the ledger's deposit: position credited, shares minted, lock restarted, or an error and no change |
| TierVaults.TierVault.Credit | contracts/vault_l3/src/lib.rs:125-136 | the credited position and, in a locked tier, its new lock are all that changes |
| TierVaults.TierVault.Burn | contracts/vault_l3/src/lib.rs:175-204 | refines the ledger's burn: too much is refused, all of it closes the position, part of it burns the floored proportion |
| TierVaults.TierVault.Withdraw | contracts/vault_l3/src/lib.rs:151-204 | refines the ledger's withdrawal, lock and emergency flag included; the payout is the amount |
| TierVaults.TierVault.EarlyExit | contracts/vault_l3/src/lib.rs:212-267 | refines the ledger's early exit; the payout is the amount less the floored fee, or the amount under the emergency flag |
| TierVaults.TierVault.Relock | contracts/vault_l3/src/lib.rs:286-306 | refines the ledger's relock: refused before maturity, otherwise the lock runs its full length from now |
| TierVaults.TierVault.SetMaxTvl | contracts/vault_l3/src/lib.rs:270-274 | governance, and nobody else, sets the cap of a locked tier and nothing else |
| TierVaults.TierVault.SetEmergencyUnlock | contracts/vault_l3/src/lib.rs:86-94 | the guardian, and nobody else, sets or clears one asset's flag and nothing else |
| VaultRouter.Router.constructor | contracts/vault_router/src/lib.rs:84-109 | a fresh router is not paused, allows the given assets and starts with no history |
| VaultRouter.Router.Deposit | contracts/vault_router/src/lib.rs:150-172 | transfer and booking happen together with one event, or neither happens and the first failure is reported |
| VaultRouter.Router.Withdraw | contracts/vault_router/src/lib.rs:178-190 | booking and payout happen together with one event; if paying fails, the booking is undone exactly |
| VaultRouter.Router.EarlyExit | contracts/vault_router/src/lib.rs:195-207 | the same for an early exit, paying the amount net of the fee |
| VaultRouter.Router.Settle | contracts/vault_router/src/lib.rs:187-189 | a booked exit is paid and published, or the state before the booking is restored |
| VaultRouter.Router.Relock | contracts/vault_router/src/lib.rs:245-256 | refused in Flex, otherwise the vault's relock; works while paused and publishes nothing |
| VaultRouter.Router.SetPaused | contracts/vault_router/src/lib.rs:114-133 | the guardian, and nobody else, sets or clears the pause flag |
| VaultRouter.Router.AllowAsset | contracts/vault_router/src/lib.rs:259-266 | the admin, and nobody else, adds or removes one asset |
| VaultRouter.Router.SetMaxTvl | contracts/vault_router/src/lib.rs:211-218 | governance, and nobody else, sets one locked tier's cap; the other vaults and all else stay |
| VaultRouter.Router.OneVaultMoves | contracts/vault_router/src/lib.rs:164-171 | a call that reaches one vault leaves the other three as they were |
| VaultInvariants.StepShape | contracts/vault_router/src/lib.rs:150-256 | every successful step moves exactly one position with its tokens and history entry, paying out the amount on withdrawal and the amount less the vault's fee on early exit, or restarts one lock, or leaves all positions, locks, holdings and history alone |
| VaultInvariants.MovePaysExactly | contracts/vault_l3/src/lib.rs:237-244 | every entry's event carries its amount less the contract's floored fee, which is zero for deposits, withdrawals and emergencies |
| VaultInvariants.BackedMoves | contracts/vault_router/src/lib.rs:150-207 | a move keeps routed tokens equal to balances plus the contract's floored fees, for every tier and asset |
| VaultInvariants.LoggedMoves | contracts/vault_l3/src/lib.rs:141-156 | a move keeps the folded events equal to the tokens routed |
| VaultInvariants.InvariantStep | contracts/vault_router/src/lib.rs:150-256 | every successful step keeps solvency, exact payouts, agreement with the log, share bounds, rounding drift and lock guards together |
| VaultInvariants.ReachableInvariant | contracts/vault_router/src/lib.rs:150-256 | all of these hold after every run of calls from fresh contracts |
| VaultTheorems.FeesStep | contracts/vault_l3/src/lib.rs:237-244 | a successful step adds to the recorded fees exactly the vault's fee on that call, and nothing unless it is an early exit |
| VaultTheorems.FeesAreCharges | contracts/vault_l3/src/lib.rs:237-244 | after every run the recorded fees are the sum of the fees that the vaults charged on the calls that succeeded |
| VaultTheorems.FeePaidExactly | contracts/vault_l3/src/lib.rs:237-244 | an early exit costs something if and only if the flag is off and amount times rate is at least one unit |
| VaultTheorems.ChargedExactly | contracts/vault_l3/src/lib.rs:237-244 | a tier has charged something over a run if and only if one of the run's calls met that condition |
| VaultTheorems.EveryRunIsSolvent | contracts/vault_router/src/lib.rs:150-207 | after every run each vault holds, of each asset, exactly its users' balances, plus the floored fees of the early exits that succeeded, plus what reached its account by other ways than the router |
| VaultTheorems.ExitsPayTheUser | contracts/vault_router/src/lib.rs:178-207 | a successful exit takes the amount off the position and moves exactly the amount, or the amount less the fee, from the vault to the user and to nobody else |
| VaultTheorems.PayoutNeverFallsShort | contracts/vault_router/src/lib.rs:187-189 | no withdrawal or early exit in any reachable state fails for lack of tokens |
| VaultTheorems.SharesTrackBalances | contracts/vault_l3/src/lib.rs:122-129 | in every reachable state balance <= shares <= 2 * balance, equality in Flex, and balance * multiplier - deposits < shares <= balance * multiplier + partial burns, in fixed-point units, counting since the position opened |
| VaultTheorems.PartialExitKeepsShareRate | contracts/vault_l3/src/lib.rs:195-201 | an exit never lowers shares per unit of balance |
| VaultTheorems.WithdrawalsWaitOutTheLock | contracts/vault_l3/src/lib.rs:168-173 | outside an emergency a withdrawal from an open locked position comes a full lock after every deposit and relock of it in the whole history |
| VaultTheorems.LockNeverMovesBack | contracts/vault_l3/src/lib.rs:135-136 | while a position stays open no step moves its lock back |
| VaultTheorems.StepsTouchOnePosition | contracts/vault_l3/src/lib.rs:158-204 | no step changes the balance, shares or lock of any position it does not name |
| VaultTheorems.EmergencyIsPerAsset | contracts/vault_l3/src/lib.rs:86-94 | setting one asset's flag changes no outcome for another asset |
| VaultTheorems.LockedTotalsNeverExceedCaps | contracts/vault_l3/src/lib.rs:116-120 | a locked tier's total never exceeds the largest cap ever in force |
| VaultTheorems.TotalSharesAtMostTwice | contracts/vault_l3/src/lib.rs:131-133 | total shares are at most twice the total balance, and cover each position's shares |
| VaultTheorems.ExitsNeverTrap | contracts/vault_l3/src/lib.rs:195-201 | while a tier's total is at most 2^62 no exit overflows |
| VaultTheorems.DepositTrapsOnlyOnLedger | contracts/vault_l3/src/lib.rs:116-136 | a deposit within such a cap traps if and only if its lock would pass the last 32-bit ledger |
| VaultTheorems.LockedTiersNeverOverflow | contracts/vault_l3/src/lib.rs:108-267 | both hold in every reachable state of every locked tier if every cap ever set is at most 2^62 |
| VaultTheorems.SignDecidesBacking | contracts/vault_l3/src/lib.rs:179-204 | an exit that succeeds keeps the vaults backed if and only if its amount is not negative |
| VaultTheorems.MinusOneIsGranted | contracts/vault_flex/src/lib.rs:119-145 | withdrawing minus one from an open Flex position succeeds and leaves the vault short |
| VaultTheorems.ThreeCallsUnback | contracts/vault_flex/src/lib.rs:119-145 | from initialisation, a deposit and a withdrawal of minus one leave Flex short |
| VaultTheorems.ThreeCallsPayAFee | contracts/vault_l3/src/lib.rs:237-244 | from initialisation, a deposit into any locked tier and an early exit of it pay a fee |
| VaultTheorems.PartsAddUp | contracts/vault_l3/src/lib.rs:246-266 | early exits in parts take off the position exactly what one exit of their sum would |
| VaultTheorems.SplittingAnExitSavesLittle | contracts/vault_l3/src/lib.rs:237-244 | k early exits adding up to A charge no more than one exit of A, and at most k - 1 units less |
| VaultAnswers.TierTerms | contracts/vault_l12/src/lib.rs:47-92 | in their own units: multipliers 1.00x, 1.05x, 1.15x and 1.30x, fees 0, 0.50%, 1.25% and 2.50%, minimum deposits 1, 50, 100 and 250 USDC, locks 45, 90 and 180 days of ledgers at 5 s, default cap one million USDC |
| VaultAnswers.WithdrawalAnswers | contracts/vault_l3/src/lib.rs:158-204 | in every reachable state with a total of at most 2^62: granted if and only if not paused, the position covers the amount, and it is unlocked, which is Flex, or the asset's flag in L3, or the lock has run out; each refusal exactly when it applies |
| VaultAnswers.EarlyExitAnswers | contracts/vault_l3/src/lib.rs:219-267 | likewise for early exits, whatever the lock |
| VaultAnswers.RelockAnswers | contracts/vault_l3/src/lib.rs:286-306 | granted if and only if the tier is locked, the lock matured and the new one fits; the new lock is its full length from now |
| VaultAnswers.DepositAnswers | contracts/vault_router/src/lib.rs:150-172 | in every reachable state with a cap of at most 2^62: granted if and only if not paused, listed, at least the minimum, funded, within the cap and nothing overflows; each refusal exactly when it applies |
| VaultAnswers.DepositCredits | contracts/vault_l3/src/lib.rs:122-136 | a granted deposit raises the balance by the amount, the shares by the floor of amount times multiplier, restarts the lock at its full length, and moves the tokens from depositor to vault |
| VaultAnswers.SwitchesObeyTheirRole | contracts/vault_router/src/lib.rs:114-133 | each switch works if and only if its own role calls it for a tier that has it; a refused call changes nothing |
| VaultAnswers.PauseDecides | contracts/vault_router/src/lib.rs:318-326 | after `pause` every move is refused as paused, after `unpause` none is |
| VaultAnswers.ListingDecides | contracts/vault_router/src/lib.rs:154-157 | listing an asset decides whether deposits of it are refused as not allowed, and of no other asset |
| VaultAnswers.CapDecides | contracts/vault_l3/src/lib.rs:116-120 | after a new cap the next deposit is granted if and only if the total stays within it |
| VaultAnswers.EmergencyDecides | contracts/vault_l3/src/lib.rs:162-173 | before its lock a covered L3 position can be withdrawn if and only if the guardian's last switch for the asset was on, and then early exits are free; when it was off the fee is 0.50% |
| Reconcile.AssetKeyInjective | scripts/src/reconcile.core.ts:67-70 | different (tier, asset) pairs have different keys, and splitting a key gives back its tier |
| Reconcile.ReportedAssetIsExact | scripts/src/reconcile.core.ts:88-92 | the asset read back from a key is the real one if and only if it contains no bar |
| Reconcile.KeyFlowIsFlow | scripts/src/reconcile.core.ts:64-73 | summing by string key is summing by tier and asset |
| Reconcile.GroupingEqualsDirectSum | scripts/src/reconcile.core.ts:111-116 | the two-stage grouping equals the direct signed sum of a tier's events |
| Reconcile.FlowIgnoresOrder | scripts/src/reconcile.core.ts:64-73 | the sums depend on which events occurred, not on their order |
| Reconcile.ComputeAssetBalances | scripts/src/reconcile.core.ts:64-73 | the loop returns exactly the signed sum for every (tier, asset), absent keys counting zero, in order of first occurrence |
| Reconcile.ReconcilePerAssetBalances | scripts/src/reconcile.core.ts:83-100 | the reports are those of the negative keys in order; there are none if and only if no (tier, asset) sum is negative |
| Reconcile.NoReportsExactly | scripts/src/reconcile.core.ts:83-100 | the list of reports is empty exactly when every sum is non-negative |
| Reconcile.NegativeReportsAreExact | scripts/src/reconcile.core.ts:86-98 | without bars, a report on (tier, asset, amount) is listed if and only if that is the pair's sum and it is negative |
| Reconcile.PicksInOrder | scripts/src/reconcile.core.ts:86-131 | visiting a list in order picks each flagged place once, in order, and no other |
| Reconcile.NegativeReportsInOrder | scripts/src/reconcile.core.ts:86-98 | one report for each negative key, in order of first occurrence |
| Reconcile.AggregateReportsExactly | scripts/src/reconcile.core.ts:118-131 | for any list of totals, a report is listed if and only if it is the report on one of them that differs from the signed sum of its tier's events |
| Reconcile.AggregateReportsInOrder | scripts/src/reconcile.core.ts:118-131 | one report for each total that differs, in the order given |
| Reconcile.ReconcileAggregateBalances | scripts/src/reconcile.core.ts:107-132 | exactly the totals that differ from the signed sum of their tier's events are listed, in the order given |
| Reconcile.ReconcileHarvestSplits | scripts/src/reconcile.core.ts:142-167 | the loop lists the reports that `HarvestReportsInOrder` describes; a record is listed if and only if its parts do not make the whole |
| Reconcile.ZeroHarvestPaysNothing | scripts/src/reconcile.core.ts:145-155 | with nothing harvested a record adds up if and only if both parts are zero |
| Reconcile.HarvestReportsInOrder | scripts/src/reconcile.core.ts:142-167 | one report for each record that does not add up, in the order given |
| ReconcileTheorems.LogAgreesWithHoldings | scripts/src/reconcile.core.ts:64-100 | the full log of any run folds to exactly the tokens each vault holds less what came by other ways than the router, and the per-asset check reports nothing |
| ReconcileTheorems.MismatchOfOneTier | scripts/src/reconcile.core.ts:107-132 | on the log of any run one tier's total is reported if and only if some successful early exit of it outside an emergency had amount times rate of at least one unit, and the difference is the sum of the floored fees |
| ReconcileTheorems.AggregateMismatchIsTheFees | scripts/src/reconcile.core.ts:107-132 | for any list of vaults the check reports, in that order, exactly those with such an exit, each off by the sum of its fees |
| ReconcileTheorems.FourVaultsMismatch | scripts/src/reconcile.core.ts:118-131 | with all four vaults the reports are those of L3, L6 and L12 one after another, and Flex is never among them |
| ReconcileTheorems.ThreeCallsMismatch | scripts/src/reconcile.core.ts:107-132 | from initialisation, a deposit into any locked tier and an early exit make the aggregate check report that tier |
| ReconcileTheorems.FlexNeverMismatches | contracts/vault_flex/src/lib.rs:105-110 | Flex never charges a fee in any run, and the aggregate check never reports it |
| ReconcileTheorems.LogOrderIsIrrelevant | scripts/src/reconcile.core.ts:64-73 | any reordering of a run's log folds to the same amounts |
| StrategyVaults.SetAllocationKeepsCaps | contracts/strategy_vault/src/lib.rs:168-205 | an accepted allocation keeps all shares in range, on allowed pools and within 100% in sum, if and only if it is not negative |
| StrategyVaults.SharesSumInAnyOrder | contracts/strategy_vault/src/lib.rs:186-193 | iterating the map in any order adds up to the same sum |
| StrategyVaults.TargetsFollowShares | contracts/strategy_vault/src/lib.rs:255-260 | the floored targets stay below the exact shares by less than one unit a pool |
| StrategyVaults.PaymentsAreCovered | contracts/strategy_vault/src/lib.rs:255-264 | within the caps every transfer of the loop is covered by the running balance, and each pool gets its target |
| StrategyVaults.RebalancePays | contracts/strategy_vault/src/lib.rs:225-265 | a rebalance within the caps succeeds, pays each pool exactly its target and conserves tokens |
| StrategyVaults.RebalanceKeepsBuffer | contracts/strategy_vault/src/lib.rs:225-265 | at least the floored buffer stays idle, no pool gets more than 35% of the rest, and rounding leaves behind less than one unit a pool, for any iteration order |
| StrategyVaults.RebalanceGainsExactly | contracts/strategy_vault/src/lib.rs:242-264 | in the holdings before and after: with r the floor of total * buffer / 10000, at least r stays idle, each pool gains the floor of (total - r) * bps / 10000 and nobody else gains |
| StrategyVaults.DefaultBufferIsFivePercent | contracts/strategy_vault/src/lib.rs:9 | unless set otherwise one twentieth, rounded down, is reserved |
| StrategyVaults.RebalanceTraps | contracts/strategy_vault/src/lib.rs:242-245 | a buffer product that does not fit 128 bits stops the rebalance |
| StrategyVaults.PaymentsMustFit | contracts/strategy_vault/src/lib.rs:257-260 | a target product that does not fit stops all payments |
| StrategyVaults.RebalanceIgnoresOrder | contracts/strategy_vault/src/lib.rs:255-264 | the iteration order changes nobody's holding |
| StrategyVaults.PayPoolsFails | contracts/strategy_vault/src/lib.rs:255-264 | the first payment that fails decides the outcome of the whole rebalance |
| StrategyVaults.CheckedOthers | contracts/strategy_vault/src/lib.rs:186-193 | the loop gives the sum of the other shares, or traps if and only if some partial sum overflows |
| StrategyVaults.WithinCapsSumsFit | contracts/strategy_vault/src/lib.rs:186-200 | within the caps no iteration order makes a sum overflow |
| StrategyVaults.SetAllocationAnswers | contracts/strategy_vault/src/lib.rs:168-205 | accepted if and only if the admin asks for an allowed pool, at most 35%, no sum overflows, and others plus the new share are at most 100%; each refusal exactly when it applies; one share changes |
| StrategyVaults.MakePayments | contracts/strategy_vault/src/lib.rs:255-264 | the loop over the pools makes the transfers in order, or stops at the first failure |
| StrategyVaults.StrategyVault.constructor | contracts/strategy_vault/src/lib.rs:35-55 | a fresh vault has no pools, no allocations and a 5% buffer |
| StrategyVaults.StrategyVault.AllowPool | contracts/strategy_vault/src/lib.rs:75-86 | the admin, and nobody else, adds one pool |
| StrategyVaults.StrategyVault.SetBufferBps | contracts/strategy_vault/src/lib.rs:95-101 | accepted if and only if the admin asks for a value in [0, 10000] |
| StrategyVaults.StrategyVault.SetAllocation | contracts/strategy_vault/src/lib.rs:168-205 | checks admin, pool, 35%, overflow on the way and 100% in that order; the loop's total is the sum over the map, whatever the iteration order |
| StrategyVaults.StrategyVault.Rebalance | contracts/strategy_vault/src/lib.rs:225-265 | only the harvester; all payments or none |
| Governance.TimelockedGovernance.constructor | contracts/governance/src/lib.rs:100-113 | the given roles and no proposals |
| Governance.TimelockedGovernance.Propose | contracts/governance/src/lib.rs:119-144 | the strategist adds a pending proposal under the next id; bps out of range and a spent id space are refused |
| Governance.TimelockedGovernance.Veto | contracts/governance/src/lib.rs:149-171 | the guardian turns a pending proposal into a vetoed one and changes nothing else |
| Governance.TimelockedGovernance.Execute | contracts/governance/src/lib.rs:177-226 | a pending proposal past its timelock takes effect here and in the strategy vault and is marked executed; a failing callee leaves both contracts unchanged |
| GuardianMultisig.GuardianMultisig.constructor | contracts/guardian_multisig/src/lib.rs:58-73 | the given owners and threshold and no confirmations |
| GuardianMultisig.GuardianMultisig.ConfirmVeto | contracts/guardian_multisig/src/lib.rs:84-135 | one more confirmation, or at the threshold the veto and an empty round; a failing veto takes the confirmation back |
| GovernanceTheorems.InvariantStep | contracts/governance/src/lib.rs:119-226 | every successful step keeps executions sound and complete, powers traceable, allocations capped and rounds open |
| GovernanceTheorems.PowersComeFromExecutedProposals | contracts/governance/src/lib.rs:196-226 | after every run strategist and guardian are the fold of the executed proposals in order of execution, and so is the allocation map when governance administers it |
| GovernanceTheorems.ExecutionsWaitAndHappenOnce | contracts/governance/src/lib.rs:184-226 | every execution came at least 51,840 ledgers after its proposal, of its own action, once, and the proposal is marked executed and hence was never vetoed |
| GovernanceTheorems.DecisionsAreFinal | contracts/governance/src/lib.rs:163-186 | an executed or vetoed proposal never changes again in any run |
| GovernanceTheorems.AllocationsStayWithinCaps | contracts/strategy_vault/src/lib.rs:168-205 | in whatever order pending proposals execute, every share stays in [0, 3500] on an allowed pool and the sum at most 10,000 |
| GovernanceTheorems.GovernanceCannotAllowPools | contracts/strategy_vault/src/lib.rs:75-86 | with governance as admin the allowed pools never change in any run; starting from none no allocation ever changes |
| GovernanceTheorems.ListedOwnersConfirmed | contracts/guardian_multisig/src/lib.rs:84-125 | in every run from initialisation each owner listed for a round has confirmed in it by a successful call of its own |
| GovernanceTheorems.VetoTakesTheThreshold | contracts/guardian_multisig/src/lib.rs:127-134 | in every run, when a call vetoes a pending proposal while the multisig is guardian, exactly `threshold` distinct owners have confirmed that veto by calls of their own, and however the run goes on no execution of the proposal succeeds |
| GovernanceTheorems.ClosedRoundsCannotComplete | contracts/guardian_multisig/src/lib.rs:127-134 | in every reachable state a confirmation on a proposal that is not pending succeeds only below the threshold and changes no proposal |
| GovernanceTheorems.PoolsGrowExactly | contracts/strategy_vault/src/lib.rs:75-86 | some run adds a pool if and only if the strategy vault's admin is an account |
| GovernanceTheorems.TooFewOwnersNeverVeto | contracts/guardian_multisig/src/lib.rs:58-73 | with fewer distinct owners than the threshold no confirmation changes any proposal |
| GovernanceTheorems.EnoughOwnersCanVeto | contracts/guardian_multisig/src/lib.rs:84-135 | with enough distinct owners some sequence of confirmations vetoes any pending proposal |
| GovernanceAnswers.TimelockIsThreeDays | contracts/governance/src/lib.rs:6 | the timelock is 72 hours of ledgers at 5 s |
| GovernanceAnswers.ProposeAnswers | contracts/governance/src/lib.rs:119-144 | accepted if and only if the strategist proposes something in range and an id is left; it adds one pending proposal at the current ledger and nothing else |
| GovernanceAnswers.VetoAnswers | contracts/governance/src/lib.rs:149-171 | accepted if and only if the guardian vetoes a pending proposal; it changes that status and nothing else |
| GovernanceAnswers.ExecuteWaits | contracts/governance/src/lib.rs:177-194 | refused exactly for a missing proposal, one not pending, and one within 51,840 ledgers of its making; a refusal changes nothing |
| GovernanceAnswers.RoleUpdatesExecute | contracts/governance/src/lib.rs:206-215 | after the wait a role update always succeeds and sets that role only |
| GovernanceAnswers.TierParamsNeedTheCallee | contracts/governance/src/lib.rs:216-224 | after the wait a tier parameter succeeds if and only if the tier vault's setter does; otherwise the proposal stays pending |
| GovernanceAnswers.AllocationsNeedTheVault | contracts/governance/src/lib.rs:197-205 | after the wait an allocation succeeds if and only if governance is the vault's admin, the pool allowed, the share at most 35%, no sum overflows and the total is at most 100%; otherwise the proposal stays pending |
| GovernanceAnswers.ExecuteMarksOne | contracts/governance/src/lib.rs:222-226 | a success marks this proposal executed and touches neither another nor the multisig |
| GovernanceAnswers.ConfirmVetoAnswers | contracts/guardian_multisig/src/lib.rs:84-135 | accepted if and only if an owner confirms for the first time in the round and, when that completes the round, the veto succeeds |
| GovernanceAnswers.RoundsAreIndependent | contracts/guardian_multisig/src/lib.rs:102-134 | no step but a confirmation in a round changes the round's list |
| GovernanceAnswers.ProposalsComeFromCalls | contracts/governance/src/lib.rs:119-144 | in every run each proposal was made by a call of the strategist of that moment, at the ledger it names and with the action it has |
| GovernanceAnswers.ExecutedLongAfterItsCall | contracts/governance/src/lib.rs:188-194 | in every run each executed action was proposed by such a call at least 51,840 ledgers before |
| Harvesting.Harvester.constructor | contracts/harvester/src/lib.rs:34-47 | a fresh harvester has never harvested |
| Harvesting.Harvester.Harvest | contracts/harvester/src/lib.rs:58-128 | refines the harvest step: cooldown, empty harvest, or bounty to the caller and remainder to the strategy |
| Harvesting.HarvestIsCovered | contracts/harvester/src/lib.rs:99-116 | a harvest never lacks tokens, empties the harvester and conserves the supply |
| Harvesting.HarvestAnswers | contracts/harvester/src/lib.rs:72-127 | a harvest succeeds if and only if the ledger has reached the saturated sum and ten times the yield fits; it records the present ledger and the whole yield |
| Harvesting.HarvestPaysItsRecord | contracts/harvester/src/lib.rs:99-127 | a harvest moves its recorded bounty to the caller and its recorded remainder to the strategy, and touches no other holding |
| Harvesting.RunsPayTheirRecords | contracts/harvester/src/lib.rs:58-128 | over any run the strategy receives the recorded remainders, each caller the bounties of its own harvests, and all that arrived is in a record or still there |
| Harvesting.BountiesAreTenBps | contracts/harvester/src/lib.rs:98-103 | over any run bounties come to the floor of 10 bps of all that was harvested or at most n - 1 units less, the strategy receives the rest in tokens, and harvested plus left over is what arrived |
| Harvesting.HarvestsAreSpaced | contracts/harvester/src/lib.rs:72-76 | successive harvests are at least a cooldown apart unless the addition saturates, and then the later one is at the last ledger or past it |
| Harvesting.HarvestsReconcile | scripts/src/reconcile.core.ts:142-167 | no harvest of any run is reported by the split check |
| PaymentIntents.KeysNeverCollide | app/src/lib/paymentIntent.ts:98-104 | no intent record and no lock share a storage key, whatever the strings in them |
| PaymentIntents.IntentKeyInjective | app/src/lib/paymentIntent.ts:98-100 | different intents have different storage keys |
| PaymentIntents.LockKeysAgree | app/src/lib/paymentIntent.ts:102-104 | two operations share a lock if and only if their kinds and the texts "address:tier" agree |
| PaymentIntents.LockKeyInjective | app/src/lib/paymentIntent.ts:102-104 | with no colon in addresses each operation has a lock of its own |
| PaymentIntents.ColonsCanCollide | app/src/lib/paymentIntent.ts:102-104 | with a colon in an address two different operations can share a lock |
| PaymentIntents.StatusesFallInThree | app/src/lib/paymentIntent.ts:127-129 | which statuses are terminal, which are active and which may begin |
| PaymentIntents.CreatedAsAsked | app/src/lib/paymentIntent.ts:131-155 | a created intent is stored idle with the operation, asset and amount asked for, and nothing else is touched |
| PaymentIntents.NoncesSeparate | app/src/lib/paymentIntent.ts:117-125 | two keys for the same action are equal if and only if the nonces are |
| PaymentIntents.KeysTellTheirParts | app/src/lib/paymentIntent.ts:117-125 | where no part contains a colon, equal keys mean equal kind, address, tier, asset, amount and nonce |
| PaymentIntents.CreateIntent | app/src/lib/paymentIntent.ts:131-155 | stores a new idle intent under its own key |
| PaymentIntents.FindActiveIntent | app/src/lib/paymentIntent.ts:224-234 | returns what the lock leads to unless it has ended; `FindActiveIsScan` says what that is |
| PaymentIntents.BeginSubmission | app/src/lib/paymentIntent.ts:252-287 | granted if and only if the stored status allows it and no other unfinished intent holds the lock; then the intent is building and holds the lock, otherwise nothing changes |
| PaymentIntents.Transition | app/src/lib/paymentIntent.ts:359-368 | writes the patch over the stored record, not over the caller's copy |
| PaymentIntents.End | app/src/lib/paymentIntent.ts:316-357 | the same, and releases the operation's lock |
| PaymentIntents.RunPaymentSubmission | app/src/lib/paymentFlow.ts:150-182 | does to the store exactly what `Attempted` says and returns the stored intent |
| PaymentIntents.EveryBranchEnds | app/src/lib/paymentFlow.ts:150-182 | the intent ends terminal with the lock released and no other entry disturbed; confirmed if and only if nothing threw, expired if and only if the first call without a value timed out, otherwise failed with exactly the thrown message; the hash is kept if there was one |
| PaymentTabs.GrantedMeansFree | app/src/lib/paymentIntent.ts:262-276 | a granted submission finds the operation's lock free |
| PaymentTabs.WriteKeepsStore | app/src/lib/paymentIntent.ts:359-368 | one write to a record and its lock keeps every lock naming an active intent and every active intent locked |
| PaymentTabs.InvariantStep | app/src/lib/paymentIntent.ts:252-368 | every storage call of every tab, and closing a tab at any point, keeps locks, attempts and hashes in agreement |
| PaymentTabs.ReachableInvariant | app/src/lib/paymentIntent.ts:252-368 | they agree after every interleaving of any number of tabs |
| PaymentTheorems.FindActiveIsScan | app/src/lib/paymentIntent.ts:224-234 | in every reachable store reading the lock finds an intent if and only if a scan of all records would, and the lock exists exactly when there is one |
| PaymentTheorems.AtMostOneActive | app/src/lib/paymentIntent.ts:237-251 | at most one intent of an operation is between building and pending |
| PaymentTheorems.FoundIntentIsOfTheOperation | app/src/lib/paymentIntent.ts:224-234 | without colons in addresses the intent found belongs to the very operation asked for |
| PaymentTheorems.GrantedExactlyWhenFree | app/src/lib/paymentIntent.ts:252-276 | in every reachable store a submission is granted if and only if the intent is not confirmed and no intent of the operation is active |
| PaymentTheorems.AttemptsNeverOverlap | app/src/lib/paymentIntent.ts:237-251 | two attempts under way are never about the same operation |
| PaymentTheorems.StepFollowsLifecycle | app/src/lib/paymentIntent.ts:5-10 | every step of every tab moves an intent's status along one edge of the life cycle or not at all |
| PaymentTheorems.StatusHistoryIsAPath | app/src/lib/paymentIntent.ts:5-10 | so at every point of every run: created idle, retried only from failed or expired, nothing after confirmed |
| PaymentTheorems.ConfirmedIsFinal | app/src/lib/paymentIntent.ts:262-268 | a confirmed record never changes again in any run |
| PaymentTheorems.SubmittedCarriesItsHash | app/src/lib/paymentIntent.ts:296-302 | submitted, pending and confirmed intents carry the hash that their latest submission returned |
| PaymentTheorems.OpenTabsFinish | app/src/lib/paymentFlow.ts:150-182 | however tabs interleave and calls end, an attempt whose tab stays open is over by its fourth turn, terminal and unlocked |
| PaymentTheorems.StepsFollowTheSubmission | app/src/lib/paymentFlow.ts:150-182 | left to itself an attempt's steps do exactly what the submission method does |
| PaymentTheorems.ProceedAnswers | app/src/lib/paymentFlow.ts:150-182 | each step of a tab stores exactly the next mark: only a time-out expires, only an error fails, with its message, and only a confirmation confirms |
| PaymentTheorems.CreateStores | app/src/lib/paymentIntent.ts:131-155 | creating under a new key stores the idle intent and disturbs no other |
| PaymentTheorems.BeginAnswers | app/src/lib/paymentIntent.ts:252-287 | in every reachable state beginning starts an attempt if and only if the intent is not confirmed, none of its operation is active and the tab is free; otherwise nothing changes |
| PaymentTheorems.ClosingOrphans | app/src/app/deposit/page.tsx:112-120 | closing a tab in the middle of an attempt leaves an active intent that nobody works on |
| PaymentTheorems.OrphansBlockTheirOperation | app/src/app/deposit/page.tsx:112-129 | such an intent never changes again and no intent of its operation is ever granted a submission |
| PaymentTheorems.EndsExactlyIfWorkedOn | app/src/app/deposit/page.tsx:112-129 | from any reachable state an active intent can still end if and only if some open tab works on it |
| Polling.BackoffFloor | sdks/typescript/src/transactions.ts:250-253 | each sleep is at least the smaller of base interval and cap, and at most the cap |
| Polling.ClockAdvances | sdks/typescript/src/transactions.ts:230-255 | by poll k at least k such sleeps have passed |
| Polling.DeadlinePassed | sdks/typescript/src/transactions.ts:243-248 | by the last poll of the bound the deadline has passed |
| Polling.WaitForTransaction | sdks/typescript/src/transactions.ts:220-256 | stops at the first decisive poll, within ceil(timeout / min(base, 5000)) + 1 polls, and reports pending and then the one terminal status that poll means |
| Polling.TraceIsDetermined | app/src/services/rpc.ts:284-320 | replies and clock determine where polling ends, so every loop with the contract of `WaitForTransaction`, which is both copies of the code, ends at the same poll |
| Polling.OutcomesAreEarned | sdks/typescript/src/transactions.ts:233-248 | confirmed only on SUCCESS, failed only on FAILED, expired if and only if every poll was NOT_FOUND, and then past the deadline |
| Polling.OutcomeMatchesReport | sdks/typescript/src/transactions.ts:233-248 | resolving, failing and timing out go with confirmed, failed and expired, and each with its reply |
| Polling.OvershootIsBounded | sdks/typescript/src/transactions.ts:245-254 | giving up is late by at most one capped sleep and the lag of the last poll |
| Polling.KeptOnlyToTheInstant | sdks/typescript/src/transactions.ts:245-248 | whatever polls and sleeps take, a wait that gives up is within its timeout if and only if some poll ends on the deadline to the millisecond |
| Polling.TimeoutKeptExactly | sdks/typescript/src/transactions.ts:245-254 | with punctual sleeps it is so if and only if the timeout is the sum of the first few sleeps |
| Polling.DefaultsOvershoot | app/src/lib/paymentFlow.ts:150-162 | with the default interval, neither the default timeout of 60000 nor the submission's 20000 is ever kept: both give up 4500 late |
| Polling.TimeoutIsNoHardCap | sdks/typescript/src/transactions.ts:127-128 | such waits exist for both timeouts |
| InFlight.TransactionPipeline.Invoke | sdks/typescript/src/transactions.ts:183-208 | joins the submission in flight under the key, or starts one and remembers it under a key that is not empty |
| InFlight.TransactionPipeline.Release | sdks/typescript/src/transactions.ts:198-204 | removes the entry of the settled promise if the entry is its own |
| InFlight.InvariantStep | sdks/typescript/src/transactions.ts:183-208 | every invoke, settle and release keeps the map holding exactly the unreleased keyed submissions, each under its own key |
| InFlight.SubmissionsNeverOverlap | sdks/typescript/src/transactions.ts:183-208 | in any interleaving two runs under one key are never in progress together |
| InFlight.ReleaseRemovesItsOwnEntry | sdks/typescript/src/transactions.ts:198-204 | a release always finds its own entry and removes no other |
| InFlight.CallsJoinExactlyWhileShared | sdks/typescript/src/transactions.ts:185-195 | a call joins a run if and only if an unreleased one has its key; otherwise it starts its own |
| InFlight.SharedUntilReleased | sdks/typescript/src/transactions.ts:194-205 | no step but its own release ends the sharing of a submission |
| InFlight.CallsShareThePromise | sdks/typescript/src/transactions.ts:183-208 | two calls with one key get the same promise unless it was released between them |
| InFlight.ResultsAreFinal | sdks/typescript/src/transactions.ts:192-207 | a settled result never changes, so all who share a promise see the same |
| InFlight.ReleasedKeysStartAfresh | sdks/typescript/src/transactions.ts:196-204 | after the release the next call with the key starts a new run |
| InFlight.OwnRequestExactly | sdks/typescript/src/transactions.ts:183-195 | in every run a call is given a submission of its own request if and only if no submission shared under its key is for another request |
| InFlight.UnkeyedCallsStandAlone | sdks/typescript/src/transactions.ts:184-207 | without a key every call starts its own run and leaves nothing to join |
| InFlight.FirstSettlingDecides | sdks/typescript/src/transactions.ts:196-207 | the first settling gives the result, a later one changes nothing |
| InFlight.SharedCallsDropTheirRequest | sdks/typescript/src/transactions.ts:185-190 | a second call with the same key and another request gets the first request's promise |

## Left out

- Pages, components, hooks, charts, notifications, mock data: no state beyond what the intents hold.
- Network calls, transaction building and signing, encodings, session and wallet handling: only their outcomes appear, as parameters.
- Authorisation internals, storage lifetimes, deposit checkpoints: a caller is the registered address or not; checkpoints are written and never read by the vaults, except that the next-ledger sum of a Flex deposit can overflow, which is modelled.
- `contracts/position_token`, and the effect of `UpdateTierParam`: the tier vaults implement neither `set_withdrawal_auth` nor `set_tier_param`; the latter call may succeed or fail and changes nothing in the model.
- Yield accrual to positions, redistribution of exit fees, forwarding to the strategy: described in the repository's documentation, with no code behind them.
- Limits of a receiver in the token contracts: a transfer fails only for a negative or uncovered amount. Between calls wallets can change in any way, and tokens can reach a vault's account directly.
- Events are published by the router's methods here, by the vaults in the code; the vaults and the router share one governance and one guardian address.
- Read-only entry points (`position`, `vault_capacity`, `remaining_capacity`, counters): they only return stored fields.
- `deposit_capital`, `withdraw_capital`, `set_harvester`, `register_tier_vault` of the strategy vault: single guarded transfers and setters. The harvester sends its remainder by a plain transfer, not through `deposit_capital`.
- `reconcileSdkVsChain`, `runReconciliation`, the fetching of events: a pairwise comparison, a concatenation and network access.
- StrategyVaults.StrategyVault.SetAllocation: `order` stands for the host's iteration order of the stored map, and must list each stored pool once.
- StrategyVaults.RebalanceKeepsBuffer: assumes that the holding times 10,000 fits 128 bits, as the contract's checked products do; `Rebalance` itself models the trap.
- VaultTheorems.LockedTiersNeverOverflow: says nothing about Flex, which has no cap and whose total can grow until a sum traps.
- VaultTheorems.EveryRunIsSolvent: assumes non-negative exit amounts, because it is false otherwise; `SignDecidesBacking` is the exact statement.
- PaymentTabs.InvariantStep: each storage function is one atomic step, although the browser does not promise this across tabs; nonces are unique, so creating an intent under a stored key is not possible.
- PaymentIntents.BeginSubmission: records are values, so unparsable text in the store, `clearIntent`, eviction by the browser and the two time stamps are not modelled.
- PaymentIntents.RunPaymentSubmission: the classification of other errors is a parameter, the message of `Threw`.
- Polling.WaitForTransaction: assumes a base interval of at least one millisecond and a clock that advances by at least each sleep; without them the loop has no bound. Errors thrown by the poll end it as `Unreachable`.
- InFlight.TransactionPipeline.Release: settling a promise and the moment its handler runs belong to the runtime; they are free steps of the model.
