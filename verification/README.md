# CoralSwap in Dafny

A Dafny 4.11 model of CoralSwap's constant-product exchange and proofs about it. `dafny verify dfyconfig.toml`
checks everything.

| module | what it models |
|---|---|
| `Base`, `Arith` | results, `i128`/256-bit checks, truncating division, wrapping; facts about floor division |
| `Quotes` | the exact-in and exact-out quotes shared by pair and router |
| `PairMath` | Newton square roots, share formulas, the closed-form split of a single-sided deposit |
| `DynamicFee` | the capped moving average behind the fee, and its decay loop |
| `Ledgers`, `LpToken` | token balances; the liquidity token, as functions and as a contract class |
| `Oracle` | the prunable ring of price samples and the interpolating window query |
| `PairModel` | the pair as a transition system: world, entry points, actions, runs |
| `PairSafety`, `PairAccounting`, `PairHolding`, `PairShares`, `PairPricing`, `PairOneToken` | theorems about steps and runs of the pair |
| `PairExamples` | concrete runs: reachable starting states, and the inputs on which documented properties fail |
| `PairContract` | the pair as a class whose methods refine the transition functions, reentrancy lock included |
| `RouterPaths`, `RouterSearch` | path pricing forwards and backwards, deposit amounts, route search |
| `RouteExecution` | quoted routes against the pairs they run through |
| `CommitReveal` | the router's commit table |

How to read it:

- A function or step returns `Ok` with the new state or `Err`; the host rolls back on an error, so `Err` means nothing
  changed. A panic, a failing cross-contract call made without `try_`, and a missing authorization are the error `Trap`.
- Integers are mathematical; every checked operation of the source is an explicit range test with the source's error.
- A *run* (`PairModel.Run`) is any sequence of `Action`s by anybody, in any order: every entry point of the pair except the
  single-token deposit, as well as any direct call on the liquidity token, transfers of the pool tokens, the factory's switches and
  the passage of time. A flash loan carries its callback as a nested sequence of the same actions, to any depth.
- The address `PAIR` is the pair; nobody else authorizes as it. The factory is an input of each swap (`FactoryView`), with an
  override of at most 100%; the factory's own cap of 1% is narrower.
- Classes (`Pair`, `LpTokenContract`, `FeeEngine`, `OracleState`, `RouterCommits`) hold the stored fields and rewrite them
  statement by statement; their contracts equate the new state with the specification function, and the lemmas are about
  those functions.
- `Live` (initialized, seeded, invariant) is the hypothesis of the share theorems; `LivePairIsReachable` shows a run that reaches it.
- `SeedFirst` is the hypothesis of the safety theorems before the pair is seeded: an action whose direct burns, callback included,
  create shares must also send the pair a seed's worth of them. Once seeded nothing is asked. `StepIsSafeExactly` shows that the
  condition is exact for every action, flash loans included; `CallbackCanSeed` is a callback that meets its second half.

## Where the code and its documentation differ

The model follows the code.

- `SECURITY.md` (invariant 2) says recorded reserves equal real balances after every operation. Both burns subtract the payout from
  the recorded reserve, so they keep an earlier difference, and a protocol cut paid to the pair itself stays unrecorded.
  `ReservesMatchBalances` gives the exact difference, `BurnLeavesADifference` a run on which it shows.
- `SECURITY.md` (invariant 3) says the pair always holds exactly the seed. It holds the seed, everything staged, and whatever was sent
  to it directly: `HoldingAccounted` says exactly which actions change that remainder, `HoldsExactlySeedAndStages` that runs without raw
  transfers of shares to the pair keep it at zero, and `RawTransferBreaksExactness` that one such transfer does not.
- The same invariant says that dividing by the supply less the seed keeps the seed's proportional reserves locked. It does the opposite:
  the redeemable shares own the whole reserves. `BurnLeavesSeedShareExactly` says how few shares a burn may redeem for the seed's part to
  stay, `LastBurnEmptiesThePool` redeems all of them and leaves the seed over nothing.
- Mints price shares over the total supply and burns redeem them over the supply less the seed, so a mint can lower what the other shares
  redeem for. `MintKeepsRedeemableValueExactly` says when it does not, `MintThenBurnPaysExactly` when minting and burning at once pays at
  least, or more than, the deposit, and `MintThenBurnProfits` is a case that pays 10_526 for 10_000.
- `SECURITY.md` (invariant 4) says only the pair burns LP tokens. Any holder may burn its own, and the token accepts a negative amount,
  which creates shares. `OutsideLpIsSafeExactly` says when that breaks the pair (only before the seed, as in
  `NegativeBurnBeforeTheSeed`), `DirectCallKeepsValueExactly` when it dilutes the other shares (`NegativeBurnDilutes`).
- `SECURITY.md` (invariant 8) says the oracle's accumulators are checked and updated by every operation. They wrap, and no entry point
  calls the update. `AccumulatorsExactWhile` says exactly how long they are the summed price, `AccumulatorWraps` gives two updates after
  which they are not; window queries stay right across such wraps (`TwapOverEveryRun`).
- A comment in `reveal_swap` says an expired commit's slot is freed. The function then returns an error, which undoes that:
  `ExpiredEntryEndsExactly` and `ExpiredEntryStays` show that only a prune or the sender's next commit ends an expired entry.
- The comment on `commit_swap` says overwriting an expired commit reuses its slot. `OverwriteNeedsASlot` says exactly when it succeeds;
  at capacity it is refused, as in `FullTableRefusesOverwrite`.
- `mint_with_one_token` records its deposit on top of reserves that already include it. `DepositRecordedTwice` states by exactly how much every
  successful call leaves the recorded reserves above the balances, `OneTokenDepositSucceeds` gives a call that succeeds, and
  `SyncRestoresSolvency` says that a `sync` repairs it.
- The reserve floor of a swap is checked against what was requested, so a negative request hides a reserve that is already below it.
  `SwapEffects` says exactly when the floor holds, `FloorNeedsASign` is a run whose swap leaves a reserve of 500.
- The comment on `get_effective_fee_bps` says it returns the fee the next swap charges. The swap decays a stale fee first:
  `EffectiveFeeIsChargedExactly` says when the two are equal, `QuotedFeeAboveCharge` gives a quote of 50 charged as 40.

## Model

| member | source | states |
|---|---|---|
| Quotes.QuoteOutExact | contracts/shared/src/lib.rs:248-276 | an exact-in quote is the largest output on the pair's K curve; `Dust` means that largest output is zero; otherwise the only error is overflow |
| Quotes.QuoteInIsLeast | contracts/shared/src/lib.rs:286-316 | an exact-out quote is the least input whose trade is on the K curve |
| Quotes.QuotesAreAdjoint | contracts/shared/src/lib.rs:248-316 | paying x buys at least y exactly when x covers the exact-out quote of y and the forward quote of x fits |
| Quotes.ForwardOverflowsExactly | contracts/shared/src/lib.rs:258-268 | the forward quote overflows exactly when its numerator or denominator leaves `i128` |
| Quotes.QuoteInDefinedBelow | contracts/shared/src/lib.rs:286-316 | any target up to a successful forward quote can be quoted backwards without error and needs no more input |
| Quotes.OutFloorFeeMonotone | contracts/shared/src/lib.rs:320-325 | a higher fee never pays more |
| Quotes.TwoSwapsPayNoMore | contracts/shared/src/lib.rs:248-276 | two consecutive swaps at a fixed fee never pay more than one of the summed input, floors included |
| Quotes.SplittingPaysNoMore | contracts/shared/src/lib.rs:248-276 | the same for any number of parts |
| Quotes.RoundTripReturnsNoMore | contracts/shared/src/lib.rs:248-276 | swapping there and straight back never returns more than was put in |
| PairMath.NewtonSqrt | contracts/pair/src/math/mod.rs:164-175 | the Newton loop computes the integer square root, and the only sum in it that can leave the integer width is the first one, for the largest value |
| PairMath.Sqrt | contracts/pair/src/math/mod.rs:55-69 | `sqrt` is the integer root for every input but the negative ones and the one whose successor overflows, which panic; no other input does |
| PairMath.MulDivExact | contracts/pair/src/math/mod.rs:20-52 | `mul_div` is the exact truncated quotient of the full product, `None` exactly when it does not fit or the denominator is zero |
| PairMath.SubsequentLiquidityIsLargest | contracts/pair/src/math/mod.rs:119-137 | liquidity is the largest amount both deposits cover |
| PairMath.BurnAmountsFair | contracts/pair/src/math/mod.rs:144-161 | each payout is the floor of the exact share and the rest still covers the remaining shares |
| PairMath.DiscriminantNotMax | contracts/pair/src/math/mod.rs:164-175 | the 256-bit Newton loop is never started on the one value where `x + 1` overflows |
| PairMath.SwapInIsLargestRoot | contracts/pair/src/math/mod.rs:230-294 | below a 100% fee the split is the largest integer root of the quadratic and less than the deposit; the defensive branches cannot fire and the only error is a discriminant beyond 256 bits |
| PairMath.ComputeSwapInForSingleSide | contracts/pair/src/math/mod.rs:230-294 | the computation with its loop refines that function |
| PairMath.ReceivedTokenIsScarce | contracts/pair/src/math/mod.rs:177-294 | after the quoted swap of the split the received token is the scarce side of the deposit |
| DynamicFee.FeeEngine.ApplyTimeDecay | contracts/pair/src/fee_decay.rs:25-66 | the decay loop with its early exit equals one floor division by divisor^periods |
| DynamicFee.FeeEngine.DecayStaleEma | contracts/pair/src/dynamic_fee.rs:132-138 | decay applies only past the stale threshold |
| DynamicFee.FeeEngine.UpdateVolatility | contracts/pair/src/dynamic_fee.rs:30-94 | the update refines `Updated`; a failed update leaves the fee state untouched |
| DynamicFee.DecayShrinks | contracts/pair/src/fee_decay.rs:25-66 | decay never raises or turns negative the accumulator and changes nothing but it and the update stamp |
| DynamicFee.DecayInertExactly | contracts/pair/src/dynamic_fee.rs:132-138 | exactly when decay changes nothing: within the stale threshold of the last stamp, without a positive accumulator, or before one period has passed |
| DynamicFee.StampSuspendsDecay | contracts/pair/src/dynamic_fee.rs:91-138 | an update stamps the timestamp, and no decay follows until the ledger number has caught up with it |
| DynamicFee.DecayNeverRaisesFee | contracts/pair/src/dynamic_fee.rs:106-138 | the fee after decay is at most the fee before it |
| DynamicFee.BlendFollowsAlpha | contracts/pair/src/dynamic_fee.rs:62-75 | alpha weighs the observation: none keeps the old value, all replaces it, larger observations never lower it |
| DynamicFee.ObservationFollowsSize | contracts/pair/src/dynamic_fee.rs:47-60 | larger trades weigh at least as much; a trade no larger than the pool observes at most the price change |
| DynamicFee.UpdateKeepsInv | contracts/pair/src/dynamic_fee.rs:30-94 | an update keeps the accumulator within [0, cap] and between old value, observation and cap |
| DynamicFee.FeeWithinBounds | contracts/pair/src/dynamic_fee.rs:106-125 | at or below the cap even the unclamped fee is at most the maximum |
| LpToken.TransferConserves | contracts/lp_token/src/lib.rs:537-573 | a transfer moves exactly the amount, keeps the supply, changes nothing when sent to oneself |
| LpToken.TransferFromConserves | contracts/lp_token/src/lib.rs:360-384 | a delegated transfer moves balances like a direct one and spends exactly the amount of a live allowance, unless owner and spender are the same |
| LpToken.ApproveSetsAllowance | contracts/lp_token/src/lib.rs:276-312 | an approval sets exactly that allowance until it expires and no other |
| LpToken.MintConserves | contracts/lp_token/src/lib.rs:390-433 | a mint credits the amount to one balance and the supply, whatever its sign, and keeps the invariant exactly if it leaves no negative balance |
| LpToken.BurnConserves | contracts/lp_token/src/lib.rs:437-468 | a burn debits the amount from one balance and the supply |
| LpToken.BurnFromConserves | contracts/lp_token/src/lib.rs:472-497 | a delegated burn does the same and spends the allowance |
| LpToken.RunConserves | contracts/lp_token/src/lib.rs:329-497 | over every run of token calls balances are positive and add up to the supply |
| LpToken.PausedRunMovesNothing | contracts/lp_token/src/lib.rs:120-165 | while paused no run of calls moves a balance or the supply |
| LpToken.LpTokenContract.TransferInternal | contracts/lp_token/src/lib.rs:537-573 | the in-place debit and credit refine the transfer function, self-transfers included |
| LpToken.LpTokenContract.SpendAllowanceOf | contracts/lp_token/src/lib.rs:576-619 | the in-place allowance update refines its function |
| LpToken.LpTokenContract.TransferTokens | contracts/lp_token/src/lib.rs:329-346 | refines `TransferLp`, pause check included |
| LpToken.LpTokenContract.TransferTokensFrom | contracts/lp_token/src/lib.rs:360-384 | refines `TransferLpFrom`; a failed transfer restores the allowance |
| LpToken.LpTokenContract.MintTokens | contracts/lp_token/src/lib.rs:390-433 | refines `MintLp`, both caps included |
| LpToken.LpTokenContract.BurnTokens | contracts/lp_token/src/lib.rs:437-468 | refines `BurnLp` |
| LpToken.LpTokenContract.BurnTokensFrom | contracts/lp_token/src/lib.rs:472-497 | refines `BurnLpFrom`; a failed burn restores the allowance |
| Oracle.DropOldest | contracts/pair/src/oracle/mod.rs:100-109 | advancing the head drops the oldest sample of the plain sequence |
| Oracle.AppendNewest | contracts/pair/src/oracle/mod.rs:68-79 | filling the next slot, dead or new, appends to the plain sequence |
| Oracle.ReplaceOldest | contracts/pair/src/oracle/mod.rs:80-85 | on a full ring, overwriting the head evicts the oldest and appends |
| Oracle.OracleState.SampleAt | contracts/pair/src/oracle/mod.rs:43-48 | `sample(i)` is the i-th element of the plain sequence |
| Oracle.OracleState.Push | contracts/pair/src/oracle/mod.rs:68-86 | push appends and drops the oldest beyond 24 |
| Oracle.OracleState.PruneExpired | contracts/pair/src/oracle/mod.rs:100-109 | prune drops exactly the expired prefix |
| Oracle.OracleState.Perform | contracts/pair/src/oracle/mod.rs:29-110 | every interleaving of pushes and prunes acts on the ring as on the plain sequence, slots never exceed 24 |
| Oracle.PrunedKeepsUnexpired | contracts/pair/src/oracle/mod.rs:88-109 | on samples in ledger order the dropped prefix is exactly the expired samples |
| Oracle.OracleState.UpdateCumulativePrices | contracts/pair/src/oracle/mod.rs:126-142 | the update refines `Observe` |
| Oracle.OracleState.ConsultTwap | contracts/pair/src/oracle/mod.rs:144-225 | the query loop refines `Consult` |
| Oracle.ConsultAnswersWhen | contracts/pair/src/oracle/mod.rs:144-225 | the query answers exactly when the window is in bounds, reaches back no further than the oldest sample and a sample is current, unless the interpolation overflows |
| Oracle.InterpolateExact | contracts/pair/src/oracle/mod.rs:186-204 | interpolation inside one interval is exact |
| Oracle.TwapIsWindowMean | contracts/pair/src/oracle/mod.rs:144-225 | a successful query is the mean of the per-ledger price over the window exactly when the sum over that window fits, even when accumulators wrapped |
| Oracle.TwapOverEveryRun | contracts/pair/src/oracle/mod.rs:126-225 | the same over every well-timed run of updates with the pruning and eviction it caused |
| Oracle.MeanBetween | contracts/pair/src/oracle/mod.rs:217-224 | the mean lies between the least and the greatest price of the window |
| Oracle.AccumulatorsExactWhile | contracts/pair/src/oracle/mod.rs:126-142 | over every run of updates an accumulator is the summed price modulo 2^128, so it is the summed price exactly while that fits |
| Oracle.AccumulatorWraps | contracts/pair/src/oracle/mod.rs:131-136 | two updates after which it is not |
| PairSafety.MintIsSafe | contracts/pair/src/lib.rs:235-306 | a mint keeps the invariant and conserves both tokens |
| PairSafety.DepositLpIsSafe | contracts/pair/src/lib.rs:555-578 | staging keeps it |
| PairSafety.BurnIsSafe | contracts/pair/src/lib.rs:604-697 | a burn keeps it |
| PairSafety.BurnSingleSideIsSafe | contracts/pair/src/lib.rs:703-859 | a single-sided burn keeps it |
| PairSafety.SettleKeepsProduct | contracts/pair/src/lib.rs:1053-1189 | a swap that settles never lowers the product of the reserves after the protocol cut, at any fee and protocol share up to 100% |
| PairSafety.SwapEffects | contracts/pair/src/lib.rs:1024-1261 | a successful swap never lowers the product, leaves each side at the floor of 1000 exactly if it has no negative request or its balance was there before, and records the real balances less a cut paid to the pair itself |
| PairSafety.LockRejects | contracts/pair/src/reentrancy.rs:12-59 | under the lock every guarded entry point errs, except the zero-amount flash loan, which does nothing |
| PairSafety.LockedRunHolds | contracts/pair/src/flash_loan.rs:178-200 | from any state, any nested run under the lock leaves pair state and stages alone, never lowers the pair's holdings, moves shares by exactly the flow of its direct calls, and keeps everything of the invariant but the seed's place |
| PairSafety.SnapshotStaysCurrent | contracts/pair/src/flash_loan.rs:135-263 | from any state and under any callback, the state read before it is still the stored state when it is written back |
| PairSafety.FlashFeeBounds | contracts/pair/src/flash_loan.rs:43-64 | the flash fee is the rate, at least 5 bps, rounded down but never to zero; free only at a zero fee |
| PairSafety.RepaidKeepsK | contracts/pair/src/flash_loan.rs:206-263 | with repayment verified the final K check cannot fail and each borrowed reserve grows by its fee |
| PairSafety.FlashLoanEffects | contracts/pair/src/flash_loan.rs:95-267 | given solvency and under any callback: the K check never fires, no stage moves, each reserve ends equal to its balance and at or above its old value plus the fee |
| PairSafety.FlashLoanIsSafeExactly | contracts/pair/src/flash_loan.rs:95-267 | a successful loan keeps the whole invariant exactly if the pair was seeded, the callback created no shares, or it sent the pair a seed's worth |
| PairSafety.OutsideLpIsSafeExactly | contracts/lp_token/src/lib.rs:329-497 | a direct call on the liquidity token keeps the pair safe exactly when the pair is seeded or the call burns no negative amount |
| PairSafety.NegativeBurnBeforeTheSeed | contracts/lp_token/src/lib.rs:437-468 | before the first mint a burn of -5000 succeeds and leaves a supply without a seed |
| PairSafety.StepIsSafe | contracts/pair/src/lib.rs:149-1022 | every action keeps the invariant, conserves both tokens and keeps a seeded pair seeded |
| PairSafety.StepIsSafeExactly | contracts/pair/src/lib.rs:149-1022 | for every action, flash loans included, the condition `SeedFirst` is exact |
| PairSafety.RunIsSafe | contracts/pair/src/lib.rs:149-1261 | over every run from a seeded state, and from any safe state if each step until the seed meets `SeedFirst`: solvency, `k_last` the product, LP and stage sums, the seed and all stages held, fee accumulator within its cap, lock free, both tokens conserved |
| PairAccounting.OthersNeverTouchAStage | contracts/pair/src/storage.rs:259-285 | over every run, from any state, in which somebody neither stages nor burns, its stage does not change |
| PairAccounting.BurnRedeemsOwnShares | contracts/pair/src/lib.rs:604-697 | a burn redeems exactly the caller's stage, or what is held beyond seed and stages, and pays the floor of that share to the caller |
| PairAccounting.MintCreditsDepositor | contracts/pair/src/lib.rs:235-306 | a later mint credits exactly the largest liquidity both deposits cover |
| PairAccounting.SwapPaysExactly | contracts/pair/src/lib.rs:1068-1152 | a swap pays the trader what was requested and the protocol its share of the fee, and moves nobody else's balance |
| PairAccounting.ReservesMatchBalances | contracts/pair/src/lib.rs:235-1022 | after an operation balances exceed recorded reserves by what was unrecorded before a burn, by the cut a swap paid to the pair itself, and otherwise by nothing |
| PairHolding.HoldingAccounted | contracts/pair/src/lib.rs:555-687 | every action accounts for the shares the pair holds beyond seed and stages: a burn without a stage takes them all, raw transfers add to them (less a seed's worth where a callback seeds the pair), nothing else changes them |
| PairHolding.HoldsExactlySeedAndStages | contracts/pair/src/lib.rs:604-677 | over every run without raw transfers of shares to the pair it holds exactly the seed and all stages |
| PairShares.MintKeepsReservesPerShare | contracts/pair/src/lib.rs:264-296 | a later mint never lowers either reserve per LP share of the total supply |
| PairShares.MintKeepsRedeemableValueExactly | contracts/pair/src/lib.rs:264-296 | exactly when a mint does not lower a reserve per redeemable share: the minted shares, priced over the redeemable supply, take no more than the deposit |
| PairShares.MintThenBurnPaysExactly | contracts/pair/src/lib.rs:235-697 | exactly when burning the minted shares pays at least the deposit, and exactly when it pays more |
| PairShares.BurnLeavesSeedShareExactly | contracts/pair/src/lib.rs:614-687 | a burn empties a side exactly if it redeems every redeemable share, and leaves the seed's proportional part exactly if it redeems few enough |
| PairShares.WorthOverEveryRun | contracts/pair/src/lib.rs:235-1022 | over every run, mints included, in which each mint prices its shares within the deposit, `k * B0^2 >= k0 * B^2` |
| PairShares.FirstMintIsGeometricMean | contracts/pair/src/lib.rs:269-273 | the first supply, seed included, is the integer root of the product of the deposits |
| PairShares.FirstMintSucceedsExactly | contracts/pair/src/lib.rs:235-306 | the exact arithmetic condition under which a first mint succeeds |
| PairExamples.LivePairIsReachable | contracts/pair/src/lib.rs:149-306 | initializing, depositing 10_000 of each token and minting reaches the state the share theorems start from |
| PairExamples.RawTransferBreaksExactness | contracts/lp_token/src/lib.rs:329-358 | one share sent straight to the pair and it holds more than seed and stages |
| PairExamples.BurnLeavesADifference | contracts/pair/src/lib.rs:604-697 | a reachable state in which a successful burn leaves balances above the recorded reserves |
| PairExamples.OneTokenDepositSucceeds | contracts/pair/src/lib.rs:359-534 | a reachable single-token deposit, and the 2166 and 1545 it records too much |
| PairExamples.NegativeBurnDilutes | contracts/lp_token/src/lib.rs:437-468 | in a seeded pair a burn of -5000 is safe but lowers what the other shares are worth |
| PairExamples.FloorNeedsASign | contracts/pair/src/lib.rs:1036-1047 | a run whose swap with a negative request leaves a reserve of 500 below the floor |
| PairExamples.CallbackCanSeed | contracts/pair/src/flash_loan.rs:178-200 | a flash-loan callback that creates shares before the seed and still ends safe, because it sends the pair 1000 of them |
| PairExamples.MintThenBurnProfits | contracts/pair/src/lib.rs:235-697 | depositing 10_000 of each token and burning the minted shares pays 10_526 of each |
| PairExamples.LastBurnEmptiesThePool | contracts/pair/src/lib.rs:614-687 | burning every redeemable share pays out both reserves whole |
| PairExamples.QuotedFeeAboveCharge | contracts/pair/src/lib.rs:956-968 | a stale pool that quotes 50 bps and charges 40 |
| PairExamples.RepeatedPairIsRejected | contracts/router/src/lib.rs:306-330 | a path that visits one pair three times, whose third hop fails the K check |
| PairShares.BurnGrows | contracts/pair/src/math/mod.rs:144-161 | a burn never lowers either reserve per redeemable share |
| PairShares.BurnSingleSideGrows | contracts/pair/src/lib.rs:745-850 | a single-sided burn never lowers the reserve product per squared redeemable share |
| PairShares.MintFreeRunGrows | contracts/pair/src/lib.rs:604-1022 | over every run that creates no shares `k * B0^2 >= k0 * B^2` with B the supply less the seed |
| PairShares.DirectCallKeepsValueExactly | contracts/lp_token/src/lib.rs:329-497 | a direct call on the liquidity token keeps it exactly when it burns no negative amount |
| PairShares.LaterBurnerGetsNoLess | contracts/pair/src/lib.rs:604-697 | after any run that neither trades nor creates shares the same shares redeem at least as much of each token |
| PairShares.LaterPayoutProduct | contracts/pair/src/lib.rs:604-1022 | with trades in between the product of the two payouts does not fall, up to one unit of rounding on each |
| PairShares.TradingTakesNothingOut | contracts/pair/src/lib.rs:865-901 | no run that creates no shares and ends at the same supply leaves one reserve lower without the other higher |
| PairPricing.SwapAcceptsExactlyTheQuote | contracts/pair/src/lib.rs:1053-1098 | with balances equal to reserves before the input, the K check accepts an output exactly when it is at most the quote at the charged fee |
| PairPricing.EffectiveFeeCoversCharge | contracts/pair/src/lib.rs:956-968 | the quoted fee is never below the charged fee; an override is charged as quoted and a dynamic fee stays within its bounds |
| PairPricing.EffectiveFeeIsChargedExactly | contracts/pair/src/lib.rs:944-968 | exactly when the quoted fee is the fee charged |
| PairPricing.AdmissibleTradePassesKCheck | contracts/pair/src/lib.rs:1079-1098 | any trade on the curve at the quoted fee passes the K check |
| PairPricing.QuotedOutputPassesKCheck | contracts/pair/src/lib.rs:956-1098 | so does any output quoted with the effective fee |
| PairPricing.BurnSingleSideNeverFailsK | contracts/pair/src/lib.rs:812-835 | a single-sided burn is never rejected by its own K check |
| PairPricing.SingleSideIsBurnThenSwap | contracts/pair/src/lib.rs:745-859 | a single-sided burn has the payout, pool, holdings, shares and stages of a stage, burn, transfer back and swap |
| PairPricing.SingleSideSucceedsExactly | contracts/pair/src/lib.rs:703-859 | once that longer route succeeds at the same fee, the single-sided burn succeeds for exactly the minimum outputs it can meet |
| PairOneToken.DepositRecordedTwice | contracts/pair/src/lib.rs:359-534 | a successful single-token deposit leaves each recorded reserve above the balance by that side's deposit, less a cut paid to the pair itself |
| PairOneToken.SyncRestoresSolvency | contracts/pair/src/lib.rs:1003-1022 | a successful sync restores the invariant |
| PairContract.Pair.MintFor | contracts/pair/src/lib.rs:235-306 | the entry point, lock included, refines `PairModel.Mint` |
| PairContract.Pair.StageLp | contracts/pair/src/lib.rs:555-578 | refines `DepositLp` |
| PairContract.Pair.BurnFor | contracts/pair/src/lib.rs:604-697 | refines `PairModel.Burn` |
| PairContract.Pair.BurnSingleSideFor | contracts/pair/src/lib.rs:703-859 | refines `BurnSingleSide` |
| PairContract.Pair.SwapFor | contracts/pair/src/lib.rs:865-876 | refines `Swap` |
| PairContract.Pair.SyncReserves | contracts/pair/src/lib.rs:1003-1022 | refines `Sync` |
| PairContract.Pair.FlashLoanTo | contracts/pair/src/flash_loan.rs:95-267 | refines `FlashLoan`, its callback running on the same object |
| PairContract.Pair.Acquire | contracts/pair/src/reentrancy.rs:12-20 | succeeds exactly when the lock was free, and leaves it held |
| PairContract.Pair.PerformAll | contracts/pair/src/lib.rs:149-1261 | any run of the contract is the run of the model and, on the terms of `RunIsSafe`, keeps its invariant |
| RouterPaths.GetPathAmountsOut | contracts/router/src/helpers.rs:209-233 | the forward loop refines `PathAmountsOut` |
| RouterPaths.GetPathMinimums | contracts/router/src/helpers.rs:244-281 | the backward loop refines `PathMinimums` |
| RouterPaths.GetRequired | contracts/router/src/lib.rs:397-413 | the exact-out walk refines `Required` |
| RouterPaths.PathQuotesAreAdjoint | contracts/router/src/lib.rs:397-416 | along any path the exact-out input is the least input whose forward quote delivers the target, among those whose forward quotes fit |
| RouterPaths.RequiredHopsAreAdmissible | contracts/router/src/lib.rs:397-449 | every hop of an exact-out swap requests an output on its pair's K curve |
| RouteExecution.RouteHopPassesKCheck | contracts/router/src/lib.rs:306-449 | along an exact-in or exact-out route over distinct pairs no hop is rejected by its pair's K check, after any number of hops that went through |
| RouterPaths.MinimumsCannotReject | contracts/router/src/helpers.rs:244-281 | once the end-to-end minimum passes, the backward walk cannot err and no hop falls below its minimum |
| RouterPaths.PriceExactIn | contracts/router/src/lib.rs:267-304 | the pricing of an exact-in swap is decided by the end-to-end comparison alone |
| RouterPaths.OptimalAmountsAreBalanced | contracts/router/src/helpers.rs:117-149 | deposit amounts of either sign stay within the desired ones and meet the minimum on the derived side; derived from zero or more, that side limits the LP minted |
| RouterSearch.InlineQuotesAgree | contracts/router/src/lib.rs:154-243 | the inline quotes of the search are the forward quotes of the same paths |
| RouterSearch.GetBestPath | contracts/router/src/lib.rs:135-251 | returns a route whose forward quote is the returned output and which no quotable direct, one-hub or two-hub route beats; errs exactly when none quotes |
| CommitReveal.RunCountsCommits | contracts/router/src/lib.rs:569-719 | over every run the count is the number of stored commits and at most 1000 |
| CommitReveal.NonceRevealedAtMostOnce | contracts/router/src/lib.rs:694-711 | each sender reveals each nonce successfully at most once |
| CommitReveal.EntryHasOrigin | contracts/router/src/storage.rs:61-71 | every stored entry comes from that sender's own commit, untouched since |
| CommitReveal.RevealConsumesCommit | contracts/router/src/lib.rs:673-719 | every successful reveal consumes a commit of exactly its payload by its sender, at least one ledger and at most the expiry earlier |
| CommitReveal.CommitConsumedOnce | contracts/router/src/lib.rs:705-710 | no commit is consumed by two reveals |
| CommitReveal.ExpiredEntryEndsExactly | contracts/router/src/lib.rs:635-690 | a reveal never ends an expired entry, a prune always does, a successful commit replaces it |
| CommitReveal.ExpiredEntryStays | contracts/router/src/lib.rs:569-719 | over every run an expired entry stays until a prune or its sender's next commit |
| CommitReveal.OverwriteNeedsASlot | contracts/router/src/lib.rs:569-591 | overwriting an expired commit succeeds exactly when a new sender's commit would, and after a prune exactly when that frees the missing slot |
| CommitReveal.FullTableRefusesOverwrite | contracts/router/src/lib.rs:576-585 | a full table that refuses it |
| CommitReveal.RouterCommits.CommitFor | contracts/router/src/lib.rs:569-591 | refines `CommitSwap` |
| CommitReveal.RouterCommits.Configure | contracts/router/src/lib.rs:595-616 | refines `SetConfig`, both hard caps included |
| CommitReveal.RouterCommits.RevealSwap | contracts/router/src/lib.rs:673-719 | refines `Reveal`, rolled back on every error |
| CommitReveal.RouterCommits.PruneExpired | contracts/router/src/lib.rs:635-648 | refines `Prune` |

## Left out

- PairShares.MintFreeRunGrows: excludes mints and direct burns of negative amounts; `WorthOverEveryRun` admits the mints that keep the inequality, `DirectCallKeepsValueExactly` shows such burns are the only direct calls that break it.
- PairPricing.SwapAcceptsExactlyTheQuote: one-sided requests paid to somebody other than the pair; says nothing about swaps rejected for other reasons (reserve floor, overflow, a failing transfer).
- PairPricing.SingleSideIsBurnThenSwap: the longer route has rejections of its own (its payouts and what they leave must reach the dust floor), so both routes are assumed to succeed; with a fee recipient, an earlier stage or a surplus in the pool the routes differ by the cut, the stage or the surplus.
- PairPricing.SingleSideSucceedsExactly: assumes the longer route succeeds and that its swap is charged the undecayed fee the single-sided burn uses.
- RouteExecution.RouteHopPassesKCheck: a hop may still be rejected for other reasons (reserve floor, overflow, a failing transfer), and token movements between pairs are taken as arrived.
- Oracle.TwapOverEveryRun: needs non-negative prices, a sum over the one interval the window starts inside that fits `i128`, and updates that pass the ledgers elapsed since the previous sample.
- CommitReveal.RouterCommits.RevealSwap: takes the result of the routed swap as an input.
- `mint_with_one_token` is not an action of runs, because its bookkeeping does not keep solvency; its split and its exact effect are proved separately.
- Factory deployment, registry, fee setters and upgrade timelock: the factory is an input.
- Signatures, `permit`, hashing and XDR: host calls; the commit hash is taken as injective.
- Storage lifetimes, events, naming checks, and the cumulative protocol-fee counters: no effect on the modelled state.
- Addresses of the pool tokens and the identity checks of `initialize`: one input says whether the tokens are allowed.
- Token movements of the router between hops, deadlines and `sweep`: the router is modelled up to pricing, search and the commit table; the swap a reveal ends with is an input.
- 64-bit overflow of ledger numbers and timestamps.
- Fee-on-transfer or otherwise inexact pool tokens, and issuers that mint, burn or claw back pool tokens.
- `bounded_pairs.rs`, `snapshot_view.rs`, `ttl_maintenance.rs` and `path_guard.rs` are not modules of their crates.
