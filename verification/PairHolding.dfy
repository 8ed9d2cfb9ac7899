/** What the pair holds of its own liquidity token: the seed, everybody's stages, and
    whatever was sent to it outside of `deposit_lp`. */
module PairHolding {
  import opened Base
  import opened PairMath
  import opened Ledgers
  import opened DynamicFee
  import opened LpToken
  import opened PairModel
  import opened PairSafety
  import opened PairAccounting

  /** Shares the pair holds beyond the seed and every stage. */
  function Loose(w: World): int {
    Bal(w.lp.balances, PAIR) - (if w.lp.totalSupply == 0 then 0 else MINIMUM_LIQUIDITY + w.pendingTotal)
  }

  /** A burn by somebody without a stage, which redeems everything loose. */
  predicate Sweeps(w: World, a: Action) {
    a.DoBurn? && Step(w, a).Ok? && Bal(w.pending, a.to) <= 0
  }

  // ---- Step by step ------------------------------------------------------------------

  lemma MintKeepsLoose(w: World, to: Address)
    requires Inv(w) && Mint(w, to).Ok?
    ensures Loose(Mint(w, to).value.0) == Loose(w)
  {
    hide MintLp, Sum, FeeInv, InitialLiquidity, SubsequentLiquidity;
    var p := w.store.value;
    var (liquidity, seeded) := MintShares(w.lp, p, Bal(w.tokenA, PAIR) - p.reserveA, Bal(w.tokenB, PAIR) - p.reserveB).value;
    BalanceWithinSum(w.lp.balances, PAIR);
    if w.lp.totalSupply == 0 {
      MintConserves(w.lp, PAIR, MINIMUM_LIQUIDITY);
    }
    MintConserves(seeded, to, liquidity);
  }

  lemma DepositLpKeepsLoose(w: World, from: Address, amount: int)
    requires Inv(w) && DepositLp(w, from, amount).Ok?
    ensures Loose(DepositLp(w, from, amount).value) == Loose(w)
  {
    hide TransferLp, Sum, FeeInv;
    TransferConserves(w.lp, from, PAIR, amount);
    BalanceWithinSum(w.lp.balances, from);
  }

  lemma BurnKeepsLoose(w: World, to: Address)
    requires Inv(w) && Burn(w, to).Ok?
    ensures Loose(Burn(w, to).value.0) == if Bal(w.pending, to) <= 0 then 0 else Loose(w)
  {
    BurnRedeemsOwnShares(w, to);
    hide Burn, FairShare, FeeInv, Sum;
  }

  lemma BurnSingleSideKeepsLoose(w: World, to: Address, lpAmount: int, preferred: Preferred, minOut: int)
    requires Inv(w) && BurnSingleSide(w, to, lpAmount, preferred, minOut).Ok?
    ensures Loose(BurnSingleSide(w, to, lpAmount, preferred, minOut).value.0) == Loose(w)
  {
    hide BurnAmounts, SingleSideLeg, ComputeFee, FeeInv, Pay, BurnLp, Sum;
    BurnConserves(w.lp, to, lpAmount);
    HolderBelowSeed(w, to);
    SumNonneg(w.pending);
  }

  lemma SwapAndSyncKeepShares(w: World, a: Action)
    requires a.DoSwap? || a.DoSync? || a.DoInitialize?
    ensures After(w, a).lp == w.lp && (Inv(w) ==> Loose(After(w, a)) == Loose(w))
  {
    hide Settle, FeesAfterSwap, DecayStale, Pay, PayProtocol, Recorded, Inv;
  }

  /** Shares created before the seed, with a seed's worth sent along, leave the rest of
      what was sent loose. */
  function SeedTaken(w: World, a: Action): int {
    if w.lp.totalSupply == 0 && FlowOf(w, a).created != 0 then MINIMUM_LIQUIDITY else 0
  }

  lemma OutsideKeepsLoose(w: World, a: Action)
    requires Inv(w) && SeedFirst(w, a) && (a.DoFlashLoan? || !Guarded(a))
    ensures 0 <= FlowOf(w, a).sent && Loose(After(w, a)) == Loose(w) + FlowOf(w, a).sent - SeedTaken(w, a)
  {
    hide Step, FlashLoan, FlowOf, Sum, FeeInv, PoolInv;
    if Step(w, a).Ok? {
      StepIsSafe(w, a);
      if a.DoFlashLoan? {
        FlashLoanFlows(w, a);
        FlashLoanKeepsStages(w, a.receiver, a.amountA, a.amountB, a.payload, a.callback, a.callbackOk);
        FlashLoanResult(w, a);
      } else {
        OutsideStepHolds(w, a);
      }
      LooseAfterFlow(w, After(w, a), FlowOf(w, a));
    } else {
      RejectedFlow(w, a);
    }
  }

  lemma RejectedFlow(w: World, a: Action)
    requires Step(w, a).Err?
    ensures FlowOf(w, a) == ShareFlow(0, 0) && After(w, a) == w
  {
    hide Step;
  }

  lemma FlashLoanResult(w: World, a: Action)
    requires a.DoFlashLoan? && Step(w, a).Ok?
    ensures FlashLoan(w, a.receiver, a.amountA, a.amountB, a.payload, a.callback, a.callbackOk) == Ok(After(w, a))
  {
    hide FlashLoan;
  }

  lemma LooseAfterFlow(w: World, w': World, f: ShareFlow)
    requires Inv(w) && Inv(w') && Flowed(w, w', f) && w'.pendingTotal == w.pendingTotal
    ensures Loose(w') == Loose(w) + f.sent - (if w.lp.totalSupply == 0 && f.created != 0 then MINIMUM_LIQUIDITY else 0)
  {
    BalanceWithinSum(w.lp.balances, PAIR);
    BalanceWithinSum(w'.lp.balances, PAIR);
    SumNonneg(w.pending);
  }

  /** Every action accounts for what the pair holds: a burn without a stage leaves exactly
      the seed and the stages, a raw transfer of shares to the pair adds to it, nothing
      else changes the difference.  So the holding is exact afterwards in just these cases. */
  lemma HoldingAccounted(w: World, a: Action)
    requires Inv(w) && SeedFirst(w, a)
    ensures 0 <= FlowOf(w, a).sent && 0 <= Loose(w)
    ensures Loose(After(w, a)) == if Sweeps(w, a) then 0 else Loose(w) + FlowOf(w, a).sent - SeedTaken(w, a)
    ensures Loose(After(w, a)) == 0 <==> Sweeps(w, a) || Loose(w) + FlowOf(w, a).sent == SeedTaken(w, a)
  {
    LooseNonneg(w);
    hide Mint, DepositLp, Burn, BurnSingleSide, Swap, Sync, Initialize, FlashLoan, Inv, Loose;
    match a {
      case DoMint(to) => if Step(w, a).Ok? { MintKeepsLoose(w, to); }
      case DoDepositLp(from, amount) => if Step(w, a).Ok? { DepositLpKeepsLoose(w, from, amount); }
      case DoBurn(to) => if Step(w, a).Ok? { BurnKeepsLoose(w, to); }
      case DoBurnSingleSide(to, lpAmount, preferred, minOut) =>
        if Step(w, a).Ok? { BurnSingleSideKeepsLoose(w, to, lpAmount, preferred, minOut); }
      case DoSwap(_, _, _, _) => SwapAndSyncKeepShares(w, a);
      case DoSync => SwapAndSyncKeepShares(w, a);
      case DoInitialize(_) => SwapAndSyncKeepShares(w, a);
      case _ => OutsideKeepsLoose(w, a);
    }
  }

  lemma LooseNonneg(w: World)
    requires Inv(w)
    ensures 0 <= Loose(w)
  {
    BalanceWithinSum(w.lp.balances, PAIR);
  }

  // ---- Over runs ---------------------------------------------------------------------

  /** An action that sends shares to the pair other than by `deposit_lp`. */
  predicate SendsShares(a: Action) {
    match a
    case DoLpCall(call) => SentToPair(call) != 0
    case DoFlashLoan(_, _, _, _, callback, _) =>
      exists i :: 0 <= i < |callback| && callback[i].DoLpCall? && SentToPair(callback[i].call) != 0
    case _ => false
  }

  lemma {:induction false} LockedRunSendsNothing(w: World, actions: seq<Action>)
    requires w.locked && w.store.Some?
    requires forall i :: 0 <= i < |actions| ==> !(actions[i].DoLpCall? && SentToPair(actions[i].call) != 0)
    ensures FlowOfRun(w, actions).sent == 0
    decreases |actions|
  {
    hide After;
    if actions != [] {
      LockedStepHolds(w, actions[0]);
      if actions[0].DoFlashLoan? {
        LockRejects(w, actions[0]);
        FlashOpenCases(w, actions[0].receiver, actions[0].amountA, actions[0].amountB, actions[0].payload);
      }
      hide Step;
      LockedRunSendsNothing(After(w, actions[0]), actions[1..]);
    }
  }

  lemma SendsNothing(w: World, a: Action)
    requires !SendsShares(a)
    ensures FlowOf(w, a).sent == 0
  {
    hide FlashOpen, FlowOfRun, Step;
    if a.DoFlashLoan? {
      var terms := FlashOpen(w, a.receiver, a.amountA, a.amountB, a.payload);
      if terms.Ok? && terms.value.Some? {
        FlashOpens(w, a.receiver, a.amountA, a.amountB, a.payload);
        LockedRunSendsNothing(terms.value.value.0, a.callback);
      }
    }
  }

  /** Over every run in which nobody transfers shares to the pair directly, callbacks
      included, a pair that holds exactly the seed and every stage keeps doing so. */
  lemma {:induction false} HoldsExactlySeedAndStages(w: World, actions: seq<Action>)
    requires Inv(w) && (w.lp.totalSupply != 0 || SeedFirstRun(w, actions)) && Loose(w) == 0
    requires forall i :: 0 <= i < |actions| ==> !SendsShares(actions[i])
    ensures var w' := Run(w, actions);
            Bal(w'.lp.balances, PAIR) == if w'.lp.totalSupply == 0 then 0 else MINIMUM_LIQUIDITY + w'.pendingTotal
    decreases |actions|
  {
    if actions != [] {
      hide After, Inv, SendsShares, Sweeps, FlowOf;
      SeededNeedsNothing(w, actions[0]);
      SendsNothing(w, actions[0]);
      HoldingAccounted(w, actions[0]);
      StepIsSafe(w, actions[0]);
      HoldsExactlySeedAndStages(After(w, actions[0]), actions[1..]);
    }
  }
}
