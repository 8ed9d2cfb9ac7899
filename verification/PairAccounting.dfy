/** Attribution of staged shares, what a burn redeems, and when the recorded reserves
    equal the real balances. */
module PairAccounting {
  import opened Base
  import opened PairMath
  import opened Ledgers
  import opened DynamicFee
  import opened LpToken
  import opened PairModel
  import opened PairSafety

  // ---- Stages belong to whoever staged them ------------------------------------------

  /** The one address whose stage an action can change. */
  function Stager(a: Action): Option<Address> {
    match a
    case DoDepositLp(from, _) => Some(from)
    case DoBurn(to) => Some(to)
    case _ => None
  }

  lemma StepKeepsStage(w: World, a: Action, who: Address)
    requires Stager(a) != Some(who)
    ensures Bal(After(w, a).pending, who) == Bal(w.pending, who)
  {
    hide FlashLoan, CallLp, Move, BurnAmounts, SingleSideLeg, Settle, FeesAfterSwap, DecayStale, MintShares, Pay;
    if a.DoFlashLoan? {
      FlashLoanKeepsStages(w, a.receiver, a.amountA, a.amountB, a.payload, a.callback, a.callbackOk);
    }
  }

  lemma FlashLoanKeepsStages(w: World, receiver: Address, amountA: int, amountB: int, payload: nat, callback: seq<Action>, callbackOk: bool)
    ensures var r := FlashLoan(w, receiver, amountA, amountB, payload, callback, callbackOk);
            r.Ok? ==> r.value.pending == w.pending && r.value.pendingTotal == w.pendingTotal
  {
    hide FlashOpen, Run;
    var terms := FlashOpen(w, receiver, amountA, amountB, payload);
    if terms.Ok? && terms.value.Some? {
      SnapshotStaysCurrent(w, receiver, amountA, amountB, payload, callback);
    }
  }

  /** Over every run, from any state, in which `who` itself neither stages nor burns:
      nobody else's operation, and no callback, changes what `who` has staged. */
  lemma {:induction false} OthersNeverTouchAStage(w: World, actions: seq<Action>, who: Address)
    requires forall i :: 0 <= i < |actions| ==> Stager(actions[i]) != Some(who)
    ensures Bal(Run(w, actions).pending, who) == Bal(w.pending, who)
    decreases |actions|
  {
    hide After;
    if actions != [] {
      StepKeepsStage(w, actions[0], who);
      OthersNeverTouchAStage(After(w, actions[0]), actions[1..], who);
    }
  }

  /** A burn redeems exactly the caller's own stage, or, without one, exactly what the
      pair holds beyond the seed and every stage; the payout is the floor of that share
      of each reserve. */
  lemma BurnRedeemsOwnShares(w: World, to: Address)
    requires Inv(w) && Burn(w, to).Ok?
    ensures var (w', a, b) := Burn(w, to).value;
            var staged := Bal(w.pending, to);
            var shares := w.lp.totalSupply - w'.lp.totalSupply;
            var p := w.store.value;
            && shares == Bal(w.lp.balances, PAIR) - Bal(w'.lp.balances, PAIR)
            && 0 < shares <= w.lp.totalSupply - MINIMUM_LIQUIDITY
            && Bal(w'.pending, to) == 0 && w'.pendingTotal == w.pendingTotal - staged
            && (if staged > 0 then shares == staged
                else Bal(w'.lp.balances, PAIR) == MINIMUM_LIQUIDITY + w'.pendingTotal)
            && FairShare(shares, p.reserveA, w.lp.totalSupply - MINIMUM_LIQUIDITY, a)
            && FairShare(shares, p.reserveB, w.lp.totalSupply - MINIMUM_LIQUIDITY, b)
            && Bal(w'.tokenA, to) == Bal(w.tokenA, to) + a && Bal(w'.tokenB, to) == Bal(w.tokenB, to) + b
  {
    hide FairShare, FeeInv, Pay, Sum;
    PayMoves(w.tokenA, to, Burn(w, to).value.1);
    PayMoves(w.tokenB, to, Burn(w, to).value.2);
    var p := w.store.value;
    var shares := Burnable(w, to).value;
    BurnableBounds(w, to);
    BurnAmountsFair(shares, p.reserveA, p.reserveB, w.lp.totalSupply - MINIMUM_LIQUIDITY);
    BurnConserves(w.lp, PAIR, shares);
  }

  /** A mint credits the depositor with exactly the liquidity it returns, which is the
      largest amount both deposits cover, and takes nothing from anybody. */
  lemma MintCreditsDepositor(w: World, to: Address)
    requires Inv(w) && Mint(w, to).Ok? && w.lp.totalSupply != 0
    ensures var (w', liquidity) := Mint(w, to).value;
            && w.store.Some? && var p := w.store.value;
            && MIN_LIQUIDITY_FOR_USER <= liquidity
            && Bal(w'.lp.balances, to) == Bal(w.lp.balances, to) + liquidity
            && (forall who :: who != to ==> Bal(w'.lp.balances, who) == Bal(w.lp.balances, who))
            && w'.tokenA == w.tokenA && w'.tokenB == w.tokenB
            && (0 < p.reserveA && 0 < p.reserveB ==>
                  forall n :: n <= liquidity <==> n * p.reserveA <= SurplusA(w) * w.lp.totalSupply && n * p.reserveB <= SurplusB(w) * w.lp.totalSupply)
  {
    hide Sum, FeeInv, SubsequentLiquidity, MintLp;
    var p := w.store.value;
    MintConserves(w.lp, to, Mint(w, to).value.1);
    SumNonneg(w.lp.balances);
    if 0 < p.reserveA && 0 < p.reserveB {
      SubsequentLiquidityIsLargest(SurplusA(w), SurplusB(w), p.reserveA, p.reserveB, w.lp.totalSupply);
    }
  }

  /** What one party's balance of one token changes by in a swap. */
  function SwapShare(who: Address, out: int, cut: int, to: Address, f: FactoryView): int {
    (if who == to then Max(out, 0) else 0) + (if f.feeTo == Some(who) then cut else 0)
    - (if who == PAIR then Max(out, 0) + cut else 0)
  }

  /** A swap pays the trader exactly what was requested and the protocol exactly its cut,
      a share of the fee on the input, both out of the pair; nobody else's balance moves. */
  lemma SwapPaysExactly(w: World, outA: int, outB: int, to: Address, f: Factory) returns (feeBps: nat, s: Settlement)
    requires Inv(w) && Swap(w, outA, outB, to, f).Ok?
    ensures var w' := Swap(w, outA, outB, to, f).value;
            && SwapParts(w, w', outA, outB, to, f, feeBps, s)
            && (forall who :: Bal(w'.tokenA, who) == Bal(w.tokenA, who) + SwapShare(who, outA, s.cutA, to, f))
            && (forall who :: Bal(w'.tokenB, who) == Bal(w.tokenB, who) + SwapShare(who, outB, s.cutB, to, f))
            && 0 <= s.cutA && s.cutA * 10_000 <= s.inA * feeBps && 0 <= s.cutB && s.cutB * 10_000 <= s.inB * feeBps
  {
    hide Swap, Settle, Pay, Move, FeeInv, ChargedFee, DecayStale, CoreInv, PoolInv, FeesAfterSwap, ProtocolCut;
    feeBps, s := SwapUnfolded(w, outA, outB, to, f);
    SettleCutShares(w, outA, outB, to, f, feeBps, s);
    PaidTwice(w.tokenA, to, outA, f, s.cutA);
    PaidTwice(w.tokenB, to, outB, f, s.cutB);
  }

  lemma SettleCutShares(w: World, outA: int, outB: int, to: Address, f: FactoryView, feeBps: nat, s: Settlement)
    requires w.store.Some? && Pay(w.tokenA, to, outA).Ok? && Pay(w.tokenB, to, outB).Ok? && feeBps <= 10_000
    requires var (balA, balB) := AfterPay(w, outA, outB, to); Settle(w.store.value, balA, balB, outA, outB, feeBps, f) == Ok(s)
    ensures 0 <= s.cutA && s.cutA * 10_000 <= s.inA * feeBps && 0 <= s.cutB && s.cutB * 10_000 <= s.inB * feeBps
    ensures f.feeTo.None? ==> s.cutA == 0 && s.cutB == 0
  {
    hide KCheck, ProtocolCut, Pay;
    ProtocolCutBounds(s.inA, feeBps, f);
    ProtocolCutBounds(s.inB, feeBps, f);
  }

  lemma PaidTwice(m: Ledger, to: Address, out: int, f: FactoryView, cut: int)
    requires Pay(m, to, out).Ok? && PayProtocol(Pay(m, to, out).value, f, cut).Ok?
    requires 0 <= cut && (f.feeTo.None? ==> cut == 0)
    ensures forall who :: Bal(PayProtocol(Pay(m, to, out).value, f, cut).value, who) == Bal(m, who) + SwapShare(who, out, cut, to, f)
  {
    hide Move;
    PayMoves(m, to, out);
    if f.feeTo.Some? {
      PayMoves(Pay(m, to, out).value, f.feeTo.value, cut);
    }
  }

  // ---- Recorded reserves and real balances -------------------------------------------

  function SurplusA(w: World): int
    requires w.store.Some?
  {
    Bal(w.tokenA, PAIR) - w.store.value.reserveA
  }

  function SurplusB(w: World): int
    requires w.store.Some?
  {
    Bal(w.tokenB, PAIR) - w.store.value.reserveB
  }

  /** Recorded reserves equal real balances. */
  predicate Exact(w: World) {
    w.store.Some? && SurplusA(w) == 0 && SurplusB(w) == 0
  }

  lemma DepositsAreRecorded(w: World, to: Address)
    requires Inv(w)
    ensures Mint(w, to).Ok? ==> w.store.Some? && Exact(Mint(w, to).value.0)
    ensures Sync(w).Ok? ==> w.store.Some? && Exact(Sync(w).value)
  {
    hide MintShares, MintLp, FeeInv, Sum;
  }

  lemma BurnKeepsSurplus(w: World, to: Address)
    requires Inv(w) && Burn(w, to).Ok?
    ensures var w' := Burn(w, to).value.0;
            w'.store.Some? && SurplusA(w') == SurplusA(w) && SurplusB(w') == SurplusB(w)
  {
    hide BurnAmounts, Burnable, BurnLp, Pay, FeeInv, Sum;
    var (_, a, b) := Burn(w, to).value;
    PayMoves(w.tokenA, to, a);
    PayMoves(w.tokenB, to, b);
  }

  lemma BurnSingleSideKeepsSurplus(w: World, to: Address, lpAmount: int, preferred: Preferred, minOut: int)
    requires Inv(w) && BurnSingleSide(w, to, lpAmount, preferred, minOut).Ok?
    ensures var w' := BurnSingleSide(w, to, lpAmount, preferred, minOut).value.0;
            w'.store.Some? && SurplusA(w') == SurplusA(w) && SurplusB(w') == SurplusB(w)
  {
    hide BurnAmounts, SingleSideLeg, ComputeFee, FeeInv, Pay, BurnLp, Sum;
    var p := w.store.value;
    var (_, out) := BurnSingleSide(w, to, lpAmount, preferred, minOut).value;
    BurnConserves(w.lp, to, lpAmount);
    HolderBelowSeed(w, to);
    BalanceWithinSum(w.pending, to);
    var (shareA, shareB) := FromMath(BurnAmounts(lpAmount, p.reserveA, p.reserveB, w.lp.totalSupply - MINIMUM_LIQUIDITY)).value;
    SharesWithinReserves(lpAmount, p.reserveA, p.reserveB, w.lp.totalSupply - MINIMUM_LIQUIDITY);
    if preferred == TokenA {
      SingleSideLegBounds(shareA, shareB, p.reserveA, p.reserveB, ComputeFee(w.fees), minOut);
      PayMoves(w.tokenA, to, out);
    } else {
      SingleSideLegBounds(shareB, shareA, p.reserveB, p.reserveA, ComputeFee(w.fees), minOut);
      PayMoves(w.tokenB, to, out);
    }
  }

  /** Operations that move the pair's tokens or reserves. */
  predicate MovesReserves(a: Action) {
    a.DoMint? || a.DoBurn? || a.DoBurnSingleSide? || a.DoSwap? || a.DoSync? || (a.DoFlashLoan? && (a.amountA != 0 || a.amountB != 0))
  }

  /** What an operation leaves in the pool beyond what it records: the two burns keep what
      was there, a swap leaves the cut it pays to the pair itself, everything else
      records the balances it reads. */
  function Unrecorded(w: World, a: Action): (int, int)
    requires w.store.Some?
  {
    match a
    case DoBurn(_) => (SurplusA(w), SurplusB(w))
    case DoBurnSingleSide(_, _, _, _) => (SurplusA(w), SurplusB(w))
    case DoSwap(outA, outB, to, f) =>
      var s := SettlementOf(w, outA, outB, to, f);
      if s.Ok? then (SelfPaid(f, s.value.cutA), SelfPaid(f, s.value.cutB)) else (0, 0)
    case _ => (0, 0)
  }

  /** After any successful liquidity, swap or flash-loan operation the balances exceed the
      recorded reserves by exactly that much, so the two are equal exactly when it is
      nothing. */
  lemma ReservesMatchBalances(w: World, a: Action)
    requires Inv(w) && MovesReserves(a) && Step(w, a).Ok?
    ensures w.store.Some? && After(w, a).store.Some?
    ensures (SurplusA(After(w, a)), SurplusB(After(w, a))) == Unrecorded(w, a)
    ensures Exact(After(w, a)) <==> Unrecorded(w, a) == (0, 0)
  {
    hide Mint, Burn, BurnSingleSide, Swap, SettlementOf, SelfPaid, Sync, FlashLoan, FeeInv, CoreInv, Sum;
    match a {
      case DoMint(to) => DepositsAreRecorded(w, to);
      case DoSync => DepositsAreRecorded(w, PAIR);
      case DoBurn(to) =>
        BurnNeedsStore(w, to);
        BurnKeepsSurplus(w, to);
      case DoBurnSingleSide(to, lpAmount, preferred, minOut) =>
        BurnSingleSideNeedsStore(w, to, lpAmount, preferred, minOut);
        BurnSingleSideKeepsSurplus(w, to, lpAmount, preferred, minOut);
      case DoSwap(outA, outB, to, f) => SwapEffects(w, outA, outB, to, f);
      case DoFlashLoan(receiver, amountA, amountB, payload, callback, ok) =>
        FlashLoanEffects(w, receiver, amountA, amountB, payload, callback, ok);
    }
  }

  lemma BurnNeedsStore(w: World, to: Address)
    ensures Burn(w, to).Ok? ==> w.store.Some?
  {
  }

  lemma BurnSingleSideNeedsStore(w: World, to: Address, lpAmount: int, preferred: Preferred, minOut: int)
    ensures BurnSingleSide(w, to, lpAmount, preferred, minOut).Ok? ==> w.store.Some?
  {
  }
}
