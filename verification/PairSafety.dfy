/** Safety over every run of the pair: solvency, conservation of tokens and shares, the
    locked seed, attributed stages, fee bounds and the flash-loan lock. */
module PairSafety {
  import opened Base
  import opened Arith
  import opened Quotes
  import opened PairMath
  import opened Ledgers
  import opened DynamicFee
  import opened LpToken
  import opened PairModel

  // ---- The invariant -----------------------------------------------------------------

  /** Stages are positive and add up to the staged total. */
  ghost predicate StageInv(w: World) {
    Positive(w.pending) && Sum(w.pending) == w.pendingTotal
  }

  ghost predicate PairGrantsNothing(lp: LpState) {
    forall key :: key in lp.allowances ==> key.0 != PAIR
  }

  /** LP balances add up to the supply, and once seeded the pair holds the seed and
      everything staged; the pair has granted no allowance over its shares. */
  ghost predicate SeedInv(w: World) {
    && LpInv(w.lp) && w.pausedHint == w.lp.paused && PairGrantsNothing(w.lp)
    && (w.lp.totalSupply == 0 ==> w.pendingTotal == 0)
    && (w.lp.totalSupply != 0 ==> Bal(w.lp.balances, PAIR) >= MINIMUM_LIQUIDITY + w.pendingTotal)
  }

  /** The pair really holds what it records, and `k_last` is the product of the reserves. */
  ghost predicate PoolInv(w: World) {
    w.store.Some? ==>
      var p := w.store.value;
      && 0 <= p.reserveA <= Bal(w.tokenA, PAIR)
      && 0 <= p.reserveB <= Bal(w.tokenB, PAIR)
      && p.kLast == p.reserveA * p.reserveB
  }

  /** The part of the invariant that asks nothing about the seed. */
  ghost predicate OpenInv(w: World) {
    && StageInv(w) && LpInv(w.lp) && w.pausedHint == w.lp.paused && PairGrantsNothing(w.lp)
    && Positive(w.tokenA) && Positive(w.tokenB)
    && (w.store.Some? ==> FeeInv(w.fees))
  }

  ghost predicate CoreInv(w: World) {
    && StageInv(w) && SeedInv(w)
    && Positive(w.tokenA) && Positive(w.tokenB)
    && (w.store.Some? ==> FeeInv(w.fees))
  }

  ghost predicate Inv(w: World) {
    !w.locked && CoreInv(w) && PoolInv(w)
  }

  /** Nothing is created or destroyed in either pool token. */
  ghost predicate Conserved(w: World, w': World) {
    Sum(w'.tokenA) == Sum(w.tokenA) && Sum(w'.tokenB) == Sum(w.tokenB)
  }

  /** The invariant again, the same amount of both tokens, and a seeded pair stays seeded. */
  ghost predicate Safe(w: World, w': World) {
    Inv(w') && Conserved(w, w') && (w.lp.totalSupply != 0 ==> w'.lp.totalSupply != 0)
  }

  lemma GenesisIsSafe(w: World)
    requires Genesis(w)
    ensures Inv(w)
  {
  }

  // ---- Building blocks ---------------------------------------------------------------

  lemma PayMoves(m: Ledger, to: Address, amount: int)
    requires Pay(m, to, amount).Ok?
    ensures var m' := Pay(m, to, amount).value;
            && Sum(m') == Sum(m) && (Positive(m) ==> Positive(m'))
            && Bal(m', PAIR) == Bal(m, PAIR) - (if to == PAIR then 0 else Max(amount, 0))
            && (to != PAIR ==> Bal(m', to) == Bal(m, to) + Max(amount, 0))
            && forall who :: who != PAIR && who != to ==> Bal(m', who) == Bal(m, who)
  {
    if amount > 0 {
      MoveConserves(m, PAIR, to, amount);
    }
  }

  lemma HeldNonneg(m: Ledger)
    requires Positive(m)
    ensures 0 <= Bal(m, PAIR)
  {
  }

  /** Saturation and rounding only lower a share of `x`. */
  lemma CutCore(x: nat, bps: nat)
    requires bps <= 10_000
    ensures var cut := TruncDiv(Saturate(Saturate(x) * bps), 100_000_000); 0 <= cut && cut * 10_000 <= x
  {
    var inner := Saturate(x);
    MulMono2(inner, bps, x, 10_000);
    var s := Saturate(inner * bps);
    DivFloor(s, 100_000_000);
    DivNonneg(s, 100_000_000);
  }

  /** The protocol's cut is at most its share of the swap fee, hence of the input. */
  lemma ProtocolCutBounds(amountIn: int, feeBps: nat, f: FactoryView)
    requires 0 <= amountIn && feeBps <= 10_000
    ensures var cut := ProtocolCut(amountIn, feeBps, f);
            && 0 <= cut <= amountIn && cut * 10_000 <= amountIn * feeBps
            && (f.feeTo.None? ==> cut == 0)
  {
    MulMono2(amountIn, feeBps, amountIn, 10_000);
    CutCore(amountIn * feeBps, if f.protocolBps.Some? then Min(f.protocolBps.value, 10_000) else 0);
  }

  /** The fee-adjusted balance is not negative, and the reserve kept after the protocol
      cut still covers it. */
  lemma AdjustedCovers(balance: int, amountIn: int, left: int, feeBps: nat, f: FactoryView)
    requires 0 <= balance && 0 <= left && feeBps <= 10_000
    requires amountIn == Max(balance - left, 0)
    requires AdjustedBalance(balance, amountIn, feeBps).Ok?
    ensures var cut := ProtocolCut(amountIn, feeBps, f);
            && 0 <= AdjustedBalance(balance, amountIn, feeBps).value <= (balance - cut) * BPS
            && Min(balance, left) <= balance - cut
  {
    ProtocolCutBounds(amountIn, feeBps, f);
    MulMono(feeBps, 10_000, amountIn);
  }

  /** A swap that settles never lowers the product of the reserves, even after the
      protocol cut, at any fee and protocol share up to 100%; and each side keeps at
      least what the floor check promised, if it was there. */
  lemma SettleKeepsProduct(p: PairStorage, balA: int, balB: int, outA: int, outB: int, feeBps: nat, f: FactoryView)
    requires 0 <= balA && 0 <= balB && feeBps <= 10_000
    requires SwapGuards(p, outA, outB).Ok? && Settle(p, balA, balB, outA, outB, feeBps, f).Ok?
    ensures var s := Settle(p, balA, balB, outA, outB, feeBps, f).value;
            && (balA - s.cutA) * (balB - s.cutB) >= p.reserveA * p.reserveB
            && Min(balA, p.reserveA - outA) <= balA - s.cutA <= balA
            && Min(balB, p.reserveB - outB) <= balB - s.cutB <= balB
            && (f.feeTo.None? ==> s.cutA == 0 && s.cutB == 0)
  {
    var s := Settle(p, balA, balB, outA, outB, feeBps, f).value;
    AdjustedCovers(balA, s.inA, p.reserveA - outA, feeBps, f);
    AdjustedCovers(balB, s.inB, p.reserveB - outB, feeBps, f);
    ProtocolCutBounds(s.inA, feeBps, f);
    ProtocolCutBounds(s.inB, feeBps, f);
    ProductFromAdjusted(AdjustedBalance(balA, s.inA, feeBps).value, AdjustedBalance(balB, s.inB, feeBps).value,
                        balA - s.cutA, balB - s.cutB, p.reserveA * p.reserveB);
  }

  lemma ProductFromAdjusted(adjA: int, adjB: int, keptA: int, keptB: int, k: int)
    requires 0 <= adjA <= keptA * BPS && 0 <= adjB <= keptB * BPS && adjA * adjB >= k * 100_000_000
    ensures keptA * keptB >= k
  {
  }

  lemma ChargedFeeBound(fees: FeeState, ledger: nat, f: Factory)
    requires FeeInv(fees)
    ensures FeeInv(DecayStale(fees, ledger)) && ChargedFee(DecayStale(fees, ledger), f) <= 10_000
  {
    DecayKeepsInv(fees, ledger);
    FeeWithinBounds(DecayStale(fees, ledger));
  }

  // ---- Step by step ------------------------------------------------------------------

  lemma InitializeIsSafe(w: World, tokensAllowed: bool)
    requires Inv(w) && Initialize(w, tokensAllowed).Ok?
    ensures Safe(w, Initialize(w, tokensAllowed).value)
  {
  }

  /** What minting shares does to the liquidity token: the seed, if it is the first
      mint, and the user's liquidity; never anything out of the pair's holding. */
  lemma MintIsSafe(w: World, to: Address)
    requires Inv(w) && Mint(w, to).Ok?
    ensures Safe(w, Mint(w, to).value.0)
  {
    hide MintLp, Sum, FeeInv, InitialLiquidity, SubsequentLiquidity;
    var p := w.store.value;
    var balA, balB := Bal(w.tokenA, PAIR), Bal(w.tokenB, PAIR);
    var (liquidity, seeded) := MintShares(w.lp, p, balA - p.reserveA, balB - p.reserveB).value;
    if w.lp.totalSupply == 0 {
      MintConserves(w.lp, PAIR, MINIMUM_LIQUIDITY);
      BalanceWithinSum(w.lp.balances, PAIR);
    }
    MintConserves(seeded, to, liquidity);
    BalanceWithinSum(w.lp.balances, to);
  }

  lemma DepositLpIsSafe(w: World, from: Address, amount: int)
    requires Inv(w) && DepositLp(w, from, amount).Ok?
    ensures Safe(w, DepositLp(w, from, amount).value)
  {
    hide TransferLp, Sum, FeeInv;
    TransferConserves(w.lp, from, PAIR, amount);
    BalanceWithinSum(w.lp.balances, from);
    SumWrite(w.pending, from, Bal(w.pending, from) + amount);
  }

  /** A burn redeems at most what the pair holds above the seed and other stages. */
  lemma BurnableBounds(w: World, to: Address)
    requires StageInv(w) && SeedInv(w) && w.lp.totalSupply != 0 && Burnable(w, to).Ok?
    ensures Burnable(w, to).value <= Bal(w.lp.balances, PAIR) - MINIMUM_LIQUIDITY - (w.pendingTotal - Bal(w.pending, to))
    ensures Burnable(w, to).value <= w.lp.totalSupply - MINIMUM_LIQUIDITY
  {
    BalanceWithinSum(w.pending, to);
    BalanceWithinSum(w.lp.balances, PAIR);
  }

  /** Both payouts of a burn stay within the reserves. */
  lemma SharesWithinReserves(lp: int, rA: int, rB: int, supply: int)
    requires 0 <= lp <= supply && 0 <= rA && 0 <= rB && 0 < supply
    requires FromMath(BurnAmounts(lp, rA, rB, supply)).Ok?
    ensures var (a, b) := FromMath(BurnAmounts(lp, rA, rB, supply)).value; 0 <= a <= rA && 0 <= b <= rB
  {
    BurnAmountsFair(lp, rA, rB, supply);
  }

  lemma BurnIsSafe(w: World, to: Address)
    requires Inv(w) && Burn(w, to).Ok?
    ensures Safe(w, Burn(w, to).value.0)
  {
    hide BurnAmounts, FeeInv, Pay, BurnLp, Sum, Burnable;
    var p := w.store.value;
    var supply := w.lp.totalSupply - MINIMUM_LIQUIDITY;
    var shares := Burnable(w, to).value;
    var (w', a, b) := Burn(w, to).value;
    BurnableBounds(w, to);
    SharesWithinReserves(shares, p.reserveA, p.reserveB, supply);
    BurnConserves(w.lp, PAIR, shares);
    PayMoves(w.tokenA, to, a);
    PayMoves(w.tokenB, to, b);
    SumWrite(w.pending, to, 0);
    BalanceWithinSum(w.pending, to);
    BalanceWithinSum(w'.lp.balances, PAIR);
  }

  lemma LegWithinReserve(amountIn: int, rIn: int, rOut: int, feeBps: nat)
    requires 0 <= rOut && LegOut(amountIn, rIn, rOut, feeBps).Ok?
    ensures 0 <= LegOut(amountIn, rIn, rOut, feeBps).value <= rOut
  {
    if rOut != 0 && QuoteOut(amountIn, rIn, rOut, feeBps).Ok? {
      QuoteOutIsFloor(amountIn, rIn, rOut, feeBps);
    }
  }

  lemma SingleSideLegBounds(sharePref: int, shareUnwanted: int, pref: int, unwanted: int, feeBps: nat, minOut: int)
    requires 0 <= sharePref <= pref
    requires SingleSideLeg(sharePref, shareUnwanted, pref, unwanted, feeBps, minOut).Ok?
    ensures var (out, left) := SingleSideLeg(sharePref, shareUnwanted, pref, unwanted, feeBps, minOut).value;
            0 <= left && sharePref <= out && out + left == pref
  {
    LegWithinReserve(shareUnwanted, unwanted - shareUnwanted, pref - sharePref, feeBps);
  }

  /** A holder other than the pair owns at most the supply beyond the seed. */
  lemma HolderBelowSeed(w: World, who: Address)
    requires StageInv(w) && SeedInv(w) && who != PAIR && w.lp.totalSupply != 0
    ensures Bal(w.lp.balances, who) + MINIMUM_LIQUIDITY + w.pendingTotal <= w.lp.totalSupply
  {
    if who in w.lp.balances {
      var rest := w.lp.balances - {who};
      SumRemove(w.lp.balances, who);
      BalanceWithinSum(rest, PAIR);
      assert Bal(rest, PAIR) == Bal(w.lp.balances, PAIR);
    } else {
      BalanceWithinSum(w.lp.balances, PAIR);
    }
  }

  lemma BurnSingleSideIsSafe(w: World, to: Address, lpAmount: int, preferred: Preferred, minOut: int)
    requires Inv(w) && BurnSingleSide(w, to, lpAmount, preferred, minOut).Ok?
    ensures Safe(w, BurnSingleSide(w, to, lpAmount, preferred, minOut).value.0)
  {
    hide BurnAmounts, SingleSideLeg, ComputeFee, FeeInv, Pay, BurnLp, Sum;
    var p := w.store.value;
    var supply := w.lp.totalSupply - MINIMUM_LIQUIDITY;
    var fee := ComputeFee(w.fees);
    BurnConserves(w.lp, to, lpAmount);
    HolderBelowSeed(w, to);
    BalanceWithinSum(w.pending, to);
    SharesWithinReserves(lpAmount, p.reserveA, p.reserveB, supply);
    var (shareA, shareB) := BurnAmounts(lpAmount, p.reserveA, p.reserveB, supply).value;
    if preferred == TokenA {
      SingleSideLegBounds(shareA, shareB, p.reserveA, p.reserveB, fee, minOut);
      PayMoves(w.tokenA, to, SingleSideLeg(shareA, shareB, p.reserveA, p.reserveB, fee, minOut).value.0);
    } else {
      SingleSideLegBounds(shareB, shareA, p.reserveB, p.reserveA, fee, minOut);
      PayMoves(w.tokenB, to, SingleSideLeg(shareB, shareA, p.reserveB, p.reserveA, fee, minOut).value.0);
    }
  }

  lemma FeesAfterSwapOk(fees: FeeState, was: PairStorage, now: PairStorage, inA: int, inB: int, timestamp: nat)
    requires FeeInv(fees)
    ensures FeeInv(FeesAfterSwap(fees, was, now, inA, inB, timestamp))
  {
    if was.reserveA > 0 && was.reserveB > 0 && now.reserveA > 0 && now.reserveB > 0 {
      var before := PriceRatio(was.reserveB, was.reserveA);
      var after := PriceRatio(now.reserveB, now.reserveA);
      var delta := if after > before then after - before else before - after;
      var size, total := Max(inA, inB), Saturate(now.reserveA + now.reserveB);
      if Updated(fees, delta, size, total, timestamp).Ok? {
        UpdateKeepsInv(fees, delta, size, total, timestamp);
      }
    }
  }

  /** The part of a protocol cut that never leaves the pool, because the factory names the
      pair itself as its fee recipient. */
  function SelfPaid(f: FactoryView, cut: int): int {
    if f.feeTo == Some(PAIR) then cut else 0
  }

  /** Paying a trader and then the protocol, seen from the pair's own balance. */
  lemma PayTwice(m: Ledger, to: Address, out: int, f: FactoryView, cut: int)
    requires Positive(m) && Pay(m, to, out).Ok? && PayProtocol(Pay(m, to, out).value, f, cut).Ok?
    requires 0 <= cut && (f.feeTo.None? ==> cut == 0)
    ensures var paid := Pay(m, to, out).value;
            var final := PayProtocol(paid, f, cut).value;
            && Positive(paid) && Positive(final) && Sum(final) == Sum(m)
            && Bal(m, PAIR) - Max(out, 0) <= Bal(paid, PAIR) && 0 <= Bal(paid, PAIR)
            && Bal(final, PAIR) == Bal(paid, PAIR) - cut + SelfPaid(f, cut)
  {
    PayMoves(m, to, out);
    HeldNonneg(Pay(m, to, out).value);
    if f.feeTo.Some? {
      PayMoves(Pay(m, to, out).value, f.feeTo.value, cut);
    }
  }

  /** What a successful swap that settled `s` did to the reserves and real balances.  A
      side ends at or above the reserve floor exactly if nothing negative was requested of
      it or its real balance reached the floor before. */
  ghost predicate SwapOutcome(w: World, w': World, outA: int, outB: int, f: FactoryView, s: Settlement) {
    && w.store.Some? && w'.store.Some?
    && var p, p' := w.store.value, w'.store.value;
    && w' == w.(store := w'.store, fees := w'.fees, tokenA := w'.tokenA, tokenB := w'.tokenB)
    && PoolInv(w') && Conserved(w, w') && Positive(w'.tokenA) && Positive(w'.tokenB) && FeeInv(w'.fees)
    && p'.reserveA * p'.reserveB >= p.reserveA * p.reserveB
    && (p'.reserveA >= MINIMUM_RESERVE <==> 0 <= outA || Bal(w.tokenA, PAIR) >= MINIMUM_RESERVE)
    && (p'.reserveB >= MINIMUM_RESERVE <==> 0 <= outB || Bal(w.tokenB, PAIR) >= MINIMUM_RESERVE)
    && 0 <= s.cutA && 0 <= s.cutB
    && Bal(w'.tokenA, PAIR) == p'.reserveA + SelfPaid(f, s.cutA) && Bal(w'.tokenB, PAIR) == p'.reserveB + SelfPaid(f, s.cutB)
  }

  /** What a swap settles, if it gets that far. */
  function SettlementOf(w: World, outA: int, outB: int, to: Address, f: FactoryView): Result<Settlement, PairError> {
    var p :- Stored(w);
    var tokenA :- Pay(w.tokenA, to, outA);
    var tokenB :- Pay(w.tokenB, to, outB);
    Settle(p, Bal(tokenA, PAIR), Bal(tokenB, PAIR), outA, outB, ChargedFee(DecayStale(w.fees, w.ledger), f), f)
  }

  /** The balances a swap settles on. */
  function AfterPay(w: World, outA: int, outB: int, to: Address): (int, int)
    requires Pay(w.tokenA, to, outA).Ok? && Pay(w.tokenB, to, outB).Ok?
  {
    (Bal(Pay(w.tokenA, to, outA).value, PAIR), Bal(Pay(w.tokenB, to, outB).value, PAIR))
  }

  /** The settlement `s` inside a successful swap, and the world it produces. */
  ghost predicate SwapParts(w: World, w': World, outA: int, outB: int, to: Address, f: FactoryView, feeBps: nat, s: Settlement) {
    && w.store.Some? && SwapGuards(w.store.value, outA, outB).Ok?
    && Pay(w.tokenA, to, outA).Ok? && Pay(w.tokenB, to, outB).Ok?
    && var (balA, balB) := AfterPay(w, outA, outB, to);
    && feeBps == ChargedFee(DecayStale(w.fees, w.ledger), f) <= 10_000
    && Settle(w.store.value, balA, balB, outA, outB, feeBps, f) == Ok(s)
    && var recorded := Recorded(balA - s.cutA, balB - s.cutB, w.timestamp);
    && recorded.Ok? && w'.store == Some(recorded.value)
    && w' == w.(store := w'.store, fees := w'.fees, tokenA := w'.tokenA, tokenB := w'.tokenB)
    && FeeInv(w'.fees)
    && PayProtocol(Pay(w.tokenA, to, outA).value, f, s.cutA) == Ok(w'.tokenA)
    && PayProtocol(Pay(w.tokenB, to, outB).value, f, s.cutB) == Ok(w'.tokenB)
  }

  lemma SwapUnfolded(w: World, outA: int, outB: int, to: Address, f: Factory) returns (feeBps: nat, s: Settlement)
    requires Inv(w) && Swap(w, outA, outB, to, f).Ok?
    ensures SwapParts(w, Swap(w, outA, outB, to, f).value, outA, outB, to, f, feeBps, s)
    ensures SettlementOf(w, outA, outB, to, f) == Ok(s)
  {
    hide Settle, FeesAfterSwap, DecayStale, ComputeFee, FeeInv, Move;
    ChargedFeeBound(w.fees, w.ledger, f);
    var fees := DecayStale(w.fees, w.ledger);
    feeBps := ChargedFee(fees, f);
    var (balA, balB) := AfterPay(w, outA, outB, to);
    s := Settle(w.store.value, balA, balB, outA, outB, feeBps, f).value;
    FeesAfterSwapOk(fees, w.store.value, Recorded(balA - s.cutA, balB - s.cutB, w.timestamp).value, s.inA, s.inB, w.timestamp);
  }

  /** Every successful swap: the product of the reserves does not fall, each side keeps
      the reserve floor exactly when it should, and the reserves are the real balances less
      what the protocol was paid inside the pool. */
  lemma SwapEffects(w: World, outA: int, outB: int, to: Address, f: Factory)
    requires Inv(w) && Swap(w, outA, outB, to, f).Ok?
    ensures SettlementOf(w, outA, outB, to, f).Ok?
    ensures SwapOutcome(w, Swap(w, outA, outB, to, f).value, outA, outB, f, SettlementOf(w, outA, outB, to, f).value)
  {
    hide Swap, Settle, SettlementOf, SelfPaid, SwapOutcome, FeeInv, Pay, PayProtocol, ChargedFee, DecayStale, SeedInv, StageInv;
    var feeBps, s := SwapUnfolded(w, outA, outB, to, f);
    var (balA, balB) := AfterPay(w, outA, outB, to);
    var w' := Swap(w, outA, outB, to, f).value;
    PayMoves(w.tokenA, to, outA);
    PayMoves(w.tokenB, to, outB);
    HeldNonneg(Pay(w.tokenA, to, outA).value);
    HeldNonneg(Pay(w.tokenB, to, outB).value);
    SettleKeepsProduct(w.store.value, balA, balB, outA, outB, feeBps, f);
    SettleCuts(w.store.value, balA, balB, outA, outB, feeBps, f);
    PayTwice(w.tokenA, to, outA, f, s.cutA);
    PayTwice(w.tokenB, to, outB, f, s.cutB);
    SwapOutcomeOf(w, w', s, balA, balB, outA, outB, f);
  }

  lemma SettleCuts(p: PairStorage, balA: int, balB: int, outA: int, outB: int, feeBps: nat, f: FactoryView)
    requires feeBps <= 10_000 && Settle(p, balA, balB, outA, outB, feeBps, f).Ok?
    ensures var s := Settle(p, balA, balB, outA, outB, feeBps, f).value; 0 <= s.cutA && 0 <= s.cutB
  {
    ProtocolCutBounds(AmountIn(balA, p.reserveA, outA), feeBps, f);
    ProtocolCutBounds(AmountIn(balB, p.reserveB, outB), feeBps, f);
  }

  /** Assembling the outcome from its parts, with no swap arithmetic in sight. */
  lemma SwapOutcomeOf(w: World, w': World, s: Settlement, balA: int, balB: int, outA: int, outB: int, f: FactoryView)
    requires Inv(w) && w.store.Some? && SwapGuards(w.store.value, outA, outB).Ok?
    requires Recorded(balA - s.cutA, balB - s.cutB, w.timestamp).Ok?
    requires w'.store == Some(Recorded(balA - s.cutA, balB - s.cutB, w.timestamp).value)
    requires w' == w.(store := w'.store, fees := w'.fees, tokenA := w'.tokenA, tokenB := w'.tokenB)
    requires FeeInv(w'.fees) && Conserved(w, w') && Positive(w'.tokenA) && Positive(w'.tokenB)
    requires (balA - s.cutA) * (balB - s.cutB) >= w.store.value.reserveA * w.store.value.reserveB
    requires 0 <= balA && 0 <= balB
    requires Bal(w.tokenA, PAIR) - Max(outA, 0) <= balA && Bal(w.tokenB, PAIR) - Max(outB, 0) <= balB
    requires (outA <= 0 ==> balA == Bal(w.tokenA, PAIR)) && (outB <= 0 ==> balB == Bal(w.tokenB, PAIR))
    requires Min(balA, w.store.value.reserveA - outA) <= balA - s.cutA && Min(balB, w.store.value.reserveB - outB) <= balB - s.cutB
    requires 0 <= s.cutA && 0 <= s.cutB
    requires Bal(w'.tokenA, PAIR) == balA - s.cutA + SelfPaid(f, s.cutA) && Bal(w'.tokenB, PAIR) == balB - s.cutB + SelfPaid(f, s.cutB)
    ensures SwapOutcome(w, w', outA, outB, f, s)
  {
  }

  lemma SwapIsSafe(w: World, outA: int, outB: int, to: Address, f: Factory)
    requires Inv(w) && Swap(w, outA, outB, to, f).Ok?
    ensures Safe(w, Swap(w, outA, outB, to, f).value)
  {
    SwapEffects(w, outA, outB, to, f);
  }

  lemma SyncIsSafe(w: World)
    requires Inv(w) && Sync(w).Ok?
    ensures Safe(w, Sync(w).value)
  {
  }

  // ---- Direct calls on the liquidity token -------------------------------------------

  /** The shares a direct call burns, if it succeeds. */
  function BurnedBy(call: LpCall): int {
    if call.CallBurn? || call.CallBurnFrom? then call.amount else 0
  }

  /** The token accepts a burn of a negative amount, which creates shares. */
  predicate Conjures(call: LpCall) {
    BurnedBy(call) < 0
  }

  /** The shares a direct call sends to the pair outside of `deposit_lp`. */
  function SentToPair(call: LpCall): int {
    if (call.CallTransfer? || call.CallTransferFrom?) && call.to == PAIR then call.amount else 0
  }

  /** A direct call moves the supply by what it burns and the pair's holding by what it
      sends there; nobody can spend the pair's own shares. */
  lemma OutsideLpMoves(w: World, call: LpCall)
    requires OutsideLp(w, call).Ok?
    ensures var w' := OutsideLp(w, call).value;
            && w' == w.(lp := w'.lp) && (LpInv(w.lp) ==> LpInv(w'.lp)) && w'.lp.paused == w.lp.paused
            && w'.lp.totalSupply == w.lp.totalSupply - BurnedBy(call) && 0 <= SentToPair(call)
            && (PairGrantsNothing(w.lp) ==>
                  PairGrantsNothing(w'.lp) && Bal(w'.lp.balances, PAIR) == Bal(w.lp.balances, PAIR) + SentToPair(call))
  {
    match call {
      case CallTransfer(from, to, amount) =>
        TransferConserves(w.lp, from, to, amount);
      case CallTransferFrom(spender, from, to, amount) =>
        TransferFromConserves(w.lp, spender, from, to, amount, w.ledger);
        TransferConserves(w.lp, from, to, amount);
      case CallApprove(_, _, _, _) =>
      case CallBurn(from, amount) =>
        BurnConserves(w.lp, from, amount);
      case CallBurnFrom(spender, from, amount) =>
        BurnFromConserves(w.lp, spender, from, amount, w.ledger);
    }
  }

  /** The failing input: before the first mint, a burn of -5000 succeeds and leaves a
      supply of which the pair holds no seed. */
  lemma NegativeBurnBeforeTheSeed(w: World, u: Address)
    requires Genesis(w) && u != PAIR
    ensures var a := DoLpCall(CallBurn(u, -5_000));
            Step(w, a).Ok? && !SeedInv(After(w, a)) && After(w, a).lp.totalSupply == 5_000
  {
  }

  lemma OutsideTransferMoves(w: World, ofA: bool, from: Address, to: Address, amount: int)
    requires OutsideTransfer(w, ofA, from, to, amount).Ok?
    ensures var w' := OutsideTransfer(w, ofA, from, to, amount).value;
            && Conserved(w, w') && w' == w.(tokenA := w'.tokenA, tokenB := w'.tokenB)
            && (Positive(w.tokenA) ==> Positive(w'.tokenA)) && (Positive(w.tokenB) ==> Positive(w'.tokenB))
            && Bal(w'.tokenA, PAIR) >= Bal(w.tokenA, PAIR) && Bal(w'.tokenB, PAIR) >= Bal(w.tokenB, PAIR)
  {
    MoveConserves(if ofA then w.tokenA else w.tokenB, from, to, amount);
  }

  // ---- Flash loans under any callback ------------------------------------------------

  /** What an action does to shares outside of the pair's own entry points: how many its
      direct burns create (negative if they destroy), and how many it sends to the pair. */
  datatype ShareFlow = ShareFlow(created: int, sent: int) {
    function Plus(f: ShareFlow): ShareFlow {
      ShareFlow(created + f.created, sent + f.sent)
    }
  }

  /** The flow of one action; a flash loan's is that of its callback. */
  function FlowOf(w: World, a: Action): ShareFlow
    decreases a
  {
    if Step(w, a).Err? then ShareFlow(0, 0)
    else
      match a
      case DoLpCall(call) => ShareFlow(-BurnedBy(call), SentToPair(call))
      case DoFlashLoan(receiver, amountA, amountB, payload, callback, _) =>
        var terms := FlashOpen(w, receiver, amountA, amountB, payload);
        if terms.Ok? && terms.value.Some? then FlowOfRun(terms.value.value.0, callback) else ShareFlow(0, 0)
      case _ => ShareFlow(0, 0)
  }

  function FlowOfRun(w: World, actions: seq<Action>): ShareFlow
    decreases actions
  {
    if actions == [] then ShareFlow(0, 0)
    else FlowOf(w, actions[0]).Plus(FlowOfRun(After(w, actions[0]), actions[1..]))
  }

  /** The supply and the pair's holding moved by exactly that flow. */
  ghost predicate Flowed(w: World, w': World, f: ShareFlow) {
    && w'.lp.totalSupply == w.lp.totalSupply + f.created && 0 <= f.sent
    && (PairGrantsNothing(w.lp) ==> PairGrantsNothing(w'.lp) && Bal(w'.lp.balances, PAIR) == Bal(w.lp.balances, PAIR) + f.sent)
  }

  /** The guard on what happens before the first mint locks the seed: no action creates
      shares, unless it also sends the pair a seed's worth.  Of a seeded pair it asks
      nothing. */
  predicate SeedFirst(w: World, a: Action) {
    w.lp.totalSupply == 0 ==> FlowOf(w, a).created == 0 || FlowOf(w, a).sent >= MINIMUM_LIQUIDITY
  }

  predicate SeedFirstRun(w: World, actions: seq<Action>)
    decreases |actions|
  {
    w.lp.totalSupply == 0 && actions != [] ==>
      SeedFirst(w, actions[0]) && SeedFirstRun(After(w, actions[0]), actions[1..])
  }

  lemma SeededNeedsNothing(w: World, a: Action)
    ensures w.lp.totalSupply != 0 ==> SeedFirst(w, a)
  {
  }

  /** After a flow of shares the seed is where it belongs exactly if the guard was met. */
  lemma FlowKeepsSeed(w: World, w': World, f: ShareFlow)
    requires CoreInv(w) && OpenInv(w') && Flowed(w, w', f) && w'.pendingTotal == w.pendingTotal
    ensures SeedInv(w') <==> (w.lp.totalSupply == 0 ==> f.created == 0 || f.sent >= MINIMUM_LIQUIDITY)
    ensures w.lp.totalSupply != 0 ==> w'.lp.totalSupply != 0
  {
    BalanceWithinSum(w.lp.balances, PAIR);
    BalanceWithinSum(w'.lp.balances, PAIR);
    SumNonneg(w.pending);
  }

  /** What cannot change while the lock is held: the stored pair state, every stage and
      the lock itself; the pair's holdings of all three tokens can only grow. */
  ghost predicate Held(w: World, w': World) {
    && w'.locked == w.locked && w'.store == w.store
    && w'.pending == w.pending && w'.pendingTotal == w.pendingTotal
    && Conserved(w, w')
    && Bal(w'.tokenA, PAIR) >= Bal(w.tokenA, PAIR)
    && Bal(w'.tokenB, PAIR) >= Bal(w.tokenB, PAIR)
    && (PairGrantsNothing(w.lp) ==> PairGrantsNothing(w'.lp) && Bal(w'.lp.balances, PAIR) >= Bal(w.lp.balances, PAIR))
  }

  predicate Guarded(a: Action) {
    a.DoInitialize? || a.DoMint? || a.DoDepositLp? || a.DoBurn? || a.DoBurnSingleSide? || a.DoSwap? || a.DoSync? || a.DoFlashLoan?
  }

  /** Under the lock every guarded entry point errs, or is the zero-amount flash loan. */
  lemma LockRejects(w: World, a: Action)
    requires w.locked && w.store.Some? && Guarded(a)
    ensures Step(w, a).Err? || (a.DoFlashLoan? && a.amountA == 0 && a.amountB == 0 && Step(w, a) == Ok(w))
  {
  }

  /** An action that is not a call on the pair's guarded entry points, from any state. */
  lemma OutsideStepHolds(w: World, a: Action)
    requires !Guarded(a)
    ensures Held(w, After(w, a)) && Flowed(w, After(w, a), FlowOf(w, a))
    ensures OpenInv(w) ==> OpenInv(After(w, a))
  {
    hide OutsideLp, OutsideTransfer, FlashLoan, Swap, FlowOfRun, Sum, FeeInv;
    if Step(w, a).Ok? {
      match a {
        case DoLpCall(call) => OutsideLpMoves(w, call);
        case DoTransfer(ofA, from, to, amount) => OutsideTransferMoves(w, ofA, from, to, amount);
        case DoSetStaleThreshold(threshold) => ThresholdKeepsFees(w.fees, threshold);
        case _ =>
      }
    }
  }

  lemma LockedStepHolds(w: World, a: Action)
    requires w.locked && w.store.Some?
    ensures Held(w, After(w, a)) && Flowed(w, After(w, a), FlowOf(w, a))
    ensures OpenInv(w) ==> OpenInv(After(w, a))
  {
    hide Step, OpenInv, PairGrantsNothing, FlowOfRun, Sum;
    if Guarded(a) {
      LockRejects(w, a);
      if a.DoFlashLoan? {
        FlashOpenCases(w, a.receiver, a.amountA, a.amountB, a.payload);
      }
    } else {
      hide FlowOf, After;
      OutsideStepHolds(w, a);
    }
  }

  /** Whatever a callback does, in any order and to any depth, from any state under the
      lock: pair state and stages stay, shares move by the flow of its direct calls, and
      everything but the seed's place survives. */
  lemma {:induction false} LockedRunHolds(w: World, actions: seq<Action>)
    requires w.locked && w.store.Some?
    ensures Held(w, Run(w, actions)) && Flowed(w, Run(w, actions), FlowOfRun(w, actions))
    ensures OpenInv(w) ==> OpenInv(Run(w, actions))
    decreases |actions|
  {
    hide After, OpenInv, FlowOf, Held, Flowed, CoreInv;
    if actions == [] {
      NothingFlows(w);
    } else {
      var w1 := After(w, actions[0]);
      LockedStepHolds(w, actions[0]);
      StillLocked(w, w1);
      LockedRunHolds(w1, actions[1..]);
      HeldChains(w, w1, Run(w1, actions[1..]), FlowOf(w, actions[0]), FlowOfRun(w1, actions[1..]));
    }
  }

  lemma NothingFlows(w: World)
    ensures Held(w, w) && Flowed(w, w, ShareFlow(0, 0))
  {
  }

  lemma StillLocked(w: World, w': World)
    requires Held(w, w') && w.locked && w.store.Some?
    ensures w'.locked && w'.store.Some?
  {
  }

  lemma HeldChains(w0: World, w1: World, w2: World, f: ShareFlow, g: ShareFlow)
    requires Held(w0, w1) && Held(w1, w2) && Flowed(w0, w1, f) && Flowed(w1, w2, g)
    ensures Held(w0, w2) && Flowed(w0, w2, f.Plus(g))
  {
    hide PairGrantsNothing, Sum;
  }

  /** The flash fee is the rate, at least 5 bps, rounded down but never to zero; only a
      zero-fee pool lends for free. */
  lemma FlashFeeBounds(amount: int, feeBps: nat)
    requires 0 < amount && FlashFee(amount, feeBps).Ok?
    ensures var fee, owed := FlashFee(amount, feeBps).value, amount * Max(feeBps, FLASH_FEE_FLOOR_BPS);
            if feeBps == 0 then fee == 0
            else 1 <= fee && owed < (fee + 1) * 10_000 && (fee * 10_000 <= owed || fee == 1)
  {
  }

  /** The world a receiver is called in. */
  lemma FlashOpens(w: World, receiver: Address, amountA: int, amountB: int, payload: nat)
    requires FlashOpen(w, receiver, amountA, amountB, payload).Ok?
    requires FlashOpen(w, receiver, amountA, amountB, payload).value.Some?
    ensures var (lent, loan) := FlashOpen(w, receiver, amountA, amountB, payload).value.value;
            && lent.locked && lent.store == w.store && w.store == Some(loan.snapshot) && Conserved(w, lent)
            && (OpenInv(w) ==> OpenInv(lent))
            && lent == w.(locked := true, tokenA := lent.tokenA, tokenB := lent.tokenB)
            && loan.preK == loan.snapshot.reserveA * loan.snapshot.reserveB
            && loan.amountA == amountA && loan.amountB == amountB && 0 <= loan.feeA && 0 <= loan.feeB
            && (amountA <= 0 ==> Bal(lent.tokenA, PAIR) == Bal(w.tokenA, PAIR))
            && (amountB <= 0 ==> Bal(lent.tokenB, PAIR) == Bal(w.tokenB, PAIR))
  {
    hide FlashFee, FeeInv, Sum, Move, LpInv;
    PayMoves(w.tokenA, receiver, amountA);
    PayMoves(w.tokenB, receiver, amountB);
    if amountA > 0 { FlashFeeBounds(amountA, w.fees.baselineFeeBps); }
    if amountB > 0 { FlashFeeBounds(amountB, w.fees.baselineFeeBps); }
  }

  /** From any state and under any callback: the pair state read before the callback is
      still the stored state when the snapshot is written back, and no stage has moved. */
  lemma SnapshotStaysCurrent(w: World, receiver: Address, amountA: int, amountB: int, payload: nat, callback: seq<Action>)
    requires FlashOpen(w, receiver, amountA, amountB, payload).Ok?
    requires FlashOpen(w, receiver, amountA, amountB, payload).value.Some?
    ensures var (lent, loan) := FlashOpen(w, receiver, amountA, amountB, payload).value.value;
            var back := Run(lent, callback);
            && back.store == Some(loan.snapshot) == w.store && Held(lent, back)
            && back.pending == w.pending && back.pendingTotal == w.pendingTotal
  {
    hide FlashOpen, Run, OpenInv, FlowOfRun;
    FlashOpens(w, receiver, amountA, amountB, payload);
    LockedRunHolds(FlashOpen(w, receiver, amountA, amountB, payload).value.value.0, callback);
  }

  /** With repayment verified, the final K check has nothing left to reject. */
  lemma RepaidKeepsK(w: World, loan: Loan)
    requires 0 <= loan.snapshot.reserveA && 0 <= loan.snapshot.reserveB && 0 <= loan.feeA && 0 <= loan.feeB
    requires loan.preK == loan.snapshot.reserveA * loan.snapshot.reserveB
    requires loan.amountA <= 0 ==> Bal(w.tokenA, PAIR) >= loan.snapshot.reserveA
    requires loan.amountB <= 0 ==> Bal(w.tokenB, PAIR) >= loan.snapshot.reserveB
    ensures FlashClose(w, loan) != Err(InvalidK)
    ensures FlashClose(w, loan).Ok? ==>
              var w' := FlashClose(w, loan).value;
              && w' == w.(locked := false, store := w'.store) && w'.store.Some?
              && var p' := w'.store.value;
              && p'.reserveA == Bal(w.tokenA, PAIR) && p'.reserveB == Bal(w.tokenB, PAIR)
              && p'.kLast == p'.reserveA * p'.reserveB >= loan.preK
              && p'.reserveA >= loan.snapshot.reserveA + (if loan.amountA > 0 then loan.feeA else 0)
              && p'.reserveB >= loan.snapshot.reserveB + (if loan.amountB > 0 then loan.feeB else 0)
  {
    var balA, balB := Bal(w.tokenA, PAIR), Bal(w.tokenB, PAIR);
    if loan.snapshot.reserveA <= balA && loan.snapshot.reserveB <= balB {
      MulMono2(loan.snapshot.reserveA, loan.snapshot.reserveB, balA, balB);
    }
  }

  /** A flash loan of a solvent pair under any callback: the final K check never fires,
      no stage moves, and a loan that succeeds leaves each reserve equal to the real
      balance, at or above its old value plus the fee on what was borrowed. */
  lemma FlashLoanEffects(w: World, receiver: Address, amountA: int, amountB: int, payload: nat, callback: seq<Action>, callbackOk: bool)
    requires PoolInv(w)
    ensures var r := FlashLoan(w, receiver, amountA, amountB, payload, callback, callbackOk);
            && r != Err(InvalidK)
            && (r.Ok? ==>
                  && r.value.pending == w.pending && r.value.pendingTotal == w.pendingTotal
                  && PoolInv(r.value) && Conserved(w, r.value)
                  && (PairGrantsNothing(w.lp) ==> Bal(r.value.lp.balances, PAIR) >= Bal(w.lp.balances, PAIR)))
            && (r.Ok? && amountA == 0 && amountB == 0 ==> r.value == w)
            && (r.Ok? && (amountA != 0 || amountB != 0) ==>
                  && w.store.Some? && r.value.store.Some? && !r.value.locked
                  && var p, p' := w.store.value, r.value.store.value;
                  && p'.reserveA == Bal(r.value.tokenA, PAIR) && p'.reserveB == Bal(r.value.tokenB, PAIR)
                  && FlashOpen(w, receiver, amountA, amountB, payload).Ok?
                  && p'.reserveA >= p.reserveA + (if amountA > 0 then FlashFee(amountA, w.fees.baselineFeeBps).value else 0)
                  && p'.reserveB >= p.reserveB + (if amountB > 0 then FlashFee(amountB, w.fees.baselineFeeBps).value else 0))
  {
    var terms := FlashOpen(w, receiver, amountA, amountB, payload);
    FlashOpenCases(w, receiver, amountA, amountB, payload);
    hide FlashOpen, FlashClose, Run, FlashFee, Sum, PairGrantsNothing;
    if terms.Ok? && terms.value.Some? {
      FlashOpens(w, receiver, amountA, amountB, payload);
      SnapshotStaysCurrent(w, receiver, amountA, amountB, payload, callback);
      RepaidKeepsK(Run(terms.value.value.0, callback), terms.value.value.1);
    }
  }

  /** A loan moves shares by the flow of its callback. */
  lemma FlashLoanFlows(w: World, a: Action)
    requires a.DoFlashLoan? && Step(w, a).Ok?
    ensures Flowed(w, After(w, a), FlowOf(w, a)) && (OpenInv(w) ==> OpenInv(After(w, a)))
  {
    hide Step, After, FlowOf, FlashOpen, FlashClose, Run, FlowOfRun, Held, Flowed, OpenInv, CoreInv;
    var terms := FlashOpen(w, a.receiver, a.amountA, a.amountB, a.payload);
    FlashLoanUnfolds(w, a);
    if terms.value.None? {
      NothingFlows(w);
    } else {
      var (lent, loan) := terms.value.value;
      var back := Run(lent, a.callback);
      FlashOpens(w, a.receiver, a.amountA, a.amountB, a.payload);
      LockedRunHolds(lent, a.callback);
      StillLocked(lent, back);
      FlashCloseKeeps(back, loan);
      SharesAlike(w, lent, back, After(w, a), FlowOf(w, a));
    }
  }

  lemma FlashLoanUnfolds(w: World, a: Action)
    requires a.DoFlashLoan? && Step(w, a).Ok?
    ensures var terms := FlashOpen(w, a.receiver, a.amountA, a.amountB, a.payload);
            && terms.Ok?
            && (terms.value.None? ==> After(w, a) == w && FlowOf(w, a) == ShareFlow(0, 0))
            && (terms.value.Some? ==>
                  var (lent, loan) := terms.value.value;
                  && FlashClose(Run(lent, a.callback), loan) == Ok(After(w, a))
                  && FlowOf(w, a) == FlowOfRun(lent, a.callback))
  {
    hide FlashOpen, FlashClose, Run, FlowOfRun;
  }

  lemma FlashCloseKeeps(w: World, loan: Loan)
    requires FlashClose(w, loan).Ok?
    ensures var w' := FlashClose(w, loan).value;
            && w'.lp == w.lp && w'.fees == w.fees && w'.pausedHint == w.pausedHint && w'.pending == w.pending
            && w'.pendingTotal == w.pendingTotal && w'.tokenA == w.tokenA && w'.tokenB == w.tokenB
            && (w.store.Some? ==> (OpenInv(w) ==> OpenInv(w')))
  {
  }

  /** Only the shares matter to a flow. */
  lemma SharesAlike(w0: World, w1: World, w2: World, w3: World, f: ShareFlow)
    requires w0.lp == w1.lp && w2.lp == w3.lp && Flowed(w1, w2, f)
    ensures Flowed(w0, w3, f)
  {
    hide PairGrantsNothing;
  }

  /** A successful loan keeps the pair safe exactly if its callback created no shares
      before the seed, or sent the pair a seed's worth of them. */
  lemma FlashLoanIsSafeExactly(w: World, a: Action)
    requires Inv(w) && a.DoFlashLoan? && Step(w, a).Ok?
    ensures Safe(w, After(w, a)) <==> SeedFirst(w, a)
  {
    FlashLoanFlows(w, a);
    FlashLoanUnlocks(w, a);
    hide FlowOf, PoolInv, Sum, FeeInv, After;
    FlowKeepsSeed(w, After(w, a), FlowOf(w, a));
  }

  lemma FlashLoanUnlocks(w: World, a: Action)
    requires Inv(w) && a.DoFlashLoan? && Step(w, a).Ok?
    ensures var w' := After(w, a); !w'.locked && w'.pendingTotal == w.pendingTotal && PoolInv(w') && Conserved(w, w')
  {
    FlashLoanEffects(w, a.receiver, a.amountA, a.amountB, a.payload, a.callback, a.callbackOk);
    hide FlashLoan, CoreInv, PoolInv, Sum;
  }

  lemma FlashOpenCases(w: World, receiver: Address, amountA: int, amountB: int, payload: nat)
    ensures var r := FlashOpen(w, receiver, amountA, amountB, payload);
            && r != Err(InvalidK)
            && (r.Ok? ==> (r.value.None? <==> amountA == 0 && amountB == 0))
            && (r.Ok? && r.value.Some? ==>
                  && (amountA > 0 ==> FlashFee(amountA, w.fees.baselineFeeBps) == Ok(r.value.value.1.feeA))
                  && (amountB > 0 ==> FlashFee(amountB, w.fees.baselineFeeBps) == Ok(r.value.value.1.feeB)))
  {
  }

  // ---- Every run ---------------------------------------------------------------------

  lemma LiquidityStepIsSafe(w: World, a: Action)
    requires Inv(w) && (a.DoMint? || a.DoDepositLp? || a.DoBurn? || a.DoBurnSingleSide?)
    ensures Safe(w, After(w, a))
  {
    hide Mint, Burn, BurnSingleSide, DepositLp, CoreInv, PoolInv, Sum;
    if Step(w, a).Ok? {
      match a {
        case DoMint(to) => MintIsSafe(w, to);
        case DoDepositLp(from, amount) => DepositLpIsSafe(w, from, amount);
        case DoBurn(to) => BurnIsSafe(w, to);
        case DoBurnSingleSide(to, lpAmount, preferred, minOut) => BurnSingleSideIsSafe(w, to, lpAmount, preferred, minOut);
      }
    }
  }

  lemma PoolStepIsSafe(w: World, a: Action)
    requires Inv(w) && (a.DoInitialize? || a.DoSwap? || a.DoSync?)
    ensures Safe(w, After(w, a))
  {
    hide Initialize, Swap, Sync, CoreInv, PoolInv, Sum;
    if Step(w, a).Ok? {
      match a {
        case DoInitialize(allowed) => InitializeIsSafe(w, allowed);
        case DoSwap(outA, outB, to, f) => SwapIsSafe(w, outA, outB, to, f);
        case DoSync => SyncIsSafe(w);
      }
    }
  }

  lemma OutsideStepIsSafeExactly(w: World, a: Action)
    requires Inv(w) && !Guarded(a)
    ensures Safe(w, After(w, a)) <==> SeedFirst(w, a)
  {
    hide After, FlowOf, Sum, FeeInv;
    OutsideStepHolds(w, a);
    FlowKeepsSeed(w, After(w, a), FlowOf(w, a));
  }

  lemma RejectedStepIsSafe(w: World, a: Action)
    requires Inv(w) && Step(w, a).Err?
    ensures Safe(w, After(w, a)) && SeedFirst(w, a)
  {
    hide Step, Inv;
  }

  /** Exactly which actions keep the pair safe: every one of them once the pair is seeded;
      before that, those that create no shares or send the pair a seed's worth. */
  lemma StepIsSafeExactly(w: World, a: Action)
    requires Inv(w)
    ensures Safe(w, After(w, a)) <==> SeedFirst(w, a)
  {
    if !Guarded(a) {
      OutsideStepIsSafeExactly(w, a);
    } else if Step(w, a).Err? {
      RejectedStepIsSafe(w, a);
    } else if a.DoFlashLoan? {
      FlashLoanIsSafeExactly(w, a);
    } else {
      hide Step, After, Inv, Safe;
      if a.DoMint? || a.DoDepositLp? || a.DoBurn? || a.DoBurnSingleSide? {
        LiquidityStepIsSafe(w, a);
      } else {
        PoolStepIsSafe(w, a);
      }
    }
  }

  lemma StepIsSafe(w: World, a: Action)
    requires Inv(w) && SeedFirst(w, a)
    ensures Safe(w, After(w, a))
  {
    hide After, SeedFirst, Inv, Safe;
    StepIsSafeExactly(w, a);
  }

  /** In particular every direct call on the liquidity token, whatever its sign. */
  lemma OutsideLpIsSafeExactly(w: World, call: LpCall)
    requires Inv(w) && OutsideLp(w, call).Ok?
    ensures Safe(w, OutsideLp(w, call).value) <==> w.lp.totalSupply != 0 || !Conjures(call)
  {
    hide OutsideLp, Inv, Safe, FlowOfRun;
    OutsideStepIsSafeExactly(w, DoLpCall(call));
    OutsideLpMoves(w, call);
    if w.lp.totalSupply == 0 {
      BalanceOfNobody(w, call);
    }
  }

  /** Without shares nobody can burn any. */
  lemma BalanceOfNobody(w: World, call: LpCall)
    requires Inv(w) && w.lp.totalSupply == 0 && OutsideLp(w, call).Ok?
    ensures BurnedBy(call) <= 0 && (BurnedBy(call) != 0 ==> SentToPair(call) == 0)
  {
    OutsideLpMoves(w, call);
    SumNonneg(w.lp.balances);
    SumNonneg(OutsideLp(w, call).value.lp.balances);
  }

  lemma ThresholdKeepsFees(fees: FeeState, threshold: nat)
    ensures FeeInv(fees.(staleThreshold := threshold)) <==> FeeInv(fees)
  {
  }

  /** Over every run, callbacks included, from any safe world in which either the pair
      is seeded or the run meets the guard until it is: the pair's real balance of
      each token stays at or above its recorded reserve, `k_last` is the product of the
      reserves, LP balances add up to the supply, stages add up to the staged total, the
      seed and every stage stay in the pair's hands, the fee accumulator stays within its
      cap, the lock is free between calls, neither token is created or destroyed, and a
      seeded pair stays seeded. */
  lemma {:induction false} RunIsSafe(w: World, actions: seq<Action>)
    requires Inv(w) && (w.lp.totalSupply != 0 || SeedFirstRun(w, actions))
    ensures Safe(w, Run(w, actions))
    decreases |actions|
  {
    if actions != [] {
      hide After, Inv, SeedFirst;
      SeededNeedsNothing(w, actions[0]);
      StepIsSafe(w, actions[0]);
      RunIsSafe(After(w, actions[0]), actions[1..]);
    }
  }
}
