/** Quotes against execution: what the swap's K check accepts, why a quoted output is
    always accepted, and the single-sided burn as a burn followed by a swap. */
module PairPricing {
  import opened Base
  import opened Arith
  import opened Quotes
  import opened PairMath
  import opened Ledgers
  import opened DynamicFee
  import opened LpToken
  import opened PairModel
  import opened PairSafety
  import opened PairAccounting

  // ---- The K check accepts exactly the quote -----------------------------------------

  /** An input of `x` on one side against recorded reserves, an output of `y` on the
      other: the K check is the curve `Admissible`. */
  lemma KCheckIsCurve(p: PairStorage, x: nat, y: int, feeBps: nat)
    ensures var r := KCheck(p, p.reserveA + x, p.reserveB - y, x, 0, feeBps);
            (r.Ok? ==> Admissible(x, y, p.reserveA, p.reserveB, feeBps))
            && (r == Err(InvalidK) ==> !Admissible(x, y, p.reserveA, p.reserveB, feeBps))
    ensures var r := KCheck(p, p.reserveA - y, p.reserveB + x, 0, x, feeBps);
            (r.Ok? ==> Admissible(x, y, p.reserveB, p.reserveA, feeBps))
            && (r == Err(InvalidK) ==> !Admissible(x, y, p.reserveB, p.reserveA, feeBps))
  {
    var inAdj, outAdj := (p.reserveA + x) * BPS - x * feeBps, (p.reserveB - y) * BPS;
    assert 0 * feeBps == 0;
    CommuteK((p.reserveA - y) * BPS, (p.reserveB + x) * BPS - x * feeBps, p.reserveA, p.reserveB);
  }

  lemma CommuteK(a: int, b: int, rA: int, rB: int)
    ensures a * b == b * a && rA * rB * 100_000_000 == rB * rA * 100_000_000
  {
  }

  /** A pool whose balances equal its reserves, except for an input of `x` that has just
      arrived on one side. */
  ghost predicate InputArrived(w: World, x: nat, sellA: bool) {
    && Inv(w) && w.store.Some? && 0 < x
    && SurplusA(w) == (if sellA then x else 0) && SurplusB(w) == (if sellA then 0 else x)
    && w.store.value.reserveA >= MINIMUM_RESERVE && w.store.value.reserveB >= MINIMUM_RESERVE
  }

  /** Swapping one way: request `y` of the token that is not being sold. */
  function SellFor(w: World, y: int, sellA: bool, to: Address, f: FactoryView): Result<World, PairError> {
    if sellA then Swap(w, 0, y, to, f) else Swap(w, y, 0, to, f)
  }

  /** The largest output the quote allows at the fee the swap charges. */
  ghost function BestOutput(w: World, x: nat, sellA: bool, feeBps: nat): int
    requires w.store.Some? && 0 < w.store.value.reserveA && 0 < w.store.value.reserveB && feeBps <= BPS
  {
    if sellA then OutFloor(x, w.store.value.reserveA, w.store.value.reserveB, feeBps)
    else OutFloor(x, w.store.value.reserveB, w.store.value.reserveA, feeBps)
  }

  lemma SellReachesKCheck(w: World, x: nat, y: int, sellA: bool, to: Address, f: Factory)
    requires InputArrived(w, x, sellA) && to != PAIR && 0 < y
    ensures var p := w.store.value;
            var feeBps := ChargedFee(DecayStale(w.fees, w.ledger), f);
            var r := SellFor(w, y, sellA, to, f);
            var k := if sellA then KCheck(p, p.reserveA + x, p.reserveB - y, x, 0, feeBps)
                     else KCheck(p, p.reserveA - y, p.reserveB + x, 0, x, feeBps);
            (r.Ok? ==> k.Ok?) && (r == Err(InvalidK) ==> k == Err(InvalidK))
  {
    hide KCheck, ProtocolCut, FeesAfterSwap, DecayStale, ComputeFee, CoreInv, Move;
    if sellA { PairPayout(w.tokenB, to, y); } else { PairPayout(w.tokenA, to, y); }
    RecordedNotK(0, 0, 0);
  }

  lemma PairPayout(m: Ledger, to: Address, amount: int)
    requires to != PAIR
    ensures Pay(m, to, amount).Ok? ==> Bal(Pay(m, to, amount).value, PAIR) == Bal(m, PAIR) - Max(amount, 0)
  {
  }

  lemma RecordedNotK(a: int, b: int, now: nat)
    ensures Recorded(a, b, now) != Err(InvalidK)
  {
  }

  /** With balances equal to reserves before the input arrived, the K check accepts an
      output exactly when it is at most the exact-in quote at the charged fee: a swap
      that succeeds asked for no more, a swap rejected by the K check asked for more. */
  lemma SwapAcceptsExactlyTheQuote(w: World, x: nat, y: int, sellA: bool, to: Address, f: Factory)
    requires InputArrived(w, x, sellA) && to != PAIR && 0 < y
    ensures var feeBps := ChargedFee(DecayStale(w.fees, w.ledger), f);
            && feeBps <= BPS
            && var r := SellFor(w, y, sellA, to, f);
            && (r.Ok? ==> y <= BestOutput(w, x, sellA, feeBps))
            && (r == Err(InvalidK) ==> y > BestOutput(w, x, sellA, feeBps))
  {
    FeeCharged(w, f);
    SellReachesKCheck(w, x, y, sellA, to, f);
    hide SellFor, KCheck, Inv, DecayStale, ChargedFee, BestOutput, SurplusA, SurplusB;
    KCheckAgainstQuote(w, x, y, sellA, ChargedFee(DecayStale(w.fees, w.ledger), f));
  }

  lemma FeeCharged(w: World, f: Factory)
    requires Inv(w) && w.store.Some?
    ensures ChargedFee(DecayStale(w.fees, w.ledger), f) <= BPS
  {
  }

  lemma KCheckAgainstQuote(w: World, x: nat, y: int, sellA: bool, feeBps: nat)
    requires w.store.Some? && 0 < w.store.value.reserveA && 0 < w.store.value.reserveB && feeBps <= BPS
    ensures var p := w.store.value;
            var k := if sellA then KCheck(p, p.reserveA + x, p.reserveB - y, x, 0, feeBps)
                     else KCheck(p, p.reserveA - y, p.reserveB + x, 0, x, feeBps);
            (k.Ok? ==> y <= BestOutput(w, x, sellA, feeBps)) && (k == Err(InvalidK) ==> y > BestOutput(w, x, sellA, feeBps))
  {
    hide KCheck, OutFloor, Admissible;
    var p := w.store.value;
    KCheckIsCurve(p, x, y, feeBps);
    if sellA {
      OutFloorIsLargest(x, y, p.reserveA, p.reserveB, feeBps);
    } else {
      OutFloorIsLargest(x, y, p.reserveB, p.reserveA, feeBps);
    }
  }

  /** The fee quoted to routers is never below the fee the swap then charges. */
  lemma EffectiveFeeCoversCharge(w: World, f: Factory)
    requires Inv(w) && w.store.Some?
    ensures EffectiveFee(w, f).Ok?
    ensures ChargedFee(DecayStale(w.fees, w.ledger), f) <= EffectiveFee(w, f).value.0 <= 10_000
    ensures EffectiveFee(w, f).value.1 ==> f.feeOverride == Some(ChargedFee(DecayStale(w.fees, w.ledger), f))
    ensures !EffectiveFee(w, f).value.1 ==> w.fees.minFeeBps <= ChargedFee(DecayStale(w.fees, w.ledger), f) <= w.fees.maxFeeBps <= 100
  {
    DecayNeverRaisesFee(w.fees, w.ledger);
    FeeWithinBounds(w.fees);
    DecayKeepsInv(w.fees, w.ledger);
    FeeWithinBounds(DecayStale(w.fees, w.ledger));
    DecayShrinks(w.fees, w.ledger);
  }

  /** The steps of one basis point an accumulator adds to the fee. */
  function FeeSteps(fees: FeeState, accumulator: nat): int {
    accumulator * fees.rampUpMultiplier / SCALE_TO_BPS
  }

  /** The accumulator after the decay a swap applies first. */
  function DecayedAccumulator(fees: FeeState, ledger: nat): int {
    DecayStale(fees, ledger).volAccumulator
  }

  /** Exactly when the quoted fee is the fee charged: under an override, or if decay removes
      no whole basis point that is not below the fee's lower bound anyway. */
  lemma EffectiveFeeIsChargedExactly(w: World, f: Factory)
    requires Inv(w) && w.store.Some?
    ensures EffectiveFee(w, f).Ok? && 0 <= DecayedAccumulator(w.fees, w.ledger)
    ensures ChargedFee(DecayStale(w.fees, w.ledger), f) == EffectiveFee(w, f).value.0
       <==> || EffectiveFee(w, f).value.1
            || FeeSteps(w.fees, DecayedAccumulator(w.fees, w.ledger)) == FeeSteps(w.fees, w.fees.volAccumulator)
            || w.fees.baselineFeeBps + FeeSteps(w.fees, w.fees.volAccumulator) <= w.fees.minFeeBps
  {
    var decayed := DecayStale(w.fees, w.ledger);
    DecayKeepsInv(w.fees, w.ledger);
    DecayShrinks(w.fees, w.ledger);
    FeeInSteps(w.fees);
    FeeInSteps(decayed);
    FeeStepsMonotone(w.fees, decayed.volAccumulator, w.fees.volAccumulator);
  }

  lemma FeeInSteps(fees: FeeState)
    requires FeeInv(fees)
    ensures ComputeFee(fees) == Max(fees.minFeeBps, fees.baselineFeeBps + FeeSteps(fees, fees.volAccumulator))
  {
    FeeWithinBounds(fees);
    MulMono(0, fees.volAccumulator, fees.rampUpMultiplier);
    UncappedFee(fees);
  }

  lemma UncappedFee(fees: FeeState)
    requires FeeInv(fees)
    ensures RawFee(fees) == fees.baselineFeeBps + FeeSteps(fees, fees.volAccumulator)
  {
    var headroom := fees.maxFeeBps - fees.baselineFeeBps;
    var scaled := fees.volAccumulator * fees.rampUpMultiplier;
    DivGalois(headroom * SCALE_TO_BPS, fees.rampUpMultiplier, fees.volAccumulator);
    MulMono(0, fees.volAccumulator, fees.rampUpMultiplier);
    DivNonneg(scaled, SCALE_TO_BPS);
  }

  lemma FeeStepsMonotone(fees: FeeState, low: nat, high: nat)
    requires low <= high
    ensures 0 <= FeeSteps(fees, low) <= FeeSteps(fees, high)
  {
    MulMono2(low, fees.rampUpMultiplier, high, fees.rampUpMultiplier);
    DivNonneg(low * fees.rampUpMultiplier, SCALE_TO_BPS);
    DivMono(low * fees.rampUpMultiplier, high * fees.rampUpMultiplier, SCALE_TO_BPS);
  }

  /** Reserves in the direction of a trade. */
  function Facing(p: PairStorage, sellA: bool): (int, int) {
    if sellA then (p.reserveA, p.reserveB) else (p.reserveB, p.reserveA)
  }

  /** Any input and output on the curve at the quoted fee pass the K check in the same
      state: this covers each hop of an exact-out route. */
  lemma AdmissibleTradePassesKCheck(w: World, x: nat, y: int, sellA: bool, to: Address, f: Factory)
    requires InputArrived(w, x, sellA) && to != PAIR && 0 < y && EffectiveFee(w, f).Ok?
    requires var (rIn, rOut) := Facing(w.store.value, sellA); Admissible(x, y, rIn, rOut, EffectiveFee(w, f).value.0)
    ensures SellFor(w, y, sellA, to, f) != Err(InvalidK)
  {
    EffectiveFeeCoversCharge(w, f);
    hide SellFor, CoreInv, OutFloor, DecayStale, ChargedFee, EffectiveFee, Admissible;
    var (rIn, rOut) := Facing(w.store.value, sellA);
    var fee := EffectiveFee(w, f).value.0;
    OutFloorIsLargest(x, y, rIn, rOut, fee);
    OutFloorFeeMonotone(x, rIn, rOut, ChargedFee(DecayStale(w.fees, w.ledger), f), fee);
    SwapAcceptsExactlyTheQuote(w, x, y, sellA, to, f);
  }

  /** Any output quoted with the effective fee passes the K check in the same state. */
  lemma QuotedOutputPassesKCheck(w: World, x: nat, sellA: bool, to: Address, f: Factory)
    requires InputArrived(w, x, sellA) && to != PAIR
    ensures EffectiveFee(w, f).Ok?
    ensures var (rIn, rOut) := Facing(w.store.value, sellA);
            var quote := QuoteOut(x, rIn, rOut, EffectiveFee(w, f).value.0);
            quote.Ok? ==> SellFor(w, quote.value, sellA, to, f) != Err(InvalidK)
  {
    EffectiveFeeCoversCharge(w, f);
    hide SellFor, CoreInv, OutFloor, QuoteOut, EffectiveFee, Admissible;
    var (rIn, rOut) := Facing(w.store.value, sellA);
    var fee := EffectiveFee(w, f).value.0;
    if QuoteOut(x, rIn, rOut, fee).Ok? {
      QuoteOutIsFloor(x, rIn, rOut, fee);
      OutFloorIsLargest(x, QuoteOut(x, rIn, rOut, fee).value, rIn, rOut, fee);
      AdmissibleTradePassesKCheck(w, x, QuoteOut(x, rIn, rOut, fee).value, sellA, to, f);
    }
  }

  // ---- Single-sided burns ------------------------------------------------------------

  /** The output of the internal leg is on the curve, so the operation's own K check has
      nothing to reject. */
  lemma LegPassesKCheck(shareUnwanted: int, pref: int, unwanted: int, swapOut: int, feeBps: nat)
    requires 0 < shareUnwanted && 0 <= pref && shareUnwanted <= unwanted && feeBps <= BPS
    requires LegOut(shareUnwanted, unwanted - shareUnwanted, pref, feeBps) == Ok(swapOut)
    ensures ((pref - swapOut) * BPS) * (unwanted * BPS - shareUnwanted * feeBps) >= pref * (unwanted - shareUnwanted) * 100_000_000
  {
    var post := unwanted - shareUnwanted;
    if swapOut == 0 {
      ZeroLeg(shareUnwanted, pref, unwanted, feeBps);
    } else {
      hide QuoteOut, OutFloor;
      QuoteOutIsFloor(shareUnwanted, post, pref, feeBps);
      OutFloorIsLargest(shareUnwanted, swapOut, post, pref, feeBps);
      CommuteK((pref - swapOut) * BPS, unwanted * BPS - shareUnwanted * feeBps, pref, post);
    }
  }

  lemma ZeroLeg(share: int, pref: int, unwanted: int, feeBps: nat)
    requires 0 < share <= unwanted && 0 <= pref && feeBps <= BPS
    ensures (pref * BPS) * (unwanted * BPS - share * feeBps) >= pref * (unwanted - share) * 100_000_000
  {
    MulMono(feeBps, BPS, share);
    MulMono((unwanted - share) * BPS, unwanted * BPS - share * feeBps, pref * BPS);
    assert (unwanted - share) * BPS * (pref * BPS) == pref * (unwanted - share) * 100_000_000;
  }

  lemma SingleSideNeverFailsK(sharePref: int, shareUnwanted: int, pref: int, unwanted: int, feeBps: nat, minOut: int)
    requires 0 < shareUnwanted <= unwanted && 0 <= sharePref <= pref && feeBps <= BPS
    ensures SingleSideLeg(sharePref, shareUnwanted, pref, unwanted, feeBps, minOut) != Err(InvalidK)
  {
    var leg := LegOut(shareUnwanted, unwanted - shareUnwanted, pref - sharePref, feeBps);
    if leg.Ok? {
      LegPassesKCheck(shareUnwanted, pref - sharePref, unwanted, leg.value, feeBps);
    }
    LegErrors(shareUnwanted, unwanted - shareUnwanted, pref - sharePref, feeBps);
    hide LegOut;
  }

  lemma LegErrors(amountIn: int, rIn: int, rOut: int, feeBps: nat)
    ensures LegOut(amountIn, rIn, rOut, feeBps) != Err(InvalidK)
  {
  }

  /** No single-sided burn is ever rejected by its own K check. */
  lemma BurnSingleSideNeverFailsK(w: World, to: Address, lpAmount: int, preferred: Preferred, minOut: int)
    requires Inv(w)
    ensures BurnSingleSide(w, to, lpAmount, preferred, minOut) != Err(InvalidK)
  {
    hide SingleSideLeg, Sum, FeeInv, BurnAmounts, ComputeFee, Pay;
    if w.store.Some? && to != PAIR && BurnLp(w.lp, to, lpAmount).Ok? && 0 < lpAmount && w.lp.totalSupply != 0 {
      var p := w.store.value;
      var supply := w.lp.totalSupply - MINIMUM_LIQUIDITY;
      HolderBelowSeed(w, to);
      SumNonneg(w.pending);
      FeeWithinBounds(w.fees);
      var shares := FromMath(BurnAmounts(lpAmount, p.reserveA, p.reserveB, supply));
      if shares.Ok? {
        SharesWithinReserves(lpAmount, p.reserveA, p.reserveB, supply);
        var (a, b) := shares.value;
        if 0 < a && 0 < b {
          SingleSideNeverFailsK(a, b, p.reserveA, p.reserveB, ComputeFee(w.fees), minOut);
          SingleSideNeverFailsK(b, a, p.reserveB, p.reserveA, ComputeFee(w.fees), minOut);
        }
      }
    }
    PayNotK(w);
  }

  lemma PayNotK(w: World)
    ensures forall m: Ledger, to: Address, amount: int :: Pay(m, to, amount) != Err(InvalidK)
    ensures forall lp: int, rA: int, rB: int, s: int :: FromMath(BurnAmounts(lp, rA, rB, s)) != Err(InvalidK)
  {
  }

  function Token(w: World, ofA: bool): Ledger {
    if ofA then w.tokenA else w.tokenB
  }

  function Reserve(p: PairStorage, ofA: bool): int {
    if ofA then p.reserveA else p.reserveB
  }

  /** Two ledgers in which everybody holds the same. */
  ghost predicate SameHoldings(m: Ledger, m': Ledger) {
    forall who :: Bal(m, who) == Bal(m', who)
  }

  /** Two worlds with the same pool, the same token holdings and the same shares. */
  ghost predicate SamePool(w: World, w': World) {
    && w.store == w'.store
    && SameHoldings(w.tokenA, w'.tokenA) && SameHoldings(w.tokenB, w'.tokenB)
    && SameHoldings(w.lp.balances, w'.lp.balances) && w.lp.totalSupply == w'.lp.totalSupply
    && SameHoldings(w.pending, w'.pending) && w.pendingTotal == w'.pendingTotal
  }

  lemma PayEffect(m: Ledger, to: Address, amount: int)
    requires to != PAIR && Pay(m, to, amount).Ok?
    ensures forall who :: Bal(Pay(m, to, amount).value, who) ==
              Bal(m, who) + (if who == to then Max(amount, 0) else if who == PAIR then -Max(amount, 0) else 0)
  {
  }

  /** The long way round: stage, burn, send the unwanted share back, swap it. */
  datatype LongWay = LongWay(staged: World, burned: World, shareA: int, shareB: int, returned: World, swapped: World)

  ghost predicate TakesLongWay(w: World, to: Address, lp: int, prefA: bool, y: int, f: FactoryView, r: LongWay) {
    && DepositLp(w, to, lp) == Ok(r.staged)
    && Burn(r.staged, to) == Ok((r.burned, r.shareA, r.shareB))
    && OutsideTransfer(r.burned, !prefA, to, PAIR, if prefA then r.shareB else r.shareA) == Ok(r.returned)
    && SellFor(r.returned, y, !prefA, to, f) == Ok(r.swapped)
  }

  lemma StageEffect(w: World, from: Address, lp: int)
    requires DepositLp(w, from, lp).Ok?
    ensures var w' := DepositLp(w, from, lp).value;
            && 0 < lp && w.store.Some? && !w.pausedHint && !w.locked && from != PAIR && Bal(w.lp.balances, from) >= lp
            && w' == w.(lp := w'.lp, pending := w'.pending, pendingTotal := w.pendingTotal + lp)
            && w'.lp.totalSupply == w.lp.totalSupply
            && (forall who :: Bal(w'.lp.balances, who) == Bal(w.lp.balances, who) + (if who == from then -lp else if who == PAIR then lp else 0))
            && (forall who :: Bal(w'.pending, who) == Bal(w.pending, who) + (if who == from then lp else 0))
  {
    TransferConserves(w.lp, from, PAIR, lp);
  }

  lemma BurnEffect(w: World, to: Address)
    requires Burn(w, to).Ok? && 0 < Bal(w.pending, to)
    ensures w.store.Some? && w.lp.totalSupply != 0 && w.lp.totalSupply != MINIMUM_LIQUIDITY
    ensures var (w', a, b) := Burn(w, to).value;
            w'.store.Some? && 0 < a && 0 < b
    ensures var (w', a, b) := Burn(w, to).value;
            var p := w.store.value;
            FromMath(BurnAmounts(Bal(w.pending, to), p.reserveA, p.reserveB, w.lp.totalSupply - MINIMUM_LIQUIDITY)) == Ok((a, b))
    ensures var (w', a, b) := Burn(w, to).value;
            var p, p' := w.store.value, w'.store.value;
            p'.reserveA == p.reserveA - a && p'.reserveB == p.reserveB - b
    ensures var (w', a, b) := Burn(w, to).value;
            Pay(w.tokenA, to, a) == Ok(w'.tokenA) && Pay(w.tokenB, to, b) == Ok(w'.tokenB)
    ensures var (w', a, b) := Burn(w, to).value;
            BurnLp(w.lp, PAIR, Bal(w.pending, to)) == Ok(w'.lp)
    ensures var (w', a, b) := Burn(w, to).value;
            w'.lp.totalSupply == w.lp.totalSupply - Bal(w.pending, to)
    ensures var (w', a, b) := Burn(w, to).value;
            forall who :: Bal(w'.lp.balances, who) == Bal(w.lp.balances, who) - (if who == PAIR then Bal(w.pending, to) else 0)
    ensures var (w', a, b) := Burn(w, to).value;
            (forall who :: Bal(w'.pending, who) == (if who == to then 0 else Bal(w.pending, who)))
    ensures var (w', a, b) := Burn(w, to).value;
            w'.pendingTotal == w.pendingTotal - Bal(w.pending, to)
            && w'.fees == w.fees && w'.ledger == w.ledger && w'.timestamp == w.timestamp && w'.frozen == w.frozen
  {
    hide BurnAmounts, Pay;
    var p := w.store.value;
    var shares := FromMath(BurnAmounts(Bal(w.pending, to), p.reserveA, p.reserveB, w.lp.totalSupply - MINIMUM_LIQUIDITY));
    assert shares.Ok? && shares.value == (shares.value.0, shares.value.1);
    BurnConserves(w.lp, PAIR, Bal(w.pending, to));
  }

  /** Staging then burning redeems exactly the staged shares. */
  lemma StageThenBurn(w: World, to: Address, lp: int, r: LongWay)
    requires Bal(w.pending, to) == 0
    requires DepositLp(w, to, lp) == Ok(r.staged) && Burn(r.staged, to) == Ok((r.burned, r.shareA, r.shareB))
    ensures 0 < lp && w.store.Some? && r.burned.store.Some? && w.lp.totalSupply != MINIMUM_LIQUIDITY && w.lp.totalSupply != 0
    ensures var p, p' := w.store.value, r.burned.store.value;
            && FromMath(BurnAmounts(lp, p.reserveA, p.reserveB, w.lp.totalSupply - MINIMUM_LIQUIDITY)) == Ok((r.shareA, r.shareB))
            && 0 < r.shareA && 0 < r.shareB
            && p'.reserveA == p.reserveA - r.shareA && p'.reserveB == p.reserveB - r.shareB
            && Pay(w.tokenA, to, r.shareA) == Ok(r.burned.tokenA) && Pay(w.tokenB, to, r.shareB) == Ok(r.burned.tokenB)
    ensures r.burned.timestamp == w.timestamp && r.burned.lp.totalSupply == w.lp.totalSupply - lp
    ensures r.burned.fees == w.fees && r.burned.ledger == w.ledger && r.burned.frozen == w.frozen
    ensures forall who :: Bal(r.burned.lp.balances, who) == Bal(w.lp.balances, who) - (if who == to then lp else 0)
    ensures SameHoldings(r.burned.pending, w.pending) && r.burned.pendingTotal == w.pendingTotal
  {
    hide BurnAmounts, DepositLp, Burn, Pay, Bal;
    StageEffect(w, to, lp);
    BurnEffect(r.staged, to);
  }

  /** Swapping the returned share: with no protocol cut the whole input stays. */
  lemma SwapReturnedShare(w: World, x: nat, y: int, sellA: bool, to: Address, f: FactoryView)
    requires w.store.Some? && to != PAIR && f.feeTo.None? && 0 < x && 0 < y
    requires SurplusA(w) == (if sellA then x else 0) && SurplusB(w) == (if sellA then 0 else x)
    requires SellFor(w, y, sellA, to, f).Ok?
    ensures var w' := SellFor(w, y, sellA, to, f).value;
            && w' == w.(store := w'.store, fees := w'.fees, tokenA := w'.tokenA, tokenB := w'.tokenB)
            && w'.store.Some?
            && var p, p' := w.store.value, w'.store.value;
            && Reserve(p', sellA) == Reserve(p, sellA) + x && Reserve(p', !sellA) == Reserve(p, !sellA) - y
            && p'.kLast == p'.reserveA * p'.reserveB && p'.blockTimestampLast == w.timestamp
            && Token(w', sellA) == Token(w, sellA) && Pay(Token(w, !sellA), to, y) == Ok(Token(w', !sellA))
  {
    hide KCheck, FeesAfterSwap, DecayStale, ComputeFee, Move;
    PairPayout(w.tokenA, to, y);
    PairPayout(w.tokenB, to, y);
  }

  /** The single-sided burn, with its internal leg spelled out. */
  lemma SingleSideUnfolded(w: World, to: Address, lp: int, prefA: bool, minOut: int, shareA: int, shareB: int, y: int)
    requires Inv(w) && w.store.Some? && to != PAIR && w.lp.totalSupply != 0 && w.lp.totalSupply != MINIMUM_LIQUIDITY
    requires FromMath(BurnAmounts(lp, w.store.value.reserveA, w.store.value.reserveB, w.lp.totalSupply - MINIMUM_LIQUIDITY)) == Ok((shareA, shareB))
    requires BurnSingleSide(w, to, lp, if prefA then TokenA else TokenB, minOut).Ok?
    requires var p := w.store.value;
             if prefA then QuoteOut(shareB, p.reserveB - shareB, p.reserveA - shareA, ComputeFee(w.fees)) == Ok(y)
             else QuoteOut(shareA, p.reserveA - shareA, p.reserveB - shareB, ComputeFee(w.fees)) == Ok(y)
    ensures var (w', out) := BurnSingleSide(w, to, lp, if prefA then TokenA else TokenB, minOut).value;
            var p := w.store.value;
            && BurnLp(w.lp, to, lp) == Ok(w'.lp)
            && w' == w.(lp := w'.lp, store := w'.store, tokenA := w'.tokenA, tokenB := w'.tokenB)
            && out == (if prefA then shareA else shareB) + y
            && w'.store.Some?
            && var p' := w'.store.value;
            && p' == PairStorage(p'.reserveA, p'.reserveB, w.timestamp, p'.reserveA * p'.reserveB)
            && Reserve(p', !prefA) == Reserve(p, !prefA) && Reserve(p', prefA) == Reserve(p, prefA) - out
            && Token(w', !prefA) == Token(w, !prefA) && Pay(Token(w, prefA), to, out) == Ok(Token(w', prefA))
  {
    hide BurnAmounts, Sum, FeeInv, Pay, ComputeFee, QuoteOut, BurnLp;
    var p := w.store.value;
    if prefA {
      QuoteOutIsFloor(shareB, p.reserveB - shareB, p.reserveA - shareA, ComputeFee(w.fees));
    } else {
      QuoteOutIsFloor(shareA, p.reserveA - shareA, p.reserveB - shareB, ComputeFee(w.fees));
    }
  }

  /** A single-sided burn pays the same and leaves the same pool, holdings, shares and
      stages as a proportional burn followed by swapping the unwanted share back in at
      the same fee, whenever that leg quotes a positive output. */
  lemma SingleSideIsBurnThenSwap(w: World, to: Address, lp: int, prefA: bool, minOut: int, y: int, f: FactoryView, r: LongWay)
    requires Inv(w) && Exact(w) && to != PAIR && Bal(w.pending, to) == 0 && f.feeTo.None?
    requires TakesLongWay(w, to, lp, prefA, y, f, r)
    requires BurnSingleSide(w, to, lp, if prefA then TokenA else TokenB, minOut).Ok?
    requires var p := w.store.value;
             if prefA then QuoteOut(r.shareB, p.reserveB - r.shareB, p.reserveA - r.shareA, ComputeFee(w.fees)) == Ok(y)
             else QuoteOut(r.shareA, p.reserveA - r.shareA, p.reserveB - r.shareB, ComputeFee(w.fees)) == Ok(y)
    ensures var (w', out) := BurnSingleSide(w, to, lp, if prefA then TokenA else TokenB, minOut).value;
            && out == (if prefA then r.shareA else r.shareB) + y
            && SamePool(w', r.swapped)
  {
    hide BurnSingleSide, Burn, DepositLp, SellFor, OutsideTransfer, QuoteOut, BurnAmounts, BurnLp, Pay, Move, Bal, CoreInv, PoolInv, ComputeFee;
    var (w', out) := BurnSingleSide(w, to, lp, if prefA then TokenA else TokenB, minOut).value;
    var share := if prefA then r.shareB else r.shareA;
    StageThenBurn(w, to, lp, r);
    SingleSideUnfolded(w, to, lp, prefA, minOut, r.shareA, r.shareB, y);
    ReturnsShare(w, to, prefA, r);
    QuotePositive(r, w.store.value, prefA, ComputeFee(w.fees), y);
    SwapReturnedShare(r.returned, share, y, !prefA, to, f);
    PayEffect(Token(w, prefA), to, if prefA then r.shareA else r.shareB);
    PayEffect(Token(r.returned, prefA), to, y);
    PayEffect(Token(w, prefA), to, out);
    BurnConserves(w.lp, to, lp);
    assert SameHoldings(Token(w', prefA), Token(r.swapped, prefA));
    assert SameHoldings(Token(w', !prefA), Token(r.swapped, !prefA));
  }

  /** Everything the K check asks of a trade of `x` for what leaves `left` of `pref`. */
  predicate KSides(pref: int, unwanted: int, left: int, x: int, feeBps: nat) {
    && InI128(pref * unwanted) && InI128(pref * unwanted * 100_000_000)
    && InI128(left * BPS) && InI128((unwanted + x) * BPS) && InI128(x * feeBps)
    && InI128((unwanted + x) * BPS - x * feeBps) && InI128(left * BPS * ((unwanted + x) * BPS - x * feeBps))
    && left * BPS * ((unwanted + x) * BPS - x * feeBps) >= pref * unwanted * 100_000_000
  }

  lemma KCheckSides(p: PairStorage, x: nat, y: int, feeBps: nat)
    ensures KCheck(p, p.reserveA + x, p.reserveB - y, x, 0, feeBps).Ok? ==> KSides(p.reserveB, p.reserveA, p.reserveB - y, x, feeBps)
    ensures KCheck(p, p.reserveA - y, p.reserveB + x, 0, x, feeBps).Ok? ==> KSides(p.reserveA, p.reserveB, p.reserveA - y, x, feeBps)
  {
    assert 0 * feeBps == 0;
    CommuteK((p.reserveB - y) * BPS, (p.reserveA + x) * BPS - x * feeBps, p.reserveA, p.reserveB);
    assert p.reserveA * p.reserveB == p.reserveB * p.reserveA;
  }

  /** The checks a successful swap of the returned share went through. */
  lemma SwapChecked(w: World, x: nat, y: int, sellA: bool, to: Address, f: FactoryView)
    requires w.store.Some? && to != PAIR && f.feeTo.None? && 0 < x && 0 < y
    requires SurplusA(w) == (if sellA then x else 0) && SurplusB(w) == (if sellA then 0 else x)
    requires SellFor(w, y, sellA, to, f).Ok?
    ensures !w.frozen
    ensures var p, fee := w.store.value, ChargedFee(DecayStale(w.fees, w.ledger), f);
            && KSides(Reserve(p, !sellA), Reserve(p, sellA), Reserve(p, !sellA) - y, x, fee)
            && InI128((Reserve(p, !sellA) - y) * (Reserve(p, sellA) + x))
            && InI128(Bal(Token(w, !sellA), to) + y)
  {
    hide KSides, KCheck, FeesAfterSwap, DecayStale, ComputeFee;
    PairPayout(w.tokenA, to, y);
    PairPayout(w.tokenB, to, y);
    var p := w.store.value;
    KCheckSides(p, x, y, ChargedFee(DecayStale(w.fees, w.ledger), f));
    CommuteK(Reserve(p, !sellA) - y, Reserve(p, sellA) + x, 0, 0);
  }

  lemma LegGoesThrough(share: int, unwantedShare: int, pref: int, unwanted: int, feeBps: nat, minOut: int, y: int)
    requires InI128(pref - share) && InI128(unwanted - unwantedShare) && InI128(share + y)
    requires QuoteOut(unwantedShare, unwanted - unwantedShare, pref - share, feeBps) == Ok(y)
    requires KSides(pref - share, unwanted - unwantedShare, pref - share - y, unwantedShare, feeBps)
    ensures SingleSideLeg(share, unwantedShare, pref, unwanted, feeBps, minOut)
         == if minOut <= share + y then Ok((share + y, pref - share - y)) else Err(SlippageExceeded)
  {
    QuoteOutIsFloor(unwantedShare, unwanted - unwantedShare, pref - share, feeBps);
    hide QuoteOut;
    assert unwanted - unwantedShare + unwantedShare == unwanted;
  }

  /** The guards that staging and burning passed, as a single-sided burn meets them. */
  lemma LongWayGuards(w: World, to: Address, lp: int, r: LongWay)
    requires Inv(w) && Bal(w.pending, to) == 0
    requires DepositLp(w, to, lp) == Ok(r.staged) && Burn(r.staged, to) == Ok((r.burned, r.shareA, r.shareB))
    ensures w.store.Some? && to != PAIR && !w.pausedHint && 0 < lp && BurnLp(w.lp, to, lp).Ok?
    ensures w.lp.totalSupply != 0 && InI128(w.lp.totalSupply - MINIMUM_LIQUIDITY)
    ensures InI128(w.store.value.reserveA - r.shareA) && InI128(w.store.value.reserveB - r.shareB)
  {
    hide BurnAmounts, Pay, Sum, FeeInv, Move;
    StageEffect(w, to, lp);
    HolderBelowSeed(w, to);
    SumNonneg(w.pending);
  }

  lemma SingleSideAssembled(w: World, to: Address, lp: int, prefA: bool, minOut: int, shareA: int, shareB: int, y: int)
    requires Inv(w) && Exact(w) && to != PAIR && !w.pausedHint && !w.frozen && 0 < lp && BurnLp(w.lp, to, lp).Ok?
    requires w.lp.totalSupply != 0 && w.lp.totalSupply != MINIMUM_LIQUIDITY && InI128(w.lp.totalSupply - MINIMUM_LIQUIDITY)
    requires FromMath(BurnAmounts(lp, w.store.value.reserveA, w.store.value.reserveB, w.lp.totalSupply - MINIMUM_LIQUIDITY)) == Ok((shareA, shareB))
    requires 0 < shareA && 0 < shareB && InI128(w.store.value.reserveA - shareA) && InI128(w.store.value.reserveB - shareB)
    requires var p := w.store.value; var (share, back) := if prefA then (shareA, shareB) else (shareB, shareA);
             && QuoteOut(back, Reserve(p, !prefA) - back, Reserve(p, prefA) - share, ComputeFee(w.fees)) == Ok(y)
             && KSides(Reserve(p, prefA) - share, Reserve(p, !prefA) - back, Reserve(p, prefA) - share - y, back, ComputeFee(w.fees))
             && InI128((Reserve(p, prefA) - share - y) * Reserve(p, !prefA))
             && InI128(Bal(Token(w, prefA), to) + share + y)
    ensures BurnSingleSide(w, to, lp, if prefA then TokenA else TokenB, minOut).Ok?
       <==> 0 < minOut <= (if prefA then shareA else shareB) + y
  {
    hide BurnAmounts, BurnLp, SingleSideLeg, QuoteOut, KSides, ComputeFee, FeeInv, Sum, Pay;
    var p := w.store.value;
    var (share, back) := if prefA then (shareA, shareB) else (shareB, shareA);
    QuoteOutIsFloor(back, Reserve(p, !prefA) - back, Reserve(p, prefA) - share, ComputeFee(w.fees));
    LegGoesThrough(share, back, Reserve(p, prefA), Reserve(p, !prefA), ComputeFee(w.fees), minOut, y);
    PayGoesThrough(Token(w, prefA), to, share + y);
    CommuteK(Reserve(p, prefA) - share - y, Reserve(p, !prefA), 0, 0);
  }

  lemma PayGoesThrough(m: Ledger, to: Address, amount: int)
    requires to != PAIR && 0 < amount <= Bal(m, PAIR) && InI128(Bal(m, to) + amount)
    ensures Pay(m, to, amount).Ok?
  {
  }

  /** Once the long way succeeds at the undecayed fee, the single-sided burn does too,
      for exactly the minimum outputs it can meet. */
  lemma SingleSideSucceedsExactly(w: World, to: Address, lp: int, prefA: bool, minOut: int, y: int, f: FactoryView, r: LongWay)
    requires Inv(w) && Exact(w) && to != PAIR && Bal(w.pending, to) == 0 && f.feeTo.None?
    requires TakesLongWay(w, to, lp, prefA, y, f, r)
    requires ChargedFee(DecayStale(w.fees, w.ledger), f) == ComputeFee(w.fees)
    requires var p := w.store.value;
             if prefA then QuoteOut(r.shareB, p.reserveB - r.shareB, p.reserveA - r.shareA, ComputeFee(w.fees)) == Ok(y)
             else QuoteOut(r.shareA, p.reserveA - r.shareA, p.reserveB - r.shareB, ComputeFee(w.fees)) == Ok(y)
    ensures BurnSingleSide(w, to, lp, if prefA then TokenA else TokenB, minOut).Ok?
       <==> 0 < minOut <= (if prefA then r.shareA else r.shareB) + y
  {
    hide BurnSingleSide, Burn, DepositLp, SellFor, OutsideTransfer, QuoteOut, BurnAmounts, BurnLp, Pay, Move, Bal, KSides, CoreInv, PoolInv, ComputeFee;
    StageThenBurn(w, to, lp, r);
    LongWayGuards(w, to, lp, r);
    ReturnsShare(w, to, prefA, r);
    QuotePositive(r, w.store.value, prefA, ComputeFee(w.fees), y);
    SwapChecked(r.returned, if prefA then r.shareB else r.shareA, y, !prefA, to, f);
    PayEffect(w.tokenA, to, r.shareA);
    PayEffect(w.tokenB, to, r.shareB);
    SingleSideAssembled(w, to, lp, prefA, minOut, r.shareA, r.shareB, y);
  }

  lemma QuotePositive(r: LongWay, p: PairStorage, prefA: bool, fee: nat, y: int)
    requires if prefA then QuoteOut(r.shareB, p.reserveB - r.shareB, p.reserveA - r.shareA, fee) == Ok(y)
             else QuoteOut(r.shareA, p.reserveA - r.shareA, p.reserveB - r.shareB, fee) == Ok(y)
    ensures 0 < y
  {
  }

  /** Sending the unwanted share back restores that side's holdings. */
  lemma ReturnsShare(w: World, to: Address, prefA: bool, r: LongWay)
    requires Inv(w) && Exact(w) && to != PAIR && r.burned.store.Some? && 0 < r.shareA && 0 < r.shareB
    requires Pay(w.tokenA, to, r.shareA) == Ok(r.burned.tokenA) && Pay(w.tokenB, to, r.shareB) == Ok(r.burned.tokenB)
    requires r.burned.store.value.reserveA == w.store.value.reserveA - r.shareA
    requires r.burned.store.value.reserveB == w.store.value.reserveB - r.shareB
    requires OutsideTransfer(r.burned, !prefA, to, PAIR, if prefA then r.shareB else r.shareA) == Ok(r.returned)
    ensures r.returned == r.burned.(tokenA := r.returned.tokenA, tokenB := r.returned.tokenB)
    ensures Token(r.returned, prefA) == Token(r.burned, prefA)
    ensures SameHoldings(Token(r.returned, !prefA), Token(w, !prefA))
    ensures SurplusA(r.returned) == (if prefA then 0 else r.shareA) && SurplusB(r.returned) == (if prefA then r.shareB else 0)
  {
    hide Inv, Move, Pay;
    PayEffect(w.tokenA, to, r.shareA);
    PayEffect(w.tokenB, to, r.shareB);
    MoveConserves(Token(r.burned, !prefA), to, PAIR, if prefA then r.shareB else r.shareA);
  }
}
