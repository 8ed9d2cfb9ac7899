/** The constant-product quotes shared by the pair and the router.

    A quote is exact integer arithmetic on the curve
    `(rIn * 10_000 + x * f) * (rOut - y) >= rIn * rOut * 10_000`, with
    `f = 10_000 - feeBps`.  `Admissible` is that curve written the way a pair's own
    K check computes it; every theorem below says how a quote sits on it. */
module Quotes {
  import opened Base
  import opened Arith

  const BPS: int := 10_000

  datatype QuoteError = ZeroAmount | InsufficientLiquidity | Overflow | Dust | InvalidFee

  function FeeFactor(feeBps: nat): Result<int, QuoteError> {
    if feeBps >= BPS then Err(InvalidFee) else Ok(BPS - feeBps)
  }

  /** Output paid for exactly `amountIn`. */
  function QuoteOut(amountIn: int, rIn: int, rOut: int, feeBps: nat): Result<int, QuoteError> {
    var _ :- Need(amountIn > 0, ZeroAmount);
    var _ :- Need(rIn > 0 && rOut > 0, InsufficientLiquidity);
    var f :- FeeFactor(feeBps);
    var inWithFee :- I128(amountIn * f, Overflow);
    var numerator :- I128(inWithFee * rOut, Overflow);
    var scaled :- I128(rIn * BPS, Overflow);
    var denominator :- I128(scaled + inWithFee, Overflow);
    var out := numerator / denominator;
    if out <= 0 then Err(Dust) else Ok(out)
  }

  /** Input needed for exactly `amountOut`, rounded up only when it does not divide. */
  function QuoteIn(amountOut: int, rIn: int, rOut: int, feeBps: nat): Result<int, QuoteError> {
    var _ :- Need(amountOut > 0, ZeroAmount);
    var _ :- Need(rIn > 0 && rOut > 0 && amountOut < rOut, InsufficientLiquidity);
    var f :- FeeFactor(feeBps);
    var product :- U256(rIn * amountOut, Overflow);
    var numerator :- U256(product * BPS, Overflow);
    var denominator :- U256((rOut - amountOut) * f, Overflow);
    InPositive(rOut - amountOut, f);
    I128(CeilDiv(numerator, denominator), Overflow)
  }

  lemma InPositive(x: int, f: int)
    requires 0 < x && 0 < f
    ensures 0 < x * f
  {
  }

  /** The pair accepts output `y` for input `x` against recorded reserves. */
  predicate Admissible(x: int, y: int, rIn: int, rOut: int, feeBps: nat) {
    ((rIn + x) * BPS - x * feeBps) * ((rOut - y) * BPS) >= rIn * rOut * 100_000_000
  }

  /** The same curve solved for the output: the numerator and denominator of a quote. */
  lemma AdmissibleLinear(x: int, y: int, rIn: int, rOut: int, feeBps: nat)
    ensures Admissible(x, y, rIn, rOut, feeBps)
       <==> y * (rIn * BPS + x * (BPS - feeBps)) <= x * (BPS - feeBps) * rOut
  {
  }

  lemma DenominatorPositive(x: int, rIn: int, f: int)
    requires 0 <= x && 0 < rIn && 0 <= f
    ensures 0 <= x * f && 0 < rIn * BPS <= rIn * BPS + x * f
  {
  }

  /** The real-valued quote rounded down, without the error cases. */
  ghost function OutFloor(x: nat, rIn: int, rOut: int, feeBps: nat): int
    requires 0 < rIn && feeBps <= BPS
  {
    DenominatorPositive(x, rIn, BPS - feeBps);
    x * (BPS - feeBps) * rOut / (rIn * BPS + x * (BPS - feeBps))
  }

  /** The floor is the largest output on the curve. */
  lemma OutFloorIsLargest(x: nat, y: int, rIn: int, rOut: int, feeBps: nat)
    requires 0 < rIn && feeBps <= BPS
    ensures y <= OutFloor(x, rIn, rOut, feeBps) <==> Admissible(x, y, rIn, rOut, feeBps)
  {
    DenominatorPositive(x, rIn, BPS - feeBps);
    AdmissibleLinear(x, y, rIn, rOut, feeBps);
    DivGalois(x * (BPS - feeBps) * rOut, rIn * BPS + x * (BPS - feeBps), y);
  }

  lemma OutFloorBounds(x: nat, rIn: int, rOut: int, feeBps: nat)
    requires 0 < rIn && 0 < rOut && feeBps <= BPS
    ensures 0 <= OutFloor(x, rIn, rOut, feeBps) < rOut
  {
    var xf := x * (BPS - feeBps);
    DenominatorPositive(x, rIn, BPS - feeBps);
    assert 0 <= xf * rOut;
    DivGalois(xf * rOut, rIn * BPS + xf, 0);
    DivGalois(xf * rOut, rIn * BPS + xf, rOut);
    assert rOut * (rIn * BPS + xf) == rOut * (rIn * BPS) + xf * rOut;
    assert 0 < rOut * (rIn * BPS);
  }

  lemma QuoteOutIsFloor(x: int, rIn: int, rOut: int, feeBps: nat)
    requires QuoteOut(x, rIn, rOut, feeBps).Ok?
    ensures 0 < x && 0 < rIn && 0 < rOut && feeBps < BPS
    ensures QuoteOut(x, rIn, rOut, feeBps).value == OutFloor(x, rIn, rOut, feeBps)
    ensures 0 < QuoteOut(x, rIn, rOut, feeBps).value < rOut
  {
    OutFloorBounds(x, rIn, rOut, feeBps);
  }

  /** An exact-in quote is the largest output the pair's K check accepts, and `Dust`
      means that largest output is zero. */
  lemma QuoteOutExact(x: int, rIn: int, rOut: int, feeBps: nat)
    requires 0 < x && 0 < rIn && 0 < rOut && feeBps < BPS
    ensures var r := QuoteOut(x, rIn, rOut, feeBps);
            r.Ok? ==> forall y :: y <= r.value <==> Admissible(x, y, rIn, rOut, feeBps)
    ensures QuoteOut(x, rIn, rOut, feeBps) == Err(Dust) ==> forall y :: y <= 0 <==> Admissible(x, y, rIn, rOut, feeBps)
    ensures QuoteOut(x, rIn, rOut, feeBps) in {Ok(OutFloor(x, rIn, rOut, feeBps)), Err(Dust), Err(Overflow)}
  {
    OutFloorBounds(x, rIn, rOut, feeBps);
    forall y: int
      ensures y <= OutFloor(x, rIn, rOut, feeBps) <==> Admissible(x, y, rIn, rOut, feeBps)
    {
      OutFloorIsLargest(x, y, rIn, rOut, feeBps);
    }
  }

  // ---- Exact-in and exact-out are adjoint --------------------------------------------

  lemma AdmissibleSolvedForInput(x: int, y: int, rIn: int, rOut: int, feeBps: nat)
    ensures Admissible(x, y, rIn, rOut, feeBps)
       <==> rIn * y * BPS <= x * ((rOut - y) * (BPS - feeBps))
  {
  }

  /** A successful exact-out quote is the least input that admits the output. */
  lemma QuoteInIsLeast(x: int, y: int, rIn: int, rOut: int, feeBps: nat)
    requires QuoteIn(y, rIn, rOut, feeBps).Ok?
    ensures QuoteIn(y, rIn, rOut, feeBps).value <= x <==> Admissible(x, y, rIn, rOut, feeBps)
  {
    var f := BPS - feeBps;
    InPositive(rOut - y, f);
    CeilGalois(rIn * y * BPS, (rOut - y) * f, x);
    AdmissibleSolvedForInput(x, y, rIn, rOut, feeBps);
  }

  lemma QuoteInPositive(y: int, rIn: int, rOut: int, feeBps: nat)
    requires QuoteIn(y, rIn, rOut, feeBps).Ok?
    ensures 0 < QuoteIn(y, rIn, rOut, feeBps).value
  {
    QuoteInIsLeast(0, y, rIn, rOut, feeBps);
    AdmissibleSolvedForInput(0, y, rIn, rOut, feeBps);
    InPositive(rIn, y);
  }

  /** The numerator and the denominator of an exact-in quote fit `i128`. */
  predicate ForwardFits(x: int, rIn: int, rOut: int, feeBps: nat) {
    x * (BPS - feeBps) * rOut <= I128_MAX && rIn * BPS + x * (BPS - feeBps) <= I128_MAX
  }

  lemma ForwardOverflowsExactly(x: int, rIn: int, rOut: int, feeBps: nat)
    requires 0 < x && 0 < rIn && 0 < rOut && feeBps < BPS
    ensures QuoteOut(x, rIn, rOut, feeBps) == Err(Overflow) <==> !ForwardFits(x, rIn, rOut, feeBps)
  {
    DenominatorPositive(x, rIn, BPS - feeBps);
    MulMono(1, rOut, x * (BPS - feeBps));
  }

  /** Adjunction: paying `x` buys at least `y` exactly when `x` covers the exact-out quote
      of `y` and the forward quote of `x` fits the integer width. */
  lemma QuotesAreAdjoint(x: int, y: int, rIn: int, rOut: int, feeBps: nat)
    requires 0 < x && QuoteIn(y, rIn, rOut, feeBps).Ok?
    ensures QuoteIn(y, rIn, rOut, feeBps).value <= x && ForwardFits(x, rIn, rOut, feeBps)
       <==> QuoteOut(x, rIn, rOut, feeBps).Ok? && y <= QuoteOut(x, rIn, rOut, feeBps).value
  {
    hide ForwardFits;
    ForwardOverflowsExactly(x, rIn, rOut, feeBps);
    QuoteInIsLeast(x, y, rIn, rOut, feeBps);
    QuoteOutExact(x, rIn, rOut, feeBps);
  }

  /** Whatever a successful exact-in quote pays, any smaller target can be quoted
      backwards without an error and needs no more input. */
  lemma QuoteInDefinedBelow(x: int, y: int, rIn: int, rOut: int, feeBps: nat)
    requires QuoteOut(x, rIn, rOut, feeBps).Ok? && InI128(x) && InI128(rOut)
    requires 0 < y <= QuoteOut(x, rIn, rOut, feeBps).value
    ensures QuoteIn(y, rIn, rOut, feeBps).Ok? && 0 < QuoteIn(y, rIn, rOut, feeBps).value <= x
  {
    var f := BPS - feeBps;
    QuoteOutIsFloor(x, rIn, rOut, feeBps);
    QuoteOutExact(x, rIn, rOut, feeBps);
    assert 0 <= rIn * y && rIn * y * BPS == rIn * BPS * y;
    MulMono2(rIn * BPS, y, I128_MAX, I128_MAX);
    assert I128_MAX * I128_MAX <= U256_MAX;
    MulMono2(rIn, y, rIn * BPS, y);
    MulMono2(rOut - y, f, I128_MAX, BPS);
    AdmissibleSolvedForInput(x, y, rIn, rOut, feeBps);
    InPositive(rOut - y, f);
    CeilGalois(rIn * y * BPS, (rOut - y) * f, x);
    CeilGalois(rIn * y * BPS, (rOut - y) * f, 0);
    InPositive(rIn, y);
  }

  // ---- Monotonicity ------------------------------------------------------------------

  /** A higher fee never pays more. */
  lemma OutFloorFeeMonotone(x: nat, rIn: int, rOut: int, lowFee: nat, highFee: nat)
    requires 0 < rIn && 0 < rOut && lowFee <= highFee <= BPS
    ensures OutFloor(x, rIn, rOut, highFee) <= OutFloor(x, rIn, rOut, lowFee)
  {
    var y := OutFloor(x, rIn, rOut, highFee);
    OutFloorBounds(x, rIn, rOut, highFee);
    OutFloorIsLargest(x, y, rIn, rOut, highFee);
    AdmissibleSolvedForInput(x, y, rIn, rOut, highFee);
    MulMono(BPS - highFee, BPS - lowFee, rOut - y);
    MulMono((rOut - y) * (BPS - highFee), (rOut - y) * (BPS - lowFee), x);
    AdmissibleSolvedForInput(x, y, rIn, rOut, lowFee);
    OutFloorIsLargest(x, y, rIn, rOut, lowFee);
  }

  // ---- No gain from splitting or from a round trip -----------------------------------

  /** Two quotes over growing denominators, brought over the common one. */
  lemma CommonDenominator(a1: int, a2: int, base: int, d2: int, out: int, y1: int, y2: int)
    requires 0 <= y2 && base + a1 + a2 <= d2
    requires y1 * (base + a1) <= a1 * out && y2 * d2 <= a2 * (out - y1)
    ensures (y1 + y2) * (base + (a1 + a2)) <= (a1 + a2) * out
  {
  }

  /** One swap of `x1 + x2` pays at least what swapping `x1` and then `x2` pays. */
  lemma TwoSwapsPayNoMore(x1: nat, x2: nat, rIn: int, rOut: int, feeBps: nat)
    requires 0 < rIn && 0 < rOut && feeBps <= BPS
    ensures var y1 := OutFloor(x1, rIn, rOut, feeBps);
            y1 < rOut && y1 + OutFloor(x2, rIn + x1, rOut - y1, feeBps) <= OutFloor(x1 + x2, rIn, rOut, feeBps)
  {
    var f := BPS - feeBps;
    var y1 := OutFloor(x1, rIn, rOut, feeBps);
    OutFloorBounds(x1, rIn, rOut, feeBps);
    var y2 := OutFloor(x2, rIn + x1, rOut - y1, feeBps);
    OutFloorBounds(x2, rIn + x1, rOut - y1, feeBps);
    assert y1 * (rIn * BPS + x1 * f) <= x1 * f * rOut by {
      OutFloorIsLargest(x1, y1, rIn, rOut, feeBps);
      AdmissibleLinear(x1, y1, rIn, rOut, feeBps);
    }
    assert y2 * ((rIn + x1) * BPS + x2 * f) <= x2 * f * (rOut - y1) by {
      OutFloorIsLargest(x2, y2, rIn + x1, rOut - y1, feeBps);
      AdmissibleLinear(x2, y2, rIn + x1, rOut - y1, feeBps);
    }
    MulMono(f, BPS, x1);
    CommonDenominator(x1 * f, x2 * f, rIn * BPS, (rIn + x1) * BPS + x2 * f, rOut, y1, y2);
    assert (x1 + x2) * f == x1 * f + x2 * f;
    AdmissibleLinear(x1 + x2, y1 + y2, rIn, rOut, feeBps);
    OutFloorIsLargest(x1 + x2, y1 + y2, rIn, rOut, feeBps);
  }

  function Total(xs: seq<nat>): nat {
    if xs == [] then 0 else xs[0] + Total(xs[1..])
  }

  /** What a trader collects by swapping the parts one after the other. */
  function SplitOut(xs: seq<nat>, rIn: int, rOut: int, feeBps: nat): Result<int, QuoteError> {
    if xs == [] then Ok(0)
    else
      var y :- QuoteOut(xs[0], rIn, rOut, feeBps);
      var rest :- SplitOut(xs[1..], rIn + xs[0], rOut - y, feeBps);
      Ok(y + rest)
  }

  /** Splitting an input into any number of consecutive swaps never pays more. */
  lemma {:induction false} SplittingPaysNoMore(xs: seq<nat>, rIn: int, rOut: int, feeBps: nat)
    requires 0 < rIn && 0 < rOut && feeBps < BPS
    requires SplitOut(xs, rIn, rOut, feeBps).Ok?
    ensures SplitOut(xs, rIn, rOut, feeBps).value <= OutFloor(Total(xs), rIn, rOut, feeBps)
  {
    if xs == [] {
      OutFloorBounds(0, rIn, rOut, feeBps);
    } else {
      var y := QuoteOut(xs[0], rIn, rOut, feeBps).value;
      QuoteOutIsFloor(xs[0], rIn, rOut, feeBps);
      SplittingPaysNoMore(xs[1..], rIn + xs[0], rOut - y, feeBps);
      TwoSwapsPayNoMore(xs[0], Total(xs[1..]), rIn, rOut, feeBps);
    }
  }

  lemma ReturnLegFits(x: int, yf: int, rIn: int, left: int)
    requires 0 <= x && 0 < left && 0 <= yf && yf * rIn <= x * left
    ensures yf * (rIn + x) < (x + 1) * (left + yf)
  {
  }

  /** Swapping there and straight back never returns more than was put in. */
  lemma RoundTripReturnsNoMore(x: nat, rIn: int, rOut: int, feeBps: nat)
    requires 0 < rIn && 0 < rOut && feeBps <= BPS
    ensures var y := OutFloor(x, rIn, rOut, feeBps);
            0 <= y < rOut && OutFloor(y, rOut - y, rIn + x, feeBps) <= x
  {
    var f := BPS - feeBps;
    var y := OutFloor(x, rIn, rOut, feeBps);
    OutFloorBounds(x, rIn, rOut, feeBps);
    var left := (rOut - y) * BPS;
    // The first leg put the pool on the curve; the fee is charged again on the way back.
    assert y * f * rIn <= x * left by {
      OutFloorIsLargest(x, y, rIn, rOut, feeBps);
      AdmissibleSolvedForInput(x, y, rIn, rOut, feeBps);
      MulMono2(rIn * y, f, rIn * y, BPS);
      MulMono2(rOut - y, f, rOut - y, BPS);
      MulMono2(x, (rOut - y) * f, x, left);
      assert y * f * rIn == rIn * y * f;
    }
    DenominatorPositive(y, rOut - y, f);
    ReturnLegFits(x, y * f, rIn, left);
    DivGalois(y * f * (rIn + x), left + y * f, x + 1);
  }
}
