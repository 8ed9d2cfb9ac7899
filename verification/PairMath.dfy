/** The pair's fixed-point arithmetic: integer square roots, share formulas and the
    closed-form split of a single-sided deposit. */
module PairMath {
  import opened Base
  import opened Arith
  import opened Quotes

  const MINIMUM_LIQUIDITY: int := 1_000

  datatype MathError = MathOverflow | MathInvalidInput | MathMintedTooLittle | MathTrap

  // ---- Integer square roots ----------------------------------------------------------

  predicate IsSqrt(r: int, v: int) {
    0 <= r && r * r <= v < (r + 1) * (r + 1)
  }

  function ISqrt(v: nat): (r: nat)
    ensures IsSqrt(r, v)
  {
    if v == 0 then 0
    else
      var r := ISqrt(v - 1);
      assert (r + 2) * (r + 2) > (r + 1) * (r + 1) + 1;
      if (r + 1) * (r + 1) <= v then r + 1 else r
  }

  /** `ISqrt` is the upper adjoint of squaring. */
  lemma SqrtGalois(t: int, v: int, r: int)
    requires 0 <= t && IsSqrt(r, v)
    ensures t <= r <==> t * t <= v
  {
  }

  lemma SqrtUnique(r: int, s: int, v: int)
    requires IsSqrt(r, v) && IsSqrt(s, v)
    ensures r == s
  {
  }

  /** The mean of two numbers is at least their geometric mean. */
  lemma MeanSquare(x: int, z: int)
    ensures (x + z) * (x + z) >= 4 * (x * z)
  {
    assert (x + z) * (x + z) - 4 * (x * z) == (x - z) * (x - z);
    assert 0 <= (x - z) * (x - z);
  }

  /** One Newton step from any `x >= 1` stays at or above the root. */
  lemma NewtonStepStaysAbove(v: int, x: int)
    requires 0 < v && 0 < x
    ensures var y := (x + v / x) / 2; 0 <= y && v < (y + 1) * (y + 1)
  {
    var q := v / x;
    DivFloor(v, x);
    DivNonneg(v, x);
    var y := (x + q) / 2;
    MeanSquare(x, q + 1);
    assert v < x * (q + 1);
    NewtonRounding(v, x + q + 1, y + 1);
  }

  lemma NewtonRounding(v: int, s: int, t: int)
    requires 0 <= s <= 2 * t && 4 * v < s * s
    ensures v < t * t
  {
  }

  /** When Newton stops descending it has arrived. */
  lemma NewtonFixpoint(v: int, x: int)
    requires 0 < v && 0 < x && x <= (x + v / x) / 2
    ensures x * x <= v
  {
  }

  /** Newton's method from above, as both of the source's loops run it, in an integer
      width that ends at `max`: every sum is checked, and the only one that can overflow is
      the first one, `v + 1`. */
  method NewtonSqrt(v: int, max: int) returns (r: Result<int, MathError>)
    requires 0 <= v <= max
    ensures r == if v == max && v != 0 then Err(MathTrap) else Ok(ISqrt(v))
  {
    if v == 0 {
      return Ok(0);
    }
    var x := v;
    var sum := x + 1;
    if sum > max {
      return Err(MathTrap);
    }
    var y := sum / 2;
    assert v / v == 1 by { DivUnique(v, v, 1); }
    assert v < (v + 1) * (v + 1);
    NewtonStepStaysAbove(v, x);
    while y < x
      invariant 0 < x <= v && v < (x + 1) * (x + 1)
      invariant y == (x + v / x) / 2 && 0 <= y && v < (y + 1) * (y + 1)
      decreases x
    {
      x := y;
      NewtonStepStaysAbove(v, x);
      sum := x + v / x;
      SumStaysBelow(v, x);
      if sum > max {
        return Err(MathTrap);
      }
      y := sum / 2;
    }
    NewtonFixpoint(v, x);
    SqrtUnique(x, ISqrt(v), v);
    return Ok(x);
  }

  /** No later sum exceeds the first one. */
  lemma SumStaysBelow(v: int, x: int)
    requires 0 < x <= v
    ensures x + v / x <= v + 1
  {
    DivFloor(v, x);
    MulMono(1, x, v / x - 1);
    if 1 <= v / x {
      MulMono2(0, 0, x - 1, v / x - 1);
      assert (x - 1) * (v / x - 1) == v / x * x - x - v / x + 1;
    } else {
      DivGalois(v, x, 1);
    }
  }

  /** `sqrt`: panics on a negative input and where `x + 1` overflows, and nowhere else. */
  method Sqrt(value: int) returns (r: Result<int, MathError>)
    requires InI128(value)
    ensures r == SqrtI128(value)
    ensures r.Ok? ==> IsSqrt(r.value, value)
  {
    if value < 0 {
      return Err(MathTrap);
    }
    r := NewtonSqrt(value, I128_MAX);
  }

  function SqrtI128(value: int): Result<int, MathError> {
    if value < 0 || value == I128_MAX then Err(MathTrap) else Ok(ISqrt(value))
  }

  // ---- Share formulas ----------------------------------------------------------------

  function InitialLiquidity(amountA: int, amountB: int): Result<int, MathError> {
    var product :- I128(amountA * amountB, MathOverflow);
    var root :- SqrtI128(product);
    I128(root - MINIMUM_LIQUIDITY, MathMintedTooLittle)
  }

  function SubsequentLiquidity(amountA: int, amountB: int, rA: int, rB: int, supply: int): Result<int, MathError> {
    var scaledA :- I128(amountA * supply, MathOverflow);
    var lpA :- CheckedDiv(scaledA, rA, MathOverflow);
    var scaledB :- I128(amountB * supply, MathOverflow);
    var lpB :- CheckedDiv(scaledB, rB, MathOverflow);
    Ok(Min(lpA, lpB))
  }

  function BurnAmounts(lp: int, rA: int, rB: int, supply: int): Result<(int, int), MathError> {
    var scaledA :- I128(lp * rA, MathOverflow);
    var a :- CheckedDiv(scaledA, supply, MathOverflow);
    var scaledB :- I128(lp * rB, MathOverflow);
    var b :- CheckedDiv(scaledB, supply, MathOverflow);
    Ok((a, b))
  }

  /** The liquidity minted is the largest amount covered by both deposits: one more
      unit would exceed the deposit on at least one side. */
  lemma SubsequentLiquidityIsLargest(amountA: int, amountB: int, rA: int, rB: int, supply: int)
    requires 0 <= amountA && 0 <= amountB && 0 < rA && 0 < rB && 0 <= supply
    requires SubsequentLiquidity(amountA, amountB, rA, rB, supply).Ok?
    ensures var lp := SubsequentLiquidity(amountA, amountB, rA, rB, supply).value;
            0 <= lp && forall n :: n <= lp <==> n * rA <= amountA * supply && n * rB <= amountB * supply
  {
    var lp := SubsequentLiquidity(amountA, amountB, rA, rB, supply).value;
    assert 0 <= amountA * supply && 0 <= amountB * supply;
    DivNonneg(amountA * supply, rA);
    DivNonneg(amountB * supply, rB);
    forall n: int
      ensures n <= lp <==> n * rA <= amountA * supply && n * rB <= amountB * supply
    {
      DivGalois(amountA * supply, rA, n);
      DivGalois(amountB * supply, rB, n);
    }
  }

  /** A proportional payout is the floor of the exact share on each side, never more
      than the reserve, and what stays behind still covers the remaining shares. */
  lemma BurnAmountsFair(lp: int, rA: int, rB: int, supply: int)
    requires 0 <= lp <= supply && 0 <= rA && 0 <= rB && 0 < supply
    requires BurnAmounts(lp, rA, rB, supply).Ok?
    ensures var (a, b) := BurnAmounts(lp, rA, rB, supply).value;
            FairShare(lp, rA, supply, a) && FairShare(lp, rB, supply, b)
  {
    assert 0 <= lp * rA && 0 <= lp * rB;
    ShareOfReserve(lp, rA, supply);
    ShareOfReserve(lp, rB, supply);
  }

  predicate FairShare(lp: int, r: int, supply: int, a: int) {
    0 <= a <= r && a * supply <= lp * r < (a + 1) * supply && (r - a) * supply >= r * (supply - lp)
  }

  lemma ShareOfReserve(lp: int, r: int, supply: int)
    requires 0 <= lp <= supply && 0 <= r && 0 < supply
    ensures 0 <= lp * r && FairShare(lp, r, supply, lp * r / supply)
  {
    var a := lp * r / supply;
    assert 0 <= lp * r;
    DivFloor(lp * r, supply);
    DivNonneg(lp * r, supply);
    MulMono(lp, supply, r);
    if r < a {
      MulMono(r + 1, a, supply);
    }
  }

  /** `mul_div`: the product in 256 bits, the quotient toward zero, `None` exactly when
      the quotient does not fit. */
  function MulDiv(a: int, b: int, denominator: int): Option<int> {
    if denominator == 0 then None
    else
      var negative := ((a < 0) != (b < 0)) != (denominator < 0);
      var product := Abs(a) * Abs(b);
      if !InU256(product) then None
      else
        var quotient := product / Abs(denominator);
        if !negative then (if quotient > I128_MAX then None else Some(quotient))
        else if quotient > I128_MAX + 1 then None
        else if quotient == I128_MAX + 1 then Some(I128_MIN)
        else Some(-quotient)
  }

  function Abs(x: int): nat {
    if x < 0 then -x else x
  }

  lemma AbsProduct(a: int, b: int)
    ensures Abs(a) * Abs(b) == Abs(a * b)
  {
  }

  lemma MulDivExact(a: int, b: int, denominator: int)
    requires InI128(a) && InI128(b)
    ensures var r := MulDiv(a, b, denominator);
            if denominator != 0 && InI128(TruncDiv(a * b, denominator)) then r == Some(TruncDiv(a * b, denominator)) else r == None
  {
    AbsProduct(a, b);
    MulMono2(Abs(a), Abs(b), I128_MAX + 1, I128_MAX + 1);
    assert (I128_MAX + 1) * (I128_MAX + 1) <= U256_MAX;
    if denominator != 0 {
      DivNonneg(Abs(a * b), Abs(denominator));
      if a == 0 || b == 0 {
        assert a * b == 0;
        DivUnique(0, Abs(denominator), 0);
      } else {
        SignOfProduct(a, b);
      }
    }
  }

  lemma SignOfProduct(a: int, b: int)
    requires a != 0 && b != 0
    ensures a * b != 0 && (a * b < 0 <==> (a < 0) != (b < 0))
  {
  }

  // ---- Single-sided deposits ---------------------------------------------------------

  /** `r * (r * (10_000 + f)^2 + 4 * f * s * 10_000)`. */
  function Discriminant(r: int, s: int, f: int): int {
    r * (r * ((BPS + f) * (BPS + f)) + 4 * f * s * BPS)
  }

  /** `compute_swap_in_for_single_side`, branch by branch. */
  function SwapInForSingleSide(r: int, amount: int, feeBps: nat): Result<int, MathError> {
    var _ :- Need(r > 0 && amount > 0, MathInvalidInput);
    var _ :- Need(feeBps <= BPS, MathInvalidInput);
    var f := BPS - feeBps;
    var bf := BPS + f;
    var rbb :- U256(r * (bf * bf), MathOverflow);
    var four :- U256(4 * f * amount * BPS, MathOverflow);
    var inner :- U256(rbb + four, MathOverflow);
    var disc :- U256(r * inner, MathOverflow);
    var root := ISqrt(disc);
    var rbf :- U256(r * bf, MathOverflow);
    var _ :- Need(root >= rbf, MathInvalidInput);
    var _ :- Need(2 * f != 0, MathInvalidInput);
    var x := (root - rbf) / (2 * f);
    if x > I128_MAX then Err(MathOverflow) else Ok(x)
  }

  /** The quadratic the split solves: `x` is small enough exactly when this holds. */
  predicate SplitFits(x: int, r: int, amount: int, feeBps: nat) {
    var f := BPS - feeBps;
    f * x * x + r * (BPS + f) * x <= BPS * r * amount
  }

  lemma SquareModFour(t: int)
    ensures (t * t) % 4 == 0 || (t * t) % 4 == 1
  {
    var h := t / 2;
    if t % 2 == 0 {
      assert t == 2 * h && t * t == 4 * (h * h);
    } else {
      assert t == 2 * h + 1 && t * t == 4 * (h * h + h) + 1;
    }
  }

  lemma DiscriminantAsSquare(r: int, s: int, f: int)
    ensures Discriminant(r, s, f) == (r * (BPS + f)) * (r * (BPS + f)) + 4 * (r * (f * s * BPS))
  {
  }

  /** The Newton loop is never asked for the root of the one 256-bit value whose
      successor overflows: a discriminant is a square modulo 4. */
  lemma DiscriminantNotMax(r: int, s: int, f: int)
    ensures Discriminant(r, s, f) != U256_MAX
  {
    DiscriminantAsSquare(r, s, f);
    SquareModFour(r * (BPS + f));
    NotMaxModFour((r * (BPS + f)) * (r * (BPS + f)), r * (f * s * BPS));
  }

  lemma NotMaxModFour(t: int, m: int)
    requires t % 4 == 0 || t % 4 == 1
    ensures t + 4 * m != U256_MAX
  {
  }

  /** Completing the square turns the quadratic into a bound on a square root. */
  lemma SplitFitsIffRoot(x: int, r: int, amount: int, f: int)
    requires 0 < f
    ensures f * x * x + r * (BPS + f) * x <= BPS * r * amount
       <==> (2 * f * x + r * (BPS + f)) * (2 * f * x + r * (BPS + f)) <= Discriminant(r, amount, f)
  {
  }

  lemma DiscriminantBounds(r: int, amount: int, f: int)
    requires 0 < r && 0 < amount && 0 <= f <= BPS
    ensures 0 <= r * (BPS + f) && 0 <= 4 * f * amount * BPS
    ensures (r * (BPS + f)) * (r * (BPS + f)) <= Discriminant(r, amount, f)
    ensures Discriminant(r, amount, f) == r * (r * ((BPS + f) * (BPS + f)) + 4 * f * amount * BPS)
  {
  }

  /** Only the last product of the computation can leave 256 bits. */
  lemma IntermediatesFit(r: int, amount: int, f: int)
    requires 0 < r <= I128_MAX && 0 < amount <= I128_MAX && 0 <= f <= BPS
    ensures 0 <= r * ((BPS + f) * (BPS + f)) <= I128_MAX * (4 * BPS * BPS)
    ensures 0 <= 4 * f * amount * BPS <= 4 * BPS * I128_MAX * BPS
    ensures 0 <= r * (BPS + f) <= I128_MAX * (2 * BPS)
  {
    var bf := BPS + f;
    MulMono2(bf, bf, 2 * BPS, 2 * BPS);
    MulMono2(r, bf * bf, I128_MAX, 4 * BPS * BPS);
    MulMono2(f, amount, BPS, I128_MAX);
    MulMono2(r, bf, I128_MAX, 2 * BPS);
  }

  /** The root of the discriminant, solved for the split, is the largest that fits. */
  lemma RootSolvesSplit(r: int, amount: int, feeBps: nat, root: int)
    requires 0 < r && 0 < amount && feeBps < BPS
    requires IsSqrt(root, Discriminant(r, amount, BPS - feeBps))
    ensures r * (2 * BPS - feeBps) <= root
    ensures forall x :: 0 <= x ==> (x <= (root - r * (2 * BPS - feeBps)) / (2 * (BPS - feeBps)) <==> SplitFits(x, r, amount, feeBps))
  {
    var f := BPS - feeBps;
    var b := r * (BPS + f);
    var disc := Discriminant(r, amount, f);
    DiscriminantBounds(r, amount, f);
    SqrtGalois(b, disc, root);
    forall x: int | 0 <= x
      ensures x <= (root - b) / (2 * f) <==> SplitFits(x, r, amount, feeBps)
    {
      DivGalois(root - b, 2 * f, x);
      MulMono2(0, 0, 2 * f, x);
      assert x * (2 * f) == 2 * f * x;
      SqrtGalois(2 * f * x + b, disc, root);
      SplitFitsIffRoot(x, r, amount, f);
      hide Discriminant, IsSqrt;
    }
  }

  /** Below a 100% fee the result is the largest integer root of the quadratic; the
      only error positive inputs can meet is a discriminant beyond 256 bits. */
  lemma SwapInIsLargestRoot(r: int, amount: int, feeBps: nat)
    requires 0 < r <= I128_MAX && 0 < amount <= I128_MAX && feeBps < BPS
    ensures var res := SwapInForSingleSide(r, amount, feeBps);
            if Discriminant(r, amount, BPS - feeBps) <= U256_MAX
            then res.Ok? && 0 <= res.value < amount
                 && forall x :: 0 <= x ==> (x <= res.value <==> SplitFits(x, r, amount, feeBps))
            else res == Err(MathOverflow)
  {
    var f := BPS - feeBps;
    DiscriminantBounds(r, amount, f);
    IntermediatesFit(r, amount, f);
    var disc := Discriminant(r, amount, f);
    if disc <= U256_MAX {
      var root := ISqrt(disc);
      RootSolvesSplit(r, amount, feeBps, root);
      DivNonneg(root - r * (BPS + f), 2 * f);
      WholeAmountNeverFits(r, amount, feeBps);
      var x := (root - r * (BPS + f)) / (2 * f);
      assert x < amount;
      assert SwapInForSingleSide(r, amount, feeBps) == Ok(x);
    }
  }

  lemma WholeAmountNeverFits(r: int, amount: int, feeBps: nat)
    requires 0 < r && 0 < amount && feeBps < BPS
    ensures !SplitFits(amount, r, amount, feeBps)
  {
    var f := BPS - feeBps;
    assert 0 <= f * amount * amount;
    assert r * (BPS + f) * amount == BPS * r * amount + r * f * amount;
    assert 0 < r * f * amount;
  }

  /** The quadratic and the quote, chained over the common factor `x * f`. */
  lemma ScarceSideCore(x: int, y: int, f: int, r: int, out: int, amount: int)
    requires 0 < r && 0 <= x && 0 <= y <= out && 0 <= f
    requires x * f * (r + x) <= BPS * r * (amount - x)
    requires y * (BPS * r) <= x * f * (out - y)
    ensures y * (r + x) <= (amount - x) * (out - y)
  {
  }

  lemma SplitFactored(x: int, r: int, amount: int, feeBps: nat)
    requires SplitFits(x, r, amount, feeBps)
    ensures x * (BPS - feeBps) * (r + x) <= BPS * r * (amount - x)
  {
  }

  /** After the quoted swap of the split, the received token is the scarce side of the
      deposit: the kept remainder covers it at the post-swap ratio. */
  lemma ReceivedTokenIsScarce(r: int, out: int, amount: int, feeBps: nat)
    requires 0 < r <= I128_MAX && 0 < out && 0 < amount <= I128_MAX && feeBps < BPS
    requires SwapInForSingleSide(r, amount, feeBps).Ok?
    ensures var x := SwapInForSingleSide(r, amount, feeBps).value;
            0 <= x < amount &&
            var y := OutFloor(x, r, out, feeBps);
            0 <= y < out && y * (r + x) <= (amount - x) * (out - y)
  {
    SwapInIsLargestRoot(r, amount, feeBps);
    var x := SwapInForSingleSide(r, amount, feeBps).value;
    assert SplitFits(x, r, amount, feeBps);
    QuotedSplitIsScarce(x, r, out, amount, feeBps);
  }

  lemma QuotedSplitIsScarce(x: nat, r: int, out: int, amount: int, feeBps: nat)
    requires 0 < r && 0 < out && feeBps <= BPS && SplitFits(x, r, amount, feeBps)
    ensures var y := OutFloor(x, r, out, feeBps);
            0 <= y < out && y * (r + x) <= (amount - x) * (out - y)
  {
    hide OutFloor, Admissible;
    var f := BPS - feeBps;
    var y := OutFloor(x, r, out, feeBps);
    OutFloorBounds(x, r, out, feeBps);
    OutFloorIsLargest(x, y, r, out, feeBps);
    AdmissibleSolvedForInput(x, y, r, out, feeBps);
    assert y * (BPS * r) == r * y * BPS;
    assert x * ((out - y) * f) == x * f * (out - y);
    SplitFactored(x, r, amount, feeBps);
    ScarceSideCore(x, y, f, r, out, amount);
  }

  /** `compute_swap_in_for_single_side` with its Newton loop, refining the function. */
  method ComputeSwapInForSingleSide(r: int, amount: int, feeBps: nat) returns (res: Result<int, MathError>)
    requires InI128(r) && InI128(amount)
    ensures res == SwapInForSingleSide(r, amount, feeBps)
    ensures feeBps < BPS && res.Ok? ==> 0 <= res.value < amount
    ensures feeBps < BPS && res.Ok? ==> forall x :: 0 <= x ==> (x <= res.value <==> SplitFits(x, r, amount, feeBps))
  {
    if r <= 0 || amount <= 0 || feeBps > BPS {
      return Err(MathInvalidInput);
    }
    var f := BPS - feeBps;
    var bf := BPS + f;
    var rbb :- U256(r * (bf * bf), MathOverflow);
    var four :- U256(4 * f * amount * BPS, MathOverflow);
    var inner :- U256(rbb + four, MathOverflow);
    var disc :- U256(r * inner, MathOverflow);
    DiscriminantNotMax(r, amount, f);
    assert disc == Discriminant(r, amount, f);
    var rooted := NewtonSqrt(disc, U256_MAX);
    var root := rooted.value;
    var rbf :- U256(r * bf, MathOverflow);
    if root < rbf || 2 * f == 0 {
      return Err(MathInvalidInput);
    }
    var x := (root - rbf) / (2 * f);
    if x > I128_MAX {
      return Err(MathOverflow);
    }
    if feeBps < BPS {
      SwapInIsLargestRoot(r, amount, feeBps);
    }
    return Ok(x);
  }
}
