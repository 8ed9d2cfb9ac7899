/** The router's pricing: quotes forwards and backwards along a path of pairs, and the
    amounts it deposits. */
module RouterPaths {
  import opened Base
  import opened Arith
  import opened Quotes

  datatype RouterError =
    | Expired
    | InsufficientOutputAmount
    | ExcessiveInputAmount
    | InvalidPath
    | PairNotFound
    | IdenticalTokens
    | RouterZeroAmount
    | RouterInsufficientLiquidity
    | RouterSlippageExceeded
    | InternalError
    | CommitNotFound
    | CommitRevealTooEarly
    | CommitHashMismatch
    | NonceAlreadyUsed
    | RouterDustAmount
    | CommitExpired
    | TooManyCommits
    | InvalidCommitConfig
    | RouterTrap

  /** What a registered address answers when asked for reserves and its fee; `None` is a
      failed call. */
  datatype PairView = PairView(isPair: bool, reserves: Option<(int, int)>, effectiveFee: Option<nat>)

  /** The factory's registry, both token orders stored, and the pairs it names. */
  datatype Market = Market(registry: map<(Address, Address), Address>, pairs: map<Address, PairView>)

  /** One directed hop, ready to quote. */
  datatype Hop = Hop(rIn: int, rOut: int, feeBps: nat)

  function MapQuoteError<T>(r: Result<T, QuoteError>): Result<T, RouterError> {
    match r
    case Ok(v) => Ok(v)
    case Err(ZeroAmount) => Err(RouterZeroAmount)
    case Err(Dust) => Err(RouterDustAmount)
    case Err(_) => Err(RouterInsufficientLiquidity)
  }

  function AmountOut(x: int, h: Hop): Result<int, RouterError> {
    MapQuoteError(QuoteOut(x, h.rIn, h.rOut, h.feeBps))
  }

  function AmountIn(y: int, h: Hop): Result<int, RouterError> {
    MapQuoteError(QuoteIn(y, h.rIn, h.rOut, h.feeBps))
  }

  function PairAddress(m: Market, a: Address, b: Address): Result<Address, RouterError> {
    if (a, b) !in m.registry then Err(PairNotFound)
    else if m.registry[(a, b)] !in m.pairs || !m.pairs[m.registry[(a, b)]].isPair then Err(PairNotFound)
    else Ok(m.registry[(a, b)])
  }

  /** Reserves in swap direction and the effective fee: the canonical first token is the
      smaller address, and a fee above 100 bps is not one of this factory's pairs. */
  function ReservesAndFee(m: Market, pair: Address, tokenIn: Address, tokenOut: Address): Result<Hop, RouterError> {
    if pair !in m.pairs || m.pairs[pair].reserves.None? then Err(PairNotFound)
    else
      var (rA, rB) := m.pairs[pair].reserves.value;
      var fee := m.pairs[pair].effectiveFee;
      if rA <= 0 || rB <= 0 || !InI128(rA * rB) then Err(RouterInsufficientLiquidity)
      else if fee.None? || fee.value > 100 then Err(PairNotFound)
      else if tokenIn == tokenOut then Err(IdenticalTokens)
      else if tokenIn.id < tokenOut.id then Ok(Hop(rA, rB, fee.value))
      else Ok(Hop(rB, rA, fee.value))
  }

  function HopOf(m: Market, a: Address, b: Address): Result<Hop, RouterError> {
    var pair :- PairAddress(m, a, b);
    ReservesAndFee(m, pair, a, b)
  }

  lemma HopIsUsable(m: Market, a: Address, b: Address)
    requires HopOf(m, a, b).Ok?
    ensures var h := HopOf(m, a, b).value; 0 < h.rIn <= I128_MAX && 0 < h.rOut <= I128_MAX && h.feeBps <= 100
  {
    var (rA, rB) := m.pairs[PairAddress(m, a, b).value].reserves.value;
    MulMono(1, rB, rA);
    MulMono(1, rA, rB);
  }

  // ---- Forwards ----------------------------------------------------------------------

  /** The output of every hop, starting from `x`. */
  function Amounts(m: Market, path: seq<Address>, x: int): Result<seq<int>, RouterError> {
    if |path| < 2 then Ok([])
    else
      var hop :- HopOf(m, path[0], path[1]);
      var y :- AmountOut(x, hop);
      var rest :- Amounts(m, path[1..], y);
      Ok([y] + rest)
  }

  function PathAmountsOut(m: Market, path: seq<Address>, x: int): Result<seq<int>, RouterError> {
    if |path| < 2 then Err(InvalidPath) else Amounts(m, path, x)
  }

  /** What arrives at the end of the path. */
  function Final(x: int, amounts: seq<int>): int {
    if amounts == [] then x else amounts[|amounts| - 1]
  }

  lemma FinalOfRest(x: int, y: int, rest: seq<int>)
    ensures Final(x, [y] + rest) == Final(y, rest)
  {
  }

  /** The whole walk is what has been collected followed by the rest of the walk. */
  ghost predicate Continues(front: seq<int>, rest: Result<seq<int>, RouterError>, whole: Result<seq<int>, RouterError>) {
    if rest.Ok? then whole == Ok(front + rest.value) else whole == rest
  }

  method GetPathAmountsOut(m: Market, path: seq<Address>, amountIn: int) returns (r: Result<seq<int>, RouterError>)
    ensures r == PathAmountsOut(m, path, amountIn)
  {
    hide HopOf, AmountOut;
    if |path| < 2 {
      return Err(InvalidPath);
    }
    var amounts := [];
    var current := amountIn;
    assert path[0..] == path;
    assert PathAmountsOut(m, path, amountIn).Ok? ==> [] + PathAmountsOut(m, path, amountIn).value == PathAmountsOut(m, path, amountIn).value;
    for i := 0 to |path| - 1
      invariant Continues(amounts, Amounts(m, path[i..], current), Amounts(m, path, amountIn))
    {
      assert path[i..][1..] == path[i + 1..];
      var hop :- HopOf(m, path[i], path[i + 1]);
      current :- AmountOut(current, hop);
      ghost var rest := Amounts(m, path[i + 1..], current);
      assert rest.Ok? ==> amounts + ([current] + rest.value) == (amounts + [current]) + rest.value;
      amounts := amounts + [current];
    }
    assert amounts + [] == amounts;
    return Ok(amounts);
  }

  lemma {:induction false} AmountsLength(m: Market, path: seq<Address>, x: int)
    requires Amounts(m, path, x).Ok?
    ensures |Amounts(m, path, x).value| == (if |path| < 2 then 0 else |path| - 1)
    ensures forall i :: 0 <= i < |Amounts(m, path, x).value| ==> 0 < Amounts(m, path, x).value[i]
    decreases |path|
  {
    if |path| >= 2 {
      var hop := HopOf(m, path[0], path[1]).value;
      QuoteOutIsFloor(x, hop.rIn, hop.rOut, hop.feeBps);
      AmountsLength(m, path[1..], AmountOut(x, hop).value);
    }
  }

  // ---- Backwards ---------------------------------------------------------------------

  /** The input of every hop that an exact-out swap needs, and the first of them. */
  function Required(m: Market, path: seq<Address>, target: int): Result<(seq<int>, int), RouterError> {
    if |path| < 2 then Ok(([], target))
    else
      var (rest, need) :- Required(m, path[1..], target);
      var hop :- HopOf(m, path[0], path[1]);
      var input :- AmountIn(need, hop);
      Ok(([input] + rest, input))
  }

  /** The least output every hop must deliver for the path to deliver `target`, and the
      input that implies; a target of zero or less constrains no earlier hop. */
  function Minimums(m: Market, path: seq<Address>, target: int): Result<(seq<int>, int), RouterError> {
    if |path| < 2 then Ok(([], target))
    else
      var (rest, need) :- Minimums(m, path[1..], target);
      var hop :- HopOf(m, path[0], path[1]);
      var previous :- if need <= 0 then Ok(0) else AmountIn(need, hop);
      Ok(([need] + rest, previous))
  }

  function PathMinimums(m: Market, path: seq<Address>, target: int): Result<seq<int>, RouterError> {
    if |path| < 2 then Err(InvalidPath)
    else
      var (mins, _) :- Minimums(m, path, target);
      Ok(mins)
  }

  /** An error met on the way back is the error of the whole walk. */
  lemma {:induction false} MinimumsErrorSurfaces(m: Market, path: seq<Address>, target: int, i: nat)
    requires i <= |path| && Minimums(m, path[i..], target).Err?
    ensures Minimums(m, path, target) == Err(Minimums(m, path[i..], target).error)
    decreases i
  {
    if i == 0 {
      assert path[0..] == path;
    } else {
      assert path[i - 1..][1..] == path[i..];
      MinimumsErrorSurfaces(m, path, target, i - 1);
    }
  }

  lemma {:induction false} RequiredErrorSurfaces(m: Market, path: seq<Address>, target: int, i: nat)
    requires i <= |path| && Required(m, path[i..], target).Err?
    ensures Required(m, path, target) == Err(Required(m, path[i..], target).error)
    decreases i
  {
    if i == 0 {
      assert path[0..] == path;
    } else {
      assert path[i - 1..][1..] == path[i..];
      RequiredErrorSurfaces(m, path, target, i - 1);
    }
  }

  method GetPathMinimums(m: Market, path: seq<Address>, target: int) returns (r: Result<seq<int>, RouterError>)
    ensures r == PathMinimums(m, path, target)
  {
    hide HopOf, AmountIn;
    if |path| < 2 {
      return Err(InvalidPath);
    }
    var mins := [];
    var current := target;
    for i := |path| - 1 downto 0
      invariant Minimums(m, path[i..], target) == Ok((mins, current))
    {
      assert path[i..][1..] == path[i + 1..];
      var hop := HopOf(m, path[i], path[i + 1]);
      if hop.Err? {
        MinimumsErrorSurfaces(m, path, target, i);
        return Err(hop.error);
      }
      mins := [current] + mins;
      if current <= 0 {
        current := 0;
      } else {
        var input := AmountIn(current, hop.value);
        if input.Err? {
          MinimumsErrorSurfaces(m, path, target, i);
          return Err(input.error);
        }
        current := input.value;
      }
    }
    assert path[0..] == path;
    return Ok(mins);
  }

  /** The backward walk of an exact-out swap. */
  method GetRequired(m: Market, path: seq<Address>, target: int) returns (r: Result<(seq<int>, int), RouterError>)
    ensures r == Required(m, path, target)
  {
    hide HopOf, AmountIn;
    var required := [];
    var current := target;
    if |path| < 2 {
      return Ok((required, current));
    }
    for i := |path| - 1 downto 0
      invariant Required(m, path[i..], target) == Ok((required, current))
    {
      assert path[i..][1..] == path[i + 1..];
      var hop := HopOf(m, path[i], path[i + 1]);
      if hop.Err? {
        RequiredErrorSurfaces(m, path, target, i);
        return Err(hop.error);
      }
      var input := AmountIn(current, hop.value);
      if input.Err? {
        RequiredErrorSurfaces(m, path, target, i);
        return Err(input.error);
      }
      current := input.value;
      required := [current] + required;
    }
    assert path[0..] == path;
    return Ok((required, current));
  }

  // ---- Forward and backward quoting are adjoint --------------------------------------

  /** No forward quote along the path leaves the integer width. */
  predicate PathFits(m: Market, path: seq<Address>, x: int) {
    |path| >= 2 && HopOf(m, path[0], path[1]).Ok? ==>
      var hop := HopOf(m, path[0], path[1]).value;
      && ForwardFits(x, hop.rIn, hop.rOut, hop.feeBps)
      && (AmountOut(x, hop).Ok? ==> PathFits(m, path[1..], AmountOut(x, hop).value))
  }

  /** Along any path, the exact-out input is the least input whose forward quote
      delivers the target, among the inputs whose forward quotes fit. */
  lemma {:induction false} PathQuotesAreAdjoint(m: Market, path: seq<Address>, x: int, target: int)
    requires 0 < x && 0 < target && Required(m, path, target).Ok?
    ensures Required(m, path, target).value.1 <= x && PathFits(m, path, x)
       <==> Amounts(m, path, x).Ok? && target <= Final(x, Amounts(m, path, x).value)
    ensures 0 < Required(m, path, target).value.1
    decreases |path|
  {
    hide HopOf, ForwardFits;
    if |path| >= 2 {
      var hop := HopOf(m, path[0], path[1]).value;
      var need := Required(m, path[1..], target).value.1;
      var y := AmountOut(x, hop);
      HopIsUsable(m, path[0], path[1]);
      AmountInPositive(need, hop);
      QuotesAreAdjoint(x, need, hop.rIn, hop.rOut, hop.feeBps);
      QuoteOutExact(x, hop.rIn, hop.rOut, hop.feeBps);
      if y.Ok? {
        QuoteOutIsFloor(x, hop.rIn, hop.rOut, hop.feeBps);
        PathQuotesAreAdjoint(m, path[1..], y.value, target);
      }
    }
  }

  lemma AmountInPositive(need: int, hop: Hop)
    requires AmountIn(need, hop).Ok?
    ensures 0 < AmountIn(need, hop).value
  {
    QuoteInPositive(need, hop.rIn, hop.rOut, hop.feeBps);
  }

  /** Every hop of an exact-out swap requests an output its pair's K check accepts. */
  lemma {:induction false} RequiredHopsAreAdmissible(m: Market, path: seq<Address>, target: int)
    requires Required(m, path, target).Ok?
    ensures var (required, need) := Required(m, path, target).value;
            && |required| == (if |path| < 2 then 0 else |path| - 1)
            && need == (if required == [] then target else required[0])
            && forall i :: 0 <= i < |required| ==>
                 var hop := HopOf(m, path[i], path[i + 1]);
                 hop.Ok? && Admissible(required[i], if i + 1 < |required| then required[i + 1] else target, hop.value.rIn, hop.value.rOut, hop.value.feeBps)
    decreases |path|
  {
    hide Admissible, HopOf;
    if |path| >= 2 {
      RequiredHopsAreAdmissible(m, path[1..], target);
      var (rest, need) := Required(m, path[1..], target).value;
      var hop := HopOf(m, path[0], path[1]).value;
      QuoteInIsLeast(AmountIn(need, hop).value, need, hop.rIn, hop.rOut, hop.feeBps);
    }
  }

  /** Once the end-to-end minimum passes, the backward walk cannot err and no hop's own
      minimum can reject. */
  lemma {:induction false} MinimumsCannotReject(m: Market, path: seq<Address>, x: int, target: int)
    requires Amounts(m, path, x).Ok? && target <= Final(x, Amounts(m, path, x).value)
    ensures Minimums(m, path, target).Ok?
    ensures var (mins, need) := Minimums(m, path, target).value;
            var amounts := Amounts(m, path, x).value;
            && |mins| == |amounts| && (need <= x || need <= 0)
            && (mins != [] ==> mins[|mins| - 1] == target)
            && forall i :: 0 <= i < |mins| ==> mins[i] <= amounts[i]
    decreases |path|
  {
    hide HopOf;
    if |path| >= 2 {
      var hop := HopOf(m, path[0], path[1]).value;
      var y := AmountOut(x, hop).value;
      HopIsUsable(m, path[0], path[1]);
      var rest := Amounts(m, path[1..], y).value;
      FinalOfRest(x, y, rest);
      MinimumsCannotReject(m, path[1..], y, target);
      var need := Minimums(m, path[1..], target).value.1;
      QuoteOutIsFloor(x, hop.rIn, hop.rOut, hop.feeBps);
      if 0 < need {
        InputFits(x, hop);
        QuoteInDefinedBelow(x, need, hop.rIn, hop.rOut, hop.feeBps);
      }
    }
  }

  lemma InputFits(x: int, hop: Hop)
    requires QuoteOut(x, hop.rIn, hop.rOut, hop.feeBps).Ok?
    ensures 0 < x <= I128_MAX
  {
    MulMono(1, BPS - hop.feeBps, x);
  }

  // ---- Exact-in swaps ----------------------------------------------------------------

  /** The pricing half of `swap_exact_tokens_multi_hop`: everything that can reject the
      swap before a token moves. */
  method PriceExactIn(m: Market, path: seq<Address>, amountIn: int, amountOutMin: int) returns (r: Result<seq<int>, RouterError>)
    ensures r == PricedExactIn(m, path, amountIn, amountOutMin)
  {
    if amountIn <= 0 {
      return Err(RouterZeroAmount);
    }
    if |path| == 0 {
      return Err(RouterTrap);  // `len() - 1` underflows
    }
    var hops := |path| - 1;
    if !(1 <= hops <= 3) {
      return Err(InvalidPath);
    }
    var amounts :- GetPathAmountsOut(m, path, amountIn);
    AmountsLength(m, path, amountIn);
    var finalOut := amounts[|amounts| - 1];
    if finalOut < amountOutMin {
      return Err(InsufficientOutputAmount);
    }
    var walked := GetPathMinimums(m, path, amountOutMin);
    if walked.Err? {
      MinimumsCannotReject(m, path, amountIn, amountOutMin);
      assert false;
      return Err(InvalidPath);
    }
    var mins := walked.value;
    MinimumsCannotReject(m, path, amountIn, amountOutMin);
    for i := 0 to hops
      invariant forall j :: 0 <= j < i ==> mins[j] <= amounts[j]
    {
      if amounts[i] < mins[i] {
        return Err(InsufficientOutputAmount);
      }
    }
    return Ok(amounts);
  }

  /** What that pricing amounts to: the end-to-end comparison decides alone. */
  function PricedExactIn(m: Market, path: seq<Address>, amountIn: int, amountOutMin: int): Result<seq<int>, RouterError> {
    if amountIn <= 0 then Err(RouterZeroAmount)
    else if |path| == 0 then Err(RouterTrap)
    else if !(2 <= |path| <= 4) then Err(InvalidPath)
    else
      var amounts :- Amounts(m, path, amountIn);
      if Final(amountIn, amounts) < amountOutMin then Err(InsufficientOutputAmount) else Ok(amounts)
  }

  // ---- Liquidity amounts -------------------------------------------------------------

  function OptimalAmounts(aDesired: int, bDesired: int, aMin: int, bMin: int, rA: int, rB: int): Result<(int, int), RouterError> {
    if rA == 0 && rB == 0 then Ok((aDesired, bDesired))
    else
      var productB :- I128(aDesired * rB, RouterInsufficientLiquidity);
      var bOptimal :- CheckedDiv(productB, rA, RouterTrap);
      if bOptimal <= bDesired then
        if bOptimal < bMin then Err(RouterSlippageExceeded) else Ok((aDesired, bOptimal))
      else
        var productA :- I128(bDesired * rA, RouterInsufficientLiquidity);
        var aOptimal :- CheckedDiv(productA, rB, RouterTrap);
        if aOptimal < aMin then Err(RouterSlippageExceeded) else Ok((aOptimal, bDesired))
  }

  /** `floor(n/d) * m <= n'` turned into an order of the two sides' LP amounts. */
  lemma DerivedSideCovered(desired: int, rOwn: int, rOther: int, supply: int)
    requires 0 <= desired && 0 < rOwn && 0 < rOther && 0 <= supply
    ensures var derived := desired * rOther / rOwn;
            0 <= derived && 0 <= derived * supply && 0 <= desired * supply
            && derived * supply / rOther <= desired * supply / rOwn
  {
    var derived := desired * rOther / rOwn;
    assert 0 <= desired * rOther;
    DivFloor(desired * rOther, rOwn);
    DivNonneg(desired * rOther, rOwn);
    assert 0 <= derived * supply && 0 <= desired * supply;
    var lp := derived * supply / rOther;
    DivFloor(derived * supply, rOther);
    // lp * rOther <= derived * supply, and derived * rOwn <= desired * rOther.
    ChainRatio(lp, rOther, derived, supply, rOwn, desired);
    DivGalois(desired * supply, rOwn, lp);
  }

  lemma ChainRatio(lp: int, rOther: int, derived: int, supply: int, rOwn: int, desired: int)
    requires 0 < rOther && 0 <= supply && 0 < rOwn
    requires lp * rOther <= derived * supply && derived * rOwn <= desired * rOther
    ensures lp * rOwn <= desired * supply
  {
  }

  /** With positive reserves the deposit never exceeds either desired amount, whatever
      their signs, meets the minimum on the side it derives, and, derived from an amount of
      zero or more, that side is the one that limits the LP minted. */
  lemma OptimalAmountsAreBalanced(aDesired: int, bDesired: int, aMin: int, bMin: int, rA: int, rB: int, supply: int)
    requires 0 < rA && 0 < rB && 0 <= supply
    requires OptimalAmounts(aDesired, bDesired, aMin, bMin, rA, rB).Ok?
    ensures var (a, b) := OptimalAmounts(aDesired, bDesired, aMin, bMin, rA, rB).value;
            && a <= aDesired && b <= bDesired
            && ((a == aDesired && bMin <= b && (0 <= a ==> 0 <= b && b * supply / rB <= a * supply / rA))
                || (b == bDesired && aMin <= a && (0 <= b ==> 0 <= a && a * supply / rA <= b * supply / rB)))
  {
    OtherSideFitsTruncated(aDesired, bDesired, rA, rB);
    if 0 <= aDesired {
      assert 0 <= aDesired * rB;
      DerivedSideCovered(aDesired, rA, rB, supply);
    }
    if 0 <= bDesired {
      assert 0 <= bDesired * rA;
      DerivedSideCovered(bDesired, rB, rA, supply);
    }
  }

  /** The same with the source's division, for amounts of either sign. */
  lemma OtherSideFitsTruncated(a: int, b: int, rA: int, rB: int)
    requires 0 < rA && 0 < rB
    ensures TruncDiv(a * rB, rA) > b ==> TruncDiv(b * rA, rB) <= a
  {
    TruncOf(a, rB, rA);
    TruncOf(b, rA, rB);
    if a >= 0 && b >= 0 {
      OtherSideFits(a, b, rA, rB);
    } else if a < 0 && TruncDiv(a * rB, rA) > b {
      OtherSideReached(-a, -b, rA, rB);
    }
  }

  lemma TruncOf(x: int, m: int, d: int)
    requires 0 < m && 0 < d
    ensures if x >= 0 then 0 <= TruncDiv(x * m, d) == x * m / d else TruncDiv(x * m, d) == -(-x * m / d) <= 0
  {
    if x >= 0 {
      MulMono(0, x, m);
      DivNonneg(x * m, d);
    } else {
      MulMono(x, -1, m);
      assert -(x * m) == -x * m;
      DivNonneg(-x * m, d);
    }
  }

  lemma OtherSideReached(a: int, b: int, rA: int, rB: int)
    requires 0 < rA && 0 < rB && 0 <= a && a * rB / rA < b
    ensures a <= b * rA / rB
  {
    DivGalois(a * rB, rA, b);
    DivGalois(b * rA, rB, a);
  }

  /** If matching all of `a` would need more than all of `b`, then matching all of `b`
      needs no more than all of `a`. */
  lemma OtherSideFits(a: int, b: int, rA: int, rB: int)
    requires 0 < rA && 0 < rB
    ensures a * rB / rA > b ==> b * rA / rB <= a
  {
  }
}
