/** What a share is worth: no operation that creates no shares lowers the reserve product
    per squared redeemable share, and minting never lowers the reserves per share. */
module PairShares {
  import opened Base
  import opened Arith
  import opened Quotes
  import opened PairMath
  import opened Ledgers
  import opened DynamicFee
  import opened LpToken
  import opened PairModel
  import opened PairSafety
  import opened PairAccounting

  /** Shares that can ever be redeemed: everything but the locked seed. */
  function Redeemable(w: World): int {
    w.lp.totalSupply - MINIMUM_LIQUIDITY
  }

  /** A seeded, initialized pair between calls. */
  ghost predicate Live(w: World) {
    Inv(w) && w.store.Some? && w.lp.totalSupply != 0
  }

  lemma LiveHasRedeemable(w: World)
    requires Live(w)
    ensures 0 <= Redeemable(w)
  {
    BalanceWithinSum(w.lp.balances, PAIR);
    SumNonneg(w.pending);
  }

  // ---- Minting -----------------------------------------------------------------------

  /** A subsequent mint never lowers either reserve per LP share of total supply. */
  lemma MintKeepsReservesPerShare(w: World, to: Address)
    requires Live(w) && Mint(w, to).Ok?
    ensures var (w', liquidity) := Mint(w, to).value;
            && w'.lp.totalSupply == w.lp.totalSupply + liquidity && w'.store.Some?
            && var p, p' := w.store.value, w'.store.value;
            && p'.reserveA * w.lp.totalSupply >= p.reserveA * w'.lp.totalSupply
            && p'.reserveB * w.lp.totalSupply >= p.reserveB * w'.lp.totalSupply
  {
    hide Sum, FeeInv, SubsequentLiquidity, MintLp;
    var p := w.store.value;
    var amountA, amountB := Bal(w.tokenA, PAIR) - p.reserveA, Bal(w.tokenB, PAIR) - p.reserveB;
    LiveHasRedeemable(w);
    LiquidityCovered(amountA, amountB, p.reserveA, p.reserveB, w.lp.totalSupply);
    var liquidity := Mint(w, to).value.1;
    MintConserves(w.lp, to, liquidity);
    PerShare(p.reserveA, amountA, w.lp.totalSupply, liquidity);
    PerShare(p.reserveB, amountB, w.lp.totalSupply, liquidity);
  }

  lemma PerShare(r: int, amount: int, s: int, liquidity: int)
    ensures liquidity * r <= amount * s <==> (r + amount) * s >= r * (s + liquidity)
  {
  }

  lemma LiquidityCovered(amountA: int, amountB: int, rA: int, rB: int, supply: int)
    requires 0 <= rA && 0 <= rB && 0 <= supply
    ensures var r := FromMath(SubsequentLiquidity(amountA, amountB, rA, rB, supply));
            r.Ok? && 0 <= amountA && 0 <= amountB ==> r.value * rA <= amountA * supply && r.value * rB <= amountB * supply
  {
    var r := SubsequentLiquidity(amountA, amountB, rA, rB, supply);
    if r.Ok? && 0 <= amountA && 0 <= amountB {
      SubsequentLiquidityIsLargest(amountA, amountB, rA, rB, supply);
      assert r.value <= r.value;
    }
  }

  /** What a mint does to the value shares redeem for: per redeemable share a reserve does
      not fall exactly if the minted shares, priced over the redeemable supply, take no
      more than the deposit.  Pricing them over the total supply usually takes more. */
  lemma MintKeepsRedeemableValueExactly(w: World, to: Address)
    requires Live(w) && Mint(w, to).Ok?
    ensures var (w', liquidity) := Mint(w, to).value;
            && Redeemable(w') == Redeemable(w) + liquidity && w'.store.Some?
            && var p, p' := w.store.value, w'.store.value;
            && (p'.reserveA * Redeemable(w) >= p.reserveA * Redeemable(w') <==> liquidity * p.reserveA <= SurplusA(w) * Redeemable(w))
            && (p'.reserveB * Redeemable(w) >= p.reserveB * Redeemable(w') <==> liquidity * p.reserveB <= SurplusB(w) * Redeemable(w))
  {
    hide Sum, FeeInv, SubsequentLiquidity, MintLp;
    LiveHasRedeemable(w);
    var liquidity := Mint(w, to).value.1;
    MintConserves(w.lp, to, liquidity);
    PerShare(w.store.value.reserveA, SurplusA(w), Redeemable(w), liquidity);
    PerShare(w.store.value.reserveB, SurplusB(w), Redeemable(w), liquidity);
  }

  /** `to` mints, stages what it minted, and burns it. */
  ghost predicate MintsThenBurns(w: World, to: Address, minted: World, liquidity: int, staged: World, burned: World, a: int, b: int) {
    && Mint(w, to) == Ok((minted, liquidity))
    && DepositLp(minted, to, liquidity) == Ok(staged)
    && Burn(staged, to) == Ok((burned, a, b))
  }

  /** For each token, exactly when the payout is at least the deposit, and exactly when it
      is more. */
  lemma MintThenBurnPaysExactly(w: World, to: Address, minted: World, liquidity: int, staged: World, burned: World, a: int, b: int)
    requires Live(w) && Bal(w.pending, to) == 0 && MintsThenBurns(w, to, minted, liquidity, staged, burned, a, b)
    ensures PaysBack(liquidity, w.store.value.reserveA, SurplusA(w), Redeemable(w), a)
    ensures PaysBack(liquidity, w.store.value.reserveB, SurplusB(w), Redeemable(w), b)
  {
    hide Mint, DepositLp, Burn, CoreInv, PoolInv, FairShare, PaysBack, Bal;
    MintedAndStaged(w, to, minted, liquidity, staged);
    StagePaysFairly(staged, to);
    PaysBackFrom(liquidity, w.store.value.reserveA, SurplusA(w), Redeemable(w), a);
    PaysBackFrom(liquidity, w.store.value.reserveB, SurplusB(w), Redeemable(w), b);
  }

  lemma StagePaysFairly(w: World, to: Address)
    requires Inv(w) && 0 < Bal(w.pending, to) && Burn(w, to).Ok?
    ensures var (_, a, b) := Burn(w, to).value;
            && w.store.Some? && FairShare(Bal(w.pending, to), w.store.value.reserveA, Redeemable(w), a)
            && FairShare(Bal(w.pending, to), w.store.value.reserveB, Redeemable(w), b)
  {
    BurnRedeemsOwnShares(w, to);
    BurnTakesFromReserves(w, to);
    hide Burn, Inv, FairShare;
  }

  predicate PaysBack(liquidity: int, r: int, deposit: int, redeemable: int, paid: int) {
    && (paid >= deposit <==> liquidity * r >= deposit * redeemable)
    && (paid > deposit <==> liquidity * r >= deposit * redeemable + redeemable + liquidity)
  }

  lemma PaysBackFrom(liquidity: int, r: int, deposit: int, redeemable: int, paid: int)
    requires 0 < redeemable + liquidity && FairShare(liquidity, r + deposit, redeemable + liquidity, paid)
    ensures PaysBack(liquidity, r, deposit, redeemable, paid)
  {
    var s := redeemable + liquidity;
    assert paid >= deposit <==> deposit * s <= liquidity * (r + deposit) by {
      PaidAtLeast(liquidity * (r + deposit), s, paid, deposit);
    }
    assert paid >= deposit + 1 <==> (deposit + 1) * s <= liquidity * (r + deposit) by {
      PaidAtLeast(liquidity * (r + deposit), s, paid, deposit + 1);
    }
    assert liquidity * (r + deposit) == liquidity * r + liquidity * deposit;
    assert deposit * s == deposit * redeemable + liquidity * deposit;
    assert (deposit + 1) * s == deposit * s + s;
  }

  lemma PaidAtLeast(n: int, s: int, paid: int, d: int)
    requires 0 < s && paid * s <= n < (paid + 1) * s
    ensures paid >= d <==> d * s <= n
  {
    if d <= paid {
      MulMono(d, paid, s);
    } else {
      MulMono(paid + 1, d, s);
    }
  }

  lemma MintedAndStaged(w: World, to: Address, minted: World, liquidity: int, staged: World)
    requires Live(w) && Bal(w.pending, to) == 0 && Mint(w, to) == Ok((minted, liquidity)) && DepositLp(minted, to, liquidity) == Ok(staged)
    ensures Inv(staged) && staged.store.Some? && Bal(staged.pending, to) == liquidity && 0 < liquidity && 0 <= Redeemable(w)
    ensures Redeemable(staged) == Redeemable(w) + liquidity
    ensures staged.store.value.reserveA == w.store.value.reserveA + SurplusA(w) && staged.store.value.reserveB == w.store.value.reserveB + SurplusB(w)
  {
    hide Sum, FeeInv, SubsequentLiquidity, MintLp, TransferLp;
    LiveHasRedeemable(w);
    MintIsSafe(w, to);
    DepositLpIsSafe(minted, to, liquidity);
    MintConserves(w.lp, to, liquidity);
    TransferConserves(minted.lp, to, PAIR, liquidity);
  }

  /** The first mint locks the seed: the squared supply is at most the product of the
      deposit, and one more share would exceed it. */
  lemma FirstMintIsGeometricMean(w: World, to: Address)
    requires Inv(w) && w.lp.totalSupply == 0 && Mint(w, to).Ok?
    ensures var w' := Mint(w, to).value.0;
            && w.store.Some? && w'.store.Some? && Bal(w'.lp.balances, PAIR) == MINIMUM_LIQUIDITY
            && var p, p' := w.store.value, w'.store.value;
               IsSqrt(w'.lp.totalSupply, (p'.reserveA - p.reserveA) * (p'.reserveB - p.reserveB))
  {
    hide Sum, FeeInv, IsSqrt;
    BalanceWithinSum(w.lp.balances, PAIR);
    MintConserves(w.lp, PAIR, MINIMUM_LIQUIDITY);
    var seeded := MintLp(w.lp, PAIR, MINIMUM_LIQUIDITY).value;
    MintConserves(seeded, to, Mint(w, to).value.1);
  }

  /** When a first mint succeeds: both deposits reach the dust floor and their product
      lies between the squares that bound the minted supply. */
  lemma FirstMintSucceedsExactly(w: World, to: Address)
    requires Inv(w) && w.store.Some? && w.lp.totalSupply == 0 && to != PAIR && !w.frozen && !w.pausedHint
    ensures var p := w.store.value;
            var balA, balB := Bal(w.tokenA, PAIR), Bal(w.tokenB, PAIR);
            var a, b := balA - p.reserveA, balB - p.reserveB;
            Mint(w, to).Ok? <==>
              && MINIMUM_RESERVE <= a <= I128_MAX && MINIMUM_RESERVE <= b <= I128_MAX
              && MIN_FIRST_SUPPLY * MIN_FIRST_SUPPLY <= a * b < MAX_FIRST_SUPPLY * MAX_FIRST_SUPPLY
              && InI128(balA * balB)
  {
    hide Sum, FeeInv;
    NobodyHolds(w.lp.balances, PAIR);
    NobodyHolds(w.lp.balances, to);
    var a, b := Bal(w.tokenA, PAIR) - w.store.value.reserveA, Bal(w.tokenB, PAIR) - w.store.value.reserveB;
    if 0 <= a && 0 <= b {
      FirstLiquidityRange(a, b);
    }
  }

  /** The smallest first supply, and the first one too large to mint in one call. */
  const MIN_FIRST_SUPPLY: int := MINIMUM_LIQUIDITY + MIN_LIQUIDITY_FOR_USER
  const MAX_FIRST_SUPPLY: int := MINIMUM_LIQUIDITY + MAX_MINT_PER_CALL + 1

  lemma FirstLiquidityRange(a: nat, b: nat)
    ensures 0 <= a * b
    ensures var r := InitialLiquidity(a, b);
            r.Ok? && MIN_LIQUIDITY_FOR_USER <= r.value <= MAX_MINT_PER_CALL
            <==> MIN_FIRST_SUPPLY * MIN_FIRST_SUPPLY <= a * b < MAX_FIRST_SUPPLY * MAX_FIRST_SUPPLY
  {
    assert 0 <= a * b;
    if a * b < I128_MAX {
      SqrtGalois(MIN_FIRST_SUPPLY, a * b, ISqrt(a * b));
      SqrtGalois(MAX_FIRST_SUPPLY, a * b, ISqrt(a * b));
    }
  }

  lemma NobodyHolds(m: Ledger, who: Address)
    requires Positive(m) && Sum(m) == 0
    ensures Bal(m, who) == 0
  {
    BalanceWithinSum(m, who);
  }

  // ---- Everything else ---------------------------------------------------------------

  function Product(w: World): int
    requires w.store.Some?
  {
    w.store.value.reserveA * w.store.value.reserveB
  }

  /** The reserve product per squared redeemable share did not fall. */
  ghost predicate ValueKept(w: World, w': World) {
    && w.store.Some? && w'.store.Some?
    && Product(w') * (Redeemable(w) * Redeemable(w)) >= Product(w) * (Redeemable(w') * Redeemable(w'))
  }

  /** Nor was a share created. */
  ghost predicate Grew(w: World, w': World) {
    ValueKept(w, w') && 0 <= Redeemable(w') <= Redeemable(w)
  }

  /** Each reserve per redeemable share did not fall. */
  ghost predicate GrewEach(w: World, w': World) {
    && w.store.Some? && w'.store.Some?
    && 0 <= Redeemable(w') <= Redeemable(w)
    && w'.store.value.reserveA * Redeemable(w) >= w.store.value.reserveA * Redeemable(w')
    && w'.store.value.reserveB * Redeemable(w) >= w.store.value.reserveB * Redeemable(w')
  }

  lemma ProductOfSides(a: int, b: int, a': int, b': int, s: int, s': int)
    requires 0 <= a && 0 <= b && 0 <= s' && 0 <= a' && 0 <= b' && 0 <= s
    requires a' * s >= a * s' && b' * s >= b * s'
    ensures a' * b' * (s * s) >= a * b * (s' * s')
  {
    assert 0 <= a * s' && 0 <= b * s';
    MulMono2(a * s', b * s', a' * s, b' * s);
    assert (a' * s) * (b' * s) == a' * b' * (s * s);
    assert (a * s') * (b * s') == a * b * (s' * s');
  }

  lemma EachSideImpliesProduct(w: World, w': World)
    requires Inv(w) && Inv(w') && GrewEach(w, w')
    ensures Grew(w, w')
  {
    var p, p' := w.store.value, w'.store.value;
    ProductOfSides(p.reserveA, p.reserveB, p'.reserveA, p'.reserveB, Redeemable(w), Redeemable(w'));
  }

  /** Reserves that do not fall while shares do not grow. */
  lemma NotLessForNoMore(w: World, w': World)
    requires Live(w) && Live(w') && w'.lp.totalSupply <= w.lp.totalSupply
    requires w'.store.value.reserveA >= w.store.value.reserveA && w'.store.value.reserveB >= w.store.value.reserveB
    ensures GrewEach(w, w')
  {
    LiveHasRedeemable(w');
    var p, p' := w.store.value, w'.store.value;
    MulMono2(p.reserveA, Redeemable(w'), p'.reserveA, Redeemable(w));
    MulMono2(p.reserveB, Redeemable(w'), p'.reserveB, Redeemable(w));
  }

  /** A proportional burn never lowers either reserve per redeemable share. */
  lemma BurnGrows(w: World, to: Address)
    requires Live(w) && Burn(w, to).Ok?
    ensures var w' := Burn(w, to).value.0; GrewEach(w, w') && w'.store.Some? && w'.lp.totalSupply != 0
  {
    hide Burnable, Pay, FeeInv, Sum, BurnAmounts, BurnLp;
    var p := w.store.value;
    var shares := Burnable(w, to).value;
    LiveHasRedeemable(w);
    BurnableBounds(w, to);
    BurnAmountsFair(shares, p.reserveA, p.reserveB, Redeemable(w));
    BurnConserves(w.lp, PAIR, shares);
  }

  /** What a burn leaves for the locked seed.  It empties a side exactly if it redeems every
      redeemable share; the part of the reserve that is proportional to the seed stays
      exactly as long as the burn redeems few enough shares. */
  lemma BurnLeavesSeedShareExactly(w: World, to: Address)
    requires Live(w) && Burn(w, to).Ok?
    ensures var w' := Burn(w, to).value.0;
            var shares, s, total := w.lp.totalSupply - w'.lp.totalSupply, Redeemable(w), w.lp.totalSupply;
            && w'.store.Some? && 0 < s
            && var p, p' := w.store.value, w'.store.value;
            && (p'.reserveA == 0 <==> shares == s) && (p'.reserveB == 0 <==> shares == s)
            && (p'.reserveA * total >= MINIMUM_LIQUIDITY * p.reserveA <==> shares * p.reserveA < (p.reserveA * s / total + 1) * s)
            && (p'.reserveB * total >= MINIMUM_LIQUIDITY * p.reserveB <==> shares * p.reserveB < (p.reserveB * s / total + 1) * s)
  {
    hide Burn, CoreInv, PoolInv, FairShare, Bal;
    BurnRedeemsOwnShares(w, to);
    BurnTakesFromReserves(w, to);
    var (w', a, b) := Burn(w, to).value;
    var shares := w.lp.totalSupply - w'.lp.totalSupply;
    AllPaid(shares, w.store.value.reserveA, Redeemable(w), a);
    AllPaid(shares, w.store.value.reserveB, Redeemable(w), b);
    SeedShare(shares, w.store.value.reserveA, Redeemable(w), a);
    SeedShare(shares, w.store.value.reserveB, Redeemable(w), b);
  }

  lemma BurnTakesFromReserves(w: World, to: Address)
    requires Burn(w, to).Ok?
    ensures var (w', a, b) := Burn(w, to).value;
            && w.store.Some? && w'.store.Some? && 0 < a && 0 < b
            && w'.store.value.reserveA == w.store.value.reserveA - a && w'.store.value.reserveB == w.store.value.reserveB - b
  {
    hide BurnAmounts, Burnable, BurnLp, Pay;
  }

  lemma AllPaid(shares: int, r: int, s: int, paid: int)
    requires 0 < shares <= s && 0 < paid && FairShare(shares, r, s, paid)
    ensures r - paid == 0 <==> shares == s
  {
    PaidAtLeast(shares * r, s, paid, r);
    if shares < s {
      MulMono(shares, s - 1, r);
      assert (s - 1) * r == s * r - r;
    }
  }

  lemma SeedShare(shares: int, r: int, s: int, paid: int)
    requires 0 < shares <= s && FairShare(shares, r, s, paid)
    ensures (r - paid) * (s + MINIMUM_LIQUIDITY) >= MINIMUM_LIQUIDITY * r
       <==> shares * r < (r * s / (s + MINIMUM_LIQUIDITY) + 1) * s
  {
    var total := s + MINIMUM_LIQUIDITY;
    LeftForSeed(r, s, paid);
    DivGalois(r * s, total, paid);
    PaidAtLeast(shares * r, s, paid, r * s / total + 1);
  }

  lemma LeftForSeed(r: int, s: int, paid: int)
    ensures (r - paid) * (s + MINIMUM_LIQUIDITY) == r * s + MINIMUM_LIQUIDITY * r - paid * (s + MINIMUM_LIQUIDITY)
  {
  }

  /** The K check of a single-sided burn carries over to the plain reserves. */
  lemma LegKeepsProduct(sharePref: int, shareUnwanted: int, pref: int, unwanted: int, feeBps: nat, minOut: int)
    requires 0 <= sharePref <= pref && 0 <= shareUnwanted <= unwanted
    requires SingleSideLeg(sharePref, shareUnwanted, pref, unwanted, feeBps, minOut).Ok?
    ensures var (out, left) := SingleSideLeg(sharePref, shareUnwanted, pref, unwanted, feeBps, minOut).value;
            left * unwanted >= (pref - sharePref) * (unwanted - shareUnwanted) && 0 <= left
  {
    hide LegOut;
    SingleSideLegBounds(sharePref, shareUnwanted, pref, unwanted, feeBps, minOut);
    assert 0 <= shareUnwanted * feeBps;
    var left := SingleSideLeg(sharePref, shareUnwanted, pref, unwanted, feeBps, minOut).value.1;
    LegCore(left, unwanted, shareUnwanted * feeBps, (pref - sharePref) * (unwanted - shareUnwanted));
  }

  lemma LegCore(left: int, unwanted: int, charged: int, k: int)
    requires 0 <= left && 0 <= charged && (left * BPS) * (unwanted * BPS - charged) >= k * 100_000_000
    ensures left * unwanted >= k
  {
  }

  lemma SingleSideCore(pref: int, unwanted: int, sharePref: int, shareUnwanted: int, left: int, s: int, s': int)
    requires 0 <= s' && 0 <= s && 0 <= sharePref <= pref && 0 <= shareUnwanted <= unwanted
    requires (pref - sharePref) * s >= pref * s' && (unwanted - shareUnwanted) * s >= unwanted * s'
    requires left * unwanted >= (pref - sharePref) * (unwanted - shareUnwanted)
    ensures left * unwanted * (s * s) >= pref * unwanted * (s' * s')
  {
    ProductOfSides(pref, unwanted, pref - sharePref, unwanted - shareUnwanted, s, s');
    assert 0 <= s * s;
    MulMono((pref - sharePref) * (unwanted - shareUnwanted), left * unwanted, s * s);
  }

  /** A single-sided burn never lowers the reserve product per squared redeemable share. */
  lemma BurnSingleSideGrows(w: World, to: Address, lpAmount: int, preferred: Preferred, minOut: int)
    requires Live(w) && BurnSingleSide(w, to, lpAmount, preferred, minOut).Ok?
    ensures var w' := BurnSingleSide(w, to, lpAmount, preferred, minOut).value.0;
            Grew(w, w') && w'.store.Some? && w'.lp.totalSupply != 0
  {
    hide BurnAmounts, SingleSideLeg, ComputeFee, FeeInv, Pay, BurnLp, Sum, FairShare;
    var p := w.store.value;
    var s := Redeemable(w);
    BurnConserves(w.lp, to, lpAmount);
    HolderBelowSeed(w, to);
    BalanceWithinSum(w.pending, to);
    SingleSideBurnNumbers(lpAmount, p.reserveA, p.reserveB, s, ComputeFee(w.fees), minOut);
    assert p.reserveA * p.reserveB == p.reserveB * p.reserveA;
  }

  /** The numbers of a single-sided burn, for either choice of the preferred side. */
  lemma SingleSideBurnNumbers(lp: int, rA: int, rB: int, supply: int, fee: nat, minOut: int)
    requires 0 < lp <= supply && 0 <= rA && 0 <= rB
    ensures var shares := FromMath(BurnAmounts(lp, rA, rB, supply));
            shares.Ok? ==>
              var (a, b) := shares.value;
              var legA, legB := SingleSideLeg(a, b, rA, rB, fee, minOut), SingleSideLeg(b, a, rB, rA, fee, minOut);
              && (legA.Ok? ==> legA.value.1 * rB * (supply * supply) >= rA * rB * ((supply - lp) * (supply - lp)))
              && (legB.Ok? ==> rA * legB.value.1 * (supply * supply) >= rA * rB * ((supply - lp) * (supply - lp)))
  {
    hide SingleSideLeg, BurnAmounts;
    if FromMath(BurnAmounts(lp, rA, rB, supply)).Ok? {
      BurnAmountsFair(lp, rA, rB, supply);
      var (a, b) := FromMath(BurnAmounts(lp, rA, rB, supply)).value;
      if SingleSideLeg(a, b, rA, rB, fee, minOut).Ok? {
        LegKeepsProduct(a, b, rA, rB, fee, minOut);
        SingleSideCore(rA, rB, a, b, SingleSideLeg(a, b, rA, rB, fee, minOut).value.1, supply, supply - lp);
      }
      if SingleSideLeg(b, a, rB, rA, fee, minOut).Ok? {
        LegKeepsProduct(b, a, rB, rA, fee, minOut);
        var left := SingleSideLeg(b, a, rB, rA, fee, minOut).value.1;
        SingleSideCore(rB, rA, b, a, left, supply, supply - lp);
        assert rA * left == left * rA && rA * rB == rB * rA;
      }
    }
  }

  lemma ProductNotLess(w: World, w': World)
    requires Live(w) && w'.store.Some? && w'.lp.totalSupply == w.lp.totalSupply && Product(w') >= Product(w)
    ensures Grew(w, w')
  {
    LiveHasRedeemable(w);
    assert 0 <= Redeemable(w) * Redeemable(w);
    MulMono(Product(w), Product(w'), Redeemable(w) * Redeemable(w));
  }

  lemma SyncRecordsMore(w: World)
    requires Live(w) && Sync(w).Ok?
    ensures var w' := Sync(w).value;
            && w'.store.Some? && w'.lp == w.lp
            && w'.store.value.reserveA >= w.store.value.reserveA && w'.store.value.reserveB >= w.store.value.reserveB
  {
  }

  // ---- Which steps create shares -----------------------------------------------------

  /** Neither a mint nor a direct burn of a negative amount, callbacks included. */
  predicate CreatesNoShares(a: Action) {
    match a
    case DoMint(_) => false
    case DoLpCall(call) => !Conjures(call)
    case DoFlashLoan(_, _, _, _, callback, _) =>
      forall i :: 0 <= i < |callback| ==> !(callback[i].DoLpCall? && Conjures(callback[i].call))
    case _ => true
  }

  /** Exactly when a direct call keeps what the shares are worth: not when it burns a
      negative amount, unless the pool is empty. */
  lemma DirectCallKeepsValueExactly(w: World, call: LpCall)
    requires Live(w) && OutsideLp(w, call).Ok?
    ensures var w' := OutsideLp(w, call).value;
            && (Grew(w, w') <==> !Conjures(call))
            && (ValueKept(w, w') <==> !Conjures(call) || Product(w) == 0)
  {
    hide OutsideLp, CoreInv, Sum;
    var w' := OutsideLp(w, call).value;
    OutsideLpIsSafeExactly(w, call);
    OutsideLpMoves(w, call);
    LiveHasRedeemable(w);
    LiveHasRedeemable(w');
    assert 0 <= Product(w) == Product(w');
    MoreSharesAreWorthLess(Product(w), Redeemable(w), Redeemable(w'));
  }

  lemma MoreSharesAreWorthLess(k: nat, s: nat, s': nat)
    ensures k * (s * s) >= k * (s' * s') <==> s' <= s || k == 0
  {
    if s' <= s {
      MulMono2(s', s', s, s);
      MulMono(s' * s', s * s, k);
    } else {
      MulMono2(s, s, s, s');
      MulMono(s + 1, s', s');
      if 0 < k {
        MulMono(1, k, s' * s' - s * s);
      }
    }
  }

  lemma {:induction false} LockedRunMakesNoShares(w: World, actions: seq<Action>)
    requires w.locked && w.store.Some?
    requires forall i :: 0 <= i < |actions| ==> !(actions[i].DoLpCall? && Conjures(actions[i].call))
    ensures Run(w, actions).lp.totalSupply <= w.lp.totalSupply
    decreases |actions|
  {
    if actions != [] {
      LockedStepHolds(w, actions[0]);
      LockedStepMakesNoShares(w, actions[0]);
      hide After;
      LockedRunMakesNoShares(After(w, actions[0]), actions[1..]);
    }
  }

  lemma LockedStepMakesNoShares(w: World, a: Action)
    requires w.locked && w.store.Some? && !(a.DoLpCall? && Conjures(a.call))
    ensures After(w, a).lp.totalSupply <= w.lp.totalSupply
  {
    if Guarded(a) {
      hide Step;
      LockRejects(w, a);
    } else {
      hide OutsideLp, OutsideTransfer, FlashLoan, Swap;
      if a.DoLpCall? && OutsideLp(w, a.call).Ok? {
        OutsideLpMoves(w, a.call);
      }
    }
  }

  /** Steps that neither trade nor create shares. */
  predicate Proportional(a: Action) {
    CreatesNoShares(a) && !(a.DoSwap? || a.DoBurnSingleSide?)
  }

  lemma StepKeepsLive(w: World, a: Action)
    requires Live(w)
    ensures Inv(After(w, a)) && After(w, a).lp.totalSupply != 0
    ensures After(w, a).store.Some? ==> Live(After(w, a))
  {
    hide After, Inv, SeedFirst;
    SeededNeedsNothing(w, a);
    StepIsSafe(w, a);
  }

  /** Every other step keeps the supply from growing and reserves per share from falling. */
  lemma ProportionalStepGrows(w: World, a: Action)
    requires Live(w) && Proportional(a)
    ensures GrewEach(w, After(w, a)) && Live(After(w, a))
  {
    hide Initialize, Burn, Sync, DepositLp, FlashLoan, OutsideLp, OutsideTransfer, Inv, Sum, GrewEach;
    StepKeepsLive(w, a);
    var w' := After(w, a);
    if Step(w, a).Ok? {
      match a {
        case DoInitialize(allowed) => InitializedOnce(w, allowed);
        case DoBurn(to) => BurnGrows(w, to);
        case DoSync => SyncRecordsMore(w); NotLessForNoMore(w, w');
        case DoDepositLp(from, amount) => DepositKeepsPool(w, from, amount); NotLessForNoMore(w, w');
        case DoFlashLoan(receiver, amountA, amountB, payload, callback, ok) =>
          FlashLoanKeepsReserves(w, receiver, amountA, amountB, payload, callback, ok);
          NotLessForNoMore(w, w');
        case DoLpCall(call) => OutsideLpMoves(w, call); NotLessForNoMore(w, w');
        case DoTransfer(ofA, from, to, amount) => OutsideTransferMoves(w, ofA, from, to, amount); NotLessForNoMore(w, w');
        case _ => NotLessForNoMore(w, w');
      }
    } else {
      NotLessForNoMore(w, w');
    }
  }

  lemma InitializedOnce(w: World, allowed: bool)
    requires w.store.Some?
    ensures Initialize(w, allowed).Err?
  {
  }

  lemma DepositKeepsPool(w: World, from: Address, amount: int)
    requires DepositLp(w, from, amount).Ok?
    ensures var w' := DepositLp(w, from, amount).value;
            w'.store == w.store && w'.lp.totalSupply == w.lp.totalSupply
  {
  }

  lemma FlashLoanKeepsReserves(w: World, receiver: Address, amountA: int, amountB: int, payload: nat, callback: seq<Action>, callbackOk: bool)
    requires Live(w) && FlashLoan(w, receiver, amountA, amountB, payload, callback, callbackOk).Ok?
    requires CreatesNoShares(DoFlashLoan(receiver, amountA, amountB, payload, callback, callbackOk))
    ensures var w' := FlashLoan(w, receiver, amountA, amountB, payload, callback, callbackOk).value;
            && w'.store.Some? && w'.lp.totalSupply <= w.lp.totalSupply
            && w'.store.value.reserveA >= w.store.value.reserveA && w'.store.value.reserveB >= w.store.value.reserveB
  {
    FlashLoanEffects(w, receiver, amountA, amountB, payload, callback, callbackOk);
    FlashFeeIfAny(w, receiver, amountA, amountB, payload);
    var terms := FlashOpen(w, receiver, amountA, amountB, payload);
    hide FlashOpen, Run, Inv, FlashFee;
    if terms.value.Some? {
      FlashOpens(w, receiver, amountA, amountB, payload);
      LockedRunMakesNoShares(terms.value.value.0, callback);
    }
  }

  lemma FlashFeeIfAny(w: World, receiver: Address, amountA: int, amountB: int, payload: nat)
    ensures FlashOpen(w, receiver, amountA, amountB, payload).Ok? ==>
              && (FlashOpen(w, receiver, amountA, amountB, payload).value.None? ==> amountA == 0 && amountB == 0)
              && (amountA > 0 ==> 0 <= FlashFee(amountA, w.fees.baselineFeeBps).value)
              && (amountB > 0 ==> 0 <= FlashFee(amountB, w.fees.baselineFeeBps).value)
  {
  }

  lemma MintFreeStepGrows(w: World, a: Action)
    requires Live(w) && CreatesNoShares(a)
    ensures Grew(w, After(w, a)) && Live(After(w, a))
  {
    hide Swap, BurnSingleSide, CoreInv, PoolInv, Grew, GrewEach;
    StepKeepsLive(w, a);
    var w' := After(w, a);
    if Proportional(a) {
      ProportionalStepGrows(w, a);
      EachSideImpliesProduct(w, w');
    } else if Step(w, a).Ok? {
      match a {
        case DoSwap(outA, outB, to, f) =>
          SwapEffects(w, outA, outB, to, f);
          ProductNotLess(w, w');
        case DoBurnSingleSide(to, lpAmount, preferred, minOut) =>
          BurnSingleSideGrows(w, to, lpAmount, preferred, minOut);
      }
    } else {
      ProductNotLess(w, w');
    }
  }

  /** `k2/s2^2 >= k1/s1^2 >= k0/s0^2`, cross-multiplied. */
  lemma ChainSquares(k0: int, s0: int, k1: int, s1: int, k2: int, s2: int)
    requires 0 <= s2 <= s1 <= s0 && 0 <= k2 && 0 <= k0
    requires k1 * (s0 * s0) >= k0 * (s1 * s1) && k2 * (s1 * s1) >= k1 * (s2 * s2)
    ensures k2 * (s0 * s0) >= k0 * (s2 * s2)
  {
  }

  lemma GrewChains(w0: World, w1: World, w2: World)
    requires Grew(w0, w1) && Grew(w1, w2) && Inv(w0) && Inv(w2)
    ensures Grew(w0, w2)
  {
    assert 0 <= Product(w0) && 0 <= Product(w2);
    ChainSquares(Product(w0), Redeemable(w0), Product(w1), Redeemable(w1), Product(w2), Redeemable(w2));
  }

  /** Over any run of a seeded pair that creates no shares, with every kind of trade,
      burn, flash loan, donation and direct LP call in it, `k * B0^2 >= k0 * B^2`. */
  lemma {:induction false} MintFreeRunGrows(w: World, actions: seq<Action>)
    requires Live(w) && forall i :: 0 <= i < |actions| ==> CreatesNoShares(actions[i])
    ensures Grew(w, Run(w, actions)) && Live(Run(w, actions))
    decreases |actions|
  {
    if actions == [] {
      ProductNotLess(w, w);
    } else {
      var w1 := After(w, actions[0]);
      MintFreeStepGrows(w, actions[0]);
      MintFreeRunGrows(w1, actions[1..]);
      GrewChains(w, w1, Run(w1, actions[1..]));
    }
  }

  // ---- Runs with mints ---------------------------------------------------------------

  /** Steps that keep what the redeemable shares are worth: mints that price their shares
      within the deposit, and everything else that creates none. */
  predicate KeepsWorth(w: World, a: Action) {
    match a
    case DoMint(to) =>
      Mint(w, to).Ok? && w.store.Some? ==>
        && Mint(w, to).value.1 * w.store.value.reserveA <= SurplusA(w) * Redeemable(w)
        && Mint(w, to).value.1 * w.store.value.reserveB <= SurplusB(w) * Redeemable(w)
    case _ => CreatesNoShares(a)
  }

  predicate KeepsWorthRun(w: World, actions: seq<Action>)
    decreases |actions|
  {
    actions == [] || (KeepsWorth(w, actions[0]) && KeepsWorthRun(After(w, actions[0]), actions[1..]))
  }

  /** Worth kept, and nothing appears once every redeemable share is gone. */
  ghost predicate WorthKept(w: World, w': World) {
    ValueKept(w, w') && (Redeemable(w) == 0 ==> Redeemable(w') == 0)
  }

  lemma MintKeepsWorth(w: World, to: Address)
    requires Live(w) && Mint(w, to).Ok? && KeepsWorth(w, DoMint(to))
    ensures WorthKept(w, Mint(w, to).value.0) && Mint(w, to).value.0.store.Some?
  {
    hide Mint, CoreInv;
    var (w', liquidity) := Mint(w, to).value;
    MintKeepsRedeemableValueExactly(w, to);
    MintIsSafe(w, to);
    MintNeedsReserves(w, to);
    LiveHasRedeemable(w);
    var p, p' := w.store.value, w'.store.value;
    if Redeemable(w) == 0 {
      MulMono(1, liquidity, p.reserveA);
      assert false;
    }
    ProductOfSides(p.reserveA, p.reserveB, p'.reserveA, p'.reserveB, Redeemable(w), Redeemable(w'));
  }

  lemma MintNeedsReserves(w: World, to: Address)
    requires Live(w) && Mint(w, to).Ok?
    ensures 0 < Mint(w, to).value.1 && Mint(w, to).value.0.store.Some? && 0 < w.store.value.reserveA && 0 < w.store.value.reserveB
  {
    hide MintLp, Sum, FeeInv;
  }

  lemma StepKeepsWorth(w: World, a: Action)
    requires Live(w) && KeepsWorth(w, a)
    ensures WorthKept(w, After(w, a)) && Live(After(w, a))
  {
    hide Mint, Inv, CreatesNoShares, ValueKept;
    if a.DoMint? {
      StepKeepsLive(w, a);
      if Step(w, a).Ok? {
        MintKeepsWorth(w, a.to);
      } else {
        ProductNotLess(w, w);
      }
    } else {
      MintFreeStepGrows(w, a);
    }
  }

  lemma WorthChains(w0: World, w1: World, w2: World)
    requires WorthKept(w0, w1) && WorthKept(w1, w2) && Inv(w0) && Inv(w2)
    ensures WorthKept(w0, w2)
  {
    assert 0 <= Product(w0) && 0 <= Product(w2);
    ChainWorth(Product(w0), Redeemable(w0), Product(w1), Redeemable(w1), Product(w2), Redeemable(w2));
  }

  lemma ChainWorth(k0: int, s0: int, k1: int, s1: int, k2: int, s2: int)
    requires 0 <= k2 && (s1 == 0 ==> s2 == 0)
    requires k1 * (s0 * s0) >= k0 * (s1 * s1) && k2 * (s1 * s1) >= k1 * (s2 * s2)
    ensures k2 * (s0 * s0) >= k0 * (s2 * s2)
  {
    var (t0, t1, t2) := (s0 * s0, s1 * s1, s2 * s2);
    assert 0 <= t0 && 0 <= t1 && 0 <= t2;
    if s1 == 0 {
      assert t2 == 0;
      MulMono2(0, 0, k2, t0);
    } else {
      SquarePositive(s1);
      MulMono(k0 * t1, k1 * t0, t2);
      MulMono(k1 * t2, k2 * t1, t0);
      assert k0 * t1 * t2 == k0 * t2 * t1 && k1 * t0 * t2 == k1 * t2 * t0 && k2 * t1 * t0 == k2 * t0 * t1;
      MulCancel(k0 * t2, k2 * t0, t1);
    }
  }

  lemma SquarePositive(s: int)
    requires s != 0
    ensures 0 < s * s
  {
  }

  /** Over any run of a seeded pair, mints included, in which each mint prices its shares
      within the deposit, `k * B0^2 >= k0 * B^2`. */
  lemma {:induction false} WorthOverEveryRun(w: World, actions: seq<Action>)
    requires Live(w) && KeepsWorthRun(w, actions)
    ensures WorthKept(w, Run(w, actions)) && Live(Run(w, actions))
    decreases |actions|
  {
    if actions == [] {
      ProductNotLess(w, w);
    } else {
      hide After, KeepsWorth, ValueKept, CoreInv, PoolInv;
      var w1 := After(w, actions[0]);
      StepKeepsWorth(w, actions[0]);
      WorthOverEveryRun(w1, actions[1..]);
      WorthChains(w, w1, Run(w1, actions[1..]));
    }
  }

  lemma ChainSides(r0: int, s0: int, r1: int, s1: int, r2: int, s2: int)
    requires 0 <= s2 <= s1 <= s0 && 0 <= r0 && 0 <= r2
    requires r1 * s0 >= r0 * s1 && r2 * s1 >= r1 * s2
    ensures r2 * s0 >= r0 * s2
  {
  }

  lemma {:induction false} ProportionalRunGrows(w: World, actions: seq<Action>)
    requires Live(w) && forall i :: 0 <= i < |actions| ==> Proportional(actions[i])
    ensures GrewEach(w, Run(w, actions)) && Live(Run(w, actions))
    decreases |actions|
  {
    if actions == [] {
      NotLessForNoMore(w, w);
    } else {
      var w1 := After(w, actions[0]);
      ProportionalStepGrows(w, actions[0]);
      ProportionalRunGrows(w1, actions[1..]);
      var w2 := Run(w1, actions[1..]);
      var p0, p1, p2 := w.store.value, w1.store.value, w2.store.value;
      ChainSides(p0.reserveA, Redeemable(w), p1.reserveA, Redeemable(w1), p2.reserveA, Redeemable(w2));
      ChainSides(p0.reserveB, Redeemable(w), p1.reserveB, Redeemable(w1), p2.reserveB, Redeemable(w2));
    }
  }

  lemma ShareNotLess(lp: int, r: int, s: int, r': int, s': int)
    requires 0 <= lp && 0 < s && 0 < s' && 0 <= r && 0 <= r' && r' * s >= r * s'
    ensures lp * r / s <= lp * r' / s'
  {
    var q := lp * r / s;
    DivFloor(lp * r, s);
    MulMono2(lp, r * s', lp, r' * s);
    assert 0 <= r * s';
    MulMono(q * s, lp * r, s');
    assert q * s * s' == q * s' * s;
    assert lp * r * s' == lp * (r * s') && lp * r' * s == lp * (r' * s);
    MulCancel(q * s', lp * r', s);
    DivGalois(lp * r', s', q);
  }

  /** Waiting costs a proportional burner nothing: after any run of other holders'
      proportional burns, stages, donations and flash loans, the same shares pay at
      least as much of each token as they would have paid before. */
  lemma LaterBurnerGetsNoLess(w: World, actions: seq<Action>, lp: int)
    requires Live(w) && forall i :: 0 <= i < |actions| ==> Proportional(actions[i])
    requires 0 < lp <= Redeemable(Run(w, actions))
    ensures var w' := Run(w, actions);
            var p, p' := w.store.value, w'.store;
            && p'.Some? && lp <= Redeemable(w)
            && lp * p.reserveA / Redeemable(w) <= lp * p'.value.reserveA / Redeemable(w')
            && lp * p.reserveB / Redeemable(w) <= lp * p'.value.reserveB / Redeemable(w')
  {
    hide Run, CoreInv;
    ProportionalRunGrows(w, actions);
    var w' := Run(w, actions);
    ShareNotLess(lp, w.store.value.reserveA, Redeemable(w), w'.store.value.reserveA, Redeemable(w'));
    ShareNotLess(lp, w.store.value.reserveB, Redeemable(w), w'.store.value.reserveB, Redeemable(w'));
  }

  /** With trades and single-sided burns in between as well, the same shares redeem at
      least the same product of the two tokens, up to the rounding of one payout each. */
  lemma LaterPayoutProduct(w: World, actions: seq<Action>, lp: int)
    requires Live(w) && forall i :: 0 <= i < |actions| ==> CreatesNoShares(actions[i])
    requires 0 < lp <= Redeemable(Run(w, actions))
    ensures var w' := Run(w, actions);
            var p, p' := w.store.value, w'.store;
            && p'.Some? && lp <= Redeemable(w)
            && var (a, b) := (lp * p.reserveA / Redeemable(w), lp * p.reserveB / Redeemable(w));
               var (a', b') := (lp * p'.value.reserveA / Redeemable(w'), lp * p'.value.reserveB / Redeemable(w'));
               a * b < (a' + 1) * (b' + 1)
  {
    hide Run, CoreInv;
    MintFreeRunGrows(w, actions);
    var w' := Run(w, actions);
    var p, p' := w.store.value, w'.store.value;
    PayoutProduct(lp, p.reserveA, p.reserveB, Redeemable(w), p'.reserveA, p'.reserveB, Redeemable(w'));
  }

  lemma PayoutProduct(lp: int, a: int, b: int, s: int, a': int, b': int, s': int)
    requires 0 < lp && 0 < s && 0 < s' && 0 <= a && 0 <= b && 0 <= a' && 0 <= b'
    requires a' * b' * (s * s) >= a * b * (s' * s')
    ensures (lp * a / s) * (lp * b / s) < (lp * a' / s' + 1) * (lp * b' / s' + 1)
  {
    FloorProduct(lp, a, b, s);
    FloorProduct(lp, a', b', s');
    PayoutChain(lp * lp, a * b, s * s, a' * b', s' * s', (lp * a / s) * (lp * b / s), (lp * a' / s' + 1) * (lp * b' / s' + 1));
  }

  lemma Regroup(x: int, y: int, s: int)
    ensures (s * x) * (s * y) == s * s * (x * y)
  {
  }

  /** Two floored shares, and the same shares rounded up past the next unit. */
  lemma FloorProduct(lp: int, a: int, b: int, s: int)
    requires 0 < lp && 0 < s && 0 <= a && 0 <= b
    ensures 0 < lp * lp && 0 < s * s
    ensures s * s * ((lp * a / s) * (lp * b / s)) <= lp * lp * (a * b) < s * s * ((lp * a / s + 1) * (lp * b / s + 1))
  {
    MulMono2(0, 0, lp, a);
    MulMono2(0, 0, lp, b);
    MulMono2(1, 1, lp, lp);
    MulMono2(1, 1, s, s);
    var x, y := lp * a / s, lp * b / s;
    FloorOf(lp * a, s);
    FloorOf(lp * b, s);
    MulMono2(s * x, s * y, lp * a, lp * b);
    StrictProduct(lp * a, lp * b, s * (x + 1), s * (y + 1));
    Regroup(x, y, s);
    Regroup(x + 1, y + 1, s);
    Regroup(a, b, lp);
  }

  lemma FloorOf(n: int, s: int)
    requires 0 <= n && 0 < s
    ensures 0 <= s * (n / s) <= n < s * (n / s + 1)
  {
    DivFloor(n, s);
    DivNonneg(n, s);
  }

  lemma StrictProduct(a: int, b: int, c: int, d: int)
    requires 0 <= a < c && 0 <= b < d
    ensures a * b < c * d
  {
    MulMono2(a, b, a, d);
    MulMono(a + 1, c, d);
    assert (a + 1) * d == a * d + d;
  }

  /** `q <= n*k/t`, `n*k'/t' < q'` and `k/t <= k'/t'`, cross-multiplied. */
  lemma PayoutChain(n: int, k: int, t: int, k': int, t': int, q: int, q': int)
    requires 0 < n && 0 < t && 0 < t'
    requires t * q <= n * k && n * k' < t' * q' && k' * t >= k * t'
    ensures q < q'
  {
    MulMono2(1, 1, t, t');
    assert q * (t * t') <= n * (k * t') by {
      MulMono(t * q, n * k, t');
    }
    assert n * (k' * t) < q' * (t * t') by {
      MulMono(n * k' + 1, t' * q', t);
    }
    MulMono(k * t', k' * t, n);
    LessByScale(q, q', t * t');
  }

  lemma LessByScale(q: int, q': int, m: int)
    requires 0 < m && q * m < q' * m
    ensures q < q'
  {
    if q' <= q {
      MulMono(q', q, m);
    }
  }

  /** No sequence of trades, flash loans, donations and stages, by anybody, takes value
      out of the pool: while the supply is unchanged the reserves cannot both be at or
      below where they started with one of them strictly below. */
  lemma TradingTakesNothingOut(w: World, actions: seq<Action>)
    requires Live(w) && forall i :: 0 <= i < |actions| ==> CreatesNoShares(actions[i])
    requires 0 < w.store.value.reserveA && 0 < w.store.value.reserveB && 0 < Redeemable(w)
    requires Run(w, actions).lp.totalSupply == w.lp.totalSupply
    ensures var p' := Run(w, actions).store;
            && p'.Some? && Product(Run(w, actions)) >= Product(w)
            && (p'.value.reserveA < w.store.value.reserveA ==> p'.value.reserveB > w.store.value.reserveB)
            && (p'.value.reserveB < w.store.value.reserveB ==> p'.value.reserveA > w.store.value.reserveA)
  {
    hide Run, CoreInv;
    MintFreeRunGrows(w, actions);
    var w' := Run(w, actions);
    var s := Redeemable(w) * Redeemable(w);
    assert 0 < s;
    MulCancel(Product(w), Product(w'), s);
    SidesOfProduct(w.store.value.reserveA, w.store.value.reserveB, w'.store.value.reserveA, w'.store.value.reserveB);
  }

  lemma SidesOfProduct(a: int, b: int, a': int, b': int)
    requires 0 < a && 0 < b && 0 <= a' && 0 <= b' && a' * b' >= a * b
    ensures a' < a ==> b' > b
    ensures b' < b ==> a' > a
  {
  }
}
