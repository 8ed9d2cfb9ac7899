/** Concrete runs: the states the theorems start from are reachable, and where the
    repository's documents promise more than the code keeps, the input that shows it. */
module PairExamples {
  import opened Base
  import opened Arith
  import opened Quotes
  import opened PairMath
  import opened Ledgers
  import opened DynamicFee
  import opened LpToken
  import opened PairModel
  import opened PairSafety
  import opened PairAccounting
  import opened PairHolding
  import opened PairShares
  import opened PairPricing
  import opened PairOneToken

  /** A pair seeded by `u` with 10_000 of each token. */
  ghost predicate Starter(w: World, u: Address) {
    && Live(w) && u != PAIR && w.store == Some(PairStorage(10_000, 10_000, w.timestamp, 100_000_000))
    && w.fees == INITIAL_FEES && !w.locked && !w.frozen && !w.pausedHint && !w.lp.paused && w.pending == map[] && w.pendingTotal == 0
    && w.lp.totalSupply == 10_000 && Bal(w.lp.balances, PAIR) == 1_000 && Bal(w.lp.balances, u) == 9_000
    && Bal(w.tokenA, PAIR) == 10_000 == Bal(w.tokenB, PAIR)
  }

  function Seeding(u: Address): seq<Action> {
    [DoInitialize(true), DoTransfer(true, u, PAIR, 10_000), DoTransfer(false, u, PAIR, 10_000), DoMint(u)]
  }

  /** A live pair is reachable: initialize, deposit 10_000 of each token, mint. */
  lemma LivePairIsReachable(w: World, u: Address)
    requires Genesis(w) && u != PAIR && Bal(w.tokenA, PAIR) == 0 == Bal(w.tokenB, PAIR)
    requires Bal(w.tokenA, u) >= 10_000 && Bal(w.tokenB, u) >= 10_000
    ensures var w' := Run(w, Seeding(u));
            && Live(w') && Starter(w', u)
            && Bal(w'.tokenA, u) == Bal(w.tokenA, u) - 10_000 && Bal(w'.tokenB, u) == Bal(w.tokenB, u) - 10_000
  {
    GenesisIsSafe(w);
    hide Mint, Run, After, Inv, Genesis;
    var w1 := After(w, DoInitialize(true));
    var w2 := After(w1, DoTransfer(true, u, PAIR, 10_000));
    var w3 := After(w2, DoTransfer(false, u, PAIR, 10_000));
    FourSteps(w, DoInitialize(true), DoTransfer(true, u, PAIR, 10_000), DoTransfer(false, u, PAIR, 10_000), DoMint(u));
    DepositsArrive(w, w1, w2, w3, u, 10_000, 10_000);
    SafeUnlessDirect(w, DoInitialize(true));
    SafeUnlessDirect(w1, DoTransfer(true, u, PAIR, 10_000));
    SafeUnlessDirect(w2, DoTransfer(false, u, PAIR, 10_000));
    FirstMintIsLive(w3, u);
  }

  /** Anything but a direct call or a flash loan is safe without further ado. */
  lemma SafeUnlessDirect(w: World, a: Action)
    requires Inv(w) && !a.DoLpCall? && !a.DoFlashLoan?
    ensures Inv(After(w, a))
  {
    hide After, Inv;
    StepIsSafe(w, a);
  }

  lemma FirstMintIsLive(w: World, u: Address)
    requires Inv(w) && u != PAIR && w.store == Some(PairStorage(0, 0, w.timestamp, 0)) && w.lp == EMPTY_LP
    requires w.fees == INITIAL_FEES && !w.frozen && !w.pausedHint && w.pending == map[] && w.pendingTotal == 0
    requires Bal(w.tokenA, PAIR) == 10_000 == Bal(w.tokenB, PAIR)
    ensures var w' := After(w, DoMint(u)); Starter(w', u) && w'.tokenA == w.tokenA && w'.tokenB == w.tokenB
  {
    hide Mint, PoolInv, FeeInv, Sum, After, MintLp;
    FirstMintSucceedsExactly(w, u);
    FirstMintIsGeometricMean(w, u);
    MintIsSafe(w, u);
    MintAfter(w, u);
    FirstMintShares(w, u);
    var w' := Mint(w, u).value.0;
    SqrtUnique(w'.lp.totalSupply, 10_000, 100_000_000);
    BalanceWithinSum(w'.lp.balances, PAIR);
  }

  lemma FirstMintShares(w: World, u: Address)
    requires Mint(w, u).Ok? && w.lp == EMPTY_LP && Inv(w)
    ensures var w' := Mint(w, u).value.0;
            && w.store.Some? && Bal(w'.lp.balances, u) == w'.lp.totalSupply - MINIMUM_LIQUIDITY
            && w' == w.(lp := w'.lp, store := w'.store)
            && w'.store == Some(PairStorage(Bal(w.tokenA, PAIR), Bal(w.tokenB, PAIR), w.timestamp, Bal(w.tokenA, PAIR) * Bal(w.tokenB, PAIR)))
  {
    hide InitialLiquidity, MintLp, Sum, FeeInv;
    MintConserves(w.lp, PAIR, MINIMUM_LIQUIDITY);
    MintConserves(MintLp(w.lp, PAIR, MINIMUM_LIQUIDITY).value, u, Mint(w, u).value.1);
  }

  lemma MintAfter(w: World, u: Address)
    ensures Mint(w, u).Ok? ==> After(w, DoMint(u)) == Mint(w, u).value.0
  {
    hide Mint;
  }

  lemma FourSteps(w: World, a: Action, b: Action, c: Action, d: Action)
    ensures Run(w, [a, b, c, d]) == After(After(After(After(w, a), b), c), d)
  {
    hide After, Run;
    RunLast(w, [a, b, c, d]);
    RunLast(w, [a, b, c]);
    RunLast(w, [a, b]);
    RunLast(w, [a]);
    assert [a, b, c, d][..3] == [a, b, c] && [a, b, c][..2] == [a, b] && [a, b][..1] == [a] && [a][..0] == [];
    RunNothing(w);
  }

  lemma RunNothing(w: World)
    ensures Run(w, []) == w && FlowOfRun(w, []) == ShareFlow(0, 0)
  {
  }

  lemma {:induction false} RunLast(w: World, actions: seq<Action>)
    requires actions != []
    ensures Run(w, actions) == After(Run(w, actions[..|actions| - 1]), actions[|actions| - 1])
    decreases |actions|
  {
    hide After;
    if |actions| > 1 {
      RunLast(After(w, actions[0]), actions[1..]);
      assert actions[1..][..|actions| - 2] == actions[..|actions| - 1][1..];
    }
  }

  lemma DepositsArrive(w: World, w1: World, w2: World, w3: World, u: Address, amountA: nat, amountB: nat)
    requires Genesis(w) && u != PAIR && Bal(w.tokenA, PAIR) == 0 == Bal(w.tokenB, PAIR)
    requires Bal(w.tokenA, u) >= amountA && Bal(w.tokenB, u) >= amountB && 0 < amountA <= 1_000_000 && 0 < amountB <= 1_000_000
    requires w1 == After(w, DoInitialize(true)) && w2 == After(w1, DoTransfer(true, u, PAIR, amountA))
    requires w3 == After(w2, DoTransfer(false, u, PAIR, amountB))
    ensures w3 == w.(store := Some(PairStorage(0, 0, w.timestamp, 0)), fees := INITIAL_FEES, tokenA := w3.tokenA, tokenB := w3.tokenB)
    ensures Bal(w3.tokenA, PAIR) == amountA && Bal(w3.tokenB, PAIR) == amountB
    ensures Bal(w3.tokenA, u) == Bal(w.tokenA, u) - amountA && Bal(w3.tokenB, u) == Bal(w.tokenB, u) - amountB
  {
    hide Mint, Burn, BurnSingleSide, DepositLp, Swap, FlashLoan, OutsideLp, Sum;
    TransferGoesThrough(w.tokenA, u, amountA);
    TransferGoesThrough(w.tokenB, u, amountB);
    hide Move;
    MoveConserves(w.tokenA, u, PAIR, amountA);
    MoveConserves(w.tokenB, u, PAIR, amountB);
  }

  // ---- Where the documents promise more ----------------------------------------------

  /** `SECURITY.md`, invariant 3: one share sent straight to the pair, and it no longer
      holds exactly the seed and the stages. */
  lemma RawTransferBreaksExactness(w: World, u: Address)
    requires Starter(w, u)
    ensures Loose(w) == 0 && Loose(After(w, DoLpCall(CallTransfer(u, PAIR, 1)))) == 1
  {
    hide Inv;
  }

  /** `SECURITY.md`, invariant 2: five tokens sent to the pair are still unrecorded after
      a stage and a burn that both succeed. */
  lemma BurnLeavesADifference(w: World, u: Address)
    requires Starter(w, u) && 5 <= Bal(w.tokenA, u) <= 1_000_000 && 0 <= Bal(w.tokenB, u) <= 1_000_000
    ensures var w' := After(After(w, DoTransfer(true, u, PAIR, 5)), DoDepositLp(u, 4_500));
            && Inv(w') && Step(w', DoBurn(u)).Ok? && After(w', DoBurn(u)).store.Some?
            && SurplusA(After(w', DoBurn(u))) == 5 && !Exact(After(w', DoBurn(u)))
  {
    var w1 := After(w, DoTransfer(true, u, PAIR, 5));
    var w2 := After(w1, DoDepositLp(u, 4_500));
    SafeUnlessDirect(w, DoTransfer(true, u, PAIR, 5));
    SafeUnlessDirect(w1, DoDepositLp(u, 4_500));
    DonatedAndStaged(w, u);
    HalfBurns(w2, u);
    hide Burn, After, Inv;
    ReservesMatchBalances(w2, DoBurn(u));
  }

  lemma DonatedAndStaged(w: World, u: Address)
    requires Starter(w, u) && 5 <= Bal(w.tokenA, u) <= 1_000_000 && 0 <= Bal(w.tokenB, u) <= 1_000_000
    ensures var w' := After(After(w, DoTransfer(true, u, PAIR, 5)), DoDepositLp(u, 4_500));
            && w' == w.(tokenA := w'.tokenA, lp := w'.lp, pending := w'.pending, pendingTotal := 4_500)
            && Bal(w'.tokenA, PAIR) == 10_005 && Bal(w'.pending, u) == 4_500
            && w'.lp.totalSupply == 10_000 && Bal(w'.lp.balances, PAIR) == 5_500 && !w'.lp.paused
            && 0 <= Bal(w'.tokenA, u) <= 1_000_000
  {
    hide Sum, Inv;
    MoveConserves(w.tokenA, u, PAIR, 5);
    TransferConserves(w.lp, u, PAIR, 4_500);
  }

  lemma HalfBurns(w: World, u: Address)
    requires w.store.Some? && w.store.value.reserveA == 10_000 == w.store.value.reserveB && u != PAIR && !w.locked && !w.pausedHint
    requires w.lp.totalSupply == 10_000 && Bal(w.lp.balances, PAIR) == 5_500 && !w.lp.paused && Bal(w.pending, u) == 4_500
    requires Bal(w.tokenA, PAIR) == 10_005 && Bal(w.tokenB, PAIR) == 10_000
    requires 0 <= Bal(w.tokenA, u) <= 1_000_000 && 0 <= Bal(w.tokenB, u) <= 1_000_000
    ensures Step(w, DoBurn(u)).Ok?
  {
    hide Burn;
    StageBurns(w, u, 4_500, 10_000, 9_000, 5_000);
  }

  /** A burn of a stage in a pool with equal reserves, by its numbers. */
  lemma StageBurns(w: World, u: Address, shares: nat, r: nat, redeemable: nat, paid: nat)
    requires w.store.Some? && w.store.value.reserveA == r == w.store.value.reserveB && u != PAIR && !w.locked && !w.pausedHint
    requires w.lp.totalSupply == redeemable + MINIMUM_LIQUIDITY && !w.lp.paused && Bal(w.pending, u) == shares
    requires 0 < shares <= redeemable && redeemable <= 1_000_000 && r <= 1_000_000 && shares <= Bal(w.lp.balances, PAIR) <= 1_000_000
    requires shares * r <= 1_000_000_000_000 && paid == shares * r / redeemable && MINIMUM_RESERVE <= paid <= r && !LeavesDust(r - paid)
    requires paid <= Bal(w.tokenA, PAIR) && paid <= Bal(w.tokenB, PAIR)
    requires 0 <= Bal(w.tokenA, u) <= 1_000_000 && 0 <= Bal(w.tokenB, u) <= 1_000_000
    ensures Burn(w, u).Ok? && Burn(w, u).value.1 == paid == Burn(w, u).value.2
    ensures var w' := Burn(w, u).value.0;
            && w'.store.Some? && w'.store.value.reserveA == r - paid == w'.store.value.reserveB
            && w'.lp.totalSupply == w.lp.totalSupply - shares
  {
    EvenBurnAmounts(shares, r, redeemable, paid);
    PayGoesThrough(w.tokenA, u, paid);
    PayGoesThrough(w.tokenB, u, paid);
    MulMono2(r - paid, r - paid, 1_000_000, 1_000_000);
    hide BurnAmounts, Pay;
  }

  lemma EvenBurnAmounts(shares: nat, r: nat, redeemable: nat, paid: nat)
    requires 0 < redeemable && shares * r <= 1_000_000_000_000 && paid == shares * r / redeemable && paid <= 1_000_000
    ensures BurnAmounts(shares, r, r, redeemable) == Ok((paid, paid))
  {
  }

  /** `mint_with_one_token`: a deposit of 4_000 of one token into the starter pair
      succeeds, so its bookkeeping really is reached. */
  lemma OneTokenDepositSucceeds(w: World, u: Address)
    requires Starter(w, u) && Bal(w.tokenA, u) >= 4_000
    ensures var r := MintWithOneToken(w, u, TokenA, 4_000, 1, FactoryView(None, None, None));
            r.Ok? && r.value.0.store.Some? && SurplusA(r.value.0) == -2_166 && SurplusB(r.value.0) == -1_545
  {
    hide Inv, SplitDeposit, OutsideTransfer, SwapInner, SubsequentLiquidity, MintLp, ComputeFee;
    SplitOf4000();
    FeeIs30(w.ledger);
    TokensArrive(w, u);
    var pulled := OutsideTransfer(w, true, u, PAIR, 4_000).value;
    InnerSwapOf1834(pulled);
    LiquidityOf1545();
    SharesFit(w.lp, u);
    DepositRecordedTwice(w, u, TokenA, 4_000, 1, FactoryView(None, None, None));
  }

  lemma SharesFit(lp: LpState, u: Address)
    requires !lp.paused && Bal(lp.balances, u) == 9_000 && lp.totalSupply == 10_000
    ensures MintLp(lp, u, 1_545).Ok?
  {
  }

  lemma FeeIs30(ledger: nat)
    ensures ComputeFee(INITIAL_FEES) == 30 && ChargedFee(DecayStale(INITIAL_FEES, ledger), FactoryView(None, None, None)) == 30
  {
  }

  lemma TokensArrive(w: World, u: Address)
    requires u != PAIR && Bal(w.tokenA, u) >= 4_000 && Bal(w.tokenA, PAIR) == 10_000
    ensures var r := OutsideTransfer(w, true, u, PAIR, 4_000);
            r.Ok? && r.value == w.(tokenA := r.value.tokenA) && Bal(r.value.tokenA, PAIR) == 14_000
  {
    MoveConserves(w.tokenA, u, PAIR, 4_000);
  }

  /** The internal swap pays the pair itself, so the pool keeps everything. */
  lemma InnerSwapOf1834(w: World)
    requires w.store.Some? && w.store.value.reserveA == 10_000 == w.store.value.reserveB && w.fees == INITIAL_FEES
    requires Bal(w.tokenA, PAIR) == 14_000 && Bal(w.tokenB, PAIR) == 10_000
    ensures var r := SwapInner(w, 0, 1_545, PAIR, FactoryView(None, None, None));
            && r.Ok? && r.value.lp == w.lp && r.value.store.Some?
            && r.value.store.value.reserveA == 14_000 && r.value.store.value.reserveB == 10_000
  {
    FeeIs30(w.ledger);
    PayItself(w.tokenB, 1_545);
    hide FeesAfterSwap, DecayStale, ComputeFee, Pay;
    assert Pay(w.tokenA, PAIR, 0) == Ok(w.tokenA) by { PayNothing(w.tokenA, PAIR, 0); }
    var p := w.store.value;
    assert KCheck(p, 14_000, 10_000, 4_000, 1_545, 30).Ok?;
    assert Settle(p, 14_000, 10_000, 0, 1_545, 30, FactoryView(None, None, None)) == Ok(Settlement(4_000, 1_545, 0, 0));
  }

  lemma PayItself(m: Ledger, amount: nat)
    requires Bal(m, PAIR) >= amount && InI128(Bal(m, PAIR))
    ensures Pay(m, PAIR, amount).Ok? && Bal(Pay(m, PAIR, amount).value, PAIR) == Bal(m, PAIR)
  {
  }

  lemma PayNothing(m: Ledger, to: Address, amount: int)
    requires amount <= 0
    ensures Pay(m, to, amount) == Ok(m)
  {
  }

  lemma LiquidityOf1545()
    ensures SubsequentLiquidity(2_166, 1_545, 14_000, 10_000, 10_000) == Ok(1_545)
  {
    assert TruncDiv(21_660_000, 14_000) == 1_547 && TruncDiv(15_450_000, 10_000) == 1_545;
  }

  lemma SplitOf4000()
    ensures SplitDeposit(10_000, 10_000, 4_000, 30) == Ok(Split(1_834, 1_545))
  {
    SwapInOf4000();
    hide SwapInForSingleSide;
    assert QuoteOut(1_834, 10_000, 10_000, 30) == Ok(1_545);
  }

  lemma SwapInOf4000()
    ensures SwapInForSingleSide(10_000, 4_000, 30) == Ok(1_834)
  {
    hide SwapInForSingleSide;
    SwapInIsLargestRoot(10_000, 4_000, 30);
    assert Discriminant(10_000, 4_000, 9_970) == 55_832_090_000_000_000;
    assert SplitFits(1_834, 10_000, 4_000, 30) && !SplitFits(1_835, 10_000, 4_000, 30);
  }

  /** Direct burns: in a seeded pair a burn of -5_000 is safe, but it dilutes. */
  lemma NegativeBurnDilutes(w: World, u: Address)
    requires Starter(w, u)
    ensures var a := DoLpCall(CallBurn(u, -5_000));
            Step(w, a).Ok? && Safe(w, After(w, a)) && !ValueKept(w, After(w, a))
  {
    BurnOf5000(w.lp, u);
    hide CoreInv, BurnLp;
    OutsideLpIsSafeExactly(w, CallBurn(u, -5_000));
    DirectCallKeepsValueExactly(w, CallBurn(u, -5_000));
  }

  lemma BurnOf5000(lp: LpState, u: Address)
    requires !lp.paused && Bal(lp.balances, u) == 9_000 && lp.totalSupply == 10_000
    ensures BurnLp(lp, u, -5_000).Ok?
  {
  }

  /** A reserve under the floor with a negative request: 500 of A and 10_000 of B are synced
      in, and a swap that asks for -600 of A sells 200 of B for 100 of B. */
  lemma FloorNeedsASign(w: World, u: Address)
    requires Genesis(w) && u != PAIR && Bal(w.tokenA, PAIR) == 0 == Bal(w.tokenB, PAIR)
    requires 500 <= Bal(w.tokenA, u) && 10_200 <= Bal(w.tokenB, u) <= 1_000_000
    ensures var w' := Run(w, [DoInitialize(true), DoTransfer(true, u, PAIR, 500), DoTransfer(false, u, PAIR, 10_000), DoSync]);
            var w'' := After(w', DoTransfer(false, u, PAIR, 200));
            var a := DoSwap(-600, 100, u, FactoryView(None, None, None));
            && Inv(w'') && Step(w'', a).Ok? && After(w'', a).store.Some? && After(w'', a).store.value.reserveA == 500 < MINIMUM_RESERVE
  {
    GenesisIsSafe(w);
    var (a, b, c, d, e) := (DoInitialize(true), DoTransfer(true, u, PAIR, 500), DoTransfer(false, u, PAIR, 10_000), DoSync, DoTransfer(false, u, PAIR, 200));
    FourSteps(w, a, b, c, d);
    SmallPool(w, u);
    hide After, Run, Inv, Genesis, Step;
    SafeUnlessDirect(w, a);
    SafeUnlessDirect(After(w, a), b);
    SafeUnlessDirect(After(After(w, a), b), c);
    SafeUnlessDirect(After(After(After(w, a), b), c), d);
    SafeUnlessDirect(After(After(After(After(w, a), b), c), d), e);
    SwapBelowTheFloor(After(After(After(After(After(w, a), b), c), d), e), u);
  }

  lemma SmallPool(w: World, u: Address)
    requires Genesis(w) && u != PAIR && Bal(w.tokenA, PAIR) == 0 == Bal(w.tokenB, PAIR)
    requires 500 <= Bal(w.tokenA, u) && 10_200 <= Bal(w.tokenB, u) <= 1_000_000
    ensures var w3 := After(After(After(w, DoInitialize(true)), DoTransfer(true, u, PAIR, 500)), DoTransfer(false, u, PAIR, 10_000));
            var w5 := After(After(w3, DoSync), DoTransfer(false, u, PAIR, 200));
            && w5 == w.(store := Some(PairStorage(500, 10_000, w.timestamp, 5_000_000)), fees := INITIAL_FEES, tokenA := w5.tokenA, tokenB := w5.tokenB)
            && Bal(w5.tokenA, PAIR) == 500 && Bal(w5.tokenB, PAIR) == 10_200 && 0 <= Bal(w5.tokenB, u) <= 1_000_000
  {
    hide After, Genesis;
    var w1 := After(w, DoInitialize(true));
    var w2 := After(w1, DoTransfer(true, u, PAIR, 500));
    var w3 := After(w2, DoTransfer(false, u, PAIR, 10_000));
    DepositsArrive(w, w1, w2, w3, u, 500, 10_000);
    GenesisUnlocked(w);
    SyncedAndPaid(w3, u);
  }

  lemma GenesisUnlocked(w: World)
    requires Genesis(w)
    ensures !w.locked
  {
  }

  lemma SyncedAndPaid(w: World, u: Address)
    requires w.store.Some? && !w.locked && u != PAIR && Bal(w.tokenA, PAIR) == 500 && Bal(w.tokenB, PAIR) == 10_000 && 200 <= Bal(w.tokenB, u)
    ensures var w' := After(After(w, DoSync), DoTransfer(false, u, PAIR, 200));
            && w' == w.(store := Some(PairStorage(500, 10_000, w.timestamp, 5_000_000)), tokenB := w'.tokenB)
            && Bal(w'.tokenB, PAIR) == 10_200 && Bal(w'.tokenB, u) == Bal(w.tokenB, u) - 200
  {
    hide Mint, Burn, BurnSingleSide, DepositLp, Swap, FlashLoan, OutsideLp, Sum;
    TransferGoesThrough(w.tokenB, u, 200);
    hide Move;
    MoveConserves(w.tokenB, u, PAIR, 200);
  }

  lemma SwapBelowTheFloor(w: World, u: Address)
    requires w.store.Some? && w.store.value.reserveA == 500 && w.store.value.reserveB == 10_000 && u != PAIR
    requires w.fees == INITIAL_FEES && !w.frozen && !w.locked && 0 <= Bal(w.tokenB, u) <= 1_000_000
    requires Bal(w.tokenA, PAIR) == 500 && Bal(w.tokenB, PAIR) == 10_200
    ensures var a := DoSwap(-600, 100, u, FactoryView(None, None, None));
            Step(w, a).Ok? && After(w, a).store.Some? && After(w, a).store.value.reserveA == 500
  {
    FeeIs30(w.ledger);
    PayOut(w.tokenB, u, 100);
    PayNothing(w.tokenA, u, -600);
    hide Inv, FeesAfterSwap, DecayStale, ComputeFee, Pay;
    var p := w.store.value;
    assert KCheck(p, 500, 10_100, 0, 200, 30).Ok?;
    assert Settle(p, 500, 10_100, -600, 100, 30, FactoryView(None, None, None)) == Ok(Settlement(0, 200, 0, 0));
  }

  // ---- A callback that seeds the pair ------------------------------------------------

  /** In an unseeded pool a flash-loan callback creates 5_000 shares and sends 1_000 of them
      to the pair: the loan succeeds and the pair is safe, and seeded. */
  function SeedingCallback(u: Address): seq<Action> {
    [DoLpCall(CallBurn(u, -5_000)), DoLpCall(CallTransfer(u, PAIR, 1_000)), DoTransfer(true, u, PAIR, 2)]
  }

  lemma CallbackCanSeed(w: World, u: Address)
    requires Inv(w) && u != PAIR && w.store.Some? && w.store.value.reserveA == 10_000 == w.store.value.reserveB && w.lp == EMPTY_LP
    requires w.fees == INITIAL_FEES && !w.frozen && Bal(w.tokenA, PAIR) == 10_000 == Bal(w.tokenB, PAIR)
    requires 1 <= Bal(w.tokenA, u) <= 1_000_000
    ensures var a := DoFlashLoan(u, 1, 0, 0, SeedingCallback(u), true);
            Step(w, a).Ok? && FlowOf(w, a) == ShareFlow(5_000, 1_000) && Safe(w, After(w, a)) && After(w, a).lp.totalSupply == 5_000
  {
    var a := DoFlashLoan(u, 1, 0, 0, SeedingCallback(u), true);
    hide Inv, Safe, Run, FlowOfRun, CallLp, Step;
    LoanOfOne(w, u);
    var (lent, loan) := FlashOpen(w, u, 1, 0, 0).value.value;
    SeedingRun(lent, u);
    LoanCloses(w, u, lent, loan);
    StepIsSafeExactly(w, a);
    FlashLoanFlows(w, a);
  }

  lemma LoanOfOne(w: World, u: Address)
    requires u != PAIR && w.store.Some? && w.store.value.reserveA == 10_000 == w.store.value.reserveB && !w.locked && !w.frozen
    requires w.fees == INITIAL_FEES && Bal(w.tokenA, PAIR) == 10_000 && 1 <= Bal(w.tokenA, u) <= 1_000_000
    ensures var r := FlashOpen(w, u, 1, 0, 0);
            && r.Ok? && r.value.Some?
            && var (lent, loan) := r.value.value;
            && lent == w.(locked := true, tokenA := lent.tokenA) && loan == Loan(w.store.value, 100_000_000, 1, 0, 1, 0)
            && Bal(lent.tokenA, PAIR) == 9_999 && 2 <= Bal(lent.tokenA, u) <= 1_000_001
  {
  }

  lemma SeedingRun(w: World, u: Address)
    requires w.locked && u != PAIR && w.lp == EMPTY_LP && Bal(w.tokenA, PAIR) == 9_999 && 2 <= Bal(w.tokenA, u)
    ensures var w' := Run(w, SeedingCallback(u));
            && FlowOfRun(w, SeedingCallback(u)) == ShareFlow(5_000, 1_000)
            && w' == w.(tokenA := w'.tokenA, lp := w'.lp) && Bal(w'.tokenA, PAIR) == 10_001
  {
    hide After, FlowOf, Run, FlowOfRun;
    var (a, b, c) := (DoLpCall(CallBurn(u, -5_000)), DoLpCall(CallTransfer(u, PAIR, 1_000)), DoTransfer(true, u, PAIR, 2));
    CreatesShares(w, u);
    SendsSeed(After(w, a), u);
    Repays(After(After(w, a), b), u);
    RunThree(w, a, b, c);
  }

  lemma RunThree(w: World, a: Action, b: Action, c: Action)
    ensures Run(w, [a, b, c]) == After(After(After(w, a), b), c)
    ensures FlowOfRun(w, [a, b, c]) == FlowOf(w, a).Plus(FlowOf(After(w, a), b).Plus(FlowOf(After(After(w, a), b), c)))
  {
    hide After, FlowOf, Run, FlowOfRun;
    RunOne(w, a, [b, c]);
    RunOne(After(w, a), b, [c]);
    RunOne(After(After(w, a), b), c, []);
    RunNothing(After(After(After(w, a), b), c));
    assert [a] + [b, c] == [a, b, c] && [b] + [c] == [b, c] && [c] + [] == [c];
  }

  lemma RunOne(w: World, a: Action, rest: seq<Action>)
    ensures Run(w, [a] + rest) == Run(After(w, a), rest)
    ensures FlowOfRun(w, [a] + rest) == FlowOf(w, a).Plus(FlowOfRun(After(w, a), rest))
  {
    hide After, FlowOf;
    assert ([a] + rest)[1..] == rest;
  }

  lemma CreatesShares(w: World, u: Address)
    requires u != PAIR && w.lp == EMPTY_LP
    ensures var a := DoLpCall(CallBurn(u, -5_000));
            FlowOf(w, a) == ShareFlow(5_000, 0) && After(w, a) == w.(lp := EMPTY_LP.(balances := map[u := 5_000], totalSupply := 5_000))
  {
  }

  lemma SendsSeed(w: World, u: Address)
    requires u != PAIR && w.lp == EMPTY_LP.(balances := map[u := 5_000], totalSupply := 5_000)
    ensures var a := DoLpCall(CallTransfer(u, PAIR, 1_000));
            FlowOf(w, a) == ShareFlow(0, 1_000) && After(w, a) == w.(lp := After(w, a).lp)
  {
  }

  lemma Repays(w: World, u: Address)
    requires u != PAIR && Bal(w.tokenA, PAIR) == 9_999 && 2 <= Bal(w.tokenA, u)
    ensures var a := DoTransfer(true, u, PAIR, 2);
            && FlowOf(w, a) == ShareFlow(0, 0) && After(w, a) == w.(tokenA := After(w, a).tokenA)
            && Bal(After(w, a).tokenA, PAIR) == 10_001
  {
    MoveConserves(w.tokenA, u, PAIR, 2);
    hide Sum;
  }

  lemma LoanCloses(w: World, u: Address, lent: World, loan: Loan)
    requires FlashOpen(w, u, 1, 0, 0) == Ok(Some((lent, loan))) && loan == Loan(w.store.value, 100_000_000, 1, 0, 1, 0) && w.store.Some?
    requires w.store.value.reserveA == 10_000 == w.store.value.reserveB
    requires var back := Run(lent, SeedingCallback(u)); Bal(back.tokenA, PAIR) == 10_001 && Bal(back.tokenB, PAIR) == 10_000
    ensures Step(w, DoFlashLoan(u, 1, 0, 0, SeedingCallback(u), true)).Ok?
  {
    hide FlashOpen, Run;
  }

  // ---- Minting and redeeming ---------------------------------------------------------

  /** Depositing as much as the pool holds, and redeeming the minted shares at once, pays
      10_526 for each 10_000. */
  lemma MintThenBurnProfits(w: World, u: Address) returns (minted: World, staged: World, burned: World)
    requires Starter(w, u) && 10_000 <= Bal(w.tokenA, u) <= 1_000_000 && 10_000 <= Bal(w.tokenB, u) <= 1_000_000
    ensures var w2 := After(After(w, DoTransfer(true, u, PAIR, 10_000)), DoTransfer(false, u, PAIR, 10_000));
            MintsThenBurns(w2, u, minted, 10_000, staged, burned, 10_526, 10_526)
  {
    var w2 := After(After(w, DoTransfer(true, u, PAIR, 10_000)), DoTransfer(false, u, PAIR, 10_000));
    DoubleDeposit(w, u);
    hide Inv, Mint, DepositLp, Burn, After;
    DoubleMint(w2, u);
    minted := Mint(w2, u).value.0;
    StageAll(minted, u, 10_000);
    staged := DepositLp(minted, u, 10_000).value;
    StageBurns(staged, u, 10_000, 20_000, 19_000, 10_526);
    burned := Burn(staged, u).value.0;
  }

  lemma DoubleDeposit(w: World, u: Address)
    requires Starter(w, u) && 10_000 <= Bal(w.tokenA, u) <= 1_000_000 && 10_000 <= Bal(w.tokenB, u) <= 1_000_000
    ensures var w2 := After(After(w, DoTransfer(true, u, PAIR, 10_000)), DoTransfer(false, u, PAIR, 10_000));
            && w2 == w.(tokenA := w2.tokenA, tokenB := w2.tokenB)
            && Bal(w2.tokenA, PAIR) == 20_000 == Bal(w2.tokenB, PAIR)
            && 0 <= Bal(w2.tokenA, u) <= 1_000_000 && 0 <= Bal(w2.tokenB, u) <= 1_000_000
  {
    hide Inv, Sum;
    MoveConserves(w.tokenA, u, PAIR, 10_000);
    MoveConserves(w.tokenB, u, PAIR, 10_000);
  }

  lemma DoubleMint(w: World, u: Address)
    requires u != PAIR && !w.locked && !w.frozen && !w.pausedHint && w.store.Some? && !w.lp.paused
    requires w.store.value.reserveA == 10_000 == w.store.value.reserveB && Bal(w.tokenA, PAIR) == 20_000 == Bal(w.tokenB, PAIR)
    requires w.lp.totalSupply == 10_000 && Bal(w.lp.balances, u) == 9_000
    ensures Mint(w, u).Ok? && Mint(w, u).value.1 == 10_000
    ensures var w' := Mint(w, u).value.0;
            && w' == w.(lp := w'.lp, store := w'.store) && w'.store.Some? && !w'.lp.paused
            && w'.store.value.reserveA == 20_000 == w'.store.value.reserveB && w'.lp.totalSupply == 20_000
            && Bal(w'.lp.balances, u) == 19_000 && Bal(w'.lp.balances, PAIR) == Bal(w.lp.balances, PAIR)
  {
    assert TruncDiv(100_000_000, 10_000) == 10_000;
    assert SubsequentLiquidity(10_000, 10_000, 10_000, 10_000, 10_000) == Ok(10_000);
    hide SubsequentLiquidity;
  }

  lemma StageAll(w: World, u: Address, shares: nat)
    requires u != PAIR && !w.locked && !w.pausedHint && w.store.Some? && !w.lp.paused && 0 < shares <= 1_000_000
    requires shares <= Bal(w.lp.balances, u) && 0 <= Bal(w.lp.balances, PAIR) <= 1_000_000 && w.pending == map[] && w.pendingTotal == 0
    ensures DepositLp(w, u, shares).Ok?
    ensures var w' := DepositLp(w, u, shares).value;
            && w' == w.(lp := w'.lp, pending := w'.pending, pendingTotal := shares) && Bal(w'.pending, u) == shares
            && w'.lp.totalSupply == w.lp.totalSupply && !w'.lp.paused && Bal(w'.lp.balances, PAIR) == Bal(w.lp.balances, PAIR) + shares
  {
    hide Sum;
  }

  /** Redeeming every redeemable share pays out both reserves whole; the seed stays
      outstanding over nothing. */
  lemma LastBurnEmptiesThePool(w: World, u: Address)
    requires Starter(w, u) && 0 <= Bal(w.tokenA, u) <= 1_000_000 && 0 <= Bal(w.tokenB, u) <= 1_000_000
    ensures var staged := After(w, DoDepositLp(u, 9_000));
            var w' := After(staged, DoBurn(u));
            && Step(staged, DoBurn(u)).Ok? && w'.store.Some? && w'.store.value.reserveA == 0 == w'.store.value.reserveB
            && w'.lp.totalSupply == MINIMUM_LIQUIDITY
  {
    hide Inv, DepositLp, Burn;
    StageAll(w, u, 9_000);
    StageBurns(DepositLp(w, u, 9_000).value, u, 9_000, 10_000, 9_000, 10_000);
  }

  // ---- A stale quote -----------------------------------------------------------------

  /** A path that visits the same pair three times, there, back and there again, quoted as
      the router quotes it, before anything moves: 5_000 buys 3_326 buys 2_490 buys 1_988.
      The first two swaps go through, the third fails the K check. */
  lemma RepeatedPairIsRejected(w: World, u: Address)
    requires Starter(w, u) && 7_490 <= Bal(w.tokenA, u) <= 1_000_000 && 0 <= Bal(w.tokenB, u) <= 1_000_000
    ensures QuoteOut(5_000, 10_000, 10_000, 30) == Ok(3_326) && QuoteOut(3_326, 10_000, 10_000, 30) == Ok(2_490)
    ensures QuoteOut(2_490, 10_000, 10_000, 30) == Ok(1_988)
    ensures var f := FactoryView(None, None, None);
            var first := After(w, DoTransfer(true, u, PAIR, 5_000));
            var second := After(After(first, DoSwap(0, 3_326, u, f)), DoTransfer(false, u, PAIR, 3_326));
            var third := After(After(second, DoSwap(2_490, 0, u, f)), DoTransfer(true, u, PAIR, 2_490));
            && Step(first, DoSwap(0, 3_326, u, f)).Ok? && Step(second, DoSwap(2_490, 0, u, f)).Ok?
            && Step(third, DoSwap(0, 1_988, u, f)) == Err(InvalidK)
  {
    hide After, Step, Trading, QuoteOut;
    StaleQuotes();
    var f := FactoryView(None, None, None);
    var (hA, hB) := (Bal(w.tokenA, u), Bal(w.tokenB, u));
    var first := After(w, DoTransfer(true, u, PAIR, 5_000));
    assert Trading(w, u, 10_000, 10_000, 0, 0, hA, hB) by { StarterTrades(w, u); }
    SendsA(w, u, 10_000, 10_000, 0, 0, hA, hB, 5_000);
    FirstHop(first, u, hA - 5_000, hB);
    var swapped := After(first, DoSwap(0, 3_326, u, f));
    SendsB(swapped, u, 15_000, 6_674, 0, 0, hA - 5_000, hB + 3_326, 3_326);
    var second := After(swapped, DoTransfer(false, u, PAIR, 3_326));
    SecondHop(second, u, hA - 5_000, hB);
    var back := After(second, DoSwap(2_490, 0, u, f));
    SendsA(back, u, 12_510, 10_000, 0, 0, hA - 2_510, hB, 2_490);
    ThirdHopFails(After(back, DoTransfer(true, u, PAIR, 2_490)), u, hA - 5_000, hB);
  }

  lemma StaleQuotes()
    ensures QuoteOut(5_000, 10_000, 10_000, 30) == Ok(3_326) && QuoteOut(3_326, 10_000, 10_000, 30) == Ok(2_490)
    ensures QuoteOut(2_490, 10_000, 10_000, 30) == Ok(1_988)
  {
  }

  /** A pool with its reserves, what it holds beyond them, and what `u` holds. */
  ghost predicate Trading(w: World, u: Address, rA: int, rB: int, surplusA: int, surplusB: int, heldA: int, heldB: int) {
    && Inv(w) && w.lp.totalSupply != 0 && !w.frozen && u != PAIR && w.store.Some?
    && w.store.value.reserveA == rA && w.store.value.reserveB == rB
    && Bal(w.tokenA, PAIR) == rA + surplusA && Bal(w.tokenB, PAIR) == rB + surplusB
    && Bal(w.tokenA, u) == heldA && Bal(w.tokenB, u) == heldB
  }

  lemma StarterTrades(w: World, u: Address)
    requires Starter(w, u)
    ensures Trading(w, u, 10_000, 10_000, 0, 0, Bal(w.tokenA, u), Bal(w.tokenB, u))
  {
    hide CoreInv, PoolInv;
  }

  lemma SendsA(w: World, u: Address, rA: int, rB: int, sA: nat, sB: nat, hA: int, hB: int, amount: nat)
    requires Trading(w, u, rA, rB, sA, sB, hA, hB) && amount <= hA && 0 <= rA + sA <= 1_000_000 && amount <= 1_000_000
    ensures Trading(After(w, DoTransfer(true, u, PAIR, amount)), u, rA, rB, sA + amount, sB, hA - amount, hB)
    ensures After(w, DoTransfer(true, u, PAIR, amount)).fees == w.fees
  {
    hide Inv, Sum;
    SafeUnlessDirect(w, DoTransfer(true, u, PAIR, amount));
    if amount > 0 { TransferGoesThrough(w.tokenA, u, amount); }
    MoveConserves(w.tokenA, u, PAIR, amount);
  }

  lemma SendsB(w: World, u: Address, rA: int, rB: int, sA: nat, sB: nat, hA: int, hB: int, amount: nat)
    requires Trading(w, u, rA, rB, sA, sB, hA, hB) && amount <= hB && 0 <= rB + sB <= 1_000_000 && amount <= 1_000_000
    ensures Trading(After(w, DoTransfer(false, u, PAIR, amount)), u, rA, rB, sA, sB + amount, hA, hB - amount)
  {
    hide Inv, Sum;
    SafeUnlessDirect(w, DoTransfer(false, u, PAIR, amount));
    if amount > 0 { TransferGoesThrough(w.tokenB, u, amount); }
    MoveConserves(w.tokenB, u, PAIR, amount);
  }

  lemma TransferGoesThrough(m: Ledger, u: Address, amount: nat)
    requires u != PAIR && amount <= Bal(m, u) && InI128(Bal(m, PAIR) + amount)
    ensures Move(m, u, PAIR, amount).Ok?
  {
  }

  /** Without an override the charged fee is between zero and 100 bps. */
  lemma ChargedAtMost100(w: World)
    requires Inv(w) && w.store.Some?
    ensures ChargedFee(DecayStale(w.fees, w.ledger), FactoryView(None, None, None)) <= 100
  {
    hide CoreInv, PoolInv, ChargedFee, DecayStale;
    EffectiveFeeCoversCharge(w, FactoryView(None, None, None));
    FeeNotOverridden(w);
  }

  lemma FeeNotOverridden(w: World)
    requires w.store.Some?
    ensures EffectiveFee(w, FactoryView(None, None, None)).Ok? && !EffectiveFee(w, FactoryView(None, None, None)).value.1
  {
  }

  lemma FirstHop(w: World, u: Address, hA: int, hB: int)
    requires Trading(w, u, 10_000, 10_000, 5_000, 0, hA, hB) && 0 <= hB <= 1_000_000 && w.fees == INITIAL_FEES
    ensures var a := DoSwap(0, 3_326, u, FactoryView(None, None, None));
            Step(w, a).Ok? && Trading(After(w, a), u, 15_000, 6_674, 0, 0, hA, hB + 3_326)
  {
    hide CoreInv, PoolInv, FeesAfterSwap, DecayStale, ChargedFee, Pay;
    var p, fee := w.store.value, 30;
    FeeIs30(w.ledger);
    SafeUnlessDirect(w, DoSwap(0, 3_326, u, FactoryView(None, None, None)));
    PayNothing(w.tokenA, u, 0);
    PayGoesThrough(w.tokenB, u, 3_326);
    PayEffect(w.tokenB, u, 3_326);
    assert KCheck(p, 15_000, 6_674, 5_000, 0, fee).Ok?;
    assert Settle(p, 15_000, 6_674, 0, 3_326, fee, FactoryView(None, None, None)) == Ok(Settlement(5_000, 0, 0, 0));
    hide KCheck, Settle;
  }

  lemma SecondHop(w: World, u: Address, hA: int, hB: int)
    requires Trading(w, u, 15_000, 6_674, 0, 3_326, hA, hB) && 0 <= hA <= 1_000_000
    ensures var a := DoSwap(2_490, 0, u, FactoryView(None, None, None));
            Step(w, a).Ok? && Trading(After(w, a), u, 12_510, 10_000, 0, 0, hA + 2_490, hB)
  {
    hide CoreInv, PoolInv, FeesAfterSwap, DecayStale, ChargedFee, Pay;
    var p, fee := w.store.value, ChargedFee(DecayStale(w.fees, w.ledger), FactoryView(None, None, None));
    ChargedAtMost100(w);
    SafeUnlessDirect(w, DoSwap(2_490, 0, u, FactoryView(None, None, None)));
    PayNothing(w.tokenB, u, 0);
    PayGoesThrough(w.tokenA, u, 2_490);
    PayEffect(w.tokenA, u, 2_490);
    assert KCheck(p, 12_510, 10_000, 0, 3_326, fee).Ok?;
    assert Settle(p, 12_510, 10_000, 2_490, 0, fee, FactoryView(None, None, None)) == Ok(Settlement(0, 3_326, 0, 0));
    hide KCheck, Settle;
  }

  lemma ThirdHopFails(w: World, u: Address, hA: int, hB: int)
    requires Trading(w, u, 12_510, 10_000, 2_490, 0, hA, hB) && 0 <= hB <= 1_000_000
    ensures Step(w, DoSwap(0, 1_988, u, FactoryView(None, None, None))) == Err(InvalidK)
  {
    hide CoreInv, FeesAfterSwap, DecayStale, ChargedFee, Pay;
    var p, fee := w.store.value, ChargedFee(DecayStale(w.fees, w.ledger), FactoryView(None, None, None));
    ChargedAtMost100(w);
    PayNothing(w.tokenA, u, 0);
    PayGoesThrough(w.tokenB, u, 1_988);
    PayEffect(w.tokenB, u, 1_988);
    assert KCheck(p, 15_000, 8_012, 2_490, 0, fee) == Err(InvalidK);
    hide KCheck;
  }

  // ---- The quoted fee ----------------------------------------------------------------

  /** A stale pool quotes 50 bps and charges 40. */
  lemma QuotedFeeAboveCharge(w: World)
    requires w.store.Some? && w.fees == INITIAL_FEES.(volAccumulator := 100_000_000_000) && w.ledger == 101
    ensures FeeInv(w.fees)
    ensures EffectiveFee(w, FactoryView(None, None, None)) == Ok((50, false))
    ensures ChargedFee(DecayStale(w.fees, w.ledger), FactoryView(None, None, None)) == 40
  {
    assert Pow(2, 1) == 2;
    assert DecayStale(w.fees, 101).volAccumulator == 50_000_000_000;
  }

  lemma PayOut(m: Ledger, to: Address, amount: nat)
    requires to != PAIR && Bal(m, PAIR) >= amount && InI128(Bal(m, to) + amount)
    ensures Pay(m, to, amount).Ok? && Bal(Pay(m, to, amount).value, PAIR) == Bal(m, PAIR) - amount
  {
  }
}
