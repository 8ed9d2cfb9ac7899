/** The single-token deposit `mint_with_one_token`: its split is optimal (module
    `PairMath`), but its bookkeeping counts the deposit twice, so it is not one of the
    actions whose runs are safe.  This module says exactly by how much the recorded
    reserves end up above the real balances, and that a `sync` repairs it. */
module PairOneToken {
  import opened Base
  import opened Quotes
  import opened PairMath
  import opened Ledgers
  import opened DynamicFee
  import opened LpToken
  import opened PairModel
  import opened PairSafety
  import opened PairAccounting

  /** `math::get_amount_out` outside a burn: dust is an error. */
  function AmountOutOf(amountIn: int, rIn: int, rOut: int, feeBps: nat): Result<int, PairError> {
    match QuoteOut(amountIn, rIn, rOut, feeBps)
    case Ok(out) => Ok(out)
    case Err(ZeroAmount) => Err(DustAmount)
    case Err(Dust) => Err(DustAmount)
    case Err(InsufficientLiquidity) => Err(PairInsufficientLiquidity)
    case Err(_) => Err(PairOverflow)
  }

  datatype Split = Split(swapIn: int, swapOut: int)

  /** The part of the deposit that is swapped, and what it buys. */
  function SplitDeposit(rIn: int, rOut: int, amount: int, feeBps: nat): Result<Split, PairError> {
    var _ :- Need(rIn > 0 && rOut > 0, PairInsufficientLiquidity);
    var swapIn :- FromMath(SwapInForSingleSide(rIn, amount, feeBps));
    var _ :- Need(0 < swapIn < amount, InvalidInput);
    var swapOut :- AmountOutOf(swapIn, rIn, rOut, feeBps);
    Ok(Split(swapIn, swapOut))
  }

  /** The world after the caller's tokens arrived and the internal swap ran. */
  function PullAndSwap(w: World, to: Address, inIsA: bool, amount: int, swapOut: int, f: FactoryView): Result<World, PairError> {
    var pulled :- OutsideTransfer(w, inIsA, to, PAIR, amount);
    if inIsA then SwapInner(pulled, 0, swapOut, PAIR, f) else SwapInner(pulled, swapOut, 0, PAIR, f)
  }

  function MintWithOneToken(w: World, to: Address, tokenIn: Preferred, amount: int, minLpOut: int, f: FactoryView): Result<(World, int), PairError> {
    var _ :- Need(to != PAIR, Trap);
    var _ :- Need(!w.locked, Locked);
    var _ :- Need(!w.frozen, ContractFrozen);
    var p :- Stored(w);
    var _ :- Need(!w.pausedHint, LpTokenPaused);
    var _ :- Need(amount > 0 && minLpOut > 0 && tokenIn != OtherToken, InvalidInput);
    var inIsA := tokenIn == TokenA;
    var split :- SplitDeposit(if inIsA then p.reserveA else p.reserveB, if inIsA then p.reserveB else p.reserveA, amount, ComputeFee(w.fees));
    var swapped :- PullAndSwap(w, to, inIsA, amount, split.swapOut, f);
    var post :- Stored(swapped);
    var depositA := if inIsA then amount - split.swapIn else split.swapOut;
    var depositB := if inIsA then split.swapOut else amount - split.swapIn;
    var _ :- Need(swapped.lp.totalSupply != 0, InsufficientLiquidityMinted);
    var liquidity :- FromMath(SubsequentLiquidity(depositA, depositB, post.reserveA, post.reserveB, swapped.lp.totalSupply));
    var _ :- Need(liquidity > 0, InsufficientLiquidityMinted);
    var _ :- Need(liquidity >= MIN_LIQUIDITY_FOR_USER, DustAmount);
    var _ :- Need(liquidity >= minLpOut, SlippageExceeded);
    var lp :- OrTrap(MintLp(swapped.lp, to, liquidity));
    var p' :- Recorded(post.reserveA + depositA, post.reserveB + depositB, w.timestamp);
    Ok((swapped.(lp := lp, store := Some(p')), liquidity))
  }

  /** What the internal swap settles. */
  function InnerSettlement(w: World, to: Address, inIsA: bool, amount: int, swapOut: int, f: FactoryView): Result<Settlement, PairError> {
    var pulled :- OutsideTransfer(w, inIsA, to, PAIR, amount);
    if inIsA then SettlementOf(pulled, 0, swapOut, PAIR, f) else SettlementOf(pulled, swapOut, 0, PAIR, f)
  }

  /** After the internal swap, which pays the pair itself, the recorded reserves already
      are the real balances, less a cut that was paid inside the pool. */
  lemma SwapRecordedEverything(w: World, to: Address, inIsA: bool, amount: int, swapOut: int, f: Factory)
    requires Inv(w) && !w.frozen && to != PAIR
    requires PullAndSwap(w, to, inIsA, amount, swapOut, f).Ok?
    ensures InnerSettlement(w, to, inIsA, amount, swapOut, f).Ok?
    ensures var w', s := PullAndSwap(w, to, inIsA, amount, swapOut, f).value, InnerSettlement(w, to, inIsA, amount, swapOut, f).value;
            && Inv(w') && w'.lp == w.lp && w'.store.Some? && 0 <= s.cutA && 0 <= s.cutB
            && SurplusA(w') == SelfPaid(f, s.cutA) && SurplusB(w') == SelfPaid(f, s.cutB)
  {
    var outA, outB := if inIsA then 0 else swapOut, if inIsA then swapOut else 0;
    PulledIsSafe(w, to, inIsA, amount);
    hide OutsideTransfer, Swap, SwapInner, SettlementOf, SelfPaid, CoreInv, Sum;
    var pulled := OutsideTransfer(w, inIsA, to, PAIR, amount).value;
    SwapIsInner(pulled, outA, outB, PAIR, f);
    SwapEffects(pulled, outA, outB, PAIR, f);
    SwapIsSafe(pulled, outA, outB, PAIR, f);
  }

  lemma SwapIsInner(w: World, outA: int, outB: int, to: Address, f: FactoryView)
    requires !w.locked && !w.frozen
    ensures Swap(w, outA, outB, to, f) == SwapInner(w, outA, outB, to, f)
  {
  }

  lemma PulledIsSafe(w: World, to: Address, inIsA: bool, amount: int)
    requires Inv(w) && OutsideTransfer(w, inIsA, to, PAIR, amount).Ok?
    ensures var pulled := OutsideTransfer(w, inIsA, to, PAIR, amount).value;
            Inv(pulled) && pulled == w.(tokenA := pulled.tokenA, tokenB := pulled.tokenB)
  {
    hide OutsideTransfer, FeeInv, Sum;
    OutsideTransferMoves(w, inIsA, to, PAIR, amount);
  }

  lemma SplitIsProper(rIn: int, rOut: int, amount: int, feeBps: nat)
    requires SplitDeposit(rIn, rOut, amount, feeBps).Ok?
    ensures var s := SplitDeposit(rIn, rOut, amount, feeBps).value; 0 < s.swapIn < amount && 0 < s.swapOut
  {
    hide SwapInForSingleSide;
    var s := SplitDeposit(rIn, rOut, amount, feeBps).value;
    QuoteOutIsFloor(s.swapIn, rIn, rOut, feeBps);
  }

  /** Every successful call ends with each recorded reserve above the real balance by
      that side's deposit, less a cut that was paid to the pair itself.  So the pool is
      solvent right after it only if the factory names the pair as its fee recipient and
      those cuts cover the deposit; all other invariants hold. */
  lemma DepositRecordedTwice(w: World, to: Address, tokenIn: Preferred, amount: int, minLpOut: int, f: Factory)
    requires Inv(w) && MintWithOneToken(w, to, tokenIn, amount, minLpOut, f).Ok?
    ensures w.store.Some? && tokenIn != OtherToken
    ensures var w' := MintWithOneToken(w, to, tokenIn, amount, minLpOut, f).value.0;
            var (rIn, rOut) := (if tokenIn == TokenA then (w.store.value.reserveA, w.store.value.reserveB) else (w.store.value.reserveB, w.store.value.reserveA));
            var split := SplitDeposit(rIn, rOut, amount, ComputeFee(w.fees));
            && split.Ok? && w'.store.Some?
            && var (kept, bought) := (amount - split.value.swapIn, split.value.swapOut);
            && 0 < kept && 0 < bought
            && var s := InnerSettlement(w, to, tokenIn == TokenA, amount, bought, f);
            && s.Ok?
            && SurplusA(w') == SelfPaid(f, s.value.cutA) - (if tokenIn == TokenA then kept else bought)
            && SurplusB(w') == SelfPaid(f, s.value.cutB) - (if tokenIn == TokenA then bought else kept)
            && (PoolInv(w') <==> 0 <= SurplusA(w') && 0 <= SurplusB(w')) && (PoolInv(w') ==> f.feeTo == Some(PAIR))
            && CoreInv(w') && !w'.locked
  {
    hide SplitDeposit, PullAndSwap, InnerSettlement, SubsequentLiquidity, MintLp, ComputeFee, FeeInv, Sum;
    var p := w.store.value;
    var inIsA := tokenIn == TokenA;
    var rIn, rOut := if inIsA then p.reserveA else p.reserveB, if inIsA then p.reserveB else p.reserveA;
    var split := SplitDeposit(rIn, rOut, amount, ComputeFee(w.fees)).value;
    SplitIsProper(rIn, rOut, amount, ComputeFee(w.fees));
    SwapRecordedEverything(w, to, inIsA, amount, split.swapOut, f);
    var swapped := PullAndSwap(w, to, inIsA, amount, split.swapOut, f).value;
    MintConserves(swapped.lp, to, MintWithOneToken(w, to, tokenIn, amount, minLpOut, f).value.1);
    BalanceWithinSum(swapped.lp.balances, PAIR);
  }

  /** A successful `sync` restores solvency whatever was recorded before. */
  lemma SyncRestoresSolvency(w: World)
    requires CoreInv(w) && !w.locked && Sync(w).Ok?
    ensures Inv(Sync(w).value) && Exact(Sync(w).value)
  {
  }
}
