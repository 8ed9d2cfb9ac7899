/** The pair as a transition system on values: its storage, the ledgers of both pool
    tokens and of the liquidity token, and one function per entry point.

    A step returns the next world or an error; on an error the host rolls back, so the
    world stays as it was.  A panic is the error `Trap`. */
module PairModel {
  import opened Base
  import opened Quotes
  import opened PairMath
  import opened Ledgers
  import opened DynamicFee
  import opened LpToken

  const MINIMUM_RESERVE: int := 1_000
  const MIN_LIQUIDITY_FOR_USER: int := 1_000
  const FLASH_FEE_FLOOR_BPS: nat := 5
  const MAX_PAYLOAD_SIZE: nat := 256

  /** The pair's own address.  Nobody else can authorize as the pair. */
  const PAIR: Address := Address(0)

  datatype PairError =
    | AlreadyInitialized
    | NotInitialized
    | PairInsufficientLiquidity
    | InsufficientInputAmount
    | InsufficientOutputAmount
    | InvalidK
    | Locked
    | FlashLoanNotRepaid
    | FlashPayloadTooLarge
    | PairOverflow
    | InsufficientLiquidityMinted
    | InsufficientLiquidityBurned
    | InvalidInput
    | FlashFeeOverflow
    | FlashCallbackFailed
    | FlashLoanFeeTooHigh
    | SlippageExceeded
    | InvalidStaleThreshold
    | DustAmount
    | LpTokenPaused
    | ContractFrozen
    | Trap

  datatype PairStorage = PairStorage(reserveA: int, reserveB: int, blockTimestampLast: nat, kLast: int)

  /** Everything a call can read or write. */
  datatype World = World(
    store: Option<PairStorage>,
    fees: FeeState,
    locked: bool,
    frozen: bool,
    pausedHint: bool,
    pending: Ledger,
    pendingTotal: int,
    tokenA: Ledger,
    tokenB: Ledger,
    lp: LpState,
    ledger: nat,
    timestamp: nat)

  /** What the factory answers during a swap; `None` is a failed or empty answer. */
  datatype FactoryView = FactoryView(feeOverride: Option<nat>, feeTo: Option<Address>, protocolBps: Option<nat>)

  datatype Preferred = TokenA | TokenB | OtherToken

  // ---- Error mapping -----------------------------------------------------------------

  function FromMath<T>(r: Result<T, MathError>): Result<T, PairError> {
    match r
    case Ok(v) => Ok(v)
    case Err(MathOverflow) => Err(PairOverflow)
    case Err(MathInvalidInput) => Err(InvalidInput)
    case Err(MathMintedTooLittle) => Err(InsufficientLiquidityMinted)
    case Err(MathTrap) => Err(Trap)
  }

  /** A failing cross-contract call that is not made with `try_` aborts the caller. */
  function OrTrap<T, E>(r: Result<T, E>): Result<T, PairError> {
    match r
    case Ok(v) => Ok(v)
    case Err(_) => Err(Trap)
  }

  function Stored(w: World): Result<PairStorage, PairError> {
    if w.store.None? then Err(NotInitialized) else Ok(w.store.value)
  }

  /** Tokens leave the pair only for a positive amount. */
  function Pay(m: Ledger, to: Address, amount: int): Result<Ledger, PairError> {
    if amount <= 0 then Ok(m) else OrTrap(Move(m, PAIR, to, amount))
  }

  // ---- Initialize --------------------------------------------------------------------

  function Initialize(w: World, tokensAllowed: bool): Result<World, PairError> {
    var _ :- Need(w.store.None?, AlreadyInitialized);
    var _ :- Need(tokensAllowed, InvalidInput);
    Ok(w.(store := Some(PairStorage(0, 0, w.timestamp, 0)), fees := INITIAL_FEES, locked := false))
  }

  // ---- Mint --------------------------------------------------------------------------

  /** Liquidity for the deposit, and the LP state after the seed of a first mint. */
  function MintShares(lp: LpState, p: PairStorage, amountA: int, amountB: int): Result<(int, LpState), PairError> {
    if lp.totalSupply == 0 then
      var liquidity :- FromMath(InitialLiquidity(amountA, amountB));
      var seeded :- OrTrap(MintLp(lp, PAIR, MINIMUM_LIQUIDITY));
      Ok((liquidity, seeded))
    else
      var liquidity :- FromMath(SubsequentLiquidity(amountA, amountB, p.reserveA, p.reserveB, lp.totalSupply));
      Ok((liquidity, lp))
  }

  function Mint(w: World, to: Address): Result<(World, int), PairError> {
    var _ :- Need(to != PAIR, Trap);
    var _ :- Need(!w.locked, Locked);
    var _ :- Need(!w.frozen, ContractFrozen);
    var p :- Stored(w);
    var _ :- Need(!w.pausedHint, LpTokenPaused);
    var balA, balB := Bal(w.tokenA, PAIR), Bal(w.tokenB, PAIR);
    var amountA :- I128(balA - p.reserveA, InvalidInput);
    var amountB :- I128(balB - p.reserveB, InvalidInput);
    var _ :- Need(amountA >= MINIMUM_RESERVE && amountB >= MINIMUM_RESERVE, DustAmount);
    var (liquidity, seeded) :- MintShares(w.lp, p, amountA, amountB);
    var _ :- Need(liquidity > 0, InsufficientLiquidityMinted);
    var _ :- Need(liquidity >= MIN_LIQUIDITY_FOR_USER, DustAmount);
    var lp :- OrTrap(MintLp(seeded, to, liquidity));
    var k :- I128(balA * balB, PairOverflow);
    Ok((w.(lp := lp, store := Some(PairStorage(balA, balB, w.timestamp, k))), liquidity))
  }

  // ---- Staging and burning -----------------------------------------------------------

  function DepositLp(w: World, from: Address, amount: int): Result<World, PairError> {
    var _ :- Need(from != PAIR, Trap);
    var _ :- Need(!w.locked, Locked);
    var _ :- Stored(w);
    var _ :- Need(!w.pausedHint, LpTokenPaused);
    var _ :- Need(amount > 0, InvalidInput);
    var lp :- OrTrap(TransferLp(w.lp, from, PAIR, amount));
    var staged :- I128(Bal(w.pending, from) + amount, PairOverflow);
    var total :- I128(w.pendingTotal + amount, PairOverflow);
    Ok(w.(lp := lp, pending := Write(w.pending, from, staged), pendingTotal := total))
  }

  /** The shares a burn by `to` may redeem: its own stage, or else whatever the pair
      holds beyond the seed and everybody's stages. */
  function Burnable(w: World, to: Address): Result<int, PairError> {
    var staged := Bal(w.pending, to);
    if staged > 0 then Ok(staged)
    else
      var aboveSeed :- I128(Bal(w.lp.balances, PAIR) - MINIMUM_LIQUIDITY, InsufficientLiquidityBurned);
      I128(aboveSeed - w.pendingTotal, InsufficientLiquidityBurned)
  }

  predicate LeavesDust(reserveAfter: int) {
    0 < reserveAfter < MINIMUM_RESERVE
  }

  /** The reserves left after paying out `amountA` and `amountB`. */
  function Withdraw(p: PairStorage, amountA: int, amountB: int): Result<(int, int), PairError> {
    var afterA :- I128(p.reserveA - amountA, PairOverflow);
    var afterB :- I128(p.reserveB - amountB, PairOverflow);
    var _ :- Need(!LeavesDust(afterA) && !LeavesDust(afterB), DustAmount);
    Ok((afterA, afterB))
  }

  datatype Redemption = Redemption(shares: int, amountA: int, amountB: int, afterA: int, afterB: int)

  /** What a burn redeems and pays, before anything moves. */
  function Redeem(w: World, p: PairStorage, to: Address): Result<Redemption, PairError> {
    var _ :- Need(w.lp.totalSupply != 0, InsufficientLiquidityBurned);
    var burnableSupply :- I128(w.lp.totalSupply - MINIMUM_LIQUIDITY, PairOverflow);
    var _ :- Need(burnableSupply != 0, InsufficientLiquidityBurned);
    var shares :- Burnable(w, to);
    var _ :- Need(shares > 0, InsufficientLiquidityBurned);
    var (amountA, amountB) :- FromMath(BurnAmounts(shares, p.reserveA, p.reserveB, burnableSupply));
    var _ :- Need(amountA > 0 && amountB > 0, InsufficientLiquidityBurned);
    var _ :- Need(amountA >= MINIMUM_RESERVE && amountB >= MINIMUM_RESERVE, DustAmount);
    var (afterA, afterB) :- Withdraw(p, amountA, amountB);
    Ok(Redemption(shares, amountA, amountB, afterA, afterB))
  }

  function Burn(w: World, to: Address): Result<(World, int, int), PairError> {
    var _ :- Need(to != PAIR, Trap);
    var _ :- Need(!w.locked, Locked);
    var p :- Stored(w);
    var _ :- Need(!w.pausedHint, LpTokenPaused);
    var r :- Redeem(w, p, to);
    var lp :- OrTrap(BurnLp(w.lp, PAIR, r.shares));
    var tokenA :- Pay(w.tokenA, to, r.amountA);
    var tokenB :- Pay(w.tokenB, to, r.amountB);
    var k :- I128(r.afterA * r.afterB, PairOverflow);
    var staged := Bal(w.pending, to);
    var w' := w.(store := Some(PairStorage(r.afterA, r.afterB, w.timestamp, k)), lp := lp, tokenA := tokenA, tokenB := tokenB);
    Ok((if staged > 0 then w'.(pending := Write(w.pending, to, 0), pendingTotal := w.pendingTotal - staged) else w',
        r.amountA, r.amountB))
  }

  /** `get_amount_out` as a leg of a larger operation: dust pays nothing. */
  function LegOut(amountIn: int, rIn: int, rOut: int, feeBps: nat): Result<int, PairError> {
    if rOut == 0 then Ok(0)
    else
      match QuoteOut(amountIn, rIn, rOut, feeBps)
      case Ok(out) => Ok(out)
      case Err(ZeroAmount) => Ok(0)
      case Err(Dust) => Ok(0)
      case Err(InsufficientLiquidity) => Err(PairInsufficientLiquidity)
      case Err(_) => Err(PairOverflow)
  }

  /** The arithmetic of a single-sided burn: the preferred side's payout and what is
      left of it, with the unwanted share swapped back in. */
  function SingleSideLeg(sharePref: int, shareUnwanted: int, pref: int, unwanted: int, feeBps: nat, minOut: int)
    : Result<(int, int), PairError>
  {
    var prefPost :- I128(pref - sharePref, PairOverflow);
    var unwantedPost :- I128(unwanted - shareUnwanted, PairOverflow);
    var swapOut :- LegOut(shareUnwanted, unwantedPost, prefPost, feeBps);
    var totalOut :- I128(sharePref + swapOut, PairOverflow);
    var _ :- Need(totalOut >= minOut, SlippageExceeded);
    var prefFinal :- I128(prefPost - swapOut, PairOverflow);
    var kBase :- I128(prefPost * unwantedPost, PairOverflow);
    var kBefore :- I128(kBase * 100_000_000, PairOverflow);
    var prefAdj :- I128(prefFinal * BPS, PairOverflow);
    var unwantedScaled :- I128(unwanted * BPS, PairOverflow);
    var charged :- I128(shareUnwanted * feeBps, PairOverflow);
    var unwantedAdj :- I128(unwantedScaled - charged, PairOverflow);
    var kAfter :- I128(prefAdj * unwantedAdj, PairOverflow);
    var _ :- Need(kAfter >= kBefore, InvalidK);
    Ok((totalOut, prefFinal))
  }

  function BurnSingleSide(w: World, to: Address, lpAmount: int, preferred: Preferred, minOut: int): Result<(World, int), PairError> {
    var _ :- Need(to != PAIR, Trap);
    var _ :- Need(!w.locked, Locked);
    var _ :- Need(!w.frozen, ContractFrozen);
    var p :- Stored(w);
    var _ :- Need(!w.pausedHint, LpTokenPaused);
    var _ :- Need(lpAmount > 0 && minOut > 0, InvalidInput);
    var _ :- Need(preferred != OtherToken, InvalidInput);
    var _ :- Need(w.lp.totalSupply != 0, InsufficientLiquidityBurned);
    var lp :- OrTrap(BurnLp(w.lp, to, lpAmount));
    var burnableSupply :- I128(w.lp.totalSupply - MINIMUM_LIQUIDITY, PairOverflow);
    var _ :- Need(burnableSupply != 0, InsufficientLiquidityBurned);
    var (shareA, shareB) :- FromMath(BurnAmounts(lpAmount, p.reserveA, p.reserveB, burnableSupply));
    var _ :- Need(shareA > 0 && shareB > 0, InsufficientLiquidityBurned);
    var fee := ComputeFee(w.fees);
    if preferred == TokenA then
      var (out, left) :- SingleSideLeg(shareA, shareB, p.reserveA, p.reserveB, fee, minOut);
      var tokenA :- Pay(w.tokenA, to, out);
      var k :- I128(left * p.reserveB, PairOverflow);
      Ok((w.(lp := lp, tokenA := tokenA, store := Some(PairStorage(left, p.reserveB, w.timestamp, k))), out))
    else
      var (out, left) :- SingleSideLeg(shareB, shareA, p.reserveB, p.reserveA, fee, minOut);
      var tokenB :- Pay(w.tokenB, to, out);
      var k :- I128(p.reserveA * left, PairOverflow);
      Ok((w.(lp := lp, tokenB := tokenB, store := Some(PairStorage(p.reserveA, left, w.timestamp, k))), out))
  }

  // ---- Swap --------------------------------------------------------------------------

  /** The fee a swap charges: a positive factory override, or else the dynamic fee. */
  function ChargedFee(fees: FeeState, f: FactoryView): nat {
    if f.feeOverride.Some? && f.feeOverride.value > 0 then f.feeOverride.value else ComputeFee(fees)
  }

  /** `get_effective_fee_bps`: the fee quoted to routers, without decay. */
  function EffectiveFee(w: World, f: FactoryView): Result<(nat, bool), PairError> {
    var _ :- Stored(w);
    if f.feeOverride.Some? && f.feeOverride.value > 0 then Ok((f.feeOverride.value, true))
    else Ok((ComputeFee(w.fees), false))
  }

  function ProtocolCut(amountIn: int, feeBps: nat, f: FactoryView): int {
    var bps := if f.protocolBps.Some? then Min(f.protocolBps.value, 10_000) else 0;
    if f.feeTo.Some? && bps > 0 && amountIn > 0
    then TruncDiv(Saturate(Saturate(amountIn * feeBps) * bps), 100_000_000)
    else 0
  }

  /** The fee-adjusted balance the K check multiplies. */
  function AdjustedBalance(balance: int, amountIn: int, feeBps: nat): Result<int, PairError> {
    var scaled :- I128(balance * BPS, PairOverflow);
    var charged :- I128(amountIn * feeBps, Trap);
    I128(scaled - charged, PairOverflow)
  }

  function KCheck(p: PairStorage, balA: int, balB: int, inA: int, inB: int, feeBps: nat): Result<(), PairError> {
    match (AdjustedBalance(balA, inA, feeBps), AdjustedBalance(balB, inB, feeBps))
    case (Err(e), _) => Err(e)
    case (_, Err(e)) => Err(e)
    case (Ok(adjA), Ok(adjB)) =>
      if !InI128(p.reserveA * p.reserveB) || !InI128(p.reserveA * p.reserveB * 100_000_000) || !InI128(adjA * adjB)
      then Err(PairOverflow)
      else Need(adjA * adjB >= p.reserveA * p.reserveB * 100_000_000, InvalidK)
  }

  function AmountIn(balance: int, reserve: int, amountOut: int): int {
    Max(balance - (reserve - amountOut), 0)
  }

  /** The guards a swap passes before any token moves. */
  function SwapGuards(p: PairStorage, outA: int, outB: int): Result<(), PairError> {
    if outA >= p.reserveA || outB >= p.reserveB then Err(PairInsufficientLiquidity)
    else if !InI128(p.reserveA - outA) || !InI128(p.reserveB - outB) then Err(PairOverflow)
    else Need(p.reserveA - outA >= MINIMUM_RESERVE && p.reserveB - outB >= MINIMUM_RESERVE, DustAmount)
  }

  function PriceRatio(num: int, den: int): int
    requires den > 0
  {
    if InI128(num * SCALE) && InI128(TruncDiv(num * SCALE, den)) then TruncDiv(num * SCALE, den) else 0
  }

  /** Volatility tracking after a swap; errors of the update are ignored. */
  function FeesAfterSwap(fees: FeeState, was: PairStorage, now: PairStorage, inA: int, inB: int, timestamp: nat): FeeState {
    if was.reserveA > 0 && was.reserveB > 0 && now.reserveA > 0 && now.reserveB > 0 then
      var before := PriceRatio(was.reserveB, was.reserveA);
      var after := PriceRatio(now.reserveB, now.reserveA);
      var delta := if after > before then after - before else before - after;
      var updated := Updated(fees, delta, Max(inA, inB), Saturate(now.reserveA + now.reserveB), timestamp);
      if updated.Ok? then updated.value else fees
    else fees
  }

  /** The amounts a swap settles: the inputs it found and the protocol's cuts. */
  datatype Settlement = Settlement(inA: int, inB: int, cutA: int, cutB: int)

  function Settle(p: PairStorage, balA: int, balB: int, outA: int, outB: int, feeBps: nat, f: FactoryView): Result<Settlement, PairError> {
    var inA, inB := AmountIn(balA, p.reserveA, outA), AmountIn(balB, p.reserveB, outB);
    var _ :- Need(inA > 0 || inB > 0, InsufficientInputAmount);
    var _ :- KCheck(p, balA, balB, inA, inB, feeBps);
    Ok(Settlement(inA, inB, ProtocolCut(inA, feeBps, f), ProtocolCut(inB, feeBps, f)))
  }

  function Recorded(reserveA: int, reserveB: int, now: nat): Result<PairStorage, PairError> {
    var a :- I128(reserveA, PairOverflow);
    var b :- I128(reserveB, PairOverflow);
    var k :- I128(a * b, PairOverflow);
    Ok(PairStorage(a, b, now, k))
  }

  /** Everything `swap_inner` does. */
  function SwapInner(w: World, outA: int, outB: int, to: Address, f: FactoryView): Result<World, PairError> {
    var _ :- Need(outA > 0 || outB > 0, InsufficientOutputAmount);
    var p :- Stored(w);
    var _ :- SwapGuards(p, outA, outB);
    var fees := DecayStale(w.fees, w.ledger);
    var tokenA :- Pay(w.tokenA, to, outA);
    var tokenB :- Pay(w.tokenB, to, outB);
    var balA, balB := Bal(tokenA, PAIR), Bal(tokenB, PAIR);
    var s :- Settle(p, balA, balB, outA, outB, ChargedFee(fees, f), f);
    var paidA :- PayProtocol(tokenA, f, s.cutA);
    var paidB :- PayProtocol(tokenB, f, s.cutB);
    var p' :- Recorded(balA - s.cutA, balB - s.cutB, w.timestamp);
    Ok(w.(store := Some(p'), fees := FeesAfterSwap(fees, p, p', s.inA, s.inB, w.timestamp), tokenA := paidA, tokenB := paidB))
  }

  function PayProtocol(m: Ledger, f: FactoryView, cut: int): Result<Ledger, PairError> {
    if f.feeTo.Some? then Pay(m, f.feeTo.value, cut) else Ok(m)
  }

  function Swap(w: World, outA: int, outB: int, to: Address, f: FactoryView): Result<World, PairError> {
    var _ :- Need(!w.locked, Locked);
    var _ :- Need(!w.frozen, ContractFrozen);
    SwapInner(w, outA, outB, to, f)
  }

  // ---- Sync --------------------------------------------------------------------------

  function Sync(w: World): Result<World, PairError> {
    var _ :- Need(!w.locked, Locked);
    var _ :- Stored(w);
    var balA, balB := Bal(w.tokenA, PAIR), Bal(w.tokenB, PAIR);
    var k :- I128(balA * balB, PairOverflow);
    Ok(w.(store := Some(PairStorage(balA, balB, w.timestamp, k))))
  }

  // ---- Flash loan --------------------------------------------------------------------

  function FlashFee(amount: int, feeBps: nat): Result<int, PairError> {
    var _ :- Need(feeBps <= 10_000, FlashLoanFeeTooHigh);
    if feeBps == 0 then Ok(0)
    else
      var product :- I128(amount * Max(feeBps, FLASH_FEE_FLOOR_BPS), FlashFeeOverflow);
      Ok(Max(TruncDiv(product, 10_000), 1))
  }

  datatype Loan = Loan(snapshot: PairStorage, preK: int, amountA: int, amountB: int, feeA: int, feeB: int)

  /** Pre-flight checks, the lock, and the payout; `None` is the zero-amount no-op. */
  function FlashOpen(w: World, receiver: Address, amountA: int, amountB: int, payload: nat): Result<Option<(World, Loan)>, PairError> {
    var _ :- Need(!w.frozen, ContractFrozen);
    var _ :- Need(payload <= MAX_PAYLOAD_SIZE, FlashPayloadTooLarge);
    var _ :- Need(amountA >= 0 && amountB >= 0, InsufficientInputAmount);
    var p :- Stored(w);
    if amountA == 0 && amountB == 0 then Ok(None)
    else
      var _ :- Need(amountA <= p.reserveA && amountB <= p.reserveB, PairInsufficientLiquidity);
      var preK :- I128(p.reserveA * p.reserveB, PairOverflow);
      var _ :- Need(!w.locked, Locked);
      var feeA :- if amountA > 0 then FlashFee(amountA, w.fees.baselineFeeBps) else Ok(0);
      var feeB :- if amountB > 0 then FlashFee(amountB, w.fees.baselineFeeBps) else Ok(0);
      var tokenA :- Pay(w.tokenA, receiver, amountA);
      var tokenB :- Pay(w.tokenB, receiver, amountB);
      Ok(Some((w.(locked := true, tokenA := tokenA, tokenB := tokenB), Loan(p, preK, amountA, amountB, feeA, feeB))))
  }

  function Repaid(amount: int, reserve: int, fee: int, balance: int): Result<(), PairError> {
    if amount <= 0 then Ok(())
    else
      var required :- I128(reserve + fee, PairOverflow);
      if balance < required then Err(FlashLoanNotRepaid) else Ok(())
  }

  /** Repayment check, reserve update from the snapshot, and release of the lock. */
  function FlashClose(w: World, loan: Loan): Result<World, PairError> {
    var balA, balB := Bal(w.tokenA, PAIR), Bal(w.tokenB, PAIR);
    var _ :- Repaid(loan.amountA, loan.snapshot.reserveA, loan.feeA, balA);
    var _ :- Repaid(loan.amountB, loan.snapshot.reserveB, loan.feeB, balB);
    var postK :- I128(balA * balB, PairOverflow);
    var _ :- Need(postK >= loan.preK, InvalidK);
    Ok(w.(locked := false, store := Some(loan.snapshot.(reserveA := balA, reserveB := balB, kLast := postK))))
  }

  // ---- Outside calls -----------------------------------------------------------------

  /** The address whose signature a direct call on the liquidity token needs; minting
      and pausing need the pair's. */
  function Signer(call: LpCall): Address {
    match call
    case CallTransfer(from, _, _) => from
    case CallTransferFrom(spender, _, _, _) => spender
    case CallApprove(from, _, _, _) => from
    case CallMint(_, _) => PAIR
    case CallBurn(from, _) => from
    case CallBurnFrom(spender, _, _) => spender
    case CallSetPaused(_) => PAIR
  }

  function OutsideLp(w: World, call: LpCall): Result<World, PairError> {
    var _ :- Need(Signer(call) != PAIR, Trap);
    var lp :- OrTrap(CallLp(w.lp, call, w.ledger));
    Ok(w.(lp := lp))
  }

  function OutsideTransfer(w: World, ofA: bool, from: Address, to: Address, amount: int): Result<World, PairError> {
    var _ :- Need(from != PAIR, Trap);
    if ofA then
      var m :- OrTrap(Move(w.tokenA, from, to, amount));
      Ok(w.(tokenA := m))
    else
      var m :- OrTrap(Move(w.tokenB, from, to, amount));
      Ok(w.(tokenB := m))
  }

  // ---- Actions and runs --------------------------------------------------------------

  /** Factory answers within the factory's own bounds: an override is a percentage. */
  type Factory = f: FactoryView | f.feeOverride.Some? ==> f.feeOverride.value <= 10_000
    witness FactoryView(None, None, None)

  /** Everything anybody can do, including whatever a flash-loan receiver does in its
      callback and whether that callback succeeds. */
  datatype Action =
    | DoInitialize(tokensAllowed: bool)
    | DoMint(to: Address)
    | DoDepositLp(from: Address, amount: int)
    | DoBurn(to: Address)
    | DoBurnSingleSide(to: Address, lpAmount: int, preferred: Preferred, minOut: int)
    | DoSwap(outA: int, outB: int, to: Address, factory: Factory)
    | DoSync
    | DoFlashLoan(receiver: Address, amountA: int, amountB: int, payload: nat, callback: seq<Action>, callbackOk: bool)
    | DoLpCall(call: LpCall)
    | DoTransfer(ofA: bool, from: Address, to: Address, amount: int)
    | DoSetLpPaused(paused: bool)
    | DoSetFrozen(frozen: bool)
    | DoSetStaleThreshold(threshold: nat)
    | DoTick(ledgers: nat, seconds: nat)

  function Step(w: World, a: Action): Result<World, PairError>
    decreases a, 1
  {
    match a
    case DoInitialize(tokensAllowed) => Initialize(w, tokensAllowed)
    case DoMint(to) => var (w', _) :- Mint(w, to); Ok(w')
    case DoDepositLp(from, amount) => DepositLp(w, from, amount)
    case DoBurn(to) => var (w', _, _) :- Burn(w, to); Ok(w')
    case DoBurnSingleSide(to, lpAmount, preferred, minOut) =>
      var (w', _) :- BurnSingleSide(w, to, lpAmount, preferred, minOut); Ok(w')
    case DoSwap(outA, outB, to, factory) => Swap(w, outA, outB, to, factory)
    case DoSync => Sync(w)
    case DoFlashLoan(receiver, amountA, amountB, payload, callback, callbackOk) =>
      FlashLoan(w, receiver, amountA, amountB, payload, callback, callbackOk)
    case DoLpCall(call) => OutsideLp(w, call)
    case DoTransfer(ofA, from, to, amount) => OutsideTransfer(w, ofA, from, to, amount)
    case DoSetLpPaused(paused) => SetLpPaused(w, paused)
    case DoSetFrozen(frozen) =>
      var _ :- Stored(w);
      Ok(w.(frozen := frozen))
    case DoSetStaleThreshold(threshold) => SetStaleThreshold(w, threshold)
    case DoTick(ledgers, seconds) => Ok(w.(ledger := w.ledger + ledgers, timestamp := w.timestamp + seconds))
  }

  function SetLpPaused(w: World, paused: bool): Result<World, PairError> {
    var _ :- Stored(w);
    Ok(w.(lp := w.lp.(paused := paused), pausedHint := paused))
  }

  function SetStaleThreshold(w: World, threshold: nat): Result<World, PairError> {
    var _ :- Stored(w);
    var _ :- Need(0 < threshold <= 100_000, InvalidStaleThreshold);
    Ok(w.(fees := w.fees.(staleThreshold := threshold)))
  }

  function FlashLoan(w: World, receiver: Address, amountA: int, amountB: int, payload: nat, callback: seq<Action>, callbackOk: bool)
    : Result<World, PairError>
    decreases callback, 1
  {
    var terms :- FlashOpen(w, receiver, amountA, amountB, payload);
    if terms.None? then Ok(w)
    else
      var (lent, loan) := terms.value;
      var back := Run(lent, callback);
      var _ :- Need(callbackOk, FlashCallbackFailed);
      FlashClose(back, loan)
  }

  /** A call that errs leaves the world as it was. */
  function After(w: World, a: Action): World
    decreases a, 2
  {
    var r := Step(w, a);
    if r.Ok? then r.value else w
  }

  function Run(w: World, actions: seq<Action>): World
    decreases actions, 0
  {
    if actions == [] then w else Run(After(w, actions[0]), actions[1..])
  }

  /** Before the pair is initialized: no liquidity, nothing staged, any token holders. */
  ghost predicate Genesis(w: World) {
    && w.store.None? && !w.locked && !w.frozen && !w.pausedHint
    && w.pending == map[] && w.pendingTotal == 0 && w.lp == EMPTY_LP
    && Positive(w.tokenA) && Positive(w.tokenB)
  }
}
