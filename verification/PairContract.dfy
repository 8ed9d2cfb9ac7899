/** The pair contract itself: stored fields and entry points that rewrite them in
    place.  Each entry point is proved to do what the transition function of the same
    name says, lock included; the safety of whole runs then carries over. */
module PairContract {
  import opened Base
  import opened PairMath
  import opened Ledgers
  import opened DynamicFee
  import opened LpToken
  import opened PairModel
  import opened PairSafety

  lemma SwapLeavesLock(w: World, outA: int, outB: int, to: Address, f: FactoryView)
    ensures SwapInner(w, outA, outB, to, f).Ok? ==> SwapInner(w, outA, outB, to, f).value.locked == w.locked
  {
    hide Settle, FeesAfterSwap, DecayStale, Pay, PayProtocol, Recorded;
  }

  lemma RedeemIgnoresLock(w: World, p: PairStorage, to: Address)
    ensures Redeem(w.(locked := false), p, to) == Redeem(w, p, to)
  {
    hide BurnAmounts, Withdraw;
  }

  class Pair {
    var store: Option<PairStorage>
    var fees: FeeState
    var locked: bool
    var frozen: bool
    var pausedHint: bool
    var pending: Ledger
    var pendingTotal: int
    // The ledgers of the other contracts, and the chain's clock.
    var tokenA: Ledger
    var tokenB: Ledger
    var lp: LpState
    var ledger: nat
    var timestamp: nat

    function State(): World
      reads this
    {
      World(store, fees, locked, frozen, pausedHint, pending, pendingTotal, tokenA, tokenB, lp, ledger, timestamp)
    }

    constructor (holdersA: Ledger, holdersB: Ledger)
      ensures State() == World(None, INITIAL_FEES, false, false, false, map[], 0, holdersA, holdersB, EMPTY_LP, 0, 0)
      ensures Positive(holdersA) && Positive(holdersB) ==> Genesis(State())
    {
      store, fees := None, INITIAL_FEES;
      locked, frozen, pausedHint := false, false, false;
      pending, pendingTotal := map[], 0;
      tokenA, tokenB, lp := holdersA, holdersB, EMPTY_LP;
      ledger, timestamp := 0, 0;
    }

    /** Success installs the specified world, failure restores the old one. */
    ghost predicate Did(r: Result<(), PairError>, was: World, spec: Result<World, PairError>)
      reads this
    {
      match spec
      case Ok(w) => r == Ok(()) && State() == w
      case Err(e) => r == Err(e) && State() == was
    }

    /** The same for the part of an entry point that runs under the lock. */
    ghost predicate DidLocked(r: Result<(), PairError>, was: World, spec: Result<World, PairError>)
      reads this
    {
      match spec
      case Ok(w) => r == Ok(()) && State() == w.(locked := true)
      case Err(e) => r == Err(e) && State() == was
    }

    // ---- The reentrancy guard --------------------------------------------------------

    method Acquire() returns (r: Result<(), PairError>)
      modifies this`locked
      ensures r == (if old(locked) then Err(Locked) else Ok(())) && locked
    {
      if locked {
        return Err(Locked);
      }
      locked := true;
      return Ok(());
    }

    method Release()
      modifies this`locked
      ensures !locked
    {
      locked := false;
    }

    // ---- Entry points ----------------------------------------------------------------

    method InitializePair(tokensAllowed: bool) returns (r: Result<(), PairError>)
      modifies this
      ensures Did(r, old(State()), Initialize(old(State()), tokensAllowed))
    {
      if store.Some? {
        return Err(AlreadyInitialized);
      }
      if !tokensAllowed {
        return Err(InvalidInput);
      }
      store := Some(PairStorage(0, 0, timestamp, 0));
      fees := INITIAL_FEES;
      locked := false;
      return Ok(());
    }

    method MintFor(to: Address) returns (r: Result<int, PairError>)
      modifies this
      ensures match PairModel.Mint(old(State()), to)
              case Ok((w, liquidity)) => r == Ok(liquidity) && State() == w
              case Err(e) => r == Err(e) && State() == old(State())
    {
      if to == PAIR {
        return Err(Trap);
      }
      var _ :- Acquire();
      r := MintLocked(to);
      Release();
    }

    method MintLocked(to: Address) returns (r: Result<int, PairError>)
      requires locked && to != PAIR
      modifies this
      ensures match PairModel.Mint(old(State()).(locked := false), to)
              case Ok((w, liquidity)) => r == Ok(liquidity) && State() == w.(locked := true)
              case Err(e) => r == Err(e) && State() == old(State())
    {
      hide SubsequentLiquidity, InitialLiquidity, MintLp;
      if frozen {
        return Err(ContractFrozen);
      }
      if store.None? {
        return Err(NotInitialized);
      }
      var state := store.value;
      if pausedHint {
        return Err(LpTokenPaused);
      }
      var balanceA, balanceB := Bal(tokenA, PAIR), Bal(tokenB, PAIR);
      var amountA :- I128(balanceA - state.reserveA, InvalidInput);
      var amountB :- I128(balanceB - state.reserveB, InvalidInput);
      if amountA < MINIMUM_RESERVE || amountB < MINIMUM_RESERVE {
        return Err(DustAmount);
      }
      var liquidity;
      var shares := lp;
      if lp.totalSupply == 0 {
        liquidity :- FromMath(InitialLiquidity(amountA, amountB));
        shares :- OrTrap(MintLp(shares, PAIR, MINIMUM_LIQUIDITY));
      } else {
        liquidity :- FromMath(SubsequentLiquidity(amountA, amountB, state.reserveA, state.reserveB, lp.totalSupply));
      }
      if liquidity <= 0 {
        return Err(InsufficientLiquidityMinted);
      }
      if liquidity < MIN_LIQUIDITY_FOR_USER {
        return Err(DustAmount);
      }
      shares :- OrTrap(MintLp(shares, to, liquidity));
      state := state.(reserveA := balanceA, reserveB := balanceB);
      var k :- I128(balanceA * balanceB, PairOverflow);
      state := state.(kLast := k, blockTimestampLast := timestamp);
      lp := shares;
      store := Some(state);
      return Ok(liquidity);
    }

    method StageLp(from: Address, amount: int) returns (r: Result<(), PairError>)
      modifies this
      ensures Did(r, old(State()), DepositLp(old(State()), from, amount))
    {
      if from == PAIR {
        return Err(Trap);
      }
      var _ :- Acquire();
      r := StageLpLocked(from, amount);
      Release();
    }

    method StageLpLocked(from: Address, amount: int) returns (r: Result<(), PairError>)
      requires locked && from != PAIR
      modifies this
      ensures DidLocked(r, old(State()), DepositLp(old(State()).(locked := false), from, amount))
    {
      hide TransferLp;
      if store.None? {
        return Err(NotInitialized);
      }
      if pausedHint {
        return Err(LpTokenPaused);
      }
      if amount <= 0 {
        return Err(InvalidInput);
      }
      var shares :- OrTrap(TransferLp(lp, from, PAIR, amount));
      var staged :- I128(Bal(pending, from) + amount, PairOverflow);
      var total :- I128(pendingTotal + amount, PairOverflow);
      lp := shares;
      pending := Write(pending, from, staged);
      pendingTotal := total;
      return Ok(());
    }

    method BurnFor(to: Address) returns (r: Result<(int, int), PairError>)
      modifies this
      ensures match PairModel.Burn(old(State()), to)
              case Ok((w, a, b)) => r == Ok((a, b)) && State() == w
              case Err(e) => r == Err(e) && State() == old(State())
    {
      if to == PAIR {
        return Err(Trap);
      }
      var _ :- Acquire();
      r := BurnLocked(to);
      Release();
    }

    method BurnLocked(to: Address) returns (r: Result<(int, int), PairError>)
      requires locked && to != PAIR
      modifies this
      ensures match PairModel.Burn(old(State()).(locked := false), to)
              case Ok((w, a, b)) => r == Ok((a, b)) && State() == w.(locked := true)
              case Err(e) => r == Err(e) && State() == old(State())
    {
      hide Redeem, BurnLp, Pay, Bal, Write, I128;
      if store.None? {
        return Err(NotInitialized);
      }
      var state := store.value;
      if pausedHint {
        return Err(LpTokenPaused);
      }
      RedeemIgnoresLock(State(), state, to);
      var terms :- Redeem(State(), state, to);
      var newLp :- OrTrap(BurnLp(lp, PAIR, terms.shares));
      var paidA :- Pay(tokenA, to, terms.amountA);
      var paidB :- Pay(tokenB, to, terms.amountB);
      var k :- I128(terms.afterA * terms.afterB, PairOverflow);
      var staged := Bal(pending, to);
      if staged > 0 {
        pending := Write(pending, to, 0);
        pendingTotal := pendingTotal - staged;
      }
      lp, tokenA, tokenB := newLp, paidA, paidB;
      store := Some(state.(reserveA := terms.afterA, reserveB := terms.afterB, kLast := k, blockTimestampLast := timestamp));
      return Ok((terms.amountA, terms.amountB));
    }

    method BurnSingleSideFor(to: Address, lpAmount: int, preferred: Preferred, minOut: int) returns (r: Result<int, PairError>)
      modifies this
      ensures match BurnSingleSide(old(State()), to, lpAmount, preferred, minOut)
              case Ok((w, out)) => r == Ok(out) && State() == w
              case Err(e) => r == Err(e) && State() == old(State())
    {
      if to == PAIR {
        return Err(Trap);
      }
      var _ :- Acquire();
      r := BurnSingleSideLocked(to, lpAmount, preferred, minOut);
      Release();
    }

    method BurnSingleSideLocked(to: Address, lpAmount: int, preferred: Preferred, minOut: int) returns (r: Result<int, PairError>)
      requires locked && to != PAIR
      modifies this
      ensures match BurnSingleSide(old(State()).(locked := false), to, lpAmount, preferred, minOut)
              case Ok((w, out)) => r == Ok(out) && State() == w.(locked := true)
              case Err(e) => r == Err(e) && State() == old(State())
    {
      hide BurnAmounts, BurnLp, Move, SingleSideLeg, ComputeFee;
      if frozen {
        return Err(ContractFrozen);
      }
      if store.None? {
        return Err(NotInitialized);
      }
      var state := store.value;
      if pausedHint {
        return Err(LpTokenPaused);
      }
      if lpAmount <= 0 || minOut <= 0 || preferred == OtherToken {
        return Err(InvalidInput);
      }
      var preferA := preferred == TokenA;
      if lp.totalSupply == 0 {
        return Err(InsufficientLiquidityBurned);
      }
      var newLp :- OrTrap(BurnLp(lp, to, lpAmount));
      var burnableSupply :- I128(lp.totalSupply - MINIMUM_LIQUIDITY, PairOverflow);
      if burnableSupply == 0 {
        return Err(InsufficientLiquidityBurned);
      }
      var shares :- FromMath(BurnAmounts(lpAmount, state.reserveA, state.reserveB, burnableSupply));
      if shares.0 <= 0 || shares.1 <= 0 {
        return Err(InsufficientLiquidityBurned);
      }
      var sharePref, shareUnwanted, pref, unwanted := shares.1, shares.0, state.reserveB, state.reserveA;
      if preferA {
        sharePref, shareUnwanted, pref, unwanted := shares.0, shares.1, state.reserveA, state.reserveB;
      }
      var leg :- SingleSideLeg(sharePref, shareUnwanted, pref, unwanted, ComputeFee(fees), minOut);
      var (out, left) := leg;
      if preferA {
        var paid :- Pay(tokenA, to, out);
        var k :- I128(left * unwanted, PairOverflow);
        tokenA := paid;
        state := state.(reserveA := left, reserveB := unwanted, kLast := k);
      } else {
        var paid :- Pay(tokenB, to, out);
        var k :- I128(unwanted * left, PairOverflow);
        tokenB := paid;
        state := state.(reserveA := unwanted, reserveB := left, kLast := k);
      }
      lp := newLp;
      store := Some(state.(blockTimestampLast := timestamp));
      return Ok(out);
    }

    method SwapFor(outA: int, outB: int, to: Address, f: FactoryView) returns (r: Result<(), PairError>)
      modifies this
      ensures Did(r, old(State()), Swap(old(State()), outA, outB, to, f))
    {
      hide SwapInner;
      SwapLeavesLock(State(), outA, outB, to, f);
      var _ :- Acquire();
      if frozen {
        Release();
        return Err(ContractFrozen);
      }
      r := SwapLocked(outA, outB, to, f);
      Release();
    }

    /** `swap_inner`: optimistic payout, K check on the real balances, protocol cut,
        reserve and fee-state update. */
    method SwapLocked(outA: int, outB: int, to: Address, f: FactoryView) returns (r: Result<(), PairError>)
      requires locked
      modifies this
      ensures DidLocked(r, old(State()), SwapInner(old(State()).(locked := false), outA, outB, to, f))
    {
      hide KCheck, FeesAfterSwap, DecayStale, ComputeFee, Move, ProtocolCut;
      if outA <= 0 && outB <= 0 {
        return Err(InsufficientOutputAmount);
      }
      if store.None? {
        return Err(NotInitialized);
      }
      var pair := store.value;
      var feeState := DecayStale(fees, ledger);
      var _ :- SwapGuards(pair, outA, outB);
      var feeBps := ChargedFee(feeState, f);
      var paidA :- Pay(tokenA, to, outA);
      var paidB :- Pay(tokenB, to, outB);
      var balanceA, balanceB := Bal(paidA, PAIR), Bal(paidB, PAIR);
      var inA := Max(balanceA - (pair.reserveA - outA), 0);
      var inB := Max(balanceB - (pair.reserveB - outB), 0);
      if inA <= 0 && inB <= 0 {
        return Err(InsufficientInputAmount);
      }
      var _ :- KCheck(pair, balanceA, balanceB, inA, inB, feeBps);
      var cutA, cutB := ProtocolCut(inA, feeBps, f), ProtocolCut(inB, feeBps, f);
      paidA :- PayProtocol(paidA, f, cutA);
      paidB :- PayProtocol(paidB, f, cutB);
      var reserveA :- I128(balanceA - cutA, PairOverflow);
      var reserveB :- I128(balanceB - cutB, PairOverflow);
      var k :- I128(reserveA * reserveB, PairOverflow);
      var before := pair;
      pair := pair.(reserveA := reserveA, reserveB := reserveB, kLast := k, blockTimestampLast := timestamp);
      feeState := FeesAfterSwap(feeState, before, pair, inA, inB, timestamp);
      tokenA, tokenB := paidA, paidB;
      store, fees := Some(pair), feeState;
      return Ok(());
    }

    method SyncReserves() returns (r: Result<(), PairError>)
      modifies this
      ensures Did(r, old(State()), Sync(old(State())))
    {
      var _ :- Acquire();
      if store.None? {
        Release();
        return Err(NotInitialized);
      }
      var balanceA, balanceB := Bal(tokenA, PAIR), Bal(tokenB, PAIR);
      var k := I128(balanceA * balanceB, PairOverflow);
      if k.Err? {
        Release();
        return Err(PairOverflow);
      }
      store := Some(PairStorage(balanceA, balanceB, timestamp, k.value));
      Release();
      return Ok(());
    }

    /** `execute_flash_loan`.  The receiver's callback is any sequence of actions, run
        on this very object; if the loan fails the host restores the old state. */
    method FlashLoanTo(receiver: Address, amountA: int, amountB: int, payload: nat, callback: seq<Action>, callbackOk: bool)
      returns (r: Result<(), PairError>)
      modifies this
      ensures Did(r, old(State()), FlashLoan(old(State()), receiver, amountA, amountB, payload, callback, callbackOk))
      decreases callback, 1
    {
      hide FlashOpen, FlashClose, Run;
      var was := State();
      var terms :- FlashOpen(State(), receiver, amountA, amountB, payload);
      if terms.None? {
        return Ok(());
      }
      FlashOpens(State(), receiver, amountA, amountB, payload);
      var (lent, loan) := terms.value;
      locked, tokenA, tokenB := true, lent.tokenA, lent.tokenB;
      PerformAll(callback);
      if !callbackOk {
        r := Err(FlashCallbackFailed);
      } else {
        r := Settle(loan);
      }
      if r.Err? {
        Restore(was);
      }
    }

    /** The host discarding every write since `was`. */
    method Restore(was: World)
      modifies this
      ensures State() == was
    {
      store, fees, locked, frozen, pausedHint := was.store, was.fees, was.locked, was.frozen, was.pausedHint;
      pending, pendingTotal := was.pending, was.pendingTotal;
      tokenA, tokenB, lp := was.tokenA, was.tokenB, was.lp;
      ledger, timestamp := was.ledger, was.timestamp;
    }

    /** Repayment check and write-back of the snapshot. */
    method Settle(loan: Loan) returns (r: Result<(), PairError>)
      modifies this
      ensures Did(r, old(State()), FlashClose(old(State()), loan))
    {
      var state := loan.snapshot;
      var balanceA, balanceB := Bal(tokenA, PAIR), Bal(tokenB, PAIR);
      if loan.amountA > 0 {
        var required :- I128(state.reserveA + loan.feeA, PairOverflow);
        if balanceA < required {
          return Err(FlashLoanNotRepaid);
        }
      }
      if loan.amountB > 0 {
        var required :- I128(state.reserveB + loan.feeB, PairOverflow);
        if balanceB < required {
          return Err(FlashLoanNotRepaid);
        }
      }
      var postK :- I128(balanceA * balanceB, PairOverflow);
      if postK < loan.preK {
        return Err(InvalidK);
      }
      store := Some(state.(reserveA := balanceA, reserveB := balanceB, kLast := postK));
      locked := false;
      return Ok(());
    }

    // ---- Runs ------------------------------------------------------------------------

    method Perform(a: Action)
      modifies this
      ensures State() == After(old(State()), a)
      decreases a, 2
    {
      hide Initialize, PairModel.Mint, PairModel.Burn, BurnSingleSide, Swap, Sync, DepositLp, FlashLoan, OutsideLp, OutsideTransfer;
      match a {
        case DoInitialize(tokensAllowed) => var _ := InitializePair(tokensAllowed);
        case DoMint(to) => var _ := MintFor(to);
        case DoDepositLp(from, amount) => var _ := StageLp(from, amount);
        case DoBurn(to) => var _ := BurnFor(to);
        case DoBurnSingleSide(to, lpAmount, preferred, minOut) => var _ := BurnSingleSideFor(to, lpAmount, preferred, minOut);
        case DoSwap(outA, outB, to, f) => var _ := SwapFor(outA, outB, to, f);
        case DoSync => var _ := SyncReserves();
        case DoFlashLoan(receiver, amountA, amountB, payload, callback, callbackOk) =>
          var _ := FlashLoanTo(receiver, amountA, amountB, payload, callback, callbackOk);
        case _ => PerformOutside(a);
      }
    }

    /** Calls on other contracts, the factory's switches, and time. */
    method PerformOutside(a: Action)
      requires !Guarded(a)
      modifies this
      ensures State() == After(old(State()), a)
    {
      hide CallLp, Move;
      match a {
        case DoLpCall(call) =>
          if Signer(call) != PAIR {
            var called := CallLp(lp, call, ledger);
            if called.Ok? {
              lp := called.value;
            }
          }
        case DoTransfer(ofA, from, to, amount) =>
          if from != PAIR {
            var moved := Move(if ofA then tokenA else tokenB, from, to, amount);
            if moved.Ok? {
              if ofA {
                tokenA := moved.value;
              } else {
                tokenB := moved.value;
              }
            }
          }
        case DoSetLpPaused(paused) =>
          if store.Some? {
            lp := lp.(paused := paused);
            pausedHint := paused;
          }
        case DoSetFrozen(freeze) =>
          if store.Some? {
            frozen := freeze;
          }
        case DoSetStaleThreshold(threshold) =>
          if store.Some? && 0 < threshold <= 100_000 {
            fees := fees.(staleThreshold := threshold);
          }
        case DoTick(ledgers, seconds) =>
          ledger, timestamp := ledger + ledgers, timestamp + seconds;
      }
    }

    /** Any run of the contract is the run of the model, and so it keeps the invariant. */
    method PerformAll(actions: seq<Action>)
      modifies this
      ensures State() == Run(old(State()), actions)
      ensures Inv(old(State())) && (old(State()).lp.totalSupply != 0 || SeedFirstRun(old(State()), actions)) ==> Safe(old(State()), State())
      decreases actions, 0
    {
      ghost var was := State();
      var i := 0;
      while i < |actions|
        invariant i <= |actions|
        invariant Run(State(), actions[i..]) == Run(was, actions)
      {
        assert actions[i..][1..] == actions[i + 1..];
        Perform(actions[i]);
        i := i + 1;
      }
      if Inv(was) && (was.lp.totalSupply != 0 || SeedFirstRun(was, actions)) {
        RunIsSafe(was, actions);
      }
    }
  }
}
