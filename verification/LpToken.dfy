/** The liquidity token the pair administers (the interface of SEP-41). */
module LpToken {
  import opened Base
  import opened Ledgers

  const MAX_MINT_PER_CALL: int := 1_000_000_000_000_000_000
  const MAX_TOTAL_SUPPLY: int := 1_000_000_000_000_000_000_000_000_000

  datatype LpError =
    | LpPaused
    | LpUnauthorized
    | LpInsufficientBalance
    | LpInsufficientAllowance
    | LpInvalidExpiration
    | LpMintTooLarge
    | LpSupplyExceeded
    | LpOverflow

  datatype Allowance = Allowance(amount: int, expirationLedger: nat)

  /** The stored state; `admin` is the pair. */
  datatype LpState = LpState(
    balances: Ledger,
    allowances: map<(Address, Address), Allowance>,
    totalSupply: int,
    paused: bool)

  const EMPTY_LP := LpState(map[], map[], 0, false)

  function FromLedger<T>(r: Result<T, LedgerError>): Result<T, LpError> {
    match r
    case Ok(v) => Ok(v)
    case Err(InsufficientBalance) => Err(LpInsufficientBalance)
    case Err(BalanceOverflow) => Err(LpOverflow)
  }

  function TransferLp(lp: LpState, from: Address, to: Address, amount: int): Result<LpState, LpError> {
    var _ :- Need(!lp.paused, LpPaused);
    var balances :- FromLedger(Move(lp.balances, from, to, amount));
    Ok(lp.(balances := balances))
  }

  function SpendAllowance(lp: LpState, from: Address, spender: Address, amount: int, ledger: nat): Result<LpState, LpError> {
    var key := (from, spender);
    var _ :- Need(key in lp.allowances, LpInsufficientAllowance);
    var entry := lp.allowances[key];
    var _ :- Need(entry.expirationLedger > ledger, LpInsufficientAllowance);
    var _ :- Need(entry.amount >= amount, LpInsufficientAllowance);
    // `allowance - amount` is plain `i128` subtraction, which panics on overflow.
    var left :- I128(entry.amount - amount, LpOverflow);
    Ok(lp.(allowances := if left == 0 then lp.allowances - {key} else lp.allowances[key := entry.(amount := left)]))
  }

  function TransferLpFrom(lp: LpState, spender: Address, from: Address, to: Address, amount: int, ledger: nat): Result<LpState, LpError> {
    var _ :- Need(!lp.paused, LpPaused);
    var spent :- if spender != from then SpendAllowance(lp, from, spender, amount, ledger) else Ok(lp);
    var balances :- FromLedger(Move(spent.balances, from, to, amount));
    Ok(spent.(balances := balances))
  }

  function ApproveLp(lp: LpState, from: Address, spender: Address, amount: int, expiration: nat, ledger: nat): Result<LpState, LpError> {
    var _ :- Need(amount == 0 || expiration > ledger, LpInvalidExpiration);
    var key := (from, spender);
    Ok(lp.(allowances := if amount == 0 then lp.allowances - {key} else lp.allowances[key := Allowance(amount, expiration)]))
  }

  function MintLp(lp: LpState, to: Address, amount: int): Result<LpState, LpError> {
    var _ :- Need(!lp.paused, LpPaused);
    var _ :- Need(amount <= MAX_MINT_PER_CALL, LpMintTooLarge);
    var balance :- I128(Bal(lp.balances, to) + amount, LpOverflow);
    var supply :- I128(lp.totalSupply + amount, LpOverflow);
    var _ :- Need(supply <= MAX_TOTAL_SUPPLY, LpSupplyExceeded);
    Ok(lp.(balances := Write(lp.balances, to, balance), totalSupply := supply))
  }

  function BurnLp(lp: LpState, from: Address, amount: int): Result<LpState, LpError> {
    var _ :- Need(!lp.paused, LpPaused);
    var _ :- Need(Bal(lp.balances, from) >= amount, LpInsufficientBalance);
    var balance :- I128(Bal(lp.balances, from) - amount, LpOverflow);
    var supply :- I128(lp.totalSupply - amount, LpInsufficientBalance);
    Ok(lp.(balances := Write(lp.balances, from, balance), totalSupply := supply))
  }

  function BurnLpFrom(lp: LpState, spender: Address, from: Address, amount: int, ledger: nat): Result<LpState, LpError> {
    var _ :- Need(!lp.paused, LpPaused);
    var spent :- SpendAllowance(lp, from, spender, amount, ledger);
    BurnLp(spent, from, amount)
  }

  // ---- Conservation ------------------------------------------------------------------

  /** Balances are positive and add up to the total supply. */
  ghost predicate LpInv(lp: LpState) {
    Positive(lp.balances) && Sum(lp.balances) == lp.totalSupply
  }

  /** What a call may do to balances: keep the invariant, move `delta` of supply, and
      leave every address outside `touched` alone. */
  ghost predicate Moved(lp: LpState, lp': LpState, delta: int, touched: set<Address>) {
    && (LpInv(lp) ==> LpInv(lp'))
    && lp'.totalSupply == lp.totalSupply + delta
    && lp'.paused == lp.paused
    && forall who :: who !in touched ==> Bal(lp'.balances, who) == Bal(lp.balances, who)
  }

  /** A transfer conserves supply; it debits and credits exactly `amount`, so that a
      transfer to oneself changes nothing. */
  lemma TransferConserves(lp: LpState, from: Address, to: Address, amount: int)
    requires TransferLp(lp, from, to, amount).Ok?
    ensures var lp' := TransferLp(lp, from, to, amount).value;
            Moved(lp, lp', 0, {from, to}) && lp'.allowances == lp.allowances && 0 <= amount
            && Bal(lp'.balances, from) == Bal(lp.balances, from) - (if from == to then 0 else amount)
            && Bal(lp'.balances, to) == Bal(lp.balances, to) + (if from == to then 0 else amount)
  {
    MoveConserves(lp.balances, from, to, amount);
  }

  /** A delegated transfer moves balances like a direct one.  A foreign spender needs a
      live allowance that covers the amount, which shrinks by exactly that amount; an
      owner spends without one. */
  lemma TransferFromConserves(lp: LpState, spender: Address, from: Address, to: Address, amount: int, ledger: nat)
    requires TransferLpFrom(lp, spender, from, to, amount, ledger).Ok?
    ensures var lp' := TransferLpFrom(lp, spender, from, to, amount, ledger).value;
            Moved(lp, lp', 0, {from, to}) && TransferLp(lp, from, to, amount) == Ok(lp'.(allowances := lp.allowances))
            && (if spender == from then lp'.allowances == lp.allowances else AllowanceSpent(lp, lp', from, spender, amount, ledger))
  {
    MoveConserves(lp.balances, from, to, amount);
  }

  function AllowanceOf(lp: LpState, from: Address, spender: Address, ledger: nat): int {
    if (from, spender) in lp.allowances && lp.allowances[(from, spender)].expirationLedger > ledger
    then lp.allowances[(from, spender)].amount else 0
  }

  ghost predicate AllowanceSpent(lp: LpState, lp': LpState, from: Address, spender: Address, amount: int, ledger: nat) {
    && (from, spender) in lp.allowances
    && amount <= AllowanceOf(lp, from, spender, ledger)
    && AllowanceOf(lp', from, spender, ledger) == AllowanceOf(lp, from, spender, ledger) - amount
    && forall key :: key != (from, spender) ==>
         (key in lp'.allowances <==> key in lp.allowances) && (key in lp.allowances ==> lp'.allowances[key] == lp.allowances[key])
  }

  /** An approval sets exactly that allowance, usable until it expires, and no other. */
  lemma ApproveSetsAllowance(lp: LpState, from: Address, spender: Address, amount: int, expiration: nat, ledger: nat)
    requires ApproveLp(lp, from, spender, amount, expiration, ledger).Ok?
    ensures var lp' := ApproveLp(lp, from, spender, amount, expiration, ledger).value;
            && lp'.balances == lp.balances && lp'.totalSupply == lp.totalSupply
            && (forall now: nat :: AllowanceOf(lp', from, spender, now) == if now < expiration then amount else 0)
            && (forall key :: key != (from, spender) ==>
                  (key in lp'.allowances <==> key in lp.allowances) && (key in lp.allowances ==> lp'.allowances[key] == lp.allowances[key]))
  {
  }

  /** A mint credits balance and supply alike, whatever the sign of the amount; it keeps
      the invariant exactly if it leaves no negative balance. */
  lemma MintConserves(lp: LpState, to: Address, amount: int)
    requires MintLp(lp, to, amount).Ok?
    ensures var lp' := MintLp(lp, to, amount).value;
            && lp'.totalSupply == lp.totalSupply + amount && lp'.paused == lp.paused && lp'.allowances == lp.allowances
            && Bal(lp'.balances, to) == Bal(lp.balances, to) + amount
            && (forall who :: who != to ==> Bal(lp'.balances, who) == Bal(lp.balances, who))
            && (LpInv(lp) ==> (LpInv(lp') <==> 0 <= Bal(lp.balances, to) + amount))
            && (0 <= amount ==> Moved(lp, lp', amount, {to}))
  {
    SumWrite(lp.balances, to, Bal(lp.balances, to) + amount);
  }

  /** A burn takes the same amount from the holder and from the supply, whatever the
      sign of the amount. */
  lemma BurnConserves(lp: LpState, from: Address, amount: int)
    requires BurnLp(lp, from, amount).Ok?
    ensures var lp' := BurnLp(lp, from, amount).value;
            Moved(lp, lp', -amount, {from}) && lp'.allowances == lp.allowances
            && Bal(lp'.balances, from) == Bal(lp.balances, from) - amount
            && 0 <= Bal(lp'.balances, from)
  {
    SumWrite(lp.balances, from, Bal(lp.balances, from) - amount);
  }

  lemma BurnFromConserves(lp: LpState, spender: Address, from: Address, amount: int, ledger: nat)
    requires BurnLpFrom(lp, spender, from, amount, ledger).Ok?
    ensures var lp' := BurnLpFrom(lp, spender, from, amount, ledger).value;
            Moved(lp, lp', -amount, {from}) && AllowanceSpent(lp, lp', from, spender, amount, ledger)
  {
    var spent := SpendAllowance(lp, from, spender, amount, ledger).value;
    BurnConserves(spent, from, amount);
  }

  // ---- Every run of the token --------------------------------------------------------

  datatype LpCall =
    | CallTransfer(from: Address, to: Address, amount: int)
    | CallTransferFrom(spender: Address, from: Address, to: Address, amount: int)
    | CallApprove(from: Address, spender: Address, amount: int, expiration: nat)
    | CallMint(to: Address, minted: nat)
    | CallBurn(from: Address, amount: int)
    | CallBurnFrom(spender: Address, from: Address, amount: int)
    | CallSetPaused(paused: bool)

  function CallLp(lp: LpState, call: LpCall, ledger: nat): Result<LpState, LpError> {
    match call
    case CallTransfer(from, to, amount) => TransferLp(lp, from, to, amount)
    case CallTransferFrom(spender, from, to, amount) => TransferLpFrom(lp, spender, from, to, amount, ledger)
    case CallApprove(from, spender, amount, expiration) => ApproveLp(lp, from, spender, amount, expiration, ledger)
    case CallMint(to, minted) => MintLp(lp, to, minted)
    case CallBurn(from, amount) => BurnLp(lp, from, amount)
    case CallBurnFrom(spender, from, amount) => BurnLpFrom(lp, spender, from, amount, ledger)
    case CallSetPaused(paused) => Ok(lp.(paused := paused))
  }

  /** A run: a call that errs changes nothing; every call carries its ledger number. */
  function RunCalls(lp: LpState, calls: seq<(LpCall, nat)>): LpState
    decreases |calls|
  {
    if calls == [] then lp
    else
      var r := CallLp(lp, calls[0].0, calls[0].1);
      RunCalls(if r.Ok? then r.value else lp, calls[1..])
  }

  /** Over every run the balances stay positive and add up to the total supply. */
  lemma {:induction false} RunConserves(lp: LpState, calls: seq<(LpCall, nat)>)
    requires LpInv(lp)
    ensures LpInv(RunCalls(lp, calls))
    decreases |calls|
  {
    if calls != [] {
      var (call, ledger) := calls[0];
      var r := CallLp(lp, call, ledger);
      if r.Ok? {
        match call {
          case CallTransfer(from, to, amount) => TransferConserves(lp, from, to, amount);
          case CallTransferFrom(spender, from, to, amount) => TransferFromConserves(lp, spender, from, to, amount, ledger);
          case CallApprove(_, _, _, _) =>
          case CallMint(to, minted) => MintConserves(lp, to, minted);
          case CallBurn(from, amount) => BurnConserves(lp, from, amount);
          case CallBurnFrom(spender, from, amount) => BurnFromConserves(lp, spender, from, amount, ledger);
          case CallSetPaused(_) =>
        }
      }
      RunConserves(if r.Ok? then r.value else lp, calls[1..]);
    }
  }

  /** While paused, no call other than unpausing moves a balance or the supply. */
  lemma {:induction false} PausedRunMovesNothing(lp: LpState, calls: seq<(LpCall, nat)>)
    requires lp.paused && forall i :: 0 <= i < |calls| ==> !calls[i].0.CallSetPaused?
    ensures var lp' := RunCalls(lp, calls);
            lp'.balances == lp.balances && lp'.totalSupply == lp.totalSupply && lp'.paused
    decreases |calls|
  {
    if calls != [] {
      var r := CallLp(lp, calls[0].0, calls[0].1);
      PausedRunMovesNothing(if r.Ok? then r.value else lp, calls[1..]);
    }
  }

  // ---- The token contract ------------------------------------------------------------

  /** The contract's storage and the entry points that rewrite it.  A call that errs
      returns before its first write or is discarded by the host. */
  class LpTokenContract {
    var balances: Ledger
    var allowances: map<(Address, Address), Allowance>
    var totalSupply: int
    var paused: bool

    ghost function State(): LpState
      reads this
    {
      LpState(balances, allowances, totalSupply, paused)
    }

    constructor ()
      ensures State() == EMPTY_LP
    {
      balances, allowances, totalSupply, paused := map[], map[], 0, false;
    }

    ghost predicate Refines(r: Outcome<LpError>, was: LpState, spec: Result<LpState, LpError>)
      reads this
    {
      match spec
      case Ok(lp) => r == Pass && State() == lp
      case Err(e) => r == Fail(e) && State() == was
    }

    method WriteBalance(who: Address, amount: int)
      modifies this`balances
      ensures balances == Write(old(balances), who, amount)
    {
      if amount == 0 {
        balances := balances - {who};
      } else {
        balances := balances[who := amount];
      }
    }

    /** `transfer_internal`; on an overflowing credit the host discards the debit. */
    method TransferInternal(from: Address, to: Address, amount: int) returns (r: Outcome<LpError>)
      modifies this`balances
      ensures match FromLedger(Move(old(balances), from, to, amount))
              case Ok(m) => r == Pass && balances == m
              case Err(e) => r == Fail(e) && balances == old(balances)
    {
      if amount < 0 {
        return Fail(LpInsufficientBalance);
      }
      if amount == 0 {
        return Pass;
      }
      if Bal(balances, from) < amount {
        return Fail(LpInsufficientBalance);
      }
      var before := balances;
      WriteBalance(from, Bal(balances, from) - amount);
      var credit := Bal(balances, to) + amount;
      if !InI128(credit) {
        balances := before;
        return Fail(LpOverflow);
      }
      WriteBalance(to, credit);
      return Pass;
    }

    method SpendAllowanceOf(from: Address, spender: Address, amount: int, ledger: nat) returns (r: Outcome<LpError>)
      modifies this`allowances
      ensures Refines(r, old(State()), SpendAllowance(old(State()), from, spender, amount, ledger))
    {
      var key := (from, spender);
      if key !in allowances {
        return Fail(LpInsufficientAllowance);
      }
      var entry := allowances[key];
      if entry.expirationLedger <= ledger || entry.amount < amount {
        return Fail(LpInsufficientAllowance);
      }
      var left := entry.amount - amount;
      if !InI128(left) {
        return Fail(LpOverflow);
      }
      if left == 0 {
        allowances := allowances - {key};
      } else {
        allowances := allowances[key := Allowance(left, entry.expirationLedger)];
      }
      return Pass;
    }

    method TransferTokens(from: Address, to: Address, amount: int) returns (r: Outcome<LpError>)
      modifies this
      ensures Refines(r, old(State()), TransferLp(old(State()), from, to, amount))
    {
      if paused {
        return Fail(LpPaused);
      }
      r := TransferInternal(from, to, amount);
    }

    method TransferTokensFrom(spender: Address, from: Address, to: Address, amount: int, ledger: nat) returns (r: Outcome<LpError>)
      modifies this
      ensures Refines(r, old(State()), TransferLpFrom(old(State()), spender, from, to, amount, ledger))
    {
      if paused {
        return Fail(LpPaused);
      }
      var before := allowances;
      if spender != from {
        r := SpendAllowanceOf(from, spender, amount, ledger);
        if r.Fail? {
          return;
        }
      }
      r := TransferInternal(from, to, amount);
      if r.Fail? {
        allowances := before;
      }
    }

    method MintTokens(to: Address, amount: int) returns (r: Outcome<LpError>)
      modifies this
      ensures Refines(r, old(State()), MintLp(old(State()), to, amount))
    {
      if paused {
        return Fail(LpPaused);
      }
      if amount > MAX_MINT_PER_CALL {
        return Fail(LpMintTooLarge);
      }
      var newBalance, newSupply := Bal(balances, to) + amount, totalSupply + amount;
      if !InI128(newBalance) || !InI128(newSupply) {
        return Fail(LpOverflow);
      }
      if newSupply > MAX_TOTAL_SUPPLY {
        return Fail(LpSupplyExceeded);
      }
      WriteBalance(to, newBalance);
      totalSupply := newSupply;
      return Pass;
    }

    method BurnTokens(from: Address, amount: int) returns (r: Outcome<LpError>)
      modifies this
      ensures Refines(r, old(State()), BurnLp(old(State()), from, amount))
    {
      if paused {
        return Fail(LpPaused);
      }
      if Bal(balances, from) < amount {
        return Fail(LpInsufficientBalance);
      }
      var newBalance, newSupply := Bal(balances, from) - amount, totalSupply - amount;
      if !InI128(newBalance) {
        return Fail(LpOverflow);
      }
      if !InI128(newSupply) {
        return Fail(LpInsufficientBalance);
      }
      WriteBalance(from, newBalance);
      totalSupply := newSupply;
      return Pass;
    }

    method BurnTokensFrom(spender: Address, from: Address, amount: int, ledger: nat) returns (r: Outcome<LpError>)
      modifies this
      ensures Refines(r, old(State()), BurnLpFrom(old(State()), spender, from, amount, ledger))
    {
      if paused {
        return Fail(LpPaused);
      }
      var before := allowances;
      r := SpendAllowanceOf(from, spender, amount, ledger);
      if r.Fail? {
        return;
      }
      r := BurnTokens(from, amount);
      if r.Fail? {
        allowances := before;
      }
    }
  }
}
