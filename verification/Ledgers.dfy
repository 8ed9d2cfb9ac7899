/** Token balances as maps from addresses to amounts; an absent entry is zero. */
module Ledgers {
  import opened Base

  type Ledger = map<Address, int>

  datatype LedgerError = InsufficientBalance | BalanceOverflow

  function Bal(m: Ledger, who: Address): int {
    if who in m then m[who] else 0
  }

  /** Storing a zero removes the entry. */
  function Write(m: Ledger, who: Address, amount: int): Ledger {
    if amount == 0 then m - {who} else m[who := amount]
  }

  /** An exact transfer: debit, then credit what the debit left behind. */
  function Move(m: Ledger, from: Address, to: Address, amount: int): Result<Ledger, LedgerError> {
    var _ :- Need(amount >= 0, InsufficientBalance);
    if amount == 0 then Ok(m)
    else
      var _ :- Need(Bal(m, from) >= amount, InsufficientBalance);
      var debited := Write(m, from, Bal(m, from) - amount);
      var credit :- I128(Bal(debited, to) + amount, BalanceOverflow);
      Ok(Write(debited, to, credit))
  }

  ghost predicate Positive(m: Ledger) {
    forall who :: who in m ==> 0 < m[who]
  }

  ghost function Sum(m: Ledger): int {
    if m == map[] then 0
    else
      var who :| who in m;
      m[who] + Sum(m - {who})
  }

  /** The sum does not depend on which entry is taken off first. */
  lemma {:induction false} SumRemove(m: Ledger, k: Address)
    requires k in m
    ensures Sum(m) == m[k] + Sum(m - {k})
    decreases |m|
  {
    var who :| who in m && Sum(m) == m[who] + Sum(m - {who});
    if who != k {
      SumRemove(m - {who}, k);
      SumRemove(m - {k}, who);
      assert m - {who} - {k} == m - {k} - {who};
    }
  }

  lemma SumWrite(m: Ledger, k: Address, v: int)
    ensures Sum(Write(m, k, v)) == Sum(m) - Bal(m, k) + v
  {
    var rest := m - {k};
    if k in m {
      SumRemove(m, k);
    } else {
      assert rest == m;
    }
    if v != 0 {
      SumRemove(m[k := v], k);
      assert m[k := v] - {k} == rest;
    }
  }

  /** A transfer conserves the total, moves exactly `amount`, and touches nobody else;
      a transfer to oneself changes no balance. */
  lemma MoveConserves(m: Ledger, from: Address, to: Address, amount: int)
    requires Move(m, from, to, amount).Ok?
    ensures var m' := Move(m, from, to, amount).value;
            && Sum(m') == Sum(m)
            && 0 <= amount
            && (Positive(m) ==> Positive(m'))
            && (from != to ==> Bal(m', from) == Bal(m, from) - amount && Bal(m', to) == Bal(m, to) + amount)
            && forall who :: (who != from && who != to) || from == to ==> Bal(m', who) == Bal(m, who)
  {
    if amount != 0 {
      var debited := Write(m, from, Bal(m, from) - amount);
      SumWrite(m, from, Bal(m, from) - amount);
      SumWrite(debited, to, Bal(debited, to) + amount);
    }
  }

  /** No single holder owns more than the total. */
  lemma {:induction false} BalanceWithinSum(m: Ledger, who: Address)
    requires Positive(m)
    ensures 0 <= Bal(m, who) <= Sum(m)
  {
    SumNonneg(m);
    if who in m {
      SumRemove(m, who);
      SumNonneg(m - {who});
    }
  }

  lemma {:induction false} SumNonneg(m: Ledger)
    requires Positive(m)
    ensures 0 <= Sum(m)
    decreases |m|
  {
    if m != map[] {
      var who :| who in m;
      SumRemove(m, who);
      SumNonneg(m - {who});
    }
  }
}
