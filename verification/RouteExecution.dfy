/** Routes against the pairs they run through: what the router quotes before the first
    token moves, each pair still accepts when its hop comes. */
module RouteExecution {
  import opened Base
  import opened Quotes
  import opened PairModel
  import opened PairPricing
  import opened RouterPaths

  /** One hop of a route: the pair, the direction, and the amounts the router decided on. */
  datatype Leg = Leg(pair: Address, sellA: bool, amountIn: int, amountOut: int)

  /** The state of every pair, and what the factory answers about it. */
  type Pools = map<Address, World>
  type Factories = map<Address, Factory>

  /** The router reads this hop off that pair. */
  ghost predicate QuotesHop(m: Market, from: Address, to: Address, w: World, sellA: bool, f: Factory) {
    && w.store.Some? && EffectiveFee(w, f).Ok?
    && var (rIn, rOut) := Facing(w.store.value, sellA);
       HopOf(m, from, to) == Ok(Hop(rIn, rOut, EffectiveFee(w, f).value.0))
  }

  /** The market the router quotes is that of `pools`, and every leg is a trade on the K
      curve quoted for its pair. */
  ghost predicate Planned(m: Market, path: seq<Address>, legs: seq<Leg>, pools: Pools, fs: Factories) {
    && |legs| == |path| - 1
    && forall i :: 0 <= i < |legs| ==>
         && legs[i].pair in pools && legs[i].pair in fs
         && QuotesHop(m, path[i], path[i + 1], pools[legs[i].pair], legs[i].sellA, fs[legs[i].pair])
         && AdmissibleLeg(legs[i], HopOf(m, path[i], path[i + 1]).value)
  }

  ghost predicate AdmissibleLeg(leg: Leg, hop: Hop) {
    0 < leg.amountIn && 0 < leg.amountOut && Admissible(leg.amountIn, leg.amountOut, hop.rIn, hop.rOut, hop.feeBps)
  }

  /** The input of a leg has reached its pair; nothing the pair stores has changed. */
  ghost predicate Arrived(w: World, arrived: World, leg: Leg) {
    arrived.store == w.store && arrived.fees == w.fees && 0 < leg.amountIn && InputArrived(arrived, leg.amountIn, leg.sellA)
  }

  /** A route on its way: `states[i]` are the pairs before leg `i`, `arrived[i]` is its pair
      when the input is there, and the swap of that leg succeeded. */
  ghost predicate Executed(legs: seq<Leg>, states: seq<Pools>, arrived: seq<World>, dest: seq<Address>, fs: Factories, n: nat) {
    && n <= |legs| && |states| == n + 1 && |arrived| == n && |dest| == |legs|
    && forall i :: 0 <= i < n ==>
         && legs[i].pair in states[i] && legs[i].pair in fs && Arrived(states[i][legs[i].pair], arrived[i], legs[i])
         && var r := SellFor(arrived[i], legs[i].amountOut, legs[i].sellA, dest[i], fs[legs[i].pair]);
            r.Ok? && states[i + 1] == states[i][legs[i].pair := r.value]
  }

  ghost predicate DistinctPairs(legs: seq<Leg>) {
    forall i, j :: 0 <= i < j < |legs| ==> legs[i].pair != legs[j].pair
  }

  /** Earlier hops leave the pairs of later ones alone. */
  lemma {:induction false} LaterPairUntouched(legs: seq<Leg>, states: seq<Pools>, arrived: seq<World>, dest: seq<Address>, fs: Factories, n: nat, i: nat)
    requires Executed(legs, states, arrived, dest, fs, n) && DistinctPairs(legs) && i <= n < |legs| && legs[n].pair in states[0]
    ensures legs[n].pair in states[i] && states[i][legs[n].pair] == states[0][legs[n].pair]
    decreases i
  {
    hide SellFor, Arrived;
    if i > 0 {
      LaterPairUntouched(legs, states, arrived, dest, fs, n, i - 1);
    }
  }

  /** Along a route over distinct pairs no hop is rejected by its pair's K check: not after
      any number of hops that went through, whoever receives the output. */
  lemma PlannedHopPassesKCheck(m: Market, path: seq<Address>, legs: seq<Leg>, states: seq<Pools>, arrived: seq<World>,
                               dest: seq<Address>, fs: Factories, n: nat, next: World)
    requires n < |legs| && Executed(legs, states, arrived, dest, fs, n) && DistinctPairs(legs)
    requires Planned(m, path, legs, states[0], fs)
    requires legs[n].pair in states[n] && Arrived(states[n][legs[n].pair], next, legs[n]) && dest[n] != PAIR
    ensures SellFor(next, legs[n].amountOut, legs[n].sellA, dest[n], fs[legs[n].pair]) != Err(InvalidK)
  {
    hide SellFor, Admissible, InputArrived, HopOf;
    LaterPairUntouched(legs, states, arrived, dest, fs, n, n);
    assert QuotesHop(m, path[n], path[n + 1], states[0][legs[n].pair], legs[n].sellA, fs[legs[n].pair]);
    AdmissibleTradePassesKCheck(next, legs[n].amountIn, legs[n].amountOut, legs[n].sellA, dest[n], fs[legs[n].pair]);
  }

  // ---- The two kinds of route --------------------------------------------------------

  /** The legs of an exact-out route. */
  ghost predicate ExactOut(m: Market, path: seq<Address>, target: int, legs: seq<Leg>) {
    && Required(m, path, target).Ok? && |legs| == |path| - 1 && 0 < target
    && |Required(m, path, target).value.0| == |legs|
    && forall i :: 0 <= i < |legs| ==>
         && legs[i].amountIn == Required(m, path, target).value.0[i]
         && legs[i].amountOut == if i + 1 < |legs| then Required(m, path, target).value.0[i + 1] else target
  }

  /** The legs of an exact-in route. */
  ghost predicate ExactIn(m: Market, path: seq<Address>, x: int, legs: seq<Leg>) {
    && Amounts(m, path, x).Ok? && |legs| == |path| - 1
    && |Amounts(m, path, x).value| == |legs|
    && forall i :: 0 <= i < |legs| ==>
         && legs[i].amountIn == (if i == 0 then x else Amounts(m, path, x).value[i - 1])
         && legs[i].amountOut == Amounts(m, path, x).value[i]
  }

  /** The quoting state: each leg's hop is what its pair answers. */
  ghost predicate QuotedFrom(m: Market, path: seq<Address>, legs: seq<Leg>, pools: Pools, fs: Factories) {
    && |legs| == |path| - 1
    && forall i :: 0 <= i < |legs| ==>
         && legs[i].pair in pools && legs[i].pair in fs
         && QuotesHop(m, path[i], path[i + 1], pools[legs[i].pair], legs[i].sellA, fs[legs[i].pair])
  }

  lemma ExactOutIsPlanned(m: Market, path: seq<Address>, target: int, legs: seq<Leg>, pools: Pools, fs: Factories)
    requires ExactOut(m, path, target, legs) && QuotedFrom(m, path, legs, pools, fs)
    ensures Planned(m, path, legs, pools, fs)
  {
    hide Required, HopOf, Admissible;
    RequiredHopsAreAdmissible(m, path, target);
    RequiredPositive(m, path, target);
    var required := Required(m, path, target).value.0;
    forall i | 0 <= i < |legs|
      ensures AdmissibleLeg(legs[i], HopOf(m, path[i], path[i + 1]).value)
    {
      assert 0 < required[i] && (i + 1 < |required| ==> 0 < required[i + 1]);
    }
  }

  lemma {:induction false} RequiredPositive(m: Market, path: seq<Address>, target: int)
    requires Required(m, path, target).Ok? && 0 < target
    ensures var (required, need) := Required(m, path, target).value; 0 < need && forall i :: 0 <= i < |required| ==> 0 < required[i]
    decreases |path|
  {
    hide HopOf;
    if |path| >= 2 {
      RequiredPositive(m, path[1..], target);
      AmountInPositive(Required(m, path[1..], target).value.1, HopOf(m, path[0], path[1]).value);
    }
  }

  lemma {:induction false} AmountsAreAdmissible(m: Market, path: seq<Address>, x: int)
    requires Amounts(m, path, x).Ok? && |path| >= 2
    ensures 0 < x
    ensures var amounts := Amounts(m, path, x).value;
            && |amounts| == |path| - 1
            && forall i :: 0 <= i < |amounts| ==>
                 var hop := HopOf(m, path[i], path[i + 1]);
                 hop.Ok? && 0 < amounts[i] && Admissible(if i == 0 then x else amounts[i - 1], amounts[i], hop.value.rIn, hop.value.rOut, hop.value.feeBps)
    decreases |path|
  {
    hide Admissible, HopOf;
    var hop := HopOf(m, path[0], path[1]).value;
    var y := AmountOut(x, hop).value;
    QuoteOutIsFloor(x, hop.rIn, hop.rOut, hop.feeBps);
    QuoteOutExact(x, hop.rIn, hop.rOut, hop.feeBps);
    assert y <= y;
    if |path| > 2 {
      AmountsAreAdmissible(m, path[1..], y);
    }
  }

  lemma ExactInIsPlanned(m: Market, path: seq<Address>, x: int, legs: seq<Leg>, pools: Pools, fs: Factories)
    requires ExactIn(m, path, x, legs) && QuotedFrom(m, path, legs, pools, fs) && |path| >= 2
    ensures Planned(m, path, legs, pools, fs)
  {
    hide Amounts, HopOf, Admissible;
    AmountsAreAdmissible(m, path, x);
  }

  /** No hop of an exact-in or exact-out route over distinct pairs fails its K check. */
  lemma RouteHopPassesKCheck(m: Market, path: seq<Address>, amount: int, legs: seq<Leg>, states: seq<Pools>, arrived: seq<World>,
                             dest: seq<Address>, fs: Factories, n: nat, next: World)
    requires ExactIn(m, path, amount, legs) || ExactOut(m, path, amount, legs)
    requires n < |legs| && Executed(legs, states, arrived, dest, fs, n) && DistinctPairs(legs)
    requires QuotedFrom(m, path, legs, states[0], fs)
    requires legs[n].pair in states[n] && Arrived(states[n][legs[n].pair], next, legs[n]) && dest[n] != PAIR
    ensures legs[n].pair in fs && SellFor(next, legs[n].amountOut, legs[n].sellA, dest[n], fs[legs[n].pair]) != Err(InvalidK)
  {
    if ExactIn(m, path, amount, legs) {
      ExactInIsPlanned(m, path, amount, legs, states[0], fs);
    } else {
      ExactOutIsPlanned(m, path, amount, legs, states[0], fs);
    }
    hide ExactIn, ExactOut, Executed, QuotedFrom, Planned, SellFor, Arrived, DistinctPairs;
    PlannedHopPassesKCheck(m, path, legs, states, arrived, dest, fs, n, next);
  }
}
