/** The router's route search: the direct pair, every one-hub route and every ordered
    two-hub route over the configured hub list. */
module RouterSearch {
  import opened Base
  import opened RouterPaths

  /** What a path pays for `x`, or `None` when some hop of it cannot be quoted. */
  function Quoted(m: Market, path: seq<Address>, x: int): Option<int> {
    var r := PathAmountsOut(m, path, x);
    if r.Ok? then Some(Final(x, r.value)) else None
  }

  predicate Usable(hub: Address, tokenIn: Address, tokenOut: Address) {
    hub != tokenIn && hub != tokenOut
  }

  predicate OneHub(hubs: seq<Address>, i: int, tokenIn: Address, tokenOut: Address) {
    0 <= i < |hubs| && Usable(hubs[i], tokenIn, tokenOut)
  }

  predicate TwoHubs(hubs: seq<Address>, i: int, j: int, tokenIn: Address, tokenOut: Address) {
    0 <= i < |hubs| && 0 <= j < |hubs| && i != j && Usable(hubs[i], tokenIn, tokenOut) && Usable(hubs[j], tokenIn, tokenOut)
  }

  /** The routes a search ranges over. */
  ghost predicate Candidate(hubs: seq<Address>, tokenIn: Address, tokenOut: Address, path: seq<Address>) {
    || path == [tokenIn, tokenOut]
    || (exists i :: OneHub(hubs, i, tokenIn, tokenOut) && path == [tokenIn, hubs[i], tokenOut])
    || (exists i, j :: TwoHubs(hubs, i, j, tokenIn, tokenOut) && path == [tokenIn, hubs[i], hubs[j], tokenOut])
  }

  function Priced(m: Market, h: Hop, x: int): Option<int> {
    var y := AmountOut(x, h);
    if y.Ok? then Some(y.value) else None
  }

  /** The search's inline quotes: every hop is looked up before any is priced. */
  function QuoteDirect(m: Market, a: Address, b: Address, x: int): Option<int> {
    var h := HopOf(m, a, b);
    if h.Err? then None else Priced(m, h.value, x)
  }

  function QuoteOneHub(m: Market, a: Address, b: Address, c: Address, x: int): Option<int> {
    var h1, h2 := HopOf(m, a, b), HopOf(m, b, c);
    if h1.Err? || h2.Err? then None
    else
      var mid := Priced(m, h1.value, x);
      if mid.None? then None else Priced(m, h2.value, mid.value)
  }

  function QuoteTwoHubs(m: Market, a: Address, b: Address, c: Address, d: Address, x: int): Option<int> {
    var h1, h2, h3 := HopOf(m, a, b), HopOf(m, b, c), HopOf(m, c, d);
    if h1.Err? || h2.Err? || h3.Err? then None
    else
      var mid1 := Priced(m, h1.value, x);
      if mid1.None? then None
      else
        var mid2 := Priced(m, h2.value, mid1.value);
        if mid2.None? then None else Priced(m, h3.value, mid2.value)
  }

  lemma QuotedStep(m: Market, a: Address, b: Address, tail: seq<Address>, x: int)
    ensures var h := HopOf(m, a, b);
            Quoted(m, [a, b] + tail, x) ==
            if h.Err? || Priced(m, h.value, x).None? then None
            else if tail == [] then Priced(m, h.value, x) else Quoted(m, [b] + tail, Priced(m, h.value, x).value)
  {
    var path := [a, b] + tail;
    assert path[1..] == [b] + tail;
    var h := HopOf(m, a, b);
    if h.Ok? && AmountOut(x, h.value).Ok? {
      var y := AmountOut(x, h.value).value;
      var rest := Amounts(m, [b] + tail, y);
      if rest.Ok? {
        FinalOfRest(x, y, rest.value);
      }
    }
  }

  /** The inline quotes agree with forward quoting of the same path. */
  lemma InlineQuotesAgree(m: Market, a: Address, b: Address, c: Address, d: Address, x: int)
    ensures QuoteDirect(m, a, b, x) == Quoted(m, [a, b], x)
    ensures QuoteOneHub(m, a, b, c, x) == Quoted(m, [a, b, c], x)
    ensures QuoteTwoHubs(m, a, b, c, d, x) == Quoted(m, [a, b, c, d], x)
  {
    hide HopOf, AmountOut, Quoted;
    assert [a, b] + [] == [a, b] && [a, b] + [c] == [a, b, c] && [a, b] + [c, d] == [a, b, c, d];
    QuotedStep(m, a, b, [], x);
    QuotedStep(m, a, b, [c], x);
    QuotedStep(m, a, b, [c, d], x);
    if HopOf(m, a, b).Ok? && Priced(m, HopOf(m, a, b).value, x).Some? {
      var y := Priced(m, HopOf(m, a, b).value, x).value;
      assert [b, c] + [] == [b, c] == [b] + [c] && [b, c] + [d] == [b, c, d] == [b] + [c, d];
      QuotedStep(m, b, c, [], y);
      QuotedStep(m, b, c, [d], y);
      if HopOf(m, b, c).Ok? && Priced(m, HopOf(m, b, c).value, y).Some? {
        var z := Priced(m, HopOf(m, b, c).value, y).value;
        assert [c, d] + [] == [c, d] == [c] + [d];
        QuotedStep(m, c, d, [], z);
      }
    }
  }

  lemma QuotedPositive(m: Market, path: seq<Address>, x: int)
    requires Quoted(m, path, x).Some?
    ensures 0 < Quoted(m, path, x).value
  {
    AmountsLength(m, path, x);
  }

  ghost predicate NotBetter(m: Market, path: seq<Address>, x: int, best: int) {
    Quoted(m, path, x).Some? ==> Quoted(m, path, x).value <= best
  }

  /** The state of the search: `-1` while nothing was quotable, else a quotable candidate
      together with its quote. */
  ghost predicate BestSoFar(m: Market, hubs: seq<Address>, tokenIn: Address, tokenOut: Address, x: int, path: seq<Address>, best: int) {
    best == -1 || (Candidate(hubs, tokenIn, tokenOut, path) && Quoted(m, path, x) == Some(best))
  }

  /** The search returns a route whose forward quote is the returned output and which no
      quotable route of the hub list beats; it errs with `PairNotFound` exactly when no
      route can be quoted. */
  method GetBestPath(m: Market, hubs: seq<Address>, tokenIn: Address, tokenOut: Address, amountIn: int)
    returns (r: Result<(seq<Address>, int), RouterError>)
    ensures tokenIn == tokenOut ==> r == Err(IdenticalTokens)
    ensures tokenIn != tokenOut && amountIn <= 0 ==> r == Err(RouterZeroAmount)
    ensures r.Ok? ==>
              var (path, out) := r.value;
              && Candidate(hubs, tokenIn, tokenOut, path) && Quoted(m, path, amountIn) == Some(out)
              && forall other :: Candidate(hubs, tokenIn, tokenOut, other) ==> NotBetter(m, other, amountIn, out)
    ensures tokenIn != tokenOut && 0 < amountIn && r.Err? ==>
              r == Err(PairNotFound) && forall other :: Candidate(hubs, tokenIn, tokenOut, other) ==> Quoted(m, other, amountIn).None?
  {
    hide Quoted, QuoteDirect, QuoteOneHub, QuoteTwoHubs;
    if tokenIn == tokenOut {
      return Err(IdenticalTokens);
    }
    if amountIn <= 0 {
      return Err(RouterZeroAmount);
    }
    var bestPath: seq<Address> := [];
    var bestOut := -1;
    var direct := QuoteDirect(m, tokenIn, tokenOut, amountIn);
    InlineQuotesAgree(m, tokenIn, tokenOut, tokenOut, tokenOut, amountIn);
    if direct.Some? {
      bestPath, bestOut := [tokenIn, tokenOut], direct.value;
      QuotedPositive(m, bestPath, amountIn);
    }
    bestPath, bestOut := SearchOneHub(m, hubs, tokenIn, tokenOut, amountIn, bestPath, bestOut);
    bestPath, bestOut := SearchTwoHubs(m, hubs, tokenIn, tokenOut, amountIn, bestPath, bestOut);
    if bestOut < 0 {
      forall other | Candidate(hubs, tokenIn, tokenOut, other)
        ensures Quoted(m, other, amountIn).None?
      {
        CandidateNotBetter(m, hubs, tokenIn, tokenOut, amountIn, other, bestOut);
        if Quoted(m, other, amountIn).Some? {
          QuotedPositive(m, other, amountIn);
        }
      }
      return Err(PairNotFound);
    }
    forall other | Candidate(hubs, tokenIn, tokenOut, other)
      ensures NotBetter(m, other, amountIn, bestOut)
    {
      CandidateNotBetter(m, hubs, tokenIn, tokenOut, amountIn, other, bestOut);
    }
    return Ok((bestPath, bestOut));
  }

  ghost predicate BeatsOneHub(m: Market, hubs: seq<Address>, tokenIn: Address, tokenOut: Address, x: int, upto: int, best: int) {
    forall i :: 0 <= i < upto && OneHub(hubs, i, tokenIn, tokenOut) ==> NotBetter(m, [tokenIn, hubs[i], tokenOut], x, best)
  }

  ghost predicate BeatsTwoHubs(m: Market, hubs: seq<Address>, tokenIn: Address, tokenOut: Address, x: int, i: int, upto: int, best: int) {
    forall j :: 0 <= j < upto && TwoHubs(hubs, i, j, tokenIn, tokenOut) ==> NotBetter(m, [tokenIn, hubs[i], hubs[j], tokenOut], x, best)
  }

  lemma CandidateNotBetter(m: Market, hubs: seq<Address>, tokenIn: Address, tokenOut: Address, x: int, path: seq<Address>, best: int)
    requires Candidate(hubs, tokenIn, tokenOut, path)
    requires NotBetter(m, [tokenIn, tokenOut], x, best)
    requires BeatsOneHub(m, hubs, tokenIn, tokenOut, x, |hubs|, best)
    requires forall i :: 0 <= i < |hubs| ==> BeatsTwoHubs(m, hubs, tokenIn, tokenOut, x, i, |hubs|, best)
    ensures NotBetter(m, path, x, best)
  {
    hide NotBetter;
    if i, j :| TwoHubs(hubs, i, j, tokenIn, tokenOut) && path == [tokenIn, hubs[i], hubs[j], tokenOut] {
      assert BeatsTwoHubs(m, hubs, tokenIn, tokenOut, x, i, |hubs|, best);
    }
  }

  /** The loop over one-hub routes. */
  method SearchOneHub(m: Market, hubs: seq<Address>, tokenIn: Address, tokenOut: Address, x: int, path0: seq<Address>, out0: int)
    returns (path: seq<Address>, out: int)
    requires BestSoFar(m, hubs, tokenIn, tokenOut, x, path0, out0) && -1 <= out0
    ensures BestSoFar(m, hubs, tokenIn, tokenOut, x, path, out) && out0 <= out
    ensures BeatsOneHub(m, hubs, tokenIn, tokenOut, x, |hubs|, out)
  {
    hide Quoted, QuoteOneHub;
    path, out := path0, out0;
    for i := 0 to |hubs|
      invariant BestSoFar(m, hubs, tokenIn, tokenOut, x, path, out) && out0 <= out
      invariant BeatsOneHub(m, hubs, tokenIn, tokenOut, x, i, out)
    {
      var hub := hubs[i];
      if hub == tokenIn || hub == tokenOut {
        continue;
      }
      var quote := QuoteOneHub(m, tokenIn, hub, tokenOut, x);
      InlineQuotesAgree(m, tokenIn, hub, tokenOut, tokenOut, x);
      assert OneHub(hubs, i, tokenIn, tokenOut);
      if quote.Some? && quote.value > out {
        path, out := [tokenIn, hub, tokenOut], quote.value;
      }
    }
  }

  /** The nested loops over ordered pairs of distinct hub positions. */
  method SearchTwoHubs(m: Market, hubs: seq<Address>, tokenIn: Address, tokenOut: Address, x: int, path0: seq<Address>, out0: int)
    returns (path: seq<Address>, out: int)
    requires BestSoFar(m, hubs, tokenIn, tokenOut, x, path0, out0) && -1 <= out0
    ensures BestSoFar(m, hubs, tokenIn, tokenOut, x, path, out) && out0 <= out
    ensures forall i :: 0 <= i < |hubs| ==> BeatsTwoHubs(m, hubs, tokenIn, tokenOut, x, i, |hubs|, out)
  {
    hide Quoted, QuoteTwoHubs;
    path, out := path0, out0;
    for i := 0 to |hubs|
      invariant BestSoFar(m, hubs, tokenIn, tokenOut, x, path, out) && out0 <= out
      invariant forall k :: 0 <= k < i ==> BeatsTwoHubs(m, hubs, tokenIn, tokenOut, x, k, |hubs|, out)
    {
      ghost var before := out;
      for j := 0 to |hubs|
        invariant BestSoFar(m, hubs, tokenIn, tokenOut, x, path, out) && before <= out
        invariant BeatsTwoHubs(m, hubs, tokenIn, tokenOut, x, i, j, out)
      {
        var hubI, hubJ := hubs[i], hubs[j];
        if i == j || hubI == tokenIn || hubI == tokenOut || hubJ == tokenIn || hubJ == tokenOut {
          continue;
        }
        var quote := QuoteTwoHubs(m, tokenIn, hubI, hubJ, tokenOut, x);
        InlineQuotesAgree(m, tokenIn, hubI, hubJ, tokenOut, x);
        assert TwoHubs(hubs, i, j, tokenIn, tokenOut);
        if quote.Some? && quote.value > out {
          path, out := [tokenIn, hubI, hubJ, tokenOut], quote.value;
        }
      }
      forall k | 0 <= k < i
        ensures BeatsTwoHubs(m, hubs, tokenIn, tokenOut, x, k, |hubs|, out)
      {
        assert BeatsTwoHubs(m, hubs, tokenIn, tokenOut, x, k, |hubs|, before);
      }
    }
  }
}
