/** The time-weighted price oracle: a prunable ring of cumulative-price samples and an
    interpolating window query. */
module Oracle {
  import opened Base
  import opened Arith

  const MAX_TWAP_WINDOW: nat := 86_400
  const MAX_OBSERVATIONS: nat := 24

  datatype OracleError = WindowTooShort | WindowTooLong | OracleTrap

  datatype Sample = Sample(ledger: nat, cumA: int, cumB: int)

  // ---- The plain sequence the ring stands for ----------------------------------------

  /** Append, dropping the oldest sample once there are more than the ring can hold. */
  function Appended(live: seq<Sample>, s: Sample): seq<Sample> {
    if |live| < MAX_OBSERVATIONS then live + [s] else live[1..] + [s]
  }

  predicate Expired(s: Sample, now: nat) {
    s.ledger + MAX_TWAP_WINDOW < now
  }

  function ExpiredPrefix(live: seq<Sample>, now: nat): (k: nat)
    ensures k <= |live|
    ensures forall i :: 0 <= i < k ==> Expired(live[i], now)
    ensures k < |live| ==> !Expired(live[k], now)
  {
    if live == [] || !Expired(live[0], now) then 0 else 1 + ExpiredPrefix(live[1..], now)
  }

  function Pruned(live: seq<Sample>, now: nat): (kept: seq<Sample>)
    ensures |kept| <= |live| && kept == live[|live| - |kept|..]
  {
    live[ExpiredPrefix(live, now)..]
  }

  /** On samples in ledger order, pruning keeps exactly the unexpired ones. */
  lemma PrunedKeepsUnexpired(live: seq<Sample>, now: nat)
    requires Increasing(live)
    ensures forall i :: 0 <= i < |live| ==> (Expired(live[i], now) <==> i < ExpiredPrefix(live, now))
  {
  }

  ghost predicate Increasing(live: seq<Sample>) {
    forall i, j :: 0 <= i < j < |live| ==> live[i].ledger < live[j].ledger
  }

  // ---- Accumulation ------------------------------------------------------------------

  datatype OracleValue = OracleValue(cumA: int, cumB: int, live: seq<Sample>)

  const EMPTY_ORACLE := OracleValue(0, 0, [])

  /** An accumulator moved on by an integer price held for `elapsed` ledgers. */
  function Advance(cum: int, rOther: int, rOwn: int, elapsed: nat): int
    requires rOwn != 0
  {
    Wrap(cum + Wrap(TruncDiv(rOther, rOwn) * elapsed))
  }

  function Recorded(o: OracleValue, cumA: int, cumB: int, now: nat): OracleValue {
    OracleValue(cumA, cumB, Appended(Pruned(o.live, now), Sample(now, cumA, cumB)))
  }

  /** `update_cumulative_prices` on the abstract state. */
  function Observe(o: OracleValue, rA: int, rB: int, elapsed: nat, now: nat): OracleValue {
    if rA == 0 || rB == 0 || elapsed == 0 then o
    else
      Recorded(o, Advance(o.cumA, rB, rA, elapsed), Advance(o.cumB, rA, rB, elapsed), now)
  }

  // ---- The window query --------------------------------------------------------------

  /** The query's scan: the last sample at or before the target, and the first at or
      after it. */
  function Scan(live: seq<Sample>, target: nat, i: nat, start: Sample, end: Sample): (Sample, Sample)
    decreases |live| - i
  {
    if i >= |live| then (start, end)
    else
      var s := live[i];
      var start' := if s.ledger <= target then s else start;
      if s.ledger >= target && end.ledger <= target then (start', s)
      else Scan(live, target, i + 1, start', end)
  }

  function Interpolate(start: int, end: int, startLedger: nat, endLedger: nat, target: nat): Result<int, OracleError> {
    if endLedger == startLedger then Ok(start)
    else
      var product :- I128(Wrap(end - start) * (target - startLedger), OracleTrap);
      var part :- CheckedDiv(product, endLedger - startLedger, OracleTrap);
      Ok(Wrap(start + part))
  }

  function Consult(live: seq<Sample>, current: nat, window: nat): Result<(int, int), OracleError> {
    var _ :- Need(window != 0, WindowTooShort);
    var _ :- Need(window <= MAX_TWAP_WINDOW, WindowTooLong);
    var _ :- Need(live != [], WindowTooShort);
    var target: nat := Max(current - window, 0);
    var _ :- Need(live[0].ledger <= target, WindowTooShort);
    var (start, end) := Scan(live, target, 0, live[0], live[0]);
    var a :- Interpolate(start.cumA, end.cumA, start.ledger, end.ledger, target);
    var b :- Interpolate(start.cumB, end.cumB, start.ledger, end.ledger, target);
    var latest := live[|live| - 1];
    var _ :- Need(latest.ledger >= target + window, WindowTooShort);
    var elapsed := Max(latest.ledger - target, 0);
    if elapsed == 0 then Ok((0, 0))
    else Ok((TruncDiv(Wrap(latest.cumA - a), elapsed), TruncDiv(Wrap(latest.cumB - b), elapsed)))
  }

  // ---- Prices per ledger -------------------------------------------------------------

  type Price = int -> int

  /** The price summed over the ledgers `lo < l <= hi`. */
  function SumPrice(p: Price, lo: int, hi: int): int
    requires lo <= hi
    decreases hi - lo
  {
    if lo == hi then 0 else SumPrice(p, lo, hi - 1) + p(hi)
  }

  lemma {:induction false} SumPriceSplit(p: Price, lo: int, mid: int, hi: int)
    requires lo <= mid <= hi
    ensures SumPrice(p, lo, hi) == SumPrice(p, lo, mid) + SumPrice(p, mid, hi)
    decreases hi - mid
  {
    if mid < hi {
      SumPriceSplit(p, lo, mid, hi - 1);
    }
  }

  /** A sum of prices between `low` and `high` lies between their multiples. */
  lemma {:induction false} SumPriceBetween(p: Price, lo: int, hi: int, low: int, high: int)
    requires lo <= hi && forall l :: lo < l <= hi ==> low <= p(l) <= high
    ensures low * (hi - lo) <= SumPrice(p, lo, hi) <= high * (hi - lo)
    decreases hi - lo
  {
    if lo < hi {
      SumPriceBetween(p, lo, hi - 1, low, high);
      assert low * (hi - lo) == low * (hi - 1 - lo) + low;
      assert high * (hi - lo) == high * (hi - 1 - lo) + high;
    }
  }

  function Cum(s: Sample, sideA: bool): int {
    if sideA then s.cumA else s.cumB
  }

  /** One link of the chain of samples: the price is constant since the previous sample,
      and the accumulator advanced by it, modulo 2^128. */
  ghost predicate Link(s: Sample, t: Sample, sideA: bool, p: Price) {
    && s.ledger < t.ledger
    && (forall l :: s.ledger < l <= t.ledger ==> p(l) == p(t.ledger))
    && Cum(t, sideA) == Wrap(Cum(s, sideA) + p(t.ledger) * (t.ledger - s.ledger))
  }

  ghost predicate Tracks(live: seq<Sample>, sideA: bool, p: Price) {
    && (forall i :: 0 <= i < |live| ==> InI128(Cum(live[i], sideA)))
    && (forall i :: 0 < i < |live| ==> Link(live[i - 1], live[i], sideA, p))
  }

  lemma {:induction false} TracksOrder(live: seq<Sample>, sideA: bool, p: Price, i: nat, j: nat)
    requires Tracks(live, sideA, p) && i < j < |live|
    ensures live[i].ledger < live[j].ledger
    decreases j
  {
    assert Link(live[j - 1], live[j], sideA, p);
    if i < j - 1 {
      TracksOrder(live, sideA, p, i, j - 1);
    }
  }

  lemma TracksIncreasing(live: seq<Sample>, sideA: bool, p: Price)
    requires Tracks(live, sideA, p)
    ensures Increasing(live)
  {
    forall i, j | 0 <= i < j < |live| ensures live[i].ledger < live[j].ledger {
      TracksOrder(live, sideA, p, i, j);
    }
  }

  /** Modulo 2^128 one more step adds to the difference of two accumulators. */
  lemma DifferenceCore(cum: int, c: int, step: int, before: int)
    requires Wrap(cum - c) == Wrap(before) && InI128(c)
    ensures Wrap(Wrap(cum + step) - c) == Wrap(before + step)
  {
    WrapSub(cum + step, c);
    WrapExact(c);
    WrapAdd(cum - c, step);
    WrapAdd(before, step);
  }

  /** Between any two samples the accumulators differ by the summed price, modulo 2^128. */
  lemma {:induction false} AccumulatorDifference(live: seq<Sample>, sideA: bool, p: Price, i: nat, j: nat)
    requires Tracks(live, sideA, p) && i <= j < |live|
    ensures live[i].ledger <= live[j].ledger
    ensures Wrap(Cum(live[j], sideA) - Cum(live[i], sideA)) == Wrap(SumPrice(p, live[i].ledger, live[j].ledger))
    decreases j
  {
    if i < j {
      var s, t, c := live[j - 1], live[j], Cum(live[i], sideA);
      assert Link(s, t, sideA, p);
      AccumulatorDifference(live, sideA, p, i, j - 1);
      var before := SumPrice(p, live[i].ledger, s.ledger);
      var step := p(t.ledger) * (t.ledger - s.ledger);
      SumPriceSplit(p, live[i].ledger, s.ledger, t.ledger);
      SumPriceBetween(p, s.ledger, t.ledger, p(t.ledger), p(t.ledger));
      DifferenceCore(Cum(s, sideA), c, step, before);
    }
  }

  /** On increasing samples the scan brackets the target between neighbours. */
  lemma {:induction false} ScanBrackets(live: seq<Sample>, target: nat, i: nat, start: Sample, end: Sample) returns (k: nat)
    requires Increasing(live) && i < |live| && live[0].ledger <= target <= live[|live| - 1].ledger
    requires forall j :: 0 <= j < i ==> live[j].ledger < target
    requires end == live[0] && start == (if i == 0 then live[0] else live[i - 1])
    ensures k < |live| && target <= live[k].ledger
    ensures live[k].ledger != target ==> 0 < k && live[k - 1].ledger < target
    ensures Scan(live, target, i, start, end)
         == (if live[k].ledger == target then live[k] else live[k - 1], live[k])
    decreases |live| - i
  {
    if live[i].ledger >= target {
      k := i;
    } else {
      assert i + 1 < |live|;
      k := ScanBrackets(live, target, i + 1, live[i], end);
    }
  }

  lemma InterpolateCore(start: int, end: int, total: int, part: int, startLedger: nat, endLedger: nat, target: nat)
    requires startLedger < target <= endLedger && Wrap(end - start) == total
    requires total * (target - startLedger) == part * (endLedger - startLedger)
    requires Interpolate(start, end, startLedger, endLedger, target).Ok?
    ensures Interpolate(start, end, startLedger, endLedger, target) == Ok(Wrap(start + part))
  {
    TruncDivExact(part, endLedger - startLedger);
  }

  /** Interpolating inside one link is exact: it adds the summed price up to the target. */
  lemma InterpolateExact(s: Sample, e: Sample, sideA: bool, p: Price, target: nat)
    requires Link(s, e, sideA, p) && s.ledger < target <= e.ledger && InI128(Cum(s, sideA))
    requires InI128(SumPrice(p, s.ledger, e.ledger))
    requires Interpolate(Cum(s, sideA), Cum(e, sideA), s.ledger, e.ledger, target).Ok?
    ensures Interpolate(Cum(s, sideA), Cum(e, sideA), s.ledger, e.ledger, target)
         == Ok(Wrap(Cum(s, sideA) + SumPrice(p, s.ledger, target)))
  {
    var total, part := SumPrice(p, s.ledger, e.ledger), SumPrice(p, s.ledger, target);
    ConstantPrice(p, s.ledger, target, e.ledger);
    WrapSub(Cum(s, sideA) + total, Cum(s, sideA));
    WrapExact(Cum(s, sideA));
    WrapExact(total);
    InterpolateCore(Cum(s, sideA), Cum(e, sideA), total, part, s.ledger, e.ledger, target);
  }

  lemma Swapped(c: int, d: int, t: int)
    ensures c * d * t == c * t * d
  {
  }

  /** Where the price is constant its sum is proportional to the ledgers it covers. */
  lemma ConstantPrice(p: Price, lo: int, mid: int, hi: int)
    requires lo < mid <= hi && forall l :: lo < l <= hi ==> p(l) == p(hi)
    ensures SumPrice(p, lo, hi) == p(hi) * (hi - lo)
    ensures SumPrice(p, lo, hi) * (mid - lo) == SumPrice(p, lo, mid) * (hi - lo)
  {
    var c := p(hi);
    SumPriceBetween(p, lo, hi, c, c);
    SumPriceBetween(p, lo, mid, c, c);
    Swapped(c, hi - lo, mid - lo);
  }

  lemma TruncDivExact(q: int, d: int)
    requires 0 < d
    ensures TruncDiv(q * d, d) == q
  {
    if q >= 0 {
      MulMono(0, q, d);
      DivUnique(q * d, d, q);
    } else {
      MulMono(q, -1, d);
      DivUnique(-(q * d), d, -q);
    }
  }

  /** Modulo 2^128 the target's accumulator cancels out of the difference. */
  lemma DeltaCore(last: int, c: int, first: int, rest: int)
    requires Wrap(last - c) == Wrap(first + rest) && InI128(last)
    ensures Wrap(last - Wrap(c + first)) == Wrap(rest)
  {
  }

  /** The accumulated price since the target, from the interpolated start. */
  lemma WindowDelta(live: seq<Sample>, sideA: bool, p: Price, k: nat, target: nat, start: int)
    requires Tracks(live, sideA, p) && k < |live| && live[k].ledger <= target <= live[|live| - 1].ledger
    requires start == Wrap(Cum(live[k], sideA) + SumPrice(p, live[k].ledger, target))
    ensures Wrap(Cum(live[|live| - 1], sideA) - start) == Wrap(SumPrice(p, target, live[|live| - 1].ledger))
  {
    var last := live[|live| - 1];
    AccumulatorDifference(live, sideA, p, k, |live| - 1);
    SumPriceSplit(p, live[k].ledger, target, last.ledger);
    DeltaCore(Cum(last, sideA), Cum(live[k], sideA), SumPrice(p, live[k].ledger, target), SumPrice(p, target, last.ledger));
  }

  /** Prices are never negative, and what they sum to over the one interval the target
      falls inside fits the integer width. */
  ghost predicate Representable(live: seq<Sample>, p: Price, target: int) {
    && live != [] && (forall l :: 0 <= p(l))
    && forall i :: 0 < i < |live| && live[i - 1].ledger < target < live[i].ledger ==>
         SumPrice(p, live[i - 1].ledger, live[i].ledger) <= I128_MAX
  }

  lemma {:induction false} SumPriceNonneg(p: Price, lo: int, hi: int)
    requires lo <= hi && forall l :: 0 <= p(l)
    ensures 0 <= SumPrice(p, lo, hi)
    decreases hi - lo
  {
    if lo < hi {
      SumPriceNonneg(p, lo, hi - 1);
    }
  }

  /** The interpolated start of one side, wherever the target falls. */
  lemma InterpolatedStart(live: seq<Sample>, sideA: bool, p: Price, target: nat)
    requires Tracks(live, sideA, p) && Representable(live, p, target)
    requires live[0].ledger <= target <= live[|live| - 1].ledger
    ensures var (s, e) := Scan(live, target, 0, live[0], live[0]);
            var r := Interpolate(Cum(s, sideA), Cum(e, sideA), s.ledger, e.ledger, target);
            r.Ok? ==> Wrap(Cum(live[|live| - 1], sideA) - r.value) == Wrap(SumPrice(p, target, live[|live| - 1].ledger))
  {
    TracksIncreasing(live, sideA, p);
    var k := ScanBrackets(live, target, 0, live[0], live[0]);
    var (s, e) := Scan(live, target, 0, live[0], live[0]);
    if e.ledger == target {
      WrapExact(Cum(e, sideA));
      WindowDelta(live, sideA, p, k, target, Cum(e, sideA));
    } else if Interpolate(Cum(s, sideA), Cum(e, sideA), s.ledger, e.ledger, target).Ok? {
      InsideLink(live, sideA, p, k, target);
    }
  }

  lemma InsideLink(live: seq<Sample>, sideA: bool, p: Price, k: nat, target: nat)
    requires Tracks(live, sideA, p) && Representable(live, p, target) && 0 < k < |live|
    requires live[k - 1].ledger < target < live[k].ledger
    requires target <= live[|live| - 1].ledger
    requires Interpolate(Cum(live[k - 1], sideA), Cum(live[k], sideA), live[k - 1].ledger, live[k].ledger, target).Ok?
    ensures var r := Interpolate(Cum(live[k - 1], sideA), Cum(live[k], sideA), live[k - 1].ledger, live[k].ledger, target);
            Wrap(Cum(live[|live| - 1], sideA) - r.value) == Wrap(SumPrice(p, target, live[|live| - 1].ledger))
  {
    var s, e := live[k - 1], live[k];
    assert Link(s, e, sideA, p);
    TracksIncreasing(live, sideA, p);
    SumPriceNonneg(p, s.ledger, e.ledger);
    InterpolateExact(s, e, sideA, p, target);
    WindowDelta(live, sideA, p, k - 1, target, Wrap(Cum(s, sideA) + SumPrice(p, s.ledger, target)));
  }

  /** The query answers exactly when the window is within bounds, reaches back no
      further than the oldest sample, and a sample was taken in the current ledger;
      only an overflowing interpolation interferes. */
  lemma ConsultAnswersWhen(live: seq<Sample>, current: nat, window: nat)
    requires live != [] && live[|live| - 1].ledger <= current
    ensures Consult(live, current, window) == Err(OracleTrap)
         || (Consult(live, current, window).Ok?
             <==> 0 < window <= MAX_TWAP_WINDOW && live[0].ledger + window <= current == live[|live| - 1].ledger)
  {
  }

  /** The wrapped sum divides to the mean exactly when it did not wrap. */
  lemma MeanOfDelta(sum: int, window: nat)
    requires 0 <= sum && 0 < window <= MAX_TWAP_WINDOW
    ensures TruncDiv(Wrap(sum), window) == sum / window <==> sum <= I128_MAX
  {
    if sum <= I128_MAX {
      WrapExact(sum);
    } else {
      WrapRange(sum);
      WrapBelow(sum);
      DivMono(sum - TWO_128, sum, window);
      DivGalois(sum, window, 1);
      MeanDiffers(sum, Wrap(sum), window);
    }
  }

  lemma WrapBelow(sum: int)
    requires sum > I128_MAX
    ensures Wrap(sum) <= sum - TWO_128
  {
  }

  lemma MeanDiffers(sum: int, wrapped: int, window: nat)
    requires wrapped <= sum - TWO_128 && I128_MAX < sum && 0 < window <= MAX_TWAP_WINDOW
    ensures TruncDiv(wrapped, window) < sum / window
  {
    DivGalois(sum, window, 1);
    if wrapped >= 0 {
      DivFloor(wrapped, window);
      DivGalois(sum, window, wrapped / window + 1);
      assert (wrapped / window + 1) * window == wrapped / window * window + window;
    } else {
      DivNonneg(-wrapped, window);
    }
  }

  /** A successful query is the mean of the per-ledger price over the window, rounded
      down, exactly when the sum over that window fits the integer width; whether the
      accumulators themselves wrapped around makes no difference. */
  lemma TwapIsWindowMean(live: seq<Sample>, pA: Price, pB: Price, current: nat, window: nat)
    requires Tracks(live, true, pA) && Tracks(live, false, pB)
    requires Representable(live, pA, current - window) && Representable(live, pB, current - window)
    requires live[|live| - 1].ledger <= current && Consult(live, current, window).Ok?
    ensures 0 < window <= current
    ensures var (twapA, twapB) := Consult(live, current, window).value;
            && IsMeanIfFits(twapA, pA, current - window, current) && IsMeanIfFits(twapB, pB, current - window, current)
  {
    hide Wrap, Interpolate, Scan, SumPrice;
    ConsultAnswersWhen(live, current, window);
    var target: nat := current - window;
    assert Max(current - window, 0) == target;
    InterpolatedStart(live, true, pA, target);
    InterpolatedStart(live, false, pB, target);
    SumPriceNonneg(pA, target, current);
    SumPriceNonneg(pB, target, current);
    MeanOfDelta(SumPrice(pA, target, current), window);
    MeanOfDelta(SumPrice(pB, target, current), window);
  }

  /** `twap` is the mean price of the ledgers `lo < l <= hi` if and only if their sum fits. */
  ghost predicate IsMeanIfFits(twap: int, p: Price, lo: int, hi: int)
    requires lo < hi
  {
    twap == SumPrice(p, lo, hi) / (hi - lo) <==> SumPrice(p, lo, hi) <= I128_MAX
  }

  /** The mean lies between the least and the greatest price seen in the window. */
  lemma MeanBetween(p: Price, lo: int, hi: int, low: int, high: int)
    requires lo < hi && forall l :: lo < l <= hi ==> low <= p(l) <= high
    ensures low <= SumPrice(p, lo, hi) / (hi - lo) <= high
  {
    SumPriceBetween(p, lo, hi, low, high);
    DivGalois(SumPrice(p, lo, hi), hi - lo, low);
    DivGalois(SumPrice(p, lo, hi), hi - lo, high + 1);
    assert (high + 1) * (hi - lo) == high * (hi - lo) + (hi - lo);
  }

  // ---- Every run of updates ----------------------------------------------------------

  datatype Update = Update(rA: nat, rB: nat, elapsed: nat, now: nat)

  /** The oracle together with the per-ledger prices in force: an update closes the
      interval since the previous sample at its own price. */
  datatype Replayed = Replayed(o: OracleValue, pA: Price, pB: Price)

  function Extended(p: Price, after: int, upto: int, price: int): Price {
    l => if after < l <= upto then price else p(l)
  }

  function Replay(us: seq<Update>): Replayed {
    if us == [] then Replayed(EMPTY_ORACLE, l => 0, l => 0)
    else
      var was := Replay(us[..|us| - 1]);
      var u := us[|us| - 1];
      if u.rA == 0 || u.rB == 0 || u.elapsed == 0 then was
      else Replayed(Observe(was.o, u.rA, u.rB, u.elapsed, u.now),
                    Extended(was.pA, u.now - u.elapsed, u.now, u.rB / u.rA),
                    Extended(was.pB, u.now - u.elapsed, u.now, u.rA / u.rB))
  }

  function Newest(o: OracleValue): nat {
    if o.live == [] then 0 else o.live[|o.live| - 1].ledger
  }

  /** Every update passes the ledgers elapsed since the previous sample. */
  predicate WellTimed(us: seq<Update>) {
    us == [] ||
    (WellTimed(us[..|us| - 1]) &&
     var o := Replay(us[..|us| - 1]).o;
     var u := us[|us| - 1];
     o.live != [] ==> u.now == Newest(o) + u.elapsed)
  }

  ghost predicate ReplayOk(r: Replayed) {
    && Tracks(r.o.live, true, r.pA) && Tracks(r.o.live, false, r.pB)
    && (r.o.live != [] ==> r.o.cumA == r.o.live[|r.o.live| - 1].cumA && r.o.cumB == r.o.live[|r.o.live| - 1].cumB)
    && (forall l :: 0 <= r.pA(l) && 0 <= r.pB(l))
    && |r.o.live| <= MAX_OBSERVATIONS
  }

  lemma LinkCarriesOver(s: Sample, t: Sample, sideA: bool, p: Price, last: int, now: int, price: int)
    requires Link(s, t, sideA, p) && t.ledger <= last
    ensures Link(s, t, sideA, Extended(p, last, now, price))
  {
  }

  /** Dropping expired samples and appending the next one keeps the chain. */
  lemma TracksAppend(live: seq<Sample>, sideA: bool, p: Price, now: nat, price: int, s: Sample)
    requires Tracks(live, sideA, p) && InI128(Cum(s, sideA)) && s.ledger == now
    requires live != [] ==> var last := live[|live| - 1];
               last.ledger < now && Cum(s, sideA) == Wrap(Cum(last, sideA) + price * (now - last.ledger))
    ensures forall from: int :: live != [] ==> from == live[|live| - 1].ledger ==>
              Tracks(Appended(Pruned(live, now), s), sideA, Extended(p, from, now, price))
    ensures live == [] ==> forall p' :: Tracks(Appended(Pruned(live, now), s), sideA, p')
  {
    hide Wrap, Pruned;
    var kept := Pruned(live, now);
    var next := Appended(kept, s);
    if live != [] {
      var last := live[|live| - 1];
      var p' := Extended(p, last.ledger, now, price);
      assert Link(last, s, sideA, p');
      var drop := |live| + 1 - |next|;
      assert forall i :: 0 <= i < |next| ==> next[i] == (live + [s])[i + drop];
      forall i | 0 < i < |next|
        ensures Link(next[i - 1], next[i], sideA, p')
      {
        var j := i + drop;
        if j < |live| {
          assert Link(live[j - 1], live[j], sideA, p);
          if j < |live| - 1 {
            TracksOrder(live, sideA, p, j, |live| - 1);
          }
          LinkCarriesOver(live[j - 1], live[j], sideA, p, last.ledger, now, price);
        }
      }
    }
  }

  lemma {:induction false} ReplayTracks(us: seq<Update>)
    requires WellTimed(us)
    ensures ReplayOk(Replay(us))
    decreases |us|
  {
    hide Observe;
    if us != [] {
      ReplayTracks(us[..|us| - 1]);
      var was := Replay(us[..|us| - 1]);
      var u := us[|us| - 1];
      if u.rA != 0 && u.rB != 0 && u.elapsed != 0 {
        ReplayStep(was, u);
      }
    }
  }

  lemma ReplayStep(was: Replayed, u: Update)
    requires ReplayOk(was) && u.rA != 0 && u.rB != 0 && u.elapsed != 0
    requires was.o.live != [] ==> u.now == Newest(was.o) + u.elapsed
    ensures ReplayOk(Replayed(Observe(was.o, u.rA, u.rB, u.elapsed, u.now),
                    Extended(was.pA, u.now - u.elapsed, u.now, u.rB / u.rA),
                    Extended(was.pB, u.now - u.elapsed, u.now, u.rA / u.rB)))
  {
    hide Wrap, Pruned, Link;
    var o := Observe(was.o, u.rA, u.rB, u.elapsed, u.now);
    var priceA, priceB := u.rB / u.rA, u.rA / u.rB;
    DivNonneg(u.rB, u.rA);
    DivNonneg(u.rA, u.rB);
    WrapRange(was.o.cumA + Wrap(priceA * u.elapsed));
    WrapRange(was.o.cumB + Wrap(priceB * u.elapsed));
    var s := Sample(u.now, o.cumA, o.cumB);
    if was.o.live != [] {
      WrapExact(was.o.cumA);
      WrapExact(was.o.cumB);
      WrapAdd(was.o.cumA, priceA * u.elapsed);
      WrapAdd(was.o.cumB, priceB * u.elapsed);
    }
    TracksAppend(was.o.live, true, was.pA, u.now, priceA, s);
    TracksAppend(was.o.live, false, was.pB, u.now, priceB, s);
  }

  // ---- When the accumulators are exact -----------------------------------------------

  /** What an update adds to one accumulator, without any integer width: the integer
      price times the ledgers it was in force. */
  function Added(u: Update, sideA: bool): nat {
    if u.rA == 0 || u.rB == 0 || u.elapsed == 0 then 0
    else
      DivNonneg(u.rB, u.rA);
      DivNonneg(u.rA, u.rB);
      (if sideA then u.rB / u.rA else u.rA / u.rB) * u.elapsed
  }

  function Exactly(us: seq<Update>, sideA: bool): nat {
    if us == [] then 0 else Exactly(us[..|us| - 1], sideA) + Added(us[|us| - 1], sideA)
  }

  lemma FitsExactly(x: nat)
    ensures Wrap(x) == x <==> x <= I128_MAX
  {
    WrapRange(x);
    if x <= I128_MAX {
      WrapExact(x);
    }
  }

  /** An update that is not skipped advances both accumulators by what it adds. */
  lemma AdvanceAdds(u: Update, a: int, b: int)
    ensures u.rA == 0 || u.rB == 0 || u.elapsed == 0 ==> Added(u, true) == 0 == Added(u, false)
    ensures u.rA != 0 && u.rB != 0 && u.elapsed != 0 ==>
              && Advance(Wrap(a), u.rB, u.rA, u.elapsed) == Wrap(a + Added(u, true))
              && Advance(Wrap(b), u.rA, u.rB, u.elapsed) == Wrap(b + Added(u, false))
  {
    if u.rA != 0 && u.rB != 0 && u.elapsed != 0 {
      WrapAdd(a, Added(u, true));
      WrapAdd(b, Added(u, false));
    }
    hide Wrap;
  }

  lemma ReplayAdds(us: seq<Update>, a: int, b: int)
    requires us != [] && Replay(us[..|us| - 1]).o.cumA == Wrap(a) && Replay(us[..|us| - 1]).o.cumB == Wrap(b)
    ensures var u := us[|us| - 1];
            Replay(us).o.cumA == Wrap(a + Added(u, true)) && Replay(us).o.cumB == Wrap(b + Added(u, false))
  {
    hide Wrap, Advance, Appended, Pruned, Added, Replay;
    AdvanceAdds(us[|us| - 1], a, b);
    ReplayUnfolds(us);
  }

  lemma ReplayUnfolds(us: seq<Update>)
    requires us != []
    ensures var was, u := Replay(us[..|us| - 1]).o, us[|us| - 1];
            Replay(us).o == Observe(was, u.rA, u.rB, u.elapsed, u.now)
  {
    hide Recorded, Advance, Extended;
  }

  /** Over every run of updates, however timed, an accumulator is the summed price modulo
      2^128; so it is the summed price exactly as long as that fits `i128`. */
  lemma {:induction false} AccumulatorsExactWhile(us: seq<Update>)
    ensures var o := Replay(us).o;
            && o.cumA == Wrap(Exactly(us, true)) && o.cumB == Wrap(Exactly(us, false))
            && (o.cumA == Exactly(us, true) <==> Exactly(us, true) <= I128_MAX)
            && (o.cumB == Exactly(us, false) <==> Exactly(us, false) <= I128_MAX)
    decreases |us|
  {
    hide Wrap, Added, Observe;
    FitsExactly(Exactly(us, true));
    FitsExactly(Exactly(us, false));
    FitsExactly(0);
    if us != [] {
      AccumulatorsExactWhile(us[..|us| - 1]);
      ReplayAdds(us, Exactly(us[..|us| - 1], true), Exactly(us[..|us| - 1], false));
    }
  }

  /** Two updates of a pool at the largest price: the second one wraps. */
  lemma AccumulatorWraps()
    ensures var us := [Update(1, I128_MAX, 1, 1), Update(1, I128_MAX, 1, 2)];
            WellTimed(us) && Exactly(us, true) == 2 * I128_MAX && Replay(us).o.cumA == -2
  {
    hide Replay, Observe, Wrap, Added;
    var first, second := Update(1, I128_MAX, 1, 1), Update(1, I128_MAX, 1, 2);
    var us := [first, second];
    assert us[..1] == [first];
    FirstUpdate(first);
    AccumulatorsExactWhile(us);
    LargestPrice(first);
    LargestPrice(second);
  }

  lemma LargestPrice(u: Update)
    requires u.rA == 1 && u.rB == I128_MAX && u.elapsed == 1
    ensures Added(u, true) == I128_MAX && Wrap(2 * I128_MAX) == -2
  {
  }

  lemma FirstUpdate(u: Update)
    requires u.rA != 0 && u.rB != 0 && u.elapsed != 0
    ensures WellTimed([u]) && Newest(Replay([u]).o) == u.now && Exactly([u], true) == Added(u, true)
  {
    hide Wrap, Advance, Added;
    assert [u][..0] == [];
  }

  /** Over every well-timed run of updates, with any pruning and eviction it caused, a
      successful query is the rounded-down mean of the prices in force in each ledger of
      the window; accumulators may wrap any number of times. */
  lemma TwapOverEveryRun(us: seq<Update>, current: nat, window: nat)
    requires WellTimed(us)
    requires var r := Replay(us); Newest(r.o) <= current && Consult(r.o.live, current, window).Ok?
    requires var r := Replay(us); Representable(r.o.live, r.pA, current - window) && Representable(r.o.live, r.pB, current - window)
    ensures var r := Replay(us);
            && 0 < window <= current
            && var (twapA, twapB) := Consult(r.o.live, current, window).value;
            && IsMeanIfFits(twapA, r.pA, current - window, current) && IsMeanIfFits(twapB, r.pB, current - window, current)
  {
    hide Replay, Consult, WellTimed, Tracks;
    ReplayTracks(us);
    var r := Replay(us);
    TwapIsWindowMean(r.o.live, r.pA, r.pB, current, window);
  }

  // ---- The ring buffer ---------------------------------------------------------------

  /** Physical slot of the `i`-th live sample. */
  function Slot(head: nat, i: nat): nat {
    (head + i) % MAX_OBSERVATIONS
  }

  /** While slots are still being appended, the live samples end where `slots` ends;
      once all slots exist, head and count may be anything in range. */
  predicate RingOk(slots: seq<Sample>, head: nat, count: nat) {
    && head < MAX_OBSERVATIONS && count <= MAX_OBSERVATIONS && |slots| <= MAX_OBSERVATIONS
    && (|slots| < MAX_OBSERVATIONS ==> head + count == |slots|)
  }

  /** The plain sequence a ring stands for. */
  function LiveOf(slots: seq<Sample>, head: nat, count: nat): (live: seq<Sample>)
    requires RingOk(slots, head, count)
    ensures |live| == count
  {
    seq(count, i requires 0 <= i < count => slots[Slot(head, i)])
  }

  lemma DropOldest(slots: seq<Sample>, head: nat, count: nat)
    requires RingOk(slots, head, count) && 0 < count
    ensures slots[head] == LiveOf(slots, head, count)[0]
    ensures RingOk(slots, (head + 1) % MAX_OBSERVATIONS, count - 1)
    ensures LiveOf(slots, (head + 1) % MAX_OBSERVATIONS, count - 1) == LiveOf(slots, head, count)[1..]
  {
    var next: nat := (head + 1) % MAX_OBSERVATIONS;
    assert forall i :: 0 <= i < count - 1 ==> Slot(next, i) == Slot(head, i + 1);
  }

  lemma AppendNewest(slots: seq<Sample>, head: nat, count: nat, s: Sample)
    requires RingOk(slots, head, count) && count < MAX_OBSERVATIONS
    ensures var index := Slot(head, count);
            var slots' := if index < |slots| then slots[index := s] else slots + [s];
            RingOk(slots', head, count + 1) && LiveOf(slots', head, count + 1) == LiveOf(slots, head, count) + [s]
  {
  }

  lemma ReplaceOldest(slots: seq<Sample>, head: nat, s: Sample)
    requires RingOk(slots, head, MAX_OBSERVATIONS)
    ensures var slots', head' := slots[head := s], (head + 1) % MAX_OBSERVATIONS;
            RingOk(slots', head', MAX_OBSERVATIONS)
            && LiveOf(slots', head', MAX_OBSERVATIONS) == LiveOf(slots, head, MAX_OBSERVATIONS)[1..] + [s]
  {
  }

  datatype RingOp = PushOp(s: Sample) | PruneOp(now: nat)

  /** The same operations on the plain sequence. */
  function AfterOps(live: seq<Sample>, ops: seq<RingOp>): seq<Sample>
    decreases |ops|
  {
    if ops == [] then live
    else
      match ops[0]
      case PushOp(s) => AfterOps(Appended(live, s), ops[1..])
      case PruneOp(now) => AfterOps(Pruned(live, now), ops[1..])
  }

  class OracleState {
    var priceACumulative: int
    var priceBCumulative: int
    var slots: seq<Sample>
    var head: nat
    var count: nat

    ghost predicate Valid()
      reads this
    {
      RingOk(slots, head, count)
    }

    ghost function Live(): seq<Sample>
      requires Valid()
      reads this
    {
      LiveOf(slots, head, count)
    }

    ghost function Value(): OracleValue
      requires Valid()
      reads this
    {
      OracleValue(priceACumulative, priceBCumulative, Live())
    }

    constructor ()
      ensures Valid() && Value() == EMPTY_ORACLE
    {
      priceACumulative, priceBCumulative, slots, head, count := 0, 0, [], 0, 0;
    }

    /** `sample(i)` is the `i`-th element of the plain sequence. */
    method SampleAt(index: nat) returns (s: Option<Sample>)
      requires Valid()
      ensures s == if index < |Live()| then Some(Live()[index]) else None
    {
      if index >= count {
        return None;
      }
      return Some(slots[(head + index) % MAX_OBSERVATIONS]);
    }

    method Push(s: Sample)
      requires Valid()
      modifies this`slots, this`head, this`count
      ensures Valid() && Live() == Appended(old(Live()), s)
    {
      if count < MAX_OBSERVATIONS {
        AppendNewest(slots, head, count, s);
        var index := (head + count) % MAX_OBSERVATIONS;
        if index < |slots| {
          slots := slots[index := s];
        } else {
          slots := slots + [s];
        }
        count := count + 1;
      } else {
        ReplaceOldest(slots, head, s);
        slots := slots[head := s];
        head := (head + 1) % MAX_OBSERVATIONS;
      }
    }

    method PruneExpired(now: nat)
      requires Valid()
      modifies this`head, this`count
      ensures Valid() && Live() == Pruned(old(Live()), now)
    {
      hide LiveOf, Slot;
      ghost var was := Live();
      ghost var dropped: nat := 0;
      while count > 0 && Expired(slots[head], now)
        invariant Valid() && slots == old(slots)
        invariant dropped <= |was| && Live() == was[dropped..]
        invariant forall i :: 0 <= i < dropped ==> Expired(was[i], now)
        decreases count
      {
        DropOldest(slots, head, count);
        head := (head + 1) % MAX_OBSERVATIONS;
        count := count - 1;
        dropped := dropped + 1;
      }
      if count > 0 {
        DropOldest(slots, head, count);
      }
      assert dropped == ExpiredPrefix(was, now);
    }

    method UpdateCumulativePrices(rA: nat, rB: nat, elapsed: nat, now: nat)
      requires Valid()
      modifies this
      ensures Valid() && Value() == Observe(old(Value()), rA, rB, elapsed, now)
    {
      if rA == 0 || rB == 0 || elapsed == 0 {
        return;
      }
      priceACumulative := Advance(priceACumulative, rB, rA, elapsed);
      priceBCumulative := Advance(priceBCumulative, rA, rB, elapsed);
      Record(now);
    }

    method Record(now: nat)
      requires Valid()
      modifies this`slots, this`head, this`count
      ensures Valid() && Value() == Recorded(old(Value()), priceACumulative, priceBCumulative, now)
    {
      hide LiveOf, Appended, Pruned;
      PruneExpired(now);
      Push(Sample(now, priceACumulative, priceBCumulative));
    }

    method ConsultTwap(current: nat, window: nat) returns (r: Result<(int, int), OracleError>)
      requires Valid()
      ensures r == Consult(Live(), current, window)
    {
      hide Interpolate, TruncDiv, Wrap;
      if window == 0 {
        return Err(WindowTooShort);
      }
      if window > MAX_TWAP_WINDOW {
        return Err(WindowTooLong);
      }
      if count == 0 {
        return Err(WindowTooShort);
      }
      var target: nat := Max(current - window, 0);
      var oldest := slots[head];
      assert oldest == Live()[0] by { assert Slot(head, 0) == head; }
      if oldest.ledger > target {
        return Err(WindowTooShort);
      }
      var start, end := oldest, oldest;
      ghost var answer := Scan(Live(), target, 0, oldest, oldest);
      var i := 0;
      while i < count
        invariant i <= count
        invariant Scan(Live(), target, i, start, end) == answer
      {
        var s := slots[(head + i) % MAX_OBSERVATIONS];
        assert s == Live()[i];
        if s.ledger <= target {
          start := s;
        }
        if s.ledger >= target && end.ledger <= target {
          end := s;
          break;
        }
        i := i + 1;
      }
      assert (start, end) == answer;
      var a :- Interpolate(start.cumA, end.cumA, start.ledger, end.ledger, target);
      var b :- Interpolate(start.cumB, end.cumB, start.ledger, end.ledger, target);
      var latest := slots[(head + (count - 1)) % MAX_OBSERVATIONS];
      assert latest == Live()[|Live()| - 1];
      if latest.ledger < target + window {
        return Err(WindowTooShort);
      }
      var elapsed := Max(latest.ledger - target, 0);
      if elapsed == 0 {
        return Ok((0, 0));
      }
      return Ok((TruncDiv(Wrap(latest.cumA - a), elapsed), TruncDiv(Wrap(latest.cumB - b), elapsed)));
    }

    /** Any interleaving of pushes and prunes does to the ring what it does to the plain
        sequence, partly filled rings that are pruned and refilled included. */
    method Perform(ops: seq<RingOp>)
      requires Valid()
      modifies this`slots, this`head, this`count
      ensures Valid() && Live() == AfterOps(old(Live()), ops)
      ensures |slots| <= MAX_OBSERVATIONS
    {
      hide LiveOf, Appended, Pruned;
      ghost var was := Live();
      for i := 0 to |ops|
        invariant Valid() && AfterOps(Live(), ops[i..]) == AfterOps(was, ops)
      {
        assert ops[i..][1..] == ops[i + 1..];
        match ops[i] {
          case PushOp(s) => Push(s);
          case PruneOp(now) => PruneExpired(now);
        }
      }
    }
  }
}
