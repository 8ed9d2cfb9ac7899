/** The volatility-driven swap fee: a capped moving average and its decay. */
module DynamicFee {
  import opened Base
  import opened Arith

  const SCALE: int := 100_000_000_000_000
  const SCALE_TO_BPS: int := 10_000_000_000
  const MAX_DECAY_PERIODS: nat := 64
  const DEFAULT_STALE_LEDGER_THRESHOLD: nat := 100

  datatype FeeError = FeeInvalidInput | FeeInvalidEmaAlpha | FeeOverflow

  datatype FeeState = FeeState(
    volAccumulator: int,
    emaAlpha: int,
    baselineFeeBps: nat,
    minFeeBps: nat,
    maxFeeBps: nat,
    rampUpMultiplier: nat,
    cooldownDivisor: nat,
    lastFeeUpdate: nat,
    decayThresholdBlocks: nat,
    staleThreshold: nat)

  const INITIAL_FEES := FeeState(0, 10_000_000_000_000, 30, 10, 100, 2, 2, 0, 100, DEFAULT_STALE_LEDGER_THRESHOLD)

  function Clamp(x: int, lo: nat, hi: nat): nat {
    if x < lo then lo else if x > hi then hi else x
  }

  /** The fee before it is clamped. */
  function RawFee(fs: FeeState): int {
    Saturate(fs.baselineFeeBps + TruncDiv(Saturate(fs.volAccumulator * fs.rampUpMultiplier), SCALE_TO_BPS))
  }

  function ComputeFee(fs: FeeState): nat {
    if fs.volAccumulator == 0 then Clamp(fs.baselineFeeBps, fs.minFeeBps, fs.maxFeeBps)
    else Clamp(RawFee(fs), fs.minFeeBps, fs.maxFeeBps)
  }

  // ---- Decay -------------------------------------------------------------------------

  function DecayPeriods(fs: FeeState, ledger: nat): nat {
    var elapsed := Max(ledger - fs.lastFeeUpdate, 0);
    var periods := elapsed / Max(fs.decayThresholdBlocks, 1);
    DivNonneg(elapsed, Max(fs.decayThresholdBlocks, 1));
    Min(periods, MAX_DECAY_PERIODS)
  }

  function DecayDivisor(fs: FeeState): nat {
    Max(fs.cooldownDivisor, 2)
  }

  /** The closed form of the decay loop: one floor division by `divisor ^ periods`. */
  function Decayed(fs: FeeState, ledger: nat): FeeState {
    var periods := DecayPeriods(fs, ledger);
    if fs.volAccumulator <= 0 || periods == 0 then fs
    else
      PowPositive(DecayDivisor(fs), periods);
      fs.(volAccumulator := fs.volAccumulator / Pow(DecayDivisor(fs), periods), lastFeeUpdate := ledger)
  }

  function DecayStale(fs: FeeState, ledger: nat): FeeState {
    if ledger > fs.lastFeeUpdate + fs.staleThreshold then Decayed(fs, ledger) else fs
  }

  lemma DecayShrinks(fs: FeeState, ledger: nat)
    ensures var fs' := DecayStale(fs, ledger);
            (if fs.volAccumulator < 0 then fs' == fs else 0 <= fs'.volAccumulator <= fs.volAccumulator)
            && fs' == fs.(volAccumulator := fs'.volAccumulator, lastFeeUpdate := fs'.lastFeeUpdate)
  {
    if fs.volAccumulator > 0 {
      var p := DecayPeriods(fs, ledger);
      PowPositive(DecayDivisor(fs), p);
      DivNonneg(fs.volAccumulator, Pow(DecayDivisor(fs), p));
    }
  }

  /** Exactly when decay changes nothing: within the stale threshold of the last stamp, for
      an accumulator that is not positive, or before one decay period has passed. */
  lemma DecayInertExactly(fs: FeeState, ledger: nat)
    ensures DecayStale(fs, ledger) == fs
       <==> || ledger <= fs.lastFeeUpdate + fs.staleThreshold
            || fs.volAccumulator <= 0
            || ledger < fs.lastFeeUpdate + Max(fs.decayThresholdBlocks, 1)
  {
    var elapsed, threshold := Max(ledger - fs.lastFeeUpdate, 0), Max(fs.decayThresholdBlocks, 1);
    DivNonneg(elapsed, threshold);
    DivGalois(elapsed, threshold, 1);
    var p := DecayPeriods(fs, ledger);
    if fs.volAccumulator > 0 && p > 0 {
      PowPositive(DecayDivisor(fs), p);
      PowPositive(DecayDivisor(fs), p - 1);
      MulMono(1, Pow(DecayDivisor(fs), p - 1), DecayDivisor(fs));
      HalvedIsLess(fs.volAccumulator, Pow(DecayDivisor(fs), p));
    }
  }

  lemma HalvedIsLess(v: int, d: int)
    requires 0 < v && 2 <= d
    ensures v / d < v
  {
    DivGalois(v, d, v);
    MulMono(2, d, v);
  }

  /** An update stamps the timestamp; no decay follows until the ledger number has caught
      up with it, the stale threshold included. */
  lemma StampSuspendsDecay(fs: FeeState, priceDelta: int, tradeSize: int, totalReserve: int, timestamp: nat, ledger: nat)
    requires Updated(fs, priceDelta, tradeSize, totalReserve, timestamp).Ok? && ledger <= timestamp + fs.staleThreshold
    ensures var fs' := Updated(fs, priceDelta, tradeSize, totalReserve, timestamp).value; DecayStale(fs', ledger) == fs'
  {
    hide Observation, Blend, MaxVolatility;
    DecayInertExactly(Updated(fs, priceDelta, tradeSize, totalReserve, timestamp).value, ledger);
  }

  /** The fee is monotone in a non-negative accumulator. */
  lemma FeeMonotone(fs: FeeState, low: nat, high: nat)
    requires low <= high && fs.minFeeBps <= fs.maxFeeBps && fs.baselineFeeBps <= U32_MAX
    ensures ComputeFee(fs.(volAccumulator := low)) <= ComputeFee(fs.(volAccumulator := high))
  {
    MulMono(low, high, fs.rampUpMultiplier);
    var a, b := Saturate(low * fs.rampUpMultiplier), Saturate(high * fs.rampUpMultiplier);
    assert 0 <= low * fs.rampUpMultiplier;
    DivMono(a, b, SCALE_TO_BPS);
    DivMono(0, a, SCALE_TO_BPS);
    if low == 0 {
      assert low * fs.rampUpMultiplier == 0;
    }
  }

  /** Decay, however long the pool was idle, never raises the fee, for every
      configuration whose baseline fits its 32-bit field and whose bounds are ordered. */
  lemma DecayNeverRaisesFee(fs: FeeState, ledger: nat)
    requires fs.minFeeBps <= fs.maxFeeBps && fs.baselineFeeBps <= U32_MAX
    ensures ComputeFee(DecayStale(fs, ledger)) <= ComputeFee(fs)
  {
    DecayShrinks(fs, ledger);
    var fs' := DecayStale(fs, ledger);
    if fs.volAccumulator >= 0 {
      FeeMonotone(fs, fs'.volAccumulator, fs.volAccumulator);
      assert fs.(volAccumulator := fs.volAccumulator) == fs;
      assert ComputeFee(fs') == ComputeFee(fs.(volAccumulator := fs'.volAccumulator));
    }
  }

  // ---- Volatility update -------------------------------------------------------------

  function MaxVolatility(fs: FeeState): int
    requires fs.rampUpMultiplier > 0
  {
    var headroom := Saturate(fs.maxFeeBps - fs.baselineFeeBps);
    TruncDiv(Saturate(headroom * SCALE_TO_BPS), fs.rampUpMultiplier)
  }

  function Observation(priceDelta: int, tradeSize: int, totalReserve: int): Result<int, FeeError> {
    var scaled :- I128(tradeSize * SCALE, FeeOverflow);
    var weight :- CheckedDiv(scaled, totalReserve, FeeOverflow);
    var weighted :- I128(priceDelta * weight, FeeOverflow);
    CheckedDiv(weighted, SCALE, FeeOverflow)
  }

  function Blend(alpha: int, observation: int, previous: int): Result<int, FeeError> {
    var alphaTerm :- I128(alpha * observation, FeeOverflow);
    var prevTerm :- I128((SCALE - alpha) * previous, FeeOverflow);
    var total :- I128(alphaTerm + prevTerm, FeeOverflow);
    CheckedDiv(total, SCALE, FeeOverflow)
  }

  function Updated(fs: FeeState, priceDelta: int, tradeSize: int, totalReserve: int, now: nat): Result<FeeState, FeeError> {
    var _ :- Need(priceDelta >= 0 && tradeSize > 0 && totalReserve > 0, FeeInvalidInput);
    var _ :- Need(0 <= fs.emaAlpha <= SCALE, FeeInvalidEmaAlpha);
    var observation :- Observation(priceDelta, tradeSize, totalReserve);
    var blended :- Blend(fs.emaAlpha, observation, fs.volAccumulator);
    var capped := if fs.rampUpMultiplier > 0 then Min(blended, MaxVolatility(fs)) else blended;
    Ok(fs.(volAccumulator := capped, lastFeeUpdate := now))
  }

  /** The configuration `initialize` installs; only the stale threshold is ever changed. */
  predicate ConfigOk(fs: FeeState) {
    && 0 <= fs.emaAlpha <= SCALE
    && fs.minFeeBps <= fs.maxFeeBps <= 100
    && fs.baselineFeeBps <= fs.maxFeeBps
    && 0 < fs.rampUpMultiplier
  }

  /** The invariant of the fee state: a usable configuration and an accumulator
      between zero and the cap. */
  predicate FeeInv(fs: FeeState) {
    ConfigOk(fs) && 0 <= fs.volAccumulator <= MaxVolatility(fs)
  }

  /** A moving average lies between what it averages. */
  lemma BlendBetween(alpha: int, observation: int, previous: int)
    requires 0 <= alpha <= SCALE && 0 <= observation && 0 <= previous
    requires Blend(alpha, observation, previous).Ok?
    ensures Min(observation, previous) <= Blend(alpha, observation, previous).value <= Max(observation, previous)
  {
    var lo, hi := Min(observation, previous), Max(observation, previous);
    var total := alpha * observation + (SCALE - alpha) * previous;
    MulMono2(alpha, lo, alpha, observation);
    MulMono2(SCALE - alpha, lo, SCALE - alpha, previous);
    MulMono2(alpha, observation, alpha, hi);
    MulMono2(SCALE - alpha, previous, SCALE - alpha, hi);
    assert alpha * lo + (SCALE - alpha) * lo == SCALE * lo;
    assert alpha * hi + (SCALE - alpha) * hi == SCALE * hi;
    DivGalois(total, SCALE, lo);
    DivGalois(total, SCALE, hi + 1);
  }

  /** The weight `alpha` belongs to the new observation: none of it keeps the old
      value, all of it replaces it, and a larger observation never lowers the blend. */
  lemma BlendFollowsAlpha(alpha: int, observation: nat, larger: nat, previous: nat)
    requires 0 <= alpha <= SCALE && observation <= larger
    ensures var r, r' := Blend(alpha, observation, previous), Blend(alpha, larger, previous);
            && (r.Ok? && alpha == 0 ==> r.value == previous)
            && (r.Ok? && alpha == SCALE ==> r.value == observation)
            && (r.Ok? && r'.Ok? ==> r.value <= r'.value)
  {
    MulMono2(alpha, observation, alpha, larger);
    MulMono2(SCALE - alpha, previous, SCALE - alpha, previous);
    DivMono(alpha * observation + (SCALE - alpha) * previous, alpha * larger + (SCALE - alpha) * previous, SCALE);
  }

  /** Observations are weighted by size: a larger trade weighs at least as much, and a
      trade no larger than the pool observes at most the price change itself. */
  lemma ObservationFollowsSize(priceDelta: nat, size: nat, larger: nat, totalReserve: nat)
    requires 0 < size <= larger && 0 < totalReserve
    ensures var r, r' := Observation(priceDelta, size, totalReserve), Observation(priceDelta, larger, totalReserve);
            && (r.Ok? && r'.Ok? ==> r.value <= r'.value)
            && (r.Ok? && size <= totalReserve ==> r.value <= priceDelta)
  {
    var weight, weight' := size * SCALE / totalReserve, larger * SCALE / totalReserve;
    DivMono(size * SCALE, larger * SCALE, totalReserve);
    DivNonneg(size * SCALE, totalReserve);
    MulMono2(priceDelta, weight, priceDelta, weight');
    DivMono(priceDelta * weight, priceDelta * weight', SCALE);
    if size <= totalReserve {
      DivGalois(size * SCALE, totalReserve, SCALE + 1);
      MulMono2(priceDelta, weight, priceDelta, SCALE);
      DivGalois(priceDelta * weight, SCALE, priceDelta + 1);
    }
  }

  lemma ObservationNonneg(priceDelta: int, tradeSize: int, totalReserve: int)
    requires 0 <= priceDelta && 0 < tradeSize && 0 < totalReserve
    requires Observation(priceDelta, tradeSize, totalReserve).Ok?
    ensures 0 <= Observation(priceDelta, tradeSize, totalReserve).value
  {
    MulMono2(0, 0, tradeSize, SCALE);
    var weight := tradeSize * SCALE / totalReserve;
    DivNonneg(tradeSize * SCALE, totalReserve);
    MulMono2(0, 0, priceDelta, weight);
    DivNonneg(priceDelta * weight, SCALE);
  }

  /** A successful update keeps the accumulator within the cap, and before the cap it
      is an average of the old value and the new observation. */
  lemma UpdateKeepsInv(fs: FeeState, priceDelta: int, tradeSize: int, totalReserve: int, now: nat)
    requires FeeInv(fs) && Updated(fs, priceDelta, tradeSize, totalReserve, now).Ok?
    ensures var fs' := Updated(fs, priceDelta, tradeSize, totalReserve, now).value;
            FeeInv(fs') && MaxVolatility(fs') == MaxVolatility(fs)
    ensures var fs' := Updated(fs, priceDelta, tradeSize, totalReserve, now).value;
            var observation := Observation(priceDelta, tradeSize, totalReserve).value;
            Min(Min(observation, fs.volAccumulator), MaxVolatility(fs)) <= fs'.volAccumulator <= Max(observation, fs.volAccumulator)
  {
    ObservationNonneg(priceDelta, tradeSize, totalReserve);
    BlendBetween(fs.emaAlpha, Observation(priceDelta, tradeSize, totalReserve).value, fs.volAccumulator);
  }

  lemma DecayKeepsInv(fs: FeeState, ledger: nat)
    requires FeeInv(fs)
    ensures FeeInv(DecayStale(fs, ledger))
  {
    DecayShrinks(fs, ledger);
  }

  /** The cap is placed so that even the unclamped fee stays at or below the maximum. */
  lemma FeeWithinBounds(fs: FeeState)
    requires FeeInv(fs)
    ensures fs.baselineFeeBps <= RawFee(fs) <= fs.maxFeeBps
    ensures fs.minFeeBps <= ComputeFee(fs) <= fs.maxFeeBps <= 100
  {
    var headroom := fs.maxFeeBps - fs.baselineFeeBps;
    var ramp := fs.rampUpMultiplier;
    DivGalois(headroom * SCALE_TO_BPS, ramp, fs.volAccumulator);
    var scaled := fs.volAccumulator * ramp;
    assert 0 <= scaled <= headroom * SCALE_TO_BPS;
    DivGalois(scaled, SCALE_TO_BPS, headroom + 1);
    DivNonneg(scaled, SCALE_TO_BPS);
  }

  // ---- The stored fee state ----------------------------------------------------------

  class FeeEngine {
    var state: FeeState

    constructor (initial: FeeState)
      ensures state == initial
    {
      state := initial;
    }

    /** The decay loop, with its early exit, computes the closed form. */
    method ApplyTimeDecay(ledger: nat)
      modifies this
      ensures state == Decayed(old(state), ledger)
    {
      var elapsed := Max(ledger - state.lastFeeUpdate, 0);
      if elapsed == 0 || state.volAccumulator <= 0 {
        if elapsed == 0 { DivUnique(0, Max(state.decayThresholdBlocks, 1), 0); }
        return;
      }
      var divisor := Max(state.cooldownDivisor, 2);
      var threshold := Max(state.decayThresholdBlocks, 1);
      DivNonneg(elapsed, threshold);
      var decayPeriods := Min(elapsed / threshold, MAX_DECAY_PERIODS);
      if decayPeriods == 0 {
        return;
      }
      ghost var v := state.volAccumulator;
      PowPositive(divisor, decayPeriods);
      for i := 0 to decayPeriods
        invariant 0 < state.volAccumulator && 0 < Pow(divisor, i)
        invariant state == old(state).(volAccumulator := v / Pow(divisor, i))
      {
        PowPositive(divisor, i);
        DivDiv(v, Pow(divisor, i), divisor);
        assert Pow(divisor, i + 1) == Pow(divisor, i) * divisor;
        DivNonneg(state.volAccumulator, divisor);
        state := state.(volAccumulator := state.volAccumulator / divisor);
        if state.volAccumulator <= 0 {
          OnceZeroStaysZero(v, divisor, i + 1, decayPeriods);
          state := state.(volAccumulator := 0);
          break;
        }
      }
      state := state.(lastFeeUpdate := ledger);
    }

    method DecayStaleEma(ledger: nat)
      modifies this
      ensures state == DecayStale(old(state), ledger)
    {
      if ledger > state.lastFeeUpdate + state.staleThreshold {
        ApplyTimeDecay(ledger);
      }
    }

    /** A failed update leaves the fee state untouched. */
    method UpdateVolatility(priceDelta: int, tradeSize: int, totalReserve: int, now: nat)
      returns (r: Outcome<FeeError>)
      modifies this
      ensures match Updated(old(state), priceDelta, tradeSize, totalReserve, now)
              case Ok(fs) => r == Pass && state == fs
              case Err(e) => r == Fail(e) && state == old(state)
    {
      if priceDelta < 0 || tradeSize <= 0 || totalReserve <= 0 {
        return Fail(FeeInvalidInput);
      }
      if state.emaAlpha < 0 || state.emaAlpha > SCALE {
        return Fail(FeeInvalidEmaAlpha);
      }
      var observation := Observation(priceDelta, tradeSize, totalReserve);
      if observation.Err? {
        return Fail(observation.error);
      }
      var blended := Blend(state.emaAlpha, observation.value, state.volAccumulator);
      if blended.Err? {
        return Fail(blended.error);
      }
      state := state.(volAccumulator := blended.value);
      if state.rampUpMultiplier > 0 {
        state := state.(volAccumulator := Min(state.volAccumulator, MaxVolatility(state)));
      }
      state := state.(lastFeeUpdate := now);
      return Pass;
    }
  }

  /** Further divisions of an accumulator that reached zero change nothing. */
  lemma OnceZeroStaysZero(v: int, d: nat, i: nat, n: nat)
    requires 0 <= v && 0 < d && i <= n && 0 < Pow(d, i) && 0 < Pow(d, n)
    requires v / Pow(d, i) <= 0
    ensures v / Pow(d, n) == 0 && v / Pow(d, i) == 0
  {
    PowMonotone(d, i, n);
    DivNonneg(v, Pow(d, i));
    DivFloor(v, Pow(d, i));
    DivUnique(v, Pow(d, n), 0);
  }

  lemma {:induction false} PowMonotone(d: nat, i: nat, n: nat)
    requires 0 < d && i <= n
    ensures Pow(d, i) <= Pow(d, n)
  {
    if i < n {
      PowMonotone(d, i, n - 1);
      PowPositive(d, n - 1);
      MulMono(1, d, Pow(d, n - 1));
    }
  }
}
