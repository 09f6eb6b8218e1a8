/** The `WarmUpCosine` learning-rate schedule: a linear warmup, a cosine
    decay and a hard cutoff to zero past the last step, with the two
    configuration errors checked on every call. */
module Schedule {
  import opened Floats

  /** The value of `np.pi` used in the cosine's argument. */
  const Pi: real := 3.141592653589793

  /** The four settings `__init__` stores; nothing reassigns them later. */
  datatype WarmUpCosine = WarmUpCosine(
    learningRateBase: real,
    totalSteps: int,
    warmupLearningRate: real,
    warmupSteps: int)

  /** The two `ValueError`s that `__call__` raises. */
  datatype ScheduleError = TotalStepsBelowWarmupSteps | BaseBelowWarmupLearningRate

  /** What one call of the schedule produces: a rate or the error it raises. */
  datatype Result = Ok(rate: Float) | Err(error: ScheduleError)

  /** The three regimes the step can fall into, in the order their guards win. */
  datatype Regime = Warmup | Decay | Expired

  /** The facts about `tf.cos` the properties rely on. */
  ghost predicate IsCosine(cos: real -> real)
  {
    (forall x :: -1.0 <= cos(x) <= 1.0) && cos(0.0) == 1.0
  }

  /** The settings for which a call returns a rate instead of raising:
      neither `ValueError` condition holds. With warmup they make the warmup
      line non-decreasing. */
  predicate Accepted(s: WarmUpCosine): (ok: bool)
    ensures ok ==> s.totalSteps >= s.warmupSteps
    ensures ok && s.warmupSteps > 0 ==> Slope(s) >= 0.0
    ensures !ok ==> s.totalSteps < s.warmupSteps ||
                    (s.warmupSteps > 0 && s.learningRateBase < s.warmupLearningRate)
  {
    s.totalSteps >= s.warmupSteps &&
    (s.warmupSteps > 0 ==> s.learningRateBase >= s.warmupLearningRate)
  }

  /** The regime of a step; later guards of the source override earlier ones,
      so the cutoff is tested first and the warmup only below the horizon. */
  function RegimeOf(s: WarmUpCosine, step: int): (g: Regime)
    ensures g == Expired <==> step > s.totalSteps
    ensures g == Warmup ==> 0 < s.warmupSteps && step < s.warmupSteps && step <= s.totalSteps
    ensures g == Decay ==> step <= s.totalSteps && (s.warmupSteps <= 0 || s.warmupSteps <= step)
  {
    if step > s.totalSteps then Expired
    else if s.warmupSteps > 0 && step < s.warmupSteps then Warmup
    else Decay
  }

  /** Rise of the warmup line per step: over the warmup length it adds up
      to the gap between the base and the warmup rate. */
  function Slope(s: WarmUpCosine): (k: real)
    requires s.warmupSteps > 0
    ensures k * s.warmupSteps as real == s.learningRateBase - s.warmupLearningRate
    ensures k >= 0.0 <==> s.learningRateBase >= s.warmupLearningRate
  {
    (s.learningRateBase - s.warmupLearningRate) / s.warmupSteps as real
  }

  /** The warmup line at a step: it starts at the warmup rate, and each
      step adds the slope. */
  function WarmupLine(s: WarmUpCosine, step: int): (v: real)
    requires s.warmupSteps > 0
    ensures step == 0 ==> v == s.warmupLearningRate
    ensures v - s.warmupLearningRate == Slope(s) * step as real
  {
    Slope(s) * step as real + s.warmupLearningRate
  }

  /** The cosine-decay value, computed for every step before the overrides.
      A zero-length decay span divides by 0.0: the argument is an infinity or
      NaN, and the cosine of either is NaN. */
  function CosineDecay(s: WarmUpCosine, cos: real -> real, step: int): (r: Float)
    ensures r.Finite? || r == NaN
    ensures r.Finite? <==> s.totalSteps != s.warmupSteps
    ensures IsCosine(cos) && r.Finite? && s.learningRateBase >= 0.0 ==>
              0.0 <= r.value <= s.learningRateBase
    ensures IsCosine(cos) && r.Finite? && step == s.warmupSteps ==>
              r.value == s.learningRateBase
  {
    var angle := Div(Pi * (step - s.warmupSteps) as real, (s.totalSteps - s.warmupSteps) as real);
    match angle
    case Finite(x) => Finite(HalfCosineScale(s.learningRateBase, cos(x)))
    case _ => NaN
  }

  /** `0.5 * base * (1 + c)`, grouped as `base * (0.5 * (1 + c))`: for a
      cosine value `c` in [-1, 1] and a non-negative base this lies between 0
      and the base, and it is the base when `c` is 1. */
  function HalfCosineScale(base: real, c: real): (v: real)
    ensures -1.0 <= c <= 1.0 && base >= 0.0 ==> 0.0 <= v <= base
    ensures c == 1.0 ==> v == base
  {
    ScaleBounds(base, CosineFactor(c));
    base * CosineFactor(c)
  }

  /** `0.5 * (1 + c)`, which maps [-1, 1] onto [0, 1] and 1 to 1. */
  function CosineFactor(c: real): (f: real)
    ensures -1.0 <= c <= 1.0 ==> 0.0 <= f <= 1.0
    ensures c == 1.0 ==> f == 1.0
  {
    0.5 * (1.0 + c)
  }

  /** Scaling a non-negative value by a factor in [0, 1] stays between 0
      and that value. */
  lemma ScaleBounds(base: real, f: real)
    ensures 0.0 <= f <= 1.0 && base >= 0.0 ==> 0.0 <= base * f <= base
    ensures f == 1.0 ==> base * f == base
  {
  }

  /** The cutoff, applied last: past the horizon the rate is 0.0, and up to
      the horizon the rate computed so far passes through unchanged. */
  function Cutoff(s: WarmUpCosine, step: int, learningRate: Float): (r: Float)
    ensures step > s.totalSteps ==> r == Finite(0.0)
    ensures step <= s.totalSteps ==> r == learningRate
  {
    if step > s.totalSteps then Finite(0.0) else learningRate
  }

  /** `WarmUpCosine.__call__`, in the source's order: the span check, the
      cosine value, then (only with warmup) the rate check and the warmup
      override, and finally the cutoff override. */
  function Call(s: WarmUpCosine, cos: real -> real, step: int): (r: Result)
    ensures r.Err? <==> !Accepted(s)
    ensures s.totalSteps < s.warmupSteps ==> r == Err(TotalStepsBelowWarmupSteps)
    ensures s.totalSteps >= s.warmupSteps && !Accepted(s) ==> r == Err(BaseBelowWarmupLearningRate)
    ensures r.Ok? && RegimeOf(s, step) == Expired ==> r.rate == Finite(0.0)
    ensures r.Ok? && RegimeOf(s, step) == Warmup ==> r.rate == Finite(WarmupLine(s, step))
    ensures r.Ok? && RegimeOf(s, step) == Decay ==> r.rate == CosineDecay(s, cos, step)
    ensures r.Ok? ==> (r.rate == NaN <==> s.totalSteps == s.warmupSteps && RegimeOf(s, step) == Decay)
    ensures r.Ok? ==> r.rate.Finite? || r.rate == NaN
  {
    if s.totalSteps < s.warmupSteps then Err(TotalStepsBelowWarmupSteps)
    else
      var learningRate := CosineDecay(s, cos, step);
      if s.warmupSteps > 0 then
        if s.learningRateBase < s.warmupLearningRate then Err(BaseBelowWarmupLearningRate)
        else
          var warmupRate := WarmupLine(s, step);
          Ok(Cutoff(s, step, if step < s.warmupSteps then Finite(warmupRate) else learningRate))
      else
        Ok(Cutoff(s, step, learningRate))
  }

  /** With accepted settings the regimes are the intervals of the step line:
      warmup below the warmup length, decay up to the horizon, expired after. */
  lemma RegimeIntervals(s: WarmUpCosine, step: int)
    requires Accepted(s)
    ensures RegimeOf(s, step) == Warmup <==> s.warmupSteps > 0 && step < s.warmupSteps
    ensures RegimeOf(s, step) == Decay <==> (s.warmupSteps <= 0 || s.warmupSteps <= step) && step <= s.totalSteps
    ensures RegimeOf(s, step) == Expired <==> step > s.totalSteps
  {
  }

  /** Without warmup the rate check is skipped: any base and warmup rate
      are accepted once the horizon is not negative. */
  lemma NoRateCheckWithoutWarmup(s: WarmUpCosine, cos: real -> real, step: int)
    requires s.warmupSteps == 0 && s.totalSteps >= 0
    ensures Call(s, cos, step).Ok?
  {
  }

  /** Past the horizon the result is exactly 0.0, whatever the warmup line
      or the cosine would give there. */
  lemma ExpiredRateIsZero(s: WarmUpCosine, cos: real -> real, step: int)
    requires Accepted(s) && step > s.totalSteps
    ensures Call(s, cos, step) == Ok(Finite(0.0))
  {
  }

  /** During warmup the result is the line through the warmup rate with the
      slope that reaches the base after the warmup length. */
  lemma WarmupRate(s: WarmUpCosine, cos: real -> real, step: int)
    requires Accepted(s) && s.warmupSteps > 0 && step < s.warmupSteps
    ensures Call(s, cos, step) == Ok(Finite(
              (s.learningRateBase - s.warmupLearningRate) / s.warmupSteps as real * step as real
              + s.warmupLearningRate))
  {
  }

  /** With warmup, step 0 yields the warmup rate exactly. */
  lemma RateAtStepZero(s: WarmUpCosine, cos: real -> real)
    requires Accepted(s) && s.warmupSteps > 0
    ensures Call(s, cos, 0) == Ok(Finite(s.warmupLearningRate))
  {
    WarmupRate(s, cos, 0);
  }

  /** Extrapolated to the warmup length, the warmup line is the base rate. */
  lemma WarmupLineReachesBase(s: WarmUpCosine)
    requires s.warmupSteps > 0
    ensures WarmupLine(s, s.warmupSteps) == s.learningRateBase
  {
  }

  /** The warmup line never decreases, and rises strictly when the base is
      above the warmup rate. */
  lemma WarmupLineMonotone(s: WarmUpCosine, i: int, j: int)
    requires s.warmupSteps > 0 && s.learningRateBase >= s.warmupLearningRate && i <= j
    ensures WarmupLine(s, i) <= WarmupLine(s, j)
    ensures s.learningRateBase > s.warmupLearningRate && i < j ==> WarmupLine(s, i) < WarmupLine(s, j)
  {
  }

  /** Over the warmup steps the line stays between the warmup rate and the
      base, strictly below the base when the base is above the warmup rate. */
  lemma WarmupLineBounds(s: WarmUpCosine, step: int)
    requires s.warmupSteps > 0 && s.learningRateBase >= s.warmupLearningRate
    requires 0 <= step < s.warmupSteps
    ensures s.warmupLearningRate <= WarmupLine(s, step) <= s.learningRateBase
    ensures s.learningRateBase > s.warmupLearningRate ==> WarmupLine(s, step) < s.learningRateBase
  {
    WarmupLineMonotone(s, 0, step);
    WarmupLineMonotone(s, step, s.warmupSteps);
    WarmupLineReachesBase(s);
  }

  /** Over the warmup steps the scheduled rate rises with the step and stays
      within [warmup rate, base]. */
  lemma RateRisesDuringWarmup(s: WarmUpCosine, cos: real -> real, i: int, j: int)
    requires Accepted(s) && s.warmupSteps > 0
    requires 0 <= i <= j < s.warmupSteps
    ensures Call(s, cos, i).Ok? && Call(s, cos, i).rate.Finite?
    ensures Call(s, cos, j).Ok? && Call(s, cos, j).rate.Finite?
    ensures Call(s, cos, i).rate.value <= Call(s, cos, j).rate.value
    ensures s.learningRateBase > s.warmupLearningRate && i < j ==>
              Call(s, cos, i).rate.value < Call(s, cos, j).rate.value
    ensures s.warmupLearningRate <= Call(s, cos, i).rate.value <= s.learningRateBase
  {
    WarmupLineMonotone(s, i, j);
    WarmupLineBounds(s, i);
  }

  /** In the decay regime with a non-empty span the rate is the finite cosine
      value; with a non-negative base it lies in [0, base]. */
  lemma DecayRate(s: WarmUpCosine, cos: real -> real, step: int)
    requires Accepted(s) && IsCosine(cos) && s.totalSteps > s.warmupSteps
    requires s.warmupSteps <= step <= s.totalSteps
    ensures Call(s, cos, step).Ok? && Call(s, cos, step).rate.Finite?
    ensures Call(s, cos, step).rate == CosineDecay(s, cos, step)
    ensures s.learningRateBase >= 0.0 ==> 0.0 <= Call(s, cos, step).rate.value <= s.learningRateBase
  {
  }

  /** The decay starts at the base rate, which is where the warmup line
      arrives: the two regimes meet without a jump. */
  lemma ContinuousAtWarmupEnd(s: WarmUpCosine, cos: real -> real)
    requires Accepted(s) && IsCosine(cos) && s.warmupSteps > 0 && s.totalSteps > s.warmupSteps
    ensures Call(s, cos, s.warmupSteps) == Ok(Finite(s.learningRateBase))
    ensures Call(s, cos, s.warmupSteps) == Ok(Finite(WarmupLine(s, s.warmupSteps)))
  {
    WarmupLineReachesBase(s);
  }

  /** A zero-length decay span is not an error: the result is NaN exactly at
      the steps of the decay regime, which is the last step alone when there
      is warmup, and every step up to the horizon when there is none. */
  lemma ZeroSpanYieldsNaN(s: WarmUpCosine, cos: real -> real, step: int)
    requires Accepted(s) && s.totalSteps == s.warmupSteps
    ensures Call(s, cos, step).Ok?
    ensures Call(s, cos, step) == Ok(NaN) <==>
              step == s.totalSteps || (s.totalSteps <= 0 && step < s.totalSteps)
  {
  }

  /** From step 0 on, with non-negative rates, every call succeeds and a
      finite rate lies in [0, base], whatever the regime. */
  lemma RateInRange(s: WarmUpCosine, cos: real -> real, step: int)
    requires Accepted(s) && IsCosine(cos)
    requires s.learningRateBase >= 0.0 && s.warmupLearningRate >= 0.0 && step >= 0
    ensures Call(s, cos, step).Ok?
    ensures Call(s, cos, step).rate.Finite? ==> 0.0 <= Call(s, cos, step).rate.value <= s.learningRateBase
  {
    if s.warmupSteps > 0 && step < s.warmupSteps {
      WarmupLineBounds(s, step);
    }
  }

  /** The schedule the notebook builds: base 0.03, warmup rate 0.006,
      10 warmup steps, and a horizon computed from the data. */
  function NotebookSchedule(totalSteps: int): (s: WarmUpCosine)
    ensures s.warmupSteps == 10 && s.totalSteps == totalSteps
    ensures Accepted(s) <==> totalSteps >= 10
  {
    WarmUpCosine(0.03, totalSteps, 0.006, 10)
  }

  /** The notebook's schedule starts at 0.006, climbs by 0.0024 per step,
      reaches 0.03 at step 10, is 0.0 past its horizon, and fails on every
      call when the horizon is shorter than the warmup. */
  lemma NotebookScheduleValues(totalSteps: int, cos: real -> real, late: int)
    requires IsCosine(cos) && totalSteps > 10 && late > totalSteps
    ensures Call(NotebookSchedule(totalSteps), cos, 0) == Ok(Finite(0.006))
    ensures Call(NotebookSchedule(totalSteps), cos, 5) == Ok(Finite(0.018))
    ensures Call(NotebookSchedule(totalSteps), cos, 10) == Ok(Finite(0.03))
    ensures Call(NotebookSchedule(totalSteps), cos, late) == Ok(Finite(0.0))
    ensures Call(NotebookSchedule(5), cos, late) == Err(TotalStepsBelowWarmupSteps)
  {
    var s := NotebookSchedule(totalSteps);
    WarmupRate(s, cos, 0);
    WarmupRate(s, cos, 5);
    ContinuousAtWarmupEnd(s, cos);
  }
}
