/**
 * The `GameplayMetric` enumeration and the per-metric tables of `GameplayMetricText`:
 * percent suffix, maximum and default decimal places; the clamped decimal-places
 * setting (`BindableNumber<int>` with range 0..5); and the metric dispatch of `getValue`.
 */
module Metrics {
  import opened Wrappers
  import Rounding
  import AttributeLookup

  datatype GameplayMetric =
    | Score
    | HP
    | Combo | LongestCombo
    | Accuracy | MaxAchievableAccuracy | MinAchievableAccuracy
    | PerformancePoints
    | UnstableRate | AverageHitError | MedianHitError | HitErrorStdDev

  /** The metrics shown as a percentage with two decimals by default. */
  const PercentageMetrics: set<GameplayMetric> := {Accuracy, MaxAchievableAccuracy, MinAchievableAccuracy, HP}

  /** The integer-valued metrics, for which decimals make no sense. */
  const ComboMetrics: set<GameplayMetric> := {Combo, LongestCombo}

  /** Declared range of the decimal-places setting. */
  const MinDecimalPlaces := 0
  const MaxDecimalPlaces := 5

  /** `appendPercent`. */
  predicate AppendPercent(m: GameplayMetric) {
    match m
    case Accuracy | MaxAchievableAccuracy | MinAchievableAccuracy | HP => true
    case _ => false
  }

  /** `getMaxPrecision`. */
  function MaxPrecision(m: GameplayMetric): (n: int)
    ensures MinDecimalPlaces <= n <= MaxDecimalPlaces
  {
    match m
    case Combo | LongestCombo => 0
    case _ => 5
  }

  /** `getDefaultPrecision`. */
  function DefaultPrecision(m: GameplayMetric): (n: int) {
    match m
    case Accuracy | MaxAchievableAccuracy | MinAchievableAccuracy | HP => 2
    case _ => 0
  }

  lemma AppendPercentIsPercentageFamily(m: GameplayMetric)
    ensures AppendPercent(m) <==> m in PercentageMetrics
  {
  }

  lemma MaxPrecisionTable(m: GameplayMetric)
    ensures MaxPrecision(m) == if m in ComboMetrics then 0 else MaxDecimalPlaces
  {
  }

  lemma DefaultPrecisionTable(m: GameplayMetric)
    ensures DefaultPrecision(m) == 2 <==> m in PercentageMetrics
    ensures m !in PercentageMetrics ==> DefaultPrecision(m) == 0
  {
  }

  /** Every default is allowed by its own maximum, which the setting's declared range allows. */
  lemma DefaultWithinMax(m: GameplayMetric)
    ensures MinDecimalPlaces <= DefaultPrecision(m) <= MaxPrecision(m) <= MaxDecimalPlaces
  {
  }

  // The decimal-places setting, a `BindableNumber<int>` with MinValue 0: setting the
  // value clamps it into [MinValue, MaxValue]; setting MaxValue re-clamps the value.

  datatype Precision = Precision(value: int, max: int)

  ghost predicate ValidPrecision(p: Precision) {
    MinDecimalPlaces <= p.value <= p.max <= MaxDecimalPlaces
  }

  /** The setting as declared: value 0 in the range 0..5. */
  const InitialPrecision := Precision(0, MaxDecimalPlaces)

  /** `DecimalPlacesBindable.Value = v`. */
  function SetValue(p: Precision, v: int): (r: Precision)
    requires MinDecimalPlaces <= p.max
    ensures r.max == p.max && MinDecimalPlaces <= r.value <= r.max
    ensures MinDecimalPlaces <= v <= p.max ==> r.value == v
  {
    p.(value := AttributeLookup.Clamp(v, MinDecimalPlaces, p.max))
  }

  /** `DecimalPlacesBindable.MaxValue = max`. */
  function SetMax(p: Precision, max: int): (r: Precision)
    requires MinDecimalPlaces <= max
    ensures r.max == max && MinDecimalPlaces <= r.value <= max
    ensures MinDecimalPlaces <= p.value <= max ==> r.value == p.value
  {
    Precision(AttributeLookup.Clamp(p.value, MinDecimalPlaces, max), max)
  }

  /** The metric-changed handler as written: the default is set while the old maximum is still in force. */
  function ResetPrecisionAsWritten(p: Precision, m: GameplayMetric): (r: Precision)
    requires ValidPrecision(p)
  {
    SetMax(SetValue(p, DefaultPrecision(m)), MaxPrecision(m))
  }

  /**
   * As written, the handler reaches the new default exactly when the old maximum
   * admits it; otherwise the value is stuck at the old maximum.
   */
  lemma ResetAsWrittenReachesDefaultIff(p: Precision, m: GameplayMetric)
    requires ValidPrecision(p)
    ensures ResetPrecisionAsWritten(p, m).max == MaxPrecision(m)
    ensures ResetPrecisionAsWritten(p, m).value == DefaultPrecision(m) <==> DefaultPrecision(m) <= p.max
    ensures DefaultPrecision(m) > p.max ==> ResetPrecisionAsWritten(p, m).value == p.max
  {
    DefaultWithinMax(m);
  }

  /** Switching from Combo (maximum 0) to Accuracy leaves 0 decimal places, not Accuracy's default 2. */
  lemma ResetAsWrittenDropsAccuracyDecimals()
    ensures var afterCombo := ResetPrecisionAsWritten(InitialPrecision, Combo);
      afterCombo == Precision(0, 0) &&
      ResetPrecisionAsWritten(afterCombo, Accuracy) == Precision(0, 5) &&
      DefaultPrecision(Accuracy) == 2
  {
  }

  /** The metric-changed handler with the maximum set first: the value is then never clamped by a stale maximum. */
  function ResetPrecision(p: Precision, m: GameplayMetric): (r: Precision)
    requires ValidPrecision(p)
  {
    SetValue(SetMax(p, MaxPrecision(m)), DefaultPrecision(m))
  }

  /** After a metric change the setting holds the metric's default, within the metric's maximum. */
  lemma ResetPrecisionIsDefault(p: Precision, m: GameplayMetric)
    requires ValidPrecision(p)
    ensures ResetPrecision(p, m) == Precision(DefaultPrecision(m), MaxPrecision(m))
    ensures ValidPrecision(ResetPrecision(p, m))
  {
    DefaultWithinMax(m);
  }

  // The metric dispatch of `getValue`. Every source is an external collaborator and
  // arrives here as a value: the populated score, the score processor's accuracy
  // bounds, the health, and the results of the performance and hit-event calculators.

  datatype ScoreState = ScoreState(totalScore: real, accuracy: real, combo: int, maxCombo: int)

  datatype Sources<-A> = Sources(
    score: ScoreState,
    maximumAccuracy: real,
    minimumAccuracy: real,
    health: real,
    performance: Option<A -> real>,  // `performanceCalculator`, null when the ruleset has none
    unstableRate: Option<real>,      // `CalculateUnstableRate(..)?.Result`
    averageHitError: Option<real>,   // `CalculateAverageHitError()`
    medianHitError: Option<real>)    // `CalculateMedianHitError()`

  function OrZero(v: Option<real>): (r: real) {
    if v.Some? then v.value else 0.0
  }

  /** The value `getValue` computes for metric `m` before rounding. */
  function RawMetric<A>(m: GameplayMetric, src: Sources<A>, attrib: A): (v: real) {
    match m
    case PerformancePoints => if src.performance.Some? then src.performance.value(attrib) else 0.0
    case Score => src.score.totalScore
    case Accuracy => src.score.accuracy * 100.0
    case MaxAchievableAccuracy => src.maximumAccuracy * 100.0
    case MinAchievableAccuracy => src.minimumAccuracy * 100.0
    case Combo => src.score.combo as real
    case HP => src.health * 100.0
    case LongestCombo => src.score.maxCombo as real
    case UnstableRate => OrZero(src.unstableRate)
    case AverageHitError => OrZero(src.averageHitError)
    case MedianHitError => OrZero(src.medianHitError)
    case HitErrorStdDev => OrZero(src.unstableRate) / 10.0
  }

  /** The hit-error standard deviation is a tenth of the unstable rate (0 for both when it is unavailable). */
  lemma StdDevIsTenthOfUnstableRate<A>(src: Sources<A>, attrib: A)
    ensures RawMetric(HitErrorStdDev, src, attrib) * 10.0 == RawMetric(UnstableRate, src, attrib)
    ensures src.unstableRate.None? ==> RawMetric(HitErrorStdDev, src, attrib) == 0.0
  {
  }

  /** Percentage metrics scale fractions in [0, 1] onto [0, 100]. */
  lemma PercentageMetricsInRange<A>(m: GameplayMetric, src: Sources<A>, attrib: A)
    requires m in PercentageMetrics
    requires 0.0 <= src.score.accuracy <= 1.0 && 0.0 <= src.health <= 1.0
    requires 0.0 <= src.maximumAccuracy <= 1.0 && 0.0 <= src.minimumAccuracy <= 1.0
    ensures 0.0 <= RawMetric(m, src, attrib) <= 100.0
  {
  }

  /** `getValue` as a value: `none` when a prerequisite is missing, else the rounded metric. */
  function MetricValue<A>(m: GameplayMetric, ready: bool, attrib: Option<A>, src: Sources<A>, decimals: nat): (r: Option<real>)
    ensures r.None? <==> !ready || attrib.None?
    ensures r.Some? ==>
      var p := Rounding.Pow10(decimals) as real;
      -0.5 <= (r.value - RawMetric(m, src, attrib.value)) * p <= 0.5
  {
    if !ready || attrib.None? then None
    else
      Rounding.RoundErrorBound(RawMetric(m, src, attrib.value), decimals);
      Some(Rounding.RoundAwayFromZero(RawMetric(m, src, attrib.value), decimals))
  }

  /** The fallback of `getValue` when a prerequisite is missing: 100 for Accuracy only, else the current target. */
  function FallbackValue(m: GameplayMetric, currentTarget: real): (v: real) {
    if m != Accuracy then currentTarget else 100.0
  }

  /** Only Accuracy falls back to 100; the other percentage metrics keep the current target like the rest. */
  lemma FallbackKeepsTargetExceptAccuracy(m: GameplayMetric, currentTarget: real)
    ensures FallbackValue(m, currentTarget) == currentTarget <==> (m != Accuracy || currentTarget == 100.0)
    ensures m == Accuracy ==> FallbackValue(m, currentTarget) == 100.0
  {
  }

  /**
   * The value `onJudgementChanged` assigns to the roller's target: the rounded metric,
   * or the fallback when a prerequisite is missing.
   */
  function JudgementTarget<A>(m: GameplayMetric, ready: bool, attrib: Option<A>, src: Sources<A>, decimals: nat, currentTarget: real): (v: real) {
    match MetricValue(m, ready, attrib, src, decimals)
    case Some(v) => v
    case None => FallbackValue(m, currentTarget)
  }

  /** With every prerequisite present the target is the metric rounded away from zero to the configured decimals. */
  lemma JudgementTargetWhenReady<A>(m: GameplayMetric, attrib: A, src: Sources<A>, decimals: nat, currentTarget: real)
    ensures JudgementTarget(m, true, Some(attrib), src, decimals, currentTarget)
      == Rounding.RoundAwayFromZero(RawMetric(m, src, attrib), decimals)
  {
    var r := MetricValue(m, true, Some(attrib), src, decimals);
    assert r == Some(Rounding.RoundAwayFromZero(RawMetric(m, src, attrib), decimals));
  }
}
