/**
 * The `GameplayMetricText` HUD component: the state its event handlers update step by
 * step (last judgement, attributes in effect, validity, the roller's target, the
 * decimal-places setting) and the text it derives from them each frame.
 */
module MetricText {
  import opened Wrappers
  import opened AttributeLookup
  import opened Metrics
  import opened Roller
  import Formatting

  /** A judgement result, reduced to the end time of its hit object. */
  datatype Judgement = Judgement(endTime: real)

  class GameplayMetricText<A> {
    // Resolved dependencies; either may be missing (`null`).
    const hasGameplayState: bool
    const hasScoreProcessor: bool

    var metric: GameplayMetric
    var precision: Precision
    var isValid: bool
    var attrib: Option<A>
    var timedAttributes: Option<seq<TimedAttribute<A>>>
    var lastJudgement: Option<Judgement>
    /** Whether the judgement and metric-changed handlers are attached. */
    var subscribed: bool
    /** The text: the format string and the argument given to `LocalisableString.Format`. */
    var textFormat: string
    var textValue: real

    const clock: ManualClock
    const roller: NumberRoller

    ghost predicate Valid()
      reads this
    {
      && ValidPrecision(precision)
      && roller.clock == clock
      && (lastJudgement.Some? ==> hasScoreProcessor)
      && (subscribed ==> hasScoreProcessor)
    }

    constructor (clock: ManualClock, ease: (real, real, real) -> real, hasGameplayState: bool, hasScoreProcessor: bool)
      ensures Valid() && fresh(roller)
      ensures this.clock == clock && roller.ease == ease
      ensures this.hasGameplayState == hasGameplayState && this.hasScoreProcessor == hasScoreProcessor
      ensures metric == PerformancePoints && precision == InitialPrecision
      ensures !isValid && attrib.None? && timedAttributes.None? && lastJudgement.None? && !subscribed
      ensures roller.State() == InitialState && roller.notified == []
    {
      this.clock := clock;
      this.hasGameplayState := hasGameplayState;
      this.hasScoreProcessor := hasScoreProcessor;
      roller := new NumberRoller(clock, ease);
      metric := PerformancePoints;
      precision := InitialPrecision;
      isValid := false;
      attrib, timedAttributes, lastJudgement := None, None, None;
      subscribed := false;
      textFormat, textValue := "", 0.0;
    }

    /** `LoadComplete`: with a score processor, attach the handlers and bound the decimals by the metric's maximum. */
    method LoadComplete()
      requires Valid()
      modifies this
      ensures Valid()
      ensures subscribed == (old(subscribed) || hasScoreProcessor)
      ensures precision == if hasScoreProcessor then SetMax(old(precision), MaxPrecision(metric)) else old(precision)
      ensures metric == old(metric) && isValid == old(isValid) && attrib == old(attrib)
      ensures timedAttributes == old(timedAttributes) && lastJudgement == old(lastJudgement)
      ensures textFormat == old(textFormat) && textValue == old(textValue)
    {
      if hasScoreProcessor {
        subscribed := true;
        precision := SetMax(precision, MaxPrecision(metric));
      }
    }

    /** `getValue`: the rounded metric, or, with a prerequisite missing, the fallback and `IsValid = false`. */
    method GetValue(src: Sources<A>) returns (v: real)
      requires Valid()
      modifies this`isValid
      ensures var mv := MetricValue(metric, hasGameplayState && hasScoreProcessor, attrib, src, precision.value);
        && v == JudgementTarget(metric, hasGameplayState && hasScoreProcessor, attrib, src, precision.value, roller.current)
        && (mv.None? ==> !isValid && v == FallbackValue(metric, roller.current))
        && (mv.Some? ==> isValid == old(isValid) && v == mv.value)
    {
      var mv := MetricValue(metric, hasGameplayState && hasScoreProcessor, attrib, src, precision.value);
      if mv.None? {
        isValid := false;
        v := if metric != Accuracy then roller.current else 100.0;
      } else {
        v := mv.value;
      }
    }

    /**
     * `onJudgementChanged`: remember the judgement, look up the attributes in effect at its
     * end time, set the roller's target to the new value, and mark the display valid.
     */
    method OnJudgementChanged(judgement: Judgement, src: Sources<A>)
      requires Valid() && hasScoreProcessor
      modifies this, roller
      ensures Valid()
      ensures lastJudgement == Some(judgement) && isValid
      ensures attrib == AttributeAtTime(old(timedAttributes), judgement.endTime)
      ensures roller.State() == Retarget(old(roller.State()),
        JudgementTarget(metric, hasGameplayState && hasScoreProcessor, attrib, src, precision.value, old(roller.current)),
        clock.currentTime)
      ensures roller.notified == old(roller.notified)
      ensures metric == old(metric) && precision == old(precision) && timedAttributes == old(timedAttributes)
      ensures subscribed == old(subscribed) && textFormat == old(textFormat) && textValue == old(textValue)
    {
      lastJudgement := Some(judgement);
      attrib := AttributeAtTime(timedAttributes, judgement.endTime);
      var value := GetValue(src);
      roller.SetTarget(value);
      isValid := true;
    }

    /**
     * Completion of the background attribute load: install the list, mark the display
     * valid, and replay the last judgement, if any, against it.
     */
    method OnTimedAttributesLoaded(list: seq<TimedAttribute<A>>, src: Sources<A>)
      requires Valid() && hasGameplayState
      modifies this, roller
      ensures Valid()
      ensures timedAttributes == Some(list) && isValid && lastJudgement == old(lastJudgement)
      ensures old(lastJudgement).None? ==>
        attrib == old(attrib) && roller.State() == old(roller.State())
      ensures old(lastJudgement).Some? ==>
        && attrib == AttributeAtTime(Some(list), old(lastJudgement).value.endTime)
        && roller.State() == Retarget(old(roller.State()),
             JudgementTarget(metric, hasScoreProcessor, attrib, src, precision.value, old(roller.current)),
             clock.currentTime)
      ensures roller.notified == old(roller.notified)
      ensures metric == old(metric) && precision == old(precision) && subscribed == old(subscribed)
      ensures textFormat == old(textFormat) && textValue == old(textValue)
    {
      timedAttributes := Some(list);
      isValid := true;
      if lastJudgement.Some? {
        OnJudgementChanged(lastJudgement.value, src);
      }
    }

    /** `updateText` (also the whole of the component's `Update`): advance the roller, then rebuild the text. */
    method UpdateText()
      requires Valid()
      modifies this, roller
      ensures Valid()
      ensures roller.State() == Tick(old(roller.State()), clock.currentTime, roller.ease)
      ensures !old(roller.IsRolling()) ==> roller.notified == old(roller.notified)
      ensures old(roller.IsRolling()) ==> roller.notified == old(roller.notified) + [roller.displayedCount]
      ensures textFormat == Formatting.DisplayFormat(precision.value, AppendPercent(metric))
      ensures textValue == roller.displayedCount
      ensures metric == old(metric) && precision == old(precision) && isValid == old(isValid)
      ensures attrib == old(attrib) && timedAttributes == old(timedAttributes)
      ensures lastJudgement == old(lastJudgement) && subscribed == old(subscribed)
    {
      roller.Update();
      textFormat := Formatting.DisplayFormat(precision.value, AppendPercent(metric));
      textValue := roller.displayedCount;
    }

    /**
     * `Metric.Value = m` and, when the value changes and the handler is attached, the
     * metric-changed handler: reset the decimal places (maximum first, see
     * `ResetPrecision`) and refresh the text.
     */
    method SetMetric(m: GameplayMetric)
      requires Valid()
      modifies this, roller
      ensures Valid()
      ensures metric == m
      ensures old(metric) != m && subscribed ==>
        && precision == Precision(DefaultPrecision(m), MaxPrecision(m))
        && roller.State() == Tick(old(roller.State()), clock.currentTime, roller.ease)
        && (old(roller.IsRolling()) ==> roller.notified == old(roller.notified) + [roller.displayedCount])
        && (!old(roller.IsRolling()) ==> roller.notified == old(roller.notified))
        && textFormat == Formatting.DisplayFormat(DefaultPrecision(m), AppendPercent(m))
        && textValue == roller.displayedCount
      ensures !(old(metric) != m && subscribed) ==>
        && precision == old(precision)
        && roller.State() == old(roller.State()) && roller.notified == old(roller.notified)
        && textFormat == old(textFormat) && textValue == old(textValue)
      ensures isValid == old(isValid) && attrib == old(attrib) && timedAttributes == old(timedAttributes)
      ensures lastJudgement == old(lastJudgement) && subscribed == old(subscribed)
    {
      if m != metric {
        metric := m;
        if subscribed {
          ResetPrecisionIsDefault(precision, metric);
          precision := ResetPrecision(precision, metric);
          UpdateText();
        }
      }
    }

    /** `DecimalPlacesBindable.Value = v` from the settings: clamped into the current range. */
    method SetDecimalPlaces(v: int)
      requires Valid()
      modifies this
      ensures Valid()
      ensures precision == SetValue(old(precision), v)
      ensures metric == old(metric) && isValid == old(isValid) && attrib == old(attrib)
      ensures timedAttributes == old(timedAttributes) && lastJudgement == old(lastJudgement)
      ensures subscribed == old(subscribed) && textFormat == old(textFormat) && textValue == old(textValue)
    {
      precision := SetValue(precision, v);
    }

    /** The unsubscription part of `Dispose`: the judgement handlers are detached. */
    method Dispose()
      requires Valid()
      modifies this
      ensures Valid() && !subscribed
      ensures metric == old(metric) && precision == old(precision) && isValid == old(isValid)
      ensures attrib == old(attrib) && timedAttributes == old(timedAttributes) && lastJudgement == old(lastJudgement)
      ensures textFormat == old(textFormat) && textValue == old(textValue)
    {
      subscribed := false;
    }
  }

  /**
   * A judgement arriving while a prerequisite is missing leaves the roller exactly as it
   * was, unless the metric is Accuracy, whose target then becomes 100.
   */
  lemma MissingDataJudgementKeepsRoller<A>(s: RollerState, m: GameplayMetric, ready: bool, attrib: Option<A>,
                                           src: Sources<A>, decimals: nat, now: real)
    requires !ready || attrib.None?
    ensures m != Accuracy ==> Retarget(s, JudgementTarget(m, ready, attrib, src, decimals, s.target), now) == s
    ensures m == Accuracy ==> Retarget(s, JudgementTarget(m, ready, attrib, src, decimals, s.target), now).target == 100.0
  {
  }

  /**
   * Once strictly time-ordered attributes are loaded, a judgement is evaluated against
   * the latest snapshot at or before its end time (the first one for earlier judgements).
   */
  lemma JudgementUsesSnapshotInEffect<A>(list: seq<TimedAttribute<A>>, judgement: Judgement)
    requires |list| > 0 && StrictlySorted(Times(list))
    ensures var l := LastAtOrBefore(Times(list), judgement.endTime);
      AttributeAtTime(Some(list), judgement.endTime) == Some(list[if l < 0 then 0 else l].attributes)
  {
    LookupIsLatestAtOrBefore(Times(list), judgement.endTime);
  }
}
