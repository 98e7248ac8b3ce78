# GameplayMetricText, modelled in Dafny

This project models the logic of the gameplay HUD text component of the osu! client,
`GameplayMetricText`. During gameplay the component shows one live number, the "metric":
score, accuracy, combo, HP, performance points or a hit-timing statistic. The model covers
these parts:

- **Attribute lookup.** A binary search over the time-ordered difficulty snapshots finds
  the snapshot in effect when a judgement happened (`AttributeLookup`). The search follows
  `List<T>.BinarySearch`, and a lemma proves its documented contract.
- **Per-metric tables.** Each metric has a percent-suffix flag, a default and a maximum
  number of decimal places. The decimal-places setting clamps to its range 0..5 (`Metrics`).
- **Metric dispatch and fallback.** `getValue` computes the metric, or falls back when a
  prerequisite is missing (`Metrics`). The fallback is 100 for Accuracy only; every other
  metric keeps the current target.
- **Rounding.** `Math.Round(x, d, AwayFromZero)` is modelled over exact reals (`Rounding`).
- **Format string.** `{0:Fn}` is followed by `%` for the percentage metrics
  (`Formatting`). Its parser is proved to be the inverse.
- **`NumberRoller`.** This clocked state machine rolls the displayed number towards its
  target (`Roller`). A pure step function specifies each of its methods.
- **The component.** Its state and event handlers form the class `GameplayMetricText`
  (`MetricText`): judgement changed, attributes loaded, metric changed, per-frame text
  update, load and dispose.

Doubles are modelled as `real` and times as `real` milliseconds. The clock is a
`ManualClock` object that the caller advances. Every external collaborator, such as the
score processor, the calculators and the easing curve, is a parameter.

Three behaviours of the code are easy to misread, and the model follows the code:

- A target change starts the new roll at the *minimum* of the old target and the displayed
  value (line 403), so a target change made while the display is above the old target (a
  downward roll in progress) first drops the display to the old target
  (`Roller.RestartIsContinuousIff`).
- After the roll window ends, `Update` does nothing (line 410). It never snaps the display
  to the target, so the display can stay short of it (`Roller.DisplayIsNotSnappedAfterWindow`).
- The missing-prerequisite fallback is 100 for `Accuracy` only (line 209); every other
  metric, including the other percentage metrics, keeps the current target.

## Model

| member | source | states |
|---|---|---|
| `AttributeLookup.Complement` | osu.Game/Screens/Play/HUD/GameplayMetricText.cs:138 | `~x` maps non-negative positions to negative results and back; applying it to its result gives `x` again |
| `AttributeLookup.Search` | osu.Game/Screens/Play/HUD/GameplayMetricText.cs:136 | the bisection behind `BinarySearch` returns either an index in range whose time equals the key, or the complement of a position in range |
| `AttributeLookup.BinarySearch` | osu.Game/Screens/Play/HUD/GameplayMetricText.cs:136 | on any list, a non-negative result indexes an entry with the query time, and a negative one is the complement of a position in `[0, Count]` |
| `AttributeLookup.SearchMissIsBracketed` | osu.Game/Screens/Play/HUD/GameplayMetricText.cs:136 | a miss ends between a smaller and a larger neighbour whenever the elements just outside the searched range bracket the key, so on the whole list it ends at an insertion point |
| `AttributeLookup.BinarySearchContract` | osu.Game/Screens/Play/HUD/GameplayMetricText.cs:136 | the documented contract of `List<T>.BinarySearch`: the index of a match, or the complement of the index of the first larger element (or of `Count`) |
| `AttributeLookup.Clamp` | osu.Game/Screens/Play/HUD/GameplayMetricText.cs:140 | `Math.Clamp` returns a value in `[lo, hi]`: the value itself when in range, `lo` below it and `hi` above it |
| `AttributeLookup.AttributeIndex` | osu.Game/Screens/Play/HUD/GameplayMetricText.cs:136-140 | the index read after the complement-to-predecessor conversion and the clamp always lies in `[0, Count-1]`, whatever the order of the list |
| `AttributeLookup.AttributeAtTime` | osu.Game/Screens/Play/HUD/GameplayMetricText.cs:131-141 | the lookup gives no attributes exactly when the list is missing or empty; otherwise it gives the attributes of one of the list's entries |
| `AttributeLookup.LookupExactMatch` | osu.Game/Screens/Play/HUD/GameplayMetricText.cs:136-140 | on a sorted list, a query equal to some snapshot time selects a snapshot with that time |
| `AttributeLookup.LookupBeforeFirst` | osu.Game/Screens/Play/HUD/GameplayMetricText.cs:137-140 | a query earlier than the first snapshot is clamped to the first snapshot |
| `AttributeLookup.LookupAfterLast` | osu.Game/Screens/Play/HUD/GameplayMetricText.cs:137-140 | a query later than the last snapshot selects the last snapshot |
| `AttributeLookup.LookupLatestBefore` | osu.Game/Screens/Play/HUD/GameplayMetricText.cs:137-140 | without an exact match, and with an earlier snapshot available, the selected snapshot is the latest one strictly before the query |
| `AttributeLookup.LookupIsLatestAtOrBefore` | osu.Game/Screens/Play/HUD/GameplayMetricText.cs:131-141 | on strictly increasing times, the lookup equals an independent linear-scan definition: the last snapshot at or before the query, or the first snapshot for earlier queries |
| `AttributeLookup.LookupBetweenSnapshots` | osu.Game/Screens/Play/HUD/GameplayMetricText.cs:131-141 | with snapshots at 0, 1000 and 2000 ms, a judgement at 1500 ms reads the 1000 ms snapshot |
| `Formatting.NatToString` | osu.Game/Screens/Play/HUD/GameplayMetricText.cs:201 | `ToString()` of a non-negative integer is a non-empty string of decimal digits with no leading zero unless it is `0` |
| `Formatting.IntToString` | osu.Game/Screens/Play/HUD/GameplayMetricText.cs:201 | `int.ToString()` is non-empty and made of decimal digits and a minus sign only |
| `Formatting.IntRoundTrip` | osu.Game/Screens/Play/HUD/GameplayMetricText.cs:201 | parsing what `int.ToString()` writes gives back the same integer |
| `Formatting.FormFloatFormat` | osu.Game/Screens/Play/HUD/GameplayMetricText.cs:199-202 | the format item is enclosed in braces |
| `Formatting.FloatFormatRoundTrip` | osu.Game/Screens/Play/HUD/GameplayMetricText.cs:199-202 | `{index:Fn}` can be parsed back into exactly its argument index and its decimal count |
| `Formatting.DisplayFormat` | osu.Game/Screens/Play/HUD/GameplayMetricText.cs:294 | the text format ends in `%` exactly when the percent flag is set |
| `Formatting.DisplayFormatRoundTrip` | osu.Game/Screens/Play/HUD/GameplayMetricText.cs:294 | the displayed format determines both the decimal count and whether the percent suffix is present |
| `Formatting.FormatExamples` | osu.Game/Screens/Play/HUD/GameplayMetricText.cs:199-202 | `formFloatFormat(0, 2)` is `{0:F2}`; Accuracy with 2 decimals displays as `{0:F2}%`, and Score with 0 decimals as `{0:F0}` |
| `Rounding.RoundAwayFromZero` | osu.Game/Screens/Play/HUD/GameplayMetricText.cs:258 | `Math.Round(value, decimals, MidpointRounding.AwayFromZero)` on an exact real: scale by 10^decimals, round the magnitude half-up, restore the sign, scale back |
| `Rounding.RoundHalfUp` | osu.Game/Screens/Play/HUD/GameplayMetricText.cs:258 | half-up rounding of a magnitude is within `(y - 1/2, y + 1/2]` |
| `Rounding.RoundIsSymmetric` | osu.Game/Screens/Play/HUD/GameplayMetricText.cs:258 | rounding away from zero commutes with negation |
| `Rounding.RoundIsOnGrid` | osu.Game/Screens/Play/HUD/GameplayMetricText.cs:258 | the result is a whole number of units of 10^-decimals |
| `Rounding.RoundErrorBound` | osu.Game/Screens/Play/HUD/GameplayMetricText.cs:258 | the result differs from the input by at most half a unit of the last kept decimal |
| `Rounding.RoundIsIdempotent` | osu.Game/Screens/Play/HUD/GameplayMetricText.cs:258 | rounding an already rounded value changes nothing |
| `Rounding.RoundMidpoints` | osu.Game/Screens/Play/HUD/GameplayMetricText.cs:258 | midpoints go away from zero: 2.345 to 2 places is 2.35, 2.5 is 3 and -2.5 is -3 |
| `Metrics.AppendPercent` | osu.Game/Screens/Play/HUD/GameplayMetricText.cs:155-170 | `appendPercent`: the per-metric switch on whether the text carries a `%` suffix |
| `Metrics.MaxPrecision` | osu.Game/Screens/Play/HUD/GameplayMetricText.cs:172-182 | `getMaxPrecision`: the largest number of decimal places of a metric, always within the setting's declared range 0..5 |
| `Metrics.DefaultPrecision` | osu.Game/Screens/Play/HUD/GameplayMetricText.cs:184-197 | `getDefaultPrecision`: the per-metric switch on the default number of decimal places |
| `Metrics.AppendPercentIsPercentageFamily` | osu.Game/Screens/Play/HUD/GameplayMetricText.cs:155-170 | the percent suffix is shown exactly for Accuracy, MaxAchievableAccuracy, MinAchievableAccuracy and HP |
| `Metrics.MaxPrecisionTable` | osu.Game/Screens/Play/HUD/GameplayMetricText.cs:172-182 | the maximum precision is 0 for Combo and LongestCombo and 5 for every other metric |
| `Metrics.DefaultPrecisionTable` | osu.Game/Screens/Play/HUD/GameplayMetricText.cs:184-197 | the default precision is 2 exactly for the percentage metrics and 0 otherwise |
| `Metrics.DefaultWithinMax` | osu.Game/Screens/Play/HUD/GameplayMetricText.cs:59-65 | every metric's default lies within its maximum, and that maximum lies within the setting's declared range 0..5 |
| `Metrics.SetValue` | osu.Game/Screens/Play/HUD/GameplayMetricText.cs:59-65 | assigning the decimal-places setting clamps the value into `[0, max]` and keeps the maximum; values already in range are stored as they are |
| `Metrics.SetMax` | osu.Game/Screens/Play/HUD/GameplayMetricText.cs:59-65 | assigning the setting's maximum re-clamps the value into the new range; a value that fits is kept |
| `Metrics.ResetPrecisionAsWritten` | osu.Game/Screens/Play/HUD/GameplayMetricText.cs:274-276 | the metric-changed handler as written: assign the new default while the old maximum is in force, then assign the new maximum |
| `Metrics.ResetPrecision` | osu.Game/Screens/Play/HUD/GameplayMetricText.cs:274-276 | the handler in the evidently intended order: assign the new maximum, then the new default |
| `Metrics.ResetAsWrittenReachesDefaultIff` | osu.Game/Screens/Play/HUD/GameplayMetricText.cs:274-276 | as written (value first, maximum second), the handler sets the new default exactly when the old maximum admits it; otherwise the value is left at the old maximum |
| `Metrics.ResetAsWrittenDropsAccuracyDecimals` | osu.Game/Screens/Play/HUD/GameplayMetricText.cs:274-276 | as written, switching Combo to Accuracy leaves 0 decimal places instead of Accuracy's default of 2 |
| `Metrics.ResetPrecisionIsDefault` | osu.Game/Screens/Play/HUD/GameplayMetricText.cs:274-276 | with the maximum set first, a metric change leaves exactly the metric's default as the value and the metric's maximum as the bound, which is a valid setting |
| `Metrics.RawMetric` | osu.Game/Screens/Play/HUD/GameplayMetricText.cs:212-256 | the switch of `getValue` over the twelve metrics, before rounding: each metric reads its own source, percentages scaled by 100, a missing calculator result read as 0 |
| `Metrics.StdDevIsTenthOfUnstableRate` | osu.Game/Screens/Play/HUD/GameplayMetricText.cs:239-252 | HitErrorStdDev is the unstable rate divided by 10, and both are 0 when the unstable rate is unavailable |
| `Metrics.PercentageMetricsInRange` | osu.Game/Screens/Play/HUD/GameplayMetricText.cs:221-234 | the percentage metrics map fractions in [0, 1] onto [0, 100] |
| `Metrics.MetricValue` | osu.Game/Screens/Play/HUD/GameplayMetricText.cs:204-259 | `getValue` yields no computed value exactly when the gameplay state, score processor or attributes are missing; otherwise it yields the metric rounded to within half a unit of the configured decimals |
| `Metrics.FallbackValue` | osu.Game/Screens/Play/HUD/GameplayMetricText.cs:209 | the value `getValue` returns when a prerequisite is missing: 100 under Accuracy, the roller's current target otherwise |
| `Metrics.FallbackKeepsTargetExceptAccuracy` | osu.Game/Screens/Play/HUD/GameplayMetricText.cs:206-210 | the fallback is 100 for Accuracy, and the current roller target for every other metric, including the other percentage metrics |
| `Metrics.JudgementTarget` | osu.Game/Screens/Play/HUD/GameplayMetricText.cs:151 | the value `onJudgementChanged` assigns to the roller: `getValue`'s rounded metric, or the fallback when a prerequisite is missing |
| `Metrics.JudgementTargetWhenReady` | osu.Game/Screens/Play/HUD/GameplayMetricText.cs:212-259 | with every prerequisite present, the value assigned to the roller is the metric rounded away from zero to the configured decimals (so `Rounding.RoundIsOnGrid` and `Rounding.RoundErrorBound` apply to it) |
| `Roller.Rolling` | osu.Game/Screens/Play/HUD/GameplayMetricText.cs:396 | `IsRolling`: the clock has not yet reached `startTime + RollingDuration` |
| `Roller.Retarget` | osu.Game/Screens/Play/HUD/GameplayMetricText.cs:401-405 | the value-changed handler as a step function: the new value becomes the target, and on an actual change the start value is at most both the display and the old target; the exact rule (their minimum, start time now, nothing else changed) is stated by `Roller.RetargetSpec` |
| `Roller.Tick` | osu.Game/Screens/Play/HUD/GameplayMetricText.cs:408-421 | `Update` as a step function: nothing after the window; inside it, the eased value, or the target when easing is off |
| `Roller.RetargetSpec` | osu.Game/Screens/Play/HUD/GameplayMetricText.cs:401-405 | a new target value records `startValue = min(oldTarget, DisplayedCount)` and `startTime = now`, and changes nothing else; an unchanged value fires nothing |
| `Roller.RetargetStartsRolling` | osu.Game/Screens/Play/HUD/GameplayMetricText.cs:396 | immediately after a target change, `IsRolling` holds exactly when the duration is positive |
| `Roller.TickAfterWindowIsNoOp` | osu.Game/Screens/Play/HUD/GameplayMetricText.cs:408-410 | once `now >= startTime + RollingDuration`, `Update` changes nothing, whether at that time or at any later one; there is no snap to the target |
| `Roller.TickSnapsWhenNotEasing` | osu.Game/Screens/Play/HUD/GameplayMetricText.cs:412-418 | while rolling, with rolling disabled or a non-positive duration, `Update` sets the display to exactly the target |
| `Roller.TickEasesInsideWindow` | osu.Game/Screens/Play/HUD/GameplayMetricText.cs:412-416 | while rolling and easing, the display becomes the easing result at elapsed fraction `(now - startTime) / RollingDuration` from `startValue` to the target |
| `Roller.TickKeepsRollParameters` | osu.Game/Screens/Play/HUD/GameplayMetricText.cs:408-421 | `Update` changes only the displayed value |
| `Roller.TickStaysBetweenStartAndTarget` | osu.Game/Screens/Play/HUD/GameplayMetricText.cs:412-416 | if the easing curve stays between its end points on [0, 1], every value displayed during a roll lies between the start value and the target |
| `Roller.RestartIsContinuousIff` | osu.Game/Screens/Play/HUD/GameplayMetricText.cs:403 | a new roll starts from the value already displayed exactly when that value is at most the old target; otherwise the display first drops to the old target |
| `Roller.DisabledRollerShowsTarget` | osu.Game/Screens/Play/HUD/GameplayMetricText.cs:401-418 | with rolling disabled, the first `Update` inside the window after a target change shows the new target |
| `Roller.DisplayIsNotSnappedAfterWindow` | osu.Game/Screens/Play/HUD/GameplayMetricText.cs:408-421 | with frames at 100 ms and 400 ms after a change from 0 to 75, the display stays at 20 and never reaches the target |
| `Roller.ManualClock.Advance` | osu.Game/Screens/Play/HUD/GameplayMetricText.cs:392 | the injected clock moves forward by the given non-negative amount |
| `Roller.NumberRoller.IsRolling` | osu.Game/Screens/Play/HUD/GameplayMetricText.cs:396 | the roller's `IsRolling` is `Rolling` of its state at the clock's current time |
| `Roller.NumberRoller.constructor` | osu.Game/Screens/Play/HUD/GameplayMetricText.cs:384-406 | a new roller has every value 0, start time 0, duration 375 ms and rolling enabled |
| `Roller.NumberRoller.SetTarget` | osu.Game/Screens/Play/HUD/GameplayMetricText.cs:401-405 | assigning `Current.Value` updates the fields as `Retarget` does, and reports nothing to `OnValueUpdated` |
| `Roller.NumberRoller.SetRollingEnabled` | osu.Game/Screens/Play/HUD/GameplayMetricText.cs:390 | only the `RollingEnabled` flag changes |
| `Roller.NumberRoller.Update` | osu.Game/Screens/Play/HUD/GameplayMetricText.cs:408-421 | the fields change as `Tick` says; outside the window the display stays put and `OnValueUpdated` is not called; inside it, `OnValueUpdated` receives the new display value |
| `MetricText.GameplayMetricText.constructor` | osu.Game/Screens/Play/HUD/GameplayMetricText.cs:56-103 | a new component shows PerformancePoints with the setting at 0 in the range 0..5; it is not valid, holds no attributes or judgement, is not subscribed, and its roller is fresh |
| `MetricText.GameplayMetricText.LoadComplete` | osu.Game/Screens/Play/HUD/GameplayMetricText.cs:263-283 | with a score processor, the handlers are attached and the decimals are bounded by the current metric's maximum; without one, nothing changes |
| `MetricText.GameplayMetricText.GetValue` | osu.Game/Screens/Play/HUD/GameplayMetricText.cs:204-260 | with a prerequisite missing, `IsValid` becomes false and the result is the fallback; otherwise the result is the rounded metric and `IsValid` is untouched |
| `MetricText.GameplayMetricText.OnJudgementChanged` | osu.Game/Screens/Play/HUD/GameplayMetricText.cs:145-153 | remembers the judgement, looks up the attributes at its end time, sets the roller's target to `getValue`'s result, and ends with `IsValid` true even when `getValue` had cleared it |
| `MetricText.GameplayMetricText.OnTimedAttributesLoaded` | osu.Game/Screens/Play/HUD/GameplayMetricText.cs:120-127 | the load completion installs the list, sets `IsValid`, and replays the last judgement, if there is one, against the new list |
| `MetricText.GameplayMetricText.UpdateText` | osu.Game/Screens/Play/HUD/GameplayMetricText.cs:285-295 | advances the roller one frame, then sets the text to the display format for the current decimals and percent flag, applied to the new displayed value |
| `MetricText.GameplayMetricText.SetMetric` | osu.Game/Screens/Play/HUD/GameplayMetricText.cs:272-279 | a changed metric, once the handler is attached, resets the decimals to the metric's default and maximum and refreshes the text; otherwise only the metric is stored |
| `MetricText.GameplayMetricText.SetDecimalPlaces` | osu.Game/Screens/Play/HUD/GameplayMetricText.cs:59-65 | a user setting of the decimals is clamped into the current range |
| `MetricText.GameplayMetricText.Dispose` | osu.Game/Screens/Play/HUD/GameplayMetricText.cs:306-310 | the judgement handlers are detached, and nothing else changes |
| `MetricText.MissingDataJudgementKeepsRoller` | osu.Game/Screens/Play/HUD/GameplayMetricText.cs:206-210 | a judgement that arrives while data is missing leaves the roller exactly as it was, except for Accuracy, whose target becomes 100 |
| `MetricText.JudgementUsesSnapshotInEffect` | osu.Game/Screens/Play/HUD/GameplayMetricText.cs:131-148 | once strictly time-ordered attributes are loaded, a judgement is evaluated against the latest snapshot at or before its end time, or against the first snapshot for earlier judgements |

## Left out

- Rendering and skinning are left out: `OsuSpriteText`, fonts, colours, the
  `TextComponent` class and the layout in the constructor. These are UI with no stateable
  behaviour. The text is modelled as its format string and argument.
- `LocalisableString.Format`'s fixed-point rendering of a double is not modelled. Only the
  format string is.
- The asynchronous difficulty load is left out: `GetTimedDifficultyAttributesAsync`,
  `ContinueWith`/`Schedule`, and the cancel/wait/dispose of the task in `Dispose`. These
  are about cross-thread scheduling. The completion callback is the sequential method
  `OnTimedAttributesLoaded`.
- The other setup in `load` is left out: cloning the mods, building `difficultyAttributes`
  and `scoreInfo`, and creating the performance calculator. Their results are inputs
  (`Sources`).
- `GameplayWorkingBeatmap` is left out. It adapts unseen framework classes, and its media
  accessors only throw.
- IEEE-754 doubles are not modelled: values and times are exact reals. This covers the
  `* 100.0` scalings, `UR / 10` and `Math.Round`. Inputs that only a double can hold, such
  as NaN or infinities, are not covered.
- The foreign calculators are inputs of `Metrics.Sources`: `PerformanceCalculator.Calculate`,
  the unstable rate, the average and median hit error, `scoreProcessor.PopulateScore`, and
  the health and accuracy bindables.
- The incremental reuse of `unstableRateResult` between calls is not modelled. Only its
  result is.
- `Interpolation.ValueAt` with `Easing.OutQuint` is not modelled. It becomes the roller's
  `ease` function, fixed at construction, so reassigning the public `Easing` field is
  also not modelled.
- `NumberRoller<T>` is modelled only at `T = double`, the one instantiation in the source.
- `MetricText.GameplayMetricText.OnJudgementChanged` requires a score processor: the source
  dereferences it at line 149, before `getValue` checks it. What `PopulateScore` does when
  the gameplay state, and hence `scoreInfo`, is missing belongs to code outside this
  model.
- The `Test` bindable of line 67 is never read, so it is not modelled.
- `TimedDifficultyAttributes.CompareTo` is not part of this model. The binary search of
  line 136 is modelled as comparing entries by their `Time` alone, which is what that
  comparison is taken to do; `AttributeLookup.Search` builds this in.
- The clamping of `BindableNumber<int>` (a value is clamped into `[MinValue, MaxValue]`,
  and setting `MaxValue` re-clamps the value) is framework behaviour that is not shown
  here. It is modelled as `Metrics.SetValue` and `Metrics.SetMax`.
- `MetricText.GameplayMetricText.SetMetric`: following the finding below, it uses the
  corrected order (maximum first). As written, the source sets the value first.

## Findings

| source | as written | input that shows it | evidently intended | confidence | as-written member | corrected member |
|---|---|---|---|---|---|---|
| osu.Game/Screens/Play/HUD/GameplayMetricText.cs:274-276 | The handler assigns `DecimalPlacesBindable.Value = getDefaultPrecision()` while the old `MaxValue` is still in force, and only then assigns `MaxValue`. The bindable clamps the value to the old maximum. | Select Combo (maximum 0), then Accuracy: the value is clamped to 0, the maximum becomes 5, and 0 decimal places remain. | After a metric change the decimals equal the metric's default (2 for Accuracy). | medium, not executed (depends on the framework's clamping) | `Metrics.ResetPrecisionAsWritten`, exhibited by `Metrics.ResetAsWrittenDropsAccuracyDecimals` | `Metrics.ResetPrecision`, proved by `Metrics.ResetPrecisionIsDefault` |
