/**
 * `NumberRoller<T>` (instantiated with `double`): a displayed value that eases from a
 * start value towards the current target during a window of `RollingDuration` after
 * each target change, driven by an injected clock.
 */
module Roller {

  /** The injected `IClock`; the caller advances it. */
  class ManualClock {
    var currentTime: real

    constructor (start: real)
      ensures currentTime == start
    {
      currentTime := start;
    }

    method Advance(dt: real)
      requires dt >= 0.0
      modifies this
      ensures currentTime == old(currentTime) + dt
    {
      currentTime := currentTime + dt;
    }
  }

  /**
   * The roller's fields as a value: `DisplayedCount`, `Current.Value`, `startValue`,
   * `startTime`, `RollingDuration` and `RollingEnabled`.
   */
  datatype RollerState = RollerState(
    displayed: real,
    target: real,
    startValue: real,
    startTime: real,
    duration: real,
    enabled: bool)

  /** A fresh roller: every value 0, start time 0, duration 375 ms, rolling enabled. */
  const InitialState := RollerState(0.0, 0.0, 0.0, 0.0, 375.0, true)

  /** `IsRolling`: the clock is still inside the window opened by the last target change. */
  predicate Rolling(s: RollerState, now: real) {
    now < s.startTime + s.duration
  }

  function Min(a: real, b: real): (m: real) {
    if a <= b then a else b
  }

  function Max(a: real, b: real): (m: real) {
    if a <= b then b else a
  }

  /**
   * `Current.Value = v`: the bindable notifies only on an actual change, and the handler
   * then records the smaller of the old target and the displayed value as the start, and
   * the clock's time as the start time.
   */
  function Retarget(s: RollerState, v: real, now: real): (s': RollerState)
    ensures s'.target == v
    ensures v != s.target ==> s'.startValue <= s.displayed && s'.startValue <= s.target
  {
    if v == s.target then s
    else s.(target := v, startValue := if s.target > s.displayed then s.displayed else s.target, startTime := now)
  }

  /**
   * `Update`: nothing outside the window; inside it, the eased value between the start
   * value and the target at fraction `(now - startTime) / duration`, or the target itself
   * when rolling is disabled or the duration is not positive. `ease(t, from, to)` is
   * `Interpolation.ValueAt(t, from, to, 0, 1, Easing)`.
   */
  function Tick(s: RollerState, now: real, ease: (real, real, real) -> real): (s': RollerState) {
    if !Rolling(s, now) then s
    else if s.duration > 0.0 && s.enabled then s.(displayed := ease((now - s.startTime) / s.duration, s.startValue, s.target))
    else s.(displayed := s.target)
  }

  /**
   * A target change to a new value sets the target, starts at the minimum of the old
   * target and the displayed value, restarts the clock window, and changes nothing else;
   * setting the same value changes nothing.
   */
  lemma RetargetSpec(s: RollerState, v: real, now: real)
    ensures v == s.target ==> Retarget(s, v, now) == s
    ensures v != s.target ==>
      Retarget(s, v, now) == RollerState(s.displayed, v, Min(s.target, s.displayed), now, s.duration, s.enabled)
  {
  }

  /** A changed target opens a roll window at once, provided the duration is positive. */
  lemma RetargetStartsRolling(s: RollerState, v: real, now: real)
    requires v != s.target
    ensures Rolling(Retarget(s, v, now), now) <==> s.duration > 0.0
  {
  }

  /** Outside the window `Update` is a no-op, now and at every later time: the display is not snapped to the target. */
  lemma TickAfterWindowIsNoOp(s: RollerState, now: real, later: real, ease: (real, real, real) -> real)
    requires !Rolling(s, now) && now <= later
    ensures Tick(s, now, ease) == s && Tick(s, later, ease) == s
  {
  }

  /** Inside the window, with rolling disabled or a non-positive duration, `Update` shows the target exactly. */
  lemma TickSnapsWhenNotEasing(s: RollerState, now: real, ease: (real, real, real) -> real)
    requires Rolling(s, now) && (!s.enabled || s.duration <= 0.0)
    ensures Tick(s, now, ease).displayed == s.target
    ensures Tick(s, now, ease) == s.(displayed := s.target)
  {
  }

  /** Inside the window, while easing, `Update` shows the eased value at the elapsed fraction of the window. */
  lemma TickEasesInsideWindow(s: RollerState, now: real, ease: (real, real, real) -> real)
    requires Rolling(s, now) && s.enabled && s.duration > 0.0
    ensures Tick(s, now, ease) == s.(displayed := ease((now - s.startTime) / s.duration, s.startValue, s.target))
  {
  }

  /** `Update` only ever changes the displayed value. */
  lemma TickKeepsRollParameters(s: RollerState, now: real, ease: (real, real, real) -> real)
    ensures var s' := Tick(s, now, ease);
      s'.target == s.target && s'.startValue == s.startValue && s'.startTime == s.startTime &&
      s'.duration == s.duration && s'.enabled == s.enabled
  {
  }

  /** An easing curve `ValueAt(t, from, to)` that stays between `from` and `to` on [0, 1]. */
  ghost predicate StaysBetween(ease: (real, real, real) -> real) {
    forall t, a, b :: 0.0 <= t <= 1.0 ==> Min(a, b) <= ease(t, a, b) <= Max(a, b)
  }

  /**
   * With such a curve and a clock that has not gone back before the start, every
   * displayed value during a roll lies between the start value and the target.
   */
  lemma TickStaysBetweenStartAndTarget(s: RollerState, now: real, ease: (real, real, real) -> real)
    requires StaysBetween(ease)
    requires s.startTime <= now
    requires Rolling(s, now) && s.enabled && s.duration > 0.0
    ensures Min(s.startValue, s.target) <= Tick(s, now, ease).displayed <= Max(s.startValue, s.target)
  {
  }

  /**
   * The new roll starts where the display already is exactly when the displayed value
   * is at most the old target: while a decreasing roll is in progress the display first
   * drops to the old (lower) target. This is the asymmetry of `min(oldTarget, displayed)`.
   */
  lemma RestartIsContinuousIff(s: RollerState, v: real, now: real, ease: (real, real, real) -> real)
    requires forall a, b :: ease(0.0, a, b) == a
    requires v != s.target && s.enabled && s.duration > 0.0
    ensures Tick(Retarget(s, v, now), now, ease).displayed == s.displayed <==> s.displayed <= s.target
  {
    var s' := Retarget(s, v, now);
    assert (now - s'.startTime) / s'.duration == 0.0;
    assert Tick(s', now, ease).displayed == ease(0.0, s'.startValue, v);
  }

  /**
   * With rolling disabled, the first `Update` inside the window after a target change
   * shows the new target.
   */
  lemma DisabledRollerShowsTarget(s: RollerState, v: real, now: real, later: real, ease: (real, real, real) -> real)
    requires !s.enabled && v != s.target
    requires now <= later < now + s.duration
    ensures Tick(Retarget(s, v, now), later, ease).displayed == v
  {
  }

  /** Linear easing, for the example below. */
  function Linear(t: real, a: real, b: real): (v: real) {
    a + t * (b - a)
  }

  /**
   * No snap at the end of the window: with frames at 100 ms and 400 ms after a change
   * from 0 to 75, the display stays at the value of the last frame inside the window (20).
   */
  lemma DisplayIsNotSnappedAfterWindow()
    ensures var s1 := Retarget(InitialState, 75.0, 1000.0);
      var s2 := Tick(s1, 1100.0, Linear);
      var s3 := Tick(s2, 1400.0, Linear);
      s2.displayed == 20.0 && s3 == s2 && s3.displayed != s3.target
  {
    var s1 := Retarget(InitialState, 75.0, 1000.0);
    assert (1100.0 - s1.startTime) / s1.duration == 100.0 / 375.0;
  }

  /** The roller object; `notified` records the values passed to `OnValueUpdated`. */
  class NumberRoller {
    var displayedCount: real
    var current: real
    var startValue: real
    var startTime: real
    var rollingDuration: real
    var rollingEnabled: bool
    const clock: ManualClock
    const ease: (real, real, real) -> real
    var notified: seq<real>

    function State(): RollerState
      reads this
    {
      RollerState(displayedCount, current, startValue, startTime, rollingDuration, rollingEnabled)
    }

    constructor (clock: ManualClock, ease: (real, real, real) -> real)
      ensures State() == InitialState && notified == []
      ensures this.clock == clock && this.ease == ease
    {
      this.clock := clock;
      this.ease := ease;
      displayedCount, current, startValue, startTime := 0.0, 0.0, 0.0, 0.0;
      rollingDuration, rollingEnabled := 375.0, true;
      notified := [];
    }

    predicate IsRolling()
      reads this, clock
    {
      Rolling(State(), clock.currentTime)
    }

    /** `Current.Value = v` together with the `ValueChanged` handler. */
    method SetTarget(v: real)
      modifies this
      ensures State() == Retarget(old(State()), v, clock.currentTime)
      ensures notified == old(notified)
    {
      if v != current {
        var oldValue := current;
        current := v;
        startValue := if oldValue > displayedCount then displayedCount else oldValue;
        startTime := clock.currentTime;
      }
    }

    method SetRollingEnabled(enabled: bool)
      modifies this
      ensures State() == old(State()).(enabled := enabled) && notified == old(notified)
    {
      rollingEnabled := enabled;
    }

    /** `Update`: one frame of the roll; the new displayed value is reported when the roll is active. */
    method Update()
      modifies this
      ensures State() == Tick(old(State()), clock.currentTime, ease)
      ensures !old(IsRolling()) ==> displayedCount == old(displayedCount) && notified == old(notified)
      ensures old(IsRolling()) ==> notified == old(notified) + [displayedCount]
    {
      if !IsRolling() {
        return;
      }
      if rollingDuration > 0.0 && rollingEnabled {
        var deltaT := (clock.currentTime - startTime) / rollingDuration;
        displayedCount := ease(deltaT, startValue, current);
      } else {
        displayedCount := current;
      }
      notified := notified + [displayedCount];
    }
  }
}
