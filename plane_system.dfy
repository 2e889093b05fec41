/**
 * ArduPlane's mode switch and short failsafe (ArduPlane/system.cpp): the
 * Plane object's current and previous mode with the reasons for both, the
 * calls into the modes it makes while switching, and the short-failsafe
 * state machine.
 */
module PlaneSystem {
  import opened PlaneModes
  import opened ReverseThrust
  import opened RealMath

  /** mode_reason_t: the reasons the model names, and any other by its code. */
  datatype ModeReason = Unknown | Unavailable | RadioFailsafe | GcsCommand | RcCommand | Other(code: nat)

  /** The mode calls set_mode makes, in order; logging and GCS text are left out. */
  datatype ModeEvent =
    | Entered(mode: FlightMode)
    | Exited(mode: FlightMode)
    | AutotuneRestored
    | Announced(mode: FlightMode, reason: ModeReason)

  datatype ModeState = ModeState(
    control: FlightMode, previous: FlightMode, controlReason: ModeReason, previousReason: ModeReason)

  datatype SwitchResult = SwitchResult(state: ModeState, ok: bool, events: seq<ModeEvent>)

  /**
   * set_mode on the mode state alone.  enter stands for each mode's
   * Mode::enter, whose outcome depends on state outside this model.
   */
  function SwitchMode(s: ModeState, newMode: FlightMode, reason: ModeReason,
                      enter: FlightMode -> bool, qautotuneEnabled: bool): (r: SwitchResult)
    decreases if newMode == QAutotune then 1 else 0
  {
    if s.control == newMode then
      SwitchResult(s, true, [])
    else if newMode == QAutotune && !qautotuneEnabled then
      var fallback := SwitchMode(s, QHover, Unavailable, enter, qautotuneEnabled);
      SwitchResult(fallback.state, false, fallback.events)
    else if !enter(newMode) then
      SwitchResult(s, false, [Entered(newMode)] + (if IsVtolMode(s.control) then [Entered(s.control)] else []))
    else
      SwitchResult(
        ModeState(newMode, s.control, reason, reason), true,
        [Entered(newMode)] + (if s.control == Autotune then [AutotuneRestored] else [])
        + [Exited(s.control), Announced(newMode, reason)])
  }

  /** What a switch promises, whatever the modes' enter does. */
  lemma SwitchOutcome(s: ModeState, newMode: FlightMode, reason: ModeReason,
                      enter: FlightMode -> bool, qautotuneEnabled: bool)
    // Already in the mode: success, nothing changes and no mode is called.
    ensures var r := SwitchMode(s, newMode, reason, enter, qautotuneEnabled);
            s.control == newMode ==> r == SwitchResult(s, true, [])
    // A failed switch leaves the state as it was, unless it fell back to QHOVER.
    ensures var r := SwitchMode(s, newMode, reason, enter, qautotuneEnabled);
            !r.ok ==> r.state == s || (r.state.control == QHover && r.state.controlReason == Unavailable)
    // A successful change: the new mode is current, the old one previous, both reasons the given one.
    ensures var r := SwitchMode(s, newMode, reason, enter, qautotuneEnabled);
            r.ok && s.control != newMode ==>
              r.state == ModeState(newMode, s.control, reason, reason)
    // The old mode is exited only when it stops being the current mode.
    ensures var r := SwitchMode(s, newMode, reason, enter, qautotuneEnabled);
            Exited(s.control) in r.events ==> r.state.control != s.control && r.state.previous == s.control
    ensures var r := SwitchMode(s, newMode, reason, enter, qautotuneEnabled);
            r.ok && s.control != newMode ==> |r.events| >= 3 && r.events[0] == Entered(newMode)
                                              && r.events[|r.events| - 2] == Exited(s.control)
  {
  }

  /** Whether a switch to newMode is refused because QAUTOTUNE is not built in. */
  predicate Blocked(newMode: FlightMode, qautotuneEnabled: bool) {
    newMode == QAutotune && !qautotuneEnabled
  }

  /** A switch that is not blocked succeeds exactly when the mode is current or its enter succeeds. */
  lemma SwitchSucceedsIffEntered(s: ModeState, newMode: FlightMode, reason: ModeReason,
                                 enter: FlightMode -> bool, qautotuneEnabled: bool)
    requires !Blocked(newMode, qautotuneEnabled) || s.control == newMode
    ensures SwitchMode(s, newMode, reason, enter, qautotuneEnabled).ok <==> s.control == newMode || enter(newMode)
  {
  }

  /** A failed, unblocked switch rolls all four fields back and re-enters the old mode only if it is a VTOL mode. */
  lemma SwitchRollback(s: ModeState, newMode: FlightMode, reason: ModeReason,
                       enter: FlightMode -> bool, qautotuneEnabled: bool)
    requires !Blocked(newMode, qautotuneEnabled)
    requires !SwitchMode(s, newMode, reason, enter, qautotuneEnabled).ok
    ensures SwitchMode(s, newMode, reason, enter, qautotuneEnabled).state == s
    ensures Entered(s.control) in SwitchMode(s, newMode, reason, enter, qautotuneEnabled).events <==> IsVtolMode(s.control)
  {
  }

  /** A blocked QAUTOTUNE request fails and, unless QHOVER's enter fails too, leaves the plane in QHOVER. */
  lemma BlockedFallsBackToQHover(s: ModeState, reason: ModeReason, enter: FlightMode -> bool, qautotuneEnabled: bool)
    requires Blocked(QAutotune, qautotuneEnabled) && s.control != QAutotune
    ensures !SwitchMode(s, QAutotune, reason, enter, qautotuneEnabled).ok
    ensures SwitchMode(s, QAutotune, reason, enter, qautotuneEnabled).state.control != QAutotune
    ensures s.control == QHover || enter(QHover) ==>
              SwitchMode(s, QAutotune, reason, enter, qautotuneEnabled).state.control == QHover
  {
  }

  /** Asking again for the mode a switch has just reached changes nothing. */
  lemma SwitchIdempotent(s: ModeState, newMode: FlightMode, reason: ModeReason,
                         enter: FlightMode -> bool, qautotuneEnabled: bool)
    requires !Blocked(newMode, qautotuneEnabled)
    requires SwitchMode(s, newMode, reason, enter, qautotuneEnabled).ok
    ensures var t := SwitchMode(s, newMode, reason, enter, qautotuneEnabled).state;
            SwitchMode(t, newMode, reason, enter, qautotuneEnabled) == SwitchResult(t, true, [])
  {
  }

  /** Without QAUTOTUNE, neither the current nor the previous mode ever becomes QAUTOTUNE. */
  ghost predicate NoQAutotune(s: ModeState) {
    s.control != QAutotune && s.previous != QAutotune
  }

  lemma SwitchKeepsQAutotuneOut(s: ModeState, newMode: FlightMode, reason: ModeReason,
                                enter: FlightMode -> bool)
    requires NoQAutotune(s)
    ensures NoQAutotune(SwitchMode(s, newMode, reason, enter, false).state)
  {
  }

  /** fs_action_short */
  datatype ShortAction = ShortBestGuess | ShortCircle | ShortFbwa | Disabled

  /** failsafe.state */
  datatype FailsafeState = NoFailsafe | Short | Long | Gcs

  /**
   * check_short_failsafe on the failsafe state: the on event (which sets
   * SHORT) and then the off event (which sets NONE).
   */
  function ShortFailsafeNext(state: FailsafeState, rcFailsafe: bool, landing: bool, action: ShortAction): (r: FailsafeState)
    // SHORT afterwards exactly when the radio is still lost, the action enabled, and SHORT was already on or could start.
    ensures r == Short <==> rcFailsafe && action != Disabled && (state == Short || (state == NoFailsafe && !landing))
    // The long and GCS failsafes are not this function's business.
    ensures state == Long || state == Gcs ==> r == state
    ensures r == NoFailsafe <==> (state == NoFailsafe && !(rcFailsafe && action != Disabled && !landing))
                                 || (state == Short && (!rcFailsafe || action == Disabled))
  {
    var afterOn := if action != Disabled && state == NoFailsafe && !landing && rcFailsafe then Short else state;
    if afterOn == Short && (!rcFailsafe || action == Disabled) then NoFailsafe else afterOn
  }

  /** Running the check twice on the same inputs is running it once. */
  lemma ShortFailsafeIdempotent(state: FailsafeState, rcFailsafe: bool, landing: bool, action: ShortAction)
    ensures var once := ShortFailsafeNext(state, rcFailsafe, landing, action);
            ShortFailsafeNext(once, rcFailsafe, landing, action) == once
  {
  }

  /** Disabling the short action, or the radio coming back, always clears a short failsafe and never starts one. */
  lemma ShortFailsafeNeedsRadioLossAndAction(state: FailsafeState, rcFailsafe: bool, landing: bool, action: ShortAction)
    requires !rcFailsafe || action == Disabled
    ensures ShortFailsafeNext(state, rcFailsafe, landing, action) != Short
    ensures state == Short ==> ShortFailsafeNext(state, rcFailsafe, landing, action) == NoFailsafe
  {
  }

  /** constrain_int16 */
  function ConstrainInt(v: int, lo: int, hi: int): (r: int)
    requires lo <= hi
    ensures lo <= r <= hi
    ensures lo <= v <= hi ==> r == v
  {
    if v < lo then lo else if v > hi then hi else v
  }

  /**
   * throttle_percentage: in a VTOL mode the quadplane's percentage;
   * otherwise the scaled throttle output, truncated to an integer and
   * clamped to 0..100, or to -100..100 with reverse thrust.
   */
  function ThrottlePercentage(inVtolMode: bool, quadplanePercentage: Int8, throttle: real, reverseThrust: bool): (r: Int8)
    ensures inVtolMode ==> r == quadplanePercentage
    ensures !inVtolMode && !reverseThrust ==> 0 <= r <= 100
    ensures !inVtolMode && reverseThrust ==> -100 <= r <= 100
    ensures !inVtolMode && (if reverseThrust then -100.0 else 0.0) <= throttle <= 100.0 ==> r == TruncToInt(throttle)
  {
    if inVtolMode then quadplanePercentage
    else if !reverseThrust then ConstrainInt(TruncToInt(throttle), 0, 100)
    else ConstrainInt(TruncToInt(throttle), -100, 100)
  }

  /** A larger throttle output never gives a smaller percentage. */
  lemma ThrottlePercentageMonotone(quadplanePercentage: Int8, a: real, b: real, reverseThrust: bool)
    requires a <= b
    ensures ThrottlePercentage(false, quadplanePercentage, a, reverseThrust)
            <= ThrottlePercentage(false, quadplanePercentage, b, reverseThrust)
  {
    TruncMonotone(a, b);
  }

  lemma TruncMonotone(a: real, b: real)
    requires a <= b
    ensures TruncToInt(a) <= TruncToInt(b)
  {
    if 0.0 <= a {
      assert a.Floor <= b.Floor;
    } else if b <= 0.0 {
      assert (-b).Floor <= (-a).Floor;
    }
  }

  /** The Plane object's mode and failsafe fields. */
  class Plane {
    const qautotuneEnabled: bool
    const throttleMin: Int8
    var controlMode: FlightMode
    var previousMode: FlightMode
    var controlModeReason: ModeReason
    var previousModeReason: ModeReason
    var events: seq<ModeEvent>
    var failsafeState: FailsafeState
    var rcFailsafe: bool

    function State(): ModeState
      reads this`controlMode, this`previousMode, this`controlModeReason, this`previousModeReason
    {
      ModeState(controlMode, previousMode, controlModeReason, previousModeReason)
    }

    /** A plane built without QAUTOTUNE is never in it and never was. */
    ghost predicate Valid()
      reads this`controlMode, this`previousMode
    {
      qautotuneEnabled || (controlMode != QAutotune && previousMode != QAutotune)
    }

    /** Both mode pointers start at the INITIALISING mode. */
    constructor (qautotuneEnabled: bool, throttleMin: Int8)
      ensures Valid()
      ensures this.qautotuneEnabled == qautotuneEnabled && this.throttleMin == throttleMin
      ensures controlMode == Initialising && previousMode == Initialising
      ensures controlModeReason == Unknown && previousModeReason == Unknown
      ensures events == [] && failsafeState == NoFailsafe && !rcFailsafe
    {
      this.qautotuneEnabled := qautotuneEnabled;
      this.throttleMin := throttleMin;
      controlMode := Initialising;
      previousMode := Initialising;
      controlModeReason := Unknown;
      previousModeReason := Unknown;
      events := [];
      failsafeState := NoFailsafe;
      rcFailsafe := false;
    }

    /** set_mode */
    method SetMode(newMode: FlightMode, reason: ModeReason, enter: FlightMode -> bool) returns (ok: bool)
      requires Valid()
      modifies this`controlMode, this`previousMode, this`controlModeReason, this`previousModeReason, this`events
      ensures Valid()
      ensures var r := SwitchMode(old(State()), newMode, reason, enter, qautotuneEnabled);
              State() == r.state && ok == r.ok && events == old(events) + r.events
      decreases if newMode == QAutotune then 1 else 0
    {
      if controlMode == newMode {
        return true;
      }
      if newMode == QAutotune && !qautotuneEnabled {
        ok := SetMode(QHover, Unavailable, enter);
        return false;
      }
      ok := TrySwitch(newMode, reason, enter);
    }

    /**
     * The part of set_mode after the early returns: update the fields
     * assuming success, try the new mode's enter, and roll back or complete.
     */
    method TrySwitch(newMode: FlightMode, reason: ModeReason, enter: FlightMode -> bool) returns (ok: bool)
      requires Valid() && controlMode != newMode && !Blocked(newMode, qautotuneEnabled)
      modifies this`controlMode, this`previousMode, this`controlModeReason, this`previousModeReason, this`events
      ensures Valid()
      ensures ok == enter(newMode)
      ensures !ok ==> controlMode == old(controlMode) && previousMode == old(previousMode)
                      && controlModeReason == old(controlModeReason) && previousModeReason == old(previousModeReason)
                      && events == old(events) + ([Entered(newMode)] + (if IsVtolMode(old(controlMode)) then [Entered(old(controlMode))] else []))
      ensures ok ==> controlMode == newMode && previousMode == old(controlMode)
                     && controlModeReason == reason && previousModeReason == reason
                     && events == old(events) + ([Entered(newMode)] + (if old(controlMode) == Autotune then [AutotuneRestored] else [])
                                                 + [Exited(old(controlMode)), Announced(newMode, reason)])
    {
      var oldPreviousMode := previousMode;
      var oldMode := controlMode;
      var previousModeReasonBackup := previousModeReason;

      previousMode := controlMode;
      controlMode := newMode;
      previousModeReason := controlModeReason;
      controlModeReason := reason;

      var calls := [Entered(newMode)];
      if !enter(newMode) {
        previousMode := oldPreviousMode;
        controlMode := oldMode;
        controlModeReason := previousModeReason;
        previousModeReason := previousModeReasonBackup;
        if IsVtolMode(controlMode) {
          calls := calls + [Entered(controlMode)];
        }
        events := events + calls;
        return false;
      }

      if previousMode == Autotune {
        calls := calls + [AutotuneRestored];
      }
      calls := calls + [Exited(oldMode)];
      previousModeReason := controlModeReason;
      controlModeReason := reason;
      events := events + (calls + [Announced(controlMode, controlModeReason)]);
      return true;
    }

    /** set_mode_by_number: an unknown number fails and changes nothing. */
    method SetModeByNumber(number: int, reason: ModeReason, enter: FlightMode -> bool) returns (ok: bool)
      requires Valid()
      modifies this`controlMode, this`previousMode, this`controlModeReason, this`previousModeReason, this`events
      ensures Valid()
      ensures ModeFromNumber(number).None? ==> !ok && State() == old(State()) && events == old(events)
      ensures ModeFromNumber(number).Some? ==>
                var r := SwitchMode(old(State()), ModeFromNumber(number).value, reason, enter, qautotuneEnabled);
                State() == r.state && ok == r.ok && events == old(events) + r.events
    {
      var mode := ModeFromNumber(number);
      if mode.None? {
        return false;
      }
      ok := SetMode(mode.value, reason, enter);
    }

    /**
     * check_short_failsafe.  The on and off events are modelled by their
     * effect on failsafe.state; the mode changes they make are not.
     */
    method CheckShortFailsafe(landing: bool, action: ShortAction)
      modifies this`failsafeState
      ensures failsafeState == ShortFailsafeNext(old(failsafeState), rcFailsafe, landing, action)
    {
      if action != Disabled && failsafeState == NoFailsafe && !landing {
        if rcFailsafe {
          failsafeState := Short;
        }
      }
      if failsafeState == Short {
        if !rcFailsafe || action == Disabled {
          failsafeState := NoFailsafe;
        }
      }
    }

    /** throttle_percentage, with have_reverse_thrust from this plane's minimum throttle. */
    function ThrottlePercentageOf(inVtolMode: bool, quadplanePercentage: Int8, throttle: real): (r: Int8)
      reads this
      ensures !inVtolMode ==> (if HaveReverseThrust(throttleMin) then -100 else 0) <= r <= 100
      ensures !inVtolMode && r < 0 ==> throttleMin < 0
    {
      ThrottlePercentage(inVtolMode, quadplanePercentage, throttle, HaveReverseThrust(throttleMin))
    }
  }
}
