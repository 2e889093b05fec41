/**
 * AC_PosControl as a class: the fields the position controller updates in
 * place, its setters, its per-cycle vertical and horizontal cascades and
 * its estimator-reset compensation.
 *
 * Sensors, the motors' limit flags, the attitude controller's lean limits,
 * the PID and low-pass filter objects and the trigonometry are passed in
 * as values and functions (see the Inputs datatypes); their internals are
 * not part of this model.
 */
module PosControl {
  import opened RealMath
  import opened PosControlLaws
  import opened PosControlSteps

  // Defaults from AC_PosControl.h for the plane build (the header is not
  // part of this model; its positivity is all the proofs rely on).
  const SpeedDefault: real := 500.0
  const SpeedDownDefault: real := -150.0
  const SpeedUpDefault: real := 250.0
  const AccelZDefault: real := 250.0
  const AccelXYDefault: real := 100.0
  const Dt400Hz: real := 0.0025
  const AccelFilterHz: real := 2.0

  // Plane gains, AC_PosControl.cpp lines 8-24.
  const PosZP: real := 1.0
  const VelZP: real := 5.0
  const AccZImax: real := 800.0
  const PosXYP: real := 1.0

  type Uint32 = x: int | 0 <= x < 0x1_0000_0000

  /** The controller's one-shot and mode flags (_flags). */
  datatype Flags = Flags(recalcLeashZ: bool, recalcLeashXY: bool, resetDesiredVelToPos: bool,
                         resetAccelToLeanXY: bool, resetRateToAccelZ: bool, resetAccelToThrottle: bool,
                         freezeFfZ: bool, useDesvelFfZ: bool, vehicleHorizVelOverride: bool)

  /** Which limits the last cycle hit (_limit). */
  datatype Limits = Limits(posUp: bool, posDown: bool, velUp: bool, velDown: bool, accelXY: bool)

  /** The motors' limit flags and hover throttle. */
  datatype Motors = Motors(throttleLower: bool, throttleUpper: bool, throttleHover: real)

  /**
   * The vertical acceleration PID (_pid_accel_z) after its input has been
   * set to the acceleration error: its P and D terms as functions of that
   * error, its stored integrator, and the integrator it returns when asked
   * to update with a given error and IMAX.
   */
  datatype AccelPid = AccelPid(p: real -> real, integrator: real, updatedI: (real, real) -> real, d: real -> real)

  /** The horizontal velocity PID (_pid_vel_xy) as functions of its input. */
  datatype VelPid = VelPid(p: Vec2 -> Vec2, i: Vec2 -> Vec2, iShrink: Vec2 -> Vec2, d: Vec2 -> Vec2)

  /** Everything calc_roll_pitch_throttle reads from outside the controller. */
  datatype VerticalInputs = VerticalInputs(
    currAlt: real, currVelZ: real, accelEfBlendedZ: real, motors: Motors,
    // AC_AttitudeControl::sqrt_controller(error, p, second_ord_lim, dt)
    sqrtControllerZ: (real, real, real, real) -> real,
    // _vel_error_filter.apply(input, dt)
    velErrorFilter: (real, real) -> real,
    pid: AccelPid,
    // the wing filters' apply(input, dt), after a reset to 0 when the flag is set
    wingLiftFilter: (real, real, bool) -> real,
    wingDragFilter: (real, real, bool) -> real,
    att: Attitude, lean: LeanLimits, trig: Trig)

  /** Everything run_xy_controller reads from outside the controller. */
  datatype HorizontalInputs = HorizontalInputs(
    currPos: Vec2, currVel: Vec2, navVelGainScaler: real, motors: Motors, pid: VelPid,
    // _accel_target_filter: reset to the input when the flag is set, then apply(input, dt) with the cutoff
    accelFilter: (Vec2, bool, real, real) -> Vec2)

  class PosControl {
    const sqrt: real -> real

    // parameters (AP_Param), fixed after construction
    const pPosZ: real
    const pVelZ: real
    const pPosXY: real
    const accelZWingK: real
    const accelXYFiltHz: real
    const trimTau: real
    const velErrIGain: real
    const fwdSpdMax: real
    const fwdBcoef: real

    var accelZImax: real

    var dt: real
    var speedDownCms: real
    var speedUpCms: real
    var speedCms: real
    var accelZCms: real
    var accelCms: real
    var leash: real
    var leashDownZ: real
    var leashUpZ: real

    var posTarget: Vec3
    var posError: Vec3
    var velDesired: Vec3
    var velTarget: Vec3
    var velError: Vec3
    var velLastZ: real
    var accelDesired: Vec3
    var accelTarget: Vec3
    var accelErrorZ: real
    var vehicleHorizVel: Vec2
    var velXYErrorInteg: Vec2
    var velXYIntegLengthPrev: real
    var velErrIGainScale: real
    var velForwardFilt: real
    var accelTargetXYUpdated: bool

    var flags: Flags
    var limit: Limits

    var ekfXYResetMs: Uint32
    var ekfZResetMs: Uint32

    var rollTargetCd: real
    var pitchTargetCd: real
    var throttleOut: real
    var throttleAngleBoost: bool

    /** The cap on the wind-drift integral, 100 * _FWD_SPD_MAX. */
    function MaxAirspeed(): (r: real)
      requires 0.0 <= fwdSpdMax
      ensures 0.0 <= r
    {
      100.0 * fwdSpdMax
    }

    /**
     * The controller's invariant: leashes never below the minimum, the
     * descent speed never positive, the integral gain scale within [1, 10]
     * and the wind-drift integral within the airspeed cap.
     */
    ghost predicate Valid()
      reads this`leash, this`leashUpZ, this`leashDownZ, this`speedDownCms, this`velErrIGainScale,
            this`velXYIntegLengthPrev, this`velXYErrorInteg
    {
      IsSqrt(sqrt)
      && leash >= LeashLengthMin && leashUpZ >= LeashLengthMin && leashDownZ >= LeashLengthMin
      && speedDownCms <= 0.0
      && 1.0 <= velErrIGainScale <= 10.0
      && 0.0 <= fwdSpdMax
      && 0.0 <= velXYIntegLengthPrev
      && WithinAirspeedCap(velXYErrorInteg, fwdSpdMax)
    }

    constructor(sqrt: real -> real)
      requires IsSqrt(sqrt)
      ensures Valid()
      ensures pPosZ == PosZP && pVelZ == VelZP && pPosXY == PosXYP && accelZImax == AccZImax
      ensures accelZWingK == 0.7 && accelXYFiltHz == AccelFilterHz && trimTau == 1.0
      ensures velErrIGain == 1.0 && fwdSpdMax == 15.0 && fwdBcoef == 25.0
      ensures dt == Dt400Hz
      ensures speedDownCms == SpeedDownDefault && speedUpCms == SpeedUpDefault && speedCms == SpeedDefault
      ensures accelZCms == AccelZDefault && accelCms == AccelXYDefault
      ensures leash == LeashLengthMin && leashDownZ == LeashLengthMin && leashUpZ == LeashLengthMin
      ensures velXYIntegLengthPrev == 0.0 && velErrIGainScale == 1.0 && velForwardFilt == 0.0
      ensures !accelTargetXYUpdated && rollTargetCd == 0.0 && pitchTargetCd == 0.0
      ensures flags == Flags(true, true, true, true, true, true, true, true, false)
      ensures limit == Limits(true, true, true, true, true)
    {
      this.sqrt := sqrt;
      pPosZ := PosZP;
      pVelZ := VelZP;
      pPosXY := PosXYP;
      accelZImax := AccZImax;
      accelZWingK := 0.7;
      accelXYFiltHz := AccelFilterHz;
      trimTau := 1.0;
      velErrIGain := 1.0;
      fwdSpdMax := 15.0;
      fwdBcoef := 25.0;
      dt := Dt400Hz;
      speedDownCms := SpeedDownDefault;
      speedUpCms := SpeedUpDefault;
      speedCms := SpeedDefault;
      accelZCms := AccelZDefault;
      accelCms := AccelXYDefault;
      leash := LeashLengthMin;
      leashDownZ := LeashLengthMin;
      leashUpZ := LeashLengthMin;
      posTarget := Vec3(0.0, 0.0, 0.0);
      posError := Vec3(0.0, 0.0, 0.0);
      velDesired := Vec3(0.0, 0.0, 0.0);
      velTarget := Vec3(0.0, 0.0, 0.0);
      velError := Vec3(0.0, 0.0, 0.0);
      velLastZ := 0.0;
      accelDesired := Vec3(0.0, 0.0, 0.0);
      accelTarget := Vec3(0.0, 0.0, 0.0);
      accelErrorZ := 0.0;
      vehicleHorizVel := Vec2(0.0, 0.0);
      velXYErrorInteg := Vec2(0.0, 0.0);
      velXYIntegLengthPrev := 0.0;
      velErrIGainScale := 1.0;
      velForwardFilt := 0.0;
      accelTargetXYUpdated := false;
      flags := Flags(true, true, true, true, true, true, true, true, false);
      limit := Limits(true, true, true, true, true);
      ekfXYResetMs := 0;
      ekfZResetMs := 0;
      rollTargetCd := 0.0;
      pitchTargetCd := 0.0;
      throttleOut := 0.0;
      throttleAngleBoost := false;
    }

    // -------------------------------------------------------------------
    // Speed and acceleration limits, and the leashes they determine

    /** calc_leash_length_z: recomputes both vertical leashes when they are marked dirty. */
    method CalcLeashLengthZ()
      requires Valid()
      modifies this`leashUpZ, this`leashDownZ, this`flags
      ensures Valid()
      ensures old(flags.recalcLeashZ) ==>
                leashUpZ == CalcLeashLength(speedUpCms, accelZCms, pPosZ)
                && leashDownZ == CalcLeashLength(-speedDownCms, accelZCms, pPosZ)
                && flags == old(flags).(recalcLeashZ := false)
      ensures !old(flags.recalcLeashZ) ==>
                leashUpZ == old(leashUpZ) && leashDownZ == old(leashDownZ) && flags == old(flags)
    {
      if flags.recalcLeashZ {
        leashUpZ := CalcLeashLength(speedUpCms, accelZCms, pPosZ);
        leashDownZ := CalcLeashLength(-speedDownCms, accelZCms, pPosZ);
        flags := flags.(recalcLeashZ := false);
      }
    }

    /** calc_leash_length_xy: recomputes the horizontal leash when it is marked dirty. */
    method CalcLeashLengthXY()
      requires Valid()
      modifies this`leash, this`flags
      ensures Valid()
      ensures old(flags.recalcLeashXY) ==>
                leash == CalcLeashLength(speedCms, accelCms, pPosXY) && flags == old(flags).(recalcLeashXY := false)
      ensures !old(flags.recalcLeashXY) ==> leash == old(leash) && flags == old(flags)
    {
      if flags.recalcLeashXY {
        leash := CalcLeashLength(speedCms, accelCms, pPosXY);
        flags := flags.(recalcLeashXY := false);
      }
    }

    /**
     * set_max_speed_z: the descent speed is forced negative; nothing changes
     * unless one of the speeds moves by more than 1 cm/s, and then both
     * leashes are recomputed.
     */
    method SetMaxSpeedZ(speedDown: real, speedUp: real)
      requires Valid()
      modifies this`speedDownCms, this`speedUpCms, this`flags, this`leashUpZ, this`leashDownZ
      ensures Valid()
      ensures var sd := -Abs(speedDown);
              if Abs(old(speedDownCms) - sd) > 1.0 || Abs(old(speedUpCms) - speedUp) > 1.0 then
                speedDownCms == sd && speedUpCms == speedUp
                && leashUpZ == CalcLeashLength(speedUp, accelZCms, pPosZ)
                && leashDownZ == CalcLeashLength(Abs(speedDown), accelZCms, pPosZ)
                && flags == old(flags).(recalcLeashZ := false)
              else
                speedDownCms == old(speedDownCms) && speedUpCms == old(speedUpCms)
                && leashUpZ == old(leashUpZ) && leashDownZ == old(leashDownZ) && flags == old(flags)
    {
      var sd := -Abs(speedDown);
      if Abs(speedDownCms - sd) > 1.0 || Abs(speedUpCms - speedUp) > 1.0 {
        speedDownCms := sd;
        speedUpCms := speedUp;
        flags := flags.(recalcLeashZ := true);
        CalcLeashLengthZ();
      }
    }

    /** set_max_accel_z: nothing changes unless the acceleration moves by more than 1 cm/s/s. */
    method SetMaxAccelZ(accelCmss: real)
      requires Valid()
      modifies this`accelZCms, this`flags, this`leashUpZ, this`leashDownZ
      ensures Valid()
      ensures if Abs(old(accelZCms) - accelCmss) > 1.0 then
                accelZCms == accelCmss
                && leashUpZ == CalcLeashLength(speedUpCms, accelCmss, pPosZ)
                && leashDownZ == CalcLeashLength(-speedDownCms, accelCmss, pPosZ)
                && flags == old(flags).(recalcLeashZ := false)
              else
                accelZCms == old(accelZCms) && leashUpZ == old(leashUpZ) && leashDownZ == old(leashDownZ)
                && flags == old(flags)
    {
      if Abs(accelZCms - accelCmss) > 1.0 {
        accelZCms := accelCmss;
        flags := flags.(recalcLeashZ := true);
        CalcLeashLengthZ();
      }
    }

    /** set_max_accel_xy: nothing changes unless the acceleration moves by more than 1 cm/s/s. */
    method SetMaxAccelXY(accelCmss: real)
      requires Valid()
      modifies this`accelCms, this`flags, this`leash
      ensures Valid()
      ensures if Abs(old(accelCms) - accelCmss) > 1.0 then
                accelCms == accelCmss && leash == CalcLeashLength(speedCms, accelCmss, pPosXY)
                && flags == old(flags).(recalcLeashXY := false)
              else
                accelCms == old(accelCms) && leash == old(leash) && flags == old(flags)
    {
      if Abs(accelCms - accelCmss) > 1.0 {
        accelCms := accelCmss;
        flags := flags.(recalcLeashXY := true);
        CalcLeashLengthXY();
      }
    }

    /** set_max_speed_xy: nothing changes unless the speed moves by more than 1 cm/s. */
    method SetMaxSpeedXY(speed: real)
      requires Valid()
      modifies this`speedCms, this`flags, this`leash
      ensures Valid()
      ensures if Abs(old(speedCms) - speed) > 1.0 then
                speedCms == speed && leash == CalcLeashLength(speed, accelCms, pPosXY)
                && flags == old(flags).(recalcLeashXY := false)
              else
                speedCms == old(speedCms) && leash == old(leash) && flags == old(flags)
    {
      if Abs(speedCms - speed) > 1.0 {
        speedCms := speed;
        flags := flags.(recalcLeashXY := true);
        CalcLeashLengthXY();
      }
    }

    // -------------------------------------------------------------------
    // Moving the targets

    /**
     * set_alt_target_with_slew: the altitude target moves toward altCm at no
     * more than the climb or descent speed, only in a direction the motors
     * can still push, and ends within the leashes of the current altitude.
     */
    method SetAltTargetWithSlew(altCm: real, dt: real, currAlt: real, motors: Motors)
      requires Valid()
      modifies this`flags, this`posTarget, this`velDesired
      ensures Valid()
      ensures flags == old(flags).(useDesvelFfZ := false)
      ensures var change := altCm - old(posTarget.z);
              var moves := ((change < 0.0 && !motors.throttleLower) || (change > 0.0 && !motors.throttleUpper))
                           && !IsZero(dt);
              var raw := if moves then old(posTarget.z) + SlewClimbRate(change, dt, speedDownCms, speedUpCms) * dt
                         else old(posTarget.z);
              posTarget == old(posTarget).(z := Constrain(raw, currAlt - leashDownZ, currAlt + leashUpZ))
              && velDesired == (if moves then old(velDesired).(z := SlewClimbRate(change, dt, speedDownCms, speedUpCms))
                                else old(velDesired))
      ensures currAlt - leashDownZ <= posTarget.z <= currAlt + leashUpZ
    {
      var altChange := altCm - posTarget.z;
      flags := flags.(useDesvelFfZ := false);
      if (altChange < 0.0 && !motors.throttleLower) || (altChange > 0.0 && !motors.throttleUpper) {
        if !IsZero(dt) {
          var climbRateCms := SlewClimbRate(altChange, dt, speedDownCms, speedUpCms);
          posTarget := posTarget.(z := posTarget.z + climbRateCms * dt);
          velDesired := velDesired.(z := climbRateCms);
        }
      }
      posTarget := posTarget.(z := Constrain(posTarget.z, currAlt - leashDownZ, currAlt + leashUpZ));
    }

    /**
     * set_alt_target_from_climb_rate: the target moves by climbRate * dt
     * unless the motors (or, climbing, the upper position limit) forbid it;
     * the desired climb rate is recorded either way.
     */
    method SetAltTargetFromClimbRate(climbRateCms: real, dt: real, forceDescend: bool, motors: Motors)
      requires Valid()
      modifies this`flags, this`posTarget, this`velDesired
      ensures Valid()
      ensures flags == old(flags).(useDesvelFfZ := false)
      ensures velDesired == old(velDesired).(z := climbRateCms)
      ensures if ClimbAllowed(climbRateCms, forceDescend, motors, limit.posUp) then
                posTarget == old(posTarget).(z := old(posTarget.z) + climbRateCms * dt)
              else
                posTarget == old(posTarget)
    {
      if ClimbAllowed(climbRateCms, forceDescend, motors, limit.posUp) {
        posTarget := posTarget.(z := posTarget.z + climbRateCms * dt);
      }
      flags := flags.(useDesvelFfZ := false);
      velDesired := velDesired.(z := climbRateCms);
    }

    /** shift_alt_target: moves the altitude target and freezes the feed-forward when the shift is not zero. */
    method ShiftAltTarget(zCm: real)
      requires Valid()
      modifies this`posTarget, this`flags
      ensures Valid()
      ensures posTarget == old(posTarget).(z := old(posTarget.z) + zCm)
      ensures flags == if IsZero(zCm) then old(flags) else old(flags).(freezeFfZ := true)
    {
      posTarget := posTarget.(z := posTarget.z + zCm);
      if !IsZero(zCm) {
        flags := flags.(freezeFfZ := true);
      }
    }

    /** shift_pos_xy_target */
    method ShiftPosXYTarget(xCm: real, yCm: real)
      requires Valid()
      modifies this`posTarget
      ensures Valid()
      ensures posTarget == old(posTarget).(x := old(posTarget.x) + xCm, y := old(posTarget.y) + yCm)
    {
      posTarget := posTarget.(x := posTarget.x + xCm, y := posTarget.y + yCm);
    }

    /** desired_vel_to_pos: a negative step is ignored; a pending reset consumes the call. */
    method DesiredVelToPos(navDt: real)
      requires Valid()
      modifies this`posTarget, this`flags
      ensures Valid()
      ensures navDt < 0.0 ==> posTarget == old(posTarget) && flags == old(flags)
      ensures navDt >= 0.0 && old(flags.resetDesiredVelToPos) ==>
                posTarget == old(posTarget) && flags == old(flags).(resetDesiredVelToPos := false)
      ensures navDt >= 0.0 && !old(flags.resetDesiredVelToPos) ==>
                flags == old(flags)
                && posTarget == old(posTarget).(x := old(posTarget.x) + velDesired.x * navDt,
                                                y := old(posTarget.y) + velDesired.y * navDt)
    {
      if navDt < 0.0 {
        return;
      }
      if flags.resetDesiredVelToPos {
        flags := flags.(resetDesiredVelToPos := false);
      } else {
        posTarget := posTarget.(x := posTarget.x + velDesired.x * navDt, y := posTarget.y + velDesired.y * navDt);
      }
    }

    /** desired_accel_to_vel: a negative step is ignored; a pending reset consumes the call. */
    method DesiredAccelToVel(navDt: real)
      requires Valid()
      modifies this`velDesired, this`flags
      ensures Valid()
      ensures navDt < 0.0 ==> velDesired == old(velDesired) && flags == old(flags)
      ensures navDt >= 0.0 && old(flags.resetDesiredVelToPos) ==>
                velDesired == old(velDesired) && flags == old(flags).(resetDesiredVelToPos := false)
      ensures navDt >= 0.0 && !old(flags.resetDesiredVelToPos) ==>
                flags == old(flags)
                && velDesired == old(velDesired).(x := old(velDesired.x) + accelDesired.x * navDt,
                                                  y := old(velDesired.y) + accelDesired.y * navDt)
    {
      if navDt < 0.0 {
        return;
      }
      if flags.resetDesiredVelToPos {
        flags := flags.(resetDesiredVelToPos := false);
      } else {
        velDesired := velDesired.(x := velDesired.x + accelDesired.x * navDt, y := velDesired.y + accelDesired.y * navDt);
      }
    }

    // -------------------------------------------------------------------
    // Stopping points

    /**
     * The climb rate get_stopping_point_z works from: while the controller
     * is active the velocity error is added to the measured climb rate, less
     * the desired climb rate when that is fed forward.
     */
    function StoppingVelZ(currVelZ: real, active: bool): (r: real)
      reads this
    {
      if active then currVelZ + velError.z - (if flags.useDesvelFfZ then velDesired.z else 0.0) else currVelZ
    }

    /**
     * get_stopping_point_z: the altitude at which the vehicle comes to rest
     * is the leash law at that climb rate, but no more than 300 cm above
     * and 200 cm below the current altitude.
     */
    function GetStoppingPointZ(currPosZ: real, currVelZ: real, active: bool): (r: real)
      reads this
      ensures currPosZ - StoppingDistDownMax <= r <= currPosZ + StoppingDistUpMax
      ensures pPosZ > 0.0 && accelZCms > 0.0 ==>
                r == Constrain(currPosZ + SignedLeashLaw(StoppingVelZ(currVelZ, active), accelZCms, pPosZ),
                               currPosZ - StoppingDistDownMax, currPosZ + StoppingDistUpMax)
      ensures pPosZ <= 0.0 || accelZCms <= 0.0 ==> r == currPosZ
      ensures StoppingVelZ(currVelZ, active) >= 0.0 ==> r >= currPosZ
      ensures StoppingVelZ(currVelZ, active) <= 0.0 ==> r <= currPosZ
    {
      var v := StoppingVelZ(currVelZ, active);
      if pPosZ > 0.0 && accelZCms > 0.0 then
        StoppingPointZIsLeashLaw(currPosZ, v, pPosZ, accelZCms);
        StoppingPointZ(currPosZ, v, pPosZ, accelZCms)
      else
        StoppingPointZ(currPosZ, v, pPosZ, accelZCms)
    }

    /** The velocity get_stopping_point_xy works from: the velocity error is added while active. */
    function StoppingVelXY(currVel: Vec2, active: bool): (r: Vec2)
      reads this
    {
      if active then Vec2(currVel.x + velError.x, currVel.y + velError.y) else currVel
    }

    /**
     * get_stopping_point_xy: the point at which the vehicle comes to rest
     * lies along that velocity, no further than the leash; it is the
     * current position when the gain or acceleration is unusable or the
     * vehicle is not moving.
     */
    function GetStoppingPointXY(currPos: Vec2, currVel: Vec2, active: bool): (r: Vec2)
      requires IsSqrt(sqrt)
      reads this
      ensures StepAlong(Vec2(r.x - currPos.x, r.y - currPos.y), StoppingVelXY(currVel, active), leash)
      ensures var v := StoppingVelXY(currVel, active);
              pPosXY <= 0.0 || accelCms <= 0.0 || IsZero(Norm(sqrt, v.x, v.y)) ==> r == currPos
    {
      StoppingPointXY(currPos, StoppingVelXY(currVel, active), pPosXY, accelCms, leash, sqrt)
    }

    /** With a usable gain and acceleration and a moving vehicle, the stopping point is the leash law distance away. */
    lemma GetStoppingPointXYDistance(currPos: Vec2, currVel: Vec2, active: bool)
      requires IsSqrt(sqrt)
      requires var v := StoppingVelXY(currVel, active);
               pPosXY > 0.0 && accelCms > 0.0 && !IsZero(Norm(sqrt, v.x, v.y))
      ensures var v := StoppingVelXY(currVel, active);
              var r := GetStoppingPointXY(currPos, currVel, active);
              var d := Constrain(LeashLaw(Norm(sqrt, v.x, v.y), accelCms, pPosXY), 0.0, leash);
              Len2(Vec2(r.x - currPos.x, r.y - currPos.y)) == d * d
    {
      StoppingPointXYDistance(currPos, StoppingVelXY(currVel, active), pPosXY, accelCms, leash, sqrt);
    }

    // -------------------------------------------------------------------
    // The vertical cascade (calc_roll_pitch_throttle)

    /** The leash step: the altitude target is pulled back to the leashes of the current altitude. */
    method ClampAltitudeTarget(currAlt: real)
      requires Valid()
      modifies this`posTarget, this`posError, this`limit
      ensures Valid()
      ensures var c := LeashClampZ(old(posTarget.z), currAlt, leashUpZ, leashDownZ);
              posTarget == old(posTarget).(z := c.posTargetZ)
              && posError == old(posError).(z := c.posErrorZ)
              && limit == old(limit).(posUp := c.posUp, posDown := c.posDown)
    {
      limit := limit.(posUp := false, posDown := false);
      posError := posError.(z := posTarget.z - currAlt);
      if posError.z > leashUpZ {
        posTarget := posTarget.(z := currAlt + leashUpZ);
        posError := posError.(z := leashUpZ);
        limit := limit.(posUp := true);
      }
      if posError.z < -leashDownZ {
        posTarget := posTarget.(z := currAlt - leashDownZ);
        posError := posError.(z := -leashDownZ);
        limit := limit.(posDown := true);
      }
    }

    /** Position to rate: the square-root controller, the speed clamps and the desired-velocity feed-forward. */
    method PosToRateZ(sqrtControllerZ: (real, real, real, real) -> real)
      requires Valid()
      modifies this`velTarget, this`limit
      ensures Valid()
      ensures var s := SpeedClampZ(sqrtControllerZ(posError.z, pPosZ, accelZCms, dt), speedDownCms, speedUpCms);
              limit == old(limit).(velUp := s.velUp, velDown := s.velDown)
              && velTarget == old(velTarget).(z := s.velTargetZ + (if flags.useDesvelFfZ then velDesired.z else 0.0))
    {
      velTarget := velTarget.(z := sqrtControllerZ(posError.z, pPosZ, accelZCms, dt));
      limit := limit.(velUp := false, velDown := false);
      if velTarget.z < speedDownCms {
        velTarget := velTarget.(z := speedDownCms);
        limit := limit.(velDown := true);
      }
      if velTarget.z > speedUpCms {
        velTarget := velTarget.(z := speedUpCms);
        limit := limit.(velUp := true);
      }
      if flags.useDesvelFfZ {
        velTarget := velTarget.(z := velTarget.z + velDesired.z);
      }
    }

    /**
     * Rate to acceleration: the feed-forward acceleration (frozen for one
     * cycle when requested), the filtered velocity error and the
     * acceleration target.  Returns whether the one-shot reset fired, which
     * also resets the wing filters.
     */
    method RateToAccelZ(currVelZ: real, velErrorFilter: (real, real) -> real) returns (resetFilters: bool)
      requires Valid()
      modifies this`velLastZ, this`accelDesired, this`flags, this`velError, this`accelTarget
      ensures Valid()
      ensures resetFilters == old(flags.resetRateToAccelZ)
      ensures var last := if resetFilters then velTarget.z else old(velLastZ);
              var ff := FeedForwardZ(dt, old(flags.freezeFfZ), velTarget.z, last, old(accelDesired.z));
              accelDesired == old(accelDesired).(z := ff.accelDesiredZ)
              && flags == old(flags).(freezeFfZ := ff.freezeFfZ, resetRateToAccelZ := false)
      ensures velLastZ == velTarget.z
      ensures velError == old(velError).(z := if resetFilters then 0.0 else velErrorFilter(velTarget.z - currVelZ, dt))
      ensures accelTarget == old(accelTarget).(z := GetP(pVelZ, velError.z) + accelDesired.z)
    {
      resetFilters := flags.resetRateToAccelZ;
      var last := if resetFilters then velTarget.z else velLastZ;
      var ff := FeedForwardZ(dt, flags.freezeFfZ, velTarget.z, last, accelDesired.z);
      var errorZ := if resetFilters then 0.0 else velErrorFilter(velTarget.z - currVelZ, dt);
      accelDesired := accelDesired.(z := ff.accelDesiredZ);
      velLastZ := velTarget.z;
      flags := flags.(freezeFfZ := ff.freezeFfZ, resetRateToAccelZ := false);
      velError := velError.(z := errorZ);
      accelTarget := accelTarget.(z := GetP(pVelZ, errorZ) + ff.accelDesiredZ);
    }

    /**
     * Acceleration to lift: the accelerometer PID with its IMAX raised to
     * cover hover throttle and its integrator frozen at a throttle limit
     * unless the error would unwind it, less the wing's lift.
     */
    method AccelToLiftZ(accelEfBlendedZ: real, motors: Motors, pid: AccelPid, wingLiftFilter: (real, real, bool) -> real,
                        resetFilters: bool, wingCosPitch: real) returns (lift: Lift)
      requires Valid()
      modifies this`accelErrorZ, this`flags, this`accelZImax
      ensures Valid()
      ensures unchanged(this`posTarget, this`posError, this`limit)
      ensures 0.0 <= lift.liftGDemand <= 2.0 && 0.0 <= lift.wingLiftG <= 1.0
      ensures accelZImax == Max(old(accelZImax), motors.throttleHover * 1000.0)
      ensures accelErrorZ == if old(flags.resetAccelToThrottle) then 0.0
                             else accelTarget.z + (accelEfBlendedZ + GravityMss) * 100.0
      ensures flags == old(flags).(resetAccelToThrottle := false)
      ensures var i := if IntegratorMayUpdate(motors.throttleLower, motors.throttleUpper, pid.integrator, accelErrorZ)
                       then pid.updatedI(accelErrorZ, accelZImax) else pid.integrator;
              lift == LiftDemand(pid.p(accelErrorZ), i, pid.d(accelErrorZ),
                                 wingLiftFilter(WingLiftInput(accelZWingK, wingCosPitch), dt, resetFilters))
    {
      var zAccelMeas := -(accelEfBlendedZ + GravityMss) * 100.0;
      var errorZ := if flags.resetAccelToThrottle then 0.0 else accelTarget.z - zAccelMeas;
      var imax := Max(accelZImax, motors.throttleHover * 1000.0);
      var i := if IntegratorMayUpdate(motors.throttleLower, motors.throttleUpper, pid.integrator, errorZ)
               then pid.updatedI(errorZ, imax) else pid.integrator;
      var wingLiftG := wingLiftFilter(WingLiftInput(accelZWingK, wingCosPitch), dt, resetFilters);
      accelErrorZ := errorZ;
      flags := flags.(resetAccelToThrottle := false);
      accelZImax := imax;
      lift := LiftDemand(pid.p(errorZ), i, pid.d(errorZ), wingLiftG);
    }

    /**
     * The throttle output: the blended thrust vector when the horizontal
     * controller has just updated its acceleration target (the flag is
     * consumed), otherwise the lift demand times hover throttle with angle
     * boost.
     */
    method OutputThrottle(liftGDemand: real, inputs: VerticalInputs, resetFilters: bool)
      requires Valid() && inputs.att.eas2tas > 0.0
      modifies this`accelTargetXYUpdated, this`velForwardFilt, this`pitchTargetCd, this`rollTargetCd,
               this`throttleOut, this`throttleAngleBoost
      ensures Valid()
      ensures unchanged(this`posTarget, this`posError, this`limit)
      ensures !accelTargetXYUpdated
      ensures throttleAngleBoost <==> !old(accelTargetXYUpdated)
      ensures !old(accelTargetXYUpdated) ==>
                throttleOut == HoverThrottle(liftGDemand, inputs.motors.throttleHover)
                && velForwardFilt == old(velForwardFilt)
                && pitchTargetCd == old(pitchTargetCd) && rollTargetCd == old(rollTargetCd)
      ensures !old(accelTargetXYUpdated) && 0.0 <= liftGDemand <= 2.0 && 0.0 <= inputs.motors.throttleHover ==>
                0.0 <= throttleOut <= 2.0 * inputs.motors.throttleHover
      ensures old(accelTargetXYUpdated) ==>
                var b := BlendedThrust(sqrt, inputs.trig, inputs.att, inputs.lean,
                                       BlendConfig(trimTau, fwdBcoef, accelZWingK), dt, velTarget, velXYErrorInteg,
                                       old(velForwardFilt), accelTarget, liftGDemand, inputs.motors.throttleHover,
                                       (v, t) => inputs.wingDragFilter(v, t, resetFilters));
                velForwardFilt == b.velForwardFilt && pitchTargetCd == b.pitchTargetCd
                && rollTargetCd == b.rollTargetCd && throttleOut == b.throttle
    {
      if accelTargetXYUpdated {
        accelTargetXYUpdated := false;
        var b := BlendedThrust(sqrt, inputs.trig, inputs.att, inputs.lean,
                               BlendConfig(trimTau, fwdBcoef, accelZWingK), dt, velTarget, velXYErrorInteg,
                               velForwardFilt, accelTarget, liftGDemand, inputs.motors.throttleHover,
                               (v, t) => inputs.wingDragFilter(v, t, resetFilters));
        velForwardFilt := b.velForwardFilt;
        pitchTargetCd := b.pitchTargetCd;
        rollTargetCd := b.rollTargetCd;
        throttleOut := b.throttle;
        throttleAngleBoost := false;
      } else {
        throttleOut := HoverThrottle(liftGDemand, inputs.motors.throttleHover);
        throttleAngleBoost := true;
      }
    }

    /**
     * The first half of calc_roll_pitch_throttle: altitude target to
     * acceleration target.  Returns whether the one-shot rate reset fired
     * and, as ghosts, the leash clamp and the square-root controller's
     * climb-rate output.
     */
    method AltitudeToAccelZ(inputs: VerticalInputs) returns (resetFilters: bool, ghost clamp: AltClamp, ghost rateZ: real)
      requires Valid()
      modifies this`posTarget, this`posError, this`limit, this`velTarget, this`velLastZ, this`accelDesired,
               this`flags, this`velError, this`accelTarget
      ensures Valid()
      ensures -leashDownZ <= posError.z <= leashUpZ && posTarget.z == inputs.currAlt + posError.z
      ensures limit.posUp <==> old(posTarget.z) - inputs.currAlt > leashUpZ
      ensures limit.posDown <==> old(posTarget.z) - inputs.currAlt < -leashDownZ
      ensures !limit.posUp && !limit.posDown ==> posTarget == old(posTarget)
      ensures posTarget.x == old(posTarget.x) && posTarget.y == old(posTarget.y)
      ensures clamp == LeashClampZ(old(posTarget.z), inputs.currAlt, leashUpZ, leashDownZ)
      ensures posTarget == old(posTarget).(z := clamp.posTargetZ) && posError == old(posError).(z := clamp.posErrorZ)
      ensures LeashedZ(inputs.currAlt, leashUpZ, leashDownZ, old(posTarget), old(posError), old(limit),
                       posTarget, posError, limit, clamp)
      // the speed clamps and the desired-velocity feed-forward
      ensures rateZ == inputs.sqrtControllerZ(posError.z, pPosZ, accelZCms, dt)
      ensures var s := SpeedClampZ(rateZ, speedDownCms, speedUpCms);
              limit == old(limit).(posUp := clamp.posUp, posDown := clamp.posDown, velUp := s.velUp, velDown := s.velDown)
              && velTarget == old(velTarget).(z := s.velTargetZ + (if old(flags.useDesvelFfZ) then velDesired.z else 0.0))
      // the feed-forward acceleration, the velocity error and the acceleration target
      ensures resetFilters == old(flags.resetRateToAccelZ)
      ensures var last := if resetFilters then velTarget.z else old(velLastZ);
              var ff := FeedForwardZ(dt, old(flags.freezeFfZ), velTarget.z, last, old(accelDesired.z));
              accelDesired == old(accelDesired).(z := ff.accelDesiredZ)
              && flags == old(flags).(freezeFfZ := ff.freezeFfZ, resetRateToAccelZ := false)
      ensures velLastZ == velTarget.z
      ensures velError == old(velError).(z := if resetFilters then 0.0 else inputs.velErrorFilter(velTarget.z - inputs.currVelZ, dt))
      ensures accelTarget == old(accelTarget).(z := GetP(pVelZ, velError.z) + accelDesired.z)
      ensures dt > 0.0 ==> !flags.freezeFfZ
      ensures dt > 0.0 && old(flags.freezeFfZ) ==> accelDesired == old(accelDesired)
    {
      clamp := LeashClampZ(posTarget.z, inputs.currAlt, leashUpZ, leashDownZ);
      ClampAltitudeTarget(inputs.currAlt);
      rateZ := inputs.sqrtControllerZ(posError.z, pPosZ, accelZCms, dt);
      PosToRateZ(inputs.sqrtControllerZ);
      resetFilters := RateToAccelZ(inputs.currVelZ, inputs.velErrorFilter);
    }

    /**
     * The second half of calc_roll_pitch_throttle: acceleration target to
     * the throttle (and, when blending, pitch and roll) output.
     */
    method AccelToThrottleZ(inputs: VerticalInputs, resetFilters: bool) returns (ghost lift: Lift)
      requires Valid() && inputs.att.eas2tas > 0.0
      modifies this`flags, this`accelErrorZ, this`accelZImax, this`accelTargetXYUpdated, this`velForwardFilt,
               this`pitchTargetCd, this`rollTargetCd, this`throttleOut, this`throttleAngleBoost
      ensures Valid()
      ensures unchanged(this`posTarget, this`posError, this`limit)
      ensures flags == old(flags).(resetAccelToThrottle := false) && !accelTargetXYUpdated
      // the acceleration error and the lift demand
      ensures accelZImax == Max(old(accelZImax), inputs.motors.throttleHover * 1000.0)
      ensures accelErrorZ == if old(flags.resetAccelToThrottle) then 0.0
                             else accelTarget.z + (inputs.accelEfBlendedZ + GravityMss) * 100.0
      ensures var m := inputs.motors;
              var i := if IntegratorMayUpdate(m.throttleLower, m.throttleUpper, inputs.pid.integrator, accelErrorZ)
                       then inputs.pid.updatedI(accelErrorZ, accelZImax) else inputs.pid.integrator;
              lift == LiftDemand(inputs.pid.p(accelErrorZ), i, inputs.pid.d(accelErrorZ),
                                 inputs.wingLiftFilter(WingLiftInput(accelZWingK, inputs.att.wingCosPitch), dt, resetFilters))
      ensures 0.0 <= lift.liftGDemand <= 2.0 && 0.0 <= lift.wingLiftG <= 1.0
      // the throttle output
      ensures throttleAngleBoost <==> !old(accelTargetXYUpdated)
      ensures !old(accelTargetXYUpdated) ==>
                throttleOut == HoverThrottle(lift.liftGDemand, inputs.motors.throttleHover)
                && velForwardFilt == old(velForwardFilt)
                && pitchTargetCd == old(pitchTargetCd) && rollTargetCd == old(rollTargetCd)
      ensures !old(accelTargetXYUpdated) && 0.0 <= inputs.motors.throttleHover ==>
                0.0 <= throttleOut <= 2.0 * inputs.motors.throttleHover
      ensures old(accelTargetXYUpdated) ==>
                var b := BlendedThrust(sqrt, inputs.trig, inputs.att, inputs.lean,
                                       BlendConfig(trimTau, fwdBcoef, accelZWingK), dt, velTarget, velXYErrorInteg,
                                       old(velForwardFilt), accelTarget, lift.liftGDemand, inputs.motors.throttleHover,
                                       (v, t) => inputs.wingDragFilter(v, t, resetFilters));
                velForwardFilt == b.velForwardFilt && pitchTargetCd == b.pitchTargetCd
                && rollTargetCd == b.rollTargetCd && throttleOut == b.throttle
      ensures accelZImax >= inputs.motors.throttleHover * 1000.0
    {
      var demand := AccelToLiftZ(inputs.accelEfBlendedZ, inputs.motors, inputs.pid, inputs.wingLiftFilter,
                                 resetFilters, inputs.att.wingCosPitch);
      lift := demand;
      OutputThrottle(demand.liftGDemand, inputs, resetFilters);
    }

    /**
     * calc_roll_pitch_throttle: one cycle of the vertical cascade, from
     * the altitude target to the throttle (and, when blending, pitch and
     * roll) output.
     * The ghost results are the leash clamp and the lift demand.
     */
    method CalcRollPitchThrottle(inputs: VerticalInputs) returns (ghost clamp: AltClamp, ghost lift: Lift)
      requires Valid() && inputs.att.eas2tas > 0.0
      modifies this`posTarget, this`posError, this`limit, this`velTarget, this`velLastZ, this`accelDesired,
               this`flags, this`velError, this`accelTarget, this`accelErrorZ, this`accelZImax,
               this`accelTargetXYUpdated, this`velForwardFilt, this`pitchTargetCd, this`rollTargetCd,
               this`throttleOut, this`throttleAngleBoost
      ensures Valid()
      // the leash step
      ensures -leashDownZ <= posError.z <= leashUpZ && posTarget.z == inputs.currAlt + posError.z
      ensures limit.posUp <==> old(posTarget.z) - inputs.currAlt > leashUpZ
      ensures limit.posDown <==> old(posTarget.z) - inputs.currAlt < -leashDownZ
      ensures !limit.posUp && !limit.posDown ==> posTarget == old(posTarget)
      ensures posTarget.x == old(posTarget.x) && posTarget.y == old(posTarget.y)
      ensures LeashedZ(inputs.currAlt, leashUpZ, leashDownZ, old(posTarget), old(posError), old(limit),
                       posTarget, posError, limit, clamp)
      // the one-shot flags
      ensures !flags.resetRateToAccelZ && !flags.resetAccelToThrottle
      ensures flags == old(flags).(freezeFfZ := flags.freezeFfZ, resetRateToAccelZ := false, resetAccelToThrottle := false)
      ensures dt > 0.0 ==> !flags.freezeFfZ
      ensures dt > 0.0 && old(flags.freezeFfZ) ==> accelDesired == old(accelDesired)
      // the acceleration error and the lift demand
      ensures accelZImax == Max(old(accelZImax), inputs.motors.throttleHover * 1000.0)
      ensures accelErrorZ == if old(flags.resetAccelToThrottle) then 0.0
                             else accelTarget.z + (inputs.accelEfBlendedZ + GravityMss) * 100.0
      ensures var m := inputs.motors;
              var i := if IntegratorMayUpdate(m.throttleLower, m.throttleUpper, inputs.pid.integrator, accelErrorZ)
                       then inputs.pid.updatedI(accelErrorZ, accelZImax) else inputs.pid.integrator;
              lift == LiftDemand(inputs.pid.p(accelErrorZ), i, inputs.pid.d(accelErrorZ),
                                 inputs.wingLiftFilter(WingLiftInput(accelZWingK, inputs.att.wingCosPitch), dt,
                                                       old(flags.resetRateToAccelZ)))
      ensures 0.0 <= lift.liftGDemand <= 2.0 && 0.0 <= lift.wingLiftG <= 1.0
      // the throttle output
      ensures !accelTargetXYUpdated
      ensures throttleAngleBoost <==> !old(accelTargetXYUpdated)
      ensures !old(accelTargetXYUpdated) ==>
                throttleOut == HoverThrottle(lift.liftGDemand, inputs.motors.throttleHover)
                && velForwardFilt == old(velForwardFilt)
                && pitchTargetCd == old(pitchTargetCd) && rollTargetCd == old(rollTargetCd)
      ensures !old(accelTargetXYUpdated) && 0.0 <= inputs.motors.throttleHover ==>
                0.0 <= throttleOut <= 2.0 * inputs.motors.throttleHover
      ensures old(accelTargetXYUpdated) ==>
                var b := BlendedThrust(sqrt, inputs.trig, inputs.att, inputs.lean,
                                       BlendConfig(trimTau, fwdBcoef, accelZWingK), dt, velTarget, velXYErrorInteg,
                                       old(velForwardFilt), accelTarget, lift.liftGDemand, inputs.motors.throttleHover,
                                       (v, t) => inputs.wingDragFilter(v, t, old(flags.resetRateToAccelZ)));
                velForwardFilt == b.velForwardFilt && pitchTargetCd == b.pitchTargetCd
                && rollTargetCd == b.rollTargetCd && throttleOut == b.throttle
      ensures accelZImax >= inputs.motors.throttleHover * 1000.0
    {
      var resetFilters, c, rateZ := AltitudeToAccelZ(inputs);
      clamp := c;
      lift := AccelToThrottleZ(inputs, resetFilters);
    }

    // -------------------------------------------------------------------
    // The horizontal cascade (run_xy_controller)

    /**
     * Position to velocity: the error is held to the leash (the target is
     * pulled in with it) and turned into a velocity by the square-root
     * controller, whose z passes the altitude error through; the desired
     * velocity is then fed forward.
     */
    method PosToVelXY(currPos: Vec2, kP: real)
      requires Valid()
      modifies this`posError, this`posTarget, this`velTarget
      ensures Valid()
      ensures kP <= 0.0 ==> posError == old(posError) && posTarget == old(posTarget)
      ensures kP > 0.0 ==> LeashedXY(currPos, leash, old(posTarget), old(posError), posTarget, posError)
      ensures kP > 0.0 ==> WithinLength(Vec2(posError.x, posError.y), leash)
      ensures var v := if kP <= 0.0 then old(velTarget).(x := 0.0, y := 0.0)
                       else SqrtController(posError, kP, accelCms, sqrt);
              velTarget == v.(x := v.x + velDesired.x, y := v.y + velDesired.y)
    {
      if kP <= 0.0 {
        velTarget := velTarget.(x := 0.0, y := 0.0);
      } else {
        posError := posError.(x := posTarget.x - currPos.x, y := posTarget.y - currPos.y);
        var limited, ex, ey := LimitVectorLength(posError.x, posError.y, leash, sqrt);
        assert VectorLimited(limited, Vec2(posError.x, posError.y), Vec2(ex, ey), leash);
        posError := posError.(x := ex, y := ey);
        if limited {
          posTarget := posTarget.(x := currPos.x + posError.x, y := currPos.y + posError.y);
        } else {
          EpsilonWithinLeash(ex, ey, leash);
        }
        velTarget := SqrtController(posError, kP, accelCms, sqrt);
      }
      velTarget := velTarget.(x := velTarget.x + velDesired.x, y := velTarget.y + velDesired.y);
    }

    /** The velocity error: the measured velocity is taken unless an override supplied it. */
    method VelErrorXY(inputs: HorizontalInputs)
      requires Valid()
      modifies this`flags, this`vehicleHorizVel, this`velError
      ensures Valid()
      ensures vehicleHorizVel == if old(flags.vehicleHorizVelOverride) then old(vehicleHorizVel) else inputs.currVel
      ensures flags == old(flags).(vehicleHorizVelOverride := false)
      ensures velError == old(velError).(x := velTarget.x - vehicleHorizVel.x, y := velTarget.y - vehicleHorizVel.y)
    {
      if flags.vehicleHorizVelOverride {
        flags := flags.(vehicleHorizVelOverride := false);
      } else {
        vehicleHorizVel := inputs.currVel;
      }
      velError := velError.(x := velTarget.x - vehicleHorizVel.x, y := velTarget.y - vehicleHorizVel.y);
    }

    /**
     * The wind-drift integral: the integral gain scale relaxes, and the
     * integral follows its airspeed cap and is held while hold is set.
     */
    method WindDriftXY(dt: real, hold: bool)
      requires Valid()
      modifies this`velErrIGainScale, this`velXYErrorInteg, this`velXYIntegLengthPrev
      ensures Valid()
      ensures velErrIGainScale == GainScaleStep(old(velErrIGainScale), dt)
      ensures WindDrift(velXYErrorInteg, velXYIntegLengthPrev)
              == WindDriftStep(old(velXYErrorInteg), IntegIncrement(Vec2(velError.x, velError.y), velErrIGainScale, velErrIGain, dt),
                               MaxAirspeed(), old(velXYIntegLengthPrev), hold, sqrt)
    {
      velErrIGainScale := GainScaleStep(velErrIGainScale, dt);
      var w := WindDriftStep(velXYErrorInteg, IntegIncrement(Vec2(velError.x, velError.y), velErrIGainScale, velErrIGain, dt),
                             MaxAirspeed(), velXYIntegLengthPrev, hold, sqrt);
      WindDriftWithinCap(velXYErrorInteg, IntegIncrement(Vec2(velError.x, velError.y), velErrIGainScale, velErrIGain, dt),
                         fwdSpdMax, velXYIntegLengthPrev, hold, sqrt);
      velXYErrorInteg := w.integ;
      velXYIntegLengthPrev := w.lengthPrev;
    }

    /** The 980 cm/s/s limit on the horizontal acceleration target, which the limit flag reports. */
    method LimitAccelXY(demand: Vec2)
      requires Valid()
      modifies this`accelTarget, this`limit, this`accelTargetXYUpdated
      ensures Valid()
      ensures accelTargetXYUpdated
      ensures accelTarget.z == old(accelTarget.z) && limit == old(limit).(accelXY := limit.accelXY)
      ensures VectorLimited(limit.accelXY, demand, Vec2(accelTarget.x, accelTarget.y), AccelXYMax)
      ensures WithinLength(Vec2(accelTarget.x, accelTarget.y), AccelXYMax)
    {
      var limited, ax, ay := LimitVectorLength(demand.x, demand.y, AccelXYMax, sqrt);
      assert VectorLimited(limited, demand, Vec2(ax, ay), AccelXYMax);
      VectorLimitedWithin(limited, demand, Vec2(ax, ay), AccelXYMax);
      accelTarget := accelTarget.(x := ax, y := ay);
      limit := limit.(accelXY := limited);
      accelTargetXYUpdated := true;
    }

    /**
     * The acceleration target: the velocity PID (its integrator shrinking
     * while held), the acceleration filter (reset once on request) and the
     * acceleration limit.
     */
    method AccelFromVelErrorXY(dt: real, inputs: HorizontalInputs, hold: bool)
      requires Valid()
      modifies this`flags, this`accelTarget, this`limit, this`accelTargetXYUpdated
      ensures Valid()
      ensures flags == old(flags).(resetAccelToLeanXY := false)
      ensures accelTargetXYUpdated
      ensures accelTarget.z == old(accelTarget.z) && limit == old(limit).(accelXY := limit.accelXY)
      ensures VectorLimited(limit.accelXY,
                            AccelDemandXY(inputs, Vec2(velError.x, velError.y), hold, old(flags.resetAccelToLeanXY),
                                          accelXYFiltHz, dt, accelDesired),
                            Vec2(accelTarget.x, accelTarget.y), AccelXYMax)
      ensures WithinLength(Vec2(accelTarget.x, accelTarget.y), AccelXYMax)
    {
      var resetFilter := flags.resetAccelToLeanXY;
      if resetFilter {
        flags := flags.(resetAccelToLeanXY := false);
      }
      LimitAccelXY(AccelDemandXY(inputs, Vec2(velError.x, velError.y), hold, resetFilter, accelXYFiltHz, dt, accelDesired));
    }

    /** The horizontal position gain, scaled by the navigation gain scaler. */
    function NavPosGain(navVelGainScaler: real): (r: real) {
      navVelGainScaler * pPosXY
    }

    /**
     * The second section of run_xy_controller: the velocity target to the
     * acceleration target, through the velocity error, the wind-drift
     * integral (held while the last cycle's acceleration was limited or the
     * throttle is at its top) and the velocity PID.
     */
    method VelToAccelXY(dt: real, inputs: HorizontalInputs)
      requires Valid()
      modifies this`flags, this`vehicleHorizVel, this`velError, this`velErrIGainScale, this`velXYErrorInteg,
               this`velXYIntegLengthPrev, this`accelTarget, this`limit, this`accelTargetXYUpdated
      ensures Valid()
      // velocity error
      ensures vehicleHorizVel == if old(flags.vehicleHorizVelOverride) then old(vehicleHorizVel) else inputs.currVel
      ensures velError == old(velError).(x := velTarget.x - vehicleHorizVel.x, y := velTarget.y - vehicleHorizVel.y)
      ensures flags == old(flags).(vehicleHorizVelOverride := false, resetAccelToLeanXY := false)
      // wind-drift integral
      ensures velErrIGainScale == GainScaleStep(old(velErrIGainScale), dt)
      ensures WindDrift(velXYErrorInteg, velXYIntegLengthPrev)
              == WindDriftStep(old(velXYErrorInteg),
                               IntegIncrement(Vec2(velError.x, velError.y), velErrIGainScale, velErrIGain, dt),
                               MaxAirspeed(), old(velXYIntegLengthPrev),
                               old(limit.accelXY) || inputs.motors.throttleUpper, sqrt)
      // acceleration target
      ensures accelTargetXYUpdated
      ensures accelTarget.z == old(accelTarget.z) && limit == old(limit).(accelXY := limit.accelXY)
      ensures VectorLimited(limit.accelXY,
                            AccelDemandXY(inputs, Vec2(velError.x, velError.y),
                                          old(limit.accelXY) || inputs.motors.throttleUpper,
                                          old(flags.resetAccelToLeanXY), accelXYFiltHz, dt, accelDesired),
                            Vec2(accelTarget.x, accelTarget.y), AccelXYMax)
      ensures WithinLength(Vec2(accelTarget.x, accelTarget.y), AccelXYMax)
    {
      VelErrorXY(inputs);
      var hold := limit.accelXY || inputs.motors.throttleUpper;
      WindDriftXY(dt, hold);
      AccelFromVelErrorXY(dt, inputs, hold);
    }

    /** run_xy_controller: one cycle of the horizontal cascade. */
    method RunXYController(dt: real, inputs: HorizontalInputs)
      requires Valid()
      modifies this`posError, this`posTarget, this`velTarget, this`flags, this`vehicleHorizVel, this`velError,
               this`velErrIGainScale, this`velXYErrorInteg, this`velXYIntegLengthPrev, this`accelTarget,
               this`limit, this`accelTargetXYUpdated
      ensures Valid()
      // position to velocity
      ensures NavPosGain(inputs.navVelGainScaler) <= 0.0 ==> posError == old(posError) && posTarget == old(posTarget)
      ensures NavPosGain(inputs.navVelGainScaler) > 0.0 ==>
                LeashedXY(inputs.currPos, leash, old(posTarget), old(posError), posTarget, posError)
                && WithinLength(Vec2(posError.x, posError.y), leash)
      ensures var kP := NavPosGain(inputs.navVelGainScaler);
              var v := if kP <= 0.0 then old(velTarget).(x := 0.0, y := 0.0)
                       else SqrtController(posError, kP, accelCms, sqrt);
              velTarget == v.(x := v.x + velDesired.x, y := v.y + velDesired.y)
      // velocity error
      ensures vehicleHorizVel == if old(flags.vehicleHorizVelOverride) then old(vehicleHorizVel) else inputs.currVel
      ensures velError == old(velError).(x := velTarget.x - vehicleHorizVel.x, y := velTarget.y - vehicleHorizVel.y)
      ensures flags == old(flags).(vehicleHorizVelOverride := false, resetAccelToLeanXY := false)
      // wind-drift integral, held while the last cycle's acceleration was limited or the throttle is at its top
      ensures velErrIGainScale == GainScaleStep(old(velErrIGainScale), dt)
      ensures WindDrift(velXYErrorInteg, velXYIntegLengthPrev)
              == WindDriftStep(old(velXYErrorInteg),
                               IntegIncrement(Vec2(velError.x, velError.y), velErrIGainScale, velErrIGain, dt),
                               MaxAirspeed(), old(velXYIntegLengthPrev),
                               old(limit.accelXY) || inputs.motors.throttleUpper, sqrt)
      // acceleration target
      ensures accelTargetXYUpdated
      ensures accelTarget.z == old(accelTarget.z) && limit == old(limit).(accelXY := limit.accelXY)
      ensures VectorLimited(limit.accelXY,
                            AccelDemandXY(inputs, Vec2(velError.x, velError.y),
                                          old(limit.accelXY) || inputs.motors.throttleUpper,
                                          old(flags.resetAccelToLeanXY), accelXYFiltHz, dt, accelDesired),
                            Vec2(accelTarget.x, accelTarget.y), AccelXYMax)
      ensures WithinLength(Vec2(accelTarget.x, accelTarget.y), AccelXYMax)
    {
      PosToVelXY(inputs.currPos, NavPosGain(inputs.navVelGainScaler));
      VelToAccelXY(dt, inputs);
    }

    /**
     * reset_wind_drift_integ: folds the filtered forward-speed demand back
     * into the wind-drift integral, within the airspeed cap.
     */
    method ResetWindDriftInteg(cosYaw: real, sinYaw: real)
      requires Valid()
      modifies this`velXYErrorInteg
      ensures Valid()
      ensures velXYErrorInteg
              == WindDriftReset(old(velXYErrorInteg), vehicleHorizVel, velForwardFilt, cosYaw, sinYaw, MaxAirspeed(), sqrt)
    {
      velXYErrorInteg := WindDriftReset(velXYErrorInteg, vehicleHorizVel, velForwardFilt, cosYaw, sinYaw, MaxAirspeed(), sqrt);
    }

    // -------------------------------------------------------------------
    // Estimator-reset compensation

    /** init_ekf_xy_reset: bookmarks the estimator's last horizontal reset. */
    method InitEkfXYReset(resetMs: Uint32)
      requires Valid()
      modifies this`ekfXYResetMs
      ensures Valid()
      ensures ekfXYResetMs == resetMs
    {
      ekfXYResetMs := resetMs;
    }

    /**
     * check_for_ekf_xy_reset: a reset the bookmark has not seen moves the
     * horizontal target by exactly the reported shift (in cm) and is
     * bookmarked; otherwise nothing changes.
     */
    method CheckForEkfXYReset(resetMs: Uint32, posShift: Vec2)
      requires Valid()
      modifies this`posTarget, this`ekfXYResetMs
      ensures Valid()
      ensures resetMs != old(ekfXYResetMs) ==>
                posTarget == old(posTarget).(x := old(posTarget.x) + posShift.x * 100.0,
                                             y := old(posTarget.y) + posShift.y * 100.0)
                && ekfXYResetMs == resetMs
      ensures resetMs == old(ekfXYResetMs) ==> posTarget == old(posTarget) && ekfXYResetMs == old(ekfXYResetMs)
    {
      if resetMs != ekfXYResetMs {
        ShiftPosXYTarget(posShift.x * 100.0, posShift.y * 100.0);
        ekfXYResetMs := resetMs;
      }
    }

    /** init_ekf_z_reset: bookmarks the estimator's last vertical reset. */
    method InitEkfZReset(resetMs: Uint32)
      requires Valid()
      modifies this`ekfZResetMs
      ensures Valid()
      ensures ekfZResetMs == resetMs
    {
      ekfZResetMs := resetMs;
    }

    /**
     * check_for_ekf_z_reset: as the horizontal case, for a non-zero reset
     * id; the altitude target moves opposite to the reported down shift
     * and the feed-forward is frozen for a non-zero shift.
     */
    method CheckForEkfZReset(resetMs: Uint32, altShift: real)
      requires Valid()
      modifies this`posTarget, this`flags, this`ekfZResetMs
      ensures Valid()
      ensures resetMs != 0 && resetMs != old(ekfZResetMs) ==>
                posTarget == old(posTarget).(z := old(posTarget.z) - altShift * 100.0)
                && flags == (if IsZero(-altShift * 100.0) then old(flags) else old(flags).(freezeFfZ := true))
                && ekfZResetMs == resetMs
      ensures resetMs == 0 || resetMs == old(ekfZResetMs) ==>
                posTarget == old(posTarget) && flags == old(flags) && ekfZResetMs == old(ekfZResetMs)
    {
      if resetMs != 0 && resetMs != ekfZResetMs {
        ShiftAltTarget(-altShift * 100.0);
        ekfZResetMs := resetMs;
      }
    }
  }

  /**
   * The throttle calc_roll_pitch_throttle sets without the blended thrust
   * vector: the lift demand in units of hover throttle, so within [0, twice
   * hover] for a demand within [0, 2], and monotone in the demand.
   */
  function HoverThrottle(liftGDemand: real, throttleHover: real): (r: real)
    ensures 0.0 <= liftGDemand <= 2.0 && 0.0 <= throttleHover ==> 0.0 <= r <= 2.0 * throttleHover
    ensures liftGDemand == 1.0 ==> r == throttleHover
  {
    ScaledWithinTwice(liftGDemand, throttleHover);
    liftGDemand * throttleHover
  }

  lemma ScaledWithinTwice(k: real, x: real)
    ensures 0.0 <= k <= 2.0 && 0.0 <= x ==> 0.0 <= k * x <= 2.0 * x
  {
    if 0.0 <= k <= 2.0 && 0.0 <= x {
      MulMonotone(k, 2.0, x);
      MulNonNegative(k, x);
    }
  }

  /** More lift demand never means less throttle. */
  lemma HoverThrottleMonotone(a: real, b: real, throttleHover: real)
    requires a <= b && 0.0 <= throttleHover
    ensures HoverThrottle(a, throttleHover) <= HoverThrottle(b, throttleHover)
  {
    var lo, hi := HoverThrottle(a, throttleHover), HoverThrottle(b, throttleHover);
    assert hi - lo == (b - a) * throttleHover;
    MulNonNegative(b - a, throttleHover);
  }

  /** AC_P::get_p: the proportional term. */
  function GetP(kP: real, error: real): (r: real) {
    kP * error
  }

  /** The lift the wing gives at a pitch, in g, before the wing lift filter. */
  function WingLiftInput(accelZWingK: real, wingCosPitch: real): (r: real) {
    accelZWingK * wingCosPitch * wingCosPitch
  }

  /** The wind-drift integral is no longer than 100 * _FWD_SPD_MAX. */
  predicate WithinAirspeedCap(integ: Vec2, fwdSpdMax: real) {
    Len2(integ) <= (100.0 * fwdSpdMax) * (100.0 * fwdSpdMax)
  }

  /**
   * The acceleration run_xy_controller asks for before its limit: the
   * velocity PID output (the integrator shrinking while held) scaled by
   * the navigation gain scaler, filtered, plus the desired acceleration.
   */
  function AccelDemandXY(inputs: HorizontalInputs, err: Vec2, hold: bool, resetFilter: bool, accelXYFiltHz: real,
                         dt: real, accelDesired: Vec3): (r: Vec2)
  {
    var p := inputs.pid.p(err);
    var i := if !hold then inputs.pid.i(err) else inputs.pid.iShrink(err);
    var d := inputs.pid.d(err);
    var k := inputs.navVelGainScaler;
    var filtered := inputs.accelFilter(Vec2((p.x + i.x + d.x) * k, (p.y + i.y + d.y) * k), resetFilter,
                                       Min(accelXYFiltHz, 5.0 * k), dt);
    Vec2(filtered.x + accelDesired.x, filtered.y + accelDesired.y)
  }

  /**
   * What limit_vector_length leaves in r for the vector v: v itself, unless
   * v is longer than maxLength (and not negligible), in which case r has
   * length maxLength and the direction of v.
   */
  predicate VectorLimited(limited: bool, v: Vec2, r: Vec2, maxLength: real) {
    (limited <==> ExceedsLength(v, maxLength))
    && (!limited ==> r == v)
    && (limited ==> Len2(r) == maxLength * maxLength && r.x * v.y == r.y * v.x
                    && (0.0 < maxLength ==> r.x * v.x + r.y * v.y > 0.0))
  }

  /**
   * The horizontal position error after the leash: the old target's offset
   * from the position, limited to the leash; the target is pulled in to the
   * position plus the error when the limit applied and is otherwise left as
   * it was (where it already equals the position plus the error).  The
   * vertical components are untouched.
   */
  predicate LeashedXY(currPos: Vec2, leash: real, oldTarget: Vec3, oldError: Vec3, target: Vec3, error: Vec3) {
    var d := Vec2(oldTarget.x - currPos.x, oldTarget.y - currPos.y);
    VectorLimited(ExceedsLength(d, leash), d, Vec2(error.x, error.y), leash)
    && (!ExceedsLength(d, leash) ==> target == oldTarget)
    && target.x == currPos.x + error.x && target.y == currPos.y + error.y
    && target.z == oldTarget.z && error.z == oldError.z
  }

  /**
   * The altitude leash step of calc_roll_pitch_throttle as a relation
   * between the old and new target, error and limits: both are LeashClampZ
   * of the old target, only their z (and the two position limit flags) moves,
   * and the error ends within the leashes with target = altitude + error.
   */
  predicate LeashedZ(currAlt: real, leashUpZ: real, leashDownZ: real, oldTarget: Vec3, oldError: Vec3,
                     oldLimit: Limits, target: Vec3, error: Vec3, limit: Limits, c: AltClamp)
  {
    c == LeashClampZ(oldTarget.z, currAlt, leashUpZ, leashDownZ)
    && target == oldTarget.(z := c.posTargetZ) && error == oldError.(z := c.posErrorZ)
    && limit == oldLimit.(posUp := c.posUp, posDown := c.posDown, velUp := limit.velUp, velDown := limit.velDown)
    && -leashDownZ <= error.z <= leashUpZ && target.z == currAlt + error.z
  }

  /** limit_vector_length scales v: it is not negligible and longer than maxLength (any length, for a negative limit). */
  predicate ExceedsLength(v: Vec2, maxLength: real) {
    Len2(v) >= FloatEpsilon * FloatEpsilon && (maxLength < 0.0 || Len2(v) > maxLength * maxLength)
  }

  /** v is no longer than m. */
  predicate WithinLength(v: Vec2, m: real) {
    Len2(v) <= m * m
  }

  /** With a limit of at least 1, a limited vector is within the limit. */
  lemma VectorLimitedWithin(limited: bool, v: Vec2, r: Vec2, maxLength: real)
    requires VectorLimited(limited, v, r, maxLength) && maxLength >= 1.0
    ensures WithinLength(r, maxLength)
  {
    if !limited {
      EpsilonWithinLeash(r.x, r.y, maxLength);
    }
  }

  /** The wind-drift step keeps the integral within the airspeed cap and the remembered length non-negative. */
  lemma WindDriftWithinCap(integ: Vec2, increment: Vec2, fwdSpdMax: real, lengthPrev: real, hold: bool,
                           sqrt: real -> real)
    requires IsSqrt(sqrt) && 0.0 <= fwdSpdMax && 0.0 <= lengthPrev
    ensures var w := WindDriftStep(integ, increment, 100.0 * fwdSpdMax, lengthPrev, hold, sqrt);
            WithinAirspeedCap(w.integ, fwdSpdMax) && 0.0 <= w.lengthPrev
  {
    var w := WindDriftStep(integ, increment, 100.0 * fwdSpdMax, lengthPrev, hold, sqrt);
    assert WindDriftBounded(w, Vec2(integ.x + increment.x, integ.y + increment.y), 100.0 * fwdSpdMax, lengthPrev, hold);
  }

  /** The climb rate set_alt_target_with_slew applies: the rate that would reach the target in dt, clamped. */
  function SlewClimbRate(altChange: real, dt: real, speedDown: real, speedUp: real): (r: real)
    requires dt != 0.0
    ensures speedDown <= speedUp ==> speedDown <= r <= speedUp
  {
    Constrain(altChange / dt, speedDown, speedUp)
  }

  /**
   * With a positive step and a speed range that contains zero, one slew
   * step moves the target toward the requested altitude and never past it.
   */
  lemma SlewNeverOvershoots(altChange: real, dt: real, speedDown: real, speedUp: real)
    requires dt > 0.0 && speedDown <= 0.0 <= speedUp
    ensures var step := SlewClimbRate(altChange, dt, speedDown, speedUp) * dt;
            (altChange >= 0.0 ==> 0.0 <= step <= altChange) && (altChange <= 0.0 ==> altChange <= step <= 0.0)
  {
    var q := altChange / dt;
    var c := SlewClimbRate(altChange, dt, speedDown, speedUp);
    assert q * dt == altChange;
    if altChange >= 0.0 {
      DivNonNegative(altChange, dt);
      assert 0.0 <= c <= q;
      MulMonotone(c, q, dt);
      MulNonNegative(c, dt);
    } else {
      DivNonNegative(-altChange, dt);
      assert -q == (-altChange) / dt;
      assert q <= c <= 0.0;
      MulMonotone(q, c, dt);
      MulNonNegative(-c, dt);
    }
  }

  /** The condition under which set_alt_target_from_climb_rate moves the target. */
  predicate ClimbAllowed(climbRateCms: real, forceDescend: bool, motors: Motors, posUpLimited: bool)
    ensures climbRateCms == 0.0 ==> !ClimbAllowed(climbRateCms, forceDescend, motors, posUpLimited)
    ensures climbRateCms < 0.0 && forceDescend ==> ClimbAllowed(climbRateCms, forceDescend, motors, posUpLimited)
    ensures climbRateCms > 0.0 && (motors.throttleUpper || posUpLimited) ==>
              !ClimbAllowed(climbRateCms, forceDescend, motors, posUpLimited)
  {
    (climbRateCms < 0.0 && (!motors.throttleLower || forceDescend))
    || (climbRateCms > 0.0 && !motors.throttleUpper && !posUpLimited)
  }

  /**
   * Climbing is never allowed at the upper throttle limit or while the
   * altitude target is at its upper leash; a forced descent is always
   * allowed; a zero rate never moves the target.
   */
  lemma ClimbAllowedRules(climbRateCms: real, forceDescend: bool, motors: Motors, posUpLimited: bool)
    ensures climbRateCms > 0.0 && (motors.throttleUpper || posUpLimited) ==> !ClimbAllowed(climbRateCms, forceDescend, motors, posUpLimited)
    ensures climbRateCms < 0.0 && forceDescend ==> ClimbAllowed(climbRateCms, forceDescend, motors, posUpLimited)
    ensures climbRateCms == 0.0 ==> !ClimbAllowed(climbRateCms, forceDescend, motors, posUpLimited)
  {
  }

  /** A vector limit_vector_length leaves alone is within the limit, once the limit is at least 1. */
  lemma EpsilonWithinLeash(x: real, y: real, maxLength: real)
    requires maxLength >= 1.0
    requires x * x + y * y < FloatEpsilon * FloatEpsilon || x * x + y * y <= maxLength * maxLength
    ensures WithinLength(Vec2(x, y), maxLength)
  {
    SquareMonotone(1.0, maxLength);
  }
}
