/**
 * The clamp, filter and flag rules of the per-cycle cascades of
 * AC_PosControl, as pure functions of the values they read.  The class in
 * module PosControl applies them to its fields.
 */
module PosControlSteps {
  import opened RealMath
  import opened PosControlLaws

  // ---------------------------------------------------------------------
  // Vertical cascade

  /** The altitude target and error after the leash step, with the two position limit flags. */
  datatype AltClamp = AltClamp(posTargetZ: real, posErrorZ: real, posUp: bool, posDown: bool)

  /** The leash step of calc_roll_pitch_throttle. */
  function LeashClampZ(posTargetZ: real, currAlt: real, leashUpZ: real, leashDownZ: real): (r: AltClamp)
    ensures r.posTargetZ == currAlt + r.posErrorZ
    ensures 0.0 <= leashUpZ && 0.0 <= leashDownZ ==> -leashDownZ <= r.posErrorZ <= leashUpZ
    ensures r.posUp <==> posTargetZ - currAlt > leashUpZ
    ensures 0.0 <= leashUpZ && 0.0 <= leashDownZ ==> (r.posDown <==> posTargetZ - currAlt < -leashDownZ)
    ensures !r.posUp && !r.posDown ==> r.posTargetZ == posTargetZ
  {
    var err := posTargetZ - currAlt;
    var up := err > leashUpZ;
    var target1 := if up then currAlt + leashUpZ else posTargetZ;
    var err1 := if up then leashUpZ else err;
    var down := err1 < -leashDownZ;
    var target2 := if down then currAlt - leashDownZ else target1;
    var err2 := if down then -leashDownZ else err1;
    AltClamp(target2, err2, up, down)
  }

  /** The velocity target after the speed step, with the two velocity limit flags. */
  datatype SpeedClamp = SpeedClamp(velTargetZ: real, velUp: bool, velDown: bool)

  /** The speed step of calc_roll_pitch_throttle: the lower bound is applied first. */
  function SpeedClampZ(velTargetZ: real, speedDown: real, speedUp: real): (r: SpeedClamp)
    ensures r.velTargetZ <= speedUp
    ensures speedDown <= speedUp ==> speedDown <= r.velTargetZ
    ensures r.velDown <==> velTargetZ < speedDown
    ensures speedDown <= speedUp ==> (r.velUp <==> velTargetZ > speedUp)
    ensures !r.velUp && !r.velDown ==> r.velTargetZ == velTargetZ
  {
    var down := velTargetZ < speedDown;
    var v1 := if down then speedDown else velTargetZ;
    var up := v1 > speedUp;
    SpeedClamp(if up then speedUp else v1, up, down)
  }

  /** The feed-forward acceleration and the freeze flag after one cycle. */
  datatype FeedForward = FeedForward(accelDesiredZ: real, freezeFfZ: bool)

  /**
   * The feed-forward step of calc_roll_pitch_throttle: a pending freeze
   * keeps the previous acceleration for one cycle and is then consumed.
   */
  function FeedForwardZ(dt: real, freezeFfZ: bool, velTargetZ: real, velLastZ: real, accelDesiredZ: real): (r: FeedForward)
    ensures dt > 0.0 && freezeFfZ ==> r == FeedForward(accelDesiredZ, false)
    ensures dt > 0.0 && !freezeFfZ ==> r.accelDesiredZ * dt == velTargetZ - velLastZ && !r.freezeFfZ
    ensures dt <= 0.0 ==> r == FeedForward(0.0, freezeFfZ)
  {
    if dt > 0.0 then
      if !freezeFfZ then FeedForward((velTargetZ - velLastZ) / dt, freezeFfZ)
      else FeedForward(accelDesiredZ, false)
    else FeedForward(0.0, freezeFfZ)
  }

  /** A freeze never survives a cycle with a positive time step. */
  lemma FreezeConsumedOnce(dt: real, freezeFfZ: bool, velTargetZ: real, velLastZ: real, accelDesiredZ: real)
    requires dt > 0.0
    ensures var r := FeedForwardZ(dt, freezeFfZ, velTargetZ, velLastZ, accelDesiredZ);
            !r.freezeFfZ
            && var r2 := FeedForwardZ(dt, r.freezeFfZ, velTargetZ, velLastZ, r.accelDesiredZ);
               r2.accelDesiredZ * dt == velTargetZ - velLastZ
  {
  }

  /**
   * The rule calc_roll_pitch_throttle uses to decide whether the
   * accelerometer PID may update its integrator: always when the motors are
   * not at a throttle limit, otherwise only when the error opposes the
   * integrator.
   */
  predicate IntegratorMayUpdate(throttleLower: bool, throttleUpper: bool, integrator: real, accelErrorZ: real)
    ensures !throttleLower && !throttleUpper ==> IntegratorMayUpdate(throttleLower, throttleUpper, integrator, accelErrorZ)
    ensures (throttleLower || throttleUpper) && (integrator == 0.0 || accelErrorZ == 0.0) ==>
              !IntegratorMayUpdate(throttleLower, throttleUpper, integrator, accelErrorZ)
  {
    (!throttleLower && !throttleUpper) || (integrator > 0.0 && accelErrorZ < 0.0) || (integrator < 0.0 && accelErrorZ > 0.0)
  }

  /** At a throttle limit the integrator may update only toward zero. */
  lemma IntegratorUpdateAtLimit(throttleLower: bool, throttleUpper: bool, integrator: real, accelErrorZ: real)
    requires throttleLower || throttleUpper
    ensures IntegratorMayUpdate(throttleLower, throttleUpper, integrator, accelErrorZ)
            <==> integrator * accelErrorZ < 0.0
  {
    if integrator > 0.0 && accelErrorZ < 0.0 {
      MulPositive(integrator, -accelErrorZ);
    } else if integrator < 0.0 && accelErrorZ > 0.0 {
      MulPositive(-integrator, accelErrorZ);
    } else if integrator * accelErrorZ < 0.0 {
      if integrator >= 0.0 && accelErrorZ >= 0.0 {
        MulNonNegative(integrator, accelErrorZ);
      } else if integrator <= 0.0 && accelErrorZ <= 0.0 {
        MulNonNegative(-integrator, -accelErrorZ);
      }
    }
  }

  /** The rotor lift demand and the wing lift estimate it accounts for. */
  datatype Lift = Lift(liftGDemand: real, wingLiftG: real)

  /**
   * The lift step of calc_roll_pitch_throttle: the PID sum in thousandths
   * of g added to 1 g, less the filtered wing lift.
   */
  function LiftDemand(p: real, i: real, d: real, wingLiftFiltered: real): (r: Lift)
    ensures 0.0 <= r.wingLiftG <= 1.0 && 0.0 <= r.liftGDemand <= 2.0
    ensures 0.0 <= wingLiftFiltered <= 1.0 ==> r.wingLiftG == wingLiftFiltered
    ensures 0.0 <= 1.0 + (p + i + d) * 0.001 - r.wingLiftG <= 2.0
            ==> r.liftGDemand == 1.0 + (p + i + d) * 0.001 - r.wingLiftG
  {
    var liftGPid := (p + i + d) * 0.001;
    var wingLiftG := Constrain(wingLiftFiltered, 0.0, 1.0);
    Lift(Constrain(1.0 + liftGPid - wingLiftG, 0.0, 2.0), wingLiftG)
  }

  /** More PID output never lowers the lift demand, and more wing lift never raises it. */
  lemma LiftDemandMonotone(p: real, i: real, d: real, w: real, p2: real, i2: real, d2: real, w2: real)
    requires p + i + d <= p2 + i2 + d2 && w2 <= w
    ensures LiftDemand(p, i, d, w).liftGDemand <= LiftDemand(p2, i2, d2, w2).liftGDemand
  {
    assert (p + i + d) * 0.001 <= (p2 + i2 + d2) * 0.001;
    assert Constrain(w2, 0.0, 1.0) <= Constrain(w, 0.0, 1.0);
  }

  /** Commanded pitch, roll and throttle of the blended (tilt-rotor) path. */
  datatype Blend = Blend(velForwardFilt: real, pitchTargetCd: real, rollTargetCd: real, throttle: real)

  /** The trigonometry the blended path calls (atan2f, atanf, cosf), left abstract. */
  datatype Trig = Trig(atan2: (real, real) -> real, atan: real -> real, cos: real -> real)

  /** Readings the blended path takes from the vehicle and wing attitude estimates. */
  datatype Attitude = Attitude(cosYaw: real, sinYaw: real, wingCosPitch: real, wingSinPitch: real,
                               wingCosRoll: real, eas2tas: real)

  /** Lean angle maxima of the attitude controller, in degrees. */
  datatype LeanLimits = LeanLimits(fwd: real, aft: real, lat: real)

  /** Configuration the blended path reads. */
  datatype BlendConfig = BlendConfig(trimTau: real, fwdBcoef: real, accelZWingK: real)

  /**
   * The blended path of calc_roll_pitch_throttle: the forward velocity
   * demand is filtered, turned into a drag trim, combined with the
   * horizontal acceleration demand and the lift demand into a thrust
   * vector, and that vector gives the pitch, roll and throttle.
   */
  function BlendedThrust(sqrt: real -> real, trig: Trig, att: Attitude, lean: LeanLimits, cfg: BlendConfig,
                         dt: real, velTarget: Vec3, velXYErrorInteg: Vec2, velForwardFilt: real,
                         accelTarget: Vec3, liftGDemand: real, throttleHover: real,
                         wingDragFilter: (real, real) -> real): (r: Blend)
    requires IsSqrt(sqrt) && att.eas2tas > 0.0
    ensures Min(velForwardFilt, 0.01 * ((velTarget.x + velXYErrorInteg.x) * att.cosYaw + (velTarget.y + velXYErrorInteg.y) * att.sinYaw))
            <= r.velForwardFilt <=
            Max(velForwardFilt, 0.01 * ((velTarget.x + velXYErrorInteg.x) * att.cosYaw + (velTarget.y + velXYErrorInteg.y) * att.sinYaw))
    ensures 0.0 <= lean.lat ==> -100.0 * lean.lat <= r.rollTargetCd <= 100.0 * lean.lat
    ensures -lean.fwd <= lean.aft ==> 100.0 * Degrees(-Radians(lean.fwd)) <= r.pitchTargetCd <= 100.0 * Degrees(Radians(lean.aft))
    ensures 0.0 <= liftGDemand && 0.0 <= throttleHover ==> liftGDemand * throttleHover <= r.throttle
  {
    // get component of velocity demand forward in wind coordinates
    var velForward := 0.01 * ((velTarget.x + velXYErrorInteg.x) * att.cosYaw + (velTarget.y + velXYErrorInteg.y) * att.sinYaw);
    var alphaCoef := Constrain(dt / Max(cfg.trimTau, 0.1), 0.0, 1.0);
    var filt := alphaCoef * velForward + (1.0 - alphaCoef) * velForwardFilt;
    ConvexBetween(alphaCoef, velForward, velForwardFilt);

    // profile drag to be overcome by the rotors
    SqrtOfPositive(sqrt, att.eas2tas);
    var rho := 1.225 / sqrt(att.eas2tas);
    var fwdGTrim0 := (rho / (2.0 * Max(cfg.fwdBcoef, 1.0))) * (filt * filt) / GravityMss;
    var fwdGTrim1 := if filt < 0.0 then -fwdGTrim0 else fwdGTrim0;
    var fwdGTrim2 := fwdGTrim1 + cfg.accelZWingK * att.wingSinPitch * att.wingCosPitch * att.wingCosRoll;
    var fwdGTrim := Constrain(wingDragFilter(fwdGTrim2, dt), -1.0, 1.0);

    // position controller accelerations in the body forward-right frame
    var fwdGPosctl := Constrain((accelTarget.x * att.cosYaw + accelTarget.y * att.sinYaw) / GravityCmss, -1.0, 1.0);
    var rightGPosctl := Constrain((-accelTarget.x * att.sinYaw + accelTarget.y * att.cosYaw) / GravityCmss, -1.0, 1.0);

    // the thrust g vector
    var fwdGDemand := fwdGTrim + fwdGPosctl;
    var thrustGDemand := sqrt(fwdGDemand * fwdGDemand + liftGDemand * liftGDemand);
    ThrustCoversLift(sqrt, fwdGDemand, liftGDemand, throttleHover);
    var pitchTargetRad := Constrain(trig.atan2(-fwdGDemand, liftGDemand), -Radians(lean.fwd), Radians(lean.aft));
    var throttleDemand := thrustGDemand * throttleHover;

    var cosPitchTarget := trig.cos(pitchTargetRad);
    var rollDeg := Degrees(trig.atan(rightGPosctl * cosPitchTarget));
    Blend(filt, 100.0 * Degrees(pitchTargetRad), 100.0 * Constrain(rollDeg, -lean.lat, lean.lat), throttleDemand)
  }

  lemma ConvexBetween(alpha: real, a: real, b: real)
    requires 0.0 <= alpha <= 1.0
    ensures Min(b, a) <= alpha * a + (1.0 - alpha) * b <= Max(b, a)
  {
    var m := alpha * a + (1.0 - alpha) * b;
    assert m - b == alpha * (a - b);
    assert a - m == (1.0 - alpha) * (a - b);
    if a >= b {
      MulNonNegative(alpha, a - b);
      MulNonNegative(1.0 - alpha, a - b);
    } else {
      MulNonNegative(alpha, b - a);
      MulNonNegative(1.0 - alpha, b - a);
    }
  }

  /** The thrust vector is at least as long as its lift component. */
  lemma ThrustCoversLift(sqrt: real -> real, fwd: real, lift: real, hover: real)
    requires IsSqrt(sqrt)
    ensures 0.0 <= lift && 0.0 <= hover ==> lift * hover <= sqrt(fwd * fwd + lift * lift) * hover
  {
    if 0.0 <= lift && 0.0 <= hover {
      NormCompare(sqrt, fwd, lift, lift);
      assert fwd * fwd >= 0.0;
      assert Norm(sqrt, fwd, lift) >= lift;
      MulMonotone(lift, Norm(sqrt, fwd, lift), hover);
    }
  }

  // ---------------------------------------------------------------------
  // Horizontal cascade

  /**
   * The integral gain scale of run_xy_controller: it relaxes toward 1 with a
   * one second time constant and is kept in [1, 10].
   */
  function GainScaleStep(scale: real, dt: real): (r: real)
    ensures 1.0 <= r <= 10.0
    ensures 1.0 <= (1.0 - dt) * scale + dt <= 10.0 ==> r == (1.0 - dt) * scale + dt
  {
    Constrain((1.0 - dt) * scale + dt, 1.0, 10.0)
  }

  /** Over a step of at most one second an unrefreshed scale above 1 only relaxes toward 1. */
  lemma GainScaleRelaxes(scale: real, dt: real)
    requires 1.0 <= scale <= 10.0 && 0.0 <= dt <= 1.0
    ensures 1.0 <= GainScaleStep(scale, dt) <= scale
    ensures scale > 1.0 && dt > 0.0 ==> GainScaleStep(scale, dt) < scale
  {
    var raw := (1.0 - dt) * scale + dt;
    assert raw == scale - dt * (scale - 1.0);
    MulNonNegative(dt, scale - 1.0);
    MulNonNegative(1.0 - dt, scale - 1.0);
    assert raw - 1.0 == (1.0 - dt) * (scale - 1.0);
    if scale > 1.0 && dt > 0.0 {
      MulPositive(dt, scale - 1.0);
    }
  }

  /** v is k * u for some k >= 0: parallel and pointing the same way. */
  predicate SameDirection(v: Vec2, u: Vec2) {
    v.x * u.y == v.y * u.x && 0.0 <= v.x * u.x + v.y * u.y
  }

  /**
   * The airspeed cap of run_xy_controller and reset_wind_drift_integ: a
   * vector longer than maxAirspeed is scaled back onto the circle.
   */
  function CapLength(v: Vec2, maxAirspeed: real, sqrt: real -> real): (r: Vec2)
    requires IsSqrt(sqrt) && 0.0 <= maxAirspeed
    ensures Len2(r) <= maxAirspeed * maxAirspeed
    ensures SameDirection(r, v)
    ensures Len2(v) <= maxAirspeed * maxAirspeed ==> r == v
    ensures Len2(v) > maxAirspeed * maxAirspeed ==> Len2(r) == maxAirspeed * maxAirspeed
    ensures Len2(r) <= Len2(v)
  {
    var n := Norm(sqrt, v.x, v.y);
    NormCompare(sqrt, v.x, v.y, maxAirspeed);
    NormBasics(sqrt, v.x, v.y);
    if n > maxAirspeed then
      ScaledByRatio(v, n, maxAirspeed);
      Scale(v, maxAirspeed / n)
    else
      SelfSameDirection(v);
      v
  }

  lemma SelfSameDirection(v: Vec2)
    ensures SameDirection(v, v)
  {
    assert v.x * v.x + v.y * v.y >= 0.0;
  }

  /** Scaling v (of length n > 0) by m / n, m >= 0, gives length m along v. */
  lemma ScaledByRatio(v: Vec2, n: real, m: real)
    requires n > 0.0 && n * n == Len2(v) && 0.0 <= m
    ensures Len2(Scale(v, m / n)) == m * m
    ensures SameDirection(Scale(v, m / n), v)
  {
    AlongUnitVector(v, n, m);
    MulNonNegative(m, n);
  }

  /** The wind-drift integral and the length it is held to. */
  datatype WindDrift = WindDrift(integ: Vec2, lengthPrev: real)

  /** The velocity-error contribution run_xy_controller adds to the integral. */
  function IntegIncrement(velError: Vec2, gainScale: real, iGain: real, dt: real): (r: Vec2) {
    Vec2(gainScale * iGain * velError.x * dt, gainScale * iGain * velError.y * dt)
  }

  /**
   * What the wind-drift step keeps: the integral stays within the airspeed
   * cap and along the accumulated sum; when holding it is no longer than the
   * remembered length, which is kept, otherwise the remembered length is the
   * new length.
   */
  predicate WindDriftBounded(r: WindDrift, sum: Vec2, maxAirspeed: real, lengthPrev: real, hold: bool) {
    Len2(r.integ) <= maxAirspeed * maxAirspeed
    && SameDirection(r.integ, sum)
    && 0.0 <= r.lengthPrev
    && (!hold ==> r.lengthPrev * r.lengthPrev == Len2(r.integ))
    && (hold ==> r.lengthPrev == lengthPrev && Len2(r.integ) <= lengthPrev * lengthPrev)
  }

  /**
   * The wind-drift integral step of run_xy_controller.  The integral is
   * capped to the maximum airspeed; when the horizontal acceleration or the
   * throttle is at its limit (hold) it may not grow beyond the remembered
   * length, otherwise the remembered length follows it.  The hold rescale
   * divides by the length before the cap, as the source does.
   */
  function WindDriftStep(integ: Vec2, increment: Vec2, maxAirspeed: real, lengthPrev: real, hold: bool,
                         sqrt: real -> real): (r: WindDrift)
    requires IsSqrt(sqrt) && 0.0 <= maxAirspeed && 0.0 <= lengthPrev
    ensures WindDriftBounded(r, Vec2(integ.x + increment.x, integ.y + increment.y), maxAirspeed, lengthPrev, hold)
  {
    var sum := Vec2(integ.x + increment.x, integ.y + increment.y);
    var preNorm := Norm(sqrt, sum.x, sum.y);
    var capped := CapLength(sum, maxAirspeed, sqrt);
    if !hold then
      FollowLength(sum, capped, maxAirspeed, lengthPrev, sqrt);
      WindDrift(capped, Norm(sqrt, capped.x, capped.y))
    else if Norm(sqrt, capped.x, capped.y) > lengthPrev then
      HoldRescale(sum, capped, preNorm, maxAirspeed, lengthPrev, sqrt);
      WindDrift(Scale(capped, lengthPrev / preNorm), lengthPrev)
    else
      HoldWithin(sum, capped, maxAirspeed, lengthPrev, sqrt);
      WindDrift(capped, lengthPrev)
  }

  lemma FollowLength(sum: Vec2, capped: Vec2, maxAirspeed: real, lengthPrev: real, sqrt: real -> real)
    requires IsSqrt(sqrt) && 0.0 <= maxAirspeed
    requires Len2(capped) <= maxAirspeed * maxAirspeed && SameDirection(capped, sum)
    ensures WindDriftBounded(WindDrift(capped, Norm(sqrt, capped.x, capped.y)), sum, maxAirspeed, lengthPrev, false)
  {
    NormBasics(sqrt, capped.x, capped.y);
  }

  lemma HoldWithin(sum: Vec2, capped: Vec2, maxAirspeed: real, lengthPrev: real, sqrt: real -> real)
    requires IsSqrt(sqrt) && 0.0 <= lengthPrev
    requires Len2(capped) <= maxAirspeed * maxAirspeed && SameDirection(capped, sum)
    requires Norm(sqrt, capped.x, capped.y) <= lengthPrev
    ensures WindDriftBounded(WindDrift(capped, lengthPrev), sum, maxAirspeed, lengthPrev, true)
  {
    NormCompare(sqrt, capped.x, capped.y, lengthPrev);
  }

  lemma HoldRescale(sum: Vec2, capped: Vec2, preNorm: real, maxAirspeed: real, lengthPrev: real, sqrt: real -> real)
    requires IsSqrt(sqrt) && 0.0 <= maxAirspeed && 0.0 <= lengthPrev
    requires preNorm == Norm(sqrt, sum.x, sum.y)
    requires Len2(capped) <= maxAirspeed * maxAirspeed && Len2(capped) <= Len2(sum) && SameDirection(capped, sum)
    requires Norm(sqrt, capped.x, capped.y) > lengthPrev
    ensures preNorm > 0.0
    ensures WindDriftBounded(WindDrift(Scale(capped, lengthPrev / preNorm), lengthPrev), sum, maxAirspeed, lengthPrev, true)
  {
    var c := Norm(sqrt, capped.x, capped.y);
    NormsOrdered(sum, capped, maxAirspeed, sqrt);
    NormBasics(sqrt, capped.x, capped.y);
    var k := lengthPrev / preNorm;
    RescaleFactor(lengthPrev, c, preNorm, maxAirspeed);
    ShorterScale(capped, k, c, lengthPrev);
    ShorterScale(capped, k, c, maxAirspeed);
    ScaleKeepsDirection(capped, k, sum);
  }

  lemma NormsOrdered(sum: Vec2, capped: Vec2, maxAirspeed: real, sqrt: real -> real)
    requires IsSqrt(sqrt) && 0.0 <= maxAirspeed
    requires Len2(capped) <= maxAirspeed * maxAirspeed && Len2(capped) <= Len2(sum)
    ensures Norm(sqrt, capped.x, capped.y) <= Norm(sqrt, sum.x, sum.y)
    ensures Norm(sqrt, capped.x, capped.y) <= maxAirspeed
  {
    NormBasics(sqrt, capped.x, capped.y);
    NormBasics(sqrt, sum.x, sum.y);
    RootsOrdered(Norm(sqrt, capped.x, capped.y), Norm(sqrt, sum.x, sum.y));
    RootsOrdered(Norm(sqrt, capped.x, capped.y), maxAirspeed);
  }

  /** The hold rescale factor lengthPrev / |sum| is at most 1 and brings |capped| within both bounds. */
  lemma RescaleFactor(lengthPrev: real, c: real, preNorm: real, maxAirspeed: real)
    requires 0.0 <= lengthPrev < c <= preNorm && c <= maxAirspeed
    ensures 0.0 <= lengthPrev / preNorm <= 1.0
    ensures (lengthPrev / preNorm) * c <= lengthPrev
    ensures (lengthPrev / preNorm) * c <= maxAirspeed
  {
    var k := lengthPrev / preNorm;
    DivNonNegative(lengthPrev, preNorm);
    DivMonotone(lengthPrev, preNorm, preNorm);
    MulMonotone(k, 1.0, c);
    MulMonotone(c, preNorm, k);
    assert k * preNorm == lengthPrev;
  }

  lemma ShorterScale(v: Vec2, k: real, n: real, m: real)
    requires 0.0 <= k && 0.0 <= n && n * n == Len2(v) && k * n <= m
    ensures Len2(Scale(v, k)) <= m * m
  {
    ScaleLength(v, k, n);
    MulNonNegative(k, n);
    SquareMonotone(k * n, m);
  }

  lemma ScaleLength(v: Vec2, k: real, n: real)
    requires 0.0 <= k && 0.0 <= n && n * n == Len2(v)
    ensures Len2(Scale(v, k)) == (k * n) * (k * n)
  {
    assert Len2(Scale(v, k)) == k * k * Len2(v);
  }

  lemma ScaleKeepsDirection(v: Vec2, k: real, u: Vec2)
    requires 0.0 <= k && SameDirection(v, u)
    ensures SameDirection(Scale(v, k), u)
  {
    assert (v.x * k) * u.y == k * (v.x * u.y);
    assert (v.y * k) * u.x == k * (v.y * u.x);
    assert (v.x * k) * u.x + (v.y * k) * u.y == k * (v.x * u.x + v.y * u.y);
    MulNonNegative(k, v.x * u.x + v.y * u.y);
  }

  /**
   * While holding, an integral that only grew past the remembered length
   * is brought back to exactly that length; when the airspeed cap also
   * fired it ends shorter, at lengthPrev * maxAirspeed / |sum|.
   */
  lemma WindDriftHoldLength(integ: Vec2, increment: Vec2, maxAirspeed: real, lengthPrev: real, sqrt: real -> real)
    requires IsSqrt(sqrt) && 0.0 <= maxAirspeed && 0.0 <= lengthPrev
    ensures var sum := Vec2(integ.x + increment.x, integ.y + increment.y);
            var n := Norm(sqrt, sum.x, sum.y);
            var r := WindDriftStep(integ, increment, maxAirspeed, lengthPrev, true, sqrt);
            (lengthPrev < n <= maxAirspeed ==> Len2(r.integ) == lengthPrev * lengthPrev)
            && (lengthPrev < maxAirspeed < n ==> Len2(r.integ) * (n * n) == (lengthPrev * maxAirspeed) * (lengthPrev * maxAirspeed))
  {
    var sum := Vec2(integ.x + increment.x, integ.y + increment.y);
    var n := Norm(sqrt, sum.x, sum.y);
    var capped := CapLength(sum, maxAirspeed, sqrt);
    var r := WindDriftStep(integ, increment, maxAirspeed, lengthPrev, true, sqrt);
    if lengthPrev < n <= maxAirspeed {
      HoldUncapped(sum, n, maxAirspeed, lengthPrev, sqrt);
      assert r.integ == Scale(capped, lengthPrev / n);
    } else if lengthPrev < maxAirspeed < n {
      NormCompare(sqrt, sum.x, sum.y, maxAirspeed);
      HoldCapped(capped, n, maxAirspeed, lengthPrev, sqrt);
      assert r.integ == Scale(capped, lengthPrev / n);
      EqualTimes(Len2(r.integ), Len2(Scale(capped, lengthPrev / n)), n * n);
    }
  }

  lemma HoldUncapped(sum: Vec2, n: real, maxAirspeed: real, lengthPrev: real, sqrt: real -> real)
    requires IsSqrt(sqrt) && 0.0 <= lengthPrev
    requires n == Norm(sqrt, sum.x, sum.y) && lengthPrev < n <= maxAirspeed
    ensures CapLength(sum, maxAirspeed, sqrt) == sum
    ensures Len2(Scale(sum, lengthPrev / n)) == lengthPrev * lengthPrev
  {
    NormBasics(sqrt, sum.x, sum.y);
    NormCompare(sqrt, sum.x, sum.y, maxAirspeed);
    var k := lengthPrev / n;
    assert k * n == lengthPrev;
    DivNonNegative(lengthPrev, n);
    ScaleLength(sum, k, n);
  }

  lemma HoldCapped(capped: Vec2, n: real, maxAirspeed: real, lengthPrev: real, sqrt: real -> real)
    requires IsSqrt(sqrt) && 0.0 <= lengthPrev < maxAirspeed < n
    requires Len2(capped) == maxAirspeed * maxAirspeed
    ensures Norm(sqrt, capped.x, capped.y) == maxAirspeed
    ensures Len2(Scale(capped, lengthPrev / n)) * (n * n) == (lengthPrev * maxAirspeed) * (lengthPrev * maxAirspeed)
  {
    NormOfLength(sqrt, capped, maxAirspeed);
    var k := lengthPrev / n;
    assert k * n == lengthPrev;
    DivNonNegative(lengthPrev, n);
    ScaleLength(capped, k, maxAirspeed);
    SquaredProduct(k, n, maxAirspeed, lengthPrev);
  }

  lemma EqualTimes(a: real, b: real, c: real)
    requires a == b
    ensures a * c == b * c
  {
  }

  lemma SquaredProduct(k: real, n: real, m: real, l: real)
    requires k * n == l
    ensures (k * m) * (k * m) * (n * n) == (l * m) * (l * m)
  {
    assert (k * m) * (k * m) * (n * n) == (k * n * m) * (k * n * m);
  }

  /**
   * The integral reset_wind_drift_integ computes before the cap: the
   * difference between the filtered forward-speed demand (m/s) and the
   * measured forward speed, along the yaw heading, added in cm/s.
   */
  function ResetSum(integ: Vec2, vehicleHorizVel: Vec2, velForwardFilt: real, cosYaw: real, sinYaw: real): (r: Vec2) {
    var velForward := 0.01 * (vehicleHorizVel.x * cosYaw + vehicleHorizVel.y * sinYaw);
    var velForwardDiff := velForwardFilt - velForward;
    Vec2(integ.x + 100.0 * velForwardDiff * cosYaw, integ.y + 100.0 * velForwardDiff * sinYaw)
  }

  /** The forward-velocity correction reset_wind_drift_integ folds into the integral, within the cap. */
  function WindDriftReset(integ: Vec2, vehicleHorizVel: Vec2, velForwardFilt: real, cosYaw: real, sinYaw: real,
                          maxAirspeed: real, sqrt: real -> real): (r: Vec2)
    requires IsSqrt(sqrt) && 0.0 <= maxAirspeed
    ensures Len2(r) <= maxAirspeed * maxAirspeed
    ensures var sum := ResetSum(integ, vehicleHorizVel, velForwardFilt, cosYaw, sinYaw);
            SameDirection(r, sum) && (Len2(sum) <= maxAirspeed * maxAirspeed ==> r == sum)
  {
    CapLength(ResetSum(integ, vehicleHorizVel, velForwardFilt, cosYaw, sinYaw), maxAirspeed, sqrt)
  }
}
