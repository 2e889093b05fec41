/**
 * The pure laws of AC_PosControl: leash length, stopping points, the
 * sqrt-limited proportional law, vector length limiting and the
 * pitch/throttle trim table lookup.
 */
module PosControlLaws {
  import opened RealMath

  // Constants of AC_PosControl.h (not part of this model), with the values
  // of upstream ArduPilot; the proofs use only that they are positive.
  const LeashLengthMin: real := 100.0       // POSCONTROL_LEASH_LENGTH_MIN, cm
  const AccelerationMin: real := 50.0       // POSCONTROL_ACCELERATION_MIN, cm/s/s
  const StoppingDistUpMax: real := 300.0    // POSCONTROL_STOPPING_DIST_UP_MAX, cm
  const StoppingDistDownMax: real := 200.0  // POSCONTROL_STOPPING_DIST_DOWN_MAX, cm
  const AccelXYMax: real := 980.0           // POSCONTROL_ACCEL_XY_MAX, cm/s/s

  // ---------------------------------------------------------------------
  // Leash length

  /** The acceleration calc_leash_length works with: non-positive values are replaced. */
  function EffectiveAccel(accel: real): (a: real)
    ensures a > 0.0
  {
    if accel <= 0.0 then AccelerationMin else accel
  }

  /**
   * The leash law before the minimum is applied: linear in speed up to
   * accel/kP, then growing with the square of speed.
   */
  function LeashLaw(speed: real, accel: real, kP: real): (r: real)
    requires accel > 0.0 && kP > 0.0
  {
    if speed <= accel / kP then speed / kP
    else accel / (2.0 * kP * kP) + speed * speed / (2.0 * accel)
  }

  /** calc_leash_length(speed_cms, accel_cms, kP) */
  function CalcLeashLength(speed: real, accel: real, kP: real): (r: real)
    ensures r >= LeashLengthMin
    ensures kP <= 0.0 ==> r == LeashLengthMin
    ensures kP > 0.0 ==> r >= speed / kP
    ensures kP > 0.0 && speed <= EffectiveAccel(accel) / kP && speed / kP >= LeashLengthMin ==> r == speed / kP
  {
    var a := if accel <= 0.0 then AccelerationMin else accel;
    if kP <= 0.0 then LeashLengthMin
    else
      var leash := if speed <= a / kP then speed / kP
                   else a / (2.0 * kP * kP) + speed * speed / (2.0 * a);
      LeashLawAboveLinear(speed, a, kP);
      if leash < LeashLengthMin then LeashLengthMin else leash
  }

  /** The sqrt section of the leash law lies above the linear one: the law never undercuts speed/kP. */
  lemma LeashLawAboveLinear(speed: real, accel: real, kP: real)
    requires accel > 0.0 && kP > 0.0
    ensures LeashLaw(speed, accel, kP) >= speed / kP
  {
    if speed > accel / kP {
      var q := accel / kP;
      assert q * kP == accel;
      assert accel / (2.0 * kP * kP) == q * q / (2.0 * accel) by {
        assert q * q * (2.0 * kP * kP) == accel * accel * 2.0;
      }
      assert speed / kP == speed * q / accel by {
        assert speed * q * kP == speed * accel;
      }
      var diff := (q - speed) * (q - speed) / (2.0 * accel);
      assert diff >= 0.0;
      assert LeashLaw(speed, accel, kP) - speed / kP == diff by {
        assert q * q / (2.0 * accel) + speed * speed / (2.0 * accel) - speed * q / accel
            == (q * q + speed * speed - 2.0 * speed * q) / (2.0 * accel);
      }
    }
  }

  /** At the crossover speed accel/kP the linear and sqrt sections meet. */
  lemma LeashLawContinuous(accel: real, kP: real)
    requires accel > 0.0 && kP > 0.0
    ensures var q := accel / kP;
            accel / (2.0 * kP * kP) + q * q / (2.0 * accel) == q / kP
  {
    var q := accel / kP;
    assert q * kP == accel;
    assert accel / (2.0 * kP * kP) == q / (2.0 * kP) by {
      assert q / (2.0 * kP) * (2.0 * kP * kP) == q * kP;
    }
    assert q * q / (2.0 * accel) == q / (2.0 * kP) by {
      assert q / (2.0 * kP) * (2.0 * accel) == q * accel / kP;
      assert q * accel / kP == q * q;
    }
  }

  /** The leash law is monotone in speed. */
  lemma LeashLawMonotone(s1: real, s2: real, accel: real, kP: real)
    requires accel > 0.0 && kP > 0.0 && s1 <= s2
    ensures LeashLaw(s1, accel, kP) <= LeashLaw(s2, accel, kP)
  {
    var q := accel / kP;
    DivPositive(accel, kP);
    if s1 <= q && s2 <= q {
      DivMonotone(s1, s2, kP);
    } else if s1 > q {
      SquareMonotone(s1, s2);
      DivMonotone(s1 * s1, s2 * s2, 2.0 * accel);
    } else {
      LeashLawAboveLinear(s2, accel, kP);
      DivMonotone(s1, s2, kP);
    }
  }

  /** A longer permitted speed never gives a shorter leash. */
  lemma LeashLengthMonotoneInSpeed(s1: real, s2: real, accel: real, kP: real)
    requires s1 <= s2
    ensures CalcLeashLength(s1, accel, kP) <= CalcLeashLength(s2, accel, kP)
  {
    if kP > 0.0 {
      LeashLawMonotone(s1, s2, EffectiveAccel(accel), kP);
      LeashLengthIsFlooredLaw(s1, accel, kP);
      LeashLengthIsFlooredLaw(s2, accel, kP);
    }
  }

  /** calc_leash_length is the leash law, floored at the minimum leash. */
  lemma LeashLengthIsFlooredLaw(speed: real, accel: real, kP: real)
    requires kP > 0.0
    ensures CalcLeashLength(speed, accel, kP) == Max(LeashLaw(speed, EffectiveAccel(accel), kP), LeashLengthMin)
  {
  }

  // ---------------------------------------------------------------------
  // Stopping points

  /**
   * The arithmetic of get_stopping_point_z: the altitude at which a
   * vehicle at posZ climbing at velZ comes to rest.
   */
  function StoppingPointZ(posZ: real, velZ: real, kP: real, accel: real): (r: real)
    ensures posZ - StoppingDistDownMax <= r <= posZ + StoppingDistUpMax
    ensures kP <= 0.0 || accel <= 0.0 ==> r == posZ
    ensures velZ >= 0.0 ==> r >= posZ
    ensures velZ <= 0.0 ==> r <= posZ
  {
    if kP <= 0.0 || accel <= 0.0 then posZ
    else
      StoppingOffsetZIsLeashLaw(velZ, kP, accel);
      LeashLawNonNegative(Abs(velZ), accel, kP);
      Constrain(posZ + StoppingOffsetZ(velZ, kP, accel), posZ - StoppingDistDownMax, posZ + StoppingDistUpMax)
  }

  /** The leash law with the sign of the velocity. */
  function SignedLeashLaw(vel: real, accel: real, kP: real): (r: real)
    requires accel > 0.0 && kP > 0.0
  {
    if vel >= 0.0 then LeashLaw(vel, accel, kP) else -LeashLaw(-vel, accel, kP)
  }

  /**
   * The vertical stopping distance is the leash law at the current speed,
   * although the source switches sections with "<" where calc_leash_length
   * uses "<=": the two sections agree at the crossover.
   */
  lemma StoppingPointZIsLeashLaw(posZ: real, velZ: real, kP: real, accel: real)
    requires kP > 0.0 && accel > 0.0
    ensures StoppingPointZ(posZ, velZ, kP, accel)
         == Constrain(posZ + SignedLeashLaw(velZ, accel, kP), posZ - StoppingDistDownMax, posZ + StoppingDistUpMax)
  {
    var offset := StoppingOffsetZ(velZ, kP, accel);
    assert StoppingPointZ(posZ, velZ, kP, accel)
        == Constrain(posZ + offset, posZ - StoppingDistDownMax, posZ + StoppingDistUpMax);
    StoppingOffsetZIsLeashLaw(velZ, kP, accel);
  }

  /** The offset get_stopping_point_z adds to the current altitude. */
  function StoppingOffsetZ(velZ: real, kP: real, accel: real): (r: real)
    requires kP > 0.0 && accel > 0.0
  {
    if Abs(velZ) < accel / kP then velZ / kP
    else if velZ > 0.0 then accel / (2.0 * kP * kP) + velZ * velZ / (2.0 * accel)
    else -(accel / (2.0 * kP * kP) + velZ * velZ / (2.0 * accel))
  }

  lemma StoppingOffsetZIsLeashLaw(velZ: real, kP: real, accel: real)
    requires kP > 0.0 && accel > 0.0
    ensures StoppingOffsetZ(velZ, kP, accel) == SignedLeashLaw(velZ, accel, kP)
  {
    if velZ >= 0.0 {
      ClimbingOffsetIsLeashLaw(velZ, kP, accel);
    } else {
      StoppingOffsetZOdd(velZ, kP, accel);
      ClimbingOffsetIsLeashLaw(-velZ, kP, accel);
    }
  }

  lemma ClimbingOffsetIsLeashLaw(velZ: real, kP: real, accel: real)
    requires kP > 0.0 && accel > 0.0 && velZ >= 0.0
    ensures StoppingOffsetZ(velZ, kP, accel) == LeashLaw(velZ, accel, kP)
  {
    if velZ == accel / kP {
      LeashLawContinuous(accel, kP);
    }
  }

  /** Descending mirrors climbing. */
  lemma StoppingOffsetZOdd(velZ: real, kP: real, accel: real)
    requires kP > 0.0 && accel > 0.0 && velZ < 0.0
    ensures StoppingOffsetZ(velZ, kP, accel) == -StoppingOffsetZ(-velZ, kP, accel)
  {
    assert (-velZ) * (-velZ) == velZ * velZ;
    assert (-velZ) / kP == -(velZ / kP);
  }

  lemma LeashLawNonNegative(speed: real, accel: real, kP: real)
    requires accel > 0.0 && kP > 0.0 && speed >= 0.0
    ensures LeashLaw(speed, accel, kP) >= 0.0
  {
    LeashLawAboveLinear(speed, accel, kP);
  }

  lemma SignedLeashLawMonotone(v1: real, v2: real, accel: real, kP: real)
    requires accel > 0.0 && kP > 0.0 && v1 <= v2
    ensures SignedLeashLaw(v1, accel, kP) <= SignedLeashLaw(v2, accel, kP)
  {
    if v1 >= 0.0 {
      LeashLawMonotone(v1, v2, accel, kP);
    } else if v2 < 0.0 {
      LeashLawMonotone(-v2, -v1, accel, kP);
    } else {
      LeashLawNonNegative(-v1, accel, kP);
      LeashLawNonNegative(v2, accel, kP);
    }
  }

  /** A faster climb never gives a lower vertical stopping point. */
  lemma StoppingPointZMonotone(posZ: real, v1: real, v2: real, kP: real, accel: real)
    requires v1 <= v2
    ensures StoppingPointZ(posZ, v1, kP, accel) <= StoppingPointZ(posZ, v2, kP, accel)
  {
    if kP > 0.0 && accel > 0.0 {
      StoppingPointZIsLeashLaw(posZ, v1, kP, accel);
      StoppingPointZIsLeashLaw(posZ, v2, kP, accel);
      SignedLeashLawMonotone(v1, v2, accel, kP);
    }
  }

  /** The distance get_stopping_point_xy travels along the velocity, before it is constrained. */
  function StoppingDistanceXY(velTotal: real, kP: real, accel: real): (r: real)
    requires kP > 0.0 && accel > 0.0
  {
    if velTotal < accel / kP then velTotal / kP
    else accel / (2.0 * kP * kP) + velTotal * velTotal / (2.0 * accel)
  }

  /**
   * The arithmetic of get_stopping_point_xy: the horizontal point at which
   * a vehicle at pos moving with vel comes to rest, at most leash away.
   */
  function StoppingPointXY(pos: Vec2, vel: Vec2, kP: real, accel: real, leash: real, sqrt: real -> real): (r: Vec2)
    requires IsSqrt(sqrt)
    ensures kP <= 0.0 || accel <= 0.0 || IsZero(Norm(sqrt, vel.x, vel.y)) ==> r == pos
    ensures StepAlong(Vec2(r.x - pos.x, r.y - pos.y), vel, leash)
  {
    var velTotal := Norm(sqrt, vel.x, vel.y);
    if kP <= 0.0 || accel <= 0.0 || IsZero(velTotal) then
      StepAlongZero(pos, vel, leash);
      pos
    else
      var stoppingDist := Constrain(StoppingDistanceXY(velTotal, kP, accel), 0.0, leash);
      var offset := AlongVelocity(sqrt, vel, velTotal, stoppingDist, leash);
      var r := Vec2(pos.x + offset.x, pos.y + offset.y);
      assert Vec2(r.x - pos.x, r.y - pos.y) == offset;
      r
  }

  lemma StepAlongZero(pos: Vec2, vel: Vec2, leash: real)
    ensures StepAlong(Vec2(pos.x - pos.x, pos.y - pos.y), vel, leash)
  {
    assert Vec2(pos.x - pos.x, pos.y - pos.y) == Vec2(0.0, 0.0);
  }

  /**
   * A step o that is parallel to vel and, for a non-negative leash, no
   * longer than the leash and not against vel.
   */
  predicate StepAlong(o: Vec2, vel: Vec2, leash: real) {
    o.x * vel.y == o.y * vel.x
    && (0.0 <= leash ==> Len2(o) <= leash * leash && 0.0 <= o.x * vel.x + o.y * vel.y)
  }

  /** d * vel / |vel|: the step of length d along the velocity, d being at most the leash. */
  function AlongVelocity(sqrt: real -> real, vel: Vec2, n: real, d: real, leash: real): (o: Vec2)
    requires IsSqrt(sqrt) && n == Norm(sqrt, vel.x, vel.y) && !IsZero(n)
    requires 0.0 <= leash ==> 0.0 <= d <= leash
    ensures Len2(o) == d * d
    ensures StepAlong(o, vel, leash)
  {
    NormBasics(sqrt, vel.x, vel.y);
    AlongUnitVector(vel, n, d);
    SquareBoundIfLeash(d, n, leash);
    var o := Vec2(d * vel.x / n, d * vel.y / n);
    assert o == Vec2(vel.x * (d / n), vel.y * (d / n));
    o
  }

  lemma SquareBoundIfLeash(d: real, n: real, leash: real)
    requires 0.0 <= leash ==> 0.0 <= d <= leash
    requires 0.0 < n
    ensures 0.0 <= leash ==> d * d <= leash * leash && 0.0 <= d * n
  {
    if 0.0 <= leash {
      SquareMonotone(d, leash);
      MulNonNegative(d, n);
    }
  }

  /** v scaled by d/|v| has length |d|, is parallel to v, and points along v when d >= 0. */
  lemma AlongUnitVector(v: Vec2, n: real, d: real)
    requires n > 0.0 && n * n == v.x * v.x + v.y * v.y
    ensures Len2(Vec2(v.x * (d / n), v.y * (d / n))) == d * d
    ensures (v.x * (d / n)) * v.y == (v.y * (d / n)) * v.x
    ensures v.x * (d / n) * v.x + v.y * (d / n) * v.y == d * n
  {
    var c := d / n;
    assert c * n == d;
    assert (v.x * c) * (v.x * c) + (v.y * c) * (v.y * c) == (c * c) * (v.x * v.x + v.y * v.y);
    assert (c * c) * (n * n) == (c * n) * (c * n);
    assert v.x * c * v.x + v.y * c * v.y == c * (v.x * v.x + v.y * v.y);
    assert c * (n * n) == (c * n) * n;
  }

  /**
   * With a usable gain and acceleration and a moving vehicle, the
   * horizontal stopping point lies along the velocity at the leash
   * law distance, cut to [0, leash].
   */
  lemma StoppingPointXYDistance(pos: Vec2, vel: Vec2, kP: real, accel: real, leash: real, sqrt: real -> real)
    requires IsSqrt(sqrt) && kP > 0.0 && accel > 0.0 && !IsZero(Norm(sqrt, vel.x, vel.y))
    ensures var r := StoppingPointXY(pos, vel, kP, accel, leash, sqrt);
            var d := Constrain(LeashLaw(Norm(sqrt, vel.x, vel.y), accel, kP), 0.0, leash);
            Len2(Vec2(r.x - pos.x, r.y - pos.y)) == d * d
  {
    var n := Norm(sqrt, vel.x, vel.y);
    if n == accel / kP {
      LeashLawContinuous(accel, kP);
    }
    assert StoppingDistanceXY(n, kP, accel) == LeashLaw(n, accel, kP);
    var d := Constrain(LeashLaw(n, accel, kP), 0.0, leash);
    var o := AlongVelocity(sqrt, vel, n, d, leash);
  }

  // ---------------------------------------------------------------------
  // Sqrt-limited proportional law

  /** sqrt_controller bypasses the square-root section for a non-positive limit or a zero gain. */
  predicate SqrtControllerLinearOnly(p: real, secondOrdLim: real) {
    secondOrdLim < 0.0 || IsZero(secondOrdLim) || IsZero(p)
  }

  /** The planar error lies beyond the linear distance, so the square-root section applies. */
  predicate InSqrtSection(error: Vec3, p: real, secondOrdLim: real, sqrt: real -> real) {
    !SqrtControllerLinearOnly(p, secondOrdLim) && Norm(sqrt, error.x, error.y) > secondOrdLim / (p * p)
  }

  /**
   * An output o of the square-root section for error e: along e, with the
   * speed from which decelerating at lim stops after |e| - linear_dist / 2.
   */
  predicate SqrtSectionOutput(o: Vec2, error: Vec3, p: real, lim: real, sqrt: real -> real)
    requires p != 0.0
  {
    o.x * o.x + o.y * o.y == 2.0 * lim * (Norm(sqrt, error.x, error.y) - (lim / (p * p) * 0.5))
    && o.x * error.y == o.y * error.x
    && o.x * error.x + o.y * error.y > 0.0
  }

  /**
   * sqrt_controller(error, p, second_ord_lim) for a 3-D error: the planar
   * components follow the sqrt-limited law, z is passed through untouched.
   */
  function SqrtController(error: Vec3, p: real, secondOrdLim: real, sqrt: real -> real): (r: Vec3)
    requires IsSqrt(sqrt)
    ensures r.z == error.z
    ensures !InSqrtSection(error, p, secondOrdLim, sqrt) ==> r == Vec3(error.x * p, error.y * p, error.z)
    ensures InSqrtSection(error, p, secondOrdLim, sqrt) ==> SqrtSectionOutput(Vec2(r.x, r.y), error, p, secondOrdLim, sqrt)
  {
    if secondOrdLim < 0.0 || IsZero(secondOrdLim) || IsZero(p) then
      Vec3(error.x * p, error.y * p, error.z)
    else
      var linearDist := secondOrdLim / (p * p);
      var errorLength := Norm(sqrt, error.x, error.y);
      if errorLength > linearDist then
        var firstOrderScale := FirstOrderScale(error, p, secondOrdLim, sqrt);
        Vec3(error.x * firstOrderScale, error.y * firstOrderScale, error.z)
      else
        Vec3(error.x * p, error.y * p, error.z)
  }

  /** The gain sqrt_controller applies in its square-root section. */
  function FirstOrderScale(error: Vec3, p: real, secondOrdLim: real, sqrt: real -> real): (s: real)
    requires IsSqrt(sqrt) && InSqrtSection(error, p, secondOrdLim, sqrt)
    ensures s > 0.0
    ensures SqrtSectionOutput(Vec2(error.x * s, error.y * s), error, p, secondOrdLim, sqrt)
  {
    var linearDist := secondOrdLim / (p * p);
    var errorLength := Norm(sqrt, error.x, error.y);
    var w := 2.0 * secondOrdLim * (errorLength - (linearDist * 0.5));
    SectionRadicandPositive(error, p, secondOrdLim, sqrt);
    NormBasics(sqrt, error.x, error.y);
    SqrtScale(sqrt, error.x, error.y, errorLength, w);
    SafeSqrt(sqrt, w) / errorLength
  }

  lemma SectionRadicandPositive(error: Vec3, p: real, lim: real, sqrt: real -> real)
    requires IsSqrt(sqrt) && InSqrtSection(error, p, lim, sqrt)
    ensures var len := Norm(sqrt, error.x, error.y);
            0.0 < len && 0.0 < 2.0 * lim * (len - (lim / (p * p) * 0.5))
  {
    var ld := lim / (p * p);
    var len := Norm(sqrt, error.x, error.y);
    DivPositive(lim, p * p);
    MulPositive(2.0 * lim, len - (ld * 0.5));
  }

  lemma SqrtScale(sqrt: real -> real, ex: real, ey: real, len: real, w: real)
    requires IsSqrt(sqrt) && 0.0 < len && len * len == ex * ex + ey * ey && 0.0 < w
    ensures var s := SafeSqrt(sqrt, w) / len;
            s > 0.0
            && (ex * s) * (ex * s) + (ey * s) * (ey * s) == w
            && (ex * s) * ey == (ey * s) * ex
            && (ex * s) * ex + (ey * s) * ey > 0.0
  {
    assert SqrtAt(sqrt, w);
    var root := sqrt(w);
    assert root * root == w && 0.0 <= root;
    assert root != 0.0;
    DivPositive(root, len);
    AlongUnitVector(Vec2(ex, ey), len, root);
    MulPositive(root, len);
  }

  /** Within the linear distance the proportional law applies unchanged. */
  lemma SqrtControllerLinearWithinDistance(error: Vec3, p: real, lim: real, sqrt: real -> real)
    requires IsSqrt(sqrt) && p != 0.0
    requires Len2(Vec2(error.x, error.y)) <= (lim / (p * p)) * (lim / (p * p))
    ensures SqrtController(error, p, lim, sqrt) == Vec3(error.x * p, error.y * p, error.z)
  {
    if !SqrtControllerLinearOnly(p, lim) {
      DivPositive(lim, p * p);
      NormCompare(sqrt, error.x, error.y, lim / (p * p));
    }
  }

  /** The square-root section never commands more than the linear law would. */
  lemma SqrtControllerBoundedByLinear(error: Vec3, p: real, lim: real, sqrt: real -> real)
    requires IsSqrt(sqrt)
    ensures var r := SqrtController(error, p, lim, sqrt);
            r.x * r.x + r.y * r.y <= p * p * Len2(Vec2(error.x, error.y))
  {
    if InSqrtSection(error, p, lim, sqrt) {
      var pp := p * p;
      var ld := lim / pp;
      var len := Norm(sqrt, error.x, error.y);
      NormBasics(sqrt, error.x, error.y);
      assert ld * pp == lim;
      // pp |e|^2 minus the section's output, times pp, is a square
      var gap := pp * (len * len) - 2.0 * lim * (len - ld / 2.0);
      assert gap == pp * (len * len) - 2.0 * lim * len + lim * ld;
      assert gap * pp == pp * pp * (len * len) - 2.0 * lim * len * pp + lim * (ld * pp);
      assert (pp * len - lim) * (pp * len - lim) == pp * pp * (len * len) - 2.0 * lim * len * pp + lim * lim;
      assert gap * pp >= 0.0;
      NonNegativeFactor(gap, pp);
    }
  }

  // ---------------------------------------------------------------------
  // Vector length limiting

  /**
   * limit_vector_length(vector_x, vector_y, max_length): the vector is
   * returned as (rx, ry); limited says whether it was scaled.
   */
  method LimitVectorLength(x: real, y: real, maxLength: real, sqrt: real -> real)
    returns (limited: bool, rx: real, ry: real)
    requires IsSqrt(sqrt)
    ensures limited <==> x * x + y * y >= FloatEpsilon * FloatEpsilon
                         && (maxLength < 0.0 || x * x + y * y > maxLength * maxLength)
    ensures !limited ==> rx == x && ry == y
    ensures limited ==> rx * rx + ry * ry == maxLength * maxLength
    ensures limited ==> rx * y == ry * x
    ensures limited && 0.0 < maxLength ==> rx * x + ry * y > 0.0
  {
    var vectorLength := Norm(sqrt, x, y);
    NormCompare(sqrt, x, y, FloatEpsilon);
    if maxLength >= 0.0 {
      NormCompare(sqrt, x, y, maxLength);
    }
    NormBasics(sqrt, x, y);
    if vectorLength > maxLength && IsPositive(vectorLength) {
      AlongUnitVector(Vec2(x, y), vectorLength, maxLength);
      if 0.0 < maxLength {
        MulPositive(maxLength, vectorLength);
      }
      rx := x * (maxLength / vectorLength);
      ry := y * (maxLength / vectorLength);
      limited := true;
    } else {
      rx, ry := x, y;
      limited := false;
    }
  }

  // ---------------------------------------------------------------------
  // Pitch and throttle trim table

  predicate StrictlyIncreasing(t: seq<real>) {
    forall i, j :: 0 <= i < j < |t| ==> t[i] < t[j]
  }

  /** The breakpoint search of get_pitch_thr_trim, continued from index j. */
  function LowIndex(t: seq<real>, s: real, j: nat): (k: int)
    requires 1 <= j <= |t|
    ensures j - 1 <= k <= |t|
    decreases |t| - j
  {
    if j == |t| then j
    else if s <= t[j] then j - 1
    else LowIndex(t, s, j + 1)
  }

  /** Linear interpolation of v over the segment [t[k], t[k+1]]. */
  function Lerp(t: seq<real>, v: seq<real>, k: int, s: real): (r: real)
    requires 0 <= k && k + 1 < |t| && |v| == |t| && t[k] < t[k + 1]
  {
    v[k] + (s - t[k]) / (t[k + 1] - t[k]) * (v[k + 1] - v[k])
  }

  ghost predicate TrimTables(spdTable: seq<real>, pitchTable: seq<real>, thrTable: seq<real>) {
    1 <= |spdTable| <= 127 && |pitchTable| == |spdTable| && |thrTable| == |spdTable|
    && StrictlyIncreasing(spdTable)
  }

  /** The segment the search stops on holds the (clamped) speed. */
  lemma {:induction false} LowIndexSegment(t: seq<real>, s: real, j: nat)
    requires StrictlyIncreasing(t) && |t| >= 2 && 1 <= j <= |t| - 1
    requires t[0] <= s <= t[|t| - 1]
    requires forall i :: 1 <= i < j ==> s > t[i]
    ensures var k := LowIndex(t, s, j);
            0 <= k <= |t| - 2 && t[k] <= s <= t[k + 1] && (k >= 1 ==> t[k] < s)
    decreases |t| - j
  {
    if s <= t[j] {
      if j >= 2 {
        assert s > t[j - 1];
      }
    } else {
      if j + 1 == |t| {
        assert false;
      }
      LowIndexSegment(t, s, j + 1);
    }
  }

  /**
   * The trim the table gives at speed spd: the speed is clamped to the
   * table's range and the values are interpolated on the segment holding it.
   */
  function TrimLookup(spd: real, spdTable: seq<real>, pitchTable: seq<real>, thrTable: seq<real>): (r: (real, real))
    requires TrimTables(spdTable, pitchTable, thrTable)
  {
    TrimAt(Constrain(spd, spdTable[0], spdTable[|spdTable| - 1]), spdTable, pitchTable, thrTable)
  }

  /** The interpolation of TrimLookup at an already clamped speed s. */
  function TrimAt(s: real, spdTable: seq<real>, pitchTable: seq<real>, thrTable: seq<real>): (r: (real, real))
    requires TrimTables(spdTable, pitchTable, thrTable)
  {
    var n := |spdTable|;
    var k := LowIndex(spdTable, s, 1);
    if k >= n - 1 then (Radians(pitchTable[n - 1]), thrTable[n - 1])
    else
      var frac := SegmentFraction(spdTable, k, s);
      (Radians(pitchTable[k]) + frac * Radians(pitchTable[k + 1] - pitchTable[k]),
       thrTable[k] + frac * (thrTable[k + 1] - thrTable[k]))
  }

  /** How far s lies along the table segment from spdTable[k] to spdTable[k + 1]. */
  function SegmentFraction(spdTable: seq<real>, k: nat, s: real): (r: real)
    requires k + 1 < |spdTable| && spdTable[k] < spdTable[k + 1]
  {
    (s - spdTable[k]) / (spdTable[k + 1] - spdTable[k])
  }

  /** get_pitch_thr_trim(spd, pitch_trim_rad, thr_trim) */
  method GetPitchThrTrim(spd: real, spdTable: seq<real>, pitchTable: seq<real>, thrTable: seq<real>)
    returns (pitchTrimRad: real, thrTrim: real)
    requires TrimTables(spdTable, pitchTable, thrTable)
    ensures (pitchTrimRad, thrTrim) == TrimLookup(spd, spdTable, pitchTable, thrTable)
  {
    var n := |spdTable|;
    var s := Constrain(spd, spdTable[0], spdTable[n - 1]);

    // find index of nearest low breakpoint
    var lowIndex := 1;
    while lowIndex < n
      invariant 1 <= lowIndex <= n
      invariant LowIndex(spdTable, s, 1) == LowIndex(spdTable, s, lowIndex)
      decreases n - lowIndex
    {
      if s <= spdTable[lowIndex] {
        lowIndex := lowIndex - 1;
        break;
      }
      lowIndex := lowIndex + 1;
    }
    assert lowIndex == LowIndex(spdTable, s, 1);
    ghost var expected := TrimAt(s, spdTable, pitchTable, thrTable);

    if lowIndex >= n - 1 {
      pitchTrimRad := Radians(pitchTable[n - 1]);
      thrTrim := thrTable[n - 1];
      assert pitchTrimRad == expected.0;
    } else if lowIndex <= -1 {
      // the search starts at index 1 and steps back at most once
      assert false;
    } else {
      var frac := SegmentFraction(spdTable, lowIndex, s);
      pitchTrimRad := Radians(pitchTable[lowIndex]);
      pitchTrimRad := pitchTrimRad + frac * Radians(pitchTable[lowIndex + 1] - pitchTable[lowIndex]);
      thrTrim := thrTable[lowIndex];
      thrTrim := thrTrim + frac * (thrTable[lowIndex + 1] - thrTable[lowIndex]);
      assert pitchTrimRad == expected.0 && thrTrim == expected.1;
    }
  }

  /** The lookup is the piecewise-linear interpolant: any segment holding the speed gives the same value. */
  lemma TrimLookupInterpolates(spd: real, spdTable: seq<real>, pitchTable: seq<real>, thrTable: seq<real>, k: int)
    requires TrimTables(spdTable, pitchTable, thrTable)
    requires 0 <= k < |spdTable| - 1 && spdTable[k] <= spd <= spdTable[k + 1]
    ensures TrimLookup(spd, spdTable, pitchTable, thrTable)
         == (Radians(Lerp(spdTable, pitchTable, k, spd)), Lerp(spdTable, thrTable, k, spd))
  {
    var t, n := spdTable, |spdTable|;
    assert t[0] <= t[k] && t[k + 1] <= t[n - 1];
    assert Constrain(spd, t[0], t[n - 1]) == spd;
    TrimAtSegment(spd, t, pitchTable, thrTable);
    var j := LowIndex(t, spd, 1);
    if j != k {
      // both segments hold spd, so spd is their common breakpoint
      if j < k {
        assert t[j + 1] <= t[k];
        assert spd == t[k] && j + 1 == k;
        LerpAtStart(t, pitchTable, k);
        LerpAtStart(t, thrTable, k);
        LerpAtEnd(t, pitchTable, j);
        LerpAtEnd(t, thrTable, j);
      } else {
        // k < j would need t[j] < spd <= t[k + 1] <= t[j]
        assert false;
      }
    }
  }

  /** Inside the table's range TrimAt interpolates on the segment the search finds. */
  lemma TrimAtSegment(s: real, spdTable: seq<real>, pitchTable: seq<real>, thrTable: seq<real>)
    requires TrimTables(spdTable, pitchTable, thrTable) && |spdTable| >= 2
    requires spdTable[0] <= s <= spdTable[|spdTable| - 1]
    ensures var j := LowIndex(spdTable, s, 1);
            0 <= j < |spdTable| - 1 && spdTable[j] <= s <= spdTable[j + 1] && (j >= 1 ==> spdTable[j] < s)
            && TrimAt(s, spdTable, pitchTable, thrTable)
               == (Radians(Lerp(spdTable, pitchTable, j, s)), Lerp(spdTable, thrTable, j, s))
  {
    var t := spdTable;
    LowIndexSegment(t, s, 1);
    var j := LowIndex(t, s, 1);
    var frac := (s - t[j]) / (t[j + 1] - t[j]);
    RadiansLerp(pitchTable[j], pitchTable[j + 1], frac);
    var r := TrimAt(s, t, pitchTable, thrTable);
    assert r.0 == Radians(Lerp(t, pitchTable, j, s));
    assert r.1 == Lerp(t, thrTable, j, s);
  }

  lemma RadiansLerp(a: real, b: real, frac: real)
    ensures Radians(a) + frac * Radians(b - a) == Radians(a + frac * (b - a))
  {
  }

  lemma LerpAtStart(t: seq<real>, v: seq<real>, k: int)
    requires 0 <= k && k + 1 < |t| && |v| == |t| && t[k] < t[k + 1]
    ensures Lerp(t, v, k, t[k]) == v[k]
  {
  }

  lemma LerpAtEnd(t: seq<real>, v: seq<real>, k: int)
    requires 0 <= k && k + 1 < |t| && |v| == |t| && t[k] < t[k + 1]
    ensures Lerp(t, v, k, t[k + 1]) == v[k + 1]
  {
  }

  /** At a breakpoint the lookup returns that breakpoint's entries exactly. */
  lemma TrimLookupAtBreakpoint(spdTable: seq<real>, pitchTable: seq<real>, thrTable: seq<real>, j: int)
    requires TrimTables(spdTable, pitchTable, thrTable) && 0 <= j < |spdTable|
    ensures TrimLookup(spdTable[j], spdTable, pitchTable, thrTable) == (Radians(pitchTable[j]), thrTable[j])
  {
    var n := |spdTable|;
    if n == 1 {
    } else if j < n - 1 {
      TrimLookupInterpolates(spdTable[j], spdTable, pitchTable, thrTable, j);
      LerpAtStart(spdTable, pitchTable, j);
      LerpAtStart(spdTable, thrTable, j);
    } else {
      TrimLookupInterpolates(spdTable[j], spdTable, pitchTable, thrTable, j - 1);
      LerpAtEnd(spdTable, pitchTable, j - 1);
      LerpAtEnd(spdTable, thrTable, j - 1);
    }
  }

  /** Outside the table's range the end entries are held. */
  lemma TrimLookupHoldsEnds(spd: real, spdTable: seq<real>, pitchTable: seq<real>, thrTable: seq<real>)
    requires TrimTables(spdTable, pitchTable, thrTable)
    ensures var n := |spdTable|;
            (spd <= spdTable[0] ==> TrimLookup(spd, spdTable, pitchTable, thrTable) == (Radians(pitchTable[0]), thrTable[0]))
            && (spd >= spdTable[n - 1] ==> TrimLookup(spd, spdTable, pitchTable, thrTable) == (Radians(pitchTable[n - 1]), thrTable[n - 1]))
  {
    var n := |spdTable|;
    assert spdTable[0] <= spdTable[n - 1];
    if spd <= spdTable[0] {
      assert TrimLookup(spd, spdTable, pitchTable, thrTable) == TrimLookup(spdTable[0], spdTable, pitchTable, thrTable);
      TrimLookupAtBreakpoint(spdTable, pitchTable, thrTable, 0);
    }
    if spd >= spdTable[n - 1] {
      assert TrimLookup(spd, spdTable, pitchTable, thrTable) == TrimLookup(spdTable[n - 1], spdTable, pitchTable, thrTable);
      TrimLookupAtBreakpoint(spdTable, pitchTable, thrTable, n - 1);
    }
  }
}
