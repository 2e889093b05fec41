# Position controller and plane mode logic

This project models three pieces of an ArduPilot fork in Dafny and proves
properties of each.

- **The position controller used by ArduPlane's quadplane**
  (`AC_PosControl.cpp`). It keeps a position target in centimetres and moves
  it under speed and acceleration limits. Every cycle it runs two cascades:
  - a vertical one: altitude → climb rate → vertical acceleration → lift →
    throttle;
  - a horizontal one: position → velocity → acceleration, with a wind-drift
    integral capped at the maximum airspeed.
  Its other parts are:
  - the leash law, which decides how far the target may sit from the
    vehicle;
  - the two stopping-point laws;
  - the square-root controller;
  - the vector clamp;
  - compensation for estimator (EKF) resets;
  - the airspeed → pitch and throttle trim table.
- **The reverse-thrust decision** (`reverse_thrust.cpp`). Given the
  USE_REV_THRUST bitmask, the minimum throttle, the flight mode and the
  current mission command, it decides whether negative throttle is allowed.
  The reversed-throttle rule of the throttle input is also here.
- **ArduPlane's mode switch and failsafe logic** (`system.cpp`):
  - `set_mode`, which switches modes and rolls back when the new mode's
    `enter` fails;
  - its by-number wrapper;
  - the short-failsafe transition;
  - the throttle-percentage clamp.

Floats are modelled as reals. Square root is a function parameter. Every
member that uses it requires `IsSqrt(sqrt)`: `sqrt(v) >= 0` and
`sqrt(v) * sqrt(v) == v` for `v >= 0`.

The controller is `class PosControl`. Its fields mirror the C++ members,
and each method changes only the fields its `modifies` names. The pure laws
are functions in `PosControlLaws` and `PosControlSteps`. The methods
perform the field updates in the source's order and are proved against
those functions.

`Plane` is a class too. `Plane.SetMode` carries out the source's sequence
of assignments and rollback on the four mode fields. It is proved equal to
the function `SwitchMode`, and the lemmas state the switch's guarantees
about that function.

Files and modules:

| file | module | contents |
|---|---|---|
| real_math.dfy | RealMath | vectors, constrain, norms over a square-root parameter, truncation to int |
| pos_control_laws.dfy | PosControlLaws | leash law, stopping points, square-root controller, vector clamp, trim table |
| pos_control_steps.dfy | PosControlSteps | the per-cycle steps: leash and speed clamps, feed-forward, lift, blended thrust, gain scale, wind drift |
| pos_control.dfy | PosControl | the controller's state (`class PosControl`) and its methods |
| plane_modes.dfy | PlaneModes | the flight modes and their numbers |
| reverse_thrust.dfy | ReverseThrust | allow/have reverse thrust, the reversed-throttle rule |
| plane_system.dfy | PlaneSystem | mode switch, short failsafe, throttle percentage, `class Plane` |

## Model

| member | source | states |
|---|---|---|
| PosControlLaws.CalcLeashLength | libraries/AC_AttitudeControl/AC_PosControl.cpp:1355-1384 | The leash is never below LEASH_LENGTH_MIN. It is exactly the minimum when kP ≤ 0. Otherwise it is at least speed/kP, and exactly speed/kP in the linear region (speed ≤ accel/kP) when that clears the minimum. |
| PosControlLaws.EffectiveAccel | libraries/AC_AttitudeControl/AC_PosControl.cpp:1359-1362 | A non-positive acceleration is replaced by ACCELERATION_MIN, so the value used is always positive. |
| PosControlLaws.LeashLengthIsFlooredLaw | libraries/AC_AttitudeControl/AC_PosControl.cpp:1355-1384 | For kP > 0 the leash is exactly max(law(speed, effective accel, kP), LEASH_LENGTH_MIN). The law is the linear branch below accel/kP and the quadratic branch above it. |
| PosControlLaws.LeashLawAboveLinear | libraries/AC_AttitudeControl/AC_PosControl.cpp:1369-1376 | The quadratic branch never gives less than the linear distance speed/kP. |
| PosControlLaws.LeashLawContinuous | libraries/AC_AttitudeControl/AC_PosControl.cpp:1369-1376 | The two branches agree at the crossover speed accel/kP, so the law has no jump. |
| PosControlLaws.LeashLawMonotone | libraries/AC_AttitudeControl/AC_PosControl.cpp:1369-1376 | The law is non-decreasing in speed, across both branches. |
| PosControlLaws.LeashLengthMonotoneInSpeed | libraries/AC_AttitudeControl/AC_PosControl.cpp:1355-1384 | A higher speed limit never shortens the leash, whatever accel and kP. |
| PosControlLaws.LeashLawNonNegative | libraries/AC_AttitudeControl/AC_PosControl.cpp:1369-1376 | The law is non-negative for a non-negative speed. |
| PosControlLaws.StoppingPointZ | libraries/AC_AttitudeControl/AC_PosControl.cpp:480-517 | The vertical stopping point lies within 200 cm below and 300 cm above the position. It equals the position when kP or accel is not positive. It is on the side the velocity points to. |
| PosControlLaws.StoppingPointZIsLeashLaw | libraries/AC_AttitudeControl/AC_PosControl.cpp:497-517 | Inside the bounds, the stopping point is the position plus the signed leash law of the velocity, clamped to [−200, +300]. |
| PosControlLaws.StoppingOffsetZIsLeashLaw | libraries/AC_AttitudeControl/AC_PosControl.cpp:503-515 | Both signs together: the offset before clamping is the leash law of \|vel\| with the velocity's sign. |
| PosControlLaws.ClimbingOffsetIsLeashLaw | libraries/AC_AttitudeControl/AC_PosControl.cpp:503-515 | When climbing, the offset is the leash law of the velocity itself. |
| PosControlLaws.StoppingOffsetZOdd | libraries/AC_AttitudeControl/AC_PosControl.cpp:503-515 | The descent offset is the climb offset negated, so the law is odd in the velocity. |
| PosControlLaws.SignedLeashLawMonotone | libraries/AC_AttitudeControl/AC_PosControl.cpp:503-515 | The signed law is non-decreasing in the velocity. |
| PosControlLaws.StoppingPointZMonotone | libraries/AC_AttitudeControl/AC_PosControl.cpp:480-517 | A higher climb rate never gives a lower stopping point. |
| PosControlLaws.StoppingPointXY | libraries/AC_AttitudeControl/AC_PosControl.cpp:882-924 | The stopping point is the position when kP or accel is not positive or the speed is zero. Otherwise it is reached by a step along the velocity direction of length at most the leash. |
| PosControlLaws.AlongVelocity | libraries/AC_AttitudeControl/AC_PosControl.cpp:919-923 | The step (vel/\|vel\|)·d has length exactly d and points along the velocity. |
| PosControlLaws.StoppingPointXYDistance | libraries/AC_AttitudeControl/AC_PosControl.cpp:897-923 | For a moving vehicle, the squared step length is the square of the stopping distance capped at the leash. The distance is the linear law below accel/kP and the quadratic law above it. |
| PosControlLaws.SqrtController | libraries/AC_AttitudeControl/AC_PosControl.cpp:1439-1453 | z is passed through unchanged. Outside the square-root section the output is (x·p, y·p). Inside it, the output is the error scaled along itself to the square-root speed. |
| PosControlLaws.FirstOrderScale | libraries/AC_AttitudeControl/AC_PosControl.cpp:1446-1449 | In the square-root section, the planar output is the error times a positive factor, so its direction is kept. |
| PosControlLaws.SqrtControllerLinearWithinDistance | libraries/AC_AttitudeControl/AC_PosControl.cpp:1439-1453 | A planar error within limit/p² gives the linear output (x·p, y·p). |
| PosControlLaws.SqrtControllerBoundedByLinear | libraries/AC_AttitudeControl/AC_PosControl.cpp:1439-1453 | The planar output is never longer than the linear output: its squared length is at most p²·\|error\|². |
| PosControlLaws.LimitVectorLength | libraries/AC_AttitudeControl/AC_PosControl.cpp:1426-1435 | It scales exactly when the length exceeds max_length and is positive. Otherwise the vector is unchanged. A scaled vector has length max_length and keeps its direction, and for positive max_length it also keeps its sense. |
| PosControlLaws.GetPitchThrTrim | libraries/AC_AttitudeControl/AC_PosControl.cpp:1456-1484 | The loop's result is the table interpolation TrimLookup. |
| PosControlLaws.LowIndex | libraries/AC_AttitudeControl/AC_PosControl.cpp:1462-1468 | The breakpoint search continued from index j stops at an index in [j − 1, n]. LowIndexSegment says which segment it lands on. |
| PosControlLaws.TrimLookup | libraries/AC_AttitudeControl/AC_PosControl.cpp:1455-1483 | get_pitch_thr_trim as a value: the clamped speed interpolated on its segment. GetPitchThrTrim is proved equal to it, and TrimLookupInterpolates, TrimLookupAtBreakpoint and TrimLookupHoldsEnds state its properties. |
| PosControlLaws.LowIndexSegment | libraries/AC_AttitudeControl/AC_PosControl.cpp:1461-1468 | The search stops at the segment t[k] ≤ s ≤ t[k+1] holding the speed. |
| PosControlLaws.TrimLookupInterpolates | libraries/AC_AttitudeControl/AC_PosControl.cpp:1456-1484 | For a speed on segment k, pitch (in radians) and throttle are the linear interpolations of that segment's end values. |
| PosControlLaws.TrimLookupAtBreakpoint | libraries/AC_AttitudeControl/AC_PosControl.cpp:1456-1484 | At a table speed, the trim is that entry's pitch in radians and its throttle. |
| PosControlLaws.TrimLookupHoldsEnds | libraries/AC_AttitudeControl/AC_PosControl.cpp:1459-1475 | Below the first speed the trim is the first entry, and above the last speed it is the last entry. |
| PosControlLaws.LerpAtStart | libraries/AC_AttitudeControl/AC_PosControl.cpp:1476-1482 | Interpolation at a segment's lower speed gives the lower value. |
| PosControlLaws.LerpAtEnd | libraries/AC_AttitudeControl/AC_PosControl.cpp:1476-1482 | Interpolation at a segment's upper speed gives the upper value. |
| PosControlSteps.LeashClampZ | libraries/AC_AttitudeControl/AC_PosControl.cpp:580-597 | After the clamp, −leash_down ≤ pos_error.z ≤ leash_up and target = current altitude + error. pos_up and pos_down are set exactly when their clamp fired. An unclamped target is untouched. |
| PosControlSteps.SpeedClampZ | libraries/AC_AttitudeControl/AC_PosControl.cpp:604-613 | The climb rate ends in [speed_down, speed_up], and vel_down and vel_up record which bound fired. An unclamped rate is untouched. |
| PosControlSteps.FeedForwardZ | libraries/AC_AttitudeControl/AC_PosControl.cpp:631-640 | A pending freeze keeps the previous desired acceleration and is cleared. Otherwise the acceleration is the velocity change over dt. With dt ≤ 0 nothing is fed forward and the freeze stays pending. |
| PosControlSteps.FreezeConsumedOnce | libraries/AC_AttitudeControl/AC_PosControl.cpp:631-640 | The freeze flag never survives a cycle with positive dt. |
| PosControlSteps.IntegratorUpdateAtLimit | libraries/AC_AttitudeControl/AC_PosControl.cpp:691-699 | At a throttle limit the integrator may be updated only when the error opposes it. |
| PosControlSteps.IntegratorMayUpdate | libraries/AC_AttitudeControl/AC_PosControl.cpp:697 | The integrator always updates off the throttle limits. At a limit it never updates with a zero integrator or a zero error. |
| PosControlSteps.LiftDemand | libraries/AC_AttitudeControl/AC_PosControl.cpp:705-715 | lift_g_demand ends in [0, 2] and wing_lift_g in [0, 1]. An in-range filtered wing lift is used as is. |
| PosControlSteps.LiftDemandMonotone | libraries/AC_AttitudeControl/AC_PosControl.cpp:705-715 | More PID output never lowers the lift demand, and more wing lift never raises it. |
| PosControlSteps.BlendedThrust | libraries/AC_AttitudeControl/AC_PosControl.cpp:734-781 | The new filtered forward speed lies between the old one and the forward velocity demand. Roll stays within ±100·lean_lat and pitch within the fore and aft lean limits. The throttle is at least lift_g_demand·hover. |
| PosControlSteps.ConvexBetween | libraries/AC_AttitudeControl/AC_PosControl.cpp:738-739 | Blending two values with a factor in [0, 1] gives a value between them. |
| PosControlSteps.ThrustCoversLift | libraries/AC_AttitudeControl/AC_PosControl.cpp:760-771 | The thrust vector's length times hover is at least its lift component times hover. |
| PosControlSteps.GainScaleStep | libraries/AC_AttitudeControl/AC_PosControl.cpp:1255-1257 | The integral gain scale stays in [1, 10]. An in-range relaxation step is taken as is. |
| PosControlSteps.GainScaleRelaxes | libraries/AC_AttitudeControl/AC_PosControl.cpp:1255-1257 | With dt ≤ 1 a scale in [1, 10] never grows, and it strictly relaxes toward 1 while above 1. |
| PosControlSteps.CapLength | libraries/AC_AttitudeControl/AC_PosControl.cpp:1258-1262 | The capped integral is within the airspeed cap and points along the uncapped one. It is unchanged when already within the cap and lies exactly on the cap otherwise. It is never longer than before. |
| PosControlSteps.ScaledByRatio | libraries/AC_AttitudeControl/AC_PosControl.cpp:1258-1262 | Scaling a vector of length n by m/n gives length m along it. |
| PosControlSteps.WindDriftStep | libraries/AC_AttitudeControl/AC_PosControl.cpp:1255-1267 | The wind-drift integral stays within the airspeed cap and along the accumulated sum. While holding it is no longer than the remembered length, which is kept. Otherwise the remembered length follows the new length. |
| PosControlSteps.WindDriftHoldLength | libraries/AC_AttitudeControl/AC_PosControl.cpp:1258-1267 | While holding, an integral that grew past the remembered length returns to exactly that length when the cap did not fire. When the cap fired, its squared length times \|sum\|² is (remembered · cap)². |
| PosControlSteps.WindDriftReset | libraries/AC_AttitudeControl/AC_PosControl.cpp:1315-1326 | After folding in the forward-speed correction, the integral is within the airspeed cap and along the corrected sum. An uncapped sum is kept as is. |
| PosControl.PosControl.MaxAirspeed | libraries/AC_AttitudeControl/AC_PosControl.cpp:1259 | The airspeed cap (100·fwd_spd_max) is non-negative. |
| PosControl.PosControl.constructor | libraries/AC_AttitudeControl/AC_PosControl.cpp:255-303 | The controller starts with the default gains, speeds, accelerations and minimum leashes. The reset flags are set and the limit flags raised. |
| PosControl.PosControl.CalcLeashLengthZ | libraries/AC_AttitudeControl/AC_PosControl.cpp:565-572 | When a recalculation is pending, the up and down leashes become the leash law at the up and down speeds and the flag clears. Otherwise nothing changes. |
| PosControl.PosControl.CalcLeashLengthXY | libraries/AC_AttitudeControl/AC_PosControl.cpp:1155-1162 | When a recalculation is pending, the horizontal leash becomes the leash law at the xy speed and the flag clears. Otherwise nothing changes. |
| PosControl.PosControl.SetMaxSpeedZ | libraries/AC_AttitudeControl/AC_PosControl.cpp:327-338 | The down speed is forced negative (−\|speed_down\|). The limits change only when one of them moves by more than 1. A change recalculates both vertical leashes, and the recalculation flag ends cleared. |
| PosControl.PosControl.SetMaxAccelZ | libraries/AC_AttitudeControl/AC_PosControl.cpp:341-348 | The acceleration changes only when it moves by more than 1. A change recalculates both vertical leashes. Otherwise the state is untouched. |
| PosControl.PosControl.SetMaxAccelXY | libraries/AC_AttitudeControl/AC_PosControl.cpp:821-828 | The horizontal acceleration changes only when it moves by more than 1. A change recalculates the horizontal leash. |
| PosControl.PosControl.SetMaxSpeedXY | libraries/AC_AttitudeControl/AC_PosControl.cpp:831-838 | The horizontal speed changes only when it moves by more than 1. A change recalculates the horizontal leash. |
| PosControl.PosControl.SetAltTargetWithSlew | libraries/AC_AttitudeControl/AC_PosControl.cpp:354-373 | When the motors can still push toward the requested altitude and dt is not zero, the target moves by the slewed climb rate times dt and that rate becomes the desired climb rate. The target then ends within the leashes of the current altitude, and the feed-forward flag is cleared. |
| PosControl.PosControl.SetAltTargetFromClimbRate | libraries/AC_AttitudeControl/AC_PosControl.cpp:380-392 | The target moves by rate·dt exactly when the climb is allowed. It is not allowed when climbing at the upper throttle limit or against the position limit, and a forced descent is always allowed. The desired climb rate is recorded. |
| PosControl.PosControl.ShiftAltTarget | libraries/AC_AttitudeControl/AC_PosControl.cpp:439-447 | The altitude target moves by exactly z, and a non-zero shift freezes the feed-forward for one cycle. |
| PosControl.PosControl.ShiftPosXYTarget | libraries/AC_AttitudeControl/AC_PosControl.cpp:861-866 | The xy target moves by exactly (x, y). z and the rest of the state are unchanged. |
| PosControl.PosControl.DesiredVelToPos | libraries/AC_AttitudeControl/AC_PosControl.cpp:1182-1196 | A negative dt is ignored. A pending reset consumes the call and clears. Otherwise the target advances by desired velocity × dt. |
| PosControl.PosControl.DesiredAccelToVel | libraries/AC_AttitudeControl/AC_PosControl.cpp:1165-1179 | A negative dt is ignored. A pending reset consumes the call. Otherwise the desired velocity advances by desired acceleration × dt. |
| PosControl.PosControl.StoppingVelZ | libraries/AC_AttitudeControl/AC_PosControl.cpp:488-494 | While active the velocity error is added to the climb rate, less the desired climb rate when fed forward. GetStoppingPointZ's contract is stated through it. |
| PosControl.PosControl.GetStoppingPointZ | libraries/AC_AttitudeControl/AC_PosControl.cpp:480-517 | The stopping point lies within [−200, +300] of the position and is the signed leash law clamped there. With a degenerate gain or acceleration it is the position. It lies on the side the velocity points to. |
| PosControl.PosControl.StoppingVelXY | libraries/AC_AttitudeControl/AC_PosControl.cpp:891-895 | While active the velocity error is added to the measured velocity. GetStoppingPointXY's contract is stated through it. |
| PosControl.PosControl.GetStoppingPointXY | libraries/AC_AttitudeControl/AC_PosControl.cpp:882-924 | The stopping point is a step along the (desired or measured) velocity of at most the leash. It is the position when the gain or acceleration is degenerate or the vehicle is still. |
| PosControl.PosControl.GetStoppingPointXYDistance | libraries/AC_AttitudeControl/AC_PosControl.cpp:897-923 | When moving, the step's squared length is the square of the stopping distance capped at the leash. |
| PosControl.PosControl.ClampAltitudeTarget | libraries/AC_AttitudeControl/AC_PosControl.cpp:580-597 | The altitude error ends within the leashes, with target = altitude + error. The limit flags are set exactly when each clamp fired. The other limits are unchanged. |
| PosControl.PosControl.PosToRateZ | libraries/AC_AttitudeControl/AC_PosControl.cpp:599-618 | The climb rate is the square-root controller's output clamped to the speed limits. vel_up and vel_down record which bound fired. The desired climb rate is added as feed-forward when enabled. |
| PosControl.PosControl.RateToAccelZ | libraries/AC_AttitudeControl/AC_PosControl.cpp:626-660 | A pending reset_rate_to_accel_z is reported and cleared, and it zeroes the velocity error. The feed-forward follows FeedForwardZ, vel_last_z becomes the new rate, and the acceleration target is P(vel error) + feed-forward. |
| PosControl.PosControl.AccelToLiftZ | libraries/AC_AttitudeControl/AC_PosControl.cpp:668-715 | A pending accel reset zeroes the acceleration error and clears. The integrator moves only as IntegratorMayUpdate allows. imax is raised to at least hover·1000. lift_g_demand ends in [0, 2] and wing_lift_g in [0, 1]. |
| PosControl.PosControl.OutputThrottle | libraries/AC_AttitudeControl/AC_PosControl.cpp:733-810 | accel_target_xy_updated is always consumed, and angle boost is used exactly when it was not set. If not set, the throttle is HoverThrottle(lift, hover). If set, the blended pitch, roll and throttle are output. |
| PosControl.PosControl.AltitudeToAccelZ | libraries/AC_AttitudeControl/AC_PosControl.cpp:580-660 | The leash step is LeashClampZ of the old altitude target (LeashedZ). Only the z of the target and error moves, to the clamped values: ±leash when a clamp fired. pos_up and pos_down are exactly the clamp flags, and the error ends within the leashes with target = altitude + error. The climb rate is the square-root controller's output clamped by SpeedClampZ, with vel_up and vel_down as the clamp reports, plus the desired climb rate when its feed-forward is on. accel_xy and the other fields stay as they were. A pending reset_rate_to_accel_z is reported and cleared. The feed-forward acceleration and freeze_ff_z follow FeedForwardZ, and vel_last_z becomes the new rate. The velocity error is 0 on a reset and otherwise the filtered rate error, and the acceleration target is P(velocity error) + feed-forward. |
| PosControl.PosControl.AccelToThrottleZ | libraries/AC_AttitudeControl/AC_PosControl.cpp:668-814 | Position, error and limits are untouched. The acceleration error is 0 on a pending accel reset, which clears, and otherwise target + (measured + g)·100. imax becomes max(imax, hover·1000). The lift demand is LiftDemand of the PID terms, with the integrator moving only as IntegratorMayUpdate allows, and of the filtered wing lift: lift_g_demand in [0, 2], wing_lift_g in [0, 1]. Boost is used exactly when xy was not updated. Then the throttle is HoverThrottle(lift, hover), in [0, 2·hover], and pitch, roll and the forward-speed filter are kept. Otherwise those four are BlendedThrust's outputs. The xy-updated flag ends cleared. |
| PosControl.PosControl.CalcRollPitchThrottle | libraries/AC_AttitudeControl/AC_PosControl.cpp:576-814 | The leash step is LeashClampZ of the old altitude target (LeashedZ). Only the z of the target and error moves, and the error ends within the leashes with target = altitude + error. pos_up and pos_down are set exactly when their clamp fired. Of the limits only the velocity flags may change besides, so accel_xy is kept. The one-shot reset flags end cleared and the other flags stay as they were, except that a positive dt consumes freeze_ff_z while a pending freeze keeps the desired acceleration. The acceleration error, imax and the lift demand are those of the acceleration step. Boost is used exactly when xy was not updated. Then the throttle is HoverThrottle(lift, hover), in [0, 2·hover], with pitch, roll and the forward-speed filter kept. Otherwise those four are BlendedThrust's outputs. |
| PosControl.PosControl.PosToVelXY | libraries/AC_AttitudeControl/AC_PosControl.cpp:1208-1234 | With kP ≤ 0 the position target and error are untouched and the velocity target's xy is zero. Otherwise (LeashedXY) the error is the old target's offset from the position, limited to the leash exactly when it is longer and not negligible. The target is pulled to position + error when the limit applied and is kept otherwise, and z is untouched. The error ends within the leash. The velocity target is the square-root controller's output, and the desired velocity is then added as feed-forward. |
| PosControl.PosControl.VelErrorXY | libraries/AC_AttitudeControl/AC_PosControl.cpp:1240-1250 | An override is consumed once and otherwise the measured velocity is used. The velocity error is target − velocity. |
| PosControl.PosControl.WindDriftXY | libraries/AC_AttitudeControl/AC_PosControl.cpp:1255-1267 | The gain scale takes one GainScaleStep. The integral and remembered length take one WindDriftStep, capped at the airspeed. |
| PosControl.PosControl.LimitAccelXY | libraries/AC_AttitudeControl/AC_PosControl.cpp:1309-1311 | The xy acceleration is the demand limited to 980 cm/s², with accel_xy recording whether it was limited. The target-updated edge flag is raised. z and the other limits are unchanged. |
| PosControl.PosControl.AccelFromVelErrorXY | libraries/AC_AttitudeControl/AC_PosControl.cpp:1270-1311 | The accel reset is consumed. The xy acceleration is the PID demand limited to 980, with the flag recording whether it was limited, and the target-updated flag is raised. |
| PosControl.PosControl.VelToAccelXY | libraries/AC_AttitudeControl/AC_PosControl.cpp:1236-1311 | The override is consumed once and otherwise the measured velocity is used, and the velocity error is target − velocity. The gain scale takes one GainScaleStep. The integral and remembered length take one WindDriftStep, held while the last cycle's acceleration was limited or the throttle is at its top. The accel reset is consumed, and the xy acceleration is the PID demand limited to 980 cm/s², with accel_xy recording whether it was limited. z and the other limits are unchanged, and the target-updated flag is raised. |
| PosControl.PosControl.RunXYController | libraries/AC_AttitudeControl/AC_PosControl.cpp:1203-1313 | The position step is PosToVelXY's at the gain nav_vel_gain_scaler·kP: leash-limited error (LeashedXY), target = position + error, and the velocity target from the square-root controller plus feed-forward. The velocity, wind-drift and acceleration steps are VelToAccelXY's, with the integral held while the last cycle's acceleration was limited or the throttle is at its top. |
| PosControl.PosControl.ResetWindDriftInteg | libraries/AC_AttitudeControl/AC_PosControl.cpp:1315-1326 | The integral becomes WindDriftReset of the old integral: within the airspeed cap and along the corrected sum. |
| PosControl.PosControl.InitEkfXYReset | libraries/AC_AttitudeControl/AC_PosControl.cpp:1387-1391 | The xy reset bookmark becomes the estimator's last reset time. |
| PosControl.PosControl.CheckForEkfXYReset | libraries/AC_AttitudeControl/AC_PosControl.cpp:1394-1403 | When the reset time differs from the bookmark, the xy target moves by exactly 100·shift and the bookmark is updated. Otherwise nothing changes. |
| PosControl.PosControl.InitEkfZReset | libraries/AC_AttitudeControl/AC_PosControl.cpp:1406-1410 | The z reset bookmark becomes the estimator's last reset time. |
| PosControl.PosControl.CheckForEkfZReset | libraries/AC_AttitudeControl/AC_PosControl.cpp:1413-1422 | Only for a non-zero reset time different from the bookmark: the altitude target moves by exactly −100·shift, a non-zero shift freezes the feed-forward, and the bookmark is updated. Otherwise nothing changes. |
| PosControl.AccelDemandXY | libraries/AC_AttitudeControl/AC_PosControl.cpp:1270-1306 | The xy acceleration run_xy_controller asks for before its limit: the velocity PID terms, whose integrator shrinks while held, scaled by nav_vel_gain_scaler and filtered at min(accel_xy_filt_hz, 5·scaler), plus the desired acceleration. LimitAccelXY and VelToAccelXY state their results through it. |
| PosControl.HoverThrottle | libraries/AC_AttitudeControl/AC_PosControl.cpp:803-810 | For a lift demand in [0, 2] the fallback throttle is in [0, 2·hover], and one g of demand gives exactly the hover throttle. |
| PosControl.HoverThrottleMonotone | libraries/AC_AttitudeControl/AC_PosControl.cpp:803-810 | More lift demand never lowers the fallback throttle. |
| PosControl.VectorLimitedWithin | libraries/AC_AttitudeControl/AC_PosControl.cpp:1309-1311 | A limited vector is within the maximum length. |
| PosControl.WindDriftWithinCap | libraries/AC_AttitudeControl/AC_PosControl.cpp:1258-1262 | After the step, the wind-drift integral's norm is at most 100·fwd_spd_max. |
| PosControl.SlewClimbRate | libraries/AC_AttitudeControl/AC_PosControl.cpp:364 | The slewed climb rate lies within [speed_down, speed_up]. |
| PosControl.SlewNeverOvershoots | libraries/AC_AttitudeControl/AC_PosControl.cpp:354-373 | One slew step moves the target toward the requested altitude, never past it. |
| PosControl.ClimbAllowed | libraries/AC_AttitudeControl/AC_PosControl.cpp:384 | A zero rate is never allowed, and a forced descent always is. A climb at the upper throttle limit or against the position limit is refused. |
| PosControl.ClimbAllowedRules | libraries/AC_AttitudeControl/AC_PosControl.cpp:380-392 | A climb is refused at the upper throttle limit or against the position limit. A forced descent is always allowed, and a zero rate never moves the target. |
| PosControl.EpsilonWithinLeash | libraries/AC_AttitudeControl/AC_PosControl.cpp:1426-1435 | A vector too short to be limited, or already within the maximum, is within the maximum length. |
| PlaneModes.ModeNumber | ArduPlane/system.cpp:314-321 | Mode numbers are at most 23 and never 9. The numbers are Mode::Number from ArduPlane/mode.h, which is not part of this model; system.cpp uses them in set_mode_by_number. |
| PlaneModes.ModeFromNumber | ArduPlane/system.cpp:316 | A number that maps to a mode maps to the mode carrying that number. |
| PlaneModes.ModeNumberRoundTrip | ArduPlane/system.cpp:314-321 | Every mode is found again from its number. The mapped numbers are exactly 0-23 without 9. |
| PlaneModes.VtolModesNumbered | ArduPlane/system.cpp:287 | The VTOL (quadplane) modes are exactly those numbered 17 and up. |
| ReverseThrust.HaveReverseThrust | ArduPlane/reverse_thrust.cpp:99-102 | have_reverse_thrust: configured exactly when the minimum throttle is negative. |
| ReverseThrust.AllowInAuto | ArduPlane/reverse_thrust.cpp:42-63 | With AUTO_ALWAYS set every command is allowed, and with none of the five AUTO bits set none is. |
| ReverseThrust.AllowReverseThrust | ArduPlane/reverse_thrust.cpp:23-94 | Permission implies a mask other than NEVER and a negative minimum throttle. Outside AUTO, once that holds, a mode is allowed exactly when it has no deciding bit (ModeBit) or its bit is set. |
| ReverseThrust.NeverWithoutConfiguration | ArduPlane/reverse_thrust.cpp:28-30 | With the mask NEVER, or a minimum throttle that is not negative, reverse thrust is refused in every mode. |
| ReverseThrust.AllowImpliesHave | ArduPlane/reverse_thrust.cpp:23-102 | Permission implies have_reverse_thrust and a mask other than NEVER. |
| ReverseThrust.NeverInAutoTakeoff | ArduPlane/reverse_thrust.cpp:35-40 | In AUTO with the TAKEOFF command it is refused for every mask, AUTO_ALWAYS included. |
| ReverseThrust.AutoAlwaysAllows | ArduPlane/reverse_thrust.cpp:43-46 | With AUTO_ALWAYS set and reverse thrust configured, every AUTO command but TAKEOFF is allowed. |
| ReverseThrust.AutoBitsGrantTheirCommands | ArduPlane/reverse_thrust.cpp:45-63 | Alone, LAND_APPROACH grants exactly NAV_LAND and LOITER_ALT exactly LOITER_TO_ALT. LOITER_ALL grants exactly the four loiter commands, and WAYPOINT exactly WAYPOINT and SPLINE_WAYPOINT. |
| ReverseThrust.ModeBit | ArduPlane/reverse_thrust.cpp:67-85 | Exactly LOITER, RTL, CIRCLE, CRUISE, FBWB, AVOID_ADSB and GUIDED have a deciding bit. |
| ReverseThrust.ModeDecidedByItsBit | ArduPlane/reverse_thrust.cpp:67-90 | Outside AUTO, each of those modes is allowed exactly when its own bit is set (AVOID_ADSB uses GUIDED's bit). Every other mode is allowed once reverse thrust is configured. |
| ReverseThrust.BitsDisjoint | ArduPlane/reverse_thrust.cpp:45-63 | The AUTO option bits are distinct, non-zero bits. |
| ReverseThrust.MoreBitsAllowMore | ArduPlane/reverse_thrust.cpp:23-94 | Setting more bits in the mask never withdraws permission. |
| ReverseThrust.WrapInt16 | ArduPlane/reverse_thrust.cpp:121-123 | An in-range value is stored unchanged in int16_t. |
| ReverseThrust.ThrottleInput | ArduPlane/reverse_thrust.cpp:115-124 | Without the reverse option the input is returned as is. With it, the input is negated: exactly for every value but −32768, which wraps to itself. |
| ReverseThrust.ThrottleInputReversedTwice | ArduPlane/reverse_thrust.cpp:121-123 | Reversing twice gives back every int16_t input. |
| PlaneSystem.SwitchMode | ArduPlane/system.cpp:246-312 | set_mode on the mode state, with each mode's enter as a parameter and the mode calls as events. Its properties are the lemmas that follow, and Plane.SetMode is proved equal to it. |
| PlaneSystem.SwitchOutcome | ArduPlane/system.cpp:246-312 | Asking for the current mode succeeds and changes nothing. A failure leaves the state as it was, unless it fell back to QHOVER. A successful change makes the new mode current, the old one previous, and both reasons the given one. The old mode is exited only when it stops being current, and a change announces the new mode's entry first. |
| PlaneSystem.SwitchSucceedsIffEntered | ArduPlane/system.cpp:246-312 | An unblocked switch succeeds exactly when the mode is already current or its enter succeeds. |
| PlaneSystem.SwitchRollback | ArduPlane/system.cpp:262-292 | A failed unblocked switch restores all four mode fields. The old mode is re-entered exactly when it is a VTOL mode. |
| PlaneSystem.BlockedFallsBackToQHover | ArduPlane/system.cpp:253-259 | A QAUTOTUNE request without QAUTOTUNE built in fails and never reaches QAUTOTUNE. It ends in QHOVER unless QHOVER's enter also fails. |
| PlaneSystem.SwitchIdempotent | ArduPlane/system.cpp:246-312 | Asking again for the mode just reached succeeds and changes nothing. |
| PlaneSystem.SwitchKeepsQAutotuneOut | ArduPlane/system.cpp:253-259 | Without QAUTOTUNE built in, no switch makes it current or previous. |
| PlaneSystem.ShortFailsafeNext | ArduPlane/system.cpp:369-387 | SHORT afterwards exactly when the radio is still lost, the action is enabled, and SHORT was on or could start (state NONE, not landing). The long and GCS states are untouched. NONE afterwards exactly in the complementary cases. |
| PlaneSystem.ShortFailsafeIdempotent | ArduPlane/system.cpp:369-387 | Running the check again on the same inputs changes nothing. |
| PlaneSystem.ShortFailsafeNeedsRadioLossAndAction | ArduPlane/system.cpp:382-386 | Radio regained or action disabled: a short failsafe is cleared and none is started. |
| PlaneSystem.ConstrainInt | ArduPlane/system.cpp:460-462 | constrain_int16 gives a value in [lo, hi], unchanged when already in range. |
| PlaneSystem.ThrottlePercentage | ArduPlane/system.cpp:453-463 | In a VTOL mode it is the quadplane's value. Otherwise it is in [0, 100], or in [−100, 100] with reverse thrust, and equals the truncated output when that is in range. |
| PlaneSystem.ThrottlePercentageMonotone | ArduPlane/system.cpp:458-462 | A larger throttle output never gives a smaller percentage. |
| PlaneSystem.Plane.constructor | ArduPlane/system.cpp:246-312 | The plane starts in INITIALISING with unknown reasons, no events and no failsafe: the states set_mode starts from. These initial values are Plane.h's member initialisers; Plane.h is not part of this model. |
| PlaneSystem.Plane.SetMode | ArduPlane/system.cpp:246-312 | The four mode fields, the result and the appended mode calls are exactly those of SwitchMode on the old state. QAUTOTUNE stays out when it is not built in. |
| PlaneSystem.Plane.TrySwitch | ArduPlane/system.cpp:262-311 | Succeeds exactly when enter succeeds. On failure the four mode fields are restored and the old mode is re-entered if it is VTOL. On success the new and old modes and both reasons are set, and the exit and announce calls are appended. |
| PlaneSystem.Plane.SetModeByNumber | ArduPlane/system.cpp:314-321 | An unknown number fails and changes nothing. A known one behaves as SetMode with its mode. |
| PlaneSystem.Plane.CheckShortFailsafe | ArduPlane/system.cpp:369-387 | failsafe.state becomes ShortFailsafeNext of its old value. |
| PlaneSystem.Plane.ThrottlePercentageOf | ArduPlane/system.cpp:453-463 | Outside VTOL the percentage is in [−100, 100] with reverse thrust configured and in [0, 100] otherwise. A negative percentage implies a negative minimum throttle. |
| RealMath.TruncToInt | ArduPlane/system.cpp:460-462 | The float-to-int conversion truncates toward zero: \|r\| ≤ \|v\| < \|r\| + 1, with the sign kept. |
| RealMath.Constrain | libraries/AC_AttitudeControl/AC_PosControl.cpp:364 | constrain_float gives a value in [lo, hi], unchanged when already in range. |

## Left out

- Logging (`Log_Write` and `write_log`), GCS text messages and notify tones. These are output with no effect on the modelled state. `set_mode`'s log and notify calls are recorded as `Announced` events.
- Trigonometry (`atan2f`, `atanf`, `cosf`, `radians`/`degrees` of computed angles), `lean_angles_to_accel` and `accel_to_lean_angles`. Values the blended path needs from them are parameters (`Trig`, `Attitude`).
- Low-pass filters and `AC_PID` internals (`apply`, `get_i`, `set_integrator`, filters). These are function parameters. The estimator (AHRS/EKF) readings are method inputs.
- `AP_HAL::millis` and the `is_active_z`/`is_active_xy` timing. The active flags and reset times are parameters, and uint32 wrap of times is not modelled.
- The rest of `AC_PosControl.cpp`: `update_z_controller`, `update_xy_controller`, the `init_*` and `relax_*` helpers, the other getters and setters, and the parameter table. These are outside the modelled core.
- AP_Param storage. Parameters take their default values in the constructor, and later writes are not modelled.
- The header constants of `AC_PosControl.h` are not part of this model. They take the upstream values: minimum leash 100 cm, minimum acceleration 50 cm/s², stopping distances 300 cm up and 200 cm down, default speeds and accelerations, and a 400 Hz time step.
- `AC_P` is modelled as the product kP·error.
- PosControl.PosControl.CalcRollPitchThrottle, PosControl.PosControl.OutputThrottle and PosControl.PosControl.AccelToThrottleZ require a positive EAS-to-TAS ratio. The source divides by it without a guard.
- PosControl.PosControl.MaxAirspeed requires `fwd_spd_max ≥ 0`, which is a parameter the source never makes negative.
- PlaneSystem.ThrottlePercentage assumes the float-to-int16 conversion is in range. For an out-of-range float the C++ conversion is undefined.
- The one-dimensional `AC_AttitudeControl::sqrt_controller` called at AC_PosControl.cpp:600 is the parameter `VerticalInputs.sqrtControllerZ`, with no constraint on it. AC_AttitudeControl.cpp is not part of this model. The climb-rate clamp and everything after it are stated in terms of its output.
- The trim tables `spd_table`, `pitch_table`, `thr_table` and `SPD_N_BP` are declared in `AC_PosControl.h`, which is not part of this model. They are sequence parameters. PosControlLaws.TrimTables requires 1 to 127 entries of equal length with strictly increasing speeds. The source checks none of this: it relies on the fixed tables, and AC_PosControl.cpp:1478 divides by the gap between breakpoints.
- PosControl.PosControl.CalcRollPitchThrottle does not restate these results of its first half: the climb-rate clamp (the velocity target and the vel_up and vel_down flags), vel_last_z, the feed-forward acceleration, the velocity error and the acceleration target. AltitudeToAccelZ, which it runs first, states each of them, and AccelToThrottleZ, which it runs second, states the rest of the new state.
- Square root is the `sqrt` parameter, constrained only by `IsSqrt`. Float rounding, NaN and infinities are not modelled.
- The mode table (`ArduPlane/mode.h`, `mode_from_mode_num`) is not part of this model. The numbers are ArduPlane's published Mode::Number values.
- The Corvo tailsitter-controller branch of `get_throttle_input`, the dead-zone choice and the RC channel reads are not modelled. Only the reversed-throttle negation is.
- Each mode's `enter()` is the parameter `enter`, and its success depends on state outside the model. `Mode::exit`, autotune restore and the notify calls are recorded as events in call order.
- QAUTOTUNE_ENABLED is a build-time constant, modelled as the const field `qautotuneEnabled`.
- `failsafe_short_on_event` and `failsafe_short_off_event` live in `events.cpp`, which is not part of this model. The model keeps only the failsafe state they set; the mode changes they make are not modelled.
- `check_long_failsafe`, `init_ardupilot`, `startup_ground`, `startup_INS_ground`, `create_into_wind_landing_sequence` and the rest of `system.cpp` are not modelled. They are I/O, start-up or mission storage.
- PosControlLaws.GetPitchThrTrim: the source's `low_index <= -1` branch cannot be reached once the ends are handled. The model marks it as dead.
- PlaneSystem.Plane.TrySwitch is `set_mode` after its early returns, split out as its own method. The source is a single function.

## Behaviour notes

These behaviours follow from the code as written. The model keeps them.

- In `set_mode` (ArduPlane/system.cpp:303-304), a successful switch sets `previous_mode_reason` to the new reason as well, so both reasons equal the new one.
- In `run_xy_controller` (AC_PosControl.cpp:1263-1267), the hold rescale divides by the integral's length before the airspeed cap. When both the cap and the hold fire, the integral ends shorter than the remembered length (WindDriftHoldLength).
- In `run_xy_controller` (AC_PosControl.cpp:1229), `sqrt_controller` writes `pos_error.z` into `vel_target.z`, which the cascade overwrites before use.
- The leash law switches branches on `speed <= accel/kP` (AC_PosControl.cpp:1370), but the stopping points switch on a strict `<` (AC_PosControl.cpp:505 and 911). The branches agree at the crossover (LeashLawContinuous), so the choice does not change the value.
