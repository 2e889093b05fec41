/**
 * ArduPlane's reverse-thrust decision (ArduPlane/reverse_thrust.cpp): whether
 * the current flight state may use negative throttle, given the
 * RC-configured USE_REV_THRUST bitmask, the minimum throttle and, in AUTO,
 * the current mission navigation command.
 */
module ReverseThrust {
  import opened PlaneModes

  type Int8 = x: int | -128 <= x < 128
  type Int16 = x: int | -0x8000 <= x < 0x8000
  type UInt16 = x: int | 0 <= x < 0x1_0000

  // The USE_REV_THRUST bits (ArduPlane/defines.h, which is not part of this model).
  const UseReverseThrustNever: bv16 := 0
  const AutoAlways: bv16 := 1 << 0
  const AutoLandApproach: bv16 := 1 << 1
  const AutoLoiterToAlt: bv16 := 1 << 2
  const AutoLoiterAll: bv16 := 1 << 3
  const AutoWaypoint: bv16 := 1 << 4
  const LoiterBit: bv16 := 1 << 5
  const RtlBit: bv16 := 1 << 6
  const CircleBit: bv16 := 1 << 7
  const CruiseBit: bv16 := 1 << 8
  const FbwbBit: bv16 := 1 << 9
  const GuidedBit: bv16 := 1 << 10

  // MAVLink navigation command ids.
  const NavWaypoint: UInt16 := 16
  const NavLoiterUnlim: UInt16 := 17
  const NavLoiterTurns: UInt16 := 18
  const NavLoiterTime: UInt16 := 19
  const NavLand: UInt16 := 21
  const NavTakeoff: UInt16 := 22
  const NavLoiterToAlt: UInt16 := 31
  const NavSplineWaypoint: UInt16 := 82

  predicate HasBit(mask: bv16, bit: bv16) {
    mask & bit != 0
  }

  /** have_reverse_thrust: the plane is configured for reverse thrust when THR_MIN is negative. */
  predicate HaveReverseThrust(throttleMin: Int8) {
    throttleMin < 0
  }

  predicate IsLoiterCommand(navCmd: UInt16) {
    navCmd == NavLoiterTime || navCmd == NavLoiterToAlt || navCmd == NavLoiterTurns || navCmd == NavLoiterUnlim
  }

  /** The AUTO case of allow_reverse_thrust, for a navigation command other than TAKEOFF. */
  predicate AllowInAuto(useReverseThrust: bv16, navCmd: UInt16)
    ensures HasBit(useReverseThrust, AutoAlways) ==> AllowInAuto(useReverseThrust, navCmd)
    ensures useReverseThrust & 0x1F == 0 ==> !AllowInAuto(useReverseThrust, navCmd)
  {
    var allow := HasBit(useReverseThrust, AutoAlways);
    var allow := allow || (HasBit(useReverseThrust, AutoLandApproach) && navCmd == NavLand);
    var allow := allow || (HasBit(useReverseThrust, AutoLoiterToAlt) && navCmd == NavLoiterToAlt);
    var allow := allow || (HasBit(useReverseThrust, AutoLoiterAll) && IsLoiterCommand(navCmd));
    allow || (HasBit(useReverseThrust, AutoWaypoint) && (navCmd == NavWaypoint || navCmd == NavSplineWaypoint))
  }

  /** allow_reverse_thrust */
  predicate AllowReverseThrust(useReverseThrust: bv16, throttleMin: Int8, mode: FlightMode, navCmd: UInt16)
    ensures AllowReverseThrust(useReverseThrust, throttleMin, mode, navCmd) ==>
              HaveReverseThrust(throttleMin) && useReverseThrust != UseReverseThrustNever
    ensures mode != Auto ==>
              (AllowReverseThrust(useReverseThrust, throttleMin, mode, navCmd)
               <==> useReverseThrust != UseReverseThrustNever && HaveReverseThrust(throttleMin)
                    && (ModeBit(mode).None? || HasBit(useReverseThrust, ModeBit(mode).value)))
  {
    if useReverseThrust == UseReverseThrustNever || !HaveReverseThrust(throttleMin) then false
    else
      match mode
      case Auto => navCmd != NavTakeoff && AllowInAuto(useReverseThrust, navCmd)
      case Loiter => HasBit(useReverseThrust, LoiterBit)
      case Rtl => HasBit(useReverseThrust, RtlBit)
      case Circle => HasBit(useReverseThrust, CircleBit)
      case Cruise => HasBit(useReverseThrust, CruiseBit)
      case FlyByWireB => HasBit(useReverseThrust, FbwbBit)
      case AvoidAdsb => HasBit(useReverseThrust, GuidedBit)
      case Guided => HasBit(useReverseThrust, GuidedBit)
      case _ => true
  }

  /**
   * The bit that decides each throttle-controlling mode outside AUTO, or
   * none for a mode that does not control throttle; AVOID_ADSB shares
   * GUIDED's bit.
   */
  function ModeBit(mode: FlightMode): (r: Option<bv16>)
    ensures r.Some? <==> mode in {Loiter, Rtl, Circle, Cruise, FlyByWireB, AvoidAdsb, Guided}
  {
    match mode
    case Loiter => Some(LoiterBit)
    case Rtl => Some(RtlBit)
    case Circle => Some(CircleBit)
    case Cruise => Some(CruiseBit)
    case FlyByWireB => Some(FbwbBit)
    case AvoidAdsb => Some(GuidedBit)
    case Guided => Some(GuidedBit)
    case _ => None
  }

  /** Never, whatever the mode, when the mask is NEVER or the minimum throttle is not negative. */
  lemma NeverWithoutConfiguration(useReverseThrust: bv16, throttleMin: Int8, mode: FlightMode, navCmd: UInt16)
    requires useReverseThrust == UseReverseThrustNever || throttleMin >= 0
    ensures !AllowReverseThrust(useReverseThrust, throttleMin, mode, navCmd)
  {
  }

  /** Permission implies the plane is configured for reverse thrust. */
  lemma AllowImpliesHave(useReverseThrust: bv16, throttleMin: Int8, mode: FlightMode, navCmd: UInt16)
    requires AllowReverseThrust(useReverseThrust, throttleMin, mode, navCmd)
    ensures HaveReverseThrust(throttleMin) && useReverseThrust != UseReverseThrustNever
  {
  }

  /** Never during an AUTO takeoff, even with AUTO_ALWAYS (or every bit) set. */
  lemma NeverInAutoTakeoff(useReverseThrust: bv16, throttleMin: Int8)
    ensures !AllowReverseThrust(useReverseThrust, throttleMin, Auto, NavTakeoff)
  {
  }

  /** In AUTO, AUTO_ALWAYS allows every command but TAKEOFF. */
  lemma AutoAlwaysAllows(useReverseThrust: bv16, throttleMin: Int8, navCmd: UInt16)
    requires HasBit(useReverseThrust, AutoAlways) && throttleMin < 0 && navCmd != NavTakeoff
    ensures AllowReverseThrust(useReverseThrust, throttleMin, Auto, navCmd)
  {
  }

  /** The AUTO bits one at a time: each grants exactly its own commands. */
  lemma AutoBitsGrantTheirCommands(throttleMin: Int8, navCmd: UInt16)
    requires throttleMin < 0
    ensures AllowReverseThrust(AutoLandApproach, throttleMin, Auto, navCmd) <==> navCmd == NavLand
    ensures AllowReverseThrust(AutoLoiterToAlt, throttleMin, Auto, navCmd) <==> navCmd == NavLoiterToAlt
    ensures AllowReverseThrust(AutoLoiterAll, throttleMin, Auto, navCmd)
            <==> navCmd in {NavLoiterTime, NavLoiterToAlt, NavLoiterTurns, NavLoiterUnlim}
    ensures AllowReverseThrust(AutoWaypoint, throttleMin, Auto, navCmd)
            <==> navCmd in {NavWaypoint, NavSplineWaypoint}
  {
    BitsDisjoint();
  }

  /** The single-bit constants are distinct bits. */
  lemma BitsDisjoint()
    ensures AutoLandApproach & AutoAlways == 0 && AutoLandApproach & AutoLoiterToAlt == 0
    ensures AutoLandApproach & AutoLoiterAll == 0 && AutoLandApproach & AutoWaypoint == 0
    ensures AutoLoiterToAlt & AutoAlways == 0 && AutoLoiterToAlt & AutoLoiterAll == 0 && AutoLoiterToAlt & AutoWaypoint == 0
    ensures AutoLoiterAll & AutoAlways == 0 && AutoLoiterAll & AutoWaypoint == 0 && AutoWaypoint & AutoAlways == 0
    ensures AutoLandApproach != 0 && AutoLoiterToAlt != 0 && AutoLoiterAll != 0 && AutoWaypoint != 0
  {
  }

  /**
   * Outside AUTO, each throttle-controlling mode is decided by its own bit
   * alone, and every other mode is allowed once reverse thrust is
   * configured.
   */
  lemma ModeDecidedByItsBit(useReverseThrust: bv16, throttleMin: Int8, mode: FlightMode, navCmd: UInt16)
    requires useReverseThrust != UseReverseThrustNever && throttleMin < 0 && mode != Auto
    ensures ModeBit(mode).Some? ==>
              (AllowReverseThrust(useReverseThrust, throttleMin, mode, navCmd) <==> HasBit(useReverseThrust, ModeBit(mode).value))
    ensures ModeBit(mode).None? ==> AllowReverseThrust(useReverseThrust, throttleMin, mode, navCmd)
  {
  }

  /** Setting more bits never withdraws permission. */
  lemma MoreBitsAllowMore(fewer: bv16, more: bv16, throttleMin: Int8, mode: FlightMode, navCmd: UInt16)
    requires fewer & more == fewer
    requires AllowReverseThrust(fewer, throttleMin, mode, navCmd)
    ensures AllowReverseThrust(more, throttleMin, mode, navCmd)
  {
    forall bit: bv16 | HasBit(fewer, bit)
      ensures HasBit(more, bit)
    {
      assert fewer & bit == (fewer & more) & bit;
      assert (fewer & more) & bit == fewer & (more & bit);
    }
  }

  /** A 16-bit value wrapped into int16_t, as a C conversion from int does for out-of-range values. */
  function WrapInt16(x: int): (r: Int16)
    ensures -0x8000 <= x < 0x8000 ==> r == x
  {
    (x + 0x8000) % 0x1_0000 - 0x8000
  }

  /**
   * The reversed-throttle rule of get_throttle_input, outside the Corvo
   * hand-controller case: with the RC reverse-throttle option the channel
   * input is negated (in int16_t).
   */
  function ThrottleInput(controlIn: Int16, reversedThrottle: bool): (r: Int16)
    ensures !reversedThrottle ==> r == controlIn
    ensures reversedThrottle && controlIn != -0x8000 ==> r == -controlIn
  {
    if reversedThrottle then WrapInt16(-(controlIn as int)) else controlIn
  }

  /** Reversing twice gives the input back, for every int16_t input including -32768. */
  lemma ThrottleInputReversedTwice(controlIn: Int16)
    ensures ThrottleInput(ThrottleInput(controlIn, true), true) == controlIn
  {
    if controlIn == -0x8000 {
      assert ThrottleInput(controlIn, true) == -0x8000;
    }
  }
}
