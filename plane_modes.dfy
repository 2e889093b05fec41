/**
 * ArduPlane's flight modes and their numbers (Mode::Number), as
 * mode_from_mode_num maps them.  The mode table itself lives in
 * ArduPlane/mode.h and control_modes.cpp, which are not part of this model;
 * the numbers are ArduPlane's published ones, with 9 unused.
 */
module PlaneModes {

  datatype Option<T> = None | Some(value: T)

  datatype FlightMode =
    | Manual | Circle | Stabilize | Training | Acro | FlyByWireA | FlyByWireB | Cruise | Autotune
    | Auto | Rtl | Loiter | Takeoff | AvoidAdsb | Guided | Initialising
    | QStabilize | QHover | QLoiter | QLand | QRtl | QAutotune | QAcro

  /** Mode::mode_number() */
  function ModeNumber(m: FlightMode): (n: nat)
    ensures n <= 23 && n != 9
  {
    match m
    case Manual => 0
    case Circle => 1
    case Stabilize => 2
    case Training => 3
    case Acro => 4
    case FlyByWireA => 5
    case FlyByWireB => 6
    case Cruise => 7
    case Autotune => 8
    case Auto => 10
    case Rtl => 11
    case Loiter => 12
    case Takeoff => 13
    case AvoidAdsb => 14
    case Guided => 15
    case Initialising => 16
    case QStabilize => 17
    case QHover => 18
    case QLoiter => 19
    case QLand => 20
    case QRtl => 21
    case QAutotune => 22
    case QAcro => 23
  }

  /** Plane::mode_from_mode_num: the mode with that number, or none (nullptr). */
  function ModeFromNumber(n: int): (r: Option<FlightMode>)
    ensures r.Some? ==> ModeNumber(r.value) == n
  {
    match n
    case 0 => Some(Manual)
    case 1 => Some(Circle)
    case 2 => Some(Stabilize)
    case 3 => Some(Training)
    case 4 => Some(Acro)
    case 5 => Some(FlyByWireA)
    case 6 => Some(FlyByWireB)
    case 7 => Some(Cruise)
    case 8 => Some(Autotune)
    case 10 => Some(Auto)
    case 11 => Some(Rtl)
    case 12 => Some(Loiter)
    case 13 => Some(Takeoff)
    case 14 => Some(AvoidAdsb)
    case 15 => Some(Guided)
    case 16 => Some(Initialising)
    case 17 => Some(QStabilize)
    case 18 => Some(QHover)
    case 19 => Some(QLoiter)
    case 20 => Some(QLand)
    case 21 => Some(QRtl)
    case 22 => Some(QAutotune)
    case 23 => Some(QAcro)
    case _ => None
  }

  /** Every mode is found again from its number, and the numbers 0-23 other than 9 are exactly the modes. */
  lemma ModeNumberRoundTrip(m: FlightMode, n: int)
    ensures ModeFromNumber(ModeNumber(m)) == Some(m)
    ensures ModeFromNumber(n).Some? <==> 0 <= n <= 23 && n != 9
  {
  }

  /** Mode::is_vtol_mode: the quadplane modes. */
  predicate IsVtolMode(m: FlightMode) {
    m.QStabilize? || m.QHover? || m.QLoiter? || m.QLand? || m.QRtl? || m.QAutotune? || m.QAcro?
  }

  /** The VTOL modes are exactly those numbered from 17 up. */
  lemma VtolModesNumbered(m: FlightMode)
    ensures IsVtolMode(m) <==> ModeNumber(m) >= 17
  {
  }
}
