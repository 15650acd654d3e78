/** The telemetry wire record, `DroneState`, and the `DroneFlightMode`
    enumeration it carries. */
module DroneStates {
  import opened Wrappers

  /** The six named members of `DroneFlightMode`. */
  datatype DroneFlightMode = Unknown | Ready | Takeoff | Inflight | Landing | Offline

  /** Number of members, as `Enum.GetValues(...).Length` reports it. */
  const FlightModeSize: int := 6

  /** The integer value behind each member. */
  function Code(m: DroneFlightMode): (c: int)
    ensures 0 <= c < FlightModeSize
    ensures c == 0 <==> m == Unknown
    ensures c == 5 <==> m == Offline
  {
    match m
    case Unknown => 0
    case Ready => 1
    case Takeoff => 2
    case Inflight => 3
    case Landing => 4
    case Offline => 5
  }

  /** The member an integer names, if any. A C# cast to the enum accepts every
      integer, so a stored flight mode is an `int` that may name no member. */
  function MemberOf(code: int): (r: Option<DroneFlightMode>)
    ensures r.Some? <==> 0 <= code < FlightModeSize
    ensures r.Some? ==> Code(r.value) == code
  {
    if code == 0 then Some(Unknown)
    else if code == 1 then Some(Ready)
    else if code == 2 then Some(Takeoff)
    else if code == 3 then Some(Inflight)
    else if code == 4 then Some(Landing)
    else if code == 5 then Some(Offline)
    else None
  }

  /** The six members have distinct codes, and each code names its member back. */
  lemma FlightModeCodes()
    ensures forall m, n :: Code(m) == Code(n) ==> m == n
    ensures forall m :: MemberOf(Code(m)) == Some(m)
  {
  }

  /** `Enum.GetName`: the member's name, or null for a value that names none. */
  function Name(code: int): (r: Option<string>)
    ensures r.Some? <==> MemberOf(code).Some?
  {
    match MemberOf(code)
    case None => None
    case Some(m) =>
      Some(match m
           case Unknown => "Unknown"
           case Ready => "Ready"
           case Takeoff => "Takeoff"
           case Inflight => "Inflight"
           case Landing => "Landing"
           case Offline => "Offline")
  }

  /** A position triple; the three coordinates exist together or not at all. */
  datatype Position = Position(latitude: real, longitude: real, altitude: real)

  /** The health triple, in declaration order Gyrometer, Accelerometer, Magnetometer. */
  datatype Health = Health(gyrometerOK: bool, accelerometerOK: bool, magnetometerOK: bool)

  /** The wire record: everything but `isKeyFrame` is optional. The flight mode
      holds the enumeration's underlying integer. */
  datatype DroneState = DroneState(
    deviceId: string,
    battery: Option<real>,
    flightMode: Option<int>,
    position: Option<Position>,
    health: Option<Health>,
    isKeyFrame: bool)
  {
    /** No measured field is present: the record only says "no change". */
    predicate IsDelta() {
      battery.None? && flightMode.None? && position.None? && health.None?
    }

    /** Every measured field is present. */
    predicate IsComplete() {
      battery.Some? && flightMode.Some? && position.Some? && health.Some?
    }
  }

  /** The properties of the record, in declaration order. */
  datatype Field = DeviceIdField | BatteryField | FlightModeField | PositionField | HealthField | IsKeyFrameField

  /** The protocol-buffer field number each property is serialized under. */
  function ProtoTag(f: Field): (t: int)
    ensures 1 <= t <= 6
  {
    match f
    case DeviceIdField => 1
    case BatteryField => 2
    case FlightModeField => 3
    case PositionField => 4
    case HealthField => 5
    case IsKeyFrameField => 6
  }

  /** The six properties carry six distinct field numbers, 1 to 6. */
  lemma ProtoTagsDistinct()
    ensures forall f, g :: ProtoTag(f) == ProtoTag(g) ==> f == g
  {
    assert ProtoTag(DeviceIdField) == 1 && ProtoTag(BatteryField) == 2 && ProtoTag(FlightModeField) == 3;
    assert ProtoTag(PositionField) == 4 && ProtoTag(HealthField) == 5 && ProtoTag(IsKeyFrameField) == 6;
  }

  /** Exceptions `ToString` can raise. */
  datatype ToStringError = ArgumentNull | InvalidOperation

  function OkText(b: bool): string { if b then "OK" else "NotOK" }

  /** `DroneState.ToString`. The interpolation evaluates its holes left to
      right: `Enum.GetName` throws on a null flight mode, then `Position.Value`
      and `Health.Value` throw on absent triples. Number formatting is the
      parameter `fmt`; a null battery prints as the empty string. */
  function ToString(s: DroneState, fmt: real -> string): (r: Result<string, ToStringError>)
    ensures r.Ok? <==> s.flightMode.Some? && s.position.Some? && s.health.Some?
    ensures s.flightMode.None? ==> r == Err(ArgumentNull)
    ensures s.flightMode.Some? && (s.position.None? || s.health.None?) ==> r == Err(InvalidOperation)
    ensures r.Ok? ==> |r.value| >= 10 + |s.deviceId| && r.value[..10 + |s.deviceId|] == "DeviceId: " + s.deviceId
    ensures s.IsDelta() ==> r.Err?
  {
    if s.flightMode.None? then Err(ArgumentNull)
    else if s.position.None? || s.health.None? then Err(InvalidOperation)
    else
      var p, h := s.position.value, s.health.value;
      var head := "DeviceId: " + s.deviceId;
      var tail :=
        ", Battery: " + (match s.battery case Some(b) => fmt(b) case None => "")
        + ", FlightMode: " + Name(s.flightMode.value).GetOr("")
        + ", Position: (" + fmt(p.latitude) + ", " + fmt(p.longitude) + ", " + fmt(p.altitude) + ")"
        + ", Gyrometer: " + OkText(h.gyrometerOK)
        + ", Accelerometer: " + OkText(h.accelerometerOK)
        + ", Magnetometer: " + OkText(h.magnetometerOK)
        + ", Keyframe: " + (if s.isKeyFrame then "Yes" else "No");
      assert (head + tail)[..|head|] == head;
      Ok(head + tail)
  }
}
