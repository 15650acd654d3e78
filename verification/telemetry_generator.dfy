/** The simulator's `TelemetryGenerator`: the first frame, key frames and
    deltas, and the flight-mode counter shared by every simulated device. */
module Generator {
  import opened Wrappers
  import opened DroneStates

  const MinimumBatteryLevel: real := 0.1
  const MaximumBatteryLevel: real := 1.0
  const BatteryVariation: real := 2.0
  const DefaultLatitude: real := 47.476075
  const DefaultLongitude: real := -122.192026
  const DefaultAltitude: real := 0.0
  const AverageAltitude: real := 499.99
  const AltitudeVariation: real := 5.0
  const MetresPerMile: real := 1609.344
  const EarthRadiusMetres: real := 6378137.0

  /** The draws a key frame takes from the shared `randomizer`, in call order:
      `NextDouble` for the distance, the battery and the altitude, then
      `Next(100)` for each health flag. */
  datatype RandomDraws = RandomDraws(
    distance: real, battery: real, altitude: real,
    gyrometer: int, accelerometer: int, magnetometer: int)

  /** The floating-point trigonometry of `VaryLocation`: degrees per radian
      (180 / pi) and the secant of a latitude given in degrees. */
  datatype Trig = Trig(degreesPerRadian: real, secant: real -> real)

  /** `VaryCondition`: a value `percentage` percent around `avg`, chosen by
      `draw`, then raised to `min` and lowered to `max` (in that order). */
  function VaryCondition(avg: real, percentage: real, min: real, max: real, draw: real): (r: real)
    ensures r <= max
    ensures min <= max ==> min <= r
    ensures min > max ==> r == max
    ensures var v := avg * (1.0 + (percentage / 100.0) * (2.0 * draw - 1.0));
      min <= v <= max ==> r == v
  {
    var someValue := avg * (1.0 + (percentage / 100.0) * (2.0 * draw - 1.0));
    var raised := if someValue < min then min else someValue;
    if raised > max then max else raised
  }

  /** `VaryLocation`: displaces latitude and longitude by `distance` miles
      over a sphere of the Earth's radius, and draws a fresh altitude around
      the average. */
  function VaryLocation(latitude: real, longitude: real, distance: real, altitudeDraw: real, trig: Trig): (p: Position)
    ensures AverageAltitude - AltitudeVariation <= p.altitude <= AverageAltitude + AltitudeVariation
    ensures distance == 0.0 ==> p.latitude == latitude && p.longitude == longitude
  {
    var degrees := (distance * MetresPerMile / EarthRadiusMetres) * trig.degreesPerRadian;
    Position(
      latitude + degrees,
      longitude + degrees * trig.secant(latitude),
      VaryCondition(AverageAltitude, AltitudeVariation, AverageAltitude - AltitudeVariation,
                    AverageAltitude + AltitudeVariation, altitudeDraw))
  }

  /** `GetFirstFrame`: the canonical starting record. */
  function GetFirstFrame(deviceId: string): (s: DroneState)
    ensures s.IsComplete() && s.isKeyFrame && s.deviceId == deviceId
    ensures s.battery == Some(MaximumBatteryLevel) && s.flightMode == Some(Code(Offline))
    ensures s.position == Some(Position(DefaultLatitude, DefaultLongitude, DefaultAltitude))
    ensures s.health == Some(Health(true, true, true))
  {
    DroneState(deviceId, Some(MaximumBatteryLevel), Some(Code(Offline)),
               Some(Position(DefaultLatitude, DefaultLongitude, DefaultAltitude)),
               Some(Health(true, true, true)), true)
  }

  /** The delta record: only the device id and the key-frame flag. */
  function DeltaFrame(deviceId: string): (s: DroneState)
    ensures s.IsDelta() && !s.isKeyFrame && s.deviceId == deviceId
  {
    DroneState(deviceId, None, None, None, None, false)
  }

  /** `.Value` on a null battery or position throws. */
  datatype GeneratorError = NullValue

  /** The key frame built from `previous` while the counter reads `cycle`.
      The battery drifts by up to 2% and is clamped to [0.1, previous]. */
  function KeyFrame(previous: DroneState, deviceId: string, cycle: int, draws: RandomDraws, trig: Trig): (r: Result<DroneState, GeneratorError>)
    ensures r.Err? <==> previous.battery.None? || previous.position.None?
    ensures r.Ok? ==> var s := r.value;
      && s.IsComplete() && s.isKeyFrame && s.deviceId == deviceId
      && s.flightMode == Some(cycle)
      && (previous.battery.value >= MinimumBatteryLevel ==> MinimumBatteryLevel <= s.battery.value <= previous.battery.value)
      && (previous.battery.value < MinimumBatteryLevel ==> s.battery.value == previous.battery.value)
      && AverageAltitude - AltitudeVariation <= s.position.value.altitude <= AverageAltitude + AltitudeVariation
      && s.health.value.gyrometerOK == (draws.gyrometer < 50)
      && s.health.value.accelerometerOK == (draws.accelerometer > 50)
      && s.health.value.magnetometerOK == (draws.magnetometer < 50)
  {
    var distance := VaryCondition(0.05, 2500.0, -1.5, 1.5, draws.distance);
    if previous.battery.None? || previous.position.None? then Err(NullValue)
    else
      var prior := previous.battery.value;
      var p := previous.position.value;
      Ok(DroneState(
        deviceId,
        Some(VaryCondition(prior, BatteryVariation, MinimumBatteryLevel, prior, draws.battery)),
        Some(cycle),
        Some(VaryLocation(p.latitude, p.longitude, distance, draws.altitude, trig)),
        Some(Health(draws.gyrometer < 50, draws.accelerometer > 50, draws.magnetometer < 50)),
        true))
  }

  /** The key-frame distance stays within 1.5 miles either way. */
  lemma KeyFrameDistanceBounded(draw: real)
    ensures -1.5 <= VaryCondition(0.05, 2500.0, -1.5, 1.5, draw) <= 1.5
  {
  }

  /** The counter after a key frame: incremented, and reset to 0 once it
      would exceed the number of enumeration members. */
  function NextCycle(cycle: int): (c: int)
    ensures 0 <= cycle <= FlightModeSize ==> 0 <= c <= FlightModeSize
    ensures c == 0 || c == cycle + 1
  {
    if cycle + 1 > FlightModeSize then 0 else cycle + 1
  }

  /** The counter after `n` key frames, from `cycle`. */
  function CycleAfter(cycle: int, n: nat): int {
    if n == 0 then cycle else NextCycle(CycleAfter(cycle, n - 1))
  }

  /** From its initial value 1 the counter runs 1, 2, 3, 4, 5, 6, 0, 1, ...:
      after `n` key frames it reads (n + 1) mod 7. */
  lemma {:induction false} CycleAfterFromStart(n: nat)
    ensures CycleAfter(1, n) == (n + 1) % (FlightModeSize + 1)
  {
    if n > 0 {
      CycleAfterFromStart(n - 1);
    }
  }

  /** The `n`-th key frame (from 0) carries flight mode (n + 1) mod 7, so once
      in every seven key frames it carries code 6, which names no member. */
  lemma {:induction false} UndefinedModeOncePerCycle(n: nat)
    ensures MemberOf(CycleAfter(1, n)).None? <==> n % 7 == 5
    ensures MemberOf(CycleAfter(1, n)).None? ==> CycleAfter(1, n) == 6
  {
    CycleAfterFromStart(n);
  }

  /** The generator, with the counter that the source keeps in a static
      field, shared by all devices. */
  class TelemetryGenerator {
    var flightModeCycle: int

    constructor ()
      ensures flightModeCycle == 1
    {
      flightModeCycle := 1;
    }

    /** `GetTimeElapsedTelemetry`: no previous state gives the first frame;
        otherwise a key frame (advancing the counter) or a delta. */
    method GetTimeElapsedTelemetry(previous: Option<DroneState>, deviceId: string, keyFrame: bool,
                                   draws: RandomDraws, trig: Trig)
      returns (r: Result<DroneState, GeneratorError>)
      modifies this
      ensures previous.None? ==> r == Ok(GetFirstFrame(deviceId)) && flightModeCycle == old(flightModeCycle)
      ensures previous.Some? && !keyFrame ==> r == Ok(DeltaFrame(deviceId)) && flightModeCycle == old(flightModeCycle)
      ensures previous.Some? && keyFrame ==>
        && r == KeyFrame(previous.value, deviceId, old(flightModeCycle), draws, trig)
        && flightModeCycle == if r.Ok? then NextCycle(old(flightModeCycle)) else old(flightModeCycle)
    {
      if previous.None? {
        return Ok(GetFirstFrame(deviceId));
      }
      if keyFrame {
        r := KeyFrame(previous.value, deviceId, flightModeCycle, draws, trig);
        if r.Ok? {
          flightModeCycle := NextCycle(flightModeCycle);
        }
      } else {
        r := Ok(DeltaFrame(deviceId));
      }
    }
  }
}
