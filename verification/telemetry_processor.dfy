/** Ingestion-side flattening of a decoded `DroneState` into the stored,
    flat `DeviceState` document. */
module TelemetryProcessing {
  import opened Wrappers
  import opened DroneStates

  /** A raw message body. */
  type Bytes = seq<bv8>

  /** The persisted per-device document: the device id and eight optional
      measured fields. */
  datatype DeviceState = DeviceState(
    deviceId: string,
    battery: Option<real>,
    flightMode: Option<int>,
    latitude: Option<real>,
    longitude: Option<real>,
    altitude: Option<real>,
    accelerometerOK: Option<bool>,
    gyrometerOK: Option<bool>,
    magnetometerOK: Option<bool>)
  {
    /** None of the eight measured fields is set. */
    predicate IsEmpty() {
      battery.None? && flightMode.None? && latitude.None? && longitude.None? && altitude.None?
      && accelerometerOK.None? && gyrometerOK.None? && magnetometerOK.None?
    }

    /** All eight measured fields are set. */
    predicate IsFull() {
      battery.Some? && flightMode.Some? && latitude.Some? && longitude.Some? && altitude.Some?
      && accelerometerOK.Some? && gyrometerOK.Some? && magnetometerOK.Some?
    }

    /** The shape every flattened record has: the three coordinates are set
        together or not at all, and so are the three health flags. */
    predicate WellFormed() {
      && (latitude.Some? == longitude.Some? == altitude.Some?)
      && (accelerometerOK.Some? == gyrometerOK.Some? == magnetometerOK.Some?)
    }
  }

  /** The record with only a device id. */
  function EmptyState(deviceId: string): (d: DeviceState)
    ensures d.deviceId == deviceId && d.IsEmpty()
  {
    DeviceState(deviceId, None, None, None, None, None, None, None, None)
  }

  /** Rebuilds the wire record from a flat document: the inverse of `Flatten`
      on well-formed documents (`isKeyFrame` is not stored, so it is supplied). */
  function Unflatten(d: DeviceState, isKeyFrame: bool): DroneState {
    DroneState(
      d.deviceId,
      d.battery,
      d.flightMode,
      if d.latitude.Some? && d.longitude.Some? && d.altitude.Some?
      then Some(Position(d.latitude.value, d.longitude.value, d.altitude.value)) else None,
      if d.gyrometerOK.Some? && d.accelerometerOK.Some? && d.magnetometerOK.Some?
      then Some(Health(d.gyrometerOK.value, d.accelerometerOK.value, d.magnetometerOK.value)) else None,
      isKeyFrame)
  }

  /** The copy `Deserialize` makes from a decoded record: each optional part
      of the wire record is copied when present and left null otherwise; the
      health flags are copied by name. */
  function Flatten(restored: DroneState): (d: DeviceState)
    ensures d.deviceId == restored.deviceId
    ensures d.battery == restored.battery
    ensures d.flightMode == restored.flightMode
    ensures d.WellFormed()
    ensures d.latitude.Some? <==> restored.position.Some?
    ensures d.gyrometerOK.Some? <==> restored.health.Some?
    ensures restored.position.Some? ==>
      var p := restored.position.value;
      d.latitude == Some(p.latitude) && d.longitude == Some(p.longitude) && d.altitude == Some(p.altitude)
    ensures restored.health.Some? ==>
      var h := restored.health.value;
      && d.accelerometerOK == Some(h.accelerometerOK)
      && d.gyrometerOK == Some(h.gyrometerOK)
      && d.magnetometerOK == Some(h.magnetometerOK)
    ensures d.IsEmpty() <==> restored.IsDelta()
    ensures d.IsFull() <==> restored.IsComplete()
    ensures Unflatten(d, restored.isKeyFrame) == restored
  {
    var d0 := EmptyState(restored.deviceId);
    var d1 := if restored.battery.Some? then d0.(battery := restored.battery) else d0;
    var d2 := if restored.flightMode.Some? then d1.(flightMode := restored.flightMode) else d1;
    var d3 :=
      match restored.position
      case Some(p) => d2.(latitude := Some(p.latitude), longitude := Some(p.longitude), altitude := Some(p.altitude))
      case None => d2;
    match restored.health
    case Some(h) =>
      d3.(accelerometerOK := Some(h.accelerometerOK), gyrometerOK := Some(h.gyrometerOK),
          magnetometerOK := Some(h.magnetometerOK))
    case None => d3
  }

  /** Every well-formed document is the flattening of some wire record, so
      `Flatten` is onto the well-formed documents. */
  lemma FlattenOnto(d: DeviceState, isKeyFrame: bool)
    requires d.WellFormed()
    ensures Flatten(Unflatten(d, isKeyFrame)) == d
  {
  }

  /** `TelemetryProcessor.Deserialize`: decode the payload with the serializer
      (an abstract partial function here; its exception is the error) and
      flatten the result. */
  function Deserialize(payload: Bytes, decode: Bytes -> Result<DroneState, string>): (r: Result<DeviceState, string>)
    ensures r.Err? <==> decode(payload).Err?
    ensures r.Err? ==> r.error == decode(payload).error
    ensures r.Ok? ==> r.value.WellFormed() && r.value.deviceId == decode(payload).value.deviceId
    ensures r.Ok? ==> Unflatten(r.value, decode(payload).value.isKeyFrame) == decode(payload).value
  {
    match decode(payload)
    case Err(e) => Err(e)
    case Ok(restored) => Ok(Flatten(restored))
  }

  /** A full key frame flattens to all eight measured fields, equal to the
      source values (device001, battery 1, Landing, (10, 20, 30), health
      (true, false, true)). */
  lemma KeyFrameCreatesDocument()
    ensures
      var s := DroneState("device001", Some(1.0), Some(Code(Landing)), Some(Position(10.0, 20.0, 30.0)),
                          Some(Health(true, false, true)), true);
      Flatten(s) == DeviceState("device001", Some(1.0), Some(4), Some(10.0), Some(20.0), Some(30.0),
                                Some(false), Some(true), Some(true))
  {
  }

  /** A delta carrying only the device id flattens to all eight fields null. */
  lemma PartialStateCreatesDocument(id: string)
    ensures Flatten(DroneState(id, None, None, None, None, false)) == EmptyState(id)
  {
  }
}
