/** SensorData: a device's measured values, in insertion order. */
module SensorModel {
  import opened Wrappers
  import opened Identity

  /** A C++ double: a number, or None for NaN (the value of a value-less SensorValue). */
  type Double = Option<real>

  datatype SensorValue = SensorValue(moduleId: ModuleID, value: Double)

  datatype SensorData = SensorData(device: DeviceID, values: seq<SensorValue>)

  /** int(value): truncation toward zero; NaN has no integer. */
  function Truncate(v: Double): (r: Option<int>)
    ensures r.Some? <==> v.Some?
    ensures r.Some? && v.value >= 0.0 ==> 0 <= r.value && r.value as real <= v.value < r.value as real + 1.0
    ensures r.Some? && v.value < 0.0 ==> r.value <= 0 && r.value as real - 1.0 < v.value <= r.value as real
  {
    if v.None? then None
    else if v.value >= 0.0 then Some(v.value.Floor)
    else Some(-((-v.value).Floor))
  }
}
