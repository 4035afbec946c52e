/**
 * The commands the broker and the handlers exchange, and the Results an
 * Answer collects for them (Result, DeviceSetValueResult,
 * ServerDeviceListResult, ServerLastValueResult).
 */
module Commands {
  import opened Wrappers
  import opened Identity
  import SensorModel

  /** Time spans and timestamps in microseconds, as Poco's Timespan and Timestamp count them. */
  type Micros = int

  const MICROS_PER_SECOND: nat := 1_000_000

  datatype Command =
    | GatewayListen(duration: Micros)
    | DeviceUnpair(device: DeviceID)
    | DeviceSetValue(device: DeviceID, moduleId: ModuleID, value: SensorModel.Double, timeout: Micros)
    | ServerDeviceList(prefix: DevicePrefix)
    | ServerLastValue(device: DeviceID, moduleId: ModuleID)
    | OtherCommand(name: string)

  /** Result::Status; the wire carries the raw value. */
  datatype Status = Pending | Success | Failed

  function StatusRaw(s: Status): int
  {
    match s
    case Pending => 0
    case Success => 1
    case Failed => 2
  }

  /** Only the three raw values of Result::Status are read back. */
  function StatusFromRaw(raw: int): (r: Option<Status>)
    ensures r.Some? ==> StatusRaw(r.value) == raw
    ensures r.None? ==> forall s :: StatusRaw(s) != raw
  {
    if raw == 0 then Some(Pending) else if raw == 1 then Some(Success)
    else if raw == 2 then Some(Failed) else None
  }

  /** SetStatus of DeviceSetValueResult: what the device reported and what the gateway decided. */
  datatype SetStatus =
    | GwDeviceSuccess | GwDeviceFailed | GwDeviceTimeout
    | DeviceSuccess | DeviceFailed | DeviceTimeout

  /**
   * What a Result carries besides its status. A DeviceSetValueResult whose
   * extended status was never written holds None: its constructor leaves
   * the field uninitialised.
   */
  datatype Payload =
    | Plain
    | SetValue(ext: Option<SetStatus>)
    | DeviceList(devices: seq<DeviceID>)
    | LastValue(value: SensorModel.Double)

  datatype ResultRecord = ResultRecord(status: Status, payload: Payload)

  /** A Result just constructed for an Answer. */
  function NewResult(payload: Payload): ResultRecord
  {
    ResultRecord(Pending, payload)
  }

  /** Terminal results, the ones isPending() no longer waits for. */
  predicate Terminal(r: ResultRecord)
  {
    r.status != Pending
  }

  predicate IsSetValueResult(r: ResultRecord)
  {
    r.payload.SetValue?
  }

  /** extendetSetStatus(): the field as last written. */
  function ExtendedSetStatus(r: ResultRecord): Option<SetStatus>
    requires IsSetValueResult(r)
  {
    r.payload.ext
  }

  /** setExtendetSetStatus(s): writes the field and nothing else. */
  function WithExtendedSetStatus(r: ResultRecord, s: SetStatus): (r': ResultRecord)
    requires IsSetValueResult(r)
    ensures IsSetValueResult(r') && r'.status == r.status
  {
    r.(payload := SetValue(Some(s)))
  }

  /** Reading back after a write gives the value written; a later write overrides an earlier one. */
  lemma SetThenGet(r: ResultRecord, s: SetStatus, t: SetStatus)
    requires IsSetValueResult(r)
    ensures ExtendedSetStatus(WithExtendedSetStatus(r, s)) == Some(s)
    ensures WithExtendedSetStatus(WithExtendedSetStatus(r, s), t) == WithExtendedSetStatus(r, t)
  {
  }
}
