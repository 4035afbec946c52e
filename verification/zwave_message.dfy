/**
 * ZWaveMessage: what every Z-Wave product shares. A product reads the
 * values a node reports (command class, index, text) with first-match
 * lookups, derives the node's EUID, and writes a setting through the first
 * ValueID of the node that has the wanted command class and index.
 */
module ZWave {
  import opened Wrappers
  import opened Numerals
  import opened Identity

  const COMMAND_CLASS_ALARM: int := 113
  const COMMAND_CLASS_BATTERY: int := 128
  const COMMAND_CLASS_CONFIGURATION: int := 112
  const COMMAND_CLASS_SENSOR_BINARY: int := 48
  const COMMAND_CLASS_SENSOR_MULTILEVEL: int := 49
  const COMMAND_CLASS_SWITCH_BINARY: int := 37

  const SENSOR_INDEX_BULGAR: int := 10
  const SENSOR_INDEX_BATTERY: int := 0
  const SENSOR_INDEX_HUMIDITY: int := 5
  const SENSOR_INDEX_LUMINANCE: int := 3
  const SENSOR_INDEX_SENSOR: int := 0
  const SENSOR_INDEX_TEMPERATURE: int := 1
  const SENSOR_INDEX_ULTRAVIOLET: int := 27

  /** The home ID every EUID is built from, whatever network the node is in. */
  const TEST_HOME_ID: nat := 0xef1f4302

  /** OpenZWave's ValueID: its command class, its index, and which value of the node it is. */
  datatype ValueID = ValueID(commandClass: int, index: int, key: nat)

  /** One value from the network: where it sits, its text and its unit. */
  datatype ZWaveSensorValue = ZWaveSensorValue(commandClass: int, index: int, valueId: ValueID, value: string, unit: string)

  /** What the notification processor keeps per node. */
  datatype NodeInfo = NodeInfo(polled: bool, values: seq<ValueID>)

  // ---------------------------------------------------------------- EUID

  /** getEUID: TEST_HOME_ID shifted up one byte, or-ed with the node ID; the home ID argument is unused. */
  function GetEUID(homeId: nat, nodeId: uint8): nat
  {
    BitOr(TEST_HOME_ID * 0x100, nodeId as nat)
  }

  /** The EUID is TEST_HOME_ID in the bytes above the node ID, whatever the home ID. */
  lemma EUIDLayout(homeId: nat, nodeId: uint8)
    ensures GetEUID(homeId, nodeId) == TEST_HOME_ID * 0x100 + nodeId as nat
    ensures GetEUID(homeId, nodeId) % 0x100 == nodeId as nat
    ensures GetEUID(homeId, nodeId) / 0x100 == TEST_HOME_ID
    ensures GetEUID(homeId, nodeId) == GetEUID(0, nodeId)
  {
    assert Pow2(8) == 0x100;
    BitOrLow(TEST_HOME_ID, nodeId as nat, 8);
  }

  /** Different nodes get different EUIDs, in any two networks. */
  lemma EUIDInjective(h1: nat, h2: nat, a: uint8, b: uint8)
    requires GetEUID(h1, a) == GetEUID(h2, b)
    ensures a == b
  {
    EUIDLayout(h1, a);
    EUIDLayout(h2, b);
  }

  // ---------------------------------------------------------------- extraction

  predicate IsEqual(commandClass1: int, commandClass2: int, index1: int, index2: int)
  {
    commandClass1 == commandClass2 && index1 == index2
  }

  predicate Matches(item: ZWaveSensorValue, commandClass: int, index: int)
  {
    IsEqual(item.commandClass, commandClass, item.index, index)
  }

  /** extractBool: only "True" and "False" are booleans; None leaves the caller's variable as it was. */
  function ExtractBool(item: ZWaveSensorValue): (r: Option<bool>)
    ensures r.Some? <==> item.value == "True" || item.value == "False"
    ensures r.Some? ==> (r.value <==> item.value == "True")
  {
    if item.value == "True" then Some(true)
    else if item.value == "False" then Some(false)
    else None
  }

  /** extractInt: Poco's parse of the text. */
  function ExtractInt(item: ZWaveSensorValue): Result<int, Exception>
  {
    ParseInt(item.value)
  }

  /** extractFloat: Poco's parseFloat of the text, in its decimal forms. */
  function ExtractFloat(item: ZWaveSensorValue): Result<real, Exception>
  {
    ParseDecimal(item.value)
  }

  /** extractString: the text as it is; it never fails. */
  function ExtractString(item: ZWaveSensorValue): string
  {
    item.value
  }

  /** getSpecificValue: the text of the first item at (class, index); None when there is none. */
  function SpecificValue(commandClass: int, index: int, values: seq<ZWaveSensorValue>): Option<string>
    decreases |values|
  {
    if |values| == 0 then None
    else if Matches(values[0], commandClass, index) then Some(values[0].value)
    else SpecificValue(commandClass, index, values[1..])
  }

  /** The lookup finds the first matching item in vector order, and fails only when none matches. */
  lemma {:induction false} SpecificValueFirst(commandClass: int, index: int, values: seq<ZWaveSensorValue>)
    ensures SpecificValue(commandClass, index, values).None? <==>
      forall k :: 0 <= k < |values| ==> !Matches(values[k], commandClass, index)
    ensures SpecificValue(commandClass, index, values).Some? ==>
      exists k :: 0 <= k < |values| && Matches(values[k], commandClass, index) &&
        values[k].value == SpecificValue(commandClass, index, values).value &&
        forall j :: 0 <= j < k ==> !Matches(values[j], commandClass, index)
    decreases |values|
  {
    if |values| > 0 && !Matches(values[0], commandClass, index) {
      var rest := values[1..];
      SpecificValueFirst(commandClass, index, rest);
      assert forall k :: 0 <= k < |rest| ==> rest[k] == values[k + 1];
      if SpecificValue(commandClass, index, rest).Some? {
        var k :| 0 <= k < |rest| && Matches(rest[k], commandClass, index) &&
          rest[k].value == SpecificValue(commandClass, index, rest).value &&
          forall j :: 0 <= j < k ==> !Matches(rest[j], commandClass, index);
        assert forall j :: 0 <= j < k + 1 ==> !Matches(values[j], commandClass, index) by {
          forall j | 0 <= j < k + 1
            ensures !Matches(values[j], commandClass, index)
          {
            if j > 0 {
              assert values[j] == rest[j - 1];
            }
          }
        }
      } else {
        forall k | 0 <= k < |values|
          ensures !Matches(values[k], commandClass, index)
        {
          if k > 0 {
            assert values[k] == rest[k - 1];
          }
        }
      }
    }
  }

  /**
   * The first item at (class, index) whose text is "True" or "False";
   * matching items with any other text are skipped.
   */
  function FirstBool(commandClass: int, index: int, values: seq<ZWaveSensorValue>): Option<bool>
    decreases |values|
  {
    if |values| == 0 then None
    else if Matches(values[0], commandClass, index) && ExtractBool(values[0]).Some? then ExtractBool(values[0])
    else FirstBool(commandClass, index, values[1..])
  }

  predicate WellFormedBoolAt(item: ZWaveSensorValue, commandClass: int, index: int)
  {
    Matches(item, commandClass, index) && ExtractBool(item).Some?
  }

  /** The boolean lookup returns the first well-formed match, and fails only when there is none. */
  lemma {:induction false} FirstBoolFirst(commandClass: int, index: int, values: seq<ZWaveSensorValue>)
    ensures FirstBool(commandClass, index, values).None? <==>
      forall k :: 0 <= k < |values| ==> !WellFormedBoolAt(values[k], commandClass, index)
    ensures FirstBool(commandClass, index, values).Some? ==>
      exists k :: 0 <= k < |values| && WellFormedBoolAt(values[k], commandClass, index) &&
        ExtractBool(values[k]) == FirstBool(commandClass, index, values) &&
        forall j :: 0 <= j < k ==> !WellFormedBoolAt(values[j], commandClass, index)
    decreases |values|
  {
    if |values| > 0 && !WellFormedBoolAt(values[0], commandClass, index) {
      var rest := values[1..];
      FirstBoolFirst(commandClass, index, rest);
      if FirstBool(commandClass, index, rest).Some? {
        var k :| 0 <= k < |rest| && WellFormedBoolAt(rest[k], commandClass, index) &&
          ExtractBool(rest[k]) == FirstBool(commandClass, index, rest) &&
          forall j :: 0 <= j < k ==> !WellFormedBoolAt(rest[j], commandClass, index);
        assert values[k + 1] == rest[k];
        forall j | 0 <= j < k + 1
          ensures !WellFormedBoolAt(values[j], commandClass, index)
        {
          if j > 0 {
            assert values[j] == rest[j - 1];
          }
        }
      } else {
        forall k | 0 <= k < |values|
          ensures !WellFormedBoolAt(values[k], commandClass, index)
        {
          if k > 0 {
            assert values[k] == rest[k - 1];
          }
        }
      }
    }
  }

  /** std::to_string of a bool. */
  function BoolText(b: bool): string
  {
    if b then "1" else "0"
  }

  function BoolLookup(found: Option<bool>): Option<string>
  {
    if found.None? then None else Some(BoolText(found.value))
  }

  /** getSwitchBinary: the switch state at (37, 0) as "1" or "0". */
  function SwitchBinary(values: seq<ZWaveSensorValue>): Option<string>
  {
    BoolLookup(FirstBool(COMMAND_CLASS_SWITCH_BINARY, SENSOR_INDEX_SENSOR, values))
  }

  /** getSensorValue: the binary sensor state at (48, 0) as "1" or "0". */
  function SensorBinary(values: seq<ZWaveSensorValue>): Option<string>
  {
    BoolLookup(FirstBool(COMMAND_CLASS_SENSOR_BINARY, SENSOR_INDEX_SENSOR, values))
  }

  function BatteryLevel(values: seq<ZWaveSensorValue>): Option<string>
  {
    SpecificValue(COMMAND_CLASS_BATTERY, SENSOR_INDEX_BATTERY, values)
  }

  function Luminance(values: seq<ZWaveSensorValue>): Option<string>
  {
    SpecificValue(COMMAND_CLASS_SENSOR_MULTILEVEL, SENSOR_INDEX_LUMINANCE, values)
  }

  function Humidity(values: seq<ZWaveSensorValue>): Option<string>
  {
    SpecificValue(COMMAND_CLASS_SENSOR_MULTILEVEL, SENSOR_INDEX_HUMIDITY, values)
  }

  function Ultraviolet(values: seq<ZWaveSensorValue>): Option<string>
  {
    SpecificValue(COMMAND_CLASS_SENSOR_MULTILEVEL, SENSOR_INDEX_ULTRAVIOLET, values)
  }

  /** What a switch or sensor lookup returns is always one of the two texts of a bool. */
  lemma BinaryTexts(values: seq<ZWaveSensorValue>)
    ensures SwitchBinary(values).Some? ==> SwitchBinary(values).value in {"1", "0"}
    ensures SensorBinary(values).Some? ==> SensorBinary(values).value in {"1", "0"}
    ensures SwitchBinary(values).Some? <==>
      exists k :: 0 <= k < |values| && WellFormedBoolAt(values[k], COMMAND_CLASS_SWITCH_BINARY, SENSOR_INDEX_SENSOR)
    ensures SensorBinary(values).Some? <==>
      exists k :: 0 <= k < |values| && WellFormedBoolAt(values[k], COMMAND_CLASS_SENSOR_BINARY, SENSOR_INDEX_SENSOR)
  {
    FirstBoolFirst(COMMAND_CLASS_SWITCH_BINARY, SENSOR_INDEX_SENSOR, values);
    FirstBoolFirst(COMMAND_CLASS_SENSOR_BINARY, SENSOR_INDEX_SENSOR, values);
  }

  predicate HasItemAt(values: seq<ZWaveSensorValue>, commandClass: int, index: int)
  {
    exists k :: 0 <= k < |values| && Matches(values[k], commandClass, index)
  }

  /** The fixed keys: battery (128, 0), luminance (49, 3), humidity (49, 5), ultraviolet (49, 27). */
  lemma FixedLookupKeys(values: seq<ZWaveSensorValue>)
    ensures BatteryLevel(values).Some? <==> HasItemAt(values, 128, 0)
    ensures Luminance(values).Some? <==> HasItemAt(values, 49, 3)
    ensures Humidity(values).Some? <==> HasItemAt(values, 49, 5)
    ensures Ultraviolet(values).Some? <==> HasItemAt(values, 49, 27)
  {
    SpecificValueFirst(128, 0, values);
    SpecificValueFirst(49, 3, values);
    SpecificValueFirst(49, 5, values);
    SpecificValueFirst(49, 27, values);
  }

  /**
   * getTemperature: the first item at (49, 1) whose text is a number; a
   * reading in "F" is converted to Celsius.
   */
  function Temperature(values: seq<ZWaveSensorValue>): Option<real>
    decreases |values|
  {
    if |values| == 0 then None
    else
      var item := values[0];
      var t := ExtractFloat(item);
      if Matches(item, COMMAND_CLASS_SENSOR_MULTILEVEL, SENSOR_INDEX_TEMPERATURE) && t.Ok? then
        Some(if item.unit == "F" then (t.value - 32.0) / 1.8 else t.value)
      else Temperature(values[1..])
  }

  /** A Fahrenheit reading comes out in Celsius; any other unit is kept. */
  lemma TemperatureUnits(item: ZWaveSensorValue, rest: seq<ZWaveSensorValue>, t: real)
    requires Matches(item, COMMAND_CLASS_SENSOR_MULTILEVEL, SENSOR_INDEX_TEMPERATURE)
    requires ExtractFloat(item) == Ok(t)
    ensures item.unit == "F" ==> Temperature([item] + rest) == Some((t - 32.0) * 5.0 / 9.0)
    ensures item.unit != "F" ==> Temperature([item] + rest) == Some(t)
  {
    assert ([item] + rest)[0] == item;
  }

  // ---------------------------------------------------------------- nodes and actuators

  /** findNodeInfo: the node's info when the node is known. */
  function FindNodeInfo(nodes: map<uint8, NodeInfo>, nodeId: uint8): (r: Option<NodeInfo>)
    ensures r.Some? <==> nodeId in nodes
    ensures r.Some? ==> r.value == nodes[nodeId]
  {
    if nodeId in nodes then Some(nodes[nodeId]) else None
  }

  /** The first ValueID with the given command class and index. */
  function FirstValueID(ids: seq<ValueID>, commandClass: int, index: int): Option<ValueID>
    decreases |ids|
  {
    if |ids| == 0 then None
    else if ids[0].commandClass == commandClass && ids[0].index == index then Some(ids[0])
    else FirstValueID(ids[1..], commandClass, index)
  }

  lemma {:induction false} FirstValueIDFirst(ids: seq<ValueID>, commandClass: int, index: int)
    ensures FirstValueID(ids, commandClass, index).None? <==>
      forall k :: 0 <= k < |ids| ==> !(ids[k].commandClass == commandClass && ids[k].index == index)
    ensures FirstValueID(ids, commandClass, index).Some? ==>
      exists k :: 0 <= k < |ids| && ids[k] == FirstValueID(ids, commandClass, index).value &&
        ids[k].commandClass == commandClass && ids[k].index == index &&
        forall j :: 0 <= j < k ==> !(ids[j].commandClass == commandClass && ids[j].index == index)
    decreases |ids|
  {
    if |ids| > 0 && !(ids[0].commandClass == commandClass && ids[0].index == index) {
      var rest := ids[1..];
      FirstValueIDFirst(rest, commandClass, index);
      if FirstValueID(rest, commandClass, index).Some? {
        var k :| 0 <= k < |rest| && rest[k] == FirstValueID(rest, commandClass, index).value &&
          rest[k].commandClass == commandClass && rest[k].index == index &&
          forall j :: 0 <= j < k ==> !(rest[j].commandClass == commandClass && rest[j].index == index);
        assert ids[k + 1] == rest[k];
        forall j | 0 <= j < k + 1
          ensures !(ids[j].commandClass == commandClass && ids[j].index == index)
        {
          if j > 0 {
            assert ids[j] == rest[j - 1];
          }
        }
      } else {
        forall k | 0 <= k < |ids|
          ensures !(ids[k].commandClass == commandClass && ids[k].index == index)
        {
          if k > 0 {
            assert ids[k] == rest[k - 1];
          }
        }
      }
    }
  }

  /**
   * setActuator: the ValueID the value is sent to, None when setActuator
   * returns false (unknown node, or no ValueID at (class, index)).
   */
  function SetActuator(nodes: map<uint8, NodeInfo>, commandClass: int, index: int, nodeId: uint8): Option<ValueID>
  {
    var info := FindNodeInfo(nodes, nodeId);
    if info.None? then None else FirstValueID(info.value.values, commandClass, index)
  }

  /** setActuator succeeds exactly for a known node with a matching ValueID, and then uses the first one. */
  lemma SetActuatorSpec(nodes: map<uint8, NodeInfo>, commandClass: int, index: int, nodeId: uint8)
    ensures SetActuator(nodes, commandClass, index, nodeId).Some? <==>
      nodeId in nodes &&
      exists k :: 0 <= k < |nodes[nodeId].values| &&
        nodes[nodeId].values[k].commandClass == commandClass && nodes[nodeId].values[k].index == index
    ensures SetActuator(nodes, commandClass, index, nodeId).Some? ==>
      var v := SetActuator(nodes, commandClass, index, nodeId).value;
      v in nodes[nodeId].values && v.commandClass == commandClass && v.index == index
  {
    if nodeId in nodes {
      FirstValueIDFirst(nodes[nodeId].values, commandClass, index);
    }
  }
}
