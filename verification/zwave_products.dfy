/**
 * The five Z-Wave products: Aeotec ZW100, D-Link DCH-Z120, Philio
 * PST02-1C, Fibaro FGK-107 and Popp 123601. Each turns the values of a
 * node into the modules of a BeeeOn device (extractValues) and turns
 * module values back into settings of the node (setValue). The virtual
 * methods of ZWaveMessage become a match on the product.
 */
module ZWaveProducts {
  import opened Wrappers
  import opened Numerals
  import opened Identity
  import opened SensorModel
  import opened ZWave

  datatype Product = AeotecZW100 | DLinkDchZ120 | PhilioPST021C | FibaroFGK107 | Popp123601

  /** getDeviceID: the BeeeOn device type of each product. */
  function DeviceTypeID(p: Product): int
  {
    match p
    case AeotecZW100 => 27
    case DLinkDchZ120 => 26
    case PhilioPST021C => 16
    case FibaroFGK107 => 25
    case Popp123601 => 17
  }

  /** Every product reports its own device type. */
  lemma DeviceTypeIDsDistinct(p: Product, q: Product)
    requires DeviceTypeID(p) == DeviceTypeID(q)
    ensures p == q
  {
  }

  // ---------------------------------------------------------------- readings

  function Reading(m: ModuleID, v: real): SensorValue
  {
    SensorValue(m, Some(v))
  }

  /** A looked-up text that parseFloat accepts, or no text at all. */
  predicate Parses(found: Option<string>)
  {
    found.None? || ParseDecimal(found.value).Ok?
  }

  /** The value a successful text lookup contributes under module m. */
  function TextReading(m: ModuleID, found: Option<string>): seq<SensorValue>
    requires Parses(found)
  {
    if found.None? then [] else [Reading(m, ParseDecimal(found.value).value)]
  }

  function RealReading(m: ModuleID, found: Option<real>): seq<SensorValue>
  {
    if found.None? then [] else [Reading(m, found.value)]
  }

  /**
   * `if (getX(value, zwaveValues)) sensorData.insertValue(SensorValue(m, parseFloat(value)))`
   * followed by the rest of extractValues: a found text is parsed and its
   * value comes before the rest; a text that is not a number throws before
   * any later lookup is made.
   */
  function EmitText(m: ModuleID, found: Option<string>, rest: Result<seq<SensorValue>, Exception>): Result<seq<SensorValue>, Exception>
  {
    if found.None? then rest
    else
      var v := ParseDecimal(found.value);
      if v.Err? then Err(v.error)
      else if rest.Err? then rest
      else Ok([Reading(m, v.value)] + rest.value)
  }

  /** A temperature lookup parses on its own and never throws. */
  function EmitReal(m: ModuleID, found: Option<real>, rest: Result<seq<SensorValue>, Exception>): Result<seq<SensorValue>, Exception>
  {
    if rest.Err? then rest else Ok(RealReading(m, found) + rest.value)
  }

  lemma EmitTextSpec(m: ModuleID, found: Option<string>, rest: Result<seq<SensorValue>, Exception>)
    ensures EmitText(m, found, rest).Ok? <==> Parses(found) && rest.Ok?
    ensures EmitText(m, found, rest).Ok? ==> EmitText(m, found, rest).value == TextReading(m, found) + rest.value
  {
  }

  /** The texts "1" and "0" of a binary lookup always parse, to 1 and 0. */
  lemma BoolTextParses(b: bool)
    ensures ParseDecimal(BoolText(b)) == Ok(if b then 1.0 else 0.0)
  {
    var s := BoolText(b);
    assert DotIndex(s, 0) == 1;
    assert s[..1] == s;
  }

  function BoolReading(m: ModuleID, found: Option<bool>): seq<SensorValue>
  {
    if found.None? then [] else [Reading(m, if found.value then 1.0 else 0.0)]
  }

  lemma BoolLookupParses(m: ModuleID, found: Option<bool>)
    ensures Parses(BoolLookup(found))
    ensures TextReading(m, BoolLookup(found)) == BoolReading(m, found)
  {
    if found.Some? {
      BoolTextParses(found.value);
    }
  }

  // ---------------------------------------------------------------- alarms

  /**
   * What an alarm item (113, 10) adds, by its integer state: 3 (shake or
   * safety), 8 (motion), anything else (idle).
   */
  datatype AlarmPlan = AlarmPlan(onSafety: seq<SensorValue>, onMotion: seq<SensorValue>, onIdle: seq<SensorValue>)

  /** Aeotec: shake is module 0, PIR module 1; idle resets shake, then PIR. */
  const AeotecAlarms := AlarmPlan([Reading(0, 1.0)], [Reading(1, 1.0)], [Reading(0, 0.0), Reading(1, 0.0)])

  /** D-Link: the sensor alarm is module 3, PIR module 0; idle resets PIR, then the alarm. */
  const DLinkAlarms := AlarmPlan([Reading(3, 1.0)], [Reading(0, 1.0)], [Reading(0, 0.0), Reading(3, 0.0)])

  /** One item of getDetectionSensor's loop: other items and unparseable states add nothing. */
  function AlarmReaction(item: ZWaveSensorValue, plan: AlarmPlan): seq<SensorValue>
  {
    if !Matches(item, COMMAND_CLASS_ALARM, SENSOR_INDEX_BULGAR) then []
    else
      var state := ExtractInt(item);
      if state.Err? then []
      else if state.value == 3 then plan.onSafety
      else if state.value == 8 then plan.onMotion
      else plan.onIdle
  }

  /** The values getDetectionSensor appends for a whole list, item after item. */
  function Detection(values: seq<ZWaveSensorValue>, plan: AlarmPlan): seq<SensorValue>
    decreases |values|
  {
    if |values| == 0 then []
    else Detection(values[..|values| - 1], plan) + AlarmReaction(values[|values| - 1], plan)
  }

  /** The reactions of two lists of items follow each other. */
  lemma {:induction false} DetectionAppend(a: seq<ZWaveSensorValue>, b: seq<ZWaveSensorValue>, plan: AlarmPlan)
    ensures Detection(a + b, plan) == Detection(a, plan) + Detection(b, plan)
    decreases |b|
  {
    if |b| > 0 {
      var init := b[..|b| - 1];
      assert (a + b)[..|a + b| - 1] == a + init;
      assert (a + b)[|a + b| - 1] == b[|b| - 1];
      DetectionAppend(a, init, plan);
    } else {
      assert a + b == a;
    }
  }

  lemma DetectionSingle(item: ZWaveSensorValue, plan: AlarmPlan)
    ensures Detection([item], plan) == AlarmReaction(item, plan)
  {
    assert [item][..0] == [];
  }

  /** getDetectionSensor: appends each item's reaction to the data in order. */
  method DetectionSensor(data: seq<SensorValue>, values: seq<ZWaveSensorValue>, plan: AlarmPlan) returns (out: seq<SensorValue>)
    ensures out == data + Detection(values, plan)
  {
    out := data;
    var i := 0;
    while i < |values|
      invariant 0 <= i <= |values|
      invariant out == data + Detection(values[..i], plan)
    {
      assert values[..i + 1][..i] == values[..i];
      out := out + AlarmReaction(values[i], plan);
      i := i + 1;
    }
    assert values[..i] == values;
  }

  // ---------------------------------------------------------------- Aeotec ZW100

  /** The keys of m_pirSensor in the map's (sorted) order. */
  const PirKeys: seq<string> := ["0", "1", "2", "3", "4", "5"]

  /** m_pirSensor as setMapValue fills it: PIR sensitivity level to configuration label. */
  const PirSensor: map<string, string> := map[
    "0" := "Disabled",
    "1" := "Enabled level 1 (minimum sensitivity)",
    "2" := "Enabled level 2",
    "3" := "Enabled level 3",
    "4" := "Enabled level 4",
    "5" := "Enabled level 5 (maximum sensitivity)"]

  /** The first key, in map order, whose label is the given one. */
  function KeyOfLabel(keys: seq<string>, text: string): Option<string>
    requires forall i :: 0 <= i < |keys| ==> keys[i] in PirSensor
    decreases |keys|
  {
    if |keys| == 0 then None
    else if PirSensor[keys[0]] == text then Some(keys[0])
    else KeyOfLabel(keys[1..], text)
  }

  /** The labels are pairwise distinct, so the reverse lookup inverts the map. */
  lemma PirMapInverts(key: string)
    requires key in PirSensor
    ensures KeyOfLabel(PirKeys, PirSensor[key]) == Some(key)
  {
  }

  lemma PirUnknownLabel(text: string)
    requires forall k :: k in PirSensor ==> PirSensor[k] != text
    ensures KeyOfLabel(PirKeys, text) == None
  {
    assert forall i :: 0 <= i < |PirKeys| ==> PirKeys[i] in PirSensor;
  }

  /** getPirSensitivity: the configuration label at (112, 4) mapped back to its level. */
  function AeotecPirSensitivity(values: seq<ZWaveSensorValue>): Option<string>
  {
    var name := SpecificValue(COMMAND_CLASS_CONFIGURATION, 4, values);
    if name.None? then None else KeyOfLabel(PirKeys, name.value)
  }

  /** getRefreshTime: the configuration value at (112, 111). */
  function RefreshTime(values: seq<ZWaveSensorValue>): Option<string>
  {
    SpecificValue(COMMAND_CLASS_CONFIGURATION, 111, values)
  }

  /** The straight-line part of the Aeotec extractValues, before the alarms, on the looked-up texts. */
  function AeotecChain(uv: Option<string>, light: Option<string>, temp: Option<real>, humidity: Option<string>,
                       pir: Option<string>, battery: Option<string>, refresh: Option<string>): Result<seq<SensorValue>, Exception>
  {
    EmitText(2, uv, EmitText(3, light, EmitReal(4, temp, EmitText(5, humidity,
      EmitText(6, pir, EmitText(7, battery, EmitText(8, refresh, Ok([]))))))))
  }

  function AeotecFixed(values: seq<ZWaveSensorValue>): Result<seq<SensorValue>, Exception>
  {
    AeotecChain(Ultraviolet(values), Luminance(values), Temperature(values), Humidity(values),
                AeotecPirSensitivity(values), BatteryLevel(values), RefreshTime(values))
  }

  /**
   * Aeotec: ultraviolet 2, light 3, temperature 4, humidity 5, PIR
   * sensitivity 6, battery 7 and refresh time 8, in this order, each iff its
   * lookup finds something; it throws iff a found text is not a number.
   */
  lemma AeotecChainSpec(uv: Option<string>, light: Option<string>, temp: Option<real>, humidity: Option<string>,
                        pir: Option<string>, battery: Option<string>, refresh: Option<string>)
    ensures AeotecChain(uv, light, temp, humidity, pir, battery, refresh).Ok? <==>
      Parses(uv) && Parses(light) && Parses(humidity) && Parses(pir) && Parses(battery) && Parses(refresh)
    ensures AeotecChain(uv, light, temp, humidity, pir, battery, refresh).Ok? ==>
      AeotecChain(uv, light, temp, humidity, pir, battery, refresh).value ==
      TextReading(2, uv) + (TextReading(3, light) + (RealReading(4, temp) + (TextReading(5, humidity) +
      (TextReading(6, pir) + (TextReading(7, battery) + TextReading(8, refresh))))))
  {
    var r8 := EmitText(8, refresh, Ok([]));
    EmitTextSpec(8, refresh, Ok([]));
    assert r8.Ok? ==> r8.value == TextReading(8, refresh);
    var r7 := EmitText(7, battery, r8);
    EmitTextSpec(7, battery, r8);
    var r6 := EmitText(6, pir, r7);
    EmitTextSpec(6, pir, r7);
    var r5 := EmitText(5, humidity, r6);
    EmitTextSpec(5, humidity, r6);
    var r4 := EmitReal(4, temp, r5);
    var r3 := EmitText(3, light, r4);
    EmitTextSpec(3, light, r4);
    EmitTextSpec(2, uv, r3);
  }

  // ---------------------------------------------------------------- D-Link DCH-Z120

  /** getPirSensitivity: the configuration value at (112, 3). */
  function DLinkPirSensitivity(values: seq<ZWaveSensorValue>): Option<string>
  {
    SpecificValue(COMMAND_CLASS_CONFIGURATION, 3, values)
  }

  function DLinkChain(light: Option<string>, temp: Option<real>, pir: Option<string>, battery: Option<string>): Result<seq<SensorValue>, Exception>
  {
    EmitText(1, light, EmitReal(2, temp, EmitText(4, pir, EmitText(5, battery, Ok([])))))
  }

  function DLinkFixed(values: seq<ZWaveSensorValue>): Result<seq<SensorValue>, Exception>
  {
    DLinkChain(Luminance(values), Temperature(values), DLinkPirSensitivity(values), BatteryLevel(values))
  }

  /** D-Link: luminance 1, temperature 2, PIR sensitivity 4 and battery 5, each iff found. */
  lemma DLinkChainSpec(light: Option<string>, temp: Option<real>, pir: Option<string>, battery: Option<string>)
    ensures DLinkChain(light, temp, pir, battery).Ok? <==> Parses(light) && Parses(pir) && Parses(battery)
    ensures DLinkChain(light, temp, pir, battery).Ok? ==>
      DLinkChain(light, temp, pir, battery).value ==
      TextReading(1, light) + (RealReading(2, temp) + (TextReading(4, pir) + TextReading(5, battery)))
  {
    var r5 := EmitText(5, battery, Ok([]));
    EmitTextSpec(5, battery, Ok([]));
    assert r5.Ok? ==> r5.value == TextReading(5, battery);
    var r4 := EmitText(4, pir, r5);
    EmitTextSpec(4, pir, r5);
    var r2 := EmitReal(2, temp, r4);
    EmitTextSpec(1, light, r2);
  }

  // ---------------------------------------------------------------- Philio, Fibaro, Popp

  function PhilioValues(values: seq<ZWaveSensorValue>): Result<seq<SensorValue>, Exception>
  {
    EmitText(2, Luminance(values), EmitReal(1, Temperature(values),
      EmitText(0, SensorBinary(values), EmitText(3, BatteryLevel(values), Ok([])))))
  }

  /** Philio: luminance 2, temperature 1, binary sensor 0, battery 3, in this order and nothing else. */
  lemma PhilioValuesSpec(values: seq<ZWaveSensorValue>)
    ensures PhilioValues(values).Ok? <==> Parses(Luminance(values)) && Parses(BatteryLevel(values))
    ensures PhilioValues(values).Ok? ==>
      PhilioValues(values).value ==
      TextReading(2, Luminance(values)) + (RealReading(1, Temperature(values)) +
      (BoolReading(0, FirstBool(COMMAND_CLASS_SENSOR_BINARY, SENSOR_INDEX_SENSOR, values)) +
      TextReading(3, BatteryLevel(values))))
  {
    var r3 := EmitText(3, BatteryLevel(values), Ok([]));
    EmitTextSpec(3, BatteryLevel(values), Ok([]));
    assert r3.Ok? ==> r3.value == TextReading(3, BatteryLevel(values));
    var r0 := EmitText(0, SensorBinary(values), r3);
    EmitTextSpec(0, SensorBinary(values), r3);
    BoolLookupParses(0, FirstBool(COMMAND_CLASS_SENSOR_BINARY, SENSOR_INDEX_SENSOR, values));
    var r1 := EmitReal(1, Temperature(values), r0);
    EmitTextSpec(2, Luminance(values), r1);
  }

  function FibaroValues(values: seq<ZWaveSensorValue>): Result<seq<SensorValue>, Exception>
  {
    EmitText(0, SensorBinary(values), EmitText(1, BatteryLevel(values), Ok([])))
  }

  /** Fibaro: the door contact 0 iff a True/False at (48, 0) is found, the battery 1 iff found. */
  lemma FibaroValuesSpec(values: seq<ZWaveSensorValue>)
    ensures FibaroValues(values).Ok? <==> Parses(BatteryLevel(values))
    ensures FibaroValues(values).Ok? ==>
      FibaroValues(values).value ==
      BoolReading(0, FirstBool(COMMAND_CLASS_SENSOR_BINARY, SENSOR_INDEX_SENSOR, values)) +
      TextReading(1, BatteryLevel(values))
  {
    var r1 := EmitText(1, BatteryLevel(values), Ok([]));
    EmitTextSpec(1, BatteryLevel(values), Ok([]));
    assert r1.Ok? ==> r1.value == TextReading(1, BatteryLevel(values));
    EmitTextSpec(0, SensorBinary(values), r1);
    BoolLookupParses(0, FirstBool(COMMAND_CLASS_SENSOR_BINARY, SENSOR_INDEX_SENSOR, values));
  }

  function PoppValues(values: seq<ZWaveSensorValue>): Result<seq<SensorValue>, Exception>
  {
    EmitText(0, SwitchBinary(values), Ok([]))
  }

  /** Popp: the switch 0 iff a True/False at (37, 0) is found; it is the only module and never throws. */
  lemma PoppValuesSpec(values: seq<ZWaveSensorValue>)
    ensures PoppValues(values) ==
      Ok(BoolReading(0, FirstBool(COMMAND_CLASS_SWITCH_BINARY, SENSOR_INDEX_SENSOR, values)))
  {
    EmitTextSpec(0, SwitchBinary(values), Ok([]));
    assert TextReading(0, SwitchBinary(values)) + [] == TextReading(0, SwitchBinary(values));
    BoolLookupParses(0, FirstBool(COMMAND_CLASS_SWITCH_BINARY, SENSOR_INDEX_SENSOR, values));
  }

  // ---------------------------------------------------------------- extractValues

  /** extractValues of each product; the alarm values follow the fixed ones. */
  function ExtractedValues(p: Product, values: seq<ZWaveSensorValue>): Result<seq<SensorValue>, Exception>
  {
    match p
    case AeotecZW100 =>
      var fixed := AeotecFixed(values);
      if fixed.Err? then fixed else Ok(fixed.value + Detection(values, AeotecAlarms))
    case DLinkDchZ120 =>
      var fixed := DLinkFixed(values);
      if fixed.Err? then fixed else Ok(fixed.value + Detection(values, DLinkAlarms))
    case PhilioPST021C => PhilioValues(values)
    case FibaroFGK107 => FibaroValues(values)
    case Popp123601 => PoppValues(values)
  }

  /** extractValues: builds the values insert by insert, then runs the alarm loop where the product has one. */
  method ExtractValues(p: Product, values: seq<ZWaveSensorValue>) returns (r: Result<seq<SensorValue>, Exception>)
    ensures r == ExtractedValues(p, values)
  {
    match p {
      case AeotecZW100 =>
        r := AeotecFixed(values);
        if r.Ok? {
          var all := DetectionSensor(r.value, values, AeotecAlarms);
          r := Ok(all);
        }
      case DLinkDchZ120 =>
        r := DLinkFixed(values);
        if r.Ok? {
          var all := DetectionSensor(r.value, values, DLinkAlarms);
          r := Ok(all);
        }
      case PhilioPST021C => r := PhilioValues(values);
      case FibaroFGK107 => r := FibaroValues(values);
      case Popp123601 => r := PoppValues(values);
    }
  }

  predicate ModulesAtMost(values: seq<SensorValue>, bound: nat)
  {
    forall i :: 0 <= i < |values| ==> values[i].moduleId <= bound
  }

  lemma {:induction false} DetectionModules(values: seq<ZWaveSensorValue>, plan: AlarmPlan, bound: nat)
    requires ModulesAtMost(plan.onSafety, bound) && ModulesAtMost(plan.onMotion, bound) && ModulesAtMost(plan.onIdle, bound)
    ensures ModulesAtMost(Detection(values, plan), bound)
    decreases |values|
  {
    if |values| > 0 {
      DetectionModules(values[..|values| - 1], plan, bound);
    }
  }

  lemma ModulesConcat(a: seq<SensorValue>, b: seq<SensorValue>, bound: nat)
    requires ModulesAtMost(a, bound) && ModulesAtMost(b, bound)
    ensures ModulesAtMost(a + b, bound)
  {
    forall i | 0 <= i < |a + b|
      ensures (a + b)[i].moduleId <= bound
    {
      if i >= |a| {
        assert (a + b)[i] == b[i - |a|];
      }
    }
  }

  lemma AeotecFixedModules(values: seq<ZWaveSensorValue>)
    ensures AeotecFixed(values).Ok? ==> ModulesAtMost(AeotecFixed(values).value, 8)
  {
    var uv, light, temp, humidity := Ultraviolet(values), Luminance(values), Temperature(values), Humidity(values);
    var pir, battery, refresh := AeotecPirSensitivity(values), BatteryLevel(values), RefreshTime(values);
    AeotecChainSpec(uv, light, temp, humidity, pir, battery, refresh);
    if AeotecFixed(values).Ok? {
      var t7 := TextReading(7, battery) + TextReading(8, refresh);
      ModulesConcat(TextReading(7, battery), TextReading(8, refresh), 8);
      var t6 := TextReading(6, pir) + t7;
      ModulesConcat(TextReading(6, pir), t7, 8);
      var t5 := TextReading(5, humidity) + t6;
      ModulesConcat(TextReading(5, humidity), t6, 8);
      var t4 := RealReading(4, temp) + t5;
      ModulesConcat(RealReading(4, temp), t5, 8);
      var t3 := TextReading(3, light) + t4;
      ModulesConcat(TextReading(3, light), t4, 8);
      ModulesConcat(TextReading(2, uv), t3, 8);
    }
  }

  lemma DLinkFixedModules(values: seq<ZWaveSensorValue>)
    ensures DLinkFixed(values).Ok? ==> ModulesAtMost(DLinkFixed(values).value, 8)
  {
    var light, temp, pir, battery := Luminance(values), Temperature(values), DLinkPirSensitivity(values), BatteryLevel(values);
    DLinkChainSpec(light, temp, pir, battery);
    if DLinkFixed(values).Ok? {
      var t4 := TextReading(4, pir) + TextReading(5, battery);
      ModulesConcat(TextReading(4, pir), TextReading(5, battery), 8);
      var t2 := RealReading(2, temp) + t4;
      ModulesConcat(RealReading(2, temp), t4, 8);
      ModulesConcat(TextReading(1, light), t2, 8);
    }
  }

  lemma PhilioModules(values: seq<ZWaveSensorValue>)
    ensures PhilioValues(values).Ok? ==> ModulesAtMost(PhilioValues(values).value, 8)
  {
    PhilioValuesSpec(values);
    if PhilioValues(values).Ok? {
      var b := BoolReading(0, FirstBool(COMMAND_CLASS_SENSOR_BINARY, SENSOR_INDEX_SENSOR, values));
      var t0 := b + TextReading(3, BatteryLevel(values));
      ModulesConcat(b, TextReading(3, BatteryLevel(values)), 8);
      var t1 := RealReading(1, Temperature(values)) + t0;
      ModulesConcat(RealReading(1, Temperature(values)), t0, 8);
      ModulesConcat(TextReading(2, Luminance(values)), t1, 8);
    }
  }

  /** Every module a product reports is one of its modules 0..8. */
  lemma ExtractedModules(p: Product, values: seq<ZWaveSensorValue>)
    ensures ExtractedValues(p, values).Ok? ==> ModulesAtMost(ExtractedValues(p, values).value, 8)
  {
    match p {
      case AeotecZW100 =>
        AeotecFixedModules(values);
        DetectionModules(values, AeotecAlarms, 8);
        if AeotecFixed(values).Ok? {
          ModulesConcat(AeotecFixed(values).value, Detection(values, AeotecAlarms), 8);
        }
      case DLinkDchZ120 =>
        DLinkFixedModules(values);
        DetectionModules(values, DLinkAlarms, 8);
        if DLinkFixed(values).Ok? {
          ModulesConcat(DLinkFixed(values).value, Detection(values, DLinkAlarms), 8);
        }
      case PhilioPST021C => PhilioModules(values);
      case FibaroFGK107 =>
        FibaroValuesSpec(values);
        if FibaroValues(values).Ok? {
          ModulesConcat(BoolReading(0, FirstBool(COMMAND_CLASS_SENSOR_BINARY, SENSOR_INDEX_SENSOR, values)),
                        TextReading(1, BatteryLevel(values)), 8);
        }
      case Popp123601 => PoppValuesSpec(values);
    }
  }

  // ---------------------------------------------------------------- setValue

  /** The text handed to setActuator: a label, or std::to_string of the value (its digits are not modelled). */
  datatype ActuatorText = Label(text: string) | Formatted(value: Double)

  /** One value sent to the network: the ValueID setActuator chose, and the text. */
  datatype Actuation = Actuation(valueId: ValueID, text: ActuatorText)

  /** What setValue does with one module value. */
  datatype SetStep = Skip | Send(text: ActuatorText, commandClass: int, index: int) | Abort

  /**
   * Aeotec: module 6 sends the label of the level int(value) to (112, 4)
   * and an unknown level ends setValue; module 8 sends the value to
   * (112, 111). D-Link: module 4 to (112, 3). Popp: module 0 to (37, 0).
   * Philio and Fibaro set nothing.
   */
  function SetValueStep(p: Product, v: SensorValue): SetStep
  {
    match p
    case AeotecZW100 =>
      if v.moduleId == 6 then
        var level := Truncate(v.value);
        if level.None? || FormatInt(level.value) !in PirSensor then Abort
        else Send(Label(PirSensor[FormatInt(level.value)]), COMMAND_CLASS_CONFIGURATION, 4)
      else if v.moduleId == 8 then Send(Formatted(v.value), COMMAND_CLASS_CONFIGURATION, 111)
      else Skip
    case DLinkDchZ120 =>
      if v.moduleId == 4 then Send(Formatted(v.value), COMMAND_CLASS_CONFIGURATION, 3) else Skip
    case PhilioPST021C => Skip
    case FibaroFGK107 => Skip
    case Popp123601 =>
      if v.moduleId == 0 then Send(Formatted(v.value), COMMAND_CLASS_SWITCH_BINARY, 0) else Skip
  }

  /** What setActuator sends for one step; nothing when it finds no ValueID. */
  function StepSends(step: SetStep, nodes: map<uint8, NodeInfo>, nodeId: uint8): seq<Actuation>
  {
    if !step.Send? then []
    else
      var id := SetActuator(nodes, step.commandClass, step.index, nodeId);
      if id.None? then [] else [Actuation(id.value, step.text)]
  }

  /** The values setValue sends for a whole list, up to the first abort. */
  function SetValueSends(p: Product, values: seq<SensorValue>, nodes: map<uint8, NodeInfo>, nodeId: uint8): seq<Actuation>
    decreases |values|
  {
    if |values| == 0 then []
    else
      var step := SetValueStep(p, values[0]);
      if step.Abort? then []
      else StepSends(step, nodes, nodeId) + SetValueSends(p, values[1..], nodes, nodeId)
  }

  lemma SetValueSendsAt(p: Product, values: seq<SensorValue>, i: nat, nodes: map<uint8, NodeInfo>, nodeId: uint8)
    requires i < |values|
    ensures SetValueSends(p, values[i..], nodes, nodeId) ==
      if SetValueStep(p, values[i]).Abort? then []
      else StepSends(SetValueStep(p, values[i]), nodes, nodeId) + SetValueSends(p, values[i + 1..], nodes, nodeId)
  {
    assert values[i..][1..] == values[i + 1..];
  }

  /** Midway through setValue: `sends` went out for values[..i], and the rest completes the whole list's sends. */
  ghost predicate SentUpTo(sends: seq<Actuation>, p: Product, values: seq<SensorValue>, i: nat,
                           nodes: map<uint8, NodeInfo>, nodeId: uint8)
    requires i <= |values|
  {
    sends + SetValueSends(p, values[i..], nodes, nodeId) == SetValueSends(p, values, nodes, nodeId)
  }

  /** A value that does not abort adds its own sends. */
  lemma SentUpToStep(sends: seq<Actuation>, p: Product, values: seq<SensorValue>, i: nat,
                     nodes: map<uint8, NodeInfo>, nodeId: uint8)
    requires i < |values| && SentUpTo(sends, p, values, i, nodes, nodeId)
    requires !SetValueStep(p, values[i]).Abort?
    ensures SentUpTo(sends + StepSends(SetValueStep(p, values[i]), nodes, nodeId), p, values, i + 1, nodes, nodeId)
  {
    SetValueSendsAt(p, values, i, nodes, nodeId);
    var here := StepSends(SetValueStep(p, values[i]), nodes, nodeId);
    var rest := SetValueSends(p, values[i + 1..], nodes, nodeId);
    assert (sends + here) + rest == sends + (here + rest);
  }

  /** An aborting value, or the end of the list, leaves nothing more to send. */
  lemma SentUpToStop(sends: seq<Actuation>, p: Product, values: seq<SensorValue>, i: nat,
                     nodes: map<uint8, NodeInfo>, nodeId: uint8)
    requires i <= |values| && SentUpTo(sends, p, values, i, nodes, nodeId)
    requires i == |values| || SetValueStep(p, values[i]).Abort?
    ensures sends == SetValueSends(p, values, nodes, nodeId)
  {
    if i < |values| {
      SetValueSendsAt(p, values, i, nodes, nodeId);
    }
    assert sends + [] == sends;
  }

  /** setValue: one pass over the module values, returning at the first unknown PIR level. */
  method SetValue(p: Product, values: seq<SensorValue>, nodes: map<uint8, NodeInfo>, nodeId: uint8)
    returns (sends: seq<Actuation>)
    ensures sends == SetValueSends(p, values, nodes, nodeId)
  {
    sends := [];
    var i := 0;
    while i < |values|
      invariant 0 <= i <= |values|
      invariant SentUpTo(sends, p, values, i, nodes, nodeId)
    {
      var step := SetValueStep(p, values[i]);
      if step.Abort? {
        SentUpToStop(sends, p, values, i, nodes, nodeId);
        return;
      }
      SentUpToStep(sends, p, values, i, nodes, nodeId);
      sends := sends + StepSends(step, nodes, nodeId);
      i := i + 1;
    }
    SentUpToStop(sends, p, values, i, nodes, nodeId);
  }

  /** The (class, index) pairs a product ever writes. */
  function SettableKeys(p: Product): set<(int, int)>
  {
    match p
    case AeotecZW100 => {(COMMAND_CLASS_CONFIGURATION, 4), (COMMAND_CLASS_CONFIGURATION, 111)}
    case DLinkDchZ120 => {(COMMAND_CLASS_CONFIGURATION, 3)}
    case PhilioPST021C => {}
    case FibaroFGK107 => {}
    case Popp123601 => {(COMMAND_CLASS_SWITCH_BINARY, 0)}
  }

  /**
   * Everything setValue sends goes to a ValueID of the given node at one of
   * the product's settable keys; Philio and Fibaro send nothing.
   */
  lemma {:induction false} SendsAreSettable(p: Product, values: seq<SensorValue>, nodes: map<uint8, NodeInfo>, nodeId: uint8)
    ensures forall a :: a in SetValueSends(p, values, nodes, nodeId) ==>
      nodeId in nodes && a.valueId in nodes[nodeId].values &&
      (a.valueId.commandClass, a.valueId.index) in SettableKeys(p)
    ensures |SetValueSends(p, values, nodes, nodeId)| <= |values|
    decreases |values|
  {
    if |values| > 0 {
      var step := SetValueStep(p, values[0]);
      SendsAreSettable(p, values[1..], nodes, nodeId);
      if step.Send? {
        SetActuatorSpec(nodes, step.commandClass, step.index, nodeId);
      }
    }
  }

  /** Values after the first unknown PIR level are never sent. */
  lemma {:induction false} SetValueStopsAtAbort(p: Product, values: seq<SensorValue>, k: nat, nodes: map<uint8, NodeInfo>, nodeId: uint8)
    requires k < |values| && SetValueStep(p, values[k]).Abort?
    ensures SetValueSends(p, values, nodes, nodeId) == SetValueSends(p, values[..k], nodes, nodeId)
    decreases k
  {
    if k > 0 && !SetValueStep(p, values[0]).Abort? {
      SetValueStopsAtAbort(p, values[1..], k - 1, nodes, nodeId);
      assert values[..k][1..] == values[1..][..k - 1];
    }
  }

  /** An Aeotec PIR value whose integer part is a level 0..5 sends that level's label to (112, 4). */
  lemma AeotecPirLevel(v: SensorValue, level: nat)
    requires v.moduleId == 6 && Truncate(v.value) == Some(level) && level <= 5
    ensures SetValueStep(AeotecZW100, v) == Send(Label(PirSensor[PirKeys[level]]), COMMAND_CLASS_CONFIGURATION, 4)
  {
    assert FormatInt(level) == PirKeys[level];
  }
}
