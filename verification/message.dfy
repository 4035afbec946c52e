/**
 * ZMQMessage: a JSON object with a "message_type" attribute, its builders
 * (from*) and its readers (to*, get*). JSON text itself is not modelled:
 * a received frame is either a parsed object or malformed text.
 */
module Messages {
  import opened Wrappers
  import opened Numerals
  import opened Identity
  import opened SensorModel
  import opened MessageTypes
  import opened Commands

  /** JSON values; "raw" numbers are kept as the double they stand for (JReal, or JNaN for NaN). */
  datatype Json =
    | JString(s: string)
    | JInt(i: int)
    | JReal(r: real)
    | JNaN
    | JArray(items: seq<Json>)
    | JObject(fields: map<string, Json>)

  type Object = map<string, Json>

  /** The text form of a GlobalID. */
  type GlobalID = string

  /** A frame as JsonUtil::parse sees it. */
  datatype Wire = WellFormed(obj: Object) | Malformed

  /** fromJSON: text that is not a JSON object throws SyntaxException. */
  function FromJSON(w: Wire): (r: Result<Object, Exception>)
    ensures r.Err? <==> w.Malformed?
    ensures r.Err? ==> r.error == Syntax
  {
    if w.Malformed? then Err(Syntax) else Ok(w.obj)
  }

  // ------------------------------------------------------------ attribute access

  /** JsonUtil::extract<string>: an absent attribute throws InvalidAccessException. */
  function ExtractString(o: Object, key: string): (r: Result<string, Exception>)
    ensures key !in o ==> r == Err(InvalidAccess)
    ensures key in o && o[key].JString? ==> r == Ok(o[key].s)
  {
    if key !in o then Err(InvalidAccess)
    else if o[key].JString? then Ok(o[key].s)
    else Err(BadCast)
  }

  /** JsonUtil::extract<int>. */
  function ExtractInt(o: Object, key: string): (r: Result<int, Exception>)
    ensures key !in o ==> r == Err(InvalidAccess)
    ensures key in o && o[key].JInt? ==> r == Ok(o[key].i)
  {
    if key !in o then Err(InvalidAccess)
    else if o[key].JInt? then Ok(o[key].i)
    else Err(BadCast)
  }

  /** type(): the parsed "message_type". */
  function TypeOf(o: Object): (r: Result<MessageType, Exception>)
    ensures "message_type" !in o ==> r == Err(InvalidAccess)
    ensures r.Ok? ==> o["message_type"] == JString(TypeName(r.value))
  {
    var name := ExtractString(o, "message_type");
    if name.Err? then Err(name.error) else ParseType(name.value)
  }

  /** id(): the message's GlobalID. */
  function MessageId(o: Object): Result<GlobalID, Exception>
  {
    ExtractString(o, "id")
  }

  function WithType(o: Object, t: MessageType): Object { o["message_type" := JString(TypeName(t))] }

  function WithID(o: Object, id: GlobalID): Object { o["id" := JString(id)] }

  function WithDeviceID(o: Object, d: DeviceID): Object { o["device_id" := JString(DeviceToString(d))] }

  function WithModuleID(o: Object, m: ModuleID): Object { o["module_id" := JString(ModuleToString(m))] }

  function DoubleJson(v: Double): Json
  {
    if v.Some? then JReal(v.value) else JNaN
  }

  /** setValue: "raw" holds the number, "type" is "double". */
  function WithValue(o: Object, v: Double): Object
  {
    o["raw" := DoubleJson(v)]["type" := JString(ValueTypeName(TypeDouble))]
  }

  function WithSensorValue(o: Object, sv: SensorValue): Object
  {
    WithValue(WithModuleID(o, sv.moduleId), sv.value)
  }

  function GetDevicePrefix(o: Object): Result<DevicePrefix, Exception>
  {
    var name := ExtractString(o, "device_manager_prefix");
    if name.Err? then Err(name.error) else PrefixParse(name.value)
  }

  function GetDeviceID(o: Object): Result<DeviceID, Exception>
  {
    var text := ExtractString(o, "device_id");
    if text.Err? then Err(text.error) else DeviceParse(text.value)
  }

  function GetModuleID(o: Object): Result<ModuleID, Exception>
  {
    var text := ExtractString(o, "module_id");
    if text.Err? then Err(text.error) else ModuleParse(text.value)
  }

  /** getRawValue followed by parseFloat. */
  function GetRawValue(o: Object): Result<Double, Exception>
  {
    if "raw" !in o then Err(InvalidAccess)
    else match o["raw"]
      case JReal(r) => Ok(Some(r))
      case JNaN => Ok(None)
      case JString(text) =>
        var n := ParseDecimal(text);
        if n.Err? then Err(n.error) else Ok(Some(n.value))
      case _ => Err(BadCast)
  }

  /**
   * getValue: the value type is parsed first, and parsing throws for any
   * name but "double"; so the branch that returns false for another type
   * is never reached and every successful read yields the raw value.
   */
  function GetValue(o: Object): (r: Result<Double, Exception>)
    ensures r.Ok? ==> ExtractString(o, "type") == Ok("double")
  {
    var typeName := ExtractString(o, "type");
    if typeName.Err? then Err(typeName.error)
    else
      var valueType := ParseValueType(typeName.value);
      if valueType.Err? then Err(valueType.error)
      else GetRawValue(o)
  }

  function GetSensorValue(o: Object): Result<SensorValue, Exception>
  {
    var m := GetModuleID(o);
    if m.Err? then Err(m.error)
    else
      var v := GetValue(o);
      if v.Err? then Err(v.error) else Ok(SensorValue(m.value, v.value))
  }

  lemma DeviceFieldRoundTrip(o: Object, d: DeviceID)
    ensures GetDeviceID(WithDeviceID(o, d)) == Ok(d)
  {
    DeviceParseToString(d);
  }

  lemma ModuleFieldRoundTrip(o: Object, m: ModuleID)
    requires m < 0x1_0000
    ensures GetModuleID(WithModuleID(o, m)) == Ok(m)
  {
    ModuleParseToString(m);
  }

  /** setValue then getValue gives the value back, whatever else the object held. */
  lemma ValueRoundTrip(o: Object, v: Double)
    ensures GetValue(WithValue(o, v)) == Ok(v)
  {
  }

  /** A "type" other than "double" is rejected by the type parser before any value is read. */
  lemma OtherValueTypeRejected(o: Object, name: string)
    requires "type" in o && o["type"] == JString(name) && name != "double"
    ensures GetValue(o) == Err(InvalidArgument)
  {
  }

  lemma SensorValueRoundTrip(o: Object, sv: SensorValue)
    requires sv.moduleId < 0x1_0000
    ensures GetSensorValue(WithSensorValue(o, sv)) == Ok(sv)
  {
    ModuleParseToString(sv.moduleId);
    var o1 := WithModuleID(o, sv.moduleId);
    assert WithSensorValue(o, sv) == WithValue(o1, sv.value);
    assert GetModuleID(WithValue(o1, sv.value)) == Ok(sv.moduleId);
    ValueRoundTrip(o1, sv.value);
  }

  // ------------------------------------------------------------ error, hello

  /** ZMQMessageError as read back: the raw code and the text. */
  datatype MessageError = MessageError(code: int, message: string)

  function ErrorObject(code: ErrorCode, text: string): Object
  {
    map["message_type" := JString(TypeName(TypeError)),
        "error_code" := JInt(ErrorRaw(code)),
        "error_message" := JString(text)]
  }

  function ToError(o: Object): Result<MessageError, Exception>
  {
    var code := ExtractInt(o, "error_code");
    if code.Err? then Err(code.error)
    else
      var text := ExtractString(o, "error_message");
      if text.Err? then Err(text.error) else Ok(MessageError(code.value, text.value))
  }

  lemma ErrorRoundTrip(code: ErrorCode, text: string)
    ensures TypeOf(ErrorObject(code, text)) == Ok(TypeError)
    ensures ToError(ErrorObject(code, text)) == Ok(MessageError(ErrorRaw(code), text))
  {
    ParseTypeName(TypeError);
  }

  function HelloRequestObject(p: DevicePrefix): Object
  {
    map["message_type" := JString(TypeName(TypeHelloRequest)),
        "device_manager_prefix" := JString(PrefixName(p))]
  }

  function ToHelloRequest(o: Object): Result<DevicePrefix, Exception>
  {
    GetDevicePrefix(o)
  }

  lemma HelloRequestRoundTrip(p: DevicePrefix)
    ensures TypeOf(HelloRequestObject(p)) == Ok(TypeHelloRequest)
    ensures ToHelloRequest(HelloRequestObject(p)) == Ok(p)
  {
    ParseTypeName(TypeHelloRequest);
    PrefixRoundTrips(p);
  }

  function HelloResponseObject(id: DeviceManagerID): Object
  {
    map["message_type" := JString(TypeName(TypeHelloResponse)),
        "device_manager_id" := JString(ManagerToString(id))]
  }

  function ToHelloResponse(o: Object): Result<DeviceManagerID, Exception>
  {
    var text := ExtractString(o, "device_manager_id");
    if text.Err? then Err(text.error) else ManagerParse(text.value)
  }

  /** The ID goes out as its hex text and parses back to an equal ID. */
  lemma HelloResponseRoundTrip(id: DeviceManagerID)
    requires Constructible(id)
    ensures TypeOf(HelloResponseObject(id)) == Ok(TypeHelloResponse)
    ensures ToHelloResponse(HelloResponseObject(id)) == Ok(id)
  {
    ParseTypeName(TypeHelloResponse);
    ParseToString(id);
  }

  lemma HelloResponseExample()
    ensures HelloResponseObject(DeviceManagerID(0xa100))["device_manager_id"] == JString("A100")
  {
    ManagerTextExamples();
  }

  // ------------------------------------------------------------ measured values

  /** The "values" array: one object per SensorValue, in order. */
  function ValuesArray(values: seq<SensorValue>): (items: seq<Json>)
    ensures |items| == |values|
  {
    if |values| == 0 then []
    else ValuesArray(values[..|values| - 1]) + [JObject(WithSensorValue(map[], values[|values| - 1]))]
  }

  function SensorDataObject(d: SensorData): Object
  {
    map["message_type" := JString(TypeName(TypeMeasuredValues)),
        "device_id" := JString(DeviceToString(d.device)),
        "values" := JArray(ValuesArray(d.values))]
  }

  /** Reading the array items in order; the first unreadable one stops the read. */
  function DecodeValues(items: seq<Json>): Result<seq<SensorValue>, Exception>
  {
    if |items| == 0 then Ok([])
    else
      var init := DecodeValues(items[..|items| - 1]);
      if init.Err? then init
      else
        var last := items[|items| - 1];
        if !last.JObject? then Err(NullPointer)
        else
          var sv := GetSensorValue(last.fields);
          if sv.Err? then Err(sv.error) else Ok(init.value + [sv.value])
  }

  function ToSensorData(o: Object): Result<SensorData, Exception>
  {
    var device := GetDeviceID(o);
    if device.Err? then Err(device.error)
    else if "values" !in o || !o["values"].JArray? then Err(NullPointer)
    else
      var values := DecodeValues(o["values"].items);
      if values.Err? then Err(values.error) else Ok(SensorData(device.value, values.value))
  }

  predicate WireModules(values: seq<SensorValue>)
  {
    forall i :: 0 <= i < |values| ==> values[i].moduleId < 0x1_0000
  }

  lemma {:induction false} ValuesRoundTrip(values: seq<SensorValue>)
    requires WireModules(values)
    ensures DecodeValues(ValuesArray(values)) == Ok(values)
    decreases |values|
  {
    if |values| > 0 {
      var n := |values| - 1;
      assert values[..n] + [values[n]] == values;
      var items := ValuesArray(values);
      assert items[..n] == ValuesArray(values[..n]);
      ValuesRoundTrip(values[..n]);
      SensorValueRoundTrip(map[], values[n]);
    }
  }

  /** toSensorData(fromSensorData(d)) gives back the device and the values in order. */
  lemma SensorDataRoundTrip(d: SensorData)
    requires WireModules(d.values)
    ensures TypeOf(SensorDataObject(d)) == Ok(TypeMeasuredValues)
    ensures ToSensorData(SensorDataObject(d)) == Ok(d)
  {
    var o := SensorDataObject(d);
    assert TypeOf(o) == Ok(TypeMeasuredValues) by {
      ParseTypeName(TypeMeasuredValues);
    }
    assert GetDeviceID(o) == Ok(d.device) by {
      assert o["device_id"] == JString(DeviceToString(d.device));
      DeviceParseToString(d.device);
    }
    assert o["values"] == JArray(ValuesArray(d.values));
    ValuesRoundTrip(d.values);
  }

  // ------------------------------------------------------------ commands and results

  /** Timespan::totalSeconds, truncating toward zero. */
  function TotalSeconds(t: Micros): int
  {
    if t >= 0 then t / MICROS_PER_SECOND else -((-t) / MICROS_PER_SECOND)
  }

  /**
   * fromCommand for the commands that have a wire form; the message id is
   * the fresh GlobalID the caller supplies.
   */
  function CommandObject(c: Command, id: GlobalID): (r: Option<Object>)
    ensures r.Some? <==> !c.OtherCommand?
  {
    var fields := CommandFields(c);
    if fields.None? then None else Some(fields.value["id" := JString(id)])
  }

  /** The attributes of a command's message other than its "id". */
  function CommandFields(c: Command): (r: Option<Object>)
    ensures r.Some? <==> !c.OtherCommand?
  {
    match c
    case GatewayListen(duration) =>
      Some(map["message_type" := JString(TypeName(TypeListenCmd)),
               "duration" := JInt(TotalSeconds(duration))])
    case DeviceUnpair(device) =>
      Some(map["message_type" := JString(TypeName(TypeDeviceUnpairCmd)),
               "device_id" := JString(DeviceToString(device))])
    case DeviceSetValue(device, moduleId, value, timeout) =>
      Some(SetValueObject(device, moduleId, value, timeout))
    case ServerDeviceList(prefix) =>
      Some(map["message_type" := JString(TypeName(TypeDeviceListCmd)),
               "device_manager_prefix" := JString(PrefixName(prefix))])
    case ServerLastValue(device, moduleId) =>
      Some(map["message_type" := JString(TypeName(TypeDeviceLastValueCmd)),
               "device_id" := JString(DeviceToString(device)),
               "module_id" := JString(ModuleToString(moduleId))])
    case OtherCommand(_) => None
  }

  function ToListenCommand(o: Object): Result<Command, Exception>
  {
    var seconds := ExtractInt(o, "duration");
    if seconds.Err? then Err(seconds.error)
    else Ok(GatewayListen(seconds.value * MICROS_PER_SECOND))
  }

  function ToUnpairCommand(o: Object): Result<Command, Exception>
  {
    var device := GetDeviceID(o);
    if device.Err? then Err(device.error) else Ok(DeviceUnpair(device.value))
  }

  function ToSetValueCommand(o: Object): Result<Command, Exception>
  {
    var device := GetDeviceID(o);
    var seconds := ExtractInt(o, "timeout");
    if device.Err? then Err(device.error)
    else if seconds.Err? then Err(seconds.error)
    else if "values" !in o || !o["values"].JObject? then Err(NullPointer)
    else
      var values := o["values"].fields;
      var m := GetModuleID(values);
      var v := GetValue(values);
      if m.Err? then Err(m.error)
      else if v.Err? then Err(v.error)
      else Ok(DeviceSetValue(device.value, m.value, v.value, seconds.value * MICROS_PER_SECOND))
  }

  function ToDeviceListCommand(o: Object): Result<Command, Exception>
  {
    var prefix := GetDevicePrefix(o);
    if prefix.Err? then Err(prefix.error) else Ok(ServerDeviceList(prefix.value))
  }

  function ToLastValueCommand(o: Object): Result<Command, Exception>
  {
    var device := GetDeviceID(o);
    var m := GetModuleID(o);
    if device.Err? then Err(device.error)
    else if m.Err? then Err(m.error)
    else Ok(ServerLastValue(device.value, m.value))
  }

  /** set_values_cmd: the module and value travel in a nested "values" object. */
  function SetValueObject(device: DeviceID, moduleId: ModuleID, value: Double, timeout: Micros): Object
  {
    map["message_type" := JString(TypeName(TypeSetValuesCmd)),
        "device_id" := JString(DeviceToString(device)),
        "timeout" := JInt(TotalSeconds(timeout)),
        "values" := JObject(WithValue(WithModuleID(map[], moduleId), value))]
  }

  /** The to*Command readers, chosen by the message type; other types are not commands. */
  function ToCommand(o: Object): Result<Command, Exception>
  {
    var t := TypeOf(o);
    if t.Err? then Err(t.error)
    else match t.value
      case TypeListenCmd => ToListenCommand(o)
      case TypeDeviceUnpairCmd => ToUnpairCommand(o)
      case TypeSetValuesCmd => ToSetValueCommand(o)
      case TypeDeviceListCmd => ToDeviceListCommand(o)
      case TypeDeviceLastValueCmd => ToLastValueCommand(o)
      case _ => Err(InvalidArgument)
  }

  /** Which reader ToCommand uses for each command type. */
  lemma ToCommandDispatch(o: Object, t: MessageType)
    requires TypeOf(o) == Ok(t)
    ensures ToCommand(o) == match t
      case TypeListenCmd => ToListenCommand(o)
      case TypeDeviceUnpairCmd => ToUnpairCommand(o)
      case TypeSetValuesCmd => ToSetValueCommand(o)
      case TypeDeviceListCmd => ToDeviceListCommand(o)
      case TypeDeviceLastValueCmd => ToLastValueCommand(o)
      case _ => Err(InvalidArgument)
  {
  }

  /** An object tagged with a type's wire name reads back as that type. */
  lemma TypeOfTagged(o: Object, t: MessageType)
    requires "message_type" in o && o["message_type"] == JString(TypeName(t))
    ensures TypeOf(o) == Ok(t)
  {
    ParseTypeName(t);
  }

  /** Commands whose wire form carries all of their payload: whole seconds, 16-bit modules. */
  predicate WireCommand(c: Command)
  {
    match c
    case GatewayListen(duration) => duration % MICROS_PER_SECOND == 0
    case DeviceUnpair(_) => true
    case DeviceSetValue(_, moduleId, _, timeout) => moduleId < 0x1_0000 && timeout % MICROS_PER_SECOND == 0
    case ServerDeviceList(_) => true
    case ServerLastValue(_, moduleId) => moduleId < 0x1_0000
    case OtherCommand(_) => false
  }

  lemma SecondsRoundTrip(t: Micros)
    requires t % MICROS_PER_SECOND == 0
    ensures TotalSeconds(t) * MICROS_PER_SECOND == t
  {
    var q := t / MICROS_PER_SECOND;
    assert t == q * MICROS_PER_SECOND;
    if t < 0 {
      ModUnique(-t, MICROS_PER_SECOND, -q, 0);
    }
  }

  lemma ListenRoundTrip(duration: Micros, id: GlobalID)
    requires duration % MICROS_PER_SECOND == 0
    ensures ToCommand(CommandObject(GatewayListen(duration), id).value) == Ok(GatewayListen(duration))
  {
    var o := CommandObject(GatewayListen(duration), id).value;
    assert TypeOf(o) == Ok(TypeListenCmd) by {
      TypeOfTagged(o, TypeListenCmd);
    }
    assert ToListenCommand(o) == Ok(GatewayListen(duration)) by {
      assert ExtractInt(o, "duration") == Ok(TotalSeconds(duration));
      SecondsRoundTrip(duration);
    }
    ToCommandDispatch(o, TypeListenCmd);
  }

  lemma UnpairRoundTrip(device: DeviceID, id: GlobalID)
    ensures ToCommand(CommandObject(DeviceUnpair(device), id).value) == Ok(DeviceUnpair(device))
  {
    var o := CommandObject(DeviceUnpair(device), id).value;
    assert TypeOf(o) == Ok(TypeDeviceUnpairCmd) by {
      TypeOfTagged(o, TypeDeviceUnpairCmd);
    }
    assert ToUnpairCommand(o) == Ok(DeviceUnpair(device)) by {
      DeviceParseToString(device);
    }
    ToCommandDispatch(o, TypeDeviceUnpairCmd);
  }

  /** The nested "values" object of set_values_cmd reads back its module and value. */
  lemma SetValuePayload(m: ModuleID, v: Double)
    requires m < 0x1_0000
    ensures GetModuleID(WithValue(WithModuleID(map[], m), v)) == Ok(m)
    ensures GetValue(WithValue(WithModuleID(map[], m), v)) == Ok(v)
  {
    ModuleParseToString(m);
    ValueRoundTrip(WithModuleID(map[], m), v);
  }

  lemma SetValueFields(device: DeviceID, moduleId: ModuleID, value: Double, timeout: Micros, id: GlobalID)
    requires moduleId < 0x1_0000 && timeout % MICROS_PER_SECOND == 0
    ensures ToSetValueCommand(SetValueObject(device, moduleId, value, timeout)["id" := JString(id)]) ==
      Ok(DeviceSetValue(device, moduleId, value, timeout))
  {
    var o := SetValueObject(device, moduleId, value, timeout)["id" := JString(id)];
    assert GetDeviceID(o) == Ok(device) by {
      DeviceParseToString(device);
    }
    assert ExtractInt(o, "timeout") == Ok(TotalSeconds(timeout));
    SetValuePayload(moduleId, value);
    SecondsRoundTrip(timeout);
  }

  lemma SetValueRoundTrip(c: Command, id: GlobalID)
    requires c.DeviceSetValue? && WireCommand(c)
    ensures ToCommand(CommandObject(c, id).value) == Ok(c)
  {
    var o := CommandObject(c, id).value;
    assert TypeOf(o) == Ok(TypeSetValuesCmd) by {
      TypeOfTagged(o, TypeSetValuesCmd);
    }
    SetValueFields(c.device, c.moduleId, c.value, c.timeout, id);
    ToCommandDispatch(o, TypeSetValuesCmd);
  }

  lemma DeviceListCmdRoundTrip(prefix: DevicePrefix, id: GlobalID)
    ensures ToCommand(CommandObject(ServerDeviceList(prefix), id).value) == Ok(ServerDeviceList(prefix))
  {
    var o := CommandObject(ServerDeviceList(prefix), id).value;
    assert TypeOf(o) == Ok(TypeDeviceListCmd) by {
      TypeOfTagged(o, TypeDeviceListCmd);
    }
    assert ToDeviceListCommand(o) == Ok(ServerDeviceList(prefix)) by {
      PrefixRoundTrips(prefix);
    }
    ToCommandDispatch(o, TypeDeviceListCmd);
  }

  lemma LastValueCmdRoundTrip(device: DeviceID, moduleId: ModuleID, id: GlobalID)
    requires moduleId < 0x1_0000
    ensures ToCommand(CommandObject(ServerLastValue(device, moduleId), id).value) == Ok(ServerLastValue(device, moduleId))
  {
    var o := CommandObject(ServerLastValue(device, moduleId), id).value;
    assert TypeOf(o) == Ok(TypeDeviceLastValueCmd) by {
      TypeOfTagged(o, TypeDeviceLastValueCmd);
    }
    assert GetDeviceID(o) == Ok(device) by {
      assert o["device_id"] == JString(DeviceToString(device));
      DeviceParseToString(device);
    }
    assert GetModuleID(o) == Ok(moduleId) by {
      assert o["module_id"] == JString(ModuleToString(moduleId));
      ModuleParseToString(moduleId);
    }
    ToCommandDispatch(o, TypeDeviceLastValueCmd);
  }

  /** Each command's payload and message id survive the trip through its message. */
  lemma CommandRoundTrip(c: Command, id: GlobalID)
    requires WireCommand(c)
    ensures CommandObject(c, id).Some?
    ensures ToCommand(CommandObject(c, id).value) == Ok(c)
    ensures MessageId(CommandObject(c, id).value) == Ok(id)
  {
    match c
    case GatewayListen(duration) => ListenRoundTrip(duration, id);
    case DeviceUnpair(device) => UnpairRoundTrip(device, id);
    case DeviceSetValue(_, _, _, _) => SetValueRoundTrip(c, id);
    case ServerDeviceList(prefix) => DeviceListCmdRoundTrip(prefix, id);
    case ServerLastValue(device, moduleId) => LastValueCmdRoundTrip(device, moduleId, id);
  }

  function DeviceListArray(devices: seq<DeviceID>): (items: seq<Json>)
    ensures |items| == |devices|
  {
    if |devices| == 0 then []
    else DeviceListArray(devices[..|devices| - 1]) + [JObject(WithDeviceID(map[], devices[|devices| - 1]))]
  }

  function DecodeDeviceList(items: seq<Json>): Result<seq<DeviceID>, Exception>
  {
    if |items| == 0 then Ok([])
    else
      var init := DecodeDeviceList(items[..|items| - 1]);
      if init.Err? then init
      else
        var last := items[|items| - 1];
        if !last.JObject? then Err(NullPointer)
        else
          var d := GetDeviceID(last.fields);
          if d.Err? then Err(d.error) else Ok(init.value + [d.value])
  }

  lemma {:induction false} DeviceListRoundTrip(devices: seq<DeviceID>)
    ensures DecodeDeviceList(DeviceListArray(devices)) == Ok(devices)
    decreases |devices|
  {
    if |devices| > 0 {
      var n := |devices| - 1;
      var init := devices[..n];
      assert init + [devices[n]] == devices;
      DeviceListRoundTrip(init);
      DeviceFieldRoundTrip(map[], devices[n]);
      DecodeDeviceListSnoc(DeviceListArray(init), init, JObject(WithDeviceID(map[], devices[n])), devices[n]);
    }
  }

  /** Decoding one more object that carries a device ID appends that ID. */
  lemma DecodeDeviceListSnoc(items: seq<Json>, init: seq<DeviceID>, last: Json, d: DeviceID)
    requires DecodeDeviceList(items) == Ok(init)
    requires last.JObject? && GetDeviceID(last.fields) == Ok(d)
    ensures DecodeDeviceList(items + [last]) == Ok(init + [d])
  {
    assert (items + [last])[..|items|] == items;
  }

  /** fromResult: the message shape follows the kind of Result. */
  function ResultObject(r: ResultRecord, id: GlobalID): Object
  {
    match r.payload
    case DeviceList(devices) =>
      map["message_type" := JString(TypeName(TypeDeviceListResult)),
          "id" := JString(id),
          "result_status" := JInt(StatusRaw(r.status)),
          "device_list" := JArray(DeviceListArray(devices))]
    case LastValue(value) =>
      map["message_type" := JString(TypeName(TypeDeviceLastValueResult)),
          "id" := JString(id),
          "result_status" := JInt(StatusRaw(r.status)),
          "values" := JObject(WithValue(map[], value))]
    case _ =>
      map["message_type" := JString(TypeName(TypeDefaultResult)),
          "id" := JString(id),
          "result_status" := JInt(StatusRaw(r.status))]
  }

  /** The "result_status" of a result message; a raw value outside Result::Status is rejected. */
  function ReadStatus(o: Object): Result<Status, Exception>
  {
    var raw := ExtractInt(o, "result_status");
    if raw.Err? then Err(raw.error)
    else
      var status := StatusFromRaw(raw.value);
      if status.None? then Err(InvalidArgument) else Ok(status.value)
  }

  /**
   * toDefaultResult / toServerDeviceListResult / toServerLastValueResult:
   * the received status (and list or value) written into an existing Result.
   */
  function ApplyResult(o: Object, r: ResultRecord): Result<ResultRecord, Exception>
  {
    var status := ReadStatus(o);
    if status.Err? then Err(status.error)
    else match r.payload
        case DeviceList(_) =>
          if "device_list" !in o || !o["device_list"].JArray? then Err(NullPointer)
          else
            var devices := DecodeDeviceList(o["device_list"].items);
            if devices.Err? then Err(devices.error)
            else Ok(ResultRecord(status.value, DeviceList(devices.value)))
        case LastValue(_) =>
          if "values" !in o || !o["values"].JObject? then Err(NullPointer)
          else
            var v := GetValue(o["values"].fields);
            if v.Err? then Err(v.error) else Ok(ResultRecord(status.value, LastValue(v.value)))
        case _ => Ok(r.(status := status.value))
  }

  /** Results of the same kind as the one sent take over its status and payload. */
  predicate SameKind(a: ResultRecord, b: ResultRecord)
  {
    (a.payload.DeviceList? <==> b.payload.DeviceList?) &&
    (a.payload.LastValue? <==> b.payload.LastValue?) &&
    (a.payload.Plain? || a.payload.SetValue? ==> a.payload == b.payload)
  }

  lemma ResultRoundTrip(r: ResultRecord, target: ResultRecord, id: GlobalID)
    requires SameKind(r, target)
    ensures MessageId(ResultObject(r, id)) == Ok(id)
    ensures ApplyResult(ResultObject(r, id), target) == Ok(r)
  {
    var o := ResultObject(r, id);
    assert ExtractInt(o, "result_status") == Ok(StatusRaw(r.status));
    assert StatusFromRaw(StatusRaw(r.status)) == Some(r.status);
    match r.payload
    case DeviceList(devices) =>
      assert o["device_list"] == JArray(DeviceListArray(devices));
      DeviceListRoundTrip(devices);
    case LastValue(value) =>
      assert o["values"] == JObject(WithValue(map[], value));
      ValueRoundTrip(map[], value);
    case _ =>
  }

  /** The message types of the result messages. */
  lemma ResultTypes(r: ResultRecord, id: GlobalID)
    ensures TypeOf(ResultObject(r, id)) ==
      Ok(if r.payload.DeviceList? then TypeDeviceListResult
         else if r.payload.LastValue? then TypeDeviceLastValueResult
         else TypeDefaultResult)
  {
    var o := ResultObject(r, id);
    match r.payload
    case DeviceList(_) => TypeOfTagged(o, TypeDeviceListResult);
    case LastValue(_) => TypeOfTagged(o, TypeDeviceLastValueResult);
    case _ => TypeOfTagged(o, TypeDefaultResult);
  }

  /** type() on "{}" throws InvalidAccessException; fromJSON on non-JSON throws SyntaxException. */
  lemma ParseFailureExamples()
    ensures TypeOf(map[]) == Err(InvalidAccess)
    ensures FromJSON(Malformed) == Err(Syntax)
    ensures TypeOf(map["message_type" := JString("error")]) == Ok(TypeError)
  {
    ErrorNameExample();
  }

  // ------------------------------------------------------------ the message object

  /** ZMQMessage: the set* helpers update its JSON object in place. */
  class Message {
    var json: Object

    constructor ()
      ensures json == map[]
    {
      json := map[];
    }

    /** ZMQMessage(JSON::Object::Ptr): wraps a parsed object. */
    constructor FromObject(o: Object)
      ensures json == o
    {
      json := o;
    }

    function Type(): Result<MessageType, Exception>
      reads this
    {
      TypeOf(json)
    }

    method SetType(t: MessageType)
      modifies this
      ensures json == WithType(old(json), t)
    {
      json := json["message_type" := JString(TypeName(t))];
    }

    method SetID(id: GlobalID)
      modifies this
      ensures json == WithID(old(json), id)
    {
      json := json["id" := JString(id)];
    }

    method SetErrorCode(code: ErrorCode)
      modifies this
      ensures json == old(json)["error_code" := JInt(ErrorRaw(code))]
    {
      json := json["error_code" := JInt(ErrorRaw(code))];
    }

    method SetErrorMessage(text: string)
      modifies this
      ensures json == old(json)["error_message" := JString(text)]
    {
      json := json["error_message" := JString(text)];
    }

    method SetDeviceManagerPrefix(p: DevicePrefix)
      modifies this
      ensures json == old(json)["device_manager_prefix" := JString(PrefixName(p))]
    {
      json := json["device_manager_prefix" := JString(PrefixName(p))];
    }

    method SetDeviceManagerID(id: DeviceManagerID)
      modifies this
      ensures json == old(json)["device_manager_id" := JString(ManagerToString(id))]
    {
      json := json["device_manager_id" := JString(ManagerToString(id))];
    }

    method SetDeviceID(d: DeviceID)
      modifies this
      ensures json == WithDeviceID(old(json), d)
    {
      json := json["device_id" := JString(DeviceToString(d))];
    }

    method SetValues(items: seq<Json>)
      modifies this
      ensures json == old(json)["values" := JArray(items)]
    {
      json := json["values" := JArray(items)];
    }

    static method FromError(code: ErrorCode, text: string) returns (m: Message)
      ensures fresh(m) && m.json == ErrorObject(code, text)
    {
      m := new Message();
      m.SetType(TypeError);
      m.SetErrorCode(code);
      m.SetErrorMessage(text);
    }

    static method FromHelloRequest(p: DevicePrefix) returns (m: Message)
      ensures fresh(m) && m.json == HelloRequestObject(p)
    {
      m := new Message();
      m.SetType(TypeHelloRequest);
      m.SetDeviceManagerPrefix(p);
    }

    static method FromHelloResponse(id: DeviceManagerID) returns (m: Message)
      ensures fresh(m) && m.json == HelloResponseObject(id)
    {
      m := new Message();
      m.SetType(TypeHelloResponse);
      m.SetDeviceManagerID(id);
    }

    /** fromSensorData: one array item per value, built in iteration order. */
    static method FromSensorData(d: SensorData) returns (m: Message)
      ensures fresh(m) && m.json == SensorDataObject(d)
    {
      m := new Message();
      m.SetType(TypeMeasuredValues);
      m.SetDeviceID(d.device);
      var items: seq<Json> := [];
      var i := 0;
      while i < |d.values|
        invariant 0 <= i <= |d.values|
        invariant items == ValuesArray(d.values[..i])
      {
        assert d.values[..i + 1][..i] == d.values[..i];
        items := items + [JObject(WithSensorValue(map[], d.values[i]))];
        i := i + 1;
      }
      assert d.values[..i] == d.values;
      m.SetValues(items);
    }

    /** toSensorData: the device ID, then the array items read one by one. */
    method ReadSensorData() returns (r: Result<SensorData, Exception>)
      ensures r == ToSensorData(json)
    {
      var device := GetDeviceID(json);
      if device.Err? {
        return Err(device.error);
      }
      if "values" !in json || !json["values"].JArray? {
        return Err(NullPointer);
      }
      var items := json["values"].items;
      var values: seq<SensorValue> := [];
      var i := 0;
      while i < |items|
        invariant 0 <= i <= |items|
        invariant DecodeValues(items[..i]) == Ok(values)
      {
        assert items[..i + 1][..i] == items[..i];
        if !items[i].JObject? {
          DecodeStopsAtError(items, i + 1);
          return Err(NullPointer);
        }
        var sv := GetSensorValue(items[i].fields);
        if sv.Err? {
          DecodeStopsAtError(items, i + 1);
          return Err(sv.error);
        }
        values := values + [sv.value];
        i := i + 1;
      }
      assert items[..i] == items;
      return Ok(SensorData(device.value, values));
    }
  }

  /** Once a prefix of the items fails to decode, the whole array fails with the same error. */
  lemma {:induction false} DecodeStopsAtError(items: seq<Json>, k: nat)
    requires k <= |items| && DecodeValues(items[..k]).Err?
    ensures DecodeValues(items) == DecodeValues(items[..k])
    decreases |items| - k
  {
    if k < |items| {
      assert items[..k + 1][..k] == items[..k];
      DecodeStopsAtError(items, k + 1);
    } else {
      assert items[..k] == items;
    }
  }
}
