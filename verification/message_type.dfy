/**
 * The wire vocabulary: ZMQMessageType's raw-to-name table, the error codes
 * of ZMQMessageError and the single value type of ZMQMessageValueType.
 */
module MessageTypes {
  import opened Wrappers

  datatype MessageType =
    | TypeError
    | TypeDefaultResult
    | TypeDeviceLastValueCmd
    | TypeDeviceLastValueResult
    | TypeDeviceListCmd
    | TypeDeviceListResult
    | TypeDeviceUnpairCmd
    | TypeHelloResponse
    | TypeHelloRequest
    | TypeListenCmd
    | TypeMeasuredValues
    | TypeSetValuesCmd

  /** The table valueMap, in its own order. */
  const AllTypes: seq<MessageType> := [
    TypeError, TypeDefaultResult, TypeDeviceLastValueCmd, TypeDeviceLastValueResult,
    TypeDeviceListCmd, TypeDeviceListResult, TypeDeviceUnpairCmd, TypeHelloResponse,
    TypeHelloRequest, TypeListenCmd, TypeMeasuredValues, TypeSetValuesCmd]

  function TypeName(t: MessageType): string
  {
    match t
    case TypeError => "error"
    case TypeDefaultResult => "default_result"
    case TypeDeviceLastValueCmd => "device_last_value_cmd"
    case TypeDeviceLastValueResult => "device_last_value_result"
    case TypeDeviceListCmd => "device_list_cmd"
    case TypeDeviceListResult => "device_list_result"
    case TypeDeviceUnpairCmd => "device_unpair_cmd"
    case TypeHelloResponse => "hello_response"
    case TypeHelloRequest => "hello_request"
    case TypeListenCmd => "listen_cmd"
    case TypeMeasuredValues => "measured_values"
    case TypeSetValuesCmd => "set_values_cmd"
  }

  /** parse: the first table entry with that name; an unknown name throws InvalidArgumentException. */
  function ParseType(name: string): (r: Result<MessageType, Exception>)
    ensures r.Ok? ==> TypeName(r.value) == name
    ensures r.Err? ==> r.error == InvalidArgument
  {
    ParseFrom(AllTypes, name)
  }

  function ParseFrom(table: seq<MessageType>, name: string): (r: Result<MessageType, Exception>)
    ensures r.Ok? ==> TypeName(r.value) == name
    ensures r.Err? ==> r.error == InvalidArgument
  {
    if |table| == 0 then Err(InvalidArgument)
    else if TypeName(table[0]) == name then Ok(table[0])
    else ParseFrom(table[1..], name)
  }

  /** The table lists each of the twelve types exactly once. */
  lemma TableComplete(t: MessageType)
    ensures |AllTypes| == 12
    ensures t in AllTypes
    ensures forall i, j :: 0 <= i < j < |AllTypes| ==> AllTypes[i] != AllTypes[j]
  {
  }

  /** Names are pairwise distinct, so name and type determine each other. */
  lemma NamesDistinct(a: MessageType, b: MessageType)
    ensures TypeName(a) == TypeName(b) ==> a == b
  {
  }

  /** parse(toString(t)) == t for every type. */
  lemma ParseTypeName(t: MessageType)
    ensures ParseType(TypeName(t)) == Ok(t)
  {
    TableComplete(t);
    ParseFromFinds(AllTypes, t);
  }

  lemma {:induction false} ParseFromFinds(table: seq<MessageType>, t: MessageType)
    requires t in table
    ensures ParseFrom(table, TypeName(t)) == Ok(t)
    decreases |table|
  {
    if TypeName(table[0]) == TypeName(t) {
      NamesDistinct(table[0], t);
    } else {
      ParseFromFinds(table[1..], t);
    }
  }

  lemma ParseTypeRejects(name: string)
    requires forall t :: TypeName(t) != name
    ensures ParseType(name) == Err(InvalidArgument)
  {
    ParseFromRejects(AllTypes, name);
  }

  /** A name no entry carries is not found. */
  lemma {:induction false} ParseFromRejects(table: seq<MessageType>, name: string)
    requires forall t :: t in table ==> TypeName(t) != name
    ensures ParseFrom(table, name).Err?
    decreases |table|
  {
    if |table| > 0 {
      assert table[0] in table;
      ParseFromRejects(table[1..], name);
    }
  }

  /** Only the twelve names parse. */
  lemma {:induction false} ParseFromOnlyNames(table: seq<MessageType>, name: string)
    requires ParseFrom(table, name).Err?
    ensures forall t :: t in table ==> TypeName(t) != name
    decreases |table|
  {
    if |table| > 0 {
      ParseFromOnlyNames(table[1..], name);
    }
  }

  lemma ErrorNameExample()
    ensures ParseType("error") == Ok(TypeError)
  {
    ParseTypeName(TypeError);
  }

  /** ZMQMessageError::Error; ERROR_MAXIMUM_DEVICE_MANAGERS follows the three listed in the header. */
  datatype ErrorCode = ErrorJsonSyntax | ErrorMissingAttribute | ErrorUnsupportedMessage | ErrorMaximumDeviceManagers

  function ErrorRaw(e: ErrorCode): int
  {
    match e
    case ErrorJsonSyntax => 0
    case ErrorMissingAttribute => 1
    case ErrorUnsupportedMessage => 2
    case ErrorMaximumDeviceManagers => 3
  }

  /** ZMQMessageValueType: "double" is its only name. */
  datatype ValueType = TypeDouble

  function ValueTypeName(v: ValueType): string { "double" }

  function ParseValueType(name: string): (r: Result<ValueType, Exception>)
    ensures r.Ok? <==> name == "double"
    ensures r.Err? ==> r.error == InvalidArgument
  {
    if name == "double" then Ok(TypeDouble) else Err(InvalidArgument)
  }
}
