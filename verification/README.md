# BeeeOn gateway core in Dafny

This project models the core of the BeeeOn gateway. The gateway connects
home-automation devices to a BeeeOn server. Its parts are:

- **The ZeroMQ broker** (`ZMQBroker`). It registers device managers on a
  *hello* socket and assigns each one a 16-bit `DeviceManagerID` (a prefix
  byte above an ident byte). It fans server commands out to the matching
  managers on a *data* socket and correlates their `default_result`
  replies with the waiting `Answer`. It forwards dirty Answers and
  escalates set-value results on every tick of a settings timer.
- **The device-manager side.**
  - `ZMQConnector` parses a frame and answers a bad one with an error message.
  - `ZMQClient` runs the hello handshake and then delivers data messages.
  - `ZMQDeviceManagerTable` hands out idents.
- **The wire codec** (`ZMQMessage`, `ZMQMessageType`, `ZMQMessageError`).
  It is a JSON object with a `message_type` attribute. The codec has
  builders and readers for errors, hellos, sensor data, the five commands
  and their results.
- **`Answer` and `DeviceSetValueResult`.** These are the result
  containers that handlers fill in, with a dirty flag and a shared lock.
- **`FakeHandlerTest`.** This command handler stands in for the server
  and answers device-list and last-value requests.
- **The Jablotron daemon** (`JablotronDeviceManager`).
  - It turns dongle reports (`[serial] TYPE FIELD:value ...`) into sensor data.
  - It drains its Answers.
  - It writes the PGX/PGY switch command back to the dongle with bounded retransmission.
- **The Z-Wave side.**
  - `ZWaveMessage` does first-match value lookups and the EUID layout.
  - Five product classes (Aeotec ZW100, D-Link DCH-Z120, Philio PST02-1C,
    Fibaro FGK107 and Popp 123601) extract BeeeOn modules and write
    configuration values.
  - `GenericZWaveMessageFactory` keeps a manufacturer registry.
  - `NotificationProcessor` keeps the node map and sends changed values
    to the server.

Each source component is one Dafny module in its own file. `wrappers.dfy`
holds `Option`, `Result` and the Poco exception kinds. `numerals.dfy`
holds the number/text conversions.

State the source changes in place is modelled as classes whose methods
state the new state:
- `Broker.Broker`, `ManagerTable.DeviceManagerTable` and `Answers.Answer`;
- `Connector.Connector`, `Client.Client` and `Messages.Message`;
- `FakeHandler.FakeHandlerTest`, `Jablotron.JablotronManager`,
  `ZWaveFactory.GenericFactory` and `ZWaveNotifications.NotificationProcessor`.

Pure conversions and lookups are functions, each with lemmas about it.

Two substitutions run through the whole model:
- **Sockets** are output logs (`seq` of sent messages), and receives are
  input sequences.
- **The clock, fresh message ids and the Z-Wave library's answers** are
  parameters.

Where the documentation and the code disagree, the model follows the code:
- `ZMQMessageType.h` lists nine enumerators, while the table in
  `ZMQMessageType.cpp` has twelve names. The model uses the twelve.
- The header comment of `ZMQMessage.h` names the status attribute
  `result_state`. The wire layouts in `test/zmq/ZMQMessageTest.cpp` use
  `result_status`, and so does the model.

## Model

| member | source | states |
|---|---|---|
| Numerals.FormatHexDecodes | src/model/DeviceManagerID.cpp:48-51 | the upper-case hex text formatHex writes reads back as the same number |
| Numerals.FormatHexNoX | test/model/DeviceManagerIDTest.cpp:32 | formatHex writes no "0x" prefix: no character of its text is 'x' or 'X' |
| Numerals.ParseHexBounded | src/model/DeviceManagerID.cpp:40 | parseHex (one optional "0x"/"0X", then hex digits) returns a value below the bound; any failure is a SyntaxException |
| Numerals.ParseFormatHex | src/model/DeviceManagerID.cpp:36-51 | parseHex reads back every number formatHex writes, when it fits the bound |
| Numerals.FormatDecimalDecodes | src/zmq/ZMQMessage.cpp:71-75 | the decimal text of a ModuleID reads back as the same number |
| Numerals.ParseUnsignedBounded | src/jablotron/JablotronDeviceManager.cpp:262 | parseUnsigned returns a value below 2^32 (2^64 for parseUnsigned64); any failure is a SyntaxException |
| Numerals.ParseFormatDecimal | src/zmq/ZMQMessage.cpp:128-132 | parseUnsigned reads back every decimal text, when the number fits the bound |
| Numerals.FormatInt | src/jablotron/JablotronDeviceManager.cpp:596-597 | to_string of an int is non-empty and starts with '-' exactly when the int is negative |
| Numerals.ParseInt | src/z-wave/ZWaveMessage.cpp:43 | NumberParser::parse yields only values in the 32-bit signed range |
| Numerals.ParseDecimalOfNumeral | src/jablotron/JablotronDeviceManager.cpp:603-607 | parseFloat of the decimal text of a natural number is that number |
| Identity.PrefixRaw | src/model/DeviceManagerID.cpp:22-27 | the raw byte of a prefix is 0 exactly for PREFIX_INVALID |
| Identity.PrefixName | src/zmq/ZMQMessage.cpp:55-58 | every prefix has a non-empty name for the device_manager_prefix attribute |
| Identity.PrefixFromRaw | src/model/DeviceManagerID.cpp:53-56 | fromRaw returns the prefix whose raw byte it was given; a byte no prefix has is an InvalidArgumentException |
| Identity.PrefixParse | src/zmq/ZMQMessage.cpp:116-120 | DevicePrefix::parse returns the prefix with that name; a name no prefix has is an InvalidArgumentException |
| Identity.PrefixRoundTrips | test/zmq/ZMQMessageTest.cpp:128-137 | every prefix survives fromRaw(raw()) and parse(toString()) |
| Identity.Ident | src/model/DeviceManagerID.h:29-32 | ident() is the low byte of the 16-bit value |
| Identity.IsValid | src/model/DeviceManagerID.h:34-37 | isValid() holds exactly for the all-zero ID, the default-constructed one |
| Identity.ManagerPrefix | src/model/DeviceManagerID.cpp:53-56 | prefix() is the prefix whose raw byte is the high byte of the value |
| Identity.ManagerFromValue | src/model/DeviceManagerID.cpp:19-28 | the constructor from a 16-bit value succeeds exactly when the high byte is 0xa1, 0xa8 or 0xa9 and keeps the value; otherwise it throws InvalidArgumentException |
| Identity.FromPartsProjects | src/model/DeviceManagerID.cpp:30-34 | the ID built from a prefix and an ident is prefix.raw << 8 \| ident, and prefix() and ident() give the parts back |
| Identity.ManagerSplits | src/model/DeviceManagerID.h:24-32 | every ID with a known prefix is the ID built from its prefix() and ident() |
| Identity.ManagerToString | src/model/DeviceManagerID.cpp:48-51 | toString is formatHex of the value, never empty |
| Identity.ParseToString | test/zmq/ZMQMessageTest.cpp:150-156 | parse(toString(id)) == id for every constructible ID |
| Identity.ParseAccepts | src/model/DeviceManagerID.cpp:36-46 | whatever parse accepts is hex text of a value up to 0xFFFF whose high byte names a valid prefix |
| Identity.FromPartsConstructible | test/model/DeviceManagerIDTest.cpp:35-46 | an ID built from a valid prefix and any ident is constructible and its text round-trips |
| Identity.ManagerOrderTotal | src/model/DeviceManagerID.h:45-73 | the comparison operators form a strict total order, and equality is equality of the values |
| Identity.ManagerValueExamples | test/model/DeviceManagerIDTest.cpp:26-65 | 0xa1aa gives prefix Fitprotocol and ident 0xaa; the values 0 and 0xffff throw InvalidArgumentException |
| Identity.ManagerTextExamples | test/model/DeviceManagerIDTest.cpp:48-55 | parse("0xa112") is the Fitprotocol ID with ident 0x12, and 0xa100 prints as "A100" |
| Identity.ManagerRangeExample | test/model/DeviceManagerIDTest.cpp:68 | parse("99999999") throws RangeException |
| Identity.MakeDeviceID | src/zmq/FakeHandlerTest.cpp:139-151 | a DeviceID built from a prefix and an ident has that prefix and the ident's low 56 bits |
| Identity.DeviceToString | test/zmq/ZMQMessageTest.cpp:163 | the text of a DeviceID is "0x" followed by sixteen hex digits |
| Identity.DeviceParseToString | src/zmq/ZMQMessage.cpp:122-126 | DeviceID::parse reads back every DeviceID's text |
| Identity.ModuleParseToString | src/zmq/ZMQMessage.cpp:128-132 | ModuleID::parse reads back the text of every 16-bit ModuleID |
| SensorModel.Truncate | src/z-wave/products/AeotecZW100ZWaveMessage.cpp:89 | int(value) truncates toward zero: the result lies within one of the value on the side of zero, and NaN has no integer |
| MessageTypes.ParseType | src/zmq/ZMQMessageType.cpp:5-23 | parse returns a type whose name is the given text; an unknown name is an InvalidArgumentException |
| MessageTypes.ParseFrom | src/zmq/ZMQMessageType.cpp:7-20 | a lookup in any sub-table returns only an entry carrying the name, or InvalidArgumentException |
| MessageTypes.TableComplete | src/zmq/ZMQMessageType.cpp:7-20 | the table has twelve entries, lists every type and repeats none |
| MessageTypes.NamesDistinct | src/zmq/ZMQMessageType.cpp:8-19 | no two types share a name |
| MessageTypes.ParseTypeName | src/zmq/ZMQMessageType.cpp:7-20 | parse(toString(t)) == t for every type |
| MessageTypes.ParseFromFinds | src/zmq/ZMQMessageType.cpp:7-20 | looking up the name of any type the table lists finds that type |
| MessageTypes.ParseTypeRejects | src/zmq/ZMQMessageType.cpp:7-20 | a name that no type has is rejected with InvalidArgumentException |
| MessageTypes.ParseFromRejects | src/zmq/ZMQMessageType.cpp:7-20 | a lookup fails when no listed entry carries the name |
| MessageTypes.ParseFromOnlyNames | src/zmq/ZMQMessageType.cpp:7-20 | a lookup fails only when no listed entry carries the name |
| MessageTypes.ErrorNameExample | src/zmq/ZMQMessageType.cpp:8 | "error" parses to TYPE_ERROR |
| MessageTypes.ParseValueType | src/zmq/ZMQMessageValueType.cpp:8-10 | the value type parses exactly from "double"; any other name is an InvalidArgumentException |
| Commands.StatusFromRaw | src/zmq/ZMQMessage.h:241-247 | a raw result_state reads back only as the Result::Status with that raw value; any other number has none |
| Commands.WithExtendedSetStatus | src/commands/DeviceSetValueResult.cpp:17-22 | setExtendetSetStatusUnlocked keeps the result a set-value result and leaves its Result::Status alone |
| Commands.SetThenGet | src/commands/DeviceSetValueResult.cpp:10-34 | extendetSetStatus() returns the status last written, and a later write overrides an earlier one |
| Messages.FromJSON | src/zmq/ZMQMessage.cpp:224-227 | fromJSON fails exactly on text that is not a JSON object, and then with SyntaxException |
| Messages.ExtractString | src/zmq/ZMQMessage.cpp:111-114 | reading an absent string attribute throws InvalidAccessException; a present string attribute is returned as is |
| Messages.ExtractInt | src/zmq/ZMQMessage.cpp:105-109 | reading an absent integer attribute throws InvalidAccessException; a present integer is returned as is |
| Messages.TypeOf | src/zmq/ZMQMessage.cpp:23-28 | type() fails with InvalidAccessException without "message_type"; a type it returns is the one whose name the attribute holds |
| Messages.GetValue | src/zmq/ZMQMessage.cpp:145-154 | getValue succeeds only when "type" is "double" |
| Messages.DeviceFieldRoundTrip | src/zmq/ZMQMessage.cpp:65-69 | getDeviceID reads back the DeviceID setDeviceID wrote, whatever else the object holds |
| Messages.ModuleFieldRoundTrip | src/zmq/ZMQMessage.cpp:71-75 | getModuleID reads back the 16-bit ModuleID setModuleID wrote |
| Messages.ValueRoundTrip | src/zmq/ZMQMessage.cpp:89-96 | getValue reads back the value setValue wrote, NaN included |
| Messages.OtherValueTypeRejected | src/zmq/ZMQMessage.cpp:145-154 | a "type" other than "double" makes getValue throw InvalidArgumentException before the value is read |
| Messages.SensorValueRoundTrip | src/zmq/ZMQMessage.cpp:98-103 | getSensorValue reads back the module and value setSensorValue wrote |
| Messages.ErrorRoundTrip | src/zmq/ZMQMessage.cpp:167-178 | the message fromError builds has type error, and toError gives back the raw code and the text |
| Messages.HelloRequestRoundTrip | src/zmq/ZMQMessage.cpp:180-189 | the message fromHelloRequest builds has type hello_request, and toHelloRequest gives back the prefix |
| Messages.HelloResponseRoundTrip | src/zmq/ZMQMessage.cpp:191-200 | the message fromHelloResponse builds has type hello_response, and toHelloResponse gives back an equal DeviceManagerID |
| Messages.HelloResponseExample | test/zmq/ZMQMessageTest.cpp:140-157 | the ID 0xa100 travels as "A100" |
| Messages.ValuesArray | src/zmq/ZMQMessage.cpp:202-222 | the "values" array has one item per SensorValue |
| Messages.ValuesRoundTrip | src/zmq/ZMQMessage.cpp:245-255 | reading the "values" array gives back every written value in order |
| Messages.SensorDataRoundTrip | test/zmq/ZMQMessageTest.cpp:159-196 | toSensorData(fromSensorData(d)) gives back d, and the message has type measured_values |
| Messages.DecodeStopsAtError | src/zmq/ZMQMessage.cpp:245-255 | once an array item cannot be read, reading the whole array fails with that item's exception |
| Messages.CommandObject | src/zmq/ZMQMessage.h:114 | fromCommand gives a message for listen, unpair, set-value, device-list and last-value commands and for no other command |
| Messages.CommandFields | src/zmq/ZMQMessageType.h:62-103 | every command with a wire form has its attributes; other commands have none |
| Messages.ToCommandDispatch | src/zmq/ZMQMessage.h:86-96 | each command type is read by its own to*Command reader; other types are not commands |
| Messages.TypeOfTagged | src/zmq/ZMQMessage.cpp:23-28 | an object whose "message_type" holds a type's name reads back as that type |
| Messages.SecondsRoundTrip | test/zmq/ZMQMessageTest.cpp:200-218 | a whole number of seconds survives totalSeconds and the conversion back to microseconds |
| Messages.ListenRoundTrip | test/zmq/ZMQMessageTest.cpp:198-219 | listen_cmd gives back its duration |
| Messages.UnpairRoundTrip | test/zmq/ZMQMessageTest.cpp:404-426 | device_unpair_cmd gives back its device |
| Messages.SetValuePayload | test/zmq/ZMQMessageTest.cpp:253-257 | the nested "values" object of set_values_cmd gives back its module and value |
| Messages.SetValueFields | test/zmq/ZMQMessageTest.cpp:245-278 | toDeviceSetValueCommand gives back device, module, value and whole-second timeout |
| Messages.SetValueRoundTrip | test/zmq/ZMQMessageTest.cpp:245-278 | set_values_cmd read through the type dispatch gives back the command |
| Messages.DeviceListCmdRoundTrip | test/zmq/ZMQMessageTest.cpp:280-303 | device_list_cmd gives back its prefix |
| Messages.LastValueCmdRoundTrip | test/zmq/ZMQMessageTest.cpp:348-373 | device_last_value_cmd gives back its device and module |
| Messages.CommandRoundTrip | src/zmq/ZMQMessage.h:86-116 | every command with a wire form has a message, reads back as the same command, and keeps its message id |
| Messages.DeviceListArray | test/zmq/ZMQMessageTest.cpp:309-319 | the "device_list" array has one object per device |
| Messages.DeviceListRoundTrip | test/zmq/ZMQMessageTest.cpp:305-346 | reading the "device_list" array gives back the devices in order |
| Messages.DecodeDeviceListSnoc | test/zmq/ZMQMessageTest.cpp:309-319 | reading one more object that holds a device ID appends that ID |
| Messages.ResultRoundTrip | test/zmq/ZMQMessageTest.cpp:221-243 | applying a result message to a Result of the same kind gives back the sent status, and the list or value, and keeps the id |
| Messages.ResultTypes | src/zmq/ZMQMessage.h:116-131 | fromResult tags device-list results device_list_result, last-value results device_last_value_result and every other result default_result |
| Messages.ParseFailureExamples | test/zmq/ZMQMessageTest.cpp:72-88 | type() of "{}" throws InvalidAccessException, text that is not JSON throws SyntaxException, and "error" is TYPE_ERROR |
| Messages.Message.constructor | src/zmq/ZMQMessage.cpp:13-16 | a new message holds an empty object |
| Messages.Message.FromObject | src/zmq/ZMQMessage.cpp:18-21 | the message wraps the parsed object |
| Messages.Message.SetType | src/zmq/ZMQMessage.cpp:40-43 | "message_type" is set to the type's name; nothing else changes |
| Messages.Message.SetID | src/zmq/ZMQMessage.h:68-74 | "id" is set; nothing else changes |
| Messages.Message.SetErrorCode | src/zmq/ZMQMessage.cpp:45-48 | "error_code" is set to the raw code; nothing else changes |
| Messages.Message.SetErrorMessage | src/zmq/ZMQMessage.cpp:50-53 | "error_message" is set; nothing else changes |
| Messages.Message.SetDeviceManagerPrefix | src/zmq/ZMQMessage.cpp:55-58 | "device_manager_prefix" is set to the prefix's name; nothing else changes |
| Messages.Message.SetDeviceManagerID | src/zmq/ZMQMessage.cpp:60-63 | "device_manager_id" is set to the ID's text; nothing else changes |
| Messages.Message.SetDeviceID | src/zmq/ZMQMessage.cpp:65-69 | "device_id" is set to the device's text; nothing else changes |
| Messages.Message.SetValues | src/zmq/ZMQMessage.cpp:202-222 | "values" is set to the array; nothing else changes |
| Messages.Message.FromError | src/zmq/ZMQMessage.cpp:167-178 | a fresh message holding exactly the error object |
| Messages.Message.FromHelloRequest | src/zmq/ZMQMessage.cpp:180-189 | a fresh message holding exactly the hello_request object |
| Messages.Message.FromHelloResponse | src/zmq/ZMQMessage.cpp:191-200 | a fresh message holding exactly the hello_response object |
| Messages.Message.FromSensorData | src/zmq/ZMQMessage.cpp:202-222 | a fresh message whose "values" array holds one item per value, in order, so SensorDataRoundTrip applies to it |
| Messages.Message.ReadSensorData | src/zmq/ZMQMessage.cpp:245-255 | the item-by-item read yields exactly the decoding of the whole message: the SensorData, or the first item's exception |
| Connector.ParseMessage | src/zmq/ZMQConnector.cpp:67-108 | parseMessage accepts only well-formed JSON, and an accepted message is the object as received |
| Connector.AcceptedIff | src/zmq/ZMQConnector.cpp:67-108 | a message is accepted exactly when it is JSON and its "message_type" holds one of the twelve names, and the type it is accepted with is the one named |
| Connector.MissingTypeRejected | src/zmq/ZMQConnector.cpp:75-84 | a message without "message_type" is answered with ERROR_MISSING_ATTRIBUTE, "missing attribute: message_type" |
| Connector.UnknownTypeRejected | src/zmq/ZMQConnector.cpp:86-95 | an unknown type name is answered with ERROR_MISSING_ATTRIBUTE, "unknown message_type" |
| Connector.MalformedRejected | src/zmq/ZMQConnector.cpp:96-105 | text that is not JSON is answered with ERROR_JSON_SYNTAX, "json syntax" |
| Connector.AddressIsTcp | src/zmq/ZMQConnector.cpp:53-65 | createAddress succeeds exactly when the host resolves, gives "tcp://" followed by the resolved address, and otherwise rethrows the resolver's exception |
| Connector.Connector.constructor | src/zmq/ZMQConnector.cpp:13-17 | a new connector is running (m_stop is 0) and has sent nothing |
| Connector.Connector.Stop | src/zmq/ZMQConnector.cpp:28-31 | stop() sets m_stop to 1 |
| Connector.Connector.SetDataServerHost | src/zmq/ZMQConnector.cpp:33-36 | the data host is set; nothing else changes |
| Connector.Connector.SetHelloServerHost | src/zmq/ZMQConnector.cpp:38-41 | the hello host is set; nothing else changes |
| Connector.Connector.SetDataServerPort | src/zmq/ZMQConnector.cpp:43-46 | the data port is set; nothing else changes |
| Connector.Connector.SetHelloServerPort | src/zmq/ZMQConnector.cpp:48-51 | the hello port is set; nothing else changes |
| Connector.Connector.Send | src/util/ZMQUtil.cpp:21-27 | exactly one message is appended to the socket's output |
| Connector.Connector.SendError | src/zmq/ZMQConnector.cpp:110-117 | exactly one error message, built by fromError, is appended to the named socket's output |
| Connector.Connector.Parse | src/zmq/ZMQConnector.cpp:67-108 | the outcome is ParseMessage's, and a rejection sends exactly one error message on the given socket; nothing is sent otherwise |
| Client.Delivered | src/zmq/ZMQClient.cpp:137-154 | the data phase delivers no more messages than it receives |
| Client.DeliveredAreAccepted | src/zmq/ZMQClient.cpp:149-153 | every delivered message is a received frame that parsed with a known type |
| Client.DeliveredCount | src/zmq/ZMQClient.cpp:149-153 | when every frame parses, all are delivered; when every frame is malformed, none is |
| Client.HelloStepEffects | src/zmq/ZMQClient.cpp:105-135 | a hello pass sends at most one message, always on the data socket, and none while that socket is null; only a hello_response changes the ID, to the ID it carries when that parses, and otherwise throws; an uncaught parse exception passes through; a rejected frame is answered with its error on the data socket, or throws NullPointerException while that socket is null, so before the data socket exists every frame other than a valid hello_response ends the run |
| Client.HelloResponseAssigns | src/zmq/ZMQClient.cpp:120-128 | a hello_response carrying a valid ID assigns exactly that ID and sends nothing, whether or not the data socket exists |
| Client.OtherTypeUnsupported | src/zmq/ZMQClient.cpp:129-133 | any other known type leaves the ID alone; it is answered with ERROR_UNSUPPORTED_MESSAGE on the data socket once that socket exists, and before that the null socket throws NullPointerException and nothing is sent |
| Client.FullTableReplyAborts | src/zmq/ZMQClient.cpp:129-133 | the error reply a full broker sends to a hello_request ends a client that has no ID yet with NullPointerException |
| Client.NoHelloResponseIff | src/zmq/ZMQClient.cpp:36-44 | the hello loop's "no ID yet" summary holds exactly when no frame so far is a hello_response |
| Client.Client.constructor | src/zmq/ZMQClient.cpp:13-17 | a new client has the invalid prefix, no ID, no data socket and a running connector |
| Client.Client.SetDeviceManagerPrefix | src/zmq/ZMQClient.cpp:19-22 | the prefix is set |
| Client.Client.SendDataError | src/zmq/ZMQConnector.cpp:110-117 | sendError on m_dataServerSocket sends one error message on the data socket once it is configured, and before that throws NullPointerException and sends nothing |
| Client.Client.HelloServerReceive | src/zmq/ZMQClient.cpp:105-135 | one hello frame has exactly the outcome, the new ID and the sent messages HelloStep gives for whether the data socket is configured |
| Client.Client.DataServerReceive | src/zmq/ZMQClient.cpp:137-154 | a frame that parses is delivered; a rejected one is answered with one error on the data socket, or throws NullPointerException while that socket is null; an uncaught parse exception fails |
| Client.Client.HelloPhase | src/zmq/ZMQClient.cpp:36-44 | the hello loop only appends, only to the data socket, sends nothing while that socket is null and never replaces an ID; it ends without an ID and without stop() only when no frame was a hello_response; without a data socket the first frame decides: it assigns the ID or ends the phase with that frame's exception |
| Client.Client.DataPhase | src/zmq/ZMQClient.cpp:46-49 | the data loop delivers exactly the parsed frames of what it consumed, consumes everything unless stopped or an exception escapes (an uncaught parse exception, or a rejected frame while the data socket is null), and sends only on the data socket |
| Client.Client.Run | src/zmq/ZMQClient.cpp:29-53 | run sends exactly one hello_request with the prefix on the hello socket, then only data-socket messages; a first hello frame carrying a valid ID configures the data socket with that ID, and one that is not a hello_response ends run with an exception after the hello_request alone, with no data socket and no delivery; the data phase runs only with an ID and then delivers every parsed frame |
| ManagerTable.Run | src/zmq/ZMQDeviceManagerTable.cpp:49-57 | the scan passes at most the whole table |
| ManagerTable.RunEndStep | src/zmq/ZMQDeviceManagerTable.cpp:50-52 | passing one entry whose ident matches, and advancing the expected ident with 8-bit wrap-around, leaves the scan's result unchanged |
| ManagerTable.RunOfCounting | src/zmq/ZMQDeviceManagerTable.cpp:42-60 | a table whose idents count up from e without wrapping is passed whole |
| ManagerTable.RegistrationsCountUp | src/zmq/ZMQDeviceManagerTable.cpp:9-18 | starting empty and only registering, up to 256 times, the k-th registration gets ident k and keeps its prefix |
| ManagerTable.RegistrationsDistinct | src/zmq/ZMQDeviceManagerTable.cpp:9-18 | registrations alone never hand out the same ident twice |
| ManagerTable.RegistrationBeyondCapacity | src/zmq/ZMQDeviceManagerTable.cpp:36-37 | the 257th registration into a table that only grew throws RangeException |
| ManagerTable.FindIndex | src/zmq/ZMQDeviceManagerTable.cpp:23 | std::find returns the first equal entry, or the end when there is none |
| ManagerTable.UniquenessLostAfterUnregister | src/zmq/ZMQDeviceManagerTable.cpp:20-60 | after registering idents 0, 1, 2 and unregistering 1, the next two registrations both get ident 1, so the table holds one ID twice |
| ManagerTable.ByPrefixMembers | src/zmq/ZMQDeviceManagerTable.cpp:67-78 | getAll(prefix) keeps exactly the entries of that prefix |
| ManagerTable.ByPrefixNone | src/zmq/ZMQDeviceManagerTable.cpp:67-78 | with no entry of the prefix, getAll(prefix) is empty |
| ManagerTable.ByPrefixAll | src/zmq/ZMQDeviceManagerTable.cpp:67-78 | a table holding only that prefix is returned whole and in order |
| ManagerTable.DeviceManagerTable.constructor | src/zmq/ZMQDeviceManagerTable.h:42 | a new table is empty |
| ManagerTable.DeviceManagerTable.GetFirstEmptyID | src/zmq/ZMQDeviceManagerTable.cpp:42-60 | the loop returns 0 on an empty table, else the front ident advanced past the leading run of consecutive idents |
| ManagerTable.DeviceManagerTable.FromPrefix | src/zmq/ZMQDeviceManagerTable.cpp:33-40 | more than 255 entries throw RangeException; otherwise the ID is the prefix with the first empty ident |
| ManagerTable.DeviceManagerTable.RegisterDaemonPrefix | src/zmq/ZMQDeviceManagerTable.cpp:9-18 | the new ID has the prefix and the first empty ident and is appended at the end; on RangeException the table is unchanged |
| ManagerTable.DeviceManagerTable.UnregisterDaemon | src/zmq/ZMQDeviceManagerTable.cpp:20-31 | exactly the first equal entry is erased and the rest keep their order; an absent ID throws InvalidArgumentException and changes nothing |
| ManagerTable.DeviceManagerTable.GetAllByPrefix | src/zmq/ZMQDeviceManagerTable.cpp:67-78 | the copy loop returns exactly the entries of the prefix, in table order |
| ManagerTable.DeviceManagerTable.IsDeviceManagerRegistered | src/zmq/ZMQDeviceManagerTable.cpp:85-95 | true exactly when some entry has the prefix, which is when getAll(prefix) is not empty |
| Answers.Answer.constructor | src/core/Answer.h:36 | a new Answer is clean, holds no Results, counts its commands and is not locked |
| Answers.Answer.SetDirtyUnlocked | src/core/Answer.h:44-48 | callable only with the shared mutex held; sets the dirty flag and nothing else |
| Answers.Answer.SetDirty | src/core/Answer.h:44-48 | takes and releases the mutex and sets the dirty flag |
| Answers.Answer.AddResult | src/core/Answer.h:70 | the Result is appended at the end, and at(i) of the returned index is that Result |
| Answers.Answer.NotifyUpdated | src/core/Answer.h:72-76 | notifyUpdated sets the dirty flag |
| Answers.Answer.SetStatusUnlocked | src/core/Answer.h:23-30 | under the mutex, one Result's status changes, every other Result stays as it was, and the Answer becomes dirty |
| Answers.Answer.SetDeviceListUnlocked | src/core/Answer.h:28-29 | under the mutex, one device-list Result's list is replaced; nothing else changes |
| Answers.Answer.SetValueUnlocked | src/core/Answer.h:28-29 | under the mutex, one last-value Result's value is replaced; nothing else changes |
| Answers.Answer.SetExtendedSetStatusUnlocked | src/commands/DeviceSetValueResult.cpp:17-22 | callable only under the mutex; the Result's extended status is the one written, and no other Result changes |
| Answers.Answer.SetExtendedSetStatus | src/commands/DeviceSetValueResult.cpp:10-15 | takes the mutex, writes the extended status, and releases the mutex |
| Answers.Answer.ExtendedSetStatusUnlocked | src/commands/DeviceSetValueResult.cpp:30-34 | callable only under the mutex; returns the extended status last written |
| Answers.Answer.GetExtendedSetStatus | src/commands/DeviceSetValueResult.cpp:24-28 | takes the mutex, returns the extended status last written, and releases the mutex |
| Broker.AcceptRules | src/zmq/ZMQBroker.cpp:43-59 | a set-value is accepted exactly when a manager of the device's prefix is registered; unpair and listen are always accepted; every other command is refused |
| Broker.Targets | src/zmq/ZMQBroker.cpp:63-80 | handle never targets more managers than are registered |
| Broker.TargetsChosen | src/zmq/ZMQBroker.cpp:63-80 | set-value and unpair go to exactly the managers of the device's prefix, listen to all of them, and only those three kinds have targets |
| Broker.TwoZWavePeers | test/zmq/ZMQBrokerTest.cpp:290-336 | two Z-Wave managers both register, and a Z-Wave set-value is sent to both of them |
| Broker.HandleResult | src/zmq/ZMQBroker.cpp:85-86 | each Result handle adds is pending, and is a DeviceSetValueResult exactly for a set-value command |
| Broker.HandleResults | src/zmq/ZMQBroker.cpp:82-90 | handle adds one Result per target |
| Broker.HandleResultsPending | src/zmq/ZMQBroker.cpp:82-90 | with the corrected handle (see Findings), every Result handle adds is pending and of the command's own kind |
| Broker.AsWrittenCastFails | src/zmq/ZMQBroker.cpp:82-90 | for a set-value, the first of the plain Results the source creates is not a DeviceSetValueResult, so the tick's cast of it fails, while the cast of the corrected first Result succeeds |
| Broker.HandleResultsAsWritten | src/zmq/ZMQBroker.cpp:82-90 | handle as written adds one plain Result per target |
| Broker.AsWrittenTickAborts | src/zmq/ZMQBroker.cpp:357-367 | a table entry whose Answer holds the Results handle creates as written makes the next tick throw NullPointerException, and that entry is not reached |
| Broker.CommandFrames | src/zmq/ZMQBroker.cpp:82-90 | handle sends one message per target |
| Broker.CommandFramesAt | src/zmq/ZMQBroker.cpp:82-90 | message k is built for target k under id k |
| Broker.CommandFramesDecode | src/zmq/ZMQBroker.cpp:82-90 | message k goes on the data socket addressed to target k, reads back as the command, and carries id k |
| Broker.CmdInsert | src/zmq/ZMQBroker.cpp:85-86 | std::map::insert keeps the value of a key already present and adds a new key with its item |
| Broker.CmdInsertsDomain | src/zmq/ZMQBroker.cpp:82-90 | after handle, m_cmdTable holds the old keys and every id sent, and nothing else |
| Broker.CmdInsertsKeep | src/zmq/ZMQBroker.cpp:85-86 | handle never overwrites an entry already in m_cmdTable |
| Broker.CmdInsertsFirst | src/zmq/ZMQBroker.cpp:82-90 | a new id, first sent for target i, points at the Result added for target i |
| Broker.SettleRules | src/zmq/ZMQBroker.cpp:366-379 | past the deadline the status becomes GW_DEVICE_TIMEOUT and the entry goes; otherwise DEVICE_FAILED and DEVICE_SUCCESS become their GW_ forms and the entry goes; any other status stays with the entry |
| Broker.SettleVerdicts | src/zmq/ZMQBroker.cpp:359-380 | an erased entry always leaves a GW_ verdict; a kept entry keeps its status, which is neither DEVICE_SUCCESS nor DEVICE_FAILED; a second tick at the same time changes nothing more |
| Broker.FirstCastFailure | src/zmq/ZMQBroker.cpp:359-367 | the tick stops at the entry with the least DeviceID whose at(0) is not a DeviceSetValueResult; when there is none, every cast succeeds |
| Broker.TickOutcome | src/zmq/ZMQBroker.cpp:357-382 | the only exception a tick throws is NullPointerException |
| Broker.TickStopsAtCastFailure | src/zmq/ZMQBroker.cpp:359-367 | an entry whose cast fails makes the tick throw NullPointerException, and neither it nor any entry with a larger DeviceID is reached |
| Broker.TickCompletes | src/zmq/ZMQBroker.cpp:357-382 | when no cast fails the tick completes and reaches every entry |
| Broker.TickProgressStep | src/zmq/ZMQBroker.cpp:359-380 | settling the least remaining key, whose cast succeeds, keeps the visited keys below the remaining ones and free of failing casts, and keeps exactly the entries not erased |
| Broker.TickStopped | src/zmq/ZMQBroker.cpp:359-367 | when the least remaining key fails its cast, the tick throws NullPointerException, the entries reached are exactly those visited, and the table and the Answers are as CheckSettingTable states |
| Broker.TickFinished | src/zmq/ZMQBroker.cpp:359-380 | once every entry is visited the tick completes, every entry is reached, and the table and the Answers are as CheckSettingTable states |
| Broker.NoResultsNeverExpire | src/zmq/ZMQBroker.cpp:360-361 | an Answer with no results is skipped on every tick, so its entry never expires |
| Broker.HandledSetValueTimesOut | src/zmq/ZMQBroker.cpp:366-369 | a set-value with its corrected Result times out once the deadline has passed |
| Broker.FanoutStep | src/zmq/ZMQBroker.cpp:82-90 | one pass of handle's loop adds one Result, one table entry and one message for the next target |
| Broker.ResultFrames | src/zmq/ZMQBroker.cpp:117-126 | checkQueue sends one message per result of a dirty Answer |
| Broker.ResultFramesDecode | src/zmq/ZMQBroker.cpp:117-126 | each forwarded message goes to the manager that asked, carries the recorded id, and hands the result over |
| Broker.Broker.constructor | src/zmq/ZMQBroker.cpp:29-36 | a new broker has an empty table, empty command, setting and result tables, and has sent nothing |
| Broker.Broker.Accept | src/zmq/ZMQBroker.cpp:43-59 | accept's outcome is the one AcceptRules describes |
| Broker.Broker.Handle | src/zmq/ZMQBroker.cpp:61-91 | the corrected handle (see Findings) adds one pending Result, one m_cmdTable entry and one message per target; a set-value enters m_settingTable with deadline now + timeout unless its device is already there; a device ID with no prefix throws and changes nothing |
| Broker.Broker.Fanout | src/zmq/ZMQBroker.cpp:82-90 | the loop stores exactly the Results, table entries and messages Collect gathered |
| Broker.Broker.Collect | src/zmq/ZMQBroker.cpp:82-90 | the loop gathers, target by target, exactly HandleResults, CmdInserts and CommandFrames |
| Broker.Broker.CheckQueue | src/zmq/ZMQBroker.cpp:111-128 | the messages sent are, dirty Answer by dirty Answer and result by result, the ResultFrames of each |
| Broker.Broker.AppendResults | src/zmq/ZMQBroker.cpp:117-126 | the inner loop appends exactly one message per result, in order |
| Broker.Broker.RegisterDeviceManager | src/zmq/ZMQBroker.cpp:327-350 | the prefix gets the next ID and a hello_response on the hello socket; a full table sends ERROR_MAXIMUM_DEVICE_MANAGERS on the hello socket and changes nothing; an unreadable prefix throws and sends nothing |
| Broker.Broker.HandleHelloMessage | src/zmq/ZMQBroker.cpp:205-217 | a hello_request has exactly registerDeviceManager's effect (Registered: the prefix gets the next ID and a hello_response on the hello socket, or a full table gets ERROR_MAXIMUM_DEVICE_MANAGERS there and no change); an unreadable prefix throws and changes and sends nothing; any other type gets ERROR_UNSUPPORTED_MESSAGE on the data socket |
| Broker.Broker.HelloServerReceive | src/zmq/ZMQBroker.cpp:176-203 | a parse exception escapes with nothing sent; a rejected frame gets its parse error on the data socket and changes nothing; an accepted hello_request registers as Registered states; one without a readable prefix gets ERROR_MISSING_ATTRIBUTE on the data socket, other types ERROR_UNSUPPORTED_MESSAGE; InvalidAccessException never escapes |
| Broker.Broker.DoServerCommand | src/zmq/ZMQBroker.cpp:281-303 | a new clean Answer is dispatched with the command, and m_resultTable maps it to the message id and the sender; a bad message changes nothing |
| Broker.Broker.DoDefaultResult | src/zmq/ZMQBroker.cpp:305-315 | the received status goes into exactly the Result recorded for the message id, and its Answer becomes dirty; nothing else changes |
| Broker.Broker.HandleDataMessage | src/zmq/ZMQBroker.cpp:256-279 | throws exactly what DataResult names (the sensor-data conversion, the message id, the status, NotFound for an id not in m_cmdTable, the command); DataHandled gives the new state: measured values exported and their device paired, a default_result's status written into exactly its Result with the Answer made dirty, a server command dispatched with a new clean Answer that m_resultTable maps to the message id and the sender, and no change when it throws; only an unhandled type sends, ERROR_UNSUPPORTED_MESSAGE on the data socket |
| Broker.Broker.DataServerReceive | src/zmq/ZMQBroker.cpp:219-254 | only a parse exception escapes; a rejected frame gets its parse error on the data socket and changes nothing; a sender whose ID does not parse changes and sends nothing; otherwise the state is what DataHandled gives, and DataReply is sent: ERROR_UNSUPPORTED_MESSAGE for an unhandled type, ERROR_MISSING_ATTRIBUTE when handling throws InvalidAccessException, nothing otherwise |
| Broker.Broker.CheckSettingTable | src/zmq/ZMQBroker.cpp:357-382 | the tick visits the entries in ascending DeviceID order and throws NullPointerException exactly when some entry's at(0) is not a DeviceSetValueResult; the entries before the first such one are settled by the tick rules and removed exactly when the rules erase them; that entry and the later ones stay untouched; kept entries keep their items |
| Broker.Broker.SettleAll | src/zmq/ZMQBroker.cpp:359-380 | the loop, in ascending DeviceID order, settles each reached Answer once, stops with NullPointerException at the first failing cast, leaves the rest untouched, and keeps exactly the entries not erased |
| Broker.Broker.Visit | src/zmq/ZMQBroker.cpp:360-379 | one pass of the loop on an entry whose cast succeeds: an Answer without results is skipped, any other is settled; the removal is reported exactly when Erased holds, and every other Answer is unchanged |
| Broker.Broker.SettleEntry | src/zmq/ZMQBroker.cpp:366-379 | once at(0) is a DeviceSetValueResult, the three checks leave it as AfterTick says and report the removal exactly when Erased holds |
| ZWave.EUIDLayout | src/z-wave/ZWaveMessage.h:84-87 | the EUID holds TEST_HOME_ID above the low byte and the node ID in the low byte, and does not depend on the home ID passed in |
| ZWave.EUIDInjective | src/z-wave/ZWaveMessage.h:84-87 | two nodes with the same EUID are the same node, whichever home IDs are passed |
| ZWave.ExtractBool | src/z-wave/ZWaveMessage.cpp:53-65 | extraction succeeds exactly for "True" and "False", and yields true exactly for "True" |
| ZWave.SpecificValueFirst | src/z-wave/ZWaveMessage.cpp:74-89 | the lookup fails exactly when no item has the command class and index, and otherwise returns the text of the first such item |
| ZWave.FirstBoolFirst | src/z-wave/ZWaveMessage.cpp:116-136 | the binary lookup skips matching items whose text is not a boolean, fails exactly when no item is a well-formed match, and otherwise returns the first one |
| ZWave.BinaryTexts | src/z-wave/ZWaveMessage.cpp:116-167 | getSwitchBinary and getSensorValue return "1" or "0", and find a value exactly when a True/False item sits at (37, 0) and (48, 0) respectively |
| ZWave.FixedLookupKeys | src/z-wave/ZWaveMessage.cpp:138-188 | battery, luminance, humidity and ultraviolet find a value exactly when an item sits at (128, 0), (49, 3), (49, 5) and (49, 27) |
| ZWave.TemperatureUnits | src/z-wave/ZWaveMessage.cpp:91-114 | a first temperature item in "F" is reported as (t - 32) * 5/9, any other unit as it is |
| ZWave.FindNodeInfo | src/z-wave/NotificationProcessor.cpp:34-46 | the info is found exactly for a node in the node map, and is that node's entry |
| ZWave.FirstValueIDFirst | src/z-wave/ZWaveMessage.cpp:238-245 | the ValueID search fails exactly when none has the command class and index, and otherwise yields the first that does |
| ZWave.SetActuatorSpec | src/z-wave/ZWaveMessage.cpp:228-248 | setActuator succeeds exactly for a known node with a ValueID at (class, index), and then writes to one of that node's ValueIDs at that key |
| ZWaveProducts.DeviceTypeIDsDistinct | src/z-wave/products/AeotecZW100ZWaveMessage.h:10 | the five products report five different device types (27, 26, 16, 25, 17) |
| ZWaveProducts.EmitTextSpec | src/z-wave/products/AeotecZW100ZWaveMessage.cpp:42-45 | a found text adds its parsed value under the module ahead of the rest; a text parseFloat rejects makes extractValues throw |
| ZWaveProducts.BoolTextParses | src/z-wave/ZWaveMessage.cpp:131 | the texts "1" and "0" produced for a bool parse back to 1 and 0 |
| ZWaveProducts.BoolLookupParses | src/z-wave/products/PhilioPST021CZWaveMessage.cpp:34-37 | a binary lookup never makes extractValues throw, and adds 1 or 0 exactly when a boolean was found |
| ZWaveProducts.DetectionAppend | src/z-wave/products/AeotecZW100ZWaveMessage.cpp:134-150 | the alarm loop over two lists adds the first list's values, then the second's |
| ZWaveProducts.DetectionSingle | src/z-wave/products/AeotecZW100ZWaveMessage.cpp:135-149 | the alarm loop over one item adds that item's reaction: 3 sets the safety module, 8 the motion module, any other integer clears both |
| ZWaveProducts.DetectionSensor | src/z-wave/products/AeotecZW100ZWaveMessage.cpp:129-151 | getDetectionSensor appends, item by item, the reactions of every alarm item to the data it was given |
| ZWaveProducts.PirMapInverts | src/z-wave/products/AeotecZW100ZWaveMessage.cpp:105-120 | the label of each PIR level maps back to that level |
| ZWaveProducts.PirUnknownLabel | src/z-wave/products/AeotecZW100ZWaveMessage.cpp:112-119 | a label that is no level's label is not found |
| ZWaveProducts.AeotecChainSpec | src/z-wave/products/AeotecZW100ZWaveMessage.cpp:36-76 | Aeotec inserts ultraviolet 2, light 3, temperature 4, humidity 5, PIR sensitivity 6, battery 7 and refresh time 8 in that order, each exactly when found, and throws exactly when a found text is not a number |
| ZWaveProducts.DLinkChainSpec | src/z-wave/products/DLinkDchZ120ZWaveMessage.cpp:24-47 | D-Link inserts luminance 1, temperature 2, PIR sensitivity 4 and battery 5 in that order, each exactly when found, and throws exactly when a found text is not a number |
| ZWaveProducts.PhilioValuesSpec | src/z-wave/products/PhilioPST021CZWaveMessage.cpp:18-45 | Philio inserts luminance 2, temperature 1, magnetic contact 0 and battery 3 in that order, and throws exactly when luminance or battery text is not a number |
| ZWaveProducts.FibaroValuesSpec | src/z-wave/products/FibaroFGK107ZWaveMessage.cpp:15-35 | Fibaro inserts the door contact 0 when a boolean is found and the battery 1 when found, and throws exactly when the battery text is not a number |
| ZWaveProducts.PoppValuesSpec | src/z-wave/products/Popp123601ZWaveMessage.cpp:17-25 | Popp inserts only the switch 0, exactly when a boolean is found, and never throws |
| ZWaveProducts.ExtractValues | src/z-wave/products/AeotecZW100ZWaveMessage.cpp:36-81 | extractValues yields the product's fixed values, followed for Aeotec and D-Link by the alarm values, or the exception a text raised |
| ZWaveProducts.DetectionModules | src/z-wave/products/DLinkDchZ120ZWaveMessage.cpp:73-95 | the alarm loop only adds modules of the product's alarm plan |
| ZWaveProducts.AeotecFixedModules | src/z-wave/products/AeotecZW100ZWaveMessage.cpp:16-24 | the Aeotec lookups only report modules 0 to 8 |
| ZWaveProducts.DLinkFixedModules | src/z-wave/products/DLinkDchZ120ZWaveMessage.cpp:29-47 | the D-Link lookups only report modules up to 8 |
| ZWaveProducts.PhilioModules | src/z-wave/products/PhilioPST021CZWaveMessage.cpp:24-42 | Philio only reports modules 0 to 3 and thus up to 8 |
| ZWaveProducts.ExtractedModules | src/z-wave/products/AeotecZW100ZWaveMessage.cpp:16-24 | every module any product reports lies in 0..8 |
| ZWaveProducts.SetValue | src/z-wave/products/AeotecZW100ZWaveMessage.cpp:83-103 | setValue sends, value by value, what each module's rule sends through setActuator, and stops at the first unknown PIR level |
| ZWaveProducts.SendsAreSettable | src/z-wave/ZWaveMessage.cpp:228-248 | every write goes to a ValueID of the given node at one of the product's settable keys, at most one per value; Philio and Fibaro write nothing |
| ZWaveProducts.SetValueStopsAtAbort | src/z-wave/products/AeotecZW100ZWaveMessage.cpp:89-93 | values after an unknown PIR level are never sent |
| ZWaveProducts.AeotecPirLevel | src/z-wave/products/AeotecZW100ZWaveMessage.cpp:88-96 | a PIR value whose integer part is 0..5 sends that level's label to (112, 4) |
| ZWaveFactory.ManufacturerCreate | src/z-wave/manufacturers/AeotecZWaveMessageFactory.cpp:7-16 | a manufacturer's factory makes a product exactly for its own product code and throws NotFoundException for any other |
| ZWaveFactory.MadeInjective | src/z-wave/manufacturers/AeotecZWaveMessageFactory.cpp:10-12 | each factory makes its own product from its product code, and no two factories make the same product |
| ZWaveFactory.StandardRegistryCreates | src/z-wave/GenericZWaveMessageFactory.cpp:8-18 | with the five factories registered under their codes, create succeeds exactly for the five known (manufacturer, product) pairs, each giving its own product |
| ZWaveFactory.GenericFactory.constructor | src/z-wave/GenericZWaveMessageFactory.h:11-26 | a new registry has no manufacturer |
| ZWaveFactory.GenericFactory.RegisterManufacturer | src/z-wave/GenericZWaveMessageFactory.cpp:20-27 | a null factory throws NullPointerException and changes nothing; a code already registered keeps its first factory; a new code is added |
| ZWaveFactory.GenericFactory.Create | src/z-wave/GenericZWaveMessageFactory.cpp:8-18 | create asks the factory registered under the manufacturer code, and throws a plain Poco::Exception for a code nobody registered |
| ZWaveFactory.RegisterAll | src/z-wave/GenericZWaveMessageFactory.cpp:20-27 | registering the five factories under their codes yields exactly the standard registry |
| ZWaveNotifications.NodesAfterSpec | src/z-wave/NotificationProcessor.cpp:163-235 | a notification touches only the notified node's entry: an added value is appended to a known node, value or node removal forgets the node, adding a known node keeps it, polling is switched only on known nodes, and every other type leaves the map alone |
| ZWaveNotifications.NodeDeviceLayout | src/z-wave/NotificationProcessor.cpp:117-119 | a node's device has the Z-Wave prefix and the node's EUID as its ident |
| ZWaveNotifications.SentMessage | src/z-wave/NotificationProcessor.cpp:115-128 | a sent message decodes back to the node's device and the extracted values; it is dropped exactly when the device is neither paired nor listened for; an extractValues exception is passed on |
| ZWaveNotifications.ProductSentMessage | src/z-wave/NotificationProcessor.cpp:115-128 | for every product, the message sent decodes to the node's device with exactly the product's extracted values |
| ZWaveNotifications.ChangeNeedsKnownProduct | src/z-wave/NotificationProcessor.cpp:58-95 | with the standard factories, a changed value is sent only for a known node whose manufacturer and product ids parse as hex to one of the five known pairs |
| ZWaveNotifications.NotificationProcessor.constructor | src/z-wave/NotificationProcessor.cpp:19-25 | a new processor has an empty node map, has not failed, and keeps the paired set, the listen flag and the factory it is given |
| ZWaveNotifications.NotificationProcessor.FindNode | src/z-wave/NotificationProcessor.cpp:34-46 | findNodeInfo finds exactly the nodes in the map, with their own entries |
| ZWaveNotifications.NotificationProcessor.CollectItems | src/z-wave/NotificationProcessor.cpp:103-113 | the list has one item per ValueID, in order, with its class, index, text and unit |
| ZWaveNotifications.NotificationProcessor.SendValue | src/z-wave/NotificationProcessor.cpp:97-129 | sendValue's outcome is the one SendOutcomeOf describes, only a sent message is added to what went out, and the node map is untouched |
| ZWaveNotifications.NotificationProcessor.OnValueChanged | src/z-wave/NotificationProcessor.cpp:58-95 | an unknown node, an id that is not hex, or a factory error ends the notification with nothing sent; otherwise sendValue runs on the node's values |
| ZWaveNotifications.NotificationProcessor.OnNotification | src/z-wave/NotificationProcessor.cpp:163-235 | the node map becomes NodesAfter of the notification, DriverReady records the home id, DriverFailed sets the failure flag, and only ValueChanged may send |
| FakeHandler.GeneratedDevices | src/zmq/FakeHandlerTest.cpp:139-151 | serial 0 gives no device; a Z-Wave node number gives the device the notification processor reports that node under; any other prefix keeps the number as the ident |
| FakeHandler.SetInsertSpec | src/zmq/FakeHandlerTest.cpp:220-223 | inserting into the paired set keeps it ascending without repeats and adds exactly the new device |
| FakeHandler.WithPrefixSpec | src/zmq/FakeHandlerTest.cpp:207-218 | the devices of a prefix are exactly the paired devices with that prefix, in ascending order |
| FakeHandler.FakeHandlerTest.constructor | src/zmq/FakeHandlerTest.cpp:53-59 | a new handler has no paired or remembered device, no action, and its deferred action still armed |
| FakeHandler.FakeHandlerTest.SetDevice | src/zmq/FakeHandlerTest.cpp:227-333 | a serial that is not a number throws and changes nothing; otherwise a non-null device joins the paired set, and the AC-88, Aeotec, D-Link and Popp setters remember the generated device even when it is null |
| FakeHandler.FakeHandlerTest.SetLastValue | src/zmq/FakeHandlerTest.cpp:335-401 | each last-value setter sets its own value and no other |
| FakeHandler.FakeHandlerTest.SetAction | src/zmq/FakeHandlerTest.cpp:370-376 | only "listen", "unpair" and "set_value" are taken; any other text throws InvalidArgumentException and keeps the action |
| FakeHandler.FakeHandlerTest.PairedDevices | src/zmq/FakeHandlerTest.cpp:207-218 | pairedDevices returns the paired devices of the prefix in set order |
| FakeHandler.FakeHandlerTest.Handle | src/zmq/FakeHandlerTest.cpp:61-137 | a device-list request adds a SUCCESS result with the prefix's paired devices and starts the deferred action only the first time; a last-value request adds the reply LastValueReply describes; commands accept refuses leave the Answer alone |
| FakeHandler.FakeHandlerTest.HandleDeviceList | src/zmq/FakeHandlerTest.cpp:75-89 | the device-list branch adds one SUCCESS result holding the prefix's paired devices and marks the Answer dirty |
| FakeHandler.FakeHandlerTest.HandleLastValue | src/zmq/FakeHandlerTest.cpp:90-133 | AC-88 devices answer their configured value with SUCCESS and any other Jablotron device 0 with FAILED and a throw; Popp, D-Link and the Aeotec modules 6 and 8 answer their values; any other device leaves the result pending but notified |
| Jablotron.DeviceType | src/jablotron/JablotronDeviceManager.cpp:270-300 | a family is reported only for a serial inside its range |
| Jablotron.DeviceTypeExact | src/jablotron/JablotronDeviceManager.cpp:270-300 | the ranges do not overlap: a serial is of a family exactly when it lies in that family's range, and of none exactly when it lies in no range |
| Jablotron.JablotronDevice | src/jablotron/JablotronDeviceManager.cpp:625-628 | the device ID has the Jablotron prefix and the serial as its ident |
| Jablotron.SerialNumber | src/jablotron/JablotronDeviceManager.cpp:255-268 | a token shorter than ten characters throws InvalidArgumentException; a serial read is below 2^32 |
| Jablotron.DecimalPaddedDecodes | src/jablotron/JablotronDeviceManager.cpp:262 | a zero-padded decimal field reads back as its number modulo 10^width |
| Jablotron.SerialTokenRoundTrip | src/jablotron/JablotronDeviceManager.cpp:255-268 | getSerialNumber reads back the serial of every bracketed eight-digit token |
| Jablotron.Tokenize | src/jablotron/JablotronDeviceManager.cpp:83-85 | a string has no token exactly when it is empty |
| Jablotron.SplitJoins | src/jablotron/JablotronDeviceManager.cpp:83 | the tokens of a line join back to the line with the separator between them |
| Jablotron.SplitPartsFree | src/jablotron/JablotronDeviceManager.cpp:83 | no token holds the separator |
| Jablotron.JoinSplits | src/jablotron/JablotronDeviceManager.cpp:596-597 | words free of the separator, joined by it, split back into the same words |
| Jablotron.Token | src/jablotron/JablotronDeviceManager.cpp:401-419 | a token index past the last token throws RangeException; any other gives that token |
| Jablotron.Trim | src/jablotron/JablotronDeviceManager.cpp:83 | a trimmed line neither starts nor ends with white space |
| Jablotron.TrimDropsSpace | src/jablotron/JablotronDeviceManager.cpp:83 | trimming removes only white space, from both ends |
| Jablotron.FieldValue | src/jablotron/JablotronDeviceManager.cpp:603-607 | a field without a second ':'-part throws RangeException |
| Jablotron.ParseDecimalOfInt | src/jablotron/JablotronDeviceManager.cpp:596-597 | the decimal text of any integer parses back to that integer |
| Jablotron.FieldValueOf | src/jablotron/JablotronDeviceManager.cpp:603-607 | a "NAME:n" field reads back as n whenever the name holds no ':' |
| Jablotron.Convert | src/jablotron/JablotronDeviceManager.cpp:609-618 | the value 1 gives UNSET_STATE; any other gives SET_STATE when reverse and UNKNOWN_STATE otherwise; a field getValue rejects throws the same exception |
| Jablotron.BatteryStatus | src/jablotron/JablotronDeviceManager.cpp:620-623 | a non-zero value gives LOW_BATTERY, zero gives FULL_BATTERY, and a field getValue rejects throws |
| Jablotron.ConvertField | src/jablotron/JablotronDeviceManager.cpp:609-623 | the dongle's "NAME:n" fields convert by their number n |
| Jablotron.ReadingModules | src/jablotron/JablotronDeviceManager.cpp:446-559 | each type-specific parser reports a module 0..2, never for JA80L or AC88, and raises an event only for fire, motion or panic, on the same module, as 1 followed by its "off" value |
| Jablotron.ParseMessageShape | src/jablotron/JablotronDeviceManager.cpp:397-444 | a parsed report names the device of token 0's serial; an AC88 gives one module-0 value 0 or 1; other families give the battery (5 or 100) on their battery module, then one value; JA80L and unknown serials never parse |
| Jablotron.ReportModules | src/jablotron/JablotronDeviceManager.cpp:397-444 | every module a report holds fits the message's module field |
| Jablotron.ParseMessageParts | src/jablotron/JablotronDeviceManager.cpp:414-443 | a non-AC88 report is its battery value followed by its type-specific reading and event |
| Jablotron.DoorContactReading | src/jablotron/JablotronDeviceManager.cpp:502-509 | a JA81M "SENSOR" report's contact field gives UNSET_STATE for 1 and SET_STATE otherwise |
| Jablotron.ParseDoorContact | src/jablotron/JablotronDeviceManager.cpp:397-444 | a JA81M door-contact line, as the dongle sends it, parses to the device, its battery state and its contact state |
| Jablotron.AttemptsStop | src/jablotron/JablotronDeviceManager.cpp:568 | the loop ends with three successes or ten failures, and makes at most 12 calls from a fresh start |
| Jablotron.AttemptsNotEarlier | src/jablotron/JablotronDeviceManager.cpp:568 | before the last call, fewer than three calls succeeded and fewer than ten failed |
| Jablotron.RetransmissionBounded | src/jablotron/JablotronDeviceManager.cpp:565-580 | retransmissionPacket makes 3 to 12 send calls, and stops at the third success or the tenth failure, never earlier |
| Jablotron.FirstAC88Spec | src/jablotron/JablotronDeviceManager.cpp:584-589 | the PGX serial is 0 exactly when the dongle lists no AC88, and otherwise the first AC88 it lists |
| Jablotron.SwitchTextFields | src/jablotron/JablotronDeviceManager.cpp:596-597 | the switch command has six words, and its third and fourth read back as the PGX and PGY values |
| Jablotron.ToShort | src/jablotron/JablotronDeviceManager.cpp:149 | a value whose integer part fits 16 bits becomes that integer part |
| Jablotron.SwitchedSlots | src/jablotron/JablotronDeviceManager.cpp:582-601 | exactly one slot takes the value, PGX for the first AC88 and PGY otherwise; the other keeps its value; 3 to 12 commands go to the dongle, each carrying both slots |
| Jablotron.DrainHalts | src/jablotron/JablotronDeviceManager.cpp:127-151 | an unknown Answer or a failed last value ends checkQueue: nothing after it takes effect |
| Jablotron.DrainEffects | src/jablotron/JablotronDeviceManager.cpp:122-152 | after checkQueue the flagged set is the old one or the list of one device-list answer; the dongle only receives more; without a last-value answer the slots and the dongle are untouched |
| Jablotron.EventValueLost | src/jablotron/JablotronDeviceManager.cpp:386-394 | as written, the event message reaches the server with no value, so the "off" value is lost |
| Jablotron.EventValueDelivered | src/jablotron/JablotronDeviceManager.cpp:386-394 | corrected, the event message decodes to the device and its "off" value |
| Jablotron.MeasuredPolicy | src/jablotron/JablotronDeviceManager.cpp:365-395 | a report that does not parse sends nothing; an unflagged device outside listen mode sends nothing and keeps its event pending; otherwise the server decodes the report, then the pending event, which is cleared; the event message is the corrected one that carries the event value (see Findings) |
| Jablotron.JablotronManager.constructor | src/jablotron/JablotronDeviceManager.cpp:47-56 | a new daemon has no devices, no flagged device, no request, no event, both slots 0, and has sent nothing |
| Jablotron.JablotronManager.AddRegistered | src/jablotron/JablotronDeviceManager.cpp:327 | a serial read from a slot is appended to the registered devices |
| Jablotron.JablotronManager.RetransmissionPacket | src/jablotron/JablotronDeviceManager.cpp:565-580 | the dongle receives the command once per send call, as many times as Attempts counts for the failures in `lost` |
| Jablotron.JablotronManager.SetSwitch | src/jablotron/JablotronDeviceManager.cpp:582-601 | setSwitch leaves the slots and the dongle's input as Switched describes |
| Jablotron.JablotronManager.SetValues | src/jablotron/JablotronDeviceManager.cpp:177-184 | a set-value command switches its device to the value cast to a short |
| Jablotron.JablotronManager.CheckQueue | src/jablotron/JablotronDeviceManager.cpp:122-152 | checkQueue leaves the flagged set, slots and dongle input as Drain describes |
| Jablotron.JablotronManager.Unpair | src/jablotron/JablotronDeviceManager.cpp:186-190 | exactly the unpaired device leaves the flagged set |
| Jablotron.JablotronManager.StartListen | src/jablotron/JablotronDeviceManager.cpp:635-640 | listen mode is on |
| Jablotron.JablotronManager.GetDeviceList | src/jablotron/JablotronDeviceManager.cpp:91-105 | the flagged set is emptied, one device-list request for the prefix is sent and recorded under its Answer |
| Jablotron.JablotronManager.GetLastValue | src/jablotron/JablotronDeviceManager.cpp:107-120 | one last-value request for the device's mains outlet is sent and recorded under its Answer |
| Jablotron.JablotronManager.StopListen | src/jablotron/JablotronDeviceManager.cpp:642-647 | listen mode is off and the device list is requested again |
| Jablotron.JablotronManager.SendMeasuredValues | src/jablotron/JablotronDeviceManager.cpp:365-395 | the messages sent and the pending event are those MeasuredOutcome gives for the parsed report; the event message is the corrected one that carries the event value (see Findings) |
| Jablotron.JablotronManager.Deliver | src/jablotron/JablotronDeviceManager.cpp:370-394 | the handling after parsing sends and keeps pending exactly what MeasuredOutcome says; the event message is the corrected one that carries the event value (see Findings) |
| Jablotron.JablotronManager.ProcessLine | src/jablotron/JablotronDeviceManager.cpp:69-88 | while no device is flagged nothing is read; a line of fewer than three tokens is skipped; any other trimmed line goes to sendMeasuredValues |

## Left out

**Transport and concurrency**
- Sockets and transport (`ZMQUtil`, socket creation, bind and connect, `usleep` polling): a send is an append to an output log, and a receive is the next element of an input sequence. One loop pass takes one frame, because `ZMQUtil::receive` reports only how many frames it read.
- Mutexes and `AnswerQueue::wait`: the shared lock of an Answer and its Results is the ghost `locked` flag, and blocking is not modelled.
- Timers (`Poco::Timer`):
  - the broker's settings timer and the Jablotron listen timer are ordinary method calls;
  - the duration `doListenCommand` gives the listen timer is not modelled;
  - the clock is the parameter `now`.
- `ZMQBroker::run`, `ZMQBroker::deviceManagersCount` and the `BEEEON_OBJECT` wiring setters: loops around the modelled receives and trivial holders.

**Floating point**
- Doubles are `real`, and NaN is the absent value.
  - `std::to_string` of a double and the text of "raw" are not modelled. The message carries the number itself.
  - `parseFloat` is modelled only for plain decimal text.
  - The Fahrenheit conversion of `getTemperature` and the value `extractFloat` reads are computed on exact reals. The model does not capture the double rounding of (t - 32) / 1.8, nor the six decimals `std::to_string` keeps of the result.
- `int(value)` on NaN has no defined result in C++. The model treats it as an abort.
- Jablotron.ToShort follows the common x86 behaviour:
  - a double is truncated to 32 bits and then cut to 16 bits;
  - NaN or a value beyond 32 bits gives 0.

**Foreign code** (outcomes taken as inputs)
- The OpenZWave `Manager`:
  - value types and value texts;
  - `sendActuatorValue`, `asBool` and the effect of `setActuator`, with the list of sent (value id, text) pairs as the visible result;
  - `WriteConfig`, `CancelControllerCommand` and `waitUntilQueried`.
- The home id that `DriverReady` records is kept, but every EUID uses `TEST_HOME_ID`, as `getEUID` does.
- `NotificationProcessor`'s node map is a static member shared by all instances. Here it is a field of one instance.
- Jablotron serial I/O:
  - `initJablotronSerial`, `loadJablotronDevices` (its loop never returns), `loadRegDevices` and the `readFromSerial` regular expression are not modelled;
  - a report line is an input of `ProcessLine`;
  - whether a write to the dongle fails is the oracle set `lost` (the indices of failing writes).
- Poco JSON, `NumberParser` and `RegularExpression` internals: JSON text is either a parsed object or malformed text; numbers follow the decimal and hex forms in `numerals.dfy`.

**Files that are not part of this model**
- DevicePrefix.h is not part of this model. The raw bytes Fitprotocol 0xa1 and Z-Wave 0xa8 follow the identifiers in the tests. The Jablotron byte 0xa9 is an assumption.
- DeviceID.h and ModuleID.h are not part of this model. A DeviceID is a prefix byte over a 56-bit ident, and a ModuleID is a natural number.
- Result.h and Answer.cpp are not part of this model. Result statuses are PENDING, SUCCESS and FAILED, with raw values 0, 1 and 2.
- ServerLastValueResult.cpp is not part of this model. Its initial value is taken to be unset.
- JsonUtil is not part of this model. A missing attribute is InvalidAccess, and a value of the wrong JSON kind is BadCast.
- ZWaveDeviceManager.cpp and ZWaveDriver.h are not part of this model.
- ZMQMessageError.h lists no `ERROR_MAXIMUM_DEVICE_MANAGERS`. Its raw value 3, after the three listed codes, is an assumption.

**Other**
- Not modelled:
  - `FakeHandlerTest::fire` and `startAction` (the deferred action itself; only its first start is recorded);
  - `setParameter1`-`setParameter4`, `setRunTime`, `setPrefixName` and `setCommandDispatcher`.
- The Jablotron `onEvent` switch and the `doTypeDeviceListResult`/`doDeviceLastValueResult` copies of a reply into its Result are not modelled. Jablotron.JablotronManager.CheckQueue receives the Answers with their first Results already filled in.
- Jablotron.JablotronManager.CheckQueue requires that a stored device-list or last-value request's Answer hold a Result of the same kind (`Matching`), as `getDeviceList` and `getLastValue` create it.
- Jablotron.JablotronManager.SetSwitch requires the first AC88 serial to fit 32 bits, as the dongle's serial numbers do.
- No code in the repository registers the five manufacturer factories. ZWaveFactory.RegisterAll states the registry they are written for, using the manufacturer codes of `manufacturers/*.h`.
- Broker.Broker.DoDefaultResult reports an unknown message id as NotFound. The source logs it and then dereferences `end()`, which is undefined behaviour.
- Broker.Broker.CheckQueue requires every dirty Answer to be in the result table, because the source dereferences `end()` otherwise.
- Broker.Broker.CheckSettingTable visits a copy of the table. The source erases entries while it iterates, which is undefined behaviour.
- Broker.Broker.Handle: creates the corrected DeviceSetValueResult for a set-value (see Findings). The source creates a plain Result, which Broker.HandleResultsAsWritten models.
- Commands.WithExtendedSetStatus, Broker.SettleRules: the DeviceSetValueResult constructor (src/commands/DeviceSetValueResult.cpp:5-8) leaves `m_status` (src/commands/DeviceSetValueResult.h:33) uninitialised. The model gives an extended status that was never written the value None, which is neither DEVICE_SUCCESS nor DEVICE_FAILED, so such a Result is kept until its deadline. What the source reads from the uninitialised field is not modelled.
- Broker.HandleResultsPending: states the Results of the corrected handle (see Findings), not the plain Results the source creates.
- Jablotron.MeasuredPolicy: the event message is the corrected one carrying the event value (see Findings). The source sends it with no values.
- Jablotron.JablotronManager.SendMeasuredValues: sends the corrected event message (see Findings), not the source's message with no values.
- Jablotron.JablotronManager.Deliver: sends the corrected event message (see Findings), not the source's message with no values.
- ManagerTable: uniqueness of idents after an unregistration is not claimed, because it does not hold. ManagerTable.UniquenessLostAfterUnregister exhibits the input.
- ZWaveProducts.SetValue states the text sent to `setActuator` only as the value's number, not its `std::to_string` digits.
- Jablotron.SwitchTextFields states the PGX/PGY fields by reading each field back as a number, not as its exact characters.

## Findings

| source | as written | input that shows it | evidently intended | confidence | as-written member | corrected member |
|---|---|---|---|---|---|---|
| src/jablotron/JablotronDeviceManager.cpp:386-394 | the pending event value is inserted into `sensorData`, already sent, and `sensorDataEvent` goes out with the device id and no values | any report arriving while a sensor event is pending | the event message carries the event value, so the server sees the sensor switch off; Jablotron.MeasuredPolicy, Jablotron.JablotronManager.SendMeasuredValues and Jablotron.JablotronManager.Deliver send this corrected message | not executed | Jablotron.EventValueLost | Jablotron.EventValueDelivered |
| src/zmq/ZMQBroker.cpp:86 | `handle` creates a plain `Result` for every target, and `checkSettingTable` (src/zmq/ZMQBroker.cpp:363-364) casts `at(0)` to `DeviceSetValueResult`, getting null, so the tick throws NullPointerException | a set-value command for a registered Z-Wave manager, then one settings tick | `handle` creates a `DeviceSetValueResult` for a set-value command, so the tick can time it out; Broker.Broker.Handle creates this corrected Result | not executed | Broker.AsWrittenTickAborts | Broker.HandleResult |
