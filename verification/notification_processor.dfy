/**
 * The handler of the notifications the Z-Wave library delivers: it keeps a
 * map from node ids to what is known about each node, and when a value of a
 * node changes it builds the node's product, extracts the BeeeOn sensor
 * data and sends it to the server, unless the device is neither paired nor
 * being listened for.
 */
module ZWaveNotifications {
  import opened Wrappers
  import opened Numerals
  import opened Identity
  import opened SensorModel
  import opened Messages
  import opened ZWave
  import opened ZWaveProducts
  import opened ZWaveFactory

  datatype NotificationType =
    | ValueAdded | ValueRemoved | ValueChanged | NodeAdded | NodeRemoved | NodeEvent
    | PollingDisabled | PollingEnabled | DriverReady | DriverFailed | ValueRefreshed
    | AwakeNodesQueried | AllNodesQueried | AllNodesQueriedSomeDead | OtherNotification

  /** What a notification carries: its type, the home and node ids and the value it is about. */
  datatype Notification = Notification(kind: NotificationType, homeId: nat, nodeId: uint8, valueId: ValueID)

  /**
   * What the Z-Wave library's manager answers: the manufacturer and product
   * ids of a node as hex text, and the text and unit of a value.
   */
  datatype ZWaveManager = ZWaveManager(
    manufacturerId: (nat, uint8) -> string,
    productId: (nat, uint8) -> string,
    valueText: ValueID -> string,
    valueUnits: ValueID -> string)

  /** The node map after one notification; the types that do not touch it leave it as it is. */
  function NodesAfter(nodes: map<uint8, NodeInfo>, n: Notification): map<uint8, NodeInfo>
  {
    var id := n.nodeId;
    match n.kind
    case ValueAdded =>
      if id in nodes then nodes[id := NodeInfo(nodes[id].polled, nodes[id].values + [n.valueId])] else nodes
    case ValueRemoved => nodes - {id}
    case NodeAdded => if id in nodes then nodes else nodes[id := NodeInfo(false, [])]
    case NodeRemoved => nodes - {id}
    case PollingDisabled => if id in nodes then nodes[id := NodeInfo(false, nodes[id].values)] else nodes
    case PollingEnabled => if id in nodes then nodes[id := NodeInfo(true, nodes[id].values)] else nodes
    case _ => nodes
  }

  /**
   * Only the entry of the notified node changes. A value is appended to a
   * known node; removing a value forgets the whole node; adding a node that
   * is already known keeps it; polling is switched only on known nodes.
   */
  lemma NodesAfterSpec(nodes: map<uint8, NodeInfo>, n: Notification)
    ensures forall k :: k != n.nodeId ==>
      (k in NodesAfter(nodes, n) <==> k in nodes) && (k in nodes ==> NodesAfter(nodes, n)[k] == nodes[k])
    ensures n.kind == ValueAdded && n.nodeId in nodes ==>
      NodesAfter(nodes, n)[n.nodeId].values == nodes[n.nodeId].values + [n.valueId] &&
      NodesAfter(nodes, n)[n.nodeId].polled == nodes[n.nodeId].polled
    ensures n.kind in {ValueRemoved, NodeRemoved} ==> n.nodeId !in NodesAfter(nodes, n)
    ensures n.kind == NodeAdded ==>
      NodesAfter(nodes, n)[n.nodeId] == if n.nodeId in nodes then nodes[n.nodeId] else NodeInfo(false, [])
    ensures n.kind in {PollingDisabled, PollingEnabled} ==>
      (n.nodeId in NodesAfter(nodes, n) <==> n.nodeId in nodes) &&
      (n.nodeId in nodes ==> NodesAfter(nodes, n)[n.nodeId] == NodeInfo(n.kind == PollingEnabled, nodes[n.nodeId].values))
    ensures !(n.kind in {ValueAdded, ValueRemoved, NodeAdded, NodeRemoved, PollingDisabled, PollingEnabled}) ==>
      NodesAfter(nodes, n) == nodes
  {
  }

  /** One item of the list sendValue builds: class, index, the ValueID, its text and unit. */
  function ItemOf(id: ValueID, manager: ZWaveManager): ZWaveSensorValue
  {
    ZWaveSensorValue(id.commandClass, id.index, id, manager.valueText(id), manager.valueUnits(id))
  }

  /** What became of a changed value. */
  datatype SendOutcome =
    | NotSent                  // unknown node, bad ids or no product: nothing leaves
    | Dropped                  // sendValue's -1: neither paired nor listening
    | Sent(message: Object)    // the measured values handed to the client
    | Thrown(error: Exception) // extractValues threw, out of the notification handler

  /** The BeeeOn device of a node: the Z-Wave prefix and the node's EUID. */
  function NodeDevice(homeId: nat, nodeId: uint8): DeviceID
  {
    MakeDeviceID(PrefixZWave, GetEUID(homeId, nodeId))
  }

  /** A node's device carries the Z-Wave prefix and the EUID of the node as its ident. */
  lemma NodeDeviceLayout(homeId: nat, nodeId: uint8)
    ensures DevicePrefixOf(NodeDevice(homeId, nodeId)) == Ok(PrefixZWave)
    ensures DeviceIdent(NodeDevice(homeId, nodeId)) == TEST_HOME_ID * 0x100 + nodeId as nat
  {
    EUIDLayout(homeId, nodeId);
    assert TEST_HOME_ID * 0x100 + nodeId as nat < IDENT_BOUND;
  }

  /** sendValue, once extractValues has run on the items built from the node's values. */
  function SendOutcomeOf(extracted: Result<seq<SensorValue>, Exception>, homeId: nat, nodeId: uint8,
                         paired: set<DeviceID>, listen: bool): SendOutcome
  {
    if extracted.Err? then Thrown(extracted.error)
    else
      var data := SensorData(NodeDevice(homeId, nodeId), extracted.value);
      if data.device !in paired && !listen then Dropped else Sent(SensorDataObject(data))
  }

  /**
   * What sendValue's message is: the node's device and the extracted values,
   * decodable by the server; it is dropped exactly when the device is
   * neither paired nor listened for.
   */
  lemma SentMessage(extracted: Result<seq<SensorValue>, Exception>, homeId: nat, nodeId: uint8,
                    paired: set<DeviceID>, listen: bool)
    requires extracted.Ok? ==> ModulesAtMost(extracted.value, 8)
    ensures var o := SendOutcomeOf(extracted, homeId, nodeId, paired, listen);
      o.Sent? ==>
        (NodeDevice(homeId, nodeId) in paired || listen) && extracted.Ok? &&
        ToSensorData(o.message) == Ok(SensorData(NodeDevice(homeId, nodeId), extracted.value))
    ensures SendOutcomeOf(extracted, homeId, nodeId, paired, listen).Dropped? <==>
      extracted.Ok? && NodeDevice(homeId, nodeId) !in paired && !listen
    ensures SendOutcomeOf(extracted, homeId, nodeId, paired, listen).Thrown? <==> extracted.Err?
  {
    if extracted.Ok? {
      var data := SensorData(NodeDevice(homeId, nodeId), extracted.value);
      assert WireModules(data.values);
      SensorDataRoundTrip(data);
    }
  }

  /** The products' values always satisfy SentMessage's requirement. */
  lemma ProductSentMessage(p: Product, items: seq<ZWaveSensorValue>, homeId: nat, nodeId: uint8,
                           paired: set<DeviceID>, listen: bool)
    ensures var o := SendOutcomeOf(ExtractedValues(p, items), homeId, nodeId, paired, listen);
      o.Sent? ==> ToSensorData(o.message) == Ok(SensorData(NodeDevice(homeId, nodeId), ExtractedValues(p, items).value))
  {
    ExtractedModules(p, items);
    SentMessage(ExtractedValues(p, items), homeId, nodeId, paired, listen);
  }

  /**
   * valueChanged: a known node's manufacturer and product ids are parsed as
   * hex and handed to the factory; a failure of either is logged and ends
   * the notification; otherwise sendValue runs on the node's values.
   */
  function ValueChangedOutcome(nodes: map<uint8, NodeInfo>, registry: map<nat, Manufacturer>, manager: ZWaveManager,
                               homeId: nat, nodeId: uint8, paired: set<DeviceID>, listen: bool): SendOutcome
  {
    if nodeId !in nodes then NotSent
    else
      var manufacturer := ParseHexBounded(manager.manufacturerId(homeId, nodeId), UINT32);
      var product := ParseHexBounded(manager.productId(homeId, nodeId), UINT32);
      if manufacturer.Err? || product.Err? then NotSent
      else
        var message := RegistryCreate(registry, manufacturer.value, product.value);
        if message.Err? then NotSent
        else
          var ids := nodes[nodeId].values;
          var items := seq(|ids|, i requires 0 <= i < |ids| => ItemOf(ids[i], manager));
          SendOutcomeOf(ExtractedValues(message.value, items), homeId, nodeId, paired, listen)
  }

  /** With the standard factories, a change is sent only for a known node with a known product. */
  lemma ChangeNeedsKnownProduct(nodes: map<uint8, NodeInfo>, manager: ZWaveManager,
                                homeId: nat, nodeId: uint8, paired: set<DeviceID>, listen: bool)
    ensures ValueChangedOutcome(nodes, StandardRegistry(), manager, homeId, nodeId, paired, listen).Sent? ==>
      nodeId in nodes &&
      exists f :: ParseHexBounded(manager.manufacturerId(homeId, nodeId), UINT32) == Ok(ManufacturerCode(f)) &&
                  ParseHexBounded(manager.productId(homeId, nodeId), UINT32) == Ok(ProductCode(f))
  {
    var outcome := ValueChangedOutcome(nodes, StandardRegistry(), manager, homeId, nodeId, paired, listen);
    if outcome.Sent? {
      var manufacturer := ParseHexBounded(manager.manufacturerId(homeId, nodeId), UINT32);
      var product := ParseHexBounded(manager.productId(homeId, nodeId), UINT32);
      StandardRegistryCreates(manufacturer.value, product.value);
    }
  }

  /** The messages an outcome puts on the wire. */
  function Delivered(outcome: SendOutcome): seq<Object>
  {
    if outcome.Sent? then [outcome.message] else []
  }

  /** NotificationProcessor with its node map, the home id and what it has sent. */
  class NotificationProcessor {
    var nodes: map<uint8, NodeInfo>
    var homeId: nat
    var initFailed: bool
    var paired: set<DeviceID>
    var listen: bool
    var registry: map<nat, Manufacturer>
    var sent: seq<Object>

    constructor(paired: set<DeviceID>, listen: bool, registry: map<nat, Manufacturer>)
      ensures this.nodes == map[] && this.homeId == 0 && !this.initFailed
      ensures this.paired == paired && this.listen == listen && this.registry == registry && this.sent == []
    {
      this.nodes := map[];
      this.homeId := 0;
      this.initFailed := false;
      this.paired := paired;
      this.listen := listen;
      this.registry := registry;
      this.sent := [];
    }

    /** findNodeInfo. */
    function FindNode(nodeId: uint8): (r: Option<NodeInfo>)
      reads this
      ensures r.Some? <==> nodeId in nodes
      ensures r.Some? ==> r.value == nodes[nodeId]
    {
      FindNodeInfo(nodes, nodeId)
    }

    /** The loop of sendValue that asks the manager for every value's text and unit. */
    static method CollectItems(ids: seq<ValueID>, manager: ZWaveManager) returns (items: seq<ZWaveSensorValue>)
      ensures |items| == |ids|
      ensures forall i :: 0 <= i < |ids| ==> items[i] == ItemOf(ids[i], manager)
    {
      items := [];
      var i := 0;
      while i < |ids|
        invariant 0 <= i <= |ids|
        invariant |items| == i
        invariant forall j :: 0 <= j < i ==> items[j] == ItemOf(ids[j], manager)
      {
        items := items + [ItemOf(ids[i], manager)];
        i := i + 1;
      }
    }

    /** sendValue: extract, address to the node's device, drop or send. */
    method SendValue(nodeId: uint8, p: Product, ids: seq<ValueID>, manager: ZWaveManager) returns (outcome: SendOutcome)
      modifies this
      ensures outcome == SendOutcomeOf(ExtractedValues(p, seq(|ids|, i requires 0 <= i < |ids| => ItemOf(ids[i], manager))),
                                       homeId, nodeId, paired, listen)
      ensures sent == old(sent) + Delivered(outcome)
      ensures nodes == old(nodes) && homeId == old(homeId) && initFailed == old(initFailed)
      ensures paired == old(paired) && listen == old(listen) && registry == old(registry)
    {
      var items := CollectItems(ids, manager);
      assert items == seq(|ids|, i requires 0 <= i < |ids| => ItemOf(ids[i], manager));
      var extracted := ExtractValues(p, items);
      if extracted.Err? {
        return Thrown(extracted.error);
      }
      var data := SensorData(NodeDevice(homeId, nodeId), extracted.value);
      if data.device !in paired && !listen {
        return Dropped;
      }
      outcome := Sent(SensorDataObject(data));
      sent := sent + [outcome.message];
    }

    /** valueChanged. */
    method OnValueChanged(nodeId: uint8, manager: ZWaveManager) returns (outcome: SendOutcome)
      modifies this
      ensures outcome == ValueChangedOutcome(nodes, registry, manager, homeId, nodeId, paired, listen)
      ensures sent == old(sent) + Delivered(outcome)
      ensures nodes == old(nodes) && homeId == old(homeId) && initFailed == old(initFailed)
      ensures paired == old(paired) && listen == old(listen) && registry == old(registry)
    {
      var node := FindNode(nodeId);
      if node.None? {
        return NotSent;
      }
      var manufacturer := ParseHexBounded(manager.manufacturerId(homeId, nodeId), UINT32);
      var product := ParseHexBounded(manager.productId(homeId, nodeId), UINT32);
      if manufacturer.Err? || product.Err? {
        return NotSent;
      }
      var message := RegistryCreate(registry, manufacturer.value, product.value);
      if message.Err? {
        return NotSent;
      }
      outcome := SendValue(nodeId, message.value, node.value.values, manager);
    }

    /**
     * onNotification: updates the node map, records the home id when the
     * driver is ready and the failure when it fails, and handles a changed
     * value.
     */
    method OnNotification(n: Notification, manager: ZWaveManager) returns (outcome: SendOutcome)
      modifies this
      ensures nodes == NodesAfter(old(nodes), n)
      ensures homeId == if n.kind == DriverReady then n.homeId else old(homeId)
      ensures initFailed == (old(initFailed) || n.kind == DriverFailed)
      ensures outcome == if n.kind == ValueChanged
        then ValueChangedOutcome(old(nodes), registry, manager, old(homeId), n.nodeId, paired, listen)
        else NotSent
      ensures sent == old(sent) + Delivered(outcome)
      ensures paired == old(paired) && listen == old(listen) && registry == old(registry)
    {
      outcome := NotSent;
      var id := n.nodeId;
      match n.kind {
        case ValueAdded =>
          if id in nodes {
            nodes := nodes[id := NodeInfo(nodes[id].polled, nodes[id].values + [n.valueId])];
          }
        case ValueRemoved =>
          nodes := nodes - {id};
        case ValueChanged =>
          outcome := OnValueChanged(id, manager);
        case NodeAdded =>
          if id !in nodes {
            nodes := nodes[id := NodeInfo(false, [])];
          }
        case NodeRemoved =>
          nodes := nodes - {id};
        case PollingDisabled =>
          if id in nodes {
            nodes := nodes[id := NodeInfo(false, nodes[id].values)];
          }
        case PollingEnabled =>
          if id in nodes {
            nodes := nodes[id := NodeInfo(true, nodes[id].values)];
          }
        case DriverReady =>
          homeId := n.homeId;
        case DriverFailed =>
          initFailed := true;
        case _ =>
      }
    }
  }
}
