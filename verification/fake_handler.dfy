/**
 * FakeHandlerTest: a command handler that stands in for the server in
 * tests. It answers device-list and last-value requests from a configured
 * set of paired devices and last values, and starts a deferred action the
 * first time it is asked for a device list.
 */
module FakeHandler {
  import opened Wrappers
  import opened Numerals
  import opened Identity
  import opened SensorModel
  import opened Commands
  import opened Answers
  import opened ZWave
  import opened ZWaveNotifications

  // ---------------------------------------------------------------- device ids

  /**
   * generateDeviceID: the serial is parsed as an unsigned 64-bit number; 0
   * means no device; a Z-Wave ident is the test home id shifted by a byte,
   * or-ed with the serial cut to 32 bits; any other prefix takes the serial.
   */
  function GenerateDeviceID(prefix: DevicePrefix, serial: string): Result<Option<DeviceID>, Exception>
  {
    var number := ParseUnsignedBounded(serial, UINT64);
    if number.Err? then Err(number.error)
    else if number.value == 0 then Ok(None)
    else if prefix == PrefixZWave then Ok(Some(MakeDeviceID(prefix, BitOr(TEST_HOME_ID * 0x100, number.value % UINT32))))
    else Ok(Some(MakeDeviceID(prefix, number.value)))
  }

  /**
   * A Z-Wave serial that is a node id 1..255 names the same device the
   * notification processor reports values under; other prefixes keep the
   * serial as their ident.
   */
  lemma GeneratedDevices(prefix: DevicePrefix, n: nat)
    requires 0 < n < UINT64
    ensures prefix == PrefixZWave && n < 0x100 ==>
      GenerateDeviceID(prefix, FormatDecimal(n)) == Ok(Some(NodeDevice(0, n as uint8)))
    ensures prefix != PrefixZWave ==>
      GenerateDeviceID(prefix, FormatDecimal(n)).Ok? &&
      GenerateDeviceID(prefix, FormatDecimal(n)).value.Some? &&
      DevicePrefixOf(GenerateDeviceID(prefix, FormatDecimal(n)).value.value) == Ok(prefix) &&
      DeviceIdent(GenerateDeviceID(prefix, FormatDecimal(n)).value.value) == n % IDENT_BOUND
    ensures GenerateDeviceID(prefix, FormatDecimal(0)) == Ok(None)
  {
    ParseFormatDecimal(n, UINT64);
    ParseFormatDecimal(0, UINT64);
  }

  // ---------------------------------------------------------------- std::set<DeviceID>

  /** A std::set<DeviceID> in iteration order: ascending, no repeats. */
  predicate StrictlySorted(s: seq<DeviceID>)
  {
    forall i, j :: 0 <= i < j < |s| ==> s[i].value < s[j].value
  }

  /** std::set::insert: a device already present is not added again. */
  function SetInsert(s: seq<DeviceID>, d: DeviceID): seq<DeviceID>
    decreases |s|
  {
    if |s| == 0 then [d]
    else if d.value < s[0].value then [d] + s
    else if d == s[0] then s
    else [s[0]] + SetInsert(s[1..], d)
  }

  lemma ConsSorted(h: DeviceID, t: seq<DeviceID>)
    requires StrictlySorted(t)
    requires forall x :: x in t ==> h.value < x.value
    ensures StrictlySorted([h] + t)
  {
    var r := [h] + t;
    forall i, j | 0 <= i < j < |r|
      ensures r[i].value < r[j].value
    {
      assert r[j] == t[j - 1];
      if i > 0 {
        assert r[i] == t[i - 1];
      }
    }
  }

  lemma {:induction false} SetInsertSpec(s: seq<DeviceID>, d: DeviceID)
    requires StrictlySorted(s)
    ensures StrictlySorted(SetInsert(s, d))
    ensures forall x :: x in SetInsert(s, d) <==> x in s || x == d
    decreases |s|
  {
    if |s| == 0 {
    } else if d.value < s[0].value {
      ConsSorted(d, s);
    } else if d != s[0] {
      var tail := s[1..];
      assert s == [s[0]] + tail;
      SetInsertSpec(tail, d);
      ConsSorted(s[0], SetInsert(tail, d));
    }
  }

  /** The devices of one prefix, in set order. */
  function WithPrefix(s: seq<DeviceID>, p: DevicePrefix): seq<DeviceID>
    decreases |s|
  {
    if |s| == 0 then []
    else
      var last := s[|s| - 1];
      WithPrefix(s[..|s| - 1], p) + (if DevicePrefixOf(last) == Ok(p) then [last] else [])
  }

  /** pairedDevices returns exactly the paired devices of the prefix, still ascending. */
  lemma {:induction false} WithPrefixSpec(s: seq<DeviceID>, p: DevicePrefix)
    ensures forall x :: x in WithPrefix(s, p) <==> x in s && DevicePrefixOf(x) == Ok(p)
    ensures StrictlySorted(s) ==> StrictlySorted(WithPrefix(s, p))
    decreases |s|
  {
    if |s| > 0 {
      var init := s[..|s| - 1];
      var last := s[|s| - 1];
      WithPrefixSpec(init, p);
      assert s == init + [last];
      if StrictlySorted(s) {
        assert StrictlySorted(init);
        var w := WithPrefix(s, p);
        var wi := WithPrefix(init, p);
        forall i, j | 0 <= i < j < |w|
          ensures w[i].value < w[j].value
        {
          if j == |wi| {
            assert w[i] == wi[i] && wi[i] in init;
          } else {
            assert w[i] == wi[i] && w[j] == wi[j];
          }
        }
      }
    }
  }

  // ---------------------------------------------------------------- the handler

  /** accept: the handler takes device-list and last-value requests. */
  function Accept(cmd: Command): bool
  {
    cmd.ServerDeviceList? || cmd.ServerLastValue?
  }

  /** The actions setAction accepts. */
  const Actions: set<string> := {"listen", "unpair", "set_value"}

  /** The configuration setters, one per device kind. */
  datatype Slot =
    | AC881 | AC882 | JA81M | JA82SH | JA83M | JA83P | JA85ST | RC86K | TP82N
    | Aeotec | DLink | Fibaro | Philio | Popp

  function SlotPrefix(slot: Slot): DevicePrefix
  {
    if slot in {Aeotec, DLink, Fibaro, Philio, Popp} then PrefixZWave else PrefixJablotron
  }

  /** The last-value setters. */
  datatype LastValueSlot =
    | AC881LastValue | AC882LastValue | AeotecPirSensorLastValue | AeotecRefreshTimeLastValue
    | DLinkLastState | PoppLastState

  /** Not set by the constructor of ServerLastValueResult as far as this model knows. */
  const UNSET_LAST_VALUE: Double := None

  /** What handling a last-value request leaves in the Answer. */
  datatype Reply = Reply(result: ResultRecord, touched: bool, error: Option<Exception>)

  function IntValue(i: int): Double { Some(i as real) }

  class FakeHandlerTest {
    /** m_pairedDevice in iteration order. */
    var paired: seq<DeviceID>
    var ac881: Option<DeviceID>
    var ac882: Option<DeviceID>
    var aeotec: Option<DeviceID>
    var dlink: Option<DeviceID>
    var popp: Option<DeviceID>
    var ac881Last: int
    var ac882Last: int
    var aeotecPirLast: int
    var aeotecRefreshLast: int
    var dlinkLast: int
    var poppLast: int
    var action: string
    var activeAction: bool
    /** Whether the deferred action's timer was started. */
    var timerStarted: bool

    predicate Valid()
      reads this
    {
      StrictlySorted(paired) && (action == "" || action in Actions)
    }

    constructor()
      ensures Valid() && paired == [] && activeAction && !timerStarted && action == ""
      ensures ac881.None? && ac882.None? && aeotec.None? && dlink.None? && popp.None?
    {
      paired := [];
      ac881, ac882, aeotec, dlink, popp := None, None, None, None, None;
      ac881Last, ac882Last, aeotecPirLast, aeotecRefreshLast, dlinkLast, poppLast := 0, 0, 0, 0, 0, 0;
      action := "";
      activeAction := true;
      timerStarted := false;
    }

    /** The device a setter remembers; only five of them keep one. */
    function Remembered(slot: Slot): Option<DeviceID>
      reads this
    {
      match slot
      case AC881 => ac881
      case AC882 => ac882
      case Aeotec => aeotec
      case DLink => dlink
      case Popp => popp
      case _ => None
    }

    /**
     * setJablotronAC881 and the other device setters: the generated device
     * joins the paired set iff it is not null; the remembering setters keep
     * it even when it is null. A serial that is not a number throws.
     */
    method SetDevice(slot: Slot, serial: string) returns (error: Option<Exception>)
      requires Valid()
      modifies this`paired, this`ac881, this`ac882, this`aeotec, this`dlink, this`popp
      ensures Valid()
      ensures var g := GenerateDeviceID(SlotPrefix(slot), serial);
        (g.Err? <==> error.Some?) &&
        (g.Err? ==> error == Some(g.error) && paired == old(paired)) &&
        (g.Ok? ==> paired == if g.value.Some? then SetInsert(old(paired), g.value.value) else old(paired)) &&
        (forall s :: Remembered(s) == if g.Ok? && s == slot && slot in {AC881, AC882, Aeotec, DLink, Popp}
                                      then g.value else old(Remembered(s)))
    {
      var g := GenerateDeviceID(SlotPrefix(slot), serial);
      if g.Err? {
        return Some(g.error);
      }
      error := None;
      if g.value.Some? {
        SetInsertSpec(paired, g.value.value);
        paired := SetInsert(paired, g.value.value);
      }
      match slot {
        case AC881 => ac881 := g.value;
        case AC882 => ac882 := g.value;
        case Aeotec => aeotec := g.value;
        case DLink => dlink := g.value;
        case Popp => popp := g.value;
        case _ =>
      }
    }

    /** The last values the handler answers with, one setter each. */
    method SetLastValue(which: LastValueSlot, v: int)
      modifies this`ac881Last, this`ac882Last, this`aeotecPirLast, this`aeotecRefreshLast, this`dlinkLast, this`poppLast
      ensures ac881Last == (if which == AC881LastValue then v else old(ac881Last))
      ensures ac882Last == (if which == AC882LastValue then v else old(ac882Last))
      ensures aeotecPirLast == (if which == AeotecPirSensorLastValue then v else old(aeotecPirLast))
      ensures aeotecRefreshLast == (if which == AeotecRefreshTimeLastValue then v else old(aeotecRefreshLast))
      ensures dlinkLast == (if which == DLinkLastState then v else old(dlinkLast))
      ensures poppLast == (if which == PoppLastState then v else old(poppLast))
    {
      match which {
        case AC881LastValue => ac881Last := v;
        case AC882LastValue => ac882Last := v;
        case AeotecPirSensorLastValue => aeotecPirLast := v;
        case AeotecRefreshTimeLastValue => aeotecRefreshLast := v;
        case DLinkLastState => dlinkLast := v;
        case PoppLastState => poppLast := v;
      }
    }

    /** setAction: only "listen", "unpair" and "set_value"; anything else throws and keeps the action. */
    method SetAction(a: string) returns (error: Option<Exception>)
      requires Valid()
      modifies this`action
      ensures Valid()
      ensures error.None? <==> a in Actions
      ensures error.Some? ==> error == Some(InvalidArgument) && action == old(action)
      ensures error.None? ==> action == a
    {
      if a == "listen" || a == "unpair" || a == "set_value" {
        action := a;
        error := None;
      } else {
        error := Some(InvalidArgument);
      }
    }

    /** pairedDevices: one pass over the set, keeping the devices of the prefix. */
    method PairedDevices(prefix: DevicePrefix) returns (devices: seq<DeviceID>)
      ensures devices == WithPrefix(paired, prefix)
    {
      devices := [];
      var i := 0;
      while i < |paired|
        invariant 0 <= i <= |paired|
        invariant devices == WithPrefix(paired[..i], prefix)
      {
        assert paired[..i + 1][..i] == paired[..i];
        if DevicePrefixOf(paired[i]) == Ok(prefix) {
          devices := devices + [paired[i]];
        }
        i := i + 1;
      }
      assert paired[..i] == paired;
    }

    /**
     * The last-value branch of handle: Jablotron devices answer from the two
     * AC-88 slots and any other Jablotron device fails and throws; other
     * devices answer from the Popp, D-Link and Aeotec slots and leave an
     * unknown device or module pending. A device whose prefix byte is not a
     * prefix throws before anything is set.
     */
    function LastValueReply(device: DeviceID, moduleId: ModuleID): Reply
      reads this
    {
      var blank := NewResult(LastValue(UNSET_LAST_VALUE));
      var prefix := DevicePrefixOf(device);
      if prefix.Err? then Reply(blank, false, Some(prefix.error))
      else if prefix.value == PrefixJablotron then
        if ac881 == Some(device) then Reply(ResultRecord(Success, LastValue(IntValue(ac881Last))), true, None)
        else if ac882 == Some(device) then Reply(ResultRecord(Success, LastValue(IntValue(ac882Last))), true, None)
        else Reply(ResultRecord(Failed, LastValue(Some(0.0))), true, Some(InvalidArgument))
      else if popp == Some(device) then Reply(ResultRecord(Success, LastValue(IntValue(poppLast))), true, None)
      else if dlink == Some(device) then Reply(ResultRecord(Success, LastValue(IntValue(dlinkLast))), true, None)
      else if aeotec == Some(device) && moduleId == 6 then
        Reply(ResultRecord(Success, LastValue(IntValue(aeotecPirLast))), true, None)
      else if aeotec == Some(device) && moduleId == 8 then
        Reply(ResultRecord(Success, LastValue(IntValue(aeotecRefreshLast))), true, None)
      else Reply(blank, true, None)
    }

    /**
     * handle: a device-list request starts the deferred action the first
     * time and answers SUCCESS with the paired devices of the prefix; a
     * last-value request answers as LastValueReply says; other commands
     * leave the Answer alone.
     */
    method Handle(cmd: Command, answer: Answer) returns (error: Option<Exception>)
      requires !answer.locked
      modifies this`activeAction, this`timerStarted, answer
      ensures !answer.locked && answer.commands == old(answer.commands)
      ensures cmd.ServerDeviceList? ==>
        answer.results == old(answer.results) + [ResultRecord(Success, DeviceList(WithPrefix(paired, cmd.prefix)))] &&
        answer.dirty && error == None &&
        !activeAction && timerStarted == (old(timerStarted) || old(activeAction))
      ensures cmd.ServerLastValue? ==>
        var reply := LastValueReply(cmd.device, cmd.moduleId);
        answer.results == old(answer.results) + [reply.result] &&
        answer.dirty == (old(answer.dirty) || reply.touched) && error == reply.error
      ensures !cmd.ServerDeviceList? ==> activeAction == old(activeAction) && timerStarted == old(timerStarted)
      ensures !Accept(cmd) ==> answer.results == old(answer.results) && answer.dirty == old(answer.dirty) && error == None
    {
      error := None;
      if cmd.ServerDeviceList? {
        HandleDeviceList(cmd.prefix, answer);
      } else if cmd.ServerLastValue? {
        error := HandleLastValue(cmd.device, cmd.moduleId, answer);
      }
    }

    /** The device-list branch of handle. */
    method HandleDeviceList(prefix: DevicePrefix, answer: Answer)
      requires !answer.locked
      modifies this`activeAction, this`timerStarted, answer
      ensures !answer.locked && answer.commands == old(answer.commands)
      ensures answer.results == old(answer.results) + [ResultRecord(Success, DeviceList(WithPrefix(paired, prefix)))]
      ensures answer.dirty && !activeAction && timerStarted == (old(timerStarted) || old(activeAction))
    {
      if activeAction {
        timerStarted := true;
        activeAction := false;
      }
      var index := answer.AddResult(NewResult(DeviceList([])));
      var devices := PairedDevices(prefix);
      answer.Acquire();
      answer.SetDeviceListUnlocked(index, devices);
      answer.SetStatusUnlocked(index, Success);
      answer.Release();
    }

    /** The last-value branch of handle. */
    method HandleLastValue(device: DeviceID, moduleId: ModuleID, answer: Answer) returns (error: Option<Exception>)
      requires !answer.locked
      modifies answer
      ensures !answer.locked && answer.commands == old(answer.commands)
      ensures var reply := LastValueReply(device, moduleId);
        answer.results == old(answer.results) + [reply.result] &&
        answer.dirty == (old(answer.dirty) || reply.touched) && error == reply.error
    {
      error := None;
      var index := answer.AddResult(NewResult(LastValue(UNSET_LAST_VALUE)));
      answer.Acquire();
      var prefix := DevicePrefixOf(device);
      if prefix.Err? {
        error := Some(prefix.error);
      } else if prefix.value == PrefixJablotron {
        if ac881 == Some(device) {
          answer.SetValueUnlocked(index, IntValue(ac881Last));
          answer.SetStatusUnlocked(index, Success);
        } else if ac882 == Some(device) {
          answer.SetValueUnlocked(index, IntValue(ac882Last));
          answer.SetStatusUnlocked(index, Success);
        } else {
          answer.SetValueUnlocked(index, Some(0.0));
          answer.SetStatusUnlocked(index, Failed);
          error := Some(InvalidArgument);
        }
        if error.None? {
          answer.NotifyUpdated();
        }
      } else {
        if popp == Some(device) {
          answer.SetValueUnlocked(index, IntValue(poppLast));
          answer.SetStatusUnlocked(index, Success);
        } else if dlink == Some(device) {
          answer.SetValueUnlocked(index, IntValue(dlinkLast));
          answer.SetStatusUnlocked(index, Success);
        } else if aeotec == Some(device) && moduleId == 6 {
          answer.SetValueUnlocked(index, IntValue(aeotecPirLast));
          answer.SetStatusUnlocked(index, Success);
        } else if aeotec == Some(device) && moduleId == 8 {
          answer.SetValueUnlocked(index, IntValue(aeotecRefreshLast));
          answer.SetStatusUnlocked(index, Success);
        }
        answer.NotifyUpdated();
      }
      answer.Release();
    }
  }
}
