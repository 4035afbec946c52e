/**
 * ZMQBroker: the gateway side of the protocol. It registers device
 * managers on the hello socket, fans commands out to them on the data
 * socket, correlates their replies with the Answers waiting for them,
 * forwards dirty Answers, and escalates set-value results on each tick of
 * the settings timer. The clock (`now`), fresh message ids and the list
 * of dirty Answers are parameters; sockets are the connector's output log.
 */
module Broker {
  import opened Wrappers
  import opened Identity
  import opened SensorModel
  import opened Commands
  import opened Answers
  import opened ManagerTable
  import opened MessageTypes
  import opened Messages
  import opened Connector

  /** m_settingTable's value: the set-value command, its Answer and its deadline. */
  datatype SettingItem = SettingItem(cmd: Command, answer: Answer, endTime: Micros)

  /** m_cmdTable's value: the Answer, the command, and the Result made for one target (its place in the Answer). */
  datatype CmdItem = CmdItem(answer: Answer, cmd: Command, index: nat)

  /** m_resultTable's value: where the reply to a manager's own command goes. */
  datatype ResultItem = ResultItem(resultId: GlobalID, manager: DeviceManagerID, cmd: Command)

  /** A command handed to the command dispatcher with the Answer that collects its results. */
  datatype Dispatch = Dispatch(cmd: Command, answer: Answer)

  // ------------------------------------------------------------ accept and targets

  /**
   * accept: a set-value needs a registered manager of the device's prefix;
   * an unpair computes the same check but ignores it; listen is always
   * taken. A device ID whose top byte is no prefix throws.
   */
  function Accepts(cmd: Command, managers: seq<DeviceManagerID>): Result<bool, Exception>
  {
    match cmd
    case DeviceSetValue(device, _, _, _) =>
      var p := DevicePrefixOf(device);
      if p.Err? then Err(p.error) else Ok(|ByPrefix(managers, p.value)| > 0)
    case DeviceUnpair(device) =>
      var p := DevicePrefixOf(device);
      if p.Err? then Err(p.error) else Ok(true)
    case GatewayListen(_) => Ok(true)
    case _ => Ok(false)
  }

  lemma AcceptRules(cmd: Command, managers: seq<DeviceManagerID>)
    ensures cmd.DeviceSetValue? && DevicePrefixOf(cmd.device).Ok? ==>
      (Accepts(cmd, managers) == Ok(true) <==>
        exists i :: 0 <= i < |managers| && ManagerPrefix(managers[i]) == DevicePrefixOf(cmd.device))
    ensures cmd.DeviceUnpair? && DevicePrefixOf(cmd.device).Ok? ==> Accepts(cmd, managers) == Ok(true)
    ensures cmd.GatewayListen? ==> Accepts(cmd, managers) == Ok(true)
    ensures cmd.ServerDeviceList? || cmd.ServerLastValue? || cmd.OtherCommand? ==> Accepts(cmd, managers) == Ok(false)
  {
    if cmd.DeviceSetValue? && DevicePrefixOf(cmd.device).Ok? {
      var p := DevicePrefixOf(cmd.device).value;
      ByPrefixMembers(managers, p);
      if exists i :: 0 <= i < |managers| && ManagerPrefix(managers[i]) == Ok(p) {
        var i :| 0 <= i < |managers| && ManagerPrefix(managers[i]) == Ok(p);
        assert managers[i] in ByPrefix(managers, p);
      } else {
        ByPrefixNone(managers, p);
      }
    }
  }

  /** The managers handle sends a command to, in table order. */
  function Targets(cmd: Command, managers: seq<DeviceManagerID>): (r: Result<seq<DeviceManagerID>, Exception>)
    ensures r.Ok? ==> |r.value| <= |managers|
  {
    match cmd
    case DeviceSetValue(device, _, _, _) =>
      var p := DevicePrefixOf(device);
      if p.Err? then Err(p.error) else ByPrefixMembers(managers, p.value); Ok(ByPrefix(managers, p.value))
    case DeviceUnpair(device) =>
      var p := DevicePrefixOf(device);
      if p.Err? then Err(p.error) else ByPrefixMembers(managers, p.value); Ok(ByPrefix(managers, p.value))
    case GatewayListen(_) => Ok(managers)
    case _ => Ok([])
  }

  /** Device commands go to exactly the managers of the device's prefix; listen goes to all of them. */
  lemma TargetsChosen(cmd: Command, managers: seq<DeviceManagerID>)
    ensures (cmd.DeviceSetValue? || cmd.DeviceUnpair?) && DevicePrefixOf(cmd.device).Ok? ==>
      Targets(cmd, managers).Ok? &&
      (forall d :: d in Targets(cmd, managers).value <==> d in managers && ManagerPrefix(d) == DevicePrefixOf(cmd.device))
    ensures cmd.GatewayListen? ==> Targets(cmd, managers) == Ok(managers)
    ensures Targets(cmd, managers).Ok? ==> |Targets(cmd, managers).value| <= |managers|
    ensures Targets(cmd, managers).Ok? && |Targets(cmd, managers).value| > 0 ==> WireKind(cmd)
  {
    if (cmd.DeviceSetValue? || cmd.DeviceUnpair?) && DevicePrefixOf(cmd.device).Ok? {
      ByPrefixMembers(managers, DevicePrefixOf(cmd.device).value);
    }
  }

  /** The commands handle can send: the ones a manager can be targeted with. */
  predicate WireKind(cmd: Command)
  {
    cmd.DeviceSetValue? || cmd.DeviceUnpair? || cmd.GatewayListen?
  }

  /** Two Z-Wave managers registered in turn both receive a Z-Wave set-value, one Result each. */
  lemma TwoZWavePeers(cmd: Command)
    requires cmd.DeviceSetValue? && DevicePrefixOf(cmd.device) == Ok(PrefixZWave)
    ensures RegisterAll([PrefixZWave, PrefixZWave]).Some?
    ensures Targets(cmd, RegisterAll([PrefixZWave, PrefixZWave]).value) == Ok(RegisterAll([PrefixZWave, PrefixZWave]).value)
    ensures |RegisterAll([PrefixZWave, PrefixZWave]).value| == 2
  {
    var ps := [PrefixZWave, PrefixZWave];
    RegistrationsCountUp(ps);
    ByPrefixAll(RegisterAll(ps).value, PrefixZWave);
  }

  // ------------------------------------------------------------ handle

  /**
   * The Result handle creates for each target. A set-value needs a
   * DeviceSetValueResult, because the settings tick reads the extended
   * status of at(0); see HandleResultAsWritten for the source's choice.
   */
  function HandleResult(cmd: Command): (r: ResultRecord)
    ensures r.status == Pending
    ensures IsSetValueResult(r) <==> cmd.DeviceSetValue?
  {
    if cmd.DeviceSetValue? then NewResult(SetValue(None)) else NewResult(Plain)
  }

  /** The Results handle adds to the Answer, one per target. */
  function HandleResults(cmd: Command, n: nat): (rs: seq<ResultRecord>)
    ensures |rs| == n
  {
    if n == 0 then [] else HandleResults(cmd, n - 1) + [HandleResult(cmd)]
  }

  /** Every Result handle adds is pending, and of the command's own kind. */
  lemma {:induction false} HandleResultsPending(cmd: Command, n: nat)
    ensures forall k :: 0 <= k < n ==>
      HandleResults(cmd, n)[k].status == Pending && (IsSetValueResult(HandleResults(cmd, n)[k]) <==> cmd.DeviceSetValue?)
  {
    if n > 0 {
      HandleResultsPending(cmd, n - 1);
    }
  }


  /** handle as written creates a plain Result for every command. */
  function HandleResultAsWritten(cmd: Command): ResultRecord
  {
    NewResult(Plain)
  }

  /** The Results handle as written adds to the Answer, one per target. */
  function HandleResultsAsWritten(cmd: Command, n: nat): (rs: seq<ResultRecord>)
    ensures |rs| == n
  {
    if n == 0 then [] else HandleResultsAsWritten(cmd, n - 1) + [HandleResultAsWritten(cmd)]
  }

  /**
   * For a set-value sent to at least one manager, at(0) of a fresh Answer
   * cannot be cast to DeviceSetValueResult as written, and can be with the
   * corrected Result.
   */
  lemma {:induction false} AsWrittenCastFails(cmd: Command, n: nat)
    requires cmd.DeviceSetValue? && n > 0
    ensures CastFails(HandleResultsAsWritten(cmd, n))
    ensures !CastFails(HandleResults(cmd, n))
  {
    if n > 1 {
      AsWrittenCastFails(cmd, n - 1);
    }
  }

  /** As written, one tick over a table holding such an Answer throws NullPointerException. */
  lemma AsWrittenTickAborts(snap: map<DeviceID, seq<ResultRecord>>, d: DeviceID, cmd: Command, n: nat)
    requires cmd.DeviceSetValue? && n > 0
    requires d in snap && snap[d] == HandleResultsAsWritten(cmd, n)
    ensures TickOutcome(snap) == Err(NullPointer)
    ensures !Reached(snap, d)
  {
    AsWrittenCastFails(cmd, n);
  }

  /**
   * The message sent to one target: the command's attributes (`fields`)
   * with the message id added, addressed with the target's ID text.
   */
  function CommandFrame(fields: Object, target: DeviceManagerID, id: GlobalID): Sent
  {
    Sent(DataSocket, ManagerToString(target), fields["id" := JString(id)])
  }

  /** The messages sent to the first n targets, in table order, message i under ids[i]. */
  function CommandFrames(fields: Object, targets: seq<DeviceManagerID>, ids: seq<GlobalID>, n: nat): (frames: seq<Sent>)
    requires n <= |targets| <= |ids|
    ensures |frames| == n
  {
    if n == 0 then [] else CommandFrames(fields, targets, ids, n - 1) + [CommandFrame(fields, targets[n - 1], ids[n - 1])]
  }

  lemma {:induction false} CommandFramesAt(fields: Object, targets: seq<DeviceManagerID>, ids: seq<GlobalID>, n: nat, k: nat)
    requires k < n <= |targets| <= |ids|
    ensures CommandFrames(fields, targets, ids, n)[k] == CommandFrame(fields, targets[k], ids[k])
  {
    if k < n - 1 {
      CommandFramesAt(fields, targets, ids, n - 1, k);
    }
  }

  /** Frame k goes to target k, and its message reads back as the command under id k. */
  lemma CommandFramesDecode(cmd: Command, targets: seq<DeviceManagerID>, ids: seq<GlobalID>, k: nat)
    requires WireKind(cmd) && WireCommand(cmd) && |ids| >= |targets| && k < |targets|
    ensures CommandFrames(CommandFields(cmd).value, targets, ids, |targets|)[k].socket == DataSocket
    ensures CommandFrames(CommandFields(cmd).value, targets, ids, |targets|)[k].peer == ManagerToString(targets[k])
    ensures ToCommand(CommandFrames(CommandFields(cmd).value, targets, ids, |targets|)[k].msg) == Ok(cmd)
    ensures MessageId(CommandFrames(CommandFields(cmd).value, targets, ids, |targets|)[k].msg) == Ok(ids[k])
  {
    CommandFramesAt(CommandFields(cmd).value, targets, ids, |targets|, k);
    CommandRoundTrip(cmd, ids[k]);
  }


  /** std::map::insert: an existing key keeps its value. */
  function CmdInsert(m: map<GlobalID, CmdItem>, id: GlobalID, item: CmdItem): (r: map<GlobalID, CmdItem>)
    ensures id in r && r[id] == (if id in m then m[id] else item)
  {
    if id in m then m else m[id := item]
  }

  /**
   * m_cmdTable after handle: ids[0] .. ids[n-1] inserted in order, ids[i]
   * pointing at the Result with index base + i.
   */
  function CmdInserts(m: map<GlobalID, CmdItem>, answer: Answer, cmd: Command, ids: seq<GlobalID>, n: nat, base: nat): map<GlobalID, CmdItem>
    requires n <= |ids|
  {
    if n == 0 then m
    else CmdInsert(CmdInserts(m, answer, cmd, ids, n - 1, base), ids[n - 1], CmdItem(answer, cmd, base + n - 1))
  }


  /** The table after handle holds the old keys and every id sent, and nothing else. */
  lemma {:induction false} CmdInsertsDomain(m: map<GlobalID, CmdItem>, answer: Answer, cmd: Command, ids: seq<GlobalID>, n: nat, base: nat)
    requires n <= |ids|
    ensures forall id :: id in CmdInserts(m, answer, cmd, ids, n, base) <==> id in m || id in ids[..n]
  {
    if n > 0 {
      CmdInsertsDomain(m, answer, cmd, ids, n - 1, base);
      assert ids[..n] == ids[..n - 1] + [ids[n - 1]];
    }
  }

  /** insert never overwrites: entries already present keep their item. */
  lemma {:induction false} CmdInsertsKeep(m: map<GlobalID, CmdItem>, answer: Answer, cmd: Command, ids: seq<GlobalID>, n: nat, base: nat)
    requires n <= |ids|
    ensures forall id :: id in m ==> id in CmdInserts(m, answer, cmd, ids, n, base) && CmdInserts(m, answer, cmd, ids, n, base)[id] == m[id]
  {
    if n > 0 {
      CmdInsertsKeep(m, answer, cmd, ids, n - 1, base);
    }
  }

  /**
   * An id new to the table, sent for the first time at position i, points
   * at the Result added for position i.
   */
  lemma {:induction false} CmdInsertsFirst(m: map<GlobalID, CmdItem>, answer: Answer, cmd: Command, ids: seq<GlobalID>, n: nat, base: nat, i: nat)
    requires i < n <= |ids| && ids[i] !in m && ids[i] !in ids[..i]
    ensures ids[i] in CmdInserts(m, answer, cmd, ids, n, base)
    ensures CmdInserts(m, answer, cmd, ids, n, base)[ids[i]] == CmdItem(answer, cmd, base + i)
  {
    if i < n - 1 {
      CmdInsertsFirst(m, answer, cmd, ids, n - 1, base, i);
    } else {
      CmdInsertsDomain(m, answer, cmd, ids, n - 1, base);
    }
  }



  /** m_settingTable after handle: a set-value enters with deadline now + timeout, unless its device is present. */
  function SettingInsert(m: map<DeviceID, SettingItem>, cmd: Command, answer: Answer, now: Micros): map<DeviceID, SettingItem>
  {
    if cmd.DeviceSetValue? && cmd.device !in m then m[cmd.device := SettingItem(cmd, answer, now + cmd.timeout)]
    else m
  }

  // ------------------------------------------------------------ the settings tick

  /** The outcome of one tick for one entry: the extended status after it, and whether the entry goes. */
  datatype Tick = Tick(ext: Option<SetStatus>, erase: bool)

  /**
   * checkSettingTable for one entry: past the deadline the status becomes
   * GW_DEVICE_TIMEOUT; then DEVICE_FAILED and DEVICE_SUCCESS become their
   * GW_ forms. Each of the three removes the entry.
   */
  function SettleStep(ext: Option<SetStatus>, endTime: Micros, now: Micros): Tick
  {
    var afterDeadline := if now > endTime then Some(GwDeviceTimeout) else ext;
    if afterDeadline == Some(DeviceFailed) then Tick(Some(GwDeviceFailed), true)
    else if afterDeadline == Some(DeviceSuccess) then Tick(Some(GwDeviceSuccess), true)
    else Tick(afterDeadline, now > endTime)
  }

  lemma SettleRules(ext: Option<SetStatus>, endTime: Micros, now: Micros)
    ensures now > endTime ==> SettleStep(ext, endTime, now) == Tick(Some(GwDeviceTimeout), true)
    ensures now <= endTime && ext == Some(DeviceFailed) ==> SettleStep(ext, endTime, now) == Tick(Some(GwDeviceFailed), true)
    ensures now <= endTime && ext == Some(DeviceSuccess) ==> SettleStep(ext, endTime, now) == Tick(Some(GwDeviceSuccess), true)
    ensures now <= endTime && ext != Some(DeviceFailed) && ext != Some(DeviceSuccess) ==>
      SettleStep(ext, endTime, now) == Tick(ext, false)
  {
  }

  /** A removed entry always leaves a gateway verdict behind, and a kept one never holds DEVICE_SUCCESS or DEVICE_FAILED. */
  lemma SettleVerdicts(ext: Option<SetStatus>, endTime: Micros, now: Micros)
    ensures SettleStep(ext, endTime, now).erase ==>
      SettleStep(ext, endTime, now).ext in {Some(GwDeviceTimeout), Some(GwDeviceFailed), Some(GwDeviceSuccess)}
    ensures !SettleStep(ext, endTime, now).erase ==>
      SettleStep(ext, endTime, now).ext == ext && ext != Some(DeviceFailed) && ext != Some(DeviceSuccess)
    ensures SettleStep(SettleStep(ext, endTime, now).ext, endTime, now).ext == SettleStep(ext, endTime, now).ext
  {
  }

  /** The Answer's results after one tick: only at(0) of a set-value result can change. */
  function AfterTick(results: seq<ResultRecord>, endTime: Micros, now: Micros): seq<ResultRecord>
  {
    if |results| == 0 || !IsSetValueResult(results[0]) then results
    else results[0 := results[0].(payload := SetValue(SettleStep(results[0].payload.ext, endTime, now).ext))]
  }

  /** Whether the tick removes the entry. An Answer with no results is skipped and never expires. */
  function Erased(results: seq<ResultRecord>, endTime: Micros, now: Micros): bool
  {
    |results| > 0 && IsSetValueResult(results[0]) && SettleStep(results[0].payload.ext, endTime, now).erase
  }

  /**
   * at(0) is not a DeviceSetValueResult: the cast gives a null pointer, and
   * the tick's first use of it throws NullPointerException.
   */
  predicate CastFails(results: seq<ResultRecord>)
  {
    |results| > 0 && !IsSetValueResult(results[0])
  }

  /**
   * The entry at which the tick stops: the one with the least DeviceID among
   * those whose cast fails, if there is any.
   */
  ghost function FirstCastFailure(snap: map<DeviceID, seq<ResultRecord>>): (b: Option<DeviceID>)
    ensures b.Some? ==> b.value in snap && CastFails(snap[b.value])
    ensures b.Some? ==> forall e :: e in snap && CastFails(snap[e]) ==> b.value.value <= e.value
    ensures b.None? ==> forall e :: e in snap ==> !CastFails(snap[e])
  {
    if forall e :: e in snap ==> !CastFails(snap[e]) then None
    else
      var failing := set e | e in snap && CastFails(snap[e]);
      var x :| x in snap && CastFails(snap[x]);
      assert x in failing;
      FirstKeyExists(failing);
      var b :| b in failing && forall e :: e in failing ==> b.value <= e.value;
      Some(b)
  }

  /**
   * The tick visits the table in ascending DeviceID order and stops at the
   * first entry whose cast fails: entry `d` is reached iff it comes before it.
   */
  ghost predicate Reached(snap: map<DeviceID, seq<ResultRecord>>, d: DeviceID)
  {
    FirstCastFailure(snap).None? || d.value < FirstCastFailure(snap).value.value
  }

  /** The tick's outcome: NullPointerException iff some entry's cast fails. */
  function TickOutcome(snap: map<DeviceID, seq<ResultRecord>>): (r: Result<(), Exception>)
    ensures r.Err? ==> r.error == NullPointer
  {
    if forall d :: d in snap ==> !CastFails(snap[d]) then Ok(()) else Err(NullPointer)
  }

  /** A table with a failing cast: the entries from the first such one on are not reached. */
  lemma TickStopsAtCastFailure(snap: map<DeviceID, seq<ResultRecord>>, b: DeviceID, d: DeviceID)
    requires b in snap && CastFails(snap[b]) && b.value <= d.value
    ensures TickOutcome(snap) == Err(NullPointer) && !Reached(snap, d)
  {
  }

  /** Without a failing cast, every entry is reached and the tick completes. */
  lemma TickCompletes(snap: map<DeviceID, seq<ResultRecord>>, d: DeviceID)
    requires forall b :: b in snap ==> !CastFails(snap[b])
    ensures TickOutcome(snap) == Ok(()) && Reached(snap, d)
  {
  }

  /** A non-empty set of keys has one with the least value: std::map visits it first. */
  lemma {:induction false} FirstKeyExists(keys: set<DeviceID>)
    requires keys != {}
    ensures exists d :: d in keys && forall e :: e in keys ==> d.value <= e.value
    decreases |keys|
  {
    var x :| x in keys;
    if keys != {x} {
      var rest := keys - {x};
      FirstKeyExists(rest);
      var m :| m in rest && forall e :: e in rest ==> m.value <= e.value;
      if x.value < m.value {
        assert forall e :: e in keys ==> x.value <= e.value;
      } else {
        assert forall e :: e in keys ==> m.value <= e.value;
      }
    }
  }

  /** The entries a tick leaves in the table: every entry except the reached ones SettleStep erases. */
  ghost predicate KeptByTick(snap: map<DeviceID, seq<ResultRecord>>, entries: map<DeviceID, SettingItem>,
                             kept: map<DeviceID, SettingItem>, now: Micros)
    requires snap.Keys == entries.Keys
  {
    forall d :: d in kept <==> d in entries && !(Reached(snap, d) && Erased(snap[d], entries[d].endTime, now))
  }

  /**
   * The tick part-way: `visited` holds the keys already settled, all below
   * the `keys` still to come and none with a failing cast, and `kept` the
   * entries not erased so far.
   */
  ghost predicate TickProgress(snap: map<DeviceID, seq<ResultRecord>>, entries: map<DeviceID, SettingItem>,
                               kept: map<DeviceID, SettingItem>, keys: set<DeviceID>, visited: set<DeviceID>, now: Micros)
    requires snap.Keys == entries.Keys
  {
    (forall d :: d in entries <==> d in keys || d in visited) &&
    (forall d :: d in keys ==> d !in visited) &&
    (forall d, e :: d in visited && e in keys ==> d.value < e.value) &&
    (forall d :: d in visited ==> !CastFails(snap[d])) &&
    (forall d :: d in kept <==> d in keys || (d in visited && !Erased(snap[d], entries[d].endTime, now))) &&
    (forall d :: d in kept ==> kept[d] == entries[d])
  }

  /** Settling the least remaining key `d`, whose cast succeeds, keeps TickProgress. */
  lemma TickProgressStep(snap: map<DeviceID, seq<ResultRecord>>, entries: map<DeviceID, SettingItem>,
                         kept: map<DeviceID, SettingItem>, keys: set<DeviceID>, visited: set<DeviceID>, now: Micros,
                         d: DeviceID)
    requires snap.Keys == entries.Keys && TickProgress(snap, entries, kept, keys, visited, now)
    requires d in keys && (forall e :: e in keys ==> d.value <= e.value) && !CastFails(snap[d])
    ensures TickProgress(snap, entries, if Erased(snap[d], entries[d].endTime, now) then kept - {d} else kept,
                         keys - {d}, visited + {d}, now)
  {
  }

  /**
   * The tick stops at `d`, the least remaining key, whose cast fails: the
   * entries reached are exactly the ones visited, and the table and the
   * Answers are as the tick leaves them.
   */
  lemma TickStopped(snap: map<DeviceID, seq<ResultRecord>>, entries: map<DeviceID, SettingItem>,
                    kept: map<DeviceID, SettingItem>, keys: set<DeviceID>, visited: set<DeviceID>, now: Micros,
                    d: DeviceID)
    requires snap.Keys == entries.Keys && TickProgress(snap, entries, kept, keys, visited, now)
    requires d in keys && (forall e :: e in keys ==> d.value <= e.value) && CastFails(snap[d])
    requires forall e :: e in keys ==> entries[e].answer.results == snap[e]
    requires forall e :: e in visited ==> entries[e].answer.results == AfterTick(snap[e], entries[e].endTime, now)
    ensures TickOutcome(snap) == Err(NullPointer)
    ensures KeptByTick(snap, entries, kept, now)
    ensures forall e :: e in entries ==>
      entries[e].answer.results == (if Reached(snap, e) then AfterTick(snap[e], entries[e].endTime, now) else snap[e])
  {
    var b := FirstCastFailure(snap).value;
    assert b == d by {
      assert b !in visited;
    }
  }

  /** The tick visited every entry: none fails its cast and every entry is reached. */
  lemma TickFinished(snap: map<DeviceID, seq<ResultRecord>>, entries: map<DeviceID, SettingItem>,
                     kept: map<DeviceID, SettingItem>, visited: set<DeviceID>, now: Micros)
    requires snap.Keys == entries.Keys && TickProgress(snap, entries, kept, {}, visited, now)
    requires forall e :: e in visited ==> entries[e].answer.results == AfterTick(snap[e], entries[e].endTime, now)
    ensures TickOutcome(snap) == Ok(())
    ensures KeptByTick(snap, entries, kept, now)
    ensures forall e :: e in entries ==>
      entries[e].answer.results == (if Reached(snap, e) then AfterTick(snap[e], entries[e].endTime, now) else snap[e])
  {
  }

  lemma NoResultsNeverExpire(endTime: Micros, now: Micros)
    ensures !Erased([], endTime, now) && AfterTick([], endTime, now) == []
  {
  }

  /** A set-value answered by its corrected Result times out once the deadline has passed. */
  lemma HandledSetValueTimesOut(cmd: Command, rest: seq<ResultRecord>, endTime: Micros, now: Micros)
    requires cmd.DeviceSetValue? && now > endTime
    ensures Erased([HandleResult(cmd)] + rest, endTime, now)
    ensures AfterTick([HandleResult(cmd)] + rest, endTime, now)[0] == ResultRecord(Pending, SetValue(Some(GwDeviceTimeout)))
  {
  }

  /** What handle's loop has built after k targets: the Results added, the table, the messages sent. */
  ghost predicate FanoutAt(table0: map<GlobalID, CmdItem>, cmd: Command, fields: Object, answer: Answer,
                           targets: seq<DeviceManagerID>, ids: seq<GlobalID>, base: nat, k: nat,
                           added: seq<ResultRecord>, table: map<GlobalID, CmdItem>, frames: seq<Sent>)
    requires k <= |targets| <= |ids|
  {
    added == HandleResults(cmd, k) &&
    table == CmdInserts(table0, answer, cmd, ids, k, base) &&
    frames == CommandFrames(fields, targets, ids, k)
  }

  lemma FanoutStep(table0: map<GlobalID, CmdItem>, cmd: Command, fields: Object, answer: Answer,
                   targets: seq<DeviceManagerID>, ids: seq<GlobalID>, base: nat, k: nat,
                   added: seq<ResultRecord>, table: map<GlobalID, CmdItem>, frames: seq<Sent>)
    requires k < |targets| <= |ids|
    requires FanoutAt(table0, cmd, fields, answer, targets, ids, base, k, added, table, frames)
    ensures FanoutAt(table0, cmd, fields, answer, targets, ids, base, k + 1,
      added + [HandleResult(cmd)], CmdInsert(table, ids[k], CmdItem(answer, cmd, base + k)),
      frames + [CommandFrame(fields, targets[k], ids[k])])
  {
  }

  // ------------------------------------------------------------ checkQueue

  lemma Concat3<T>(a: seq<T>, b: seq<T>, c: seq<T>)
    ensures (a + b) + c == a + (b + c)
  {
  }

  /** The messages checkQueue sends for one dirty Answer: each result, to the recorded manager, under the recorded id. */
  function ResultFrames(item: ResultItem, results: seq<ResultRecord>): (frames: seq<Sent>)
    ensures |frames| == |results|
  {
    seq(|results|, k requires 0 <= k < |results| =>
      Sent(DataSocket, ManagerToString(item.manager), ResultObject(results[k], item.resultId)))
  }

  /** Each forwarded message goes to the manager that asked, carries its id, and hands over the result. */
  lemma ResultFramesDecode(item: ResultItem, results: seq<ResultRecord>, k: nat, target: ResultRecord)
    requires k < |results| && SameKind(results[k], target)
    ensures ResultFrames(item, results)[k].peer == ManagerToString(item.manager)
    ensures MessageId(ResultFrames(item, results)[k].msg) == Ok(item.resultId)
    ensures ApplyResult(ResultFrames(item, results)[k].msg, target) == Ok(results[k])
  {
    ResultRoundTrip(results[k], target, item.resultId);
  }

  class Broker {
    /** The inherited ZMQConnector part: stop flag and sockets. */
    const conn: Connector
    const table: DeviceManagerTable
    var settingTable: map<DeviceID, SettingItem>
    var cmdTable: map<GlobalID, CmdItem>
    var resultTable: map<Answer, ResultItem>
    /** Sensor data handed to the distributor. */
    var exported: seq<SensorData>
    /** Devices reported to the FakeHandlerTest as paired. */
    var paired: seq<DeviceID>
    /** Commands handed to the command dispatcher. */
    var dispatched: seq<Dispatch>

    constructor ()
      ensures fresh(conn) && fresh(table)
      ensures conn.stopFlag == 0 && conn.sent == [] && table.managers == []
      ensures settingTable == map[] && cmdTable == map[] && resultTable == map[]
      ensures exported == [] && paired == [] && dispatched == []
    {
      conn := new Connector();
      table := new DeviceManagerTable();
      settingTable := map[];
      cmdTable := map[];
      resultTable := map[];
      exported := [];
      paired := [];
      dispatched := [];
    }

    ghost function CmdAnswers(): set<Answer>
      reads this
    {
      set id | id in cmdTable :: cmdTable[id].answer
    }

    /** Every Result in m_cmdTable exists in its Answer, and no Answer's mutex is held. */
    ghost predicate CmdTableSound()
      reads this, CmdAnswers()
    {
      forall id :: id in cmdTable ==>
        cmdTable[id].index < |cmdTable[id].answer.results| && !cmdTable[id].answer.locked
    }

    function DeviceManagersCount(): nat
      reads this, table
    {
      table.Count()
    }

    method Accept(cmd: Command) returns (r: Result<bool, Exception>)
      ensures r == Accepts(cmd, table.managers)
    {
      match cmd
      case DeviceSetValue(device, _, _, _) =>
        var p := DevicePrefixOf(device);
        if p.Err? {
          return Err(p.error);
        }
        var registered := table.IsDeviceManagerRegistered(p.value);
        return Ok(registered);
      case DeviceUnpair(device) =>
        var p := DevicePrefixOf(device);
        if p.Err? {
          return Err(p.error);
        }
        var registered := table.IsDeviceManagerRegistered(p.value);
        return Ok(true);
      case GatewayListen(_) =>
        return Ok(true);
      case _ =>
        return Ok(false);
    }

    /**
     * handle: the targets in table order, one message and one Result per
     * target, an m_cmdTable entry per fresh message id, and for a set-value
     * an m_settingTable entry with deadline now + timeout (inserted even
     * when there is no target). `ids` are the fresh message ids, in order.
     */
    method Handle(cmd: Command, answer: Answer, now: Micros, ids: seq<GlobalID>) returns (r: Result<(), Exception>)
      requires |ids| >= |table.managers|
      modifies this`settingTable, this`cmdTable, answer`results, conn`sent
      ensures Targets(cmd, old(table.managers)).Err? ==>
        r == Err(Targets(cmd, old(table.managers)).error) &&
        settingTable == old(settingTable) && cmdTable == old(cmdTable) &&
        answer.results == old(answer.results) && conn.sent == old(conn.sent)
      ensures Targets(cmd, old(table.managers)).Ok? ==>
        var targets := Targets(cmd, old(table.managers)).value;
        r.Ok? &&
        settingTable == SettingInsert(old(settingTable), cmd, answer, now) &&
        answer.results == old(answer.results) + HandleResults(cmd, |targets|) &&
        cmdTable == CmdInserts(old(cmdTable), answer, cmd, ids, |targets|, |old(answer.results)|) &&
        (|targets| > 0 ==> WireKind(cmd)) &&
        conn.sent == old(conn.sent) + (if |targets| == 0 then [] else CommandFrames(CommandFields(cmd).value, targets, ids, |targets|))
    {
      TargetsChosen(cmd, table.managers);
      var targets: seq<DeviceManagerID>;
      match cmd {
      case DeviceSetValue(device, _, _, timeout) =>
        var p := DevicePrefixOf(device);
        if p.Err? {
          return Err(p.error);
        }
        targets := table.GetAllByPrefix(p.value);
        if device !in settingTable {
          settingTable := settingTable[device := SettingItem(cmd, answer, now + timeout)];
        }
      case DeviceUnpair(device) =>
        var p := DevicePrefixOf(device);
        if p.Err? {
          return Err(p.error);
        }
        targets := table.GetAllByPrefix(p.value);
      case GatewayListen(_) =>
        targets := table.GetAll();
      case _ =>
        targets := [];
      }
      if |targets| > 0 {
        Fanout(cmd, answer, targets, ids);
      }
      return Ok(());
    }

    /** The loop of handle, storing what Collect gathered for the targets. */
    method Fanout(cmd: Command, answer: Answer, targets: seq<DeviceManagerID>, ids: seq<GlobalID>)
      requires WireKind(cmd) && |ids| >= |targets|
      modifies this`cmdTable, answer`results, conn`sent
      ensures answer.results == old(answer.results) + HandleResults(cmd, |targets|)
      ensures cmdTable == CmdInserts(old(cmdTable), answer, cmd, ids, |targets|, |old(answer.results)|)
      ensures conn.sent == old(conn.sent) + CommandFrames(CommandFields(cmd).value, targets, ids, |targets|)
    {
      var added, table, frames := Collect(cmdTable, cmd, CommandFields(cmd).value, answer, targets, ids, |answer.results|);
      answer.results, cmdTable, conn.sent := answer.results + added, table, conn.sent + frames;
    }

    /**
     * One Result, one m_cmdTable entry and one message per target, in
     * target order; the k-th gets message id ids[k] and result index base + k.
     * They are gathered here and stored by Fanout; nothing else reads them
     * in between.
     */
    static method Collect(table0: map<GlobalID, CmdItem>, cmd: Command, fields: Object, answer: Answer,
                          targets: seq<DeviceManagerID>, ids: seq<GlobalID>, base: nat)
      returns (added: seq<ResultRecord>, table: map<GlobalID, CmdItem>, frames: seq<Sent>)
      requires |ids| >= |targets|
      ensures added == HandleResults(cmd, |targets|)
      ensures table == CmdInserts(table0, answer, cmd, ids, |targets|, base)
      ensures frames == CommandFrames(fields, targets, ids, |targets|)
    {
      added, table, frames := [], table0, [];
      var k := 0;
      while k < |targets|
        invariant k <= |targets|
        invariant FanoutAt(table0, cmd, fields, answer, targets, ids, base, k, added, table, frames)
      {
        FanoutStep(table0, cmd, fields, answer, targets, ids, base, k, added, table, frames);
        added := added + [HandleResult(cmd)];
        table := CmdInsert(table, ids[k], CmdItem(answer, cmd, base + k));
        frames := frames + [CommandFrame(fields, targets[k], ids[k])];
        k := k + 1;
      }
    }

    /**
     * checkQueue: every result of each dirty Answer is sent to the manager
     * recorded for that Answer, under the recorded id. The m_resultTable
     * entries stay. A dirty Answer with no entry would be dereferenced past
     * the end of the table, so the caller must hand over known Answers.
     */
    method CheckQueue(dirty: seq<Answer>)
      requires forall a :: a in dirty ==> a in resultTable
      modifies conn`sent
      ensures conn.sent == old(conn.sent) + QueueFrames(dirty, |dirty|)
    {
      var sent := conn.sent;
      ghost var sent0 := sent;
      var j := 0;
      while j < |dirty|
        invariant j <= |dirty|
        invariant sent == sent0 + QueueFrames(dirty, j)
      {
        var answer := dirty[j];
        Concat3(sent0, QueueFrames(dirty, j), ResultFrames(resultTable[answer], answer.results));
        sent := AppendResults(sent, resultTable[answer], answer);
        j := j + 1;
      }
      conn.sent := sent;
    }

    /** The inner loop of checkQueue: one message per result of the Answer, appended to `sent`. */
    static method AppendResults(sent: seq<Sent>, item: ResultItem, answer: Answer) returns (sent': seq<Sent>)
      ensures sent' == sent + ResultFrames(item, answer.results)
    {
      sent' := sent;
      var i := 0;
      while i < answer.ResultsCount()
        invariant 0 <= i <= |answer.results|
        invariant sent' == sent + ResultFrames(item, answer.results[..i])
      {
        var msg := ResultObject(answer.At(i), item.resultId);
        sent' := sent' + [Sent(DataSocket, ManagerToString(item.manager), msg)];
        assert answer.results[..i + 1][..i] == answer.results[..i];
        i := i + 1;
      }
      assert answer.results[..i] == answer.results;
    }

    /** What checkQueue sends for the first n dirty Answers, in order. */
    ghost function QueueFrames(dirty: seq<Answer>, n: nat): seq<Sent>
      requires n <= |dirty| && forall a :: a in dirty ==> a in resultTable
      reads this, set a | a in dirty
    {
      if n == 0 then []
      else QueueFrames(dirty, n - 1) + ResultFrames(resultTable[dirty[n - 1]], dirty[n - 1].results)
    }

    /**
     * The table and the sent messages after registerDeviceManager has read
     * prefix p: the next ID and a hello_response on the hello socket, or,
     * for a full table, ERROR_MAXIMUM_DEVICE_MANAGERS there and no change.
     */
    static ghost predicate Registered(managers: seq<DeviceManagerID>, sent: seq<Sent>, p: DevicePrefix,
                                      managers': seq<DeviceManagerID>, sent': seq<Sent>)
    {
      var reg := Register(managers, p);
      if reg.Ok? then
        managers' == reg.value.0 && sent' == sent + [Sent(HelloSocket, "", HelloResponseObject(reg.value.1))]
      else
        managers' == managers &&
        sent' == sent + [Sent(HelloSocket, "", ErrorObject(ErrorMaximumDeviceManagers, "maximum number of registered device managers"))]
    }

    /**
     * registerDeviceManager: the prefix from the hello_request gets the
     * next ID, answered with hello_response on the hello socket; a full
     * table is answered with ERROR_MAXIMUM_DEVICE_MANAGERS, also on the
     * hello socket. A request without a readable prefix throws.
     */
    method RegisterDeviceManager(o: Object) returns (r: Result<(), Exception>)
      modifies table, conn`sent
      ensures ToHelloRequest(o).Err? ==>
        r == Err(ToHelloRequest(o).error) && table.managers == old(table.managers) && conn.sent == old(conn.sent)
      ensures ToHelloRequest(o).Ok? ==>
        r.Ok? && Registered(old(table.managers), old(conn.sent), ToHelloRequest(o).value, table.managers, conn.sent)
    {
      var prefix := ToHelloRequest(o);
      if prefix.Err? {
        return Err(prefix.error);
      }
      var id := table.RegisterDaemonPrefix(prefix.value);
      if id.Err? {
        conn.SendError(ErrorMaximumDeviceManagers, "maximum number of registered device managers", HelloSocket);
      } else {
        var msg := Message.FromHelloResponse(id.value);
        conn.Send(HelloSocket, "", msg.json);
      }
      return Ok(());
    }

    /** handleHelloMessage: only hello_request is served here. */
    method HandleHelloMessage(o: Object, t: MessageType) returns (r: Result<(), Exception>)
      modifies table, conn`sent
      ensures t != TypeHelloRequest ==>
        r.Ok? && table.managers == old(table.managers) &&
        conn.sent == old(conn.sent) + [Sent(DataSocket, "", ErrorObject(ErrorUnsupportedMessage, "unsupported message type"))]
      ensures t == TypeHelloRequest && ToHelloRequest(o).Ok? ==>
        r.Ok? && Registered(old(table.managers), old(conn.sent), ToHelloRequest(o).value, table.managers, conn.sent)
      ensures t == TypeHelloRequest && ToHelloRequest(o).Err? ==>
        r == Err(ToHelloRequest(o).error) &&
        table.managers == old(table.managers) && conn.sent == old(conn.sent)
    {
      if t == TypeHelloRequest {
        r := RegisterDeviceManager(o);
      } else {
        conn.SendError(ErrorUnsupportedMessage, "unsupported message type", DataSocket);
        r := Ok(());
      }
    }

    /**
     * helloServerReceive for one frame: parse errors go back on the data
     * socket, a missing attribute while handling is answered with
     * ERROR_MISSING_ATTRIBUTE there too, and other exceptions escape.
     */
    method HelloServerReceive(w: Wire) returns (r: Result<(), Exception>)
      modifies table, conn`sent
      ensures ParseMessage(w).Thrown? ==>
        r == Err(ParseMessage(w).error) && table.managers == old(table.managers) && conn.sent == old(conn.sent)
      ensures ParseMessage(w).Rejected? ==>
        r.Ok? && table.managers == old(table.managers) &&
        conn.sent == old(conn.sent) + [Sent(DataSocket, "", ErrorObject(ParseMessage(w).code, ParseMessage(w).text))]
      ensures ParseMessage(w).Accepted? && ParseMessage(w).msgType != TypeHelloRequest ==>
        r.Ok? && table.managers == old(table.managers) &&
        conn.sent == old(conn.sent) + [Sent(DataSocket, "", ErrorObject(ErrorUnsupportedMessage, "unsupported message type"))]
      ensures ParseMessage(w).Accepted? && ParseMessage(w).msgType == TypeHelloRequest ==>
        var req := ToHelloRequest(ParseMessage(w).msg);
        (req.Ok? ==> r.Ok? && Registered(old(table.managers), old(conn.sent), req.value, table.managers, conn.sent)) &&
        (req == Err(InvalidAccess) ==>
          r.Ok? && table.managers == old(table.managers) &&
          conn.sent == old(conn.sent) + [Sent(DataSocket, "", ErrorObject(ErrorMissingAttribute, "missing JSON attribute"))]) &&
        (req.Err? && req.error != InvalidAccess ==>
          r == Err(req.error) && table.managers == old(table.managers) && conn.sent == old(conn.sent))
      ensures r.Err? ==> r.error != InvalidAccess
    {
      var p := conn.Parse(w, DataSocket);
      if p.Thrown? {
        return Err(p.error);
      }
      if p.Rejected? {
        return Ok(());
      }
      r := HandleHelloMessage(p.msg, p.msgType);
      if r == Err(InvalidAccess) {
        conn.SendError(ErrorMissingAttribute, "missing JSON attribute", DataSocket);
        r := Ok(());
      }
    }

    /**
     * doDeviceListCommand and doDeviceLastValueCommand: a new Answer, an
     * m_resultTable entry naming the message id and the sender, and the
     * command handed to the dispatcher.
     */
    method DoServerCommand(o: Object, sender: DeviceManagerID, cmd: Result<Command, Exception>) returns (r: Result<(), Exception>)
      modifies this`resultTable, this`dispatched
      ensures cmd.Err? ==> r == Err(cmd.error) && resultTable == old(resultTable) && dispatched == old(dispatched)
      ensures cmd.Ok? && MessageId(o).Err? ==> r == Err(MessageId(o).error) && resultTable == old(resultTable) && dispatched == old(dispatched)
      ensures cmd.Ok? && MessageId(o).Ok? ==>
        r == Ok(()) &&
        |dispatched| == |old(dispatched)| + 1 && dispatched[..|old(dispatched)|] == old(dispatched) &&
        var a := dispatched[|old(dispatched)|].answer;
        fresh(a) && a.results == [] && !a.dirty && !a.locked &&
        dispatched[|old(dispatched)|].cmd == cmd.value &&
        resultTable == old(resultTable)[a := ResultItem(MessageId(o).value, sender, cmd.value)]
    {
      var answer := new Answer(0);
      if cmd.Err? {
        return Err(cmd.error);
      }
      var id := MessageId(o);
      if id.Err? {
        return Err(id.error);
      }
      resultTable := resultTable[answer := ResultItem(id.value, sender, cmd.value)];
      dispatched := dispatched + [Dispatch(cmd.value, answer)];
      return Ok(());
    }

    /**
     * doDefaultResult: the received status goes into the Result recorded
     * for the message id. An unknown id is dereferenced past the end of the
     * table in the source; here it is reported as NotFound.
     */
    method DoDefaultResult(o: Object) returns (r: Result<(), Exception>)
      requires CmdTableSound()
      modifies CmdAnswers()
      ensures MessageId(o).Err? ==> r == Err(MessageId(o).error)
      ensures MessageId(o).Ok? && MessageId(o).value !in cmdTable ==> r == Err(NotFound)
      ensures MessageId(o).Ok? && MessageId(o).value in cmdTable && ReadStatus(o).Err? ==> r == Err(ReadStatus(o).error)
      ensures r.Err? ==> forall a :: a in old(CmdAnswers()) ==> a.results == old(a.results)
      ensures MessageId(o).Ok? && MessageId(o).value in cmdTable && ReadStatus(o).Ok? ==> r == Ok(())
      ensures r.Ok? ==>
        MessageId(o).Ok? && MessageId(o).value in cmdTable && ReadStatus(o).Ok? &&
        var item := cmdTable[MessageId(o).value];
        item.answer.results == old(item.answer.results)[item.index := old(item.answer.results)[item.index].(status := ReadStatus(o).value)] &&
        item.answer.dirty && !item.answer.locked &&
        forall a :: a in old(CmdAnswers()) && a != item.answer ==> a.results == old(a.results)
      ensures cmdTable == old(cmdTable)
      ensures CmdTableSound()
    {
      var id := MessageId(o);
      if id.Err? {
        return Err(id.error);
      }
      if id.value !in cmdTable {
        return Err(NotFound);
      }
      var item := cmdTable[id.value];
      var status := ReadStatus(o);
      if status.Err? {
        return Err(status.error);
      }
      item.answer.Acquire();
      item.answer.SetStatusUnlocked(item.index, status.value);
      item.answer.Release();
      return Ok(());
    }

    /** The command a device_last_value_cmd or a device_list_cmd message carries. */
    static function ServerCommand(o: Object, t: MessageType): Result<Command, Exception>
    {
      if t == TypeDeviceLastValueCmd then ToLastValueCommand(o) else ToDeviceListCommand(o)
    }

    /**
     * The exception handleDataMessage throws for o of type t, if any: the
     * conversion of measured values, the message id or status of a
     * default_result (NotFound for an id not in m_cmdTable), the command or
     * message id of a server command. Other types are answered, not thrown.
     */
    ghost function DataResult(o: Object, t: MessageType): Result<(), Exception>
      reads this
    {
      if t == TypeMeasuredValues then
        if ToSensorData(o).Err? then Err(ToSensorData(o).error) else Ok(())
      else if t == TypeDefaultResult then
        if MessageId(o).Err? then Err(MessageId(o).error)
        else if MessageId(o).value !in cmdTable then Err(NotFound)
        else if ReadStatus(o).Err? then Err(ReadStatus(o).error)
        else Ok(())
      else if t == TypeDeviceLastValueCmd || t == TypeDeviceListCmd then
        if ServerCommand(o, t).Err? then Err(ServerCommand(o, t).error)
        else if MessageId(o).Err? then Err(MessageId(o).error)
        else Ok(())
      else Ok(())
    }

    /** What dataServerReceive sends for an accepted message o of type t from a known sender. */
    ghost function DataReply(o: Object, t: MessageType): seq<Sent>
      reads this
    {
      if !(t in {TypeMeasuredValues, TypeDefaultResult, TypeDeviceListCmd, TypeDeviceLastValueCmd}) then
        [Sent(DataSocket, "", ErrorObject(ErrorUnsupportedMessage, "unsupported message type"))]
      else if DataResult(o, t) == Err(InvalidAccess) then
        [Sent(DataSocket, "", ErrorObject(ErrorMissingAttribute, "missing JSON attribute"))]
      else []
    }

    ghost function DispatchedAnswers(): set<Answer>
      reads this
    {
      set d | d in dispatched :: d.answer
    }

    /**
     * The broker's state after handleDataMessage for o of type t from
     * sender, when it does not throw: measured values are exported and
     * their device reported as paired; a default_result's status goes into
     * the Result recorded for its message id and nothing else; a server
     * command is dispatched with a new clean Answer that m_resultTable maps
     * to the message id and the sender. Anything that throws, and every
     * other type, leaves the state as it was.
     */
    twostate predicate DataHandled(o: Object, t: MessageType, sender: DeviceManagerID)
      requires old(CmdTableSound())
      reads this, CmdAnswers(), DispatchedAnswers()
    {
      var ok := old(DataResult(o, t)).Ok?;
      && cmdTable == old(cmdTable)
      && (if t == TypeMeasuredValues && ok then
            exported == old(exported) + [ToSensorData(o).value] &&
            paired == old(paired) + [ToSensorData(o).value.device]
          else exported == old(exported) && paired == old(paired))
      && (if t in {TypeDeviceListCmd, TypeDeviceLastValueCmd} && ok then
            |dispatched| == |old(dispatched)| + 1 && dispatched[..|old(dispatched)|] == old(dispatched) &&
            var a := dispatched[|old(dispatched)|].answer;
            fresh(a) && a.results == [] && !a.dirty && !a.locked &&
            dispatched[|old(dispatched)|].cmd == ServerCommand(o, t).value &&
            resultTable == old(resultTable)[a := ResultItem(MessageId(o).value, sender, ServerCommand(o, t).value)]
          else dispatched == old(dispatched) && resultTable == old(resultTable))
      && (if t == TypeDefaultResult && ok then
            var item := cmdTable[MessageId(o).value];
            item.answer.results ==
              old(item.answer.results)[item.index := old(item.answer.results)[item.index].(status := ReadStatus(o).value)] &&
            item.answer.dirty && !item.answer.locked &&
            forall a :: a in CmdAnswers() && a != item.answer ==> a.results == old(a.results)
          else forall a :: a in CmdAnswers() ==> a.results == old(a.results))
    }

    /**
     * handleDataMessage: measured values are exported, a default_result is
     * correlated, the two server commands are dispatched, anything else is
     * answered with ERROR_UNSUPPORTED_MESSAGE.
     */
    method HandleDataMessage(o: Object, t: MessageType, sender: DeviceManagerID) returns (r: Result<(), Exception>)
      requires CmdTableSound()
      modifies this`exported, this`paired, this`resultTable, this`dispatched, CmdAnswers(), conn`sent
      ensures CmdTableSound()
      ensures r == old(DataResult(o, t))
      ensures DataHandled(o, t, sender)
      ensures !(t in {TypeMeasuredValues, TypeDefaultResult, TypeDeviceListCmd, TypeDeviceLastValueCmd}) ==>
        conn.sent == old(conn.sent) + [Sent(DataSocket, "", ErrorObject(ErrorUnsupportedMessage, "unsupported message type"))]
      ensures t in {TypeMeasuredValues, TypeDefaultResult, TypeDeviceListCmd, TypeDeviceLastValueCmd} ==> conn.sent == old(conn.sent)
    {
      if t == TypeMeasuredValues {
        var data := ToSensorData(o);
        if data.Err? {
          return Err(data.error);
        }
        exported := exported + [data.value];
        paired := paired + [data.value.device];
        return Ok(());
      } else if t == TypeDefaultResult {
        r := DoDefaultResult(o);
      } else if t == TypeDeviceLastValueCmd || t == TypeDeviceListCmd {
        r := DoServerCommand(o, sender, ServerCommand(o, t));
      } else {
        conn.SendError(ErrorUnsupportedMessage, "unsupported message type", DataSocket);
        return Ok(());
      }
    }

    /** Nothing handleDataMessage could change has changed. */
    twostate predicate DataUntouched()
      reads this, CmdAnswers()
    {
      && cmdTable == old(cmdTable) && exported == old(exported) && paired == old(paired)
      && dispatched == old(dispatched) && resultTable == old(resultTable)
      && forall a :: a in CmdAnswers() ==> a.results == old(a.results)
    }

    /**
     * dataServerReceive for one frame from `peer`: the sender's ID text is
     * parsed; a missing attribute while handling is answered with
     * ERROR_MISSING_ATTRIBUTE, every other exception is only logged.
     */
    method DataServerReceive(peer: string, w: Wire) returns (r: Result<(), Exception>)
      requires CmdTableSound()
      modifies this`exported, this`paired, this`resultTable, this`dispatched, CmdAnswers(), conn`sent
      ensures CmdTableSound()
      ensures r.Err? <==> ParseMessage(w).Thrown?
      ensures ParseMessage(w).Thrown? || (ParseMessage(w).Accepted? && ManagerParse(peer).Err?) ==>
        DataUntouched() && conn.sent == old(conn.sent)
      ensures ParseMessage(w).Rejected? ==>
        DataUntouched() &&
        conn.sent == old(conn.sent) + [Sent(DataSocket, "", ErrorObject(ParseMessage(w).code, ParseMessage(w).text))]
      ensures ParseMessage(w).Accepted? && ManagerParse(peer).Ok? ==>
        DataHandled(ParseMessage(w).msg, ParseMessage(w).msgType, ManagerParse(peer).value) &&
        conn.sent == old(conn.sent) + old(DataReply(ParseMessage(w).msg, ParseMessage(w).msgType))
    {
      var p := conn.Parse(w, DataSocket);
      if p.Thrown? {
        return Err(p.error);
      }
      if p.Rejected? {
        return Ok(());
      }
      var sender := ManagerParse(peer);
      if sender.Err? {
        return Ok(());
      }
      var handled := HandleDataMessage(p.msg, p.msgType, sender.value);
      if handled == Err(InvalidAccess) {
        conn.SendError(ErrorMissingAttribute, "missing JSON attribute", DataSocket);
      }
      return Ok(());
    }

    /**
     * checkSettingTable: the entries are visited in ascending DeviceID
     * order. An Answer with no results is skipped; otherwise at(0)'s
     * extended status is settled by SettleStep and the entry removed when
     * SettleStep says so. An at(0) that is not a DeviceSetValueResult
     * throws NullPointerException, which ends the tick there: the entries
     * visited before it stay settled, the rest untouched.
     */
    method CheckSettingTable(now: Micros, ghost owner: map<Answer, DeviceID>) returns (r: Result<(), Exception>)
      requires forall d :: d in settingTable ==>
        settingTable[d].answer in owner && owner[settingTable[d].answer] == d && !settingTable[d].answer.locked
      modifies this`settingTable, owner.Keys
      ensures r == TickOutcome(old(Snapshot(settingTable)))
      ensures forall d :: d in settingTable <==>
        d in old(settingTable) &&
        !(Reached(old(Snapshot(settingTable)), d) && Erased(old(Snapshot(settingTable))[d], old(settingTable[d].endTime), now))
      ensures forall d :: d in settingTable ==> settingTable[d] == old(settingTable[d])
      ensures forall d :: d in old(settingTable) ==>
        old(settingTable[d].answer).results ==
          (if Reached(old(Snapshot(settingTable)), d)
           then AfterTick(old(Snapshot(settingTable))[d], old(settingTable[d].endTime), now)
           else old(Snapshot(settingTable))[d]) &&
        !old(settingTable[d].answer).locked
    {
      settingTable, r := SettleAll(settingTable, now, owner, Snapshot(settingTable));
    }

    /** The results of every entry's Answer. */
    static ghost function Snapshot(entries: map<DeviceID, SettingItem>): (snap: map<DeviceID, seq<ResultRecord>>)
      reads set d | d in entries :: entries[d].answer
      ensures snap.Keys == entries.Keys
    {
      map d | d in entries :: entries[d].answer.results
    }

    /**
     * The loop of checkSettingTable over the table, whose Answers hold
     * `snap` on entry; returns the entries that stay and the outcome.
     */
    static method SettleAll(entries: map<DeviceID, SettingItem>, now: Micros, ghost owner: map<Answer, DeviceID>,
                            ghost snap: map<DeviceID, seq<ResultRecord>>)
      returns (kept: map<DeviceID, SettingItem>, r: Result<(), Exception>)
      requires forall d :: d in entries ==>
        entries[d].answer in owner && owner[entries[d].answer] == d && !entries[d].answer.locked
      requires snap.Keys == entries.Keys
      requires forall d :: d in entries ==> snap[d] == entries[d].answer.results
      modifies owner.Keys
      ensures r == TickOutcome(snap)
      ensures KeptByTick(snap, entries, kept, now)
      ensures forall d :: d in kept ==> kept[d] == entries[d]
      ensures forall d :: d in entries ==>
        entries[d].answer.results ==
          (if Reached(snap, d) then AfterTick(snap[d], entries[d].endTime, now) else snap[d])
      ensures forall d :: d in entries ==> !entries[d].answer.locked
    {
      kept := entries;
      var keys := entries.Keys;
      ghost var visited: set<DeviceID> := {};
      while keys != {}
        invariant TickProgress(snap, entries, kept, keys, visited, now)
        invariant forall d :: d in entries ==> !entries[d].answer.locked
        invariant forall d :: d in keys ==> entries[d].answer.results == snap[d]
        invariant forall d :: d in visited ==> entries[d].answer.results == AfterTick(snap[d], entries[d].endTime, now)
        decreases |keys|
      {
        FirstKeyExists(keys);
        var d :| d in keys && forall e :: e in keys ==> d.value <= e.value;
        var item := entries[d];
        if item.answer.ResultsCount() > 0 && !IsSetValueResult(item.answer.At(0)) {
          // the cast gives a null pointer and its first use throws
          TickStopped(snap, entries, kept, keys, visited, now, d);
          return kept, Err(NullPointer);
        }
        TickProgressStep(snap, entries, kept, keys, visited, now, d);
        var erase := Visit(entries, now, owner, snap, keys, visited, d);
        if erase {
          kept := kept - {d};
        }
        keys := keys - {d};
        visited := visited + {d};
      }
      TickFinished(snap, entries, kept, visited, now);
      r := Ok(());
    }

    /**
     * The loop body for the least remaining key `d`, whose cast succeeds: an
     * Answer without results is skipped, any other is settled by SettleEntry.
     */
    static method Visit(entries: map<DeviceID, SettingItem>, now: Micros, ghost owner: map<Answer, DeviceID>,
                        ghost snap: map<DeviceID, seq<ResultRecord>>, ghost keys: set<DeviceID>,
                        ghost visited: set<DeviceID>, d: DeviceID)
      returns (erase: bool)
      requires forall e :: e in entries ==> entries[e].answer in owner && owner[entries[e].answer] == e
      requires forall e :: e in keys || e in visited ==> e in entries
      requires snap.Keys == entries.Keys && d in keys && d !in visited && !CastFails(snap[d])
      requires forall e :: e in entries ==> !entries[e].answer.locked
      requires forall e :: e in keys ==> entries[e].answer.results == snap[e]
      requires forall e :: e in visited ==> entries[e].answer.results == AfterTick(snap[e], entries[e].endTime, now)
      modifies entries[d].answer
      ensures erase == Erased(snap[d], entries[d].endTime, now)
      ensures forall e :: e in entries ==> !entries[e].answer.locked
      ensures forall e :: e in keys - {d} ==> entries[e].answer.results == snap[e]
      ensures forall e :: e in visited + {d} ==> entries[e].answer.results == AfterTick(snap[e], entries[e].endTime, now)
    {
      var item := entries[d];
      erase := false;
      if item.answer.ResultsCount() > 0 {
        erase := SettleEntry(item.answer, item.endTime, now);
      }
    }

    /**
     * One entry of the tick, once at(0) has been cast to the
     * DeviceSetValueResult it is: settles its extended status and reports
     * whether the entry goes.
     */
    static method SettleEntry(a: Answer, endTime: Micros, now: Micros) returns (erase: bool)
      requires !a.locked && |a.results| > 0 && IsSetValueResult(a.results[0])
      modifies a
      ensures !a.locked
      ensures erase == Erased(old(a.results), endTime, now)
      ensures a.results == AfterTick(old(a.results), endTime, now)
    {
      erase := false;
      if now > endTime {
        a.SetExtendedSetStatus(0, GwDeviceTimeout);
        erase := true;
      }
      var s := a.GetExtendedSetStatus(0);
      if s == Some(DeviceFailed) {
        a.SetExtendedSetStatus(0, GwDeviceFailed);
        erase := true;
      }
      s := a.GetExtendedSetStatus(0);
      if s == Some(DeviceSuccess) {
        a.SetExtendedSetStatus(0, GwDeviceSuccess);
        erase := true;
      }
    }
  }
}
