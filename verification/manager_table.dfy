/**
 * The broker's table of registered device managers: a vector of IDs in
 * registration order, with idents handed out by scanning its front run.
 */
module ManagerTable {
  import opened Wrappers
  import opened Identity

  /** Length of the leading run of `ids` whose idents are e, e+1, e+2, ... (mod 256). */
  function Run(ids: seq<DeviceManagerID>, e: uint8): (n: nat)
    ensures n <= |ids|
  {
    if |ids| == 0 || Ident(ids[0]) != e then 0
    else 1 + Run(ids[1..], ((e as int + 1) % 0x100) as uint8)
  }

  /**
   * getFirstEmptyID: 0 on an empty table; otherwise the front entry's ident
   * advanced (with 8-bit wrap-around) past the leading run of consecutive
   * idents, prefixes ignored.
   */
  function FirstEmptyIdent(ids: seq<DeviceManagerID>): uint8
  {
    if |ids| == 0 then 0
    else RunEnd(ids, Ident(ids[0]))
  }

  /** The ident reached from e by advancing past the leading run of `ids`. */
  function RunEnd(ids: seq<DeviceManagerID>, e: uint8): uint8
  {
    ((e as int + Run(ids, e)) % 0x100) as uint8
  }

  /** Consuming one entry of the run leaves its end unchanged. */
  lemma RunEndStep(ids: seq<DeviceManagerID>, e: uint8)
    requires |ids| > 0 && Ident(ids[0]) == e
    ensures RunEnd(ids, e) == RunEnd(ids[1..], ((e as int + 1) % 0x100) as uint8)
  {
    var e' := ((e as int + 1) % 0x100) as uint8;
    var r := Run(ids[1..], e');
    assert Run(ids, e) == 1 + r;
    if e as int + 1 == 0x100 {
      assert e' as int == 0;
    } else {
      assert e' as int == e as int + 1;
    }
  }

  /** A table whose idents count up from e, without wrapping, has its whole length as run. */
  lemma {:induction false} RunOfCounting(ids: seq<DeviceManagerID>, e: uint8)
    requires e as int + |ids| <= 0x100
    requires forall i :: 0 <= i < |ids| ==> Ident(ids[i]) as int == e as int + i
    ensures Run(ids, e) == |ids|
    decreases |ids|
  {
    if |ids| > 0 {
      var e' := ((e as int + 1) % 0x100) as uint8;
      if |ids| > 1 {
        assert e' as int == e as int + 1;
        forall i | 0 <= i < |ids| - 1
          ensures Ident(ids[1..][i]) as int == e' as int + i
        {
          assert Ident(ids[i + 1]) as int == e as int + i + 1;
        }
      }
      RunOfCounting(ids[1..], e');
    }
  }

  /** The registration step as a value: the new table and the returned ID, or RangeException. */
  function Register(ids: seq<DeviceManagerID>, p: DevicePrefix): Result<(seq<DeviceManagerID>, DeviceManagerID), Exception>
  {
    if |ids| > 0xFF then Err(Range)
    else
      var id := ManagerFromParts(p, FirstEmptyIdent(ids));
      Ok((ids + [id], id))
  }

  /** The table after registering each prefix in turn, starting empty; None once one throws. */
  function RegisterAll(prefixes: seq<DevicePrefix>): Option<seq<DeviceManagerID>>
    decreases |prefixes|
  {
    if |prefixes| == 0 then Some([])
    else
      var before := RegisterAll(prefixes[..|prefixes| - 1]);
      if before.None? then None
      else
        var r := Register(before.value, prefixes[|prefixes| - 1]);
        if r.Err? then None else Some(r.value.0)
  }

  /**
   * With registrations only, up to the table's capacity of 256, the k-th
   * registration receives ident k-1 and keeps its prefix; so all idents differ.
   */
  lemma {:induction false} RegistrationsCountUp(prefixes: seq<DevicePrefix>)
    requires |prefixes| <= 0x100
    ensures RegisterAll(prefixes).Some?
    ensures |RegisterAll(prefixes).value| == |prefixes|
    ensures forall k :: 0 <= k < |prefixes| ==>
      Ident(RegisterAll(prefixes).value[k]) as int == k &&
      ManagerPrefix(RegisterAll(prefixes).value[k]) == Ok(prefixes[k])
    decreases |prefixes|
  {
    if |prefixes| > 0 {
      var n := |prefixes| - 1;
      RegistrationsCountUp(prefixes[..n]);
      var before := RegisterAll(prefixes[..n]).value;
      if n > 0 {
        RunOfCounting(before, 0);
      }
      assert FirstEmptyIdent(before) as int == n;
      FromPartsProjects(prefixes[n], n as uint8);
      var after := RegisterAll(prefixes).value;
      assert after == before + [ManagerFromParts(prefixes[n], n as uint8)];
      forall k | 0 <= k < |prefixes|
        ensures Ident(after[k]) as int == k && ManagerPrefix(after[k]) == Ok(prefixes[k])
      {
        if k < n {
          assert after[k] == before[k];
          assert prefixes[..n][k] == prefixes[k];
        }
      }
    }
  }

  /** Corollary: registrations alone never hand out the same ident twice. */
  lemma RegistrationsDistinct(prefixes: seq<DevicePrefix>, j: nat, k: nat)
    requires |prefixes| <= 0x100 && j < k < |prefixes|
    ensures RegisterAll(prefixes).Some? && |RegisterAll(prefixes).value| == |prefixes|
    ensures Ident(RegisterAll(prefixes).value[j]) != Ident(RegisterAll(prefixes).value[k])
  {
    RegistrationsCountUp(prefixes);
  }

  /** The 257th registration into a table that only grew throws RangeException. */
  lemma RegistrationBeyondCapacity(prefixes: seq<DevicePrefix>, p: DevicePrefix)
    requires |prefixes| == 0x100
    ensures RegisterAll(prefixes).Some?
    ensures Register(RegisterAll(prefixes).value, p) == Err(Range)
  {
    RegistrationsCountUp(prefixes);
  }

  /** Index of the first entry equal to d (std::find), |ids| when absent. */
  function FindIndex(ids: seq<DeviceManagerID>, d: DeviceManagerID): (k: nat)
    ensures k <= |ids|
    ensures k < |ids| ==> ids[k] == d
    ensures forall i :: 0 <= i < k ==> ids[i] != d
  {
    if |ids| == 0 then 0
    else if ids[0] == d then 0
    else 1 + FindIndex(ids[1..], d)
  }

  /** unregisterDaemon as a value: the first equal entry erased, or InvalidArgumentException. */
  function Unregister(ids: seq<DeviceManagerID>, d: DeviceManagerID): Result<seq<DeviceManagerID>, Exception>
  {
    var k := FindIndex(ids, d);
    if k == |ids| then Err(InvalidArgument) else Ok(ids[..k] + ids[k + 1..])
  }

  /**
   * Uniqueness does not survive an out-of-order unregister: with idents
   * 0, 1, 2 registered, removing 1 makes the next two registrations both
   * receive ident 1, so the table holds the same ID twice.
   */
  lemma UniquenessLostAfterUnregister()
    ensures RegisterAll([PrefixZWave, PrefixZWave, PrefixZWave]).Some?
    ensures |RegisterAll([PrefixZWave, PrefixZWave, PrefixZWave]).value| == 3
    ensures
      var three := RegisterAll([PrefixZWave, PrefixZWave, PrefixZWave]).value;
      var removed := Unregister(three, three[1]);
      removed.Ok? &&
      Register(removed.value, PrefixZWave).Ok? &&
      var first := Register(removed.value, PrefixZWave).value;
      Register(first.0, PrefixZWave).Ok? &&
      var second := Register(first.0, PrefixZWave).value;
      Ident(first.1) == 1 && Ident(second.1) == 1 && first.1 == second.1 &&
      second.0 == [three[0], three[2], first.1, second.1]
  {
    RegistrationsCountUp([PrefixZWave, PrefixZWave, PrefixZWave]);
    var three := RegisterAll([PrefixZWave, PrefixZWave, PrefixZWave]).value;
    var z0, z1, z2 := three[0], three[1], three[2];
    FromPartsProjects(PrefixZWave, 0);
    FromPartsProjects(PrefixZWave, 1);
    FromPartsProjects(PrefixZWave, 2);
    assert z0 == ManagerFromParts(PrefixZWave, 0) by { ManagerSplits(z0, PrefixZWave); }
    assert z1 == ManagerFromParts(PrefixZWave, 1) by { ManagerSplits(z1, PrefixZWave); }
    assert z2 == ManagerFromParts(PrefixZWave, 2) by { ManagerSplits(z2, PrefixZWave); }
    assert three == [z0, z1, z2];
    assert z0 != z1 && Ident(z1) == 1;
    assert three[1..][0] == z1;
    assert FindIndex(three, z1) == 1;
    assert three[..1] + three[2..] == [z0, z2];
    var removed := [z0, z2];
    assert Unregister(three, z1) == Ok(removed);
    assert Run(removed, 0) == 1;
    var one := ManagerFromParts(PrefixZWave, 1);
    assert FirstEmptyIdent(removed) == 1;
    var grown := removed + [one];
    assert Run(grown, 0) == 1;
    assert FirstEmptyIdent(grown) == 1;
  }

  /** Order-preserving filter of the table by prefix (getAll(prefix)). */
  function ByPrefix(ids: seq<DeviceManagerID>, p: DevicePrefix): seq<DeviceManagerID>
    decreases |ids|
  {
    if |ids| == 0 then []
    else
      var rest := ByPrefix(ids[..|ids| - 1], p);
      if ManagerPrefix(ids[|ids| - 1]) == Ok(p) then rest + [ids[|ids| - 1]] else rest
  }

  /** The filter keeps exactly the entries of that prefix. */
  lemma {:induction false} ByPrefixMembers(ids: seq<DeviceManagerID>, p: DevicePrefix)
    ensures |ByPrefix(ids, p)| <= |ids|
    ensures forall d :: d in ByPrefix(ids, p) <==> d in ids && ManagerPrefix(d) == Ok(p)
    decreases |ids|
  {
    if |ids| > 0 {
      var init := ids[..|ids| - 1];
      ByPrefixMembers(init, p);
      assert ids == init + [ids[|ids| - 1]];
    }
  }

  lemma {:induction false} ByPrefixNone(ids: seq<DeviceManagerID>, p: DevicePrefix)
    requires forall j :: 0 <= j < |ids| ==> ManagerPrefix(ids[j]) != Ok(p)
    ensures ByPrefix(ids, p) == []
    decreases |ids|
  {
    if |ids| > 0 {
      ByPrefixNone(ids[..|ids| - 1], p);
    }
  }

  /** A table holding only managers of prefix p passes the filter whole. */
  lemma {:induction false} ByPrefixAll(ids: seq<DeviceManagerID>, p: DevicePrefix)
    requires forall j :: 0 <= j < |ids| ==> ManagerPrefix(ids[j]) == Ok(p)
    ensures ByPrefix(ids, p) == ids
    decreases |ids|
  {
    if |ids| > 0 {
      ByPrefixAll(ids[..|ids| - 1], p);
      assert ids == ids[..|ids| - 1] + [ids[|ids| - 1]];
    }
  }

  class DeviceManagerTable {
    /** m_deviceManagers, in registration order. */
    var managers: seq<DeviceManagerID>

    constructor ()
      ensures managers == []
    {
      managers := [];
    }

    function Count(): nat
      reads this
    {
      |managers|
    }

    function GetAll(): seq<DeviceManagerID>
      reads this
    {
      managers
    }

    /** getFirstEmptyID: the scan over the vector. */
    method GetFirstEmptyID() returns (daemonID: uint8)
      ensures daemonID == FirstEmptyIdent(managers)
    {
      if |managers| == 0 {
        return 0;
      }
      var start := Ident(managers[0]);
      daemonID := start;
      var i := 0;
      while i < |managers|
        invariant 0 <= i <= |managers|
        invariant FirstEmptyIdent(managers) == RunEnd(managers[i..], daemonID)
      {
        if Ident(managers[i]) == daemonID {
          assert managers[i..][1..] == managers[i + 1..];
          RunEndStep(managers[i..], daemonID);
          daemonID := ((daemonID as int + 1) % 0x100) as uint8;
          i := i + 1;
        } else {
          break;
        }
      }
    }

    /** fromPrefix: RangeException once the table holds more than 255 entries. */
    method FromPrefix(p: DevicePrefix) returns (r: Result<DeviceManagerID, Exception>)
      ensures |managers| > 0xFF ==> r == Err(Range)
      ensures |managers| <= 0xFF ==> r == Ok(ManagerFromParts(p, FirstEmptyIdent(managers)))
    {
      if |managers| > 0xFF {
        return Err(Range);
      }
      var ident := GetFirstEmptyID();
      return Ok(ManagerFromParts(p, ident));
    }

    /** registerDaemonPrefix: the new ID is appended at the end and returned. */
    method RegisterDaemonPrefix(p: DevicePrefix) returns (r: Result<DeviceManagerID, Exception>)
      modifies this
      ensures old(|managers|) > 0xFF ==> r == Err(Range) && managers == old(managers)
      ensures old(|managers|) <= 0xFF ==>
        r.Ok? && managers == old(managers) + [r.value] &&
        ManagerPrefix(r.value) == Ok(p) && Ident(r.value) == FirstEmptyIdent(old(managers))
      ensures Register(old(managers), p) == if r.Ok? then Ok((managers, r.value)) else Err(Range)
    {
      r := FromPrefix(p);
      if r.Ok? {
        FromPartsProjects(p, FirstEmptyIdent(managers));
        managers := managers + [r.value];
      }
    }

    /** unregisterDaemon: erases the first equal entry, or throws InvalidArgumentException. */
    method UnregisterDaemon(d: DeviceManagerID) returns (r: Result<(), Exception>)
      modifies this
      ensures d !in old(managers) ==> r == Err(InvalidArgument) && managers == old(managers)
      ensures d in old(managers) ==>
        (r.Ok? && |managers| == |old(managers)| - 1 &&
         exists k :: 0 <= k < |old(managers)| && old(managers)[k] == d &&
           d !in old(managers)[..k] && managers == old(managers)[..k] + old(managers)[k + 1..])
      ensures Unregister(old(managers), d) == if r.Ok? then Ok(managers) else Err(InvalidArgument)
    {
      var k := FindIndex(managers, d);
      if k == |managers| {
        return Err(InvalidArgument);
      }
      assert d !in managers[..k];
      managers := managers[..k] + managers[k + 1..];
      return Ok(());
    }

    /** getAll(prefix): the loop that copies the entries of one prefix. */
    method GetAllByPrefix(p: DevicePrefix) returns (result: seq<DeviceManagerID>)
      ensures result == ByPrefix(managers, p)
      ensures forall d :: d in result <==> d in managers && ManagerPrefix(d) == Ok(p)
    {
      result := [];
      var i := 0;
      while i < |managers|
        invariant 0 <= i <= |managers|
        invariant result == ByPrefix(managers[..i], p)
      {
        assert managers[..i + 1][..i] == managers[..i];
        if ManagerPrefix(managers[i]) == Ok(p) {
          result := result + [managers[i]];
        }
        i := i + 1;
      }
      assert managers[..i] == managers;
      ByPrefixMembers(managers, p);
    }

    /** isDeviceManagerRegistered: some entry carries the prefix. */
    method IsDeviceManagerRegistered(p: DevicePrefix) returns (found: bool)
      ensures found <==> exists i :: 0 <= i < |managers| && ManagerPrefix(managers[i]) == Ok(p)
      ensures found <==> |ByPrefix(managers, p)| > 0
    {
      ByPrefixMembers(managers, p);
      var i := 0;
      while i < |managers|
        invariant 0 <= i <= |managers|
        invariant forall j :: 0 <= j < i ==> ManagerPrefix(managers[j]) != Ok(p)
      {
        if ManagerPrefix(managers[i]) == Ok(p) {
          assert managers[i] in ByPrefix(managers, p);
          return true;
        }
        i := i + 1;
      }
      ByPrefixNone(managers, p);
      return false;
    }
  }
}
