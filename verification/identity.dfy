/**
 * Identities on the wire: the protocol prefix of a device manager, the
 * 16-bit DeviceManagerID (prefix byte over ident byte) and the 64-bit
 * DeviceID (prefix byte over a 56-bit ident).
 */
module Identity {
  import opened Wrappers
  import opened Numerals

  newtype uint8 = x: int | 0 <= x < 0x100
  newtype uint16 = x: int | 0 <= x < 0x1_0000
  newtype uint64 = x: int | 0 <= x < 0x1_0000_0000_0000_0000

  /** The prefixes the modelled components use (DevicePrefix.h is not part of this model). */
  datatype DevicePrefix = PrefixInvalid | PrefixFitprotocol | PrefixZWave | PrefixJablotron

  function PrefixRaw(p: DevicePrefix): (raw: uint8)
    ensures raw == 0 <==> p == PrefixInvalid
  {
    match p
    case PrefixInvalid => 0x00
    case PrefixFitprotocol => 0xa1
    case PrefixZWave => 0xa8
    case PrefixJablotron => 0xa9
  }

  function PrefixName(p: DevicePrefix): (name: string)
    ensures |name| > 0
  {
    match p
    case PrefixInvalid => "Invalid"
    case PrefixFitprotocol => "Fitprotocol"
    case PrefixZWave => "Z-Wave"
    case PrefixJablotron => "Jablotron"
  }

  /** DevicePrefix::fromRaw: an unknown raw value throws InvalidArgumentException. */
  function PrefixFromRaw(raw: int): (r: Result<DevicePrefix, Exception>)
    ensures r.Ok? ==> PrefixRaw(r.value) as int == raw
    ensures r.Err? ==> r.error == InvalidArgument && forall p :: PrefixRaw(p) as int != raw
  {
    if raw == 0x00 then Ok(PrefixInvalid)
    else if raw == 0xa1 then Ok(PrefixFitprotocol)
    else if raw == 0xa8 then Ok(PrefixZWave)
    else if raw == 0xa9 then Ok(PrefixJablotron)
    else Err(InvalidArgument)
  }

  /** DevicePrefix::parse: an unknown name throws InvalidArgumentException. */
  function PrefixParse(name: string): (r: Result<DevicePrefix, Exception>)
    ensures r.Ok? ==> PrefixName(r.value) == name
    ensures r.Err? ==> r.error == InvalidArgument && forall p :: PrefixName(p) != name
  {
    if name == "Invalid" then Ok(PrefixInvalid)
    else if name == "Fitprotocol" then Ok(PrefixFitprotocol)
    else if name == "Z-Wave" then Ok(PrefixZWave)
    else if name == "Jablotron" then Ok(PrefixJablotron)
    else Err(InvalidArgument)
  }

  lemma PrefixRoundTrips(p: DevicePrefix)
    ensures PrefixFromRaw(PrefixRaw(p) as int) == Ok(p)
    ensures PrefixParse(PrefixName(p)) == Ok(p)
  {
  }

  // ---------------------------------------------------------------- DeviceManagerID

  /** A device manager's identity: the prefix raw in the high byte, the ident in the low byte. */
  datatype DeviceManagerID = DeviceManagerID(id: uint16)

  /** The default constructor. */
  const DefaultManagerID := DeviceManagerID(0)

  function Value(d: DeviceManagerID): uint16 { d.id }

  function Ident(d: DeviceManagerID): (i: uint8)
    ensures i as int == d.id as int % 0x100
  {
    (d.id % 0x100) as uint8
  }

  /** isValid() is true exactly for the all-zero ID, the default one included. */
  function IsValid(d: DeviceManagerID): (b: bool)
    ensures b <==> d == DefaultManagerID
  {
    d.id == 0
  }

  /** prefix(): the prefix whose raw value is the high byte; throws when the byte is unknown. */
  function ManagerPrefix(d: DeviceManagerID): (r: Result<DevicePrefix, Exception>)
    ensures r.Ok? ==> PrefixRaw(r.value) as int == d.id as int / 0x100
  {
    PrefixFromRaw(d.id as int / 0x100)
  }

  /** The constructor from a raw 16-bit value: the high byte must name a prefix other than PREFIX_INVALID. */
  function ManagerFromValue(v: uint16): (r: Result<DeviceManagerID, Exception>)
    ensures r.Ok? <==> v as int / 0x100 in {0xa1, 0xa8, 0xa9}
    ensures r.Ok? ==> r.value.id == v
    ensures r.Err? ==> r.error == InvalidArgument
  {
    var prefix := PrefixFromRaw(v as int / 0x100);
    if prefix.Err? then Err(prefix.error)
    else if prefix.value == PrefixInvalid then Err(InvalidArgument)
    else Ok(DeviceManagerID(v))
  }

  /** The constructor from a prefix and an ident byte. */
  function ManagerFromParts(p: DevicePrefix, ident: uint8): (d: DeviceManagerID)
  {
    DeviceManagerID((PrefixRaw(p) as int * 0x100 + ident as int) as uint16)
  }

  /** prefix() and ident() give back the parts the ID was built from. */
  lemma FromPartsProjects(p: DevicePrefix, ident: uint8)
    ensures ManagerPrefix(ManagerFromParts(p, ident)) == Ok(p)
    ensures Ident(ManagerFromParts(p, ident)) == ident
    ensures Value(ManagerFromParts(p, ident)) as int == PrefixRaw(p) as int * 0x100 + ident as int
  {
    var v := PrefixRaw(p) as int * 0x100 + ident as int;
    assert v / 0x100 == PrefixRaw(p) as int;
    assert v % 0x100 == ident as int;
  }

  /** Every ID splits into its prefix byte and ident byte. */
  lemma ManagerSplits(d: DeviceManagerID, p: DevicePrefix)
    requires ManagerPrefix(d) == Ok(p)
    ensures ManagerFromParts(p, Ident(d)) == d
  {
  }

  /** toString: Poco's formatHex of the 16-bit value. */
  function ManagerToString(d: DeviceManagerID): (s: string)
    ensures 1 <= |s|
  {
    FormatHex(d.id as nat)
  }

  /** parse: hex text; above 0xFFFF is a RangeException, raised before any prefix check. */
  function ManagerParse(s: string): (r: Result<DeviceManagerID, Exception>)
  {
    var n := ParseHexBounded(s, UINT32);
    if n.Err? then Err(n.error)
    else if n.value > 0xFFFF then Err(Range)
    else ManagerFromValue(n.value as uint16)
  }

  /** A constructible ID is one with a known prefix other than PREFIX_INVALID. */
  predicate Constructible(d: DeviceManagerID)
  {
    d.id as int / 0x100 in {0xa1, 0xa8, 0xa9}
  }

  /** The text of every constructible ID parses back to it. */
  lemma ParseToString(d: DeviceManagerID)
    requires Constructible(d)
    ensures ManagerParse(ManagerToString(d)) == Ok(d)
  {
    ParseFormatHex(d.id as nat, UINT32);
  }

  /** What parse accepts: hex text of a value with a known, valid prefix byte. */
  lemma ParseAccepts(s: string, d: DeviceManagerID)
    requires ManagerParse(s) == Ok(d)
    ensures Constructible(d)
    ensures ParseHexBounded(s, UINT32) == Ok(d.id as nat)
  {
  }

  /** The ID built from a valid prefix is constructible, so its text round-trips too. */
  lemma FromPartsConstructible(p: DevicePrefix, ident: uint8)
    requires p != PrefixInvalid
    ensures Constructible(ManagerFromParts(p, ident))
    ensures ManagerParse(ManagerToString(ManagerFromParts(p, ident))) == Ok(ManagerFromParts(p, ident))
  {
    FromPartsProjects(p, ident);
    ParseToString(ManagerFromParts(p, ident));
  }

  /** The comparison operators all compare the 16-bit value. */
  function ManagerLess(a: DeviceManagerID, b: DeviceManagerID): bool { a.id < b.id }

  /** The IDs form a total order that agrees with the order of their values. */
  lemma ManagerOrderTotal(a: DeviceManagerID, b: DeviceManagerID, c: DeviceManagerID)
    ensures ManagerLess(a, b) || a == b || ManagerLess(b, a)
    ensures !(ManagerLess(a, b) && ManagerLess(b, a))
    ensures !ManagerLess(a, a)
    ensures ManagerLess(a, b) && ManagerLess(b, c) ==> ManagerLess(a, c)
    ensures a == b <==> Value(a) == Value(b)
  {
  }

  /** Examples fixed by the repository's tests: construction from a raw value. */
  lemma ManagerValueExamples()
    ensures ManagerFromValue(0xa1aa) == Ok(DeviceManagerID(0xa1aa))
    ensures ManagerPrefix(DeviceManagerID(0xa1aa)) == Ok(PrefixFitprotocol)
    ensures Ident(DeviceManagerID(0xa1aa)) == 0xaa
    ensures ManagerFromValue(0) == Err(InvalidArgument)
    ensures ManagerFromValue(0xffff) == Err(InvalidArgument)
  {
  }

  /** Examples fixed by the repository's tests: text conversions. */
  lemma ManagerTextExamples()
    ensures ManagerParse("0xa112") == Ok(ManagerFromParts(PrefixFitprotocol, 0x12))
    ensures ManagerToString(DeviceManagerID(0xa100)) == "A100"
  {
    FromPartsProjects(PrefixFitprotocol, 0x12);
    var t := "a1" + ['1'] + ['2'];
    HexNumberStep("a1", '1');
    HexNumberStep("a1" + ['1'], '2');
    assert StripHexPrefix("0xa112") == t;
  }

  /** parse rejects a value above 0xFFFF with RangeException. */
  lemma ManagerRangeExample()
    ensures ManagerParse("99999999") == Err(Range)
  {
    var t1 := "9";
    var t2 := t1 + ['9'];
    var t3 := t2 + ['9'];
    var t4 := t3 + ['9'];
    var t5 := t4 + ['9'];
    var t6 := t5 + ['9'];
    var t7 := t6 + ['9'];
    var t8 := t7 + ['9'];
    HexNumberStep(t1, '9');
    HexNumberStep(t2, '9');
    HexNumberStep(t3, '9');
    HexNumberStep(t4, '9');
    HexNumberStep(t5, '9');
    HexNumberStep(t6, '9');
    HexNumberStep(t7, '9');
    assert t8 == "99999999";
    assert StripHexPrefix(t8) == t8;
  }

  // ---------------------------------------------------------------- DeviceID

  const IDENT_BOUND: nat := 0x100_0000_0000_0000

  /** A device's identity: the prefix raw in the top byte, a 56-bit ident below it. */
  datatype DeviceID = DeviceID(value: uint64)

  function DevicePrefixOf(d: DeviceID): Result<DevicePrefix, Exception>
  {
    PrefixFromRaw(d.value as int / IDENT_BOUND)
  }

  function DeviceIdent(d: DeviceID): nat { d.value as nat % IDENT_BOUND }

  /** DeviceID(prefix, ident): the ident is kept to its 56 bits. */
  function MakeDeviceID(p: DevicePrefix, ident: nat): (d: DeviceID)
    ensures DevicePrefixOf(d) == Ok(p)
    ensures DeviceIdent(d) == ident % IDENT_BOUND
  {
    var v := PrefixRaw(p) as int * IDENT_BOUND + ident % IDENT_BOUND;
    assert v / IDENT_BOUND == PrefixRaw(p) as int;
    assert v % IDENT_BOUND == ident % IDENT_BOUND;
    DeviceID(v as uint64)
  }

  /** The device's text: "0x" and sixteen lower-case hex digits. */
  function DeviceToString(d: DeviceID): (s: string)
    ensures |s| == 18 && s[..2] == "0x"
  {
    "0x" + LowerHexPadded(d.value as nat, 16)
  }

  function DeviceParse(s: string): (r: Result<DeviceID, Exception>)
  {
    var n := ParseHexBounded(s, UINT64);
    if n.Err? then Err(n.error) else Ok(DeviceID(n.value as uint64))
  }

  lemma DeviceParseToString(d: DeviceID)
    ensures DeviceParse(DeviceToString(d)) == Ok(d)
  {
    var v := d.value as nat;
    DeviceDigitsDecode(d);
    assert ParseHexBounded(DeviceToString(d), UINT64) == Ok(v);
  }

  lemma DeviceDigitsDecode(d: DeviceID)
    ensures HexNumber(StripHexPrefix(DeviceToString(d))) == Some(d.value as nat)
  {
    var v := d.value as nat;
    var digits := LowerHexPadded(v, 16);
    var s := "0x" + digits;
    assert s[2..] == digits;
    Pow16Sixteen();
    PaddedRoundTrip(v, 16);
  }

  /** ModuleID: a module index with decimal text. */
  type ModuleID = nat

  function ModuleToString(m: ModuleID): string { FormatDecimal(m) }

  function ModuleParse(s: string): (r: Result<ModuleID, Exception>)
  {
    var n := ParseUnsignedBounded(s, 0x1_0000);
    if n.Err? then Err(n.error) else Ok(n.value)
  }

  lemma ModuleParseToString(m: ModuleID)
    requires m < 0x1_0000
    ensures ModuleParse(ModuleToString(m)) == Ok(m)
  {
    ParseFormatDecimal(m, 0x1_0000);
  }
}
