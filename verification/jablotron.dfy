/**
 * The Jablotron daemon. Reports read from the dongle's serial line become
 * SensorData for the server. Switch values from the server are written
 * back to the dongle as a PGX/PGY command.
 */
module Jablotron {
  import opened Wrappers
  import opened Numerals
  import opened Identity
  import opened SensorModel
  import opened Commands
  import opened Messages

  // ---------------------------------------------------------------- constants

  const FULL_BATTERY: real := 100.0
  const LOW_BATTERY: real := 5.0
  const MAX_NUMBER_FAILED_REPEATS: nat := 10
  const NUMBER_OF_RETRIES: nat := 3
  const JABLOTRON_MAINS_OUTLET: ModuleID := 0

  /** What convert returns. */
  const UNKNOWN_STATE: real := 0.0
  const UNSET_STATE: real := 1.0
  const SET_STATE: real := 2.0

  /** SENSOR_VALUE and FIRE_SENSOR_VALUE of the header. */
  const SENSOR_ON: real := 1.0
  const SENSOR_OFF: real := 2.0
  const FIRE_ON: real := 1.0
  const FIRE_OFF: real := 0.0

  /** A C++ short, the type of the PGX and PGY slots. */
  newtype int16 = x: int | -0x8000 <= x < 0x8000

  // ------------------------------------------------------------- device types

  /** The device families getDeviceType tells apart. */
  datatype Family = AC88 | JA80L | TP82N | JA83M | JA81M | JA82SH | JA83P | JA85ST | RC86K

  /** The inclusive range of serial numbers of each family. */
  function SerialRange(f: Family): (bounds: (nat, nat))
    ensures bounds.0 <= bounds.1
  {
    match f
    case AC88 => (0xCF0000, 0xCFFFFF)
    case JA80L => (0x580000, 0x59FFFF)
    case TP82N => (0x240000, 0x25FFFF)
    case JA83M => (0x1C0000, 0x1DFFFF)
    case JA81M => (0x180000, 0x1BFFFF)
    case JA82SH => (0x7F0000, 0x7FFFFF)
    case JA83P => (0x640000, 0x65FFFF)
    case JA85ST => (0x760000, 0x76FFFF)
    case RC86K => (0x800000, 0x97FFFF)
  }

  predicate InRange(sn: nat, f: Family)
  {
    SerialRange(f).0 <= sn <= SerialRange(f).1
  }

  /** getDeviceType: the family of the first range, in the source's order, holding the serial; None is the source's 0. */
  function DeviceType(sn: nat): (f: Option<Family>)
    ensures f.Some? ==> InRange(sn, f.value)
  {
    if InRange(sn, AC88) then Some(AC88)
    else if InRange(sn, JA80L) then Some(JA80L)
    else if InRange(sn, TP82N) then Some(TP82N)
    else if InRange(sn, JA83M) then Some(JA83M)
    else if InRange(sn, JA81M) then Some(JA81M)
    else if InRange(sn, JA82SH) then Some(JA82SH)
    else if InRange(sn, JA83P) then Some(JA83P)
    else if InRange(sn, JA85ST) then Some(JA85ST)
    else if InRange(sn, RC86K) then Some(RC86K)
    else None
  }

  /** The ranges are pairwise disjoint, so the order of the tests does not matter. */
  lemma DeviceTypeExact(sn: nat, f: Family)
    ensures DeviceType(sn) == Some(f) <==> InRange(sn, f)
    ensures DeviceType(sn).None? <==> forall g :: !InRange(sn, g)
  {
    if DeviceType(sn).None? {
      forall g ensures !InRange(sn, g) {
        match g
        case AC88 =>
        case JA80L =>
        case TP82N =>
        case JA83M =>
        case JA81M =>
        case JA82SH =>
        case JA83P =>
        case JA85ST =>
        case RC86K =>
      }
    }
  }

  /** createDeviceID: the Jablotron prefix above the serial number. */
  function JablotronDevice(sn: nat): (d: DeviceID)
    requires sn < UINT32
    ensures DevicePrefixOf(d) == Ok(PrefixJablotron) && DeviceIdent(d) == sn
  {
    MakeDeviceID(PrefixJablotron, sn)
  }

  // ------------------------------------------------------------ serial numbers

  /** getSerialNumber: the eight characters after the token's first, as an unsigned decimal. */
  function SerialNumber(token: string): (r: Result<nat, Exception>)
    ensures |token| < 10 ==> r == Err(InvalidArgument)
    ensures r.Ok? ==> r.value < UINT32
  {
    if |token| < 10 then Err(InvalidArgument) else ParseUnsignedBounded(token[1..9], UINT32)
  }

  /** Exactly `width` decimal digits of n mod 10^width, zeros in front. */
  function DecimalPadded(n: nat, width: nat): (s: string)
    ensures |s| == width
    ensures forall i :: 0 <= i < |s| ==> IsDecimalDigit(s[i])
    decreases width
  {
    if width == 0 then [] else DecimalPadded(n / 10, width - 1) + ['0' + (n % 10) as char]
  }

  /** The token the dongle reports a device by: its serial in brackets, eight digits wide. */
  function SerialToken(sn: nat): (s: string)
    ensures |s| == 10
  {
    "[" + DecimalPadded(sn, 8) + "]"
  }

  /** n mod 10^(k+1) splits into its low digit and the higher digits. */
  lemma ModSplitTen(n: nat, p: nat)
    requires p >= 1
    ensures (n / 10) % p * 10 + n % 10 == n % (10 * p)
  {
    var q, lo := n / 10, n % 10;
    var a, b := q / p, q % p;
    assert n == q * 10 + lo;
    assert q == a * p + b;
    assert a * p * 10 == a * (10 * p);
    assert n == a * (10 * p) + (b * 10 + lo);
    assert b * 10 + lo < 10 * p by {
      assert b <= p - 1;
      assert b * 10 <= (p - 1) * 10;
    }
    ModUnique(n, 10 * p, a, b * 10 + lo);
  }

  lemma {:induction false} DecimalPaddedDecodes(n: nat, width: nat)
    requires width >= 1
    ensures DecimalNumber(DecimalPadded(n, width)) == Some(n % Pow10(width))
    decreases width
  {
    var s := DecimalPadded(n, width);
    var d := n % 10;
    assert s == DecimalPadded(n / 10, width - 1) + ['0' + d as char];
    assert (s[|s| - 1] - '0') as nat == d;
    assert Pow10(width) == 10 * Pow10(width - 1);
    if width > 1 {
      var p := Pow10(width - 1);
      DecimalPaddedDecodes(n / 10, width - 1);
      assert s[..|s| - 1] == DecimalPadded(n / 10, width - 1);
      assert DecimalNumber(s) == Some((n / 10) % p * 10 + d);
      ModSplitTen(n, p);
    }
  }

  /** getSerialNumber reads back the serial of every eight-digit serial token. */
  lemma SerialTokenRoundTrip(sn: nat)
    requires sn < 100_000_000
    ensures SerialNumber(SerialToken(sn)) == Ok(sn)
  {
    var s := SerialToken(sn);
    assert s[1..9] == DecimalPadded(sn, 8);
    DecimalPaddedDecodes(sn, 8);
    assert Pow10(8) == 100_000_000;
    ModUnique(sn, Pow10(8), 0, sn);
  }

  // ----------------------------------------------------------------- tokens

  /** Index of the first `sep` at or after `from`, or |s| when there is none. */
  function SeparatorIndex(s: string, sep: char, from: nat): (k: nat)
    requires from <= |s|
    ensures from <= k <= |s|
    ensures k < |s| ==> s[k] == sep
    ensures forall i :: from <= i < k ==> s[i] != sep
    decreases |s| - from
  {
    if from == |s| then from else if s[from] == sep then from else SeparatorIndex(s, sep, from + 1)
  }

  /** The parts between separators, empty ones included: n separators give n + 1 parts. */
  function Split(s: string, sep: char): (parts: seq<string>)
    ensures |parts| >= 1
    decreases |s|
  {
    var k := SeparatorIndex(s, sep, 0);
    if k == |s| then [s] else [s[..k]] + Split(s[k + 1..], sep)
  }

  /** The parts joined with the separator between each two. */
  function Join(parts: seq<string>, sep: char): string
    requires |parts| >= 1
  {
    if |parts| == 1 then parts[0] else parts[0] + [sep] + Join(parts[1..], sep)
  }

  /** Poco's StringTokenizer without options: an empty string has no token, any other string every part. */
  function Tokenize(s: string, sep: char): (tokens: seq<string>)
    ensures |tokens| == 0 <==> |s| == 0
  {
    if |s| == 0 then [] else Split(s, sep)
  }

  /** Joining a first part onto more parts puts one separator between them. */
  lemma JoinCons(head: string, tail: seq<string>, sep: char)
    requires |tail| >= 1
    ensures Join([head] + tail, sep) == head + [sep] + Join(tail, sep)
  {
    assert ([head] + tail)[1..] == tail;
  }

  /** Splitting loses nothing: the parts join back to the string. */
  lemma {:induction false} SplitJoins(s: string, sep: char)
    ensures Join(Split(s, sep), sep) == s
    decreases |s|
  {
    var k := SeparatorIndex(s, sep, 0);
    if k < |s| {
      var rest := s[k + 1..];
      SplitJoins(rest, sep);
      JoinCons(s[..k], Split(rest, sep), sep);
      assert s == s[..k] + [sep] + rest;
    }
  }

  /** No part of a split holds the separator. */
  lemma {:induction false} SplitPartsFree(s: string, sep: char)
    ensures forall i :: 0 <= i < |Split(s, sep)| ==> sep !in Split(s, sep)[i]
    decreases |s|
  {
    var k := SeparatorIndex(s, sep, 0);
    if k < |s| {
      var rest := s[k + 1..];
      SplitPartsFree(rest, sep);
      var parts := Split(s, sep);
      assert sep !in parts[0];
      forall i | 1 <= i < |parts|
        ensures sep !in parts[i]
      {
        assert parts[i] == Split(rest, sep)[i - 1];
      }
    }
  }

  /** Joining parts free of the separator and splitting again gives the parts back. */
  lemma {:induction false} JoinSplits(parts: seq<string>, sep: char)
    requires |parts| >= 1
    requires forall i :: 0 <= i < |parts| ==> sep !in parts[i]
    ensures Split(Join(parts, sep), sep) == parts
    decreases |parts|
  {
    var s := Join(parts, sep);
    var k := SeparatorIndex(s, sep, 0);
    if |parts| > 1 {
      var p := parts[0];
      var rest := Join(parts[1..], sep);
      assert s == p + [sep] + rest;
      assert s[|p|] == sep;
      assert k == |p|;
      assert s[..k] == p;
      assert s[k + 1..] == rest;
      JoinSplits(parts[1..], sep);
      assert parts == [p] + parts[1..];
    }
  }

  /** StringTokenizer::operator[]: a missing token throws RangeException. */
  function Token(tokens: seq<string>, i: nat): (r: Result<string, Exception>)
    ensures r.Ok? <==> i < |tokens|
    ensures r.Ok? ==> r.value == tokens[i]
    ensures r.Err? ==> r.error == Range
  {
    if i < |tokens| then Ok(tokens[i]) else Err(Range)
  }

  predicate IsSpace(c: char)
  {
    c == ' ' || c == '\t' || c == '\n' || c == '\r' || c == '\U{B}' || c == '\U{C}'
  }

  /** The first index at or after `from` that holds no white space, or |s|. */
  function TextStart(s: string, from: nat): (i: nat)
    requires from <= |s|
    ensures from <= i <= |s|
    ensures i < |s| ==> !IsSpace(s[i])
    ensures forall k :: from <= k < i ==> IsSpace(s[k])
    decreases |s| - from
  {
    if from == |s| || !IsSpace(s[from]) then from else TextStart(s, from + 1)
  }

  /** The end of the text in s[lo..hi]: the last index below `hi` holding no white space, plus one, or `lo`. */
  function TextEnd(s: string, lo: nat, hi: nat): (j: nat)
    requires lo <= hi <= |s|
    ensures lo <= j <= hi
    ensures j > lo ==> !IsSpace(s[j - 1])
    ensures forall k :: j <= k < hi ==> IsSpace(s[k])
    decreases hi - lo
  {
    if hi == lo || !IsSpace(s[hi - 1]) then hi else TextEnd(s, lo, hi - 1)
  }

  /** Poco's trim: the text without its leading and trailing white space. */
  function Trim(s: string): (t: string)
    ensures |t| == 0 || (!IsSpace(t[0]) && !IsSpace(t[|t| - 1]))
  {
    var i := TextStart(s, 0);
    s[i..TextEnd(s, i, |s|)]
  }

  /** Trimming drops only white space: the text sits between white space only. */
  lemma TrimDropsSpace(s: string)
    ensures exists i, j ::
              0 <= i <= j <= |s| && Trim(s) == s[i..j]
              && (forall k :: 0 <= k < i ==> IsSpace(s[k]))
              && (forall k :: j <= k < |s| ==> IsSpace(s[k]))
  {
    var i := TextStart(s, 0);
    var j := TextEnd(s, i, |s|);
    assert Trim(s) == s[i..j];
  }

  // ---------------------------------------------------------------- values

  /** getValue: the number after the first ':' of a "NAME:value" field. */
  function FieldValue(field: string): (r: Result<real, Exception>)
    ensures |Tokenize(field, ':')| < 2 ==> r == Err(Range)
  {
    var tokens := Tokenize(field, ':');
    if |tokens| < 2 then Err(Range) else ParseDecimal(tokens[1])
  }

  /** std::to_string of an int reads back through parseFloat. */
  lemma ParseDecimalOfInt(i: int)
    ensures ParseDecimal(FormatInt(i)) == Ok(i as real)
  {
    if i >= 0 {
      ParseDecimalOfNumeral(i);
    } else {
      var d := FormatDecimal(-i);
      var s := FormatInt(i);
      assert s[0] == '-' && s[1..] == d;
      assert DotIndex(d, 0) == |d|;
      assert d[..|d|] == d;
      FormatDecimalDecodes(-i);
    }
  }

  /** The dongle's "NAME:n" field. */
  function Field(name: string, i: int): string
  {
    name + ":" + FormatInt(i)
  }

  /** A "NAME:n" field reads as n whenever the name holds no ':'. */
  lemma FieldValueOf(name: string, i: int)
    requires ':' !in name
    ensures FieldValue(Field(name, i)) == Ok(i as real)
  {
    var digits := FormatInt(i);
    FormatIntFree(i, ':');
    var parts := [name, digits];
    assert Join(parts, ':') == name + ":" + digits by {
      assert Join(parts[1..], ':') == digits;
    }
    JoinSplits(parts, ':');
    ParseDecimalOfInt(i);
  }

  /** convert: UNSET_STATE for the value 1; otherwise SET_STATE when `reverse` and UNKNOWN_STATE when not. */
  function Convert(data: string, reverse: bool): (r: Result<real, Exception>)
    ensures r.Err? <==> FieldValue(data).Err?
    ensures r.Err? ==> r.error == FieldValue(data).error
    ensures r.Ok? ==> (r.value == UNSET_STATE <==> FieldValue(data).value == 1.0)
    ensures r.Ok? ==> (r.value == SET_STATE <==> reverse && FieldValue(data).value != 1.0)
    ensures r.Ok? ==> (r.value == UNKNOWN_STATE <==> !reverse && FieldValue(data).value != 1.0)
  {
    var v := FieldValue(data);
    if v.Err? then Err(v.error)
    else if v.value == 1.0 then Ok(UNSET_STATE)
    else if reverse then Ok(SET_STATE)
    else Ok(UNKNOWN_STATE)
  }

  /** getBatteryStatus: LOW_BATTERY for a non-zero value, FULL_BATTERY for zero. */
  function BatteryStatus(field: string): (r: Result<real, Exception>)
    ensures r.Err? <==> FieldValue(field).Err?
    ensures r.Ok? ==> (r.value == LOW_BATTERY <==> FieldValue(field).value != 0.0)
    ensures r.Ok? ==> (r.value == FULL_BATTERY <==> FieldValue(field).value == 0.0)
  {
    var v := FieldValue(field);
    if v.Err? then Err(v.error) else if v.value != 0.0 then Ok(LOW_BATTERY) else Ok(FULL_BATTERY)
  }

  /** The dongle's "NAME:n" fields convert by their number. */
  lemma ConvertField(name: string, n: int, reverse: bool)
    requires ':' !in name
    ensures Convert(Field(name, n), reverse)
      == Ok(if n == 1 then UNSET_STATE else if reverse then SET_STATE else UNKNOWN_STATE)
    ensures BatteryStatus(Field(name, n)) == Ok(if n == 0 then FULL_BATTERY else LOW_BATTERY)
  {
    FieldValueOf(name, n);
  }

  // ---------------------------------------------------------- report parsing

  /** The type-specific value of a report, and the event it raises (the "off" value to send after it). */
  datatype Reading = Reading(value: SensorValue, event: Option<SensorValue>)

  /** A parsed report: the SensorData for the server and the event it raised. */
  datatype Report = Report(data: SensorData, event: Option<SensorValue>)

  /** The converted token 4 under the given module, raising no event. */
  function ConvertedField(tokens: seq<string>, moduleId: ModuleID): Result<Reading, Exception>
  {
    var field := Token(tokens, 4);
    if field.Err? then Err(field.error)
    else
      var c := Convert(field.value, true);
      if c.Err? then Err(c.error) else Ok(Reading(SensorValue(moduleId, Some(c.value)), None))
  }

  /** parseMessageFromJA85ST: the fire sensor and its alarm and error modules. */
  function ParseJA85ST(tokens: seq<string>): Result<Reading, Exception>
  {
    var data := Token(tokens, 2);
    if data.Err? then Err(data.error)
    else if data.value == "SENSOR" then
      Ok(Reading(SensorValue(0, Some(FIRE_ON)), Some(SensorValue(0, Some(FIRE_OFF)))))
    else if data.value == "BUTTON" then Ok(Reading(SensorValue(0, Some(SENSOR_ON)), None))
    else if data.value == "TAMPER" then ConvertedField(tokens, 1)
    else if data.value == "DEFECT" then ConvertedField(tokens, 2)
    else Err(InvalidArgument)
  }

  /** parseMessageFromJA83P_JA82SH: the motion sensor and its alarm module. */
  function ParseJA83PJA82SH(tokens: seq<string>): Result<Reading, Exception>
  {
    var data := Token(tokens, 2);
    if data.Err? then Err(data.error)
    else if data.value == "TAMPER" then ConvertedField(tokens, 1)
    else if data.value == "SENSOR" then
      Ok(Reading(SensorValue(0, Some(SENSOR_ON)), Some(SensorValue(0, Some(SENSOR_OFF)))))
    else Err(InvalidArgument)
  }

  /** parseMessageFromJA81M_JA83M: the door contact and its alarm module. */
  function ParseJA81MJA83M(tokens: seq<string>): Result<Reading, Exception>
  {
    var data := Token(tokens, 2);
    if data.Err? then Err(data.error)
    else if data.value == "SENSOR" then ConvertedField(tokens, 0)
    else if data.value == "TAMPER" then ConvertedField(tokens, 1)
    else Err(InvalidArgument)
  }

  /** parseMessageFromRC86K: a panic raises the alarm module; anything else is the remote control's state. */
  function ParseRC86K(data: string): Result<Reading, Exception>
  {
    if data == "PANIC" then
      Ok(Reading(SensorValue(1, Some(SENSOR_ON)), Some(SensorValue(1, Some(SENSOR_OFF)))))
    else
      var c := Convert(data, true);
      if c.Err? then Err(c.error) else Ok(Reading(SensorValue(0, Some(c.value)), None))
  }

  /**
   * parseMessageFromTP82N: the four characters at offset 22 of the whole
   * line are the temperature; a first ':'-part "SET" makes it the requested
   * temperature (module 1), anything else the current one (module 0).
   */
  function ParseTP82N(message: string, data: string): Result<Reading, Exception>
  {
    if |message| < 26 then Err(InvalidArgument)
    else
      var parts := Tokenize(data, ':');
      if |parts| == 0 then Err(Range)
      else
        var t := ParseDecimal(message[22..26]);
        if t.Err? then Err(t.error)
        else Ok(Reading(SensorValue(if parts[0] == "SET" then 1 else 0, Some(t.value)), None))
  }

  /** The battery module: 3 on the JA85ST, 2 (RC86K's) on the others. */
  function BatteryModule(f: Family): ModuleID
  {
    if f == JA85ST then 3 else 2
  }

  /** The type-specific part of parseMessageFromDevice; JA80L and the unknown families throw. */
  function ParseSpecific(f: Option<Family>, message: string, tokens: seq<string>): Result<Reading, Exception>
  {
    if f.None? then Err(InvalidArgument)
    else match f.value
      case JA81M => ParseJA81MJA83M(tokens)
      case JA83M => ParseJA81MJA83M(tokens)
      case JA83P => ParseJA83PJA82SH(tokens)
      case JA82SH => ParseJA83PJA82SH(tokens)
      case JA85ST => ParseJA85ST(tokens)
      case RC86K =>
        var data := Token(tokens, 2);
        if data.Err? then Err(data.error) else ParseRC86K(data.value)
      case TP82N =>
        var data := Token(tokens, 2);
        if data.Err? then Err(data.error) else ParseTP82N(message, data.value)
      case _ => Err(InvalidArgument)
  }

  /**
   * parseMessageFromDevice: the serial from token 0 names the device; an
   * AC88 reports one converted value; every other family reports its
   * battery from token 3 and then its type-specific value.
   */
  function ParseMessage(message: string, tokens: seq<string>): Result<Report, Exception>
  {
    var first := Token(tokens, 0);
    if first.Err? then Err(first.error)
    else
      var sn := SerialNumber(first.value);
      if sn.Err? then Err(sn.error)
      else
        var f := DeviceType(sn.value);
        var device := JablotronDevice(sn.value);
        if f == Some(AC88) then
          var data := Token(tokens, 2);
          if data.Err? then Err(data.error)
          else
            var c := Convert(data.value, false);
            if c.Err? then Err(c.error)
            else Ok(Report(SensorData(device, [SensorValue(0, Some(c.value))]), None))
        else
          var field := Token(tokens, 3);
          if field.Err? then Err(field.error)
          else
            var battery := BatteryStatus(field.value);
            if battery.Err? then Err(battery.error)
            else
              var moduleId := if f == Some(JA85ST) then 3 else 2;
              var specific := ParseSpecific(f, message, tokens);
              if specific.Err? then Err(specific.error)
              else Ok(Report(SensorData(device, [SensorValue(moduleId, Some(battery.value)), specific.value.value]),
                             specific.value.event))
  }

  /** The family a report's first token names, when it names one. */
  function FamilyOf(tokens: seq<string>): Option<Family>
  {
    if |tokens| == 0 || SerialNumber(tokens[0]).Err? then None else DeviceType(SerialNumber(tokens[0]).value)
  }

  /** The values a reading holds sit on the modules of its family's header enum. */
  lemma ReadingModules(f: Family, message: string, tokens: seq<string>)
    requires ParseSpecific(Some(f), message, tokens).Ok?
    ensures var r := ParseSpecific(Some(f), message, tokens).value;
      r.value.moduleId <= 2 && f != JA80L && f != AC88
      && (r.event.Some? ==>
            f in {JA85ST, JA83P, JA82SH, RC86K}
            && r.event.value.moduleId == r.value.moduleId
            && r.value.value == Some(1.0)
            && r.event.value.value == Some(if f == JA85ST then FIRE_OFF else SENSOR_OFF))
  {
  }

  /**
   * What a parsed report holds: the device named by token 0's serial; for
   * an AC88 one module-0 value that is 0 or 1; for the other families the
   * battery (5 or 100) on the family's battery module, then one value; an
   * event only from a fire, motion or panic report, on the same module as
   * the reported "on" value. JA80L and unknown serials never parse.
   */
  lemma ParseMessageShape(message: string, tokens: seq<string>)
    ensures var r := ParseMessage(message, tokens);
      r.Ok? ==> |tokens| >= 3 && SerialNumber(tokens[0]).Ok?
                && r.value.data.device == JablotronDevice(SerialNumber(tokens[0]).value)
                && FamilyOf(tokens).Some? && FamilyOf(tokens) != Some(JA80L)
    ensures var r := ParseMessage(message, tokens);
      r.Ok? && FamilyOf(tokens) == Some(AC88) ==>
        r.value.event.None? && |r.value.data.values| == 1 && r.value.data.values[0].moduleId == 0
        && r.value.data.values[0].value in {Some(UNKNOWN_STATE), Some(UNSET_STATE)}
    ensures var r := ParseMessage(message, tokens);
      r.Ok? && FamilyOf(tokens) != Some(AC88) ==>
        |r.value.data.values| == 2
        && r.value.data.values[0].moduleId == BatteryModule(FamilyOf(tokens).value)
        && r.value.data.values[0].value in {Some(LOW_BATTERY), Some(FULL_BATTERY)}
        && r.value.data.values[1].moduleId <= 2
        && (r.value.event.Some? ==>
              FamilyOf(tokens).value in {JA85ST, JA83P, JA82SH, RC86K}
              && r.value.event.value.moduleId == r.value.data.values[1].moduleId
              && r.value.data.values[1].value == Some(1.0))
  {
    var r := ParseMessage(message, tokens);
    if r.Ok? && FamilyOf(tokens) != Some(AC88) {
      var f := FamilyOf(tokens);
      if f.Some? {
        ReadingModules(f.value, message, tokens);
      }
    }
  }

  /** Every report's modules fit the message's module field. */
  lemma ReportModules(message: string, tokens: seq<string>)
    requires ParseMessage(message, tokens).Ok?
    ensures WireModules(ParseMessage(message, tokens).value.data.values)
    ensures var e := ParseMessage(message, tokens).value.event; e.Some? ==> e.value.moduleId < 0x1_0000
  {
    ParseMessageShape(message, tokens);
  }

  /** A report of a family other than AC88 is its battery value followed by its type-specific reading. */
  lemma ParseMessageParts(message: string, tokens: seq<string>, sn: nat, battery: real, reading: Reading)
    requires |tokens| >= 4 && SerialNumber(tokens[0]) == Ok(sn)
    requires DeviceType(sn) != Some(AC88) && BatteryStatus(tokens[3]) == Ok(battery)
    requires ParseSpecific(DeviceType(sn), message, tokens) == Ok(reading)
    ensures ParseMessage(message, tokens)
      == Ok(Report(SensorData(JablotronDevice(sn),
                              [SensorValue(if DeviceType(sn) == Some(JA85ST) then 3 else 2, Some(battery)), reading.value]),
                   reading.event))
  {
  }

  /** The contact field of a JA81M "SENSOR" report reads as UNSET when 1 and SET otherwise. */
  lemma DoorContactReading(tokens: seq<string>, contact: int)
    requires |tokens| == 5 && tokens[2] == "SENSOR" && tokens[4] == Field("ACT", contact)
    ensures ParseJA81MJA83M(tokens)
      == Ok(Reading(SensorValue(0, Some(if contact == 1 then UNSET_STATE else SET_STATE)), None))
  {
    ConvertField("ACT", contact, true);
    assert Token(tokens, 4) == Ok(Field("ACT", contact));
    assert Token(tokens, 2) == Ok("SENSOR");
  }

  /** A JA81M door-contact report, as the dongle sends it, gives its battery state and its contact state. */
  lemma ParseDoorContact(sn: nat, battery: int, contact: int)
    requires InRange(sn, JA81M)
    ensures ParseMessage("", [SerialToken(sn), "JA-81M", "SENSOR", Field("LB", battery), Field("ACT", contact)])
      == Ok(Report(SensorData(JablotronDevice(sn),
                              [SensorValue(2, Some(if battery == 0 then FULL_BATTERY else LOW_BATTERY)),
                               SensorValue(0, Some(if contact == 1 then UNSET_STATE else SET_STATE))]),
                   None))
  {
    var tokens := [SerialToken(sn), "JA-81M", "SENSOR", Field("LB", battery), Field("ACT", contact)];
    var level := if battery == 0 then FULL_BATTERY else LOW_BATTERY;
    var reading := Reading(SensorValue(0, Some(if contact == 1 then UNSET_STATE else SET_STATE)), None);
    assert SerialNumber(tokens[0]) == Ok(sn) by {
      SerialTokenRoundTrip(sn);
    }
    assert DeviceType(sn) == Some(JA81M) by {
      DeviceTypeExact(sn, JA81M);
    }
    assert BatteryStatus(tokens[3]) == Ok(level) by {
      ConvertField("LB", battery, true);
    }
    assert ParseSpecific(Some(JA81M), "", tokens) == Ok(reading) by {
      DoorContactReading(tokens, contact);
    }
    ParseMessageParts("", tokens, sn, level, reading);
  }

  // ---------------------------------------------------------- retransmission

  /** n copies of a string. */
  function Repeat(s: string, n: nat): (r: seq<string>)
    ensures |r| == n
  {
    if n == 0 then [] else [s] + Repeat(s, n - 1)
  }

  lemma {:induction false} RepeatAll(s: string, n: nat)
    ensures forall i :: 0 <= i < n ==> Repeat(s, n)[i] == s
  {
    if n > 0 {
      RepeatAll(s, n - 1);
      assert forall i :: 1 <= i < n ==> Repeat(s, n)[i] == Repeat(s, n - 1)[i - 1];
    }
  }

  /** Sending one more copy leaves one copy fewer to send. */
  lemma RepeatShift(before: seq<string>, s: string, n: nat)
    requires n >= 1
    ensures before + Repeat(s, n) == (before + [s]) + Repeat(s, n - 1)
  {
    assert Repeat(s, n) == [s] + Repeat(s, n - 1);
  }

  /**
   * The send calls retransmissionPacket makes when the n-th call overall
   * fails iff n is in `lost`, `base` calls came before, and `successes` and
   * `failures` are already counted: it goes on until three have succeeded
   * or ten have failed.
   */
  function Attempts(lost: set<nat>, base: nat, successes: nat, failures: nat): nat
    requires successes <= NUMBER_OF_RETRIES && failures <= MAX_NUMBER_FAILED_REPEATS
    decreases NUMBER_OF_RETRIES - successes + MAX_NUMBER_FAILED_REPEATS - failures
  {
    if successes == NUMBER_OF_RETRIES || failures == MAX_NUMBER_FAILED_REPEATS then 0
    else if base !in lost then 1 + Attempts(lost, base + 1, successes + 1, failures)
    else 1 + Attempts(lost, base + 1, successes, failures + 1)
  }

  /** One call of retransmissionPacket: it counts as a success or a failure. */
  lemma AttemptsStep(lost: set<nat>, base: nat, successes: nat, failures: nat, successes': nat, failures': nat)
    requires successes < NUMBER_OF_RETRIES && failures < MAX_NUMBER_FAILED_REPEATS
    requires successes' == if base !in lost then successes + 1 else successes
    requires failures' == if base !in lost then failures else failures + 1
    ensures Attempts(lost, base, successes, failures) == 1 + Attempts(lost, base + 1, successes', failures')
  {
  }

  /**
   * Midway through retransmissionPacket: `log` has been sent, `successes`
   * and `failures` are counted, and the calls still to come complete `total`.
   */
  ghost predicate InFlight(log: seq<string>, text: string, lost: set<nat>, successes: nat, failures: nat, total: seq<string>)
    requires successes <= NUMBER_OF_RETRIES && failures <= MAX_NUMBER_FAILED_REPEATS
  {
    log + Repeat(text, Attempts(lost, |log|, successes, failures)) == total
  }

  /** One more send call keeps the rest of the run the same. */
  lemma InFlightStep(log: seq<string>, text: string, lost: set<nat>, successes: nat, failures: nat, total: seq<string>,
                    successes': nat, failures': nat)
    requires successes < NUMBER_OF_RETRIES && failures < MAX_NUMBER_FAILED_REPEATS
    requires InFlight(log, text, lost, successes, failures, total)
    requires successes' == if |log| !in lost then successes + 1 else successes
    requires failures' == if |log| !in lost then failures else failures + 1
    ensures InFlight(log + [text], text, lost, successes', failures', total)
  {
    var rest := Attempts(lost, |log|, successes, failures);
    AttemptsStep(lost, |log|, successes, failures, successes', failures');
    RepeatShift(log, text, rest);
  }

  /** Once three calls succeeded or ten failed, nothing is left to send. */
  lemma InFlightDone(log: seq<string>, text: string, lost: set<nat>, successes: nat, failures: nat, total: seq<string>)
    requires successes <= NUMBER_OF_RETRIES && failures <= MAX_NUMBER_FAILED_REPEATS
    requires InFlight(log, text, lost, successes, failures, total)
    requires successes == NUMBER_OF_RETRIES || failures == MAX_NUMBER_FAILED_REPEATS
    ensures log == total
  {
    assert Repeat(text, 0) == [];
  }

  /** How many of the n calls from `base` on succeed. */
  function Successes(lost: set<nat>, base: nat, n: nat): (s: nat)
    ensures s <= n
    decreases n
  {
    if n == 0 then 0 else (if base !in lost then 1 else 0) + Successes(lost, base + 1, n - 1)
  }

  lemma {:induction false} AttemptsStop(lost: set<nat>, base: nat, successes: nat, failures: nat)
    requires successes <= NUMBER_OF_RETRIES && failures <= MAX_NUMBER_FAILED_REPEATS
    ensures var n := Attempts(lost, base, successes, failures);
      var s := Successes(lost, base, n);
      (successes + s == NUMBER_OF_RETRIES || failures + n - s == MAX_NUMBER_FAILED_REPEATS)
      && (successes < NUMBER_OF_RETRIES && failures < MAX_NUMBER_FAILED_REPEATS ==> n + successes + failures <= 12)
    decreases NUMBER_OF_RETRIES - successes + MAX_NUMBER_FAILED_REPEATS - failures
  {
    if successes < NUMBER_OF_RETRIES && failures < MAX_NUMBER_FAILED_REPEATS {
      var b := if base !in lost then 1 else 0;
      var s', f' := successes + b, failures + 1 - b;
      AttemptsStop(lost, base + 1, s', f');
      var n' := Attempts(lost, base + 1, s', f');
      assert Attempts(lost, base, successes, failures) == 1 + n';
      assert Successes(lost, base, 1 + n') == b + Successes(lost, base + 1, n');
    }
  }

  lemma {:induction false} AttemptsNotEarlier(lost: set<nat>, base: nat, successes: nat, failures: nat)
    requires successes <= NUMBER_OF_RETRIES && failures <= MAX_NUMBER_FAILED_REPEATS
    ensures var n := Attempts(lost, base, successes, failures);
      forall j :: 0 <= j < n ==>
        successes + Successes(lost, base, j) < NUMBER_OF_RETRIES
        && failures + j - Successes(lost, base, j) < MAX_NUMBER_FAILED_REPEATS
    decreases NUMBER_OF_RETRIES - successes + MAX_NUMBER_FAILED_REPEATS - failures
  {
    if successes < NUMBER_OF_RETRIES && failures < MAX_NUMBER_FAILED_REPEATS {
      var b := if base !in lost then 1 else 0;
      var s', f' := successes + b, failures + 1 - b;
      AttemptsNotEarlier(lost, base + 1, s', f');
      var n := Attempts(lost, base, successes, failures);
      assert n == 1 + Attempts(lost, base + 1, s', f');
      forall j | 0 < j < n
        ensures Successes(lost, base, j) == b + Successes(lost, base + 1, j - 1)
      {
      }
    }
  }

  /** retransmissionPacket makes at least 3 and at most 12 calls, and stops at the third success or the tenth failure. */
  lemma RetransmissionBounded(lost: set<nat>, base: nat)
    ensures var n := Attempts(lost, base, 0, 0);
      var s := Successes(lost, base, n);
      NUMBER_OF_RETRIES <= n <= 12
      && (s == NUMBER_OF_RETRIES || n - s == MAX_NUMBER_FAILED_REPEATS)
      && forall j :: 0 <= j < n ==>
           Successes(lost, base, j) < NUMBER_OF_RETRIES && j - Successes(lost, base, j) < MAX_NUMBER_FAILED_REPEATS
  {
    AttemptsStop(lost, base, 0, 0);
    AttemptsNotEarlier(lost, base, 0, 0);
  }

  // ------------------------------------------------------------------ switch

  /** The serial setSwitch gives the PGX slot: the first AC88 the dongle lists, or 0 when it lists none. */
  function FirstAC88(devices: seq<nat>): nat
  {
    if |devices| == 0 then 0
    else if DeviceType(devices[0]) == Some(AC88) then devices[0]
    else FirstAC88(devices[1..])
  }

  lemma {:induction false} FirstAC88Spec(devices: seq<nat>)
    ensures FirstAC88(devices) == 0 <==> forall i :: 0 <= i < |devices| ==> DeviceType(devices[i]) != Some(AC88)
    ensures FirstAC88(devices) != 0 ==>
      exists k :: 0 <= k < |devices| && devices[k] == FirstAC88(devices) && DeviceType(devices[k]) == Some(AC88)
                  && forall i :: 0 <= i < k ==> DeviceType(devices[i]) != Some(AC88)
  {
    if |devices| > 0 {
      FirstAC88Spec(devices[1..]);
      if DeviceType(devices[0]) != Some(AC88) {
        if FirstAC88(devices) != 0 {
          var k :| 0 <= k < |devices[1..]| && devices[1..][k] == FirstAC88(devices[1..])
            && DeviceType(devices[1..][k]) == Some(AC88)
            && forall i :: 0 <= i < k ==> DeviceType(devices[1..][i]) != Some(AC88);
          assert devices[k + 1] == FirstAC88(devices);
          forall i | 0 <= i < k + 1
            ensures DeviceType(devices[i]) != Some(AC88)
          {
            if i > 0 {
              assert devices[i] == devices[1..][i - 1];
            }
          }
        } else {
          forall i | 0 <= i < |devices|
            ensures DeviceType(devices[i]) != Some(AC88)
          {
            if i > 0 {
              assert devices[i] == devices[1..][i - 1];
            }
          }
        }
      } else {
        assert InRange(devices[0], AC88);
      }
    }
  }

  /** The command setSwitch writes to the dongle: these six words with a space between each two. */
  function SwitchText(pgx: int16, pgy: int16): string
  {
    Join(SwitchWords(pgx, pgy), ' ')
  }

  lemma FormatIntFree(i: int, c: char)
    requires c != '-' && !IsDecimalDigit(c)
    ensures c !in FormatInt(i)
  {
    var s := FormatInt(i);
    if i < 0 {
      var d := FormatDecimal(-i);
      assert forall k :: 1 <= k < |s| ==> s[k] == d[k - 1];
    }
  }

  /** The words of the switch command: escape and "TX", "ENROLL:0", the two slots, "ALARM:0" and "BEEP:FAST" ending the line. */
  function SwitchWords(pgx: int16, pgy: int16): seq<string>
  {
    [['\U{1B}'] + "TX", "ENROLL:0", Field("PGX", pgx as int), Field("PGY", pgy as int), "ALARM:0", "BEEP:FAST\n"]
  }

  lemma SwitchWordsFree(pgx: int16, pgy: int16)
    ensures forall i :: 0 <= i < |SwitchWords(pgx, pgy)| ==> ' ' !in SwitchWords(pgx, pgy)[i]
  {
    FormatIntFree(pgx as int, ' ');
    FormatIntFree(pgy as int, ' ');
    var parts := SwitchWords(pgx, pgy);
    assert ' ' !in parts[0] && ' ' !in parts[1] && ' ' !in parts[4] && ' ' !in parts[5];
  }

  /** The dongle reads the two slots back from the command: its third and fourth words are the PGX and PGY fields. */
  lemma SwitchTextFields(pgx: int16, pgy: int16)
    ensures var words := Tokenize(SwitchText(pgx, pgy), ' ');
      |words| == 6 && FieldValue(words[2]) == Ok(pgx as real) && FieldValue(words[3]) == Ok(pgy as real)
  {
    var parts := SwitchWords(pgx, pgy);
    SwitchWordsFree(pgx, pgy);
    JoinSplits(parts, ' ');
    assert SwitchText(pgx, pgy) == parts[0] + [' '] + Join(parts[1..], ' ');
    FieldValueOf("PGX", pgx as int);
    FieldValueOf("PGY", pgy as int);
  }

  /** `(short) value`: truncation toward zero kept to 16 bits; NaN and values beyond 32 bits give 0. */
  function ToShort(v: Double): (s: int16)
    ensures Truncate(v).Some? && -0x8000 <= Truncate(v).value < 0x8000 ==> s as int == Truncate(v).value
  {
    var t := Truncate(v);
    if t.None? || t.value < -0x8000_0000 || t.value >= 0x8000_0000 then 0
    else ((t.value + 0x8000) % 0x1_0000 - 0x8000) as int16
  }

  // ------------------------------------------------------------------- state

  /** The part of the daemon's state the answer queue and setSwitch change. */
  datatype SwitchState = SwitchState(flagged: set<DeviceID>, pgx: int16, pgy: int16, serialOut: seq<string>)

  /**
   * setSwitch: the value goes to PGX when the target is the first AC88,
   * to PGY otherwise; the command with both slots is then retransmitted.
   */
  function Switched(st: SwitchState, devices: seq<nat>, target: DeviceID, sw: int16, lost: set<nat>): SwitchState
    requires FirstAC88(devices) < UINT32
  {
    var toPgx := JablotronDevice(FirstAC88(devices)) == target;
    var pgx := if toPgx then sw else st.pgx;
    var pgy := if toPgx then st.pgy else sw;
    st.(pgx := pgx, pgy := pgy,
        serialOut := st.serialOut + Repeat(SwitchText(pgx, pgy), Attempts(lost, |st.serialOut|, 0, 0)))
  }

  /** Exactly one slot takes the value, the other keeps its own, and every command sent carries both. */
  lemma SwitchedSlots(st: SwitchState, devices: seq<nat>, target: DeviceID, sw: int16, lost: set<nat>)
    requires FirstAC88(devices) < UINT32
    ensures var st' := Switched(st, devices, target, sw, lost);
      st'.flagged == st.flagged
      && (JablotronDevice(FirstAC88(devices)) == target ==> st'.pgx == sw && st'.pgy == st.pgy)
      && (JablotronDevice(FirstAC88(devices)) != target ==> st'.pgy == sw && st'.pgx == st.pgx)
      && st.serialOut <= st'.serialOut
      && NUMBER_OF_RETRIES <= |st'.serialOut| - |st.serialOut| <= 12
      && forall i :: |st.serialOut| <= i < |st'.serialOut| ==>
           var words := Tokenize(st'.serialOut[i], ' ');
           |words| == 6 && FieldValue(words[2]) == Ok(st'.pgx as real) && FieldValue(words[3]) == Ok(st'.pgy as real)
  {
    var st' := Switched(st, devices, target, sw, lost);
    RetransmissionBounded(lost, |st.serialOut|);
    SwitchTextFields(st'.pgx, st'.pgy);
    forall i | |st.serialOut| <= i < |st'.serialOut|
      ensures st'.serialOut[i] == SwitchText(st'.pgx, st'.pgy)
    {
      var extra := Repeat(SwitchText(st'.pgx, st'.pgy), Attempts(lost, |st.serialOut|, 0, 0));
      RepeatAll(SwitchText(st'.pgx, st'.pgy), Attempts(lost, |st.serialOut|, 0, 0));
      assert st'.serialOut[i] == extra[i - |st.serialOut|];
    }
  }

  /** An element of the dirty list: the Answer's handle and its first Result. */
  datatype Dirty = Dirty(handle: nat, first: ResultRecord)

  /** A stored request's Answer holds the Result of the command's own kind, as getDeviceList and getLastValue create it. */
  predicate Matching(table: map<nat, Command>, dirty: seq<Dirty>)
  {
    forall i :: 0 <= i < |dirty| && dirty[i].handle in table ==>
      (table[dirty[i].handle].ServerDeviceList? ==> dirty[i].first.payload.DeviceList?)
      && (table[dirty[i].handle].ServerLastValue? ==> dirty[i].first.payload.LastValue?)
  }

  /** The set of a device list. */
  function Listed(devices: seq<DeviceID>): set<DeviceID>
  {
    set d | d in devices
  }

  /** An answer that ends the drain: unknown, or a last value that did not succeed. */
  predicate Halts(table: map<nat, Command>, a: Dirty)
  {
    a.handle !in table || (table[a.handle].ServerLastValue? && a.first.status != Success)
  }

  /**
   * checkQueue: a device-list answer replaces the flagged set, a
   * successful last value sets a switch; an unknown answer or a failed last
   * value ends the drain.
   */
  function Drain(dirty: seq<Dirty>, table: map<nat, Command>, devices: seq<nat>, lost: set<nat>, st: SwitchState): SwitchState
    requires Matching(table, dirty) && FirstAC88(devices) < UINT32
    decreases |dirty|
  {
    if |dirty| == 0 then st
    else
      var a := dirty[0];
      assert Matching(table, dirty[1..]) by {
        forall i | 0 <= i < |dirty[1..]| ensures dirty[1..][i] == dirty[i + 1] { }
      }
      if a.handle !in table then st
      else match table[a.handle]
        case ServerDeviceList(_) =>
          Drain(dirty[1..], table, devices, lost, st.(flagged := Listed(a.first.payload.devices)))
        case ServerLastValue(device, _) =>
          if a.first.status != Success then st
          else Drain(dirty[1..], table, devices, lost, Switched(st, devices, device, ToShort(a.first.payload.value), lost))
        case _ => Drain(dirty[1..], table, devices, lost, st)
  }

  lemma MatchingPrefix(table: map<nat, Command>, dirty: seq<Dirty>, k: nat)
    requires Matching(table, dirty) && k <= |dirty|
    ensures Matching(table, dirty[..k]) && Matching(table, dirty[k..])
  {
    forall i | 0 <= i < |dirty[k..]| ensures dirty[k..][i] == dirty[k + i] { }
  }

  /** Nothing after the first halting answer takes effect. */
  lemma {:induction false} DrainHalts(dirty: seq<Dirty>, k: nat, table: map<nat, Command>, devices: seq<nat>, lost: set<nat>, st: SwitchState)
    requires Matching(table, dirty) && FirstAC88(devices) < UINT32
    requires k < |dirty| && Halts(table, dirty[k])
    ensures Matching(table, dirty[..k])
    ensures Drain(dirty, table, devices, lost, st) == Drain(dirty[..k], table, devices, lost, st)
    decreases k
  {
    MatchingPrefix(table, dirty, k);
    if k > 0 {
      var a := dirty[0];
      assert dirty[..k][0] == a;
      assert dirty[..k][1..] == dirty[1..][..k - 1];
      MatchingPrefix(table, dirty, 1);
      if a.handle in table && !Halts(table, a) {
        var st' := match table[a.handle]
          case ServerDeviceList(_) => st.(flagged := Listed(a.first.payload.devices))
          case ServerLastValue(device, _) => Switched(st, devices, device, ToShort(a.first.payload.value), lost)
          case _ => st;
        DrainHalts(dirty[1..], k - 1, table, devices, lost, st');
      }
    }
  }

  /**
   * The flagged set after a drain is the one before or the list of one of
   * the device-list answers; the dongle only receives more commands; with
   * no last-value answer the switches and the dongle are untouched.
   */
  lemma {:induction false} DrainEffects(dirty: seq<Dirty>, table: map<nat, Command>, devices: seq<nat>, lost: set<nat>, st: SwitchState)
    requires Matching(table, dirty) && FirstAC88(devices) < UINT32
    ensures var st' := Drain(dirty, table, devices, lost, st);
      (st'.flagged == st.flagged
       || exists i :: 0 <= i < |dirty| && dirty[i].handle in table && table[dirty[i].handle].ServerDeviceList?
                      && st'.flagged == Listed(dirty[i].first.payload.devices))
      && st.serialOut <= st'.serialOut
    ensures (forall i :: 0 <= i < |dirty| && dirty[i].handle in table ==> !table[dirty[i].handle].ServerLastValue?) ==>
      var st' := Drain(dirty, table, devices, lost, st);
      st'.pgx == st.pgx && st'.pgy == st.pgy && st'.serialOut == st.serialOut
    decreases |dirty|
  {
    if |dirty| > 0 && dirty[0].handle in table {
      var a := dirty[0];
      MatchingPrefix(table, dirty, 1);
      var st' := match table[a.handle]
        case ServerDeviceList(_) => st.(flagged := Listed(a.first.payload.devices))
        case ServerLastValue(device, _) => Switched(st, devices, device, ToShort(a.first.payload.value), lost)
        case _ => st;
      if !Halts(table, a) {
        DrainEffects(dirty[1..], table, devices, lost, st');
        var result := Drain(dirty, table, devices, lost, st);
        assert result == Drain(dirty[1..], table, devices, lost, st');
        if result.flagged != st'.flagged {
          var i :| 0 <= i < |dirty[1..]| && dirty[1..][i].handle in table && table[dirty[1..][i].handle].ServerDeviceList?
                   && result.flagged == Listed(dirty[1..][i].first.payload.devices);
          assert dirty[1..][i] == dirty[i + 1];
        }
        if (forall i :: 0 <= i < |dirty| && dirty[i].handle in table ==> !table[dirty[i].handle].ServerLastValue?) {
          forall i | 0 <= i < |dirty[1..]| && dirty[1..][i].handle in table
            ensures !table[dirty[1..][i].handle].ServerLastValue?
          {
            assert dirty[1..][i] == dirty[i + 1];
          }
        }
      }
    }
  }

  // ------------------------------------------------------------ measured values

  /** The event message the source builds: the device alone, because the event value goes into the other SensorData. */
  function EventDataAsWritten(device: DeviceID, event: SensorValue): SensorData
  {
    SensorData(device, [])
  }

  /** The event message the surrounding comment describes: the device and its "off" value. */
  function EventData(device: DeviceID, event: SensorValue): SensorData
  {
    SensorData(device, [event])
  }

  /** As written, the server receives the event message with no value at all, so the sensor is never switched off. */
  lemma EventValueLost(device: DeviceID, event: SensorValue)
    ensures ToSensorData(SensorDataObject(EventDataAsWritten(device, event))) == Ok(SensorData(device, []))
    ensures EventDataAsWritten(device, event) != EventData(device, event)
  {
    SensorDataRoundTrip(EventDataAsWritten(device, event));
  }

  /** Corrected, the server decodes the event message to the device and its "off" value. */
  lemma EventValueDelivered(device: DeviceID, event: SensorValue)
    requires event.moduleId < 0x1_0000
    ensures ToSensorData(SensorDataObject(EventData(device, event))) == Ok(SensorData(device, [event]))
  {
    SensorDataRoundTrip(EventData(device, event));
  }

  /** The messages one report sends and the pending event afterwards. */
  datatype Measured = Measured(messages: seq<Object>, pending: bool, event: SensorValue)

  /**
   * sendMeasuredValues: a report that does not parse is dropped; a parsed
   * one raises its event first; a device not flagged is dropped unless the
   * daemon listens; otherwise the data goes out, followed by the pending
   * event's message, which clears it.
   */
  function MeasuredOutcome(r: Result<Report, Exception>, flagged: set<DeviceID>, listen: bool, pending: bool, event: SensorValue): Measured
  {
    if r.Err? then Measured([], pending, event)
    else
      var pending1 := pending || r.value.event.Some?;
      var event1 := if r.value.event.Some? then r.value.event.value else event;
      var data := r.value.data;
      if data.device !in flagged && !listen then Measured([], pending1, event1)
      else if pending1 then
        Measured([SensorDataObject(data), SensorDataObject(EventData(data.device, event1))], false, event1)
      else Measured([SensorDataObject(data)], false, event1)
  }

  /**
   * The drop and listen policy: nothing goes out for a report that does not
   * parse or for an unflagged device outside listen mode, and its event
   * stays pending; otherwise the server decodes the report first and then,
   * when an event is pending, the device with the event's value.
   */
  lemma MeasuredPolicy(message: string, tokens: seq<string>, flagged: set<DeviceID>, listen: bool, pending: bool, event: SensorValue)
    requires event.moduleId < 0x1_0000
    ensures var r := ParseMessage(message, tokens);
      var out := MeasuredOutcome(r, flagged, listen, pending, event);
      (r.Err? ==> out == Measured([], pending, event))
      && (r.Ok? ==> (|out.messages| == 0 <==> r.value.data.device !in flagged && !listen))
      && (r.Ok? && |out.messages| == 0 ==> out.pending == (pending || r.value.event.Some?))
      && (r.Ok? && |out.messages| > 0 ==>
            ToSensorData(out.messages[0]) == Ok(r.value.data) && !out.pending
            && (|out.messages| == 2 <==> pending || r.value.event.Some?)
            && (|out.messages| == 2 ==>
                  ToSensorData(out.messages[1]) == Ok(SensorData(r.value.data.device, [out.event]))))
      && |out.messages| <= 2
  {
    var r := ParseMessage(message, tokens);
    if r.Ok? {
      ReportModules(message, tokens);
      SensorDataRoundTrip(r.value.data);
      var out := MeasuredOutcome(r, flagged, listen, pending, event);
      assert out.event.moduleId < 0x1_0000;
      EventValueDelivered(r.value.data.device, out.event);
    }
  }

  // ------------------------------------------------------------------ daemon

  class JablotronManager {
    /** m_prefix: the prefix the daemon asks the server about. */
    var prefix: DevicePrefix
    /** m_devices: the serials registered in the dongle's slots. */
    var devices: seq<nat>
    /** m_devicesWithFlag: the paired devices whose reports go to the server. */
    var flagged: set<DeviceID>
    /** m_table: the pending server requests, by the handle of their Answer. */
    var table: map<nat, Command>
    var listen: bool
    /** m_sensorEvent and m_sensorEventValue: an event waiting to be sent after the next report. */
    var sensorEvent: bool
    var eventValue: SensorValue
    var pgx: int16
    var pgy: int16
    /** Messages sent to the server, in order. */
    var sent: seq<Object>
    /** Every string handed to the dongle's send call, in order. */
    var serialOut: seq<string>

    /** The state setSwitch and checkQueue change. */
    function State(): SwitchState
      reads this
    {
      SwitchState(flagged, pgx, pgy, serialOut)
    }

    predicate Valid()
      reads this
    {
      forall i :: 0 <= i < |devices| ==> devices[i] < UINT32
    }

    lemma FirstAC88Bounded()
      requires Valid()
      ensures FirstAC88(devices) < UINT32
    {
      FirstAC88Spec(devices);
    }

    constructor (prefix: DevicePrefix)
      ensures Valid()
      ensures this.prefix == prefix && devices == [] && flagged == {} && table == map[]
      ensures !listen && !sensorEvent && pgx == 0 && pgy == 0 && sent == [] && serialOut == []
    {
      this.prefix := prefix;
      devices := [];
      flagged := {};
      table := map[];
      listen := false;
      sensorEvent := false;
      eventValue := SensorValue(0, None);
      pgx := 0;
      pgy := 0;
      sent := [];
      serialOut := [];
    }

    /** A serial read from one of the dongle's slots, appended to m_devices. */
    method AddRegistered(sn: nat)
      requires Valid() && sn < UINT32
      modifies this`devices
      ensures Valid() && devices == old(devices) + [sn]
    {
      devices := devices + [sn];
    }

    /** retransmissionPacket: send until three calls succeed or ten fail; the n-th send call overall fails iff n is in `lost`. */
    method RetransmissionPacket(text: string, lost: set<nat>)
      modifies this`serialOut
      ensures serialOut == old(serialOut) + Repeat(text, Attempts(lost, |old(serialOut)|, 0, 0))
    {
      ghost var total := serialOut + Repeat(text, Attempts(lost, |serialOut|, 0, 0));
      var i: int := 0;
      var maximum := 0;
      while i < NUMBER_OF_RETRIES as int && maximum < MAX_NUMBER_FAILED_REPEATS
        invariant 0 <= i <= NUMBER_OF_RETRIES as int && 0 <= maximum <= MAX_NUMBER_FAILED_REPEATS
        invariant InFlight(serialOut, text, lost, i as nat, maximum, total)
        decreases NUMBER_OF_RETRIES as int - i + MAX_NUMBER_FAILED_REPEATS - maximum
      {
        var ok := |serialOut| !in lost;
        ghost var successes: nat, failures: nat := if ok then i + 1 else i, if ok then maximum else maximum + 1;
        InFlightStep(serialOut, text, lost, i as nat, maximum, total, successes, failures);
        serialOut := serialOut + [text];
        if !ok {
          maximum := maximum + 1;
          i := i - 1;
        }
        // the for loop's i++ runs after `continue` too
        i := i + 1;
        assert i == successes && maximum == failures;
      }
      InFlightDone(serialOut, text, lost, i as nat, maximum, total);
    }

    /** setSwitch: find the first AC88, put the value in its slot or the other one, and send both. */
    method SetSwitch(device: DeviceID, sw: int16, lost: set<nat>)
      requires Valid()
      modifies this`pgx, this`pgy, this`serialOut
      ensures FirstAC88(devices) < UINT32
      ensures State() == Switched(old(State()), devices, device, sw, lost)
    {
      FirstAC88Bounded();
      var pgxSerial := 0;
      var k := 0;
      while k < |devices|
        invariant 0 <= k <= |devices|
        invariant (if pgxSerial != 0 then pgxSerial else FirstAC88(devices[k..])) == FirstAC88(devices)
      {
        assert devices[k..][1..] == devices[k + 1..];
        if DeviceType(devices[k]) == Some(AC88) && pgxSerial == 0 {
          pgxSerial := devices[k];
        }
        k := k + 1;
      }
      if JablotronDevice(pgxSerial) == device {
        pgx := sw;
      } else {
        pgy := sw;
      }
      RetransmissionPacket(SwitchText(pgx, pgy), lost);
    }

    /** doSetValuesCommand: the value, cast to a short, goes to setSwitch. */
    method SetValues(device: DeviceID, value: Double, lost: set<nat>)
      requires Valid()
      modifies this`pgx, this`pgy, this`serialOut
      ensures FirstAC88(devices) < UINT32
      ensures State() == Switched(old(State()), devices, device, ToShort(value), lost)
    {
      SetSwitch(device, ToShort(value), lost);
    }

    /** checkQueue over the answers the queue reported dirty. */
    method CheckQueue(dirty: seq<Dirty>, lost: set<nat>)
      requires Valid() && Matching(table, dirty)
      modifies this`flagged, this`pgx, this`pgy, this`serialOut
      ensures FirstAC88(devices) < UINT32
      ensures State() == Drain(dirty, table, devices, lost, old(State()))
    {
      FirstAC88Bounded();
      var k := 0;
      while k < |dirty|
        invariant 0 <= k <= |dirty|
        invariant Matching(table, dirty[k..])
        invariant Drain(dirty[k..], table, devices, lost, State()) == Drain(dirty, table, devices, lost, old(State()))
      {
        MatchingPrefix(table, dirty, k + 1);
        assert dirty[k..][0] == dirty[k] && dirty[k..][1..] == dirty[k + 1..];
        var answer := dirty[k];
        if answer.handle !in table {
          break;
        }
        var cmd := table[answer.handle];
        if cmd.ServerDeviceList? {
          flagged := Listed(answer.first.payload.devices);
        }
        if cmd.ServerLastValue? {
          if answer.first.status != Success {
            return;
          }
          SetSwitch(cmd.device, ToShort(answer.first.payload.value), lost);
        }
        k := k + 1;
      }
    }

    /** doDeviceUnpairCommand: the device leaves the flagged set. */
    method Unpair(device: DeviceID)
      modifies this`flagged
      ensures forall d :: d in flagged <==> d in old(flagged) && d != device
    {
      flagged := flagged - {device};
    }

    /** startListen: reports of unflagged devices go out until the timer stops it. */
    method StartListen()
      modifies this`listen
      ensures listen
    {
      listen := true;
    }

    /** getDeviceList: forget the flagged set and ask the server for it under a fresh Answer. */
    method GetDeviceList(handle: nat, id: GlobalID)
      requires handle !in table
      modifies this`flagged, this`sent, this`table
      ensures flagged == {}
      ensures sent == old(sent) + [CommandObject(ServerDeviceList(prefix), id).value]
      ensures table == old(table)[handle := ServerDeviceList(prefix)]
    {
      flagged := {};
      var cmd := ServerDeviceList(prefix);
      sent := sent + [CommandObject(cmd, id).value];
      table := table[handle := cmd];
    }

    /** getLastValue: ask the server for the mains outlet's last value under a fresh Answer. */
    method GetLastValue(device: DeviceID, handle: nat, id: GlobalID)
      requires handle !in table
      modifies this`sent, this`table
      ensures sent == old(sent) + [CommandObject(ServerLastValue(device, JABLOTRON_MAINS_OUTLET), id).value]
      ensures table == old(table)[handle := ServerLastValue(device, JABLOTRON_MAINS_OUTLET)]
    {
      var cmd := ServerLastValue(device, JABLOTRON_MAINS_OUTLET);
      sent := sent + [CommandObject(cmd, id).value];
      table := table[handle := cmd];
    }

    /** stopListen: leave listen mode and ask for the device list again. */
    method StopListen(handle: nat, id: GlobalID)
      requires handle !in table
      modifies this`listen, this`flagged, this`sent, this`table
      ensures !listen && flagged == {}
      ensures sent == old(sent) + [CommandObject(ServerDeviceList(prefix), id).value]
      ensures table == old(table)[handle := ServerDeviceList(prefix)]
    {
      listen := false;
      GetDeviceList(handle, id);
    }

    /** sendMeasuredValues for one report line and its tokens. */
    method SendMeasuredValues(message: string, tokens: seq<string>)
      modifies this`sensorEvent, this`eventValue, this`sent
      ensures var out := MeasuredOutcome(ParseMessage(message, tokens), flagged, listen, old(sensorEvent), old(eventValue));
        sent == old(sent) + out.messages && sensorEvent == out.pending && eventValue == out.event
    {
      Deliver(ParseMessage(message, tokens));
    }

    /** What sendMeasuredValues does with the outcome of parsing. */
    method Deliver(parsed: Result<Report, Exception>)
      modifies this`sensorEvent, this`eventValue, this`sent
      ensures var out := MeasuredOutcome(parsed, flagged, listen, old(sensorEvent), old(eventValue));
        sent == old(sent) + out.messages && sensorEvent == out.pending && eventValue == out.event
    {
      ghost var out := MeasuredOutcome(parsed, flagged, listen, sensorEvent, eventValue);
      if parsed.Err? {
        return;
      }
      if parsed.value.event.Some? {
        sensorEvent := true;
        eventValue := parsed.value.event.value;
      }
      var data := parsed.value.data;
      assert sensorEvent == (old(sensorEvent) || parsed.value.event.Some?);
      if data.device !in flagged && !listen {
        return;
      }
      sent := sent + [SensorDataObject(data)];
      if sensorEvent {
        assert out.messages == [SensorDataObject(data), SensorDataObject(EventData(data.device, eventValue))];
        sent := sent + [SensorDataObject(EventData(data.device, eventValue))];
        sensorEvent := false;
      }
    }

    /**
     * One pass of run()'s loop after the queue is drained: nothing is read
     * while no device is flagged; a read line of fewer than three
     * space-separated tokens is skipped; any other goes to sendMeasuredValues.
     */
    method ProcessLine(line: string)
      modifies this`sensorEvent, this`eventValue, this`sent
      ensures var text := Trim(line);
        var tokens := Tokenize(text, ' ');
        if |flagged| == 0 || |tokens| < 3 then
          sent == old(sent) && sensorEvent == old(sensorEvent) && eventValue == old(eventValue)
        else
          var out := MeasuredOutcome(ParseMessage(text, tokens), flagged, listen, old(sensorEvent), old(eventValue));
          sent == old(sent) + out.messages && sensorEvent == out.pending && eventValue == out.event
    {
      if |flagged| == 0 {
        return;
      }
      var text := Trim(line);
      var tokens := Tokenize(text, ' ');
      if |tokens| < 3 {
        return;
      }
      SendMeasuredValues(text, tokens);
    }
  }
}
