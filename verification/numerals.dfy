/**
 * Number <-> text conversions used on the wire: Poco's formatHex/parseHex,
 * decimal formatting and parseUnsigned, and the decimal subset of parseFloat.
 */
module Numerals {
  import opened Wrappers

  const UINT32: nat := 0x1_0000_0000
  const UINT64: nat := 0x1_0000_0000_0000_0000

  predicate IsDecimalDigit(c: char) { '0' <= c <= '9' }

  function UpperHexDigit(d: nat): (c: char)
    requires d < 16
  {
    if d < 10 then '0' + d as char else 'A' + (d - 10) as char
  }

  function LowerHexDigit(d: nat): (c: char)
    requires d < 16
  {
    if d < 10 then '0' + d as char else 'a' + (d - 10) as char
  }

  /** The value of one hex digit of either case; None for any other character. */
  function HexDigitValue(c: char): (r: Option<nat>)
    ensures r.Some? ==> r.value < 16
  {
    if '0' <= c <= '9' then Some((c - '0') as nat)
    else if 'a' <= c <= 'f' then Some((c - 'a') as nat + 10)
    else if 'A' <= c <= 'F' then Some((c - 'A') as nat + 10)
    else None
  }

  lemma DigitsDecode(d: nat)
    requires d < 16
    ensures HexDigitValue(UpperHexDigit(d)) == Some(d)
    ensures HexDigitValue(LowerHexDigit(d)) == Some(d)
  {
  }

  /** The value of a non-empty string of hex digits, most significant first. */
  function HexNumber(s: string): (r: Option<nat>)
    decreases |s|
  {
    if |s| == 0 then None
    else
      var last := HexDigitValue(s[|s| - 1]);
      if last.None? then None
      else if |s| == 1 then last
      else
        var high := HexNumber(s[..|s| - 1]);
        if high.None? then None else Some(high.value * 16 + last.value)
  }

  /** Poco's formatHex: upper-case digits, no "0x", no leading zeros. */
  function FormatHex(n: nat): (s: string)
    ensures |s| >= 1
    decreases n
  {
    if n < 16 then [UpperHexDigit(n)] else FormatHex(n / 16) + [UpperHexDigit(n % 16)]
  }

  /** Exactly `width` lower-case hex digits of n mod 16^width. */
  function LowerHexPadded(n: nat, width: nat): (s: string)
    ensures |s| == width
    decreases width
  {
    if width == 0 then [] else LowerHexPadded(n / 16, width - 1) + [LowerHexDigit(n % 16)]
  }

  /** Formatted digits never contain the letter of a "0x" prefix. */
  lemma {:induction false} FormatHexNoX(n: nat)
    ensures forall i :: 0 <= i < |FormatHex(n)| ==> FormatHex(n)[i] != 'x' && FormatHex(n)[i] != 'X'
    decreases n
  {
    if n >= 16 {
      FormatHexNoX(n / 16);
    }
  }

  lemma {:induction false} PaddedNoX(n: nat, width: nat)
    ensures forall i :: 0 <= i < width ==> LowerHexPadded(n, width)[i] != 'x' && LowerHexPadded(n, width)[i] != 'X'
    decreases width
  {
    if width > 0 {
      PaddedNoX(n / 16, width - 1);
    }
  }

  function Pow16(k: nat): (r: nat)
    ensures r >= 1
  {
    if k == 0 then 1 else 16 * Pow16(k - 1)
  }

  lemma Pow16Sixteen()
    ensures Pow16(16) == UINT64
  {
    assert Pow16(4) == 0x1_0000;
    assert Pow16(8) == 0x1_0000_0000;
    assert Pow16(12) == 0x1_0000_0000_0000;
  }

  /** Appending a digit multiplies by sixteen and adds it. */
  lemma HexNumberStep(s: string, c: char)
    requires HexNumber(s).Some? && HexDigitValue(c).Some?
    ensures HexNumber(s + [c]) == Some(HexNumber(s).value * 16 + HexDigitValue(c).value)
  {
    assert (s + [c])[..|s|] == s;
  }

  lemma {:induction false} FormatHexDecodes(n: nat)
    ensures HexNumber(FormatHex(n)) == Some(n)
    decreases n
  {
    DigitsDecode(n % 16);
    if n >= 16 {
      FormatHexDecodes(n / 16);
      var s := FormatHex(n);
      assert s[..|s| - 1] == FormatHex(n / 16);
    }
  }

  lemma {:induction false} PaddedDecodes(n: nat, width: nat)
    requires width >= 1
    ensures HexNumber(LowerHexPadded(n, width)) == Some(n % Pow16(width))
    decreases width
  {
    DigitsDecode(n % 16);
    if width > 1 {
      PaddedDecodes(n / 16, width - 1);
      var s := LowerHexPadded(n, width);
      assert s[..|s| - 1] == LowerHexPadded(n / 16, width - 1);
      ModSplit(n, Pow16(width - 1));
    }
  }

  lemma PaddedRoundTrip(n: nat, width: nat)
    requires width >= 1 && n < Pow16(width)
    ensures HexNumber(LowerHexPadded(n, width)) == Some(n)
  {
    PaddedDecodes(n, width);
    ModUnique(n, Pow16(width), 0, n);
  }

  /** n mod 16^(k+1) splits into its low digit and the higher digits. */
  lemma ModSplit(n: nat, p: nat)
    requires p >= 1
    ensures (n / 16) % p * 16 + n % 16 == n % (16 * p)
  {
    var q, lo := n / 16, n % 16;
    var a, b := q / p, q % p;
    assert n == q * 16 + lo;
    assert q == a * p + b;
    assert a * p * 16 == a * (16 * p);
    assert n == a * (16 * p) + (b * 16 + lo);
    assert b * 16 + lo < 16 * p by {
      assert b <= p - 1;
      assert b * 16 <= (p - 1) * 16;
    }
    ModUnique(n, 16 * p, a, b * 16 + lo);
  }

  lemma ModUnique(n: int, m: int, a: int, r: int)
    requires m > 0 && 0 <= r < m && n == a * m + r
    ensures n % m == r
    ensures n / m == a
  {
    var a', r' := n / m, n % m;
    assert n == a' * m + r';
    var d := a - a';
    assert d * m == r' - r by {
      assert a * m - a' * m == (a - a') * m;
    }
    if d >= 1 {
      MulAtLeast(d, m);
    } else if d <= -1 {
      MulAtLeast(-d, m);
    }
  }

  lemma MulAtLeast(k: int, m: int)
    requires k >= 1 && m >= 0
    ensures k * m >= m
  {
    var j := k - 1;
    assert k * m == j * m + m;
    assert j * m >= 0;
  }

  function Pow2(k: nat): (r: nat)
    ensures r >= 1
  {
    if k == 0 then 1 else 2 * Pow2(k - 1)
  }

  /** C's `|` on non-negative integers, bit by bit from the lowest. */
  function BitOr(a: nat, b: nat): nat
    decreases a + b
  {
    if a == 0 then b
    else if b == 0 then a
    else 2 * BitOr(a / 2, b / 2) + (if a % 2 == 1 || b % 2 == 1 then 1 else 0)
  }

  /** Or-ing a number below 2^k into a value whose low k bits are clear is addition. */
  lemma {:induction false} BitOrLow(a: nat, n: nat, k: nat)
    requires n < Pow2(k)
    ensures BitOr(a * Pow2(k), n) == a * Pow2(k) + n
    decreases k
  {
    var x := a * Pow2(k);
    if k > 0 && x != 0 && n != 0 {
      var h := Pow2(k - 1);
      assert x == 2 * (a * h);
      assert x / 2 == a * h && x % 2 == 0;
      assert n / 2 < h;
      BitOrLow(a, n / 2, k - 1);
    }
  }

  /** Strips one leading "0x" or "0X", as Poco's hex parser allows. */
  function StripHexPrefix(s: string): (r: string)
    ensures |r| <= |s|
  {
    if |s| >= 2 && s[0] == '0' && (s[1] == 'x' || s[1] == 'X') then s[2..] else s
  }

  /**
   * Poco's parseHex (bound 2^32) and parseHex64 (bound 2^64): an optional
   * "0x", then hex digits; a value that does not fit throws SyntaxException.
   */
  function ParseHexBounded(s: string, bound: nat): (r: Result<nat, Exception>)
    ensures r.Ok? ==> r.value < bound
    ensures r.Err? ==> r.error == Syntax
  {
    var n := HexNumber(StripHexPrefix(s));
    if n.None? || n.value >= bound then Err(Syntax) else Ok(n.value)
  }

  lemma ParseFormatHex(n: nat, bound: nat)
    requires n < bound
    ensures ParseHexBounded(FormatHex(n), bound) == Ok(n)
  {
    var s := FormatHex(n);
    FormatHexNoX(n);
    if |s| >= 2 {
      assert s[1] != 'x' && s[1] != 'X';
    }
    assert StripHexPrefix(s) == s;
    FormatHexDecodes(n);
  }

  /** Decimal text of a natural number, no leading zeros. */
  function FormatDecimal(n: nat): (s: string)
    ensures |s| >= 1
    ensures forall i :: 0 <= i < |s| ==> IsDecimalDigit(s[i])
    decreases n
  {
    if n < 10 then ['0' + n as char] else FormatDecimal(n / 10) + ['0' + (n % 10) as char]
  }

  /** The value of a non-empty string of decimal digits. */
  function DecimalNumber(s: string): (r: Option<nat>)
    decreases |s|
  {
    if |s| == 0 || !IsDecimalDigit(s[|s| - 1]) then None
    else
      var d := (s[|s| - 1] - '0') as nat;
      if |s| == 1 then Some(d)
      else
        var high := DecimalNumber(s[..|s| - 1]);
        if high.None? then None else Some(high.value * 10 + d)
  }

  lemma {:induction false} FormatDecimalDecodes(n: nat)
    ensures DecimalNumber(FormatDecimal(n)) == Some(n)
    decreases n
  {
    if n >= 10 {
      FormatDecimalDecodes(n / 10);
      var s := FormatDecimal(n);
      assert s[..|s| - 1] == FormatDecimal(n / 10);
    }
  }

  /** std::to_string of an int: a '-' before the digits of a negative value. */
  function FormatInt(i: int): (s: string)
    ensures |s| >= 1
    ensures s[0] == '-' <==> i < 0
  {
    if i < 0 then "-" + FormatDecimal(-i) else FormatDecimal(i)
  }

  /** Poco's parseUnsigned (bound 2^32) and parseUnsigned64 (bound 2^64). */
  function ParseUnsignedBounded(s: string, bound: nat): (r: Result<nat, Exception>)
    ensures r.Ok? ==> r.value < bound
    ensures r.Err? ==> r.error == Syntax
  {
    var n := DecimalNumber(s);
    if n.None? || n.value >= bound then Err(Syntax) else Ok(n.value)
  }

  lemma ParseFormatDecimal(n: nat, bound: nat)
    requires n < bound
    ensures ParseUnsignedBounded(FormatDecimal(n), bound) == Ok(n)
  {
    FormatDecimalDecodes(n);
  }

  /** Poco's parse for a signed int: an optional sign, then decimal digits. */
  function ParseInt(s: string): (r: Result<int, Exception>)
    ensures r.Ok? ==> -0x8000_0000 <= r.value < 0x8000_0000
  {
    var negative := |s| > 0 && s[0] == '-';
    var digits := if |s| > 0 && (s[0] == '-' || s[0] == '+') then s[1..] else s;
    var n := DecimalNumber(digits);
    if n.None? then Err(Syntax)
    else
      var v := if negative then -(n.value as int) else n.value as int;
      if v < -0x8000_0000 || v >= 0x8000_0000 then Err(Syntax) else Ok(v)
  }

  function Pow10(k: nat): (r: nat)
    ensures r >= 1
  {
    if k == 0 then 1 else 10 * Pow10(k - 1)
  }

  /**
   * The decimal forms of parseFloat: an optional sign, digits, and an
   * optional '.' followed by digits.
   */
  function ParseDecimal(s: string): (r: Result<real, Exception>)
  {
    var negative := |s| > 0 && s[0] == '-';
    var body := if |s| > 0 && (s[0] == '-' || s[0] == '+') then s[1..] else s;
    var dot := DotIndex(body, 0);
    var whole := DecimalNumber(body[..dot]);
    if whole.None? then Err(Syntax)
    else if dot == |body| then
      Ok(if negative then -(whole.value as real) else whole.value as real)
    else
      var fraction := DecimalNumber(body[dot + 1..]);
      if fraction.None? then Err(Syntax)
      else
        var magnitude := whole.value as real + fraction.value as real / Pow10(|body| - dot - 1) as real;
        Ok(if negative then -magnitude else magnitude)
  }

  /** Index of the first '.' at or after `from`, or |s| if there is none. */
  function DotIndex(s: string, from: nat): (k: nat)
    requires from <= |s|
    ensures from <= k <= |s|
    ensures k < |s| ==> s[k] == '.'
    ensures forall i :: from <= i < k ==> s[i] != '.'
    decreases |s| - from
  {
    if from == |s| then from else if s[from] == '.' then from else DotIndex(s, from + 1)
  }

  lemma ParseDecimalOfNumeral(n: nat)
    ensures ParseDecimal(FormatDecimal(n)) == Ok(n as real)
  {
    var s := FormatDecimal(n);
    assert s[0] != '-' && s[0] != '+';
    assert DotIndex(s, 0) == |s|;
    assert s[..|s|] == s;
    FormatDecimalDecodes(n);
  }
}
