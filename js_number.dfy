/**
 * JavaScript's global `parseInt(string)` with no radix argument, as the transcoder
 * uses it to turn a bitrate such as "2500k" into 2500. The result is `None` where
 * JavaScript yields `NaN`.
 */
module JsNumber {
  import opened Wrappers
  import opened Text

  /** StrWhiteSpaceChar: white space and line terminators that `parseInt` skips. */
  predicate IsStrWhiteSpace(c: char) {
    c == '\t' || c == '\n' || c == '\U{000B}' || c == '\U{000C}' || c == '\r' || c == ' '
    || c == '\U{00A0}' || c == '\U{1680}' || ('\U{2000}' <= c <= '\U{200A}')
    || c == '\U{2028}' || c == '\U{2029}' || c == '\U{202F}' || c == '\U{205F}'
    || c == '\U{3000}' || c == '\U{FEFF}'
  }

  predicate IsRadixDigit(c: char, hex: bool) {
    IsDecimalDigit(c) || (hex && (('a' <= c <= 'f') || ('A' <= c <= 'F')))
  }

  /** The value of a hexadecimal digit; only ever applied to digits of the radix. */
  function DigitValue(c: char): (v: nat)
    ensures v < 16
  {
    if IsDecimalDigit(c) then c as int - '0' as int
    else if 'a' <= c <= 'f' then c as int - 'a' as int + 10
    else if 'A' <= c <= 'F' then c as int - 'A' as int + 10
    else 0
  }

  /** The longest prefix of `s` made of digits of the radix. */
  function LeadingDigits(s: string, hex: bool): string {
    if s != [] && IsRadixDigit(s[0], hex) then [s[0]] + LeadingDigits(s[1..], hex) else []
  }

  /** The run `LeadingDigits` takes is a prefix, all digits, and stops at a non-digit. */
  lemma {:induction false} LeadingDigitsIsLongestRun(s: string, hex: bool)
    ensures var z := LeadingDigits(s, hex);
      |z| <= |s| && z == s[..|z|]
      && (forall i :: 0 <= i < |z| ==> IsRadixDigit(z[i], hex))
      && (|z| < |s| ==> !IsRadixDigit(s[|z|], hex))
  {
    if s != [] && IsRadixDigit(s[0], hex) {
      LeadingDigitsIsLongestRun(s[1..], hex);
    }
  }

  /** The value of a digit string in base 10 or 16. */
  function DigitsValue(z: string, hex: bool): nat {
    if z == [] then 0
    else
      DigitsValue(z[..|z| - 1], hex) * (if hex then 16 else 10) + DigitValue(z[|z| - 1])
  }

  /**
   * `parseInt(s)`: skip leading white space, read an optional sign, switch to base 16
   * after a `0x` or `0X` prefix, then read the longest run of digits; no digits is `NaN`.
   */
  function ParseInt(s: string): Option<int> {
    if s != [] && IsStrWhiteSpace(s[0]) then ParseInt(s[1..]) else ParseTrimmed(s)
  }

  /** What `parseInt` does once leading white space is gone. */
  function ParseTrimmed(t: string): Option<int> {
    var negative := t != [] && t[0] == '-';
    var u := if t != [] && (t[0] == '-' || t[0] == '+') then t[1..] else t;
    var hex := |u| >= 2 && u[0] == '0' && (u[1] == 'x' || u[1] == 'X');
    var v := if hex then u[2..] else u;
    var z := LeadingDigits(v, hex);
    if z == [] then None
    else
      var magnitude: int := DigitsValue(z, hex);
      Some(if negative then -magnitude else magnitude)
  }

  /** The text of `parseInt(bitrate) * 1000` as a template literal prints it. */
  function BandwidthText(bitrate: string): string {
    match ParseInt(bitrate)
    case None => "NaN"
    case Some(n) => IntToString(n * 1000)
  }

  lemma {:induction false} LeadingDigitsOfNumeral(ds: string, suffix: string, hex: bool)
    requires forall i :: 0 <= i < |ds| ==> IsRadixDigit(ds[i], hex)
    requires suffix == [] || !IsRadixDigit(suffix[0], hex)
    ensures LeadingDigits(ds + suffix, hex) == ds
  {
    if ds != [] {
      assert (ds + suffix)[1..] == ds[1..] + suffix;
      LeadingDigitsOfNumeral(ds[1..], suffix, hex);
    } else {
      assert ds + suffix == suffix;
    }
  }

  lemma {:induction false} DecimalValueOfNatToString(n: nat)
    ensures DigitsValue(NatToString(n), false) == n
  {
    if n >= 10 {
      var s := NatToString(n);
      assert s[..|s| - 1] == NatToString(n / 10);
      DecimalValueOfNatToString(n / 10);
    }
  }

  /**
   * `parseInt` reads back a printed natural number followed by any text that does not
   * continue the numeral: no further digit, and no `x` or `X` right after a lone `0`
   * (which `parseInt` would take as a hexadecimal prefix).
   */
  lemma ParseIntReadsLeadingNumeral(n: nat, suffix: string)
    requires suffix == [] || !IsDecimalDigit(suffix[0])
    requires n == 0 ==> suffix == [] || (suffix[0] != 'x' && suffix[0] != 'X')
    ensures ParseInt(NatToString(n) + suffix) == Some(n)
  {
    var s := NatToString(n) + suffix;
    NatToStringDigits(n);
    assert s[0] == NatToString(n)[0];
    NumeralHasNoHexPrefix(n, suffix);
    LeadingDigitsOfNumeral(NatToString(n), suffix, false);
    DecimalValueOfNatToString(n);
    assert ParseInt(s) == ParseTrimmed(s);
  }

  /** A printed number is never read as `0x…`: only "0" starts with `0`, and the suffix has no `x` after it. */
  lemma NumeralHasNoHexPrefix(n: nat, suffix: string)
    requires n == 0 ==> suffix == [] || (suffix[0] != 'x' && suffix[0] != 'X')
    ensures var s := NatToString(n) + suffix;
      !(|s| >= 2 && s[0] == '0' && (s[1] == 'x' || s[1] == 'X'))
  {
    var s := NatToString(n) + suffix;
    NatToStringLeadingZero(n);
    assert s[0] == NatToString(n)[0];
    if n == 0 {
      assert NatToString(n) == "0";
      if |s| >= 2 {
        assert s[1] == suffix[0];
      }
    }
  }

  /** Leading white space never changes what `parseInt` reads. */
  lemma {:induction false} ParseIntSkipsWhiteSpace(ws: string, s: string)
    requires forall i :: 0 <= i < |ws| ==> IsStrWhiteSpace(ws[i])
    ensures ParseInt(ws + s) == ParseInt(s)
  {
    if ws != [] {
      assert (ws + s)[1..] == ws[1..] + s;
      ParseIntSkipsWhiteSpace(ws[1..], s);
    } else {
      assert ws + s == s;
    }
  }

  /** A string whose first visible character is neither a sign nor a digit reads as `NaN`. */
  lemma ParseIntNoDigits(s: string)
    requires s != [] && !IsStrWhiteSpace(s[0]) && !IsDecimalDigit(s[0]) && s[0] != '-' && s[0] != '+'
    ensures ParseInt(s) == None
  {
  }
}
