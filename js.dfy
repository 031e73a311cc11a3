/**
  The pieces of the JavaScript language the order service leans on:
  the white-space class (used by `\s` in regular expressions and by
  `parseInt` when it skips leading blanks) and `parseInt` itself,
  called with no radix.
*/
module Js {
  import opened Wrappers

  /**
    The ECMAScript white-space and line-terminator characters: tab, vertical
    tab, form feed, the byte-order mark, every space separator (category Zs),
    line feed, carriage return, and the line and paragraph separators.
  */
  predicate IsWhitespace(c: char) {
    || c == '\U{9}' || c == '\U{B}' || c == '\U{C}' || c == '\U{FEFF}'
    || c == ' ' || c == '\U{A0}' || c == '\U{1680}' || ('\U{2000}' <= c <= '\U{200A}')
    || c == '\U{202F}' || c == '\U{205F}' || c == '\U{3000}'
    || c == '\U{A}' || c == '\U{D}' || c == '\U{2028}' || c == '\U{2029}'
  }

  /** `s` with its leading white space removed. */
  function TrimStart(s: string): (r: string)
    ensures |r| <= |s| && r == s[|s| - |r|..]
    ensures forall i :: 0 <= i < |s| - |r| ==> IsWhitespace(s[i])
    ensures r == [] || !IsWhitespace(r[0])
  {
    if s != [] && IsWhitespace(s[0]) then TrimStart(s[1..]) else s
  }

  /** The value of `c` as a digit in bases up to 36, or 36 when `c` is no digit at all. */
  function DigitValue(c: char): (d: nat)
    ensures d <= 36
    ensures d < 10 <==> '0' <= c <= '9'
  {
    if '0' <= c <= '9' then c as int - '0' as int
    else if 'a' <= c <= 'z' then c as int - 'a' as int + 10
    else if 'A' <= c <= 'Z' then c as int - 'A' as int + 10
    else 36
  }

  /** The length of the longest prefix of `s` made of digits in base `radix`. */
  function DigitRunLength(s: string, radix: nat): (n: nat)
    ensures n <= |s|
    ensures forall i :: 0 <= i < n ==> DigitValue(s[i]) < radix
    ensures n < |s| ==> DigitValue(s[n]) >= radix
  {
    if s != [] && DigitValue(s[0]) < radix then 1 + DigitRunLength(s[1..], radix) else 0
  }

  /** The number that the digit string `z` denotes in base `radix`, most significant digit first. */
  function DigitsValue(z: string, radix: nat): nat {
    if z == [] then 0
    else DigitsValue(z[..|z| - 1], radix) * radix + DigitValue(z[|z| - 1])
  }

  /**
    `parseInt(input)` with no radix argument. `None` stands for NaN. A zero
    result stands for both +0 and -0 (`parseInt("-0")` is -0), which no caller
    here tells apart: both are falsy.
  */
  function ParseInt(input: string): (r: Option<int>)
    ensures var u := Unsigned(TrimStart(input));
      r.None? <==> DigitRunLength(Unprefixed(u), Radix(u)) == 0
    ensures r.Some? && r.value < 0 ==> TrimStart(input) != [] && TrimStart(input)[0] == '-'
    ensures r.Some? && TrimStart(input) != [] && TrimStart(input)[0] != '-' ==> r.value >= 0
  {
    ParseTrimmed(TrimStart(input))
  }

  /** `parseInt` on text that no longer starts with white space: an optional sign, then the magnitude. */
  function ParseTrimmed(s: string): Option<int> {
    match ParseMagnitude(Unsigned(s))
    case None => None
    case Some(v) =>
      var x: int := v;
      Some(if s != [] && s[0] == '-' then -x else x)
  }

  /** The longest run of digits at the start of `u`, read in base 16 after `0x` and base 10 otherwise. */
  function ParseMagnitude(u: string): Option<nat> {
    var radix := Radix(u);
    var digits := Unprefixed(u);
    var n := DigitRunLength(digits, radix);
    if n == 0 then None else Some(DigitsValue(digits[..n], radix))
  }

  /** The text after an optional leading `+` or `-`. */
  function Unsigned(s: string): string {
    if s != [] && (s[0] == '-' || s[0] == '+') then s[1..] else s
  }

  /** True when `s` starts with the hexadecimal prefix `0x` or `0X`. */
  predicate HasHexPrefix(s: string) {
    |s| >= 2 && s[0] == '0' && (s[1] == 'x' || s[1] == 'X')
  }

  /** With no radix given, `parseInt` reads base 16 after a `0x` prefix and base 10 otherwise. */
  function Radix(s: string): (radix: nat)
    ensures radix == 10 || radix == 16
  {
    if HasHexPrefix(s) then 16 else 10
  }

  /** The text after the hexadecimal prefix, if there is one. */
  function Unprefixed(s: string): string {
    if HasHexPrefix(s) then s[2..] else s
  }

  /** The decimal digit character for `d`. */
  function DigitChar(d: nat): (c: char)
    requires d < 10
    ensures DigitValue(c) == d
  {
    ('0' as int + d) as char
  }

  /** The decimal rendering of a natural number, without leading zeros. */
  function NaturalDigits(n: nat): (s: string)
    ensures s != []
    ensures forall i :: 0 <= i < |s| ==> DigitValue(s[i]) < 10
  {
    if n < 10 then [DigitChar(n)] else NaturalDigits(n / 10) + [DigitChar(n % 10)]
  }

  /**
    The plain decimal rendering of an integer: a `-` for a negative number,
    then the digits. `String(n)` gives this for every `|n| < 10^21`.
  */
  function DecimalString(n: int): string {
    if n < 0 then "-" + NaturalDigits(-n) else NaturalDigits(n)
  }

  lemma {:induction false} NaturalDigitsValue(n: nat)
    ensures DigitsValue(NaturalDigits(n), 10) == n
  {
    var s := NaturalDigits(n);
    if n >= 10 {
      NaturalDigitsValue(n / 10);
      assert s[..|s| - 1] == NaturalDigits(n / 10);
    }
  }

  /** Decimal digits followed by text that does not continue them are read as exactly those digits. */
  lemma {:induction false} DecimalMagnitude(digits: string, t: string)
    requires digits != [] && forall i :: 0 <= i < |digits| ==> DigitValue(digits[i]) < 10
    requires t == [] || DigitValue(t[0]) >= 10
    requires !HasHexPrefix(digits + t)
    ensures ParseMagnitude(digits + t) == Some(DigitsValue(digits, 10))
  {
    var u := digits + t;
    assert Radix(u) == 10 && Unprefixed(u) == u;
    var k := DigitRunLength(u, 10);
    assert forall i :: 0 <= i < |digits| ==> u[i] == digits[i];
    assert |u| > |digits| ==> u[|digits|] == t[0];
    assert k == |digits|;
    assert u[..k] == digits;
  }

  /** A decimal rendering has no `0x` prefix, even with text after it, unless it is `0` followed by more. */
  lemma NoHexPrefix(m: nat, t: string)
    requires m != 0 || t == []
    ensures !HasHexPrefix(NaturalDigits(m) + t)
  {
    var digits := NaturalDigits(m);
    if |digits| >= 2 {
      assert DigitValue((digits + t)[1]) < 10;
    } else if m != 0 {
      assert (digits + t)[0] == digits[0] && DigitValue(digits[0]) == m;
    } else {
      assert digits + t == digits;
    }
  }

  lemma NothingToTrim(s: string)
    requires s != [] && !IsWhitespace(s[0])
    ensures TrimStart(s) == s
  {
  }

  /** A decimal rendering starts with `-` or a digit: nothing to trim, and the sign comes off cleanly. */
  lemma DecimalStringSign(n: int, t: string)
    ensures var m: nat := if n < 0 then -n else n;
      && DecimalString(n) + t != []
      && ((DecimalString(n) + t)[0] == '-' <==> n < 0)
      && Unsigned(DecimalString(n) + t) == NaturalDigits(m) + t
      && TrimStart(DecimalString(n) + t) == DecimalString(n) + t
  {
    var m: nat := if n < 0 then -n else n;
    var digits := NaturalDigits(m);
    var s := DecimalString(n) + t;
    if n < 0 {
      assert s == ['-'] + (digits + t);
      assert s[0] == '-';
    } else {
      assert s == digits + t;
      assert DigitValue(s[0]) < 10;
    }
    NothingToTrim(s);
  }

  /** A decimal rendering followed by text that cannot continue it reads back as the number rendered. */
  lemma DecimalStringReadsBack(n: int, t: string)
    requires n != 0 || t == []
    requires t == [] || DigitValue(t[0]) >= 10
    ensures ParseInt(DecimalString(n) + t) == Some(n)
  {
    var m: nat := if n < 0 then -n else n;
    var s := DecimalString(n) + t;
    DecimalStringSign(n, t);
    NoHexPrefix(m, t);
    DecimalMagnitude(NaturalDigits(m), t);
    NaturalDigitsValue(m);
    assert ParseMagnitude(Unsigned(s)) == Some(m);
    assert ParseInt(s) == ParseTrimmed(s);
  }

  /** Reading back a decimal rendering gives the number rendered: `parseInt(String(n)) == n`. */
  lemma ParseIntDecimal(n: int)
    ensures ParseInt(DecimalString(n)) == Some(n)
  {
    DecimalStringReadsBack(n, []);
    assert DecimalString(n) + [] == DecimalString(n);
  }

  /**
    `parseInt` stops at the first character that is not a digit: any run of
    decimal digits reads the same with or without the text after it, as in
    `parseInt("012abc") == parseInt("012") == 12`, unless the two together
    start with `0x` and are read in base 16.
  */
  lemma ParseIntIgnoresTrailingText(digits: string, t: string)
    requires digits != [] && forall i :: 0 <= i < |digits| ==> DigitValue(digits[i]) < 10
    requires t == [] || DigitValue(t[0]) >= 10
    requires !HasHexPrefix(digits + t)
    ensures ParseInt(digits + t) == ParseInt(digits) == Some(DigitsValue(digits, 10))
  {
    if |digits| >= 2 {
      assert DigitValue(digits[1]) < 10;
    }
    assert digits + [] == digits;
    ReadDigits(digits, t);
    ReadDigits(digits, []);
  }

  /** Decimal digits, then text that cannot continue them: nothing to trim, no sign, and the digits are read. */
  lemma ReadDigits(digits: string, t: string)
    requires digits != [] && forall i :: 0 <= i < |digits| ==> DigitValue(digits[i]) < 10
    requires t == [] || DigitValue(t[0]) >= 10
    requires !HasHexPrefix(digits + t)
    ensures ParseInt(digits + t) == Some(DigitsValue(digits, 10))
  {
    var s := digits + t;
    assert s[0] == digits[0] && DigitValue(s[0]) < 10;
    NothingToTrim(s);
    assert Unsigned(s) == s;
    DecimalMagnitude(digits, t);
    assert ParseTrimmed(s) == Some(DigitsValue(digits, 10));
  }

  lemma {:induction false} TrimStartSkipsWhitespace(ws: string, s: string)
    requires forall i :: 0 <= i < |ws| ==> IsWhitespace(ws[i])
    ensures TrimStart(ws + s) == TrimStart(s)
  {
    if ws == [] {
      assert ws + s == s;
    } else {
      var w := ws + s;
      assert w[0] == ws[0] && IsWhitespace(w[0]);
      assert w[1..] == ws[1..] + s;
      assert TrimStart(w) == TrimStart(w[1..]);
      TrimStartSkipsWhitespace(ws[1..], s);
    }
  }

  /** `parseInt` skips leading white space: `parseInt(" 42") == parseInt("42")`. */
  lemma ParseIntSkipsLeadingWhitespace(ws: string, s: string)
    requires forall i :: 0 <= i < |ws| ==> IsWhitespace(ws[i])
    ensures ParseInt(ws + s) == ParseInt(s)
  {
    TrimStartSkipsWhitespace(ws, s);
  }
}
