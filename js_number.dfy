/**
 * The two JavaScript number conversions the size picker relies on:
 * `parseInt(s, 10)` and `Number.prototype.toString()` on integers.
 * A parse that yields `NaN` is `None`.
 */
module JsNumber {
  import opened Wrappers

  /** ECMAScript WhiteSpace and LineTerminator code points, which `parseInt` skips. */
  predicate IsJsWhitespace(c: char)
  {
    var n := c as int;
    n == 0x09 || n == 0x0B || n == 0x0C || n == 0x20 || n == 0xA0 || n == 0xFEFF ||
    n == 0x1680 || 0x2000 <= n <= 0x200A || n == 0x202F || n == 0x205F || n == 0x3000 ||
    n == 0x0A || n == 0x0D || n == 0x2028 || n == 0x2029
  }

  predicate IsDigit(c: char)
  {
    '0' <= c <= '9'
  }

  predicate AllDigits(s: string)
  {
    forall i :: 0 <= i < |s| ==> IsDigit(s[i])
  }

  function DigitValue(c: char): (d: nat)
    requires IsDigit(c)
    ensures d < 10
  {
    (c as int) - ('0' as int)
  }

  function DigitChar(d: nat): (c: char)
    requires d < 10
    ensures IsDigit(c) && DigitValue(c) == d
  {
    (('0' as int) + d) as char
  }

  /** `s` without its leading whitespace. */
  function TrimStart(s: string): (r: string)
    ensures |r| <= |s|
    ensures r != [] ==> !IsJsWhitespace(r[0])
  {
    if s != [] && IsJsWhitespace(s[0]) then TrimStart(s[1..]) else s
  }

  /** The longest prefix of `s` made of decimal digits. */
  function DigitPrefix(s: string): (r: string)
    ensures r <= s && AllDigits(r)
    ensures |r| < |s| ==> !IsDigit(s[|r|])
  {
    if s != [] && IsDigit(s[0]) then [s[0]] + DigitPrefix(s[1..]) else []
  }

  /** The value of a decimal numeral, most significant digit first. */
  function DigitsValue(s: string): (n: nat)
    requires AllDigits(s)
  {
    if s == [] then 0 else DigitsValue(s[..|s| - 1]) * 10 + DigitValue(s[|s| - 1])
  }

  /** An optional leading sign: whether it is `-`, and the text after it. */
  function SplitSign(t: string): (bool, string)
  {
    if t != [] && (t[0] == '-' || t[0] == '+') then (t[0] == '-', t[1..]) else (false, t)
  }

  /**
   * `parseInt(s, 10)`: skip leading whitespace, read an optional sign, then
   * the longest run of decimal digits; no digits at all gives `NaN`.
   * Characters after the digits are ignored.
   */
  function ParseInt(s: string): (r: Option<int>)
  {
    var (negative, u) := SplitSign(TrimStart(s));
    var digits := DigitPrefix(u);
    if digits == [] then None
    else
      var value: int := DigitsValue(digits);
      Some(if negative then -value else value)
  }

  /** Decimal rendering of a natural number, without leading zeros. */
  function NatToString(n: nat): string
  {
    if n < 10 then [DigitChar(n)] else NatToString(n / 10) + [DigitChar(n % 10)]
  }

  /** `n.toString()` for an integer `n`. */
  function IntToString(n: int): string
  {
    if n < 0 then "-" + NatToString(-n) else NatToString(n)
  }

  lemma {:induction false} DigitPrefixOfDigits(s: string)
    requires AllDigits(s)
    ensures DigitPrefix(s) == s
  {
    if s != [] {
      DigitPrefixOfDigits(s[1..]);
    }
  }

  /** `NatToString` renders digits only, and their value is the number rendered. */
  lemma {:induction false} NatToStringValue(n: nat)
    ensures NatToString(n) != [] && AllDigits(NatToString(n))
    ensures DigitsValue(NatToString(n)) == n
  {
    var s := NatToString(n);
    if n >= 10 {
      NatToStringValue(n / 10);
      assert s[..|s| - 1] == NatToString(n / 10);
    }
  }

  /** `parseInt` reads back every decimal rendering `toString` produces. */
  lemma ParseIntToString(n: int)
    ensures ParseInt(IntToString(n)) == Some(n)
  {
    var s := IntToString(n);
    var m := if n < 0 then -n else n;
    var digits := NatToString(m);
    NatToStringValue(m);
    DigitPrefixOfDigits(digits);
    assert !IsJsWhitespace(s[0]);
    assert TrimStart(s) == s;
    if n < 0 {
      assert s[1..] == digits;
      assert SplitSign(s) == (true, digits);
    } else {
      assert SplitSign(s) == (false, digits);
    }
  }

  /** `TrimStart` drops exactly the leading run of whitespace, keeping the rest as it is. */
  lemma {:induction false} TrimStartDropsWhitespace(s: string)
    ensures |TrimStart(s)| <= |s| && TrimStart(s) == s[|s| - |TrimStart(s)|..]
    ensures forall i :: 0 <= i < |s| - |TrimStart(s)| ==> IsJsWhitespace(s[i])
  {
    if s != [] && IsJsWhitespace(s[0]) {
      TrimStartDropsWhitespace(s[1..]);
    }
  }

  predicate AllWhitespace(w: string)
  {
    forall i :: 0 <= i < |w| ==> IsJsWhitespace(w[i])
  }

  /** Leading whitespace `w` is skipped up to the first other character. */
  lemma {:induction false} TrimStartSkips(w: string, x: string)
    requires AllWhitespace(w)
    requires x == [] || !IsJsWhitespace(x[0])
    ensures TrimStart(w + x) == x
  {
    if w != [] {
      assert (w + x)[0] == w[0];
      assert (w + x)[1..] == w[1..] + x;
      TrimStartSkips(w[1..], x);
    }
  }

  /** The digit run ends at the first non-digit. */
  lemma {:induction false} DigitPrefixStops(d: string, t: string)
    requires AllDigits(d)
    requires t == [] || !IsDigit(t[0])
    ensures DigitPrefix(d + t) == d
  {
    if d != [] {
      assert (d + t)[0] == d[0];
      assert (d + t)[1..] == d[1..] + t;
      DigitPrefixStops(d[1..], t);
    } else {
      assert d + t == t;
    }
  }

  /**
   * Any whitespace, then an optional sign, then digits, then text that does
   * not continue the digits: `parseInt` gives the signed value of the digits
   * and ignores the rest.
   */
  lemma ParseIntPrefix(w: string, sign: string, d: string, t: string)
    requires AllWhitespace(w)
    requires sign == "" || sign == "+" || sign == "-"
    requires d != [] && AllDigits(d)
    requires t == [] || !IsDigit(t[0])
    ensures ParseInt(w + sign + d + t) == Some(if sign == "-" then -(DigitsValue(d) as int) else DigitsValue(d))
  {
    var x := sign + (d + t);
    assert w + sign + d + t == w + x;
    SignedTail(sign, d + t);
    TrimStartSkips(w, x);
    assert TrimStart(w + x) == x;
    DigitPrefixStops(d, t);
    assert DigitPrefix(d + t) == d;
  }

  /** An optional sign in front of text starting with a digit is split off as is. */
  lemma SignedTail(sign: string, u: string)
    requires sign == "" || sign == "+" || sign == "-"
    requires u != [] && IsDigit(u[0])
    ensures sign + u != [] && !IsJsWhitespace((sign + u)[0])
    ensures SplitSign(sign + u) == (sign == "-", u)
  {
    if sign == "" {
      assert sign + u == u;
    } else {
      assert (sign + u)[0] == sign[0];
      assert (sign + u)[1..] == u;
    }
  }

  /** A numeral with nothing around it reads as its value. */
  lemma ParseIntNumeral(d: string)
    requires d != [] && AllDigits(d)
    ensures ParseInt(d) == Some(DigitsValue(d))
  {
    assert d == "" + "" + d + "";
    ParseIntPrefix("", "", d, "");
  }

  /**
   * Whitespace and an optional sign followed by nothing, or by anything but a
   * digit (and, without a sign, by anything but whitespace or a sign): `NaN`.
   * This covers the empty string, a lone sign and text starting with a letter.
   */
  lemma ParseIntNaN(w: string, sign: string, t: string)
    requires AllWhitespace(w)
    requires sign == "" || sign == "+" || sign == "-"
    requires t == [] || !IsDigit(t[0])
    requires sign == "" && t != [] ==> !IsJsWhitespace(t[0]) && t[0] != '+' && t[0] != '-'
    ensures ParseInt(w + sign + t) == None
  {
    var x := sign + t;
    assert w + sign + t == w + x;
    TrimStartSkips(w, x);
    DigitPrefixStops("", t);
    if sign == "" {
      assert x == t;
    } else {
      assert x[1..] == t;
    }
  }
}
