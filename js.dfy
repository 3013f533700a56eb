/** The parts of JavaScript's string and number semantics the dashboard relies
    on: `trim`, `toLowerCase` (ASCII letters only), `includes`, the two regular
    expression shapes the chat uses (`/lit(.+)/` and `/lit(\d+)/`),
    `parseInt(s, 10)` and the decimal `toString` of an integer. */
module Js {
  import opened Common

  /** A JavaScript number that was produced by `parseInt`: an integer or NaN.
      (`-0` is folded into `Int(0)`; it compares and prints like 0.) */
  datatype Num = Int(value: int) | NaN

  // ---------------------------------------------------------------------
  // Characters

  /** WhiteSpace and LineTerminator code points, which `trim` removes. */
  predicate IsSpace(c: char)
  {
    c == '\t' || c == '\n' || c == '\U{000B}' || c == '\U{000C}' || c == '\r' ||
    c == ' ' || c == '\U{00A0}' || c == '\U{1680}' || ('\U{2000}' <= c <= '\U{200A}') ||
    c == '\U{2028}' || c == '\U{2029}' || c == '\U{202F}' || c == '\U{205F}' ||
    c == '\U{3000}' || c == '\U{FEFF}'
  }

  /** The characters that `.` in a regular expression does not match. */
  predicate IsLineTerminator(c: char)
  {
    c == '\n' || c == '\r' || c == '\U{2028}' || c == '\U{2029}'
  }

  predicate NotLineTerminator(c: char) { !IsLineTerminator(c) }

  /** `\d`: an ASCII decimal digit. */
  predicate IsDigit(c: char) { '0' <= c <= '9' }

  function DigitValue(c: char): (d: nat)
    requires IsDigit(c)
    ensures d < 10
  {
    c as int - '0' as int
  }

  function DigitChar(d: nat): (c: char)
    requires d < 10
    ensures IsDigit(c) && DigitValue(c) == d
  {
    ('0' as int + d) as char
  }

  function LowerChar(c: char): char
  {
    if 'A' <= c <= 'Z' then (c as int + 32) as char else c
  }

  // ---------------------------------------------------------------------
  // Truthiness of optional strings

  /** A string-valued field that may be absent is truthy when it is present and
      non-empty (`if (data.error)`). */
  predicate Truthy(s: Option<string>)
  {
    s.Some? && s.value != ""
  }

  /** `a || b` for an optional string a and a string b. */
  function Or(a: Option<string>, b: string): (r: string)
    ensures Truthy(a) ==> r == a.value
    ensures !Truthy(a) ==> r == b
  {
    if Truthy(a) then a.value else b
  }

  // ---------------------------------------------------------------------
  // trim and toLowerCase

  function TrimStart(s: string): (r: string)
    ensures r == [] || !IsSpace(r[0])
    ensures |r| <= |s| && r == s[|s| - |r|..]
    ensures forall i :: 0 <= i < |s| - |r| ==> IsSpace(s[i])
  {
    if s != [] && IsSpace(s[0]) then TrimStart(s[1..]) else s
  }

  function TrimEnd(s: string): (r: string)
    ensures r == [] || !IsSpace(r[|r| - 1])
    ensures |r| <= |s| && r == s[..|r|]
    ensures forall i :: |r| <= i < |s| ==> IsSpace(s[i])
  {
    if s != [] && IsSpace(s[|s| - 1]) then TrimEnd(s[..|s| - 1]) else s
  }

  /** `s.trim()`. */
  function Trim(s: string): string
  {
    TrimEnd(TrimStart(s))
  }

  /** `s.trim()` is empty exactly when s consists of white space only; this is
      what `if (!input.trim())` tests. */
  lemma TrimEmptyIffBlank(s: string)
    ensures Trim(s) == [] <==> forall i :: 0 <= i < |s| ==> IsSpace(s[i])
  {
    var t := TrimStart(s);
    assert Trim(s) == TrimEnd(t);
  }

  /** `s.toLowerCase()` restricted to the ASCII letters. */
  function ToLower(s: string): (r: string)
    ensures |r| == |s|
    ensures forall i :: 0 <= i < |s| ==> r[i] == LowerChar(s[i])
  {
    seq(|s|, i requires 0 <= i < |s| => LowerChar(s[i]))
  }

  /** Lower-casing changes nothing in a string without upper-case letters. */
  lemma ToLowerKeepsLower(s: string)
    requires forall i :: 0 <= i < |s| ==> !('A' <= s[i] <= 'Z')
    ensures ToLower(s) == s
  {
  }

  // ---------------------------------------------------------------------
  // Searching

  /** lit occurs in s starting at position i. */
  predicate LiteralAt(s: string, i: nat, lit: string)
  {
    i + |lit| <= |s| && s[i..i + |lit|] == lit
  }

  /** The least position in [from, |s|] at which `good` holds, as a left-to-right
      scan (the way a regular-expression search tries start positions) finds it. */
  function FindFirst(s: string, from: nat, good: nat -> bool): (r: Option<nat>)
    requires from <= |s|
    ensures r.Some? ==> from <= r.value <= |s| && good(r.value)
    ensures r.Some? ==> forall j :: from <= j < r.value ==> !good(j)
    ensures r.None? ==> forall j :: from <= j <= |s| ==> !good(j)
    decreases |s| - from
  {
    if good(from) then Some(from)
    else if from == |s| then None
    else FindFirst(s, from + 1, good)
  }

  /** `s.includes(sub)`. */
  predicate Contains(s: string, sub: string)
  {
    FindFirst(s, 0, (i: nat) => LiteralAt(s, i, sub)).Some?
  }

  lemma ContainsIff(s: string, sub: string)
    ensures Contains(s, sub) <==> exists i :: 0 <= i <= |s| && LiteralAt(s, i, sub)
  {
    var good := (i: nat) => LiteralAt(s, i, sub);
    assert forall i: nat :: good(i) == LiteralAt(s, i, sub);
  }

  /** The longest run of characters in class `cls` starting at position k
      (what a greedy `cls+` captures once it has matched one character). */
  function Run(s: string, k: nat, cls: char -> bool): (r: string)
    requires k <= |s|
    ensures k + |r| <= |s| && r == s[k..k + |r|]
    ensures forall i :: 0 <= i < |r| ==> cls(r[i])
    ensures k + |r| == |s| || !cls(s[k + |r|])
    decreases |s| - k
  {
    if k < |s| && cls(s[k]) then [s[k]] + Run(s, k + 1, cls) else []
  }

  /** A run over characters that are all in the class reaches the end. */
  lemma RunWhole(s: string, k: nat, cls: char -> bool)
    requires k <= |s|
    requires forall i :: k <= i < |s| ==> cls(s[i])
    ensures Run(s, k, cls) == s[k..]
  {
    var r := Run(s, k, cls);
    assert k + |r| == |s|;
  }

  /** The regular expression `lit` followed by a capture of one or more characters
      of class `cls` matches at position i. */
  predicate CaptureAt(s: string, i: nat, lit: string, cls: char -> bool)
  {
    LiteralAt(s, i, lit) && i + |lit| < |s| && cls(s[i + |lit|])
  }

  /** `s.match(/lit(cls+)/)?.[1]`: the capture of the leftmost match, greedy. */
  function MatchCapture(s: string, lit: string, cls: char -> bool): (r: Option<string>)
    ensures r.None? <==> forall i :: 0 <= i <= |s| ==> !CaptureAt(s, i, lit, cls)
    ensures r.Some? ==>
      (exists i :: 0 <= i <= |s| && CaptureAt(s, i, lit, cls) &&
        (forall j :: 0 <= j < i ==> !CaptureAt(s, j, lit, cls)) &&
        r.value == Run(s, i + |lit|, cls))
    ensures r.Some? ==> |r.value| > 0 && forall k :: 0 <= k < |r.value| ==> cls(r.value[k]) && r.value[k] in s
  {
    var good := (i: nat) => CaptureAt(s, i, lit, cls);
    assert forall i: nat :: good(i) == CaptureAt(s, i, lit, cls);
    match FindFirst(s, 0, good)
    case None => None
    case Some(i) =>
      assert CaptureAt(s, i, lit, cls);
      assert forall j :: 0 <= j < i ==> !CaptureAt(s, j, lit, cls) by {
        assert forall j :: 0 <= j < i ==> !good(j);
      }
      Some(CaptureRun(s, i, lit, cls))
  }

  /** The capture of a match at position i: the greedy run after the literal. */
  function CaptureRun(s: string, i: nat, lit: string, cls: char -> bool): (c: string)
    requires CaptureAt(s, i, lit, cls)
    ensures c == Run(s, i + |lit|, cls)
    ensures |c| > 0 && forall k :: 0 <= k < |c| ==> cls(c[k]) && c[k] in s
  {
    var c := Run(s, i + |lit|, cls);
    assert forall k :: 0 <= k < |c| ==> c[k] == s[i + |lit| + k];
    c
  }

  // ---------------------------------------------------------------------
  // Numbers

  /** The value of a string of decimal digits, most significant first. */
  function DigitsValue(s: string): nat
    requires forall i :: 0 <= i < |s| ==> IsDigit(s[i])
  {
    if s == [] then 0 else DigitsValue(s[..|s| - 1]) * 10 + DigitValue(s[|s| - 1])
  }

  /** The decimal numeral of n, without leading zeros. */
  function NatToString(n: nat): (r: string)
    ensures |r| > 0 && forall i :: 0 <= i < |r| ==> IsDigit(r[i])
  {
    if n < 10 then [DigitChar(n)] else NatToString(n / 10) + [DigitChar(n % 10)]
  }

  /** `String(n)` / `n.toString()` for an integer n. */
  function IntToString(n: int): string
  {
    if n < 0 then "-" + NatToString(-n) else NatToString(n)
  }

  /** `String(x)` for a number produced by parseInt. */
  function NumToString(x: Num): string
  {
    match x
    case Int(n) => IntToString(n)
    case NaN => "NaN"
  }

  /** `parseInt(s, 10)`: skip leading white space, take an optional sign, then the
      longest run of decimal digits; NaN when that run is empty. */
  function ParseInt(s: string): Num
  {
    var t := TrimStart(s);
    var negative := t != [] && t[0] == '-';
    var u := if t != [] && (t[0] == '-' || t[0] == '+') then t[1..] else t;
    var digits := Run(u, 0, IsDigit);
    var magnitude: int := DigitsValue(digits);
    if digits == [] then NaN
    else Int(if negative then -magnitude else magnitude)
  }

  lemma {:induction false} NatToStringValue(n: nat)
    ensures DigitsValue(NatToString(n)) == n
  {
    if n >= 10 {
      NatToStringValue(n / 10);
      var r := NatToString(n);
      assert r[..|r| - 1] == NatToString(n / 10);
    }
  }

  /** A string of digits parses to its decimal value (no sign, no blank). */
  lemma ParseDigits(d: string)
    requires |d| > 0 && forall i :: 0 <= i < |d| ==> IsDigit(d[i])
    ensures ParseInt(d) == Int(DigitsValue(d))
  {
    RunWhole(d, 0, IsDigit);
    var t := TrimStart(d);
    assert t == d;
    assert !(t[0] == '-' || t[0] == '+');
  }

  /** Round trip: `parseInt(String(n), 10) == n` for every integer n. */
  lemma ParseIntToString(n: int)
    ensures ParseInt(IntToString(n)) == Int(n)
  {
    var m: nat := if n < 0 then -n else n;
    var d := NatToString(m);
    NatToStringValue(m);
    if n < 0 {
      var s := IntToString(n);
      assert s == "-" + d;
      RunWhole(d, 0, IsDigit);
      var t := TrimStart(s);
      assert t == s;
      assert t[1..] == d;
    } else {
      ParseDigits(d);
    }
  }

  /** Round trip for every number parseInt can produce, NaN included
      (`String(NaN)` is "NaN", which parses back to NaN). */
  lemma ParseNumToString(x: Num)
    ensures ParseInt(NumToString(x)) == x
  {
    match x
    case Int(n) => ParseIntToString(n);
    case NaN =>
      var s := NumToString(x);
      assert s[0] == 'N' && !IsSpace(s[0]) && !IsDigit(s[0]);
      assert TrimStart(s) == s;
      assert Run(s, 0, IsDigit) == [];
  }

  // ---------------------------------------------------------------------
  // Number(s)

  /** A JavaScript number as `Number(s)` produces it: NaN, a finite value, or
      an infinity. */
  datatype JsNumber = NumNaN | NumFinite(value: real) | NumInfinite(positive: bool)

  function Pow10(e: nat): (p: real)
    ensures p >= 1.0
  {
    if e == 0 then 1.0 else 10.0 * Pow10(e - 1)
  }

  /** Exponents add: 10^(a+b) = 10^a * 10^b. */
  lemma {:induction false} Pow10Add(a: nat, b: nat)
    ensures Pow10(a + b) == Pow10(a) * Pow10(b)
  {
    if a > 0 {
      Pow10Add(a - 1, b);
      assert Pow10(a + b) == 10.0 * Pow10(a - 1 + b);
    }
  }

  /** A string of n decimal digits is below 10^n. */
  lemma {:induction false} DigitsBelowPow10(s: string)
    requires forall i :: 0 <= i < |s| ==> IsDigit(s[i])
    ensures DigitsValue(s) as real + 1.0 <= Pow10(|s|)
  {
    if s != [] {
      var t := s[..|s| - 1];
      DigitsBelowPow10(t);
      var d := DigitValue(s[|s| - 1]);
      assert DigitsValue(s) == DigitsValue(t) * 10 + d;
      assert Pow10(|s|) == 10.0 * Pow10(|t|);
    }
  }

  predicate IsHexDigit(c: char)
  {
    '0' <= c <= '9' || 'a' <= c <= 'f' || 'A' <= c <= 'F'
  }

  /** The value of a hexadecimal digit, or 16 for any other character. */
  function HexValue(c: char): (v: nat)
    ensures v <= 16
    ensures v < 16 <==> IsHexDigit(c)
  {
    if '0' <= c <= '9' then c as int - '0' as int
    else if 'a' <= c <= 'f' then c as int - 'a' as int + 10
    else if 'A' <= c <= 'F' then c as int - 'A' as int + 10
    else 16
  }

  /** The value of a numeral in the given radix, None when a character is not
      one of its digits or the numeral is empty. */
  function RadixValue(s: string, radix: nat): (r: Option<nat>)
    ensures r.Some? <==> |s| > 0 && forall i :: 0 <= i < |s| ==> HexValue(s[i]) < radix
  {
    if s == [] || HexValue(s[|s| - 1]) >= radix then None
    else if |s| == 1 then Some(HexValue(s[0]))
    else
      var init := s[..|s| - 1];
      assert forall i :: 0 <= i < |init| ==> init[i] == s[i];
      match RadixValue(init, radix)
      case None => None
      case Some(v) =>
        NatProduct(v, radix);
        Some(v * radix + HexValue(s[|s| - 1]))
  }

  lemma NatProduct(a: nat, b: nat)
    ensures a * b >= 0
  {
  }

  /** A decimal digit keeps its decimal value, and a to f (in either case)
      stand for 10 to 15. */
  lemma HexDigitValues(c: char)
    ensures IsDigit(c) ==> HexValue(c) == DigitValue(c)
    ensures 'a' <= c <= 'f' ==> HexValue(c) == 10 + (c as int - 'a' as int)
    ensures HexValue(LowerChar(c)) == HexValue(c)
  {
  }

  /** An exponent: an optional sign and one or more digits. */
  function ExponentValue(s: string): Option<int>
  {
    var negative := s != [] && s[0] == '-';
    var digits := if s != [] && (s[0] == '-' || s[0] == '+') then s[1..] else s;
    if digits == [] || Run(digits, 0, IsDigit) != digits then None
    else
      var v: int := DigitsValue(digits);
      Some(if negative then -v else v)
  }

  function Scale10(m: real, e: int): real
  {
    if e >= 0 then m * Pow10(e) else m / Pow10(-e)
  }

  /** The value of the digits after a decimal point. */
  function FractionValue(f: string): (v: real)
    requires forall i :: 0 <= i < |f| ==> IsDigit(f[i])
    ensures 0.0 <= v < 1.0
    ensures f == [] ==> v == 0.0
  {
    var n := DigitsValue(f) as real;
    var p := Pow10(|f|);
    DigitsBelowPow10(f);
    FractionBelowOne(n, p);
    n / p
  }

  lemma FractionBelowOne(n: real, p: real)
    requires 0.0 <= n && n + 1.0 <= p
    ensures 0.0 <= n / p < 1.0
  {
    assert n / p * p == n;
  }

  /** What follows the mantissa of a decimal literal, from position `end`: the
      end of the string or an exponent; the mantissa needs at least one digit. */
  function WithExponent(u: string, end: nat, whole: string, fraction: string): Option<real>
    requires end <= |u|
    requires forall i :: 0 <= i < |whole| ==> IsDigit(whole[i])
    requires forall i :: 0 <= i < |fraction| ==> IsDigit(fraction[i])
  {
    var mantissa := DigitsValue(whole) as real + FractionValue(fraction);
    if whole == [] && fraction == [] then None
    else if end == |u| then Some(mantissa)
    else if u[end] == 'e' || u[end] == 'E' then
      match ExponentValue(u[end + 1..])
      case None => None
      case Some(e) => Some(Scale10(mantissa, e))
    else None
  }

  /** An unsigned decimal literal: digits, an optional fraction, at least one
      digit in all, then an optional exponent. */
  function UnsignedDecimalValue(u: string): Option<real>
  {
    var whole := Run(u, 0, IsDigit);
    var k := |whole|;
    if k == |u| then
      if whole == [] then None else Some(DigitsValue(whole) as real)
    else if u[k] == '.' then
      var fraction := Run(u, k + 1, IsDigit);
      WithExponent(u, k + 1 + |fraction|, whole, fraction)
    else WithExponent(u, k, whole, [])
  }

  /** `0x`, `0X`, `0o`, `0O`, `0b` or `0B` starts the string. */
  predicate HasRadixPrefix(t: string)
  {
    |t| >= 2 && t[0] == '0' && (t[1] == 'x' || t[1] == 'X' || t[1] == 'o' || t[1] == 'O' || t[1] == 'b' || t[1] == 'B')
  }

  function RadixLiteralValue(t: string): JsNumber
    requires HasRadixPrefix(t)
  {
    var radix := if t[1] == 'x' || t[1] == 'X' then 16 else if t[1] == 'o' || t[1] == 'O' then 8 else 2;
    match RadixValue(t[2..], radix)
    case None => NumNaN
    case Some(v) => NumFinite(v as real)
  }

  /** An optionally signed decimal literal or `Infinity`. */
  function SignedDecimalValue(t: string): JsNumber
    requires t != []
  {
    var negative := t[0] == '-';
    var u := if t[0] == '-' || t[0] == '+' then t[1..] else t;
    if u == "Infinity" then NumInfinite(!negative)
    else
      match UnsignedDecimalValue(u)
      case None => NumNaN
      case Some(v) => NumFinite(if negative then -v else v)
  }

  /** `Number(s)`: surrounding white space is ignored, an empty or blank string
      is 0, a `0x`/`0o`/`0b` prefix selects radix 16, 8 or 2, otherwise a signed
      decimal literal or `Infinity`; anything else is NaN. */
  function ToNumber(s: string): JsNumber
  {
    var t := Trim(s);
    if t == [] then NumFinite(0.0)
    else if HasRadixPrefix(t) then RadixLiteralValue(t)
    else SignedDecimalValue(t)
  }

  /** A string with no white space at either end is its own trim. */
  lemma TrimUntrimmed(s: string)
    requires s == [] || (!IsSpace(s[0]) && !IsSpace(s[|s| - 1]))
    ensures Trim(s) == s
  {
    if s != [] {
      assert TrimStart(s) == s;
    }
  }

  /** A run of decimal digits is an unsigned decimal literal with their value. */
  lemma DigitsAreDecimal(d: string)
    requires |d| > 0 && forall i :: 0 <= i < |d| ==> IsDigit(d[i])
    ensures UnsignedDecimalValue(d) == Some(DigitsValue(d) as real)
  {
    RunWhole(d, 0, IsDigit);
  }

  /** A decimal numeral, possibly after a minus sign, is a signed decimal
      literal with its value. */
  lemma SignedDigitsAreDecimal(d: string, negative: bool)
    requires |d| > 0 && forall i :: 0 <= i < |d| ==> IsDigit(d[i])
    ensures var v := DigitsValue(d) as real;
      SignedDecimalValue(if negative then "-" + d else d) == NumFinite(if negative then -v else v)
  {
    DigitsAreDecimal(d);
    assert d != "Infinity" by { assert IsDigit(d[0]); }
    if negative {
      var t := "-" + d;
      assert t[0] == '-' && t[1..] == d;
    } else {
      assert d[0] != '-' && d[0] != '+';
    }
  }

  /** A non-empty string with no white space at either end and no radix
      prefix: `Number` reads it as a signed decimal literal. */
  predicate Plain(s: string)
  {
    s != [] && !IsSpace(s[0]) && !IsSpace(s[|s| - 1]) && !HasRadixPrefix(s)
  }

  /** A decimal numeral is plain. */
  lemma DigitsArePlain(d: string)
    requires |d| > 0 && forall i :: 0 <= i < |d| ==> IsDigit(d[i])
    ensures Plain(d)
  {
    assert IsDigit(d[0]) && IsDigit(d[|d| - 1]);
    if |d| >= 2 {
      assert IsDigit(d[1]);
    }
  }

  /** So is a decimal numeral after a minus sign. */
  lemma NegatedDigitsArePlain(d: string)
    requires |d| > 0 && forall i :: 0 <= i < |d| ==> IsDigit(d[i])
    ensures Plain("-" + d)
  {
    var s := "-" + d;
    assert s[0] == '-' && s[|s| - 1] == d[|d| - 1];
    assert IsDigit(d[|d| - 1]);
  }

  lemma IntToStringIsPlain(n: int)
    ensures Plain(IntToString(n))
  {
    if n < 0 {
      NegatedDigitsArePlain(NatToString(-n));
    } else {
      DigitsArePlain(NatToString(n));
    }
  }

  lemma PlainIsDecimal(s: string)
    requires Plain(s)
    ensures ToNumber(s) == SignedDecimalValue(s)
  {
    TrimUntrimmed(s);
  }

  /** The decimal form of an integer converts back to that integer. */
  lemma ToNumberIntToString(n: int)
    ensures ToNumber(IntToString(n)) == NumFinite(n as real)
  {
    var m: nat := if n < 0 then -n else n;
    NatToStringValue(m);
    SignedDigitsAreDecimal(NatToString(m), n < 0);
    IntToStringIsPlain(n);
    PlainIsDecimal(IntToString(n));
  }

  /** A hexadecimal literal converts to its value: `Number("0x10")` is 16. */
  lemma ToNumberHexLiteral()
    ensures ToNumber("0x10") == NumFinite(16.0)
  {
    var t := "0x10";
    TrimUntrimmed(t);
    assert t[2..] == "10" && "10"[..1] == "1";
    assert RadixValue("1", 16) == Some(1);
    assert RadixValue("10", 16) == Some(16);
  }

  /** A run that the next character already ends holds one character. */
  lemma RunSingle(s: string, k: nat, cls: char -> bool)
    requires k < |s| && cls(s[k])
    requires k + 1 == |s| || !cls(s[k + 1])
    ensures Run(s, k, cls) == [s[k]]
  {
    assert Run(s, k + 1, cls) == [];
  }

  lemma FractionLiteralValue()
    ensures UnsignedDecimalValue("2.5") == Some(2.5)
  {
    var u := "2.5";
    assert u[0] == '2' && u[1] == '.' && u[2] == '5';
    RunSingle(u, 0, IsDigit);
    RunSingle(u, 2, IsDigit);
    assert [u[0]] == "2" && [u[2]] == "5";
    assert DigitsValue("2") == 2 && DigitsValue("5") == 5 by {
      assert "2"[..0] == [] && "5"[..0] == [];
    }
    assert FractionValue("5") == 0.5;
    assert WithExponent(u, 3, "2", "5") == Some(2.5);
  }

  /** A literal with a fraction converts to its value: `Number("2.5")` is 2.5. */
  lemma ToNumberFractionLiteral()
    ensures ToNumber("2.5") == NumFinite(2.5)
  {
    var t := "2.5";
    assert t[0] == '2' && t[2] == '5';
    assert Plain(t);
    PlainIsDecimal(t);
    FractionLiteralSigned();
  }

  lemma FractionLiteralSigned()
    ensures SignedDecimalValue("2.5") == NumFinite(2.5)
  {
    var t := "2.5";
    assert t[0] == '2' && |t| == 3;
    assert t != "Infinity";
    FractionLiteralValue();
  }

  lemma ExponentLiteralValue()
    ensures UnsignedDecimalValue("3e2") == Some(300.0)
  {
    var u := "3e2";
    assert u[0] == '3' && u[1] == 'e' && u[2] == '2';
    RunSingle(u, 0, IsDigit);
    assert [u[0]] == "3";
    var e := u[2..];
    assert e == "2" && e[0] == '2';
    RunSingle(e, 0, IsDigit);
    assert DigitsValue("2") == 2 && DigitsValue("3") == 3 by {
      assert "2"[..0] == [] && "3"[..0] == [];
    }
    assert ExponentValue(e) == Some(2);
    assert Pow10(2) == 100.0;
    assert WithExponent(u, 1, "3", []) == Some(300.0);
  }

  /** A literal with an exponent converts to its value: `Number("-3e2")` is -300. */
  lemma ToNumberExponentLiteral()
    ensures ToNumber("-3e2") == NumFinite(-300.0)
  {
    var t := "-3e2";
    assert t[0] == '-' && t[1] == '3' && t[3] == '2';
    assert Plain(t);
    PlainIsDecimal(t);
    ExponentLiteralSigned();
  }

  lemma ExponentLiteralSigned()
    ensures SignedDecimalValue("-3e2") == NumFinite(-300.0)
  {
    var t := "-3e2";
    assert t[0] == '-' && t[1..] == "3e2";
    assert t[1..] != "Infinity";
    ExponentLiteralValue();
  }

  /** A non-empty blank string converts to 0, not NaN. */
  lemma ToNumberBlank(s: string)
    requires forall i :: 0 <= i < |s| ==> IsSpace(s[i])
    ensures ToNumber(s) == NumFinite(0.0)
  {
    TrimEmptyIffBlank(s);
  }

  /** A trimmed string that starts with a character no numeric literal starts
      with converts to NaN. */
  lemma ToNumberBadStart(s: string)
    requires Trim(s) != []
    requires var c := Trim(s)[0]; !IsDigit(c) && c != '.' && c != '+' && c != '-' && c != 'I'
    ensures ToNumber(s) == NumNaN
  {
    var u := Trim(s);
    assert u != "Infinity" by { assert "Infinity"[0] == 'I'; }
    assert Run(u, 0, IsDigit) == [];
  }
}
