/** The ECMAScript global `parseInt(string)` called with no radix, as the quote
    calculator uses it on the age and coverage fields: leading white space is
    skipped, one optional sign is read, a "0x"/"0X" prefix switches to radix 16,
    and then the longest prefix of digits of that radix is read. No digits at all
    gives NaN, modelled as `None`. The result is an exact integer here; the
    rounding to a double of very long digit strings is not modelled. */
module JsParseInt {
  import opened Wrappers

  /** StrWhiteSpaceChar of ECMAScript: the WhiteSpace code points (TAB, VT, FF,
      ZWNBSP and every Unicode "Zs" space separator) and the LineTerminator ones. */
  predicate IsStrWhiteSpace(c: char)
  {
    c == '\t' || c == '\U{000B}' || c == '\U{000C}' || c == '\U{FEFF}' ||
    c == ' ' || c == '\U{00A0}' || c == '\U{1680}' || ('\U{2000}' <= c <= '\U{200A}') ||
    c == '\U{202F}' || c == '\U{205F}' || c == '\U{3000}' ||
    c == '\n' || c == '\r' || c == '\U{2028}' || c == '\U{2029}'
  }

  /** The value of `c` as a digit of `radix` (10 or 16), if it is one. */
  function DigitValue(c: char, radix: nat): (d: Option<nat>)
    requires radix == 10 || radix == 16
    ensures d.Some? ==> d.value < radix
    ensures radix == 10 ==> (d.Some? <==> '0' <= c <= '9')
  {
    if '0' <= c <= '9' then Some(c as nat - '0' as nat)
    else if radix == 16 && 'a' <= c <= 'f' then Some(c as nat - 'a' as nat + 10)
    else if radix == 16 && 'A' <= c <= 'F' then Some(c as nat - 'A' as nat + 10)
    else None
  }

  predicate IsDigit(c: char, radix: nat)
    requires radix == 10 || radix == 16
  {
    DigitValue(c, radix).Some?
  }

  /** `s` without its leading white space. */
  function TrimStart(s: string): (r: string)
    ensures |r| <= |s| && r == s[|s| - |r|..]
    ensures forall i :: 0 <= i < |s| - |r| ==> IsStrWhiteSpace(s[i])
    ensures r == [] || !IsStrWhiteSpace(r[0])
  {
    if s != [] && IsStrWhiteSpace(s[0]) then TrimStart(s[1..]) else s
  }

  /** Length of the longest prefix of `s` made of digits of `radix`. */
  function DigitPrefixLength(s: string, radix: nat): (n: nat)
    requires radix == 10 || radix == 16
    ensures n <= |s|
    ensures forall i :: 0 <= i < n ==> IsDigit(s[i], radix)
    ensures n == |s| || !IsDigit(s[n], radix)
  {
    if s != [] && IsDigit(s[0], radix) then 1 + DigitPrefixLength(s[1..], radix) else 0
  }

  /** The number the digit string `ds` denotes in `radix`, most significant first. */
  function DigitsValue(ds: string, radix: nat): nat
    requires radix == 10 || radix == 16
    requires forall i :: 0 <= i < |ds| ==> IsDigit(ds[i], radix)
  {
    if ds == [] then 0
    else
      var last := ds[|ds| - 1];
      assert IsDigit(last, radix);
      DigitsValue(ds[..|ds| - 1], radix) * radix + DigitValue(last, radix).value
  }

  predicate HasHexPrefix(s: string)
  {
    |s| >= 2 && s[0] == '0' && (s[1] == 'x' || s[1] == 'X')
  }

  /** The unsigned part of parseInt: an optional "0x"/"0X" prefix selects
      radix 16, then the longest digit prefix is read; no digit gives `None`. */
  function ParseMagnitude(u: string): Option<nat>
  {
    var radix := if HasHexPrefix(u) then 16 else 10;
    var body := if radix == 16 then u[2..] else u;
    var n := DigitPrefixLength(body, radix);
    if n == 0 then None else Some(DigitsValue(body[..n], radix))
  }

  /** `t` without one leading '+' or '-'. */
  function DropSign(t: string): (u: string)
    ensures u == t || (t != [] && u == t[1..] && (t[0] == '-' || t[0] == '+'))
  {
    if t != [] && (t[0] == '-' || t[0] == '+') then t[1..] else t
  }

  /** `parseInt(s)`: `None` stands for NaN. It is NaN exactly when, after the
      white space, the sign and a possible hexadecimal prefix, no digit
      follows; a number read after a '-' is not positive, any other is not
      negative. */
  function ParseInt(s: string): (r: Option<int>)
    ensures var u := DropSign(TrimStart(s));
            r.None? <==>
              if HasHexPrefix(u) then |u| == 2 || !IsDigit(u[2], 16)
              else u == [] || !IsDigit(u[0], 10)
    ensures var t := TrimStart(s);
            r.Some? ==> if t != [] && t[0] == '-' then r.value <= 0 else r.value >= 0
  {
    var t := TrimStart(s);
    match ParseMagnitude(DropSign(t))
    case None => None
    case Some(m) =>
      var v: int := if t != [] && t[0] == '-' then -(m as int) else m;
      Some(v)
  }

  predicate AllDecimalDigits(ds: string)
  {
    forall i :: 0 <= i < |ds| ==> '0' <= ds[i] <= '9'
  }

  /** The decimal digits of `n` with no leading zero (just "0" for zero), as
      `String(n)` writes a non-negative integer. */
  function NatDigits(n: nat): (ds: string)
    ensures |ds| >= 1 && AllDecimalDigits(ds)
    ensures n > 0 ==> ds[0] != '0'
    ensures n == 0 <==> ds == "0"
  {
    if n < 10 then [('0' as nat + n) as char]
    else NatDigits(n / 10) + [('0' as nat + n % 10) as char]
  }

  /** `String(n)` for an integer `n`. */
  function DecimalString(n: int): string
  {
    if n < 0 then "-" + NatDigits(-n) else NatDigits(n)
  }

  /** Reading back the decimal digits of `n` gives `n`. */
  lemma {:induction false} NatDigitsValue(n: nat)
    ensures DigitsValue(NatDigits(n), 10) == n
  {
    var ds := NatDigits(n);
    if n >= 10 {
      NatDigitsValue(n / 10);
      assert ds[..|ds| - 1] == NatDigits(n / 10);
    }
  }

  lemma {:induction false} DigitPrefixOfDigits(ds: string, rest: string)
    requires AllDecimalDigits(ds)
    requires rest == [] || !('0' <= rest[0] <= '9')
    ensures DigitPrefixLength(ds + rest, 10) == |ds|
  {
    if ds != [] {
      assert (ds + rest)[1..] == ds[1..] + rest;
      DigitPrefixOfDigits(ds[1..], rest);
    } else {
      assert ds + rest == rest;
    }
  }

  lemma MagnitudeOfDigits(m: nat, rest: string)
    requires rest == [] || !('0' <= rest[0] <= '9')
    requires m == 0 ==> rest == [] || (rest[0] != 'x' && rest[0] != 'X')
    ensures ParseMagnitude(NatDigits(m) + rest) == Some(m)
  {
    var ds := NatDigits(m);
    var u := ds + rest;
    assert !HasHexPrefix(u);
    DigitPrefixOfDigits(ds, rest);
    assert u[..|ds|] == ds;
    NatDigitsValue(m);
  }

  /** parseInt reads exactly the integer that `String(n)` wrote, and ignores
      whatever follows it as long as that does not continue the digits: this is
      how "30.5" reads as 30 and "1e5" as 1. After "0", an "x" or "X" would
      instead start a hexadecimal literal, so it is excluded. */
  lemma ParseIntDecimalPrefix(n: int, rest: string)
    requires rest == [] || !('0' <= rest[0] <= '9')
    requires n == 0 ==> rest == [] || (rest[0] != 'x' && rest[0] != 'X')
    ensures ParseInt(DecimalString(n) + rest) == Some(n)
  {
    if n < 0 {
      var m: nat := -n;
      var text := "-" + (NatDigits(m) + rest);
      assert DecimalString(n) + rest == text by {
        assert DecimalString(n) == "-" + NatDigits(m);
      }
      assert ParseInt(text) == Some(n) by {
        NegativePrefix(m, rest);
      }
    } else {
      var text := NatDigits(n) + rest;
      assert DecimalString(n) + rest == text;
      assert ParseInt(text) == Some(n) by {
        MagnitudeOfDigits(n, rest);
        assert text[0] == NatDigits(n)[0];
        UnsignedDigits(text, n);
      }
    }
  }

  lemma NegativePrefix(m: nat, rest: string)
    requires m > 0
    requires rest == [] || !('0' <= rest[0] <= '9')
    ensures ParseInt("-" + (NatDigits(m) + rest)) == Some(-(m as int))
  {
    MagnitudeOfDigits(m, rest);
    NegatedDigits(NatDigits(m) + rest, m);
  }

  /** A string that starts with a digit is read as its magnitude. */
  lemma UnsignedDigits(u: string, m: nat)
    requires u != [] && '0' <= u[0] <= '9'
    requires ParseMagnitude(u) == Some(m)
    ensures ParseInt(u) == Some(m)
  {
    assert !IsStrWhiteSpace(u[0]);
    assert TrimStart(u) == u;
    assert DropSign(u) == u;
  }

  /** '-' followed by a digit is read as the negated magnitude. */
  lemma NegatedDigits(u: string, m: nat)
    requires u != [] && '0' <= u[0] <= '9'
    requires ParseMagnitude(u) == Some(m)
    ensures ParseInt("-" + u) == Some(-(m as int))
  {
    var s := "-" + u;
    assert !IsStrWhiteSpace(s[0]);
    assert TrimStart(s) == s;
    assert s[1..] == u;
    assert DropSign(s) == u;
  }

  /** Round trip: parseInt(String(n)) == n. */
  lemma ParseIntDecimalString(n: int)
    ensures ParseInt(DecimalString(n)) == Some(n)
  {
    ParseIntDecimalPrefix(n, []);
    assert DecimalString(n) + [] == DecimalString(n);
  }
}
