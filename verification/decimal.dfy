/** Decimal digits: the value of a digit string, `Number.prototype.toString`
    on integers and `parseInt` in radix 10. */
module Decimal {
  import opened Results
  import Strings

  predicate IsDigit(c: char) {
    '0' <= c <= '9'
  }

  predicate AllDigits(s: string) {
    forall k :: 0 <= k < |s| ==> IsDigit(s[k])
  }

  function Digit(c: char): (d: nat)
    requires IsDigit(c)
    ensures d < 10
  {
    (c as int) - ('0' as int)
  }

  function DigitChar(d: nat): (c: char)
    requires d < 10
    ensures IsDigit(c) && Digit(c) == d
  {
    (('0' as int) + d) as char
  }

  function Pow10(n: nat): (p: nat)
    ensures p >= 1
  {
    if n == 0 then 1 else 10 * Pow10(n - 1)
  }

  /** The number of decimal digits in `s`. */
  function DigitCount(s: string): (n: nat)
    ensures n <= |s|
  {
    if |s| == 0 then 0 else (if IsDigit(s[0]) then 1 else 0) + DigitCount(s[1..])
  }

  /** The number spelled by the decimal digits of `s`, read left to right;
      any other character (the `-` of a calendar date, say) is skipped. */
  function DigitsValue(s: string): nat {
    if |s| == 0 then 0
    else if IsDigit(s[0]) then Digit(s[0]) * Pow10(DigitCount(s[1..])) + DigitsValue(s[1..])
    else DigitsValue(s[1..])
  }

  /** A string of n digits spells a number below 10^n. */
  lemma {:induction false} DigitsValueBound(s: string)
    ensures DigitsValue(s) < Pow10(DigitCount(s))
    decreases |s|
  {
    if |s| > 0 {
      DigitsValueBound(s[1..]);
      var p := Pow10(DigitCount(s[1..]));
      if IsDigit(s[0]) {
        ShiftBound(Digit(s[0]), DigitsValue(s[1..]), p);
      }
    }
  }

  lemma ShiftBound(d: nat, v: nat, p: nat)
    requires d < 10 && v < p
    ensures d * p + v < 10 * p
  {
    assert d * p <= 9 * p;
  }

  lemma ShiftAssoc(d: nat, pa: nat, pb: nat, v: nat, w: nat)
    ensures d * (pa * pb) + v * pb + w == (d * pa + v) * pb + w
  {
  }

  lemma {:induction false} DigitCountAppend(a: string, b: string)
    ensures DigitCount(a + b) == DigitCount(a) + DigitCount(b)
    decreases |a|
  {
    if |a| > 0 {
      assert (a + b)[1..] == a[1..] + b;
      DigitCountAppend(a[1..], b);
    } else {
      assert a + b == b;
    }
  }

  lemma {:induction false} Pow10Add(m: nat, n: nat)
    ensures Pow10(m + n) == Pow10(m) * Pow10(n)
    decreases m
  {
    if m > 0 {
      Pow10Add(m - 1, n);
    }
  }

  /** Appending digits shifts the value left by their count. */
  lemma {:induction false} DigitsValueAppend(a: string, b: string)
    ensures DigitsValue(a + b) == DigitsValue(a) * Pow10(DigitCount(b)) + DigitsValue(b)
    decreases |a|
  {
    if |a| == 0 {
      assert a + b == b;
    } else {
      var ab := a + b;
      assert ab[1..] == a[1..] + b;
      assert ab[0] == a[0];
      DigitsValueAppend(a[1..], b);
      if IsDigit(a[0]) {
        DigitCountAppend(a[1..], b);
        Pow10Add(DigitCount(a[1..]), DigitCount(b));
        ShiftAssoc(Digit(a[0]), Pow10(DigitCount(a[1..])), Pow10(DigitCount(b)),
                   DigitsValue(a[1..]), DigitsValue(b));
      }
    }
  }

  /** The shortest decimal spelling of a natural number. */
  function NatToString(n: nat): (s: string)
    ensures |s| >= 1 && AllDigits(s)
  {
    if n < 10 then [DigitChar(n)] else NatToString(n / 10) + [DigitChar(n % 10)]
  }

  /** `Number.prototype.toString()` on an integer. */
  function IntToString(n: int): string {
    if n < 0 then "-" + NatToString(-n) else NatToString(n)
  }

  lemma AllDigitsCount(s: string)
    requires AllDigits(s)
    ensures DigitCount(s) == |s|
  {
    if |s| > 0 {
      AllDigitsCount(s[1..]);
    }
  }

  /** The digits of `NatToString(n)` spell `n`. */
  lemma {:induction false} NatToStringValue(n: nat)
    ensures DigitsValue(NatToString(n)) == n
    decreases n
  {
    if n >= 10 {
      var last := [DigitChar(n % 10)];
      NatToStringValue(n / 10);
      DigitsValueAppend(NatToString(n / 10), last);
      assert DigitCount(last) == 1;
      assert DigitsValue(last) == n % 10;
    }
  }

  /** The longest prefix of `s` made only of digits. */
  function DigitPrefix(s: string): (p: string)
    ensures p <= s && AllDigits(p)
    ensures p == s || !IsDigit(s[|p|])
  {
    if |s| > 0 && IsDigit(s[0]) then [s[0]] + DigitPrefix(s[1..]) else ""
  }

  /** `parseInt(s)` in radix 10: leading whitespace is skipped, one sign is
      accepted, then the longest run of digits is read and the rest ignored.
      `None` stands for `NaN`, the result when no digit follows. */
  function ParseInt(s: string): (r: Option<int>)
    ensures r.None? <==> DigitPrefix(SignlessBody(Strings.TrimStart(s))) == ""
  {
    var t := Strings.TrimStart(s);
    var digits := DigitPrefix(SignlessBody(t));
    if digits == "" then None
    else
      var v: int := DigitsValue(digits);
      if |t| > 0 && t[0] == '-' then Some(-v) else Some(v)
  }

  /** What follows an optional leading `+` or `-`. */
  function SignlessBody(t: string): string {
    if |t| > 0 && (t[0] == '-' || t[0] == '+') then t[1..] else t
  }

  /** `parseInt` reads back what `toString` wrote. */
  lemma ParseIntToString(n: int)
    ensures ParseInt(IntToString(n)) == Some(n)
  {
    var m: nat := if n < 0 then -n else n;
    var digits := NatToString(m);
    var s := IntToString(n);
    IntToStringShape(n);
    assert SignlessBody(s) == digits;
    AllDigitsPrefix(digits);
    NatToStringValue(m);
  }

  lemma IntToStringShape(n: int)
    ensures var s := IntToString(n);
      && Strings.TrimStart(s) == s
      && (n < 0 ==> |s| > 1 && s[0] == '-' && s[1..] == NatToString(-n))
      && (n >= 0 ==> s == NatToString(n) && IsDigit(s[0]))
  {
    var s := IntToString(n);
    assert s[0] == '-' || IsDigit(s[0]);
    assert !Strings.IsWhitespace(s[0]);
  }

  /** The digit run of digits followed by a non-digit is those digits. */
  lemma {:induction false} DigitPrefixStops(d: string, tail: string)
    requires AllDigits(d)
    requires tail == "" || !IsDigit(tail[0])
    ensures DigitPrefix(d + tail) == d
    decreases |d|
  {
    if |d| == 0 {
      assert d + tail == tail;
    } else {
      assert (d + tail)[0] == d[0];
      assert (d + tail)[1..] == d[1..] + tail;
      DigitPrefixStops(d[1..], tail);
      assert d == [d[0]] + d[1..];
    }
  }

  /** `parseInt` on any spelling it accepts: leading whitespace, an optional
      sign, a run of digits (leading zeros allowed) and any text that does
      not start with a digit give the value of the digits, negated after
      `-`. */
  lemma ParseIntReads(w: string, sign: string, d: string, tail: string)
    requires Strings.AllWhitespace(w)
    requires sign == "" || sign == "+" || sign == "-"
    requires d != "" && AllDigits(d)
    requires tail == "" || !IsDigit(tail[0])
    ensures var v: int := DigitsValue(d);
      ParseInt(w + sign + d + tail) == Some(if sign == "-" then -v else v)
  {
    TrimSigned(w, sign, d, tail);
    SignedBody(sign, d, tail);
    DigitPrefixStops(d, tail);
    ParseIntOf(w + sign + d + tail, sign + d + tail, d);
  }

  /** Leading whitespace before a sign or a digit is what gets trimmed. */
  lemma TrimSigned(w: string, sign: string, d: string, tail: string)
    requires Strings.AllWhitespace(w)
    requires sign == "" || sign == "+" || sign == "-"
    requires d != "" && AllDigits(d)
    ensures Strings.TrimStart(w + sign + d + tail) == sign + d + tail
  {
    var body := sign + d + tail;
    assert w + sign + d + tail == w + body;
    SignedBody(sign, d, tail);
    Strings.TrimStartAfter(w, body);
  }

  /** `ParseInt` once the trimmed text and its digit run are known. */
  lemma ParseIntOf(s: string, t: string, d: string)
    requires Strings.TrimStart(s) == t && DigitPrefix(SignlessBody(t)) == d && d != ""
    ensures var v: int := DigitsValue(d); ParseInt(s) == Some(if |t| > 0 && t[0] == '-' then -v else v)
  {
  }

  /** A sign followed by digits: the sign is stripped, and the text starts
      with `-` exactly when the sign is `-`. */
  lemma SignedBody(sign: string, d: string, tail: string)
    requires sign == "" || sign == "+" || sign == "-"
    requires d != "" && AllDigits(d)
    ensures SignlessBody(sign + d + tail) == d + tail
    ensures !Strings.IsWhitespace((sign + d + tail)[0])
    ensures (sign + d + tail)[0] == '-' <==> sign == "-"
  {
    var body := sign + d + tail;
    if sign == "" {
      assert body == d + tail;
      assert body[0] == d[0];
    } else {
      assert body == [sign[0]] + (d + tail);
      assert body[1..] == d + tail;
      assert body[0] != d[0];
    }
  }

  lemma AllDigitsPrefix(s: string)
    requires AllDigits(s)
    ensures DigitPrefix(s) == s
  {
    if |s| > 0 {
      AllDigitsPrefix(s[1..]);
    }
  }
}
