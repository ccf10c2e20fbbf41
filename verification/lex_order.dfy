/** JavaScript's `<`, `<=`, `>=` on strings: lexicographic comparison of
    characters, a proper prefix ordering before its extensions. (Dafny's own
    `<` on sequences means "proper prefix", so the order is defined here.) */
module LexOrder {
  import opened Decimal

  predicate LexLe(a: string, b: string)
    decreases |a|
  {
    if |a| == 0 then true
    else if |b| == 0 then false
    else if a[0] != b[0] then a[0] < b[0]
    else LexLe(a[1..], b[1..])
  }

  predicate LexLt(a: string, b: string) {
    LexLe(a, b) && a != b
  }

  lemma {:induction false} LexLeReflexive(a: string)
    ensures LexLe(a, a)
    decreases |a|
  {
    if |a| > 0 {
      LexLeReflexive(a[1..]);
    }
  }

  lemma {:induction false} LexLeAntisymmetric(a: string, b: string)
    requires LexLe(a, b) && LexLe(b, a)
    ensures a == b
    decreases |a|
  {
    if |a| > 0 && |b| > 0 {
      LexLeAntisymmetric(a[1..], b[1..]);
      assert a == [a[0]] + a[1..] && b == [b[0]] + b[1..];
    }
  }

  lemma {:induction false} LexLeTransitive(a: string, b: string, c: string)
    requires LexLe(a, b) && LexLe(b, c)
    ensures LexLe(a, c)
    decreases |a|
  {
    if |a| > 0 && |b| > 0 && |c| > 0 && a[0] == b[0] && b[0] == c[0] {
      LexLeTransitive(a[1..], b[1..], c[1..]);
    }
  }

  lemma {:induction false} LexLeTotal(a: string, b: string)
    ensures LexLe(a, b) || LexLe(b, a)
    decreases |a|
  {
    if |a| > 0 && |b| > 0 && a[0] == b[0] {
      LexLeTotal(a[1..], b[1..]);
    }
  }

  /** Two strings of the same shape: equally long, and wherever they differ,
      both hold a digit. Fixed-width numerals and calendar dates have it. */
  predicate SameShape(a: string, b: string) {
    && |a| == |b|
    && forall k :: 0 <= k < |a| ==> a[k] == b[k] || (IsDigit(a[k]) && IsDigit(b[k]))
  }

  lemma DigitStringsSameShape(a: string, b: string)
    requires |a| == |b| && AllDigits(a) && AllDigits(b)
    ensures SameShape(a, b)
  {
  }

  lemma {:induction false} SameShapeDigitCount(a: string, b: string)
    requires SameShape(a, b)
    ensures DigitCount(a) == DigitCount(b)
    decreases |a|
  {
    if |a| > 0 {
      SameShapeDigitCount(a[1..], b[1..]);
    }
  }

  /** On strings of the same shape, lexicographic order is numeric order of
      the digits they spell. */
  lemma {:induction false} SameShapeOrder(a: string, b: string)
    requires SameShape(a, b)
    ensures LexLe(a, b) <==> DigitsValue(a) <= DigitsValue(b)
    decreases |a|
  {
    if |a| > 0 {
      var ta, tb := a[1..], b[1..];
      assert SameShape(ta, tb) by {
        forall k | 0 <= k < |ta| ensures ta[k] == tb[k] || (IsDigit(ta[k]) && IsDigit(tb[k])) {
          assert ta[k] == a[k + 1] && tb[k] == b[k + 1];
        }
      }
      SameShapeDigitCount(ta, tb);
      if a[0] == b[0] {
        SameShapeOrder(ta, tb);
      } else {
        assert IsDigit(a[0]) && IsDigit(b[0]);
        var p := Pow10(DigitCount(ta));
        DigitsValueBound(ta);
        DigitsValueBound(tb);
        if a[0] < b[0] {
          LeadingDigitDecides(Digit(a[0]), Digit(b[0]), DigitsValue(ta), DigitsValue(tb), p);
        } else {
          LeadingDigitDecides(Digit(b[0]), Digit(a[0]), DigitsValue(tb), DigitsValue(ta), p);
        }
      }
    }
  }

  lemma LeadingDigitDecides(da: nat, db: nat, va: nat, vb: nat, p: nat)
    requires da < db && va < p && vb < p
    ensures da * p + va < db * p + vb
  {
    assert (da + 1) * p <= db * p;
  }

  /** A calendar date written `YYYY-MM-DD` as in ISO 8601. */
  predicate IsIsoDate(s: string) {
    && |s| == 10 && s[4] == '-' && s[7] == '-'
    && IsDigit(s[0]) && IsDigit(s[1]) && IsDigit(s[2]) && IsDigit(s[3])
    && IsDigit(s[5]) && IsDigit(s[6]) && IsDigit(s[8]) && IsDigit(s[9])
  }

  function Year(s: string): nat requires IsIsoDate(s) { DigitsValue(s[0..4]) }
  function Month(s: string): nat requires IsIsoDate(s) { DigitsValue(s[5..7]) }
  function Day(s: string): nat requires IsIsoDate(s) { DigitsValue(s[8..10]) }

  /** Chronological order of two calendar dates: by year, then month, then day. */
  predicate NotLater(a: string, b: string)
    requires IsIsoDate(a) && IsIsoDate(b)
  {
    || Year(a) < Year(b)
    || (Year(a) == Year(b) && Month(a) < Month(b))
    || (Year(a) == Year(b) && Month(a) == Month(b) && Day(a) <= Day(b))
  }

  lemma IsoDateValue(s: string)
    requires IsIsoDate(s)
    ensures DigitsValue(s) == Year(s) * 10000 + Month(s) * 100 + Day(s)
    ensures Month(s) < 100 && Day(s) < 100
  {
    var y, m, d := s[0..4], s[5..7], s[8..10];
    assert s == y + ([s[4]] + (m + ([s[7]] + d)));
    assert AllDigits(y) && AllDigits(m) && AllDigits(d);
    AllDigitsCount(y);
    AllDigitsCount(m);
    AllDigitsCount(d);
    DigitsValueBound(m);
    DigitsValueBound(d);
    var md := [s[7]] + d;
    var mmdd := m + md;
    var rest := [s[4]] + mmdd;
    DigitsValueAppend(m, md);
    DigitCountAppend(m, md);
    DigitsValueAppend(y, rest);
    DigitCountAppend(y, rest);
    assert DigitsValue(md) == DigitsValue(d) && DigitCount(md) == 2;
    assert DigitsValue(rest) == DigitsValue(mmdd) && DigitCount(rest) == 4;
    assert Pow10(2) == 100 && Pow10(4) == 10000;
  }

  /** For well-formed calendar dates, the plain string comparison the search
      relies on is chronological order. */
  lemma IsoDateOrder(a: string, b: string)
    requires IsIsoDate(a) && IsIsoDate(b)
    ensures LexLe(a, b) <==> NotLater(a, b)
  {
    assert SameShape(a, b);
    SameShapeOrder(a, b);
    IsoDateValue(a);
    IsoDateValue(b);
  }
}
