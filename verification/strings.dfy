/** The string operations of the JavaScript runtime that the model relies on:
    `trim`, `split` and `join` on a single-character separator, `startsWith`.
    A JavaScript string is modelled as `seq<char>`. */
module Strings {

  /** The characters removed by `String.prototype.trim`: ECMAScript WhiteSpace
      and LineTerminator code points. */
  const WhitespaceChars: set<char> := {
    ' ', '\t', '\n', '\r', '\U{B}', '\U{C}', '\U{A0}', '\U{FEFF}', '\U{1680}',
    '\U{2028}', '\U{2029}', '\U{202F}', '\U{205F}', '\U{3000}'
  }

  predicate IsWhitespace(c: char) {
    c in WhitespaceChars || '\U{2000}' <= c <= '\U{200A}'
  }

  predicate AllWhitespace(s: string) {
    forall k :: 0 <= k < |s| ==> IsWhitespace(s[k])
  }

  /** The number of whitespace characters `s` starts with. */
  function LeadingWhitespace(s: string): (n: nat)
    ensures n <= |s| && AllWhitespace(s[..n])
    ensures n < |s| ==> !IsWhitespace(s[n])
  {
    if |s| > 0 && IsWhitespace(s[0]) then
      var m := LeadingWhitespace(s[1..]);
      WhitespaceCons(s, m + 1);
      assert m + 1 < |s| ==> s[m + 1] == s[1..][m];
      m + 1
    else 0
  }

  /** Drops the leading whitespace of `s`. */
  function TrimStart(s: string): (r: string)
    ensures |r| <= |s| && r == s[|s| - |r|..]
    ensures AllWhitespace(s[..|s| - |r|])
    ensures r == [] || !IsWhitespace(r[0])
  {
    s[LeadingWhitespace(s)..]
  }

  /** Leading whitespace followed by a non-whitespace character is exactly
      what `TrimStart` drops. */
  lemma TrimStartAfter(w: string, body: string)
    requires AllWhitespace(w)
    requires body == [] || !IsWhitespace(body[0])
    ensures TrimStart(w + body) == body
  {
    var s := w + body;
    var n := LeadingWhitespace(s);
    assert forall k :: 0 <= k < n ==> IsWhitespace(s[k]) by {
      forall k | 0 <= k < n ensures IsWhitespace(s[k]) {
        assert s[..n][k] == s[k];
      }
    }
    assert forall k :: 0 <= k < |w| ==> s[k] == w[k];
    if |body| > 0 {
      assert s[|w|] == body[0];
    }
    assert n == |w|;
    assert s[|w|..] == body;
  }

  lemma WhitespaceCons(s: string, n: nat)
    requires 0 < n <= |s| && IsWhitespace(s[0]) && AllWhitespace(s[1..][..n - 1])
    ensures AllWhitespace(s[..n])
  {
    forall k | 0 <= k < n ensures IsWhitespace(s[..n][k]) {
      if k > 0 {
        assert s[..n][k] == s[1..][..n - 1][k - 1];
      }
    }
  }

  /** Drops the trailing whitespace of `s`. */
  function TrimEnd(s: string): (r: string)
    ensures |r| <= |s| && r == s[..|r|]
    ensures AllWhitespace(s[|r|..])
    ensures r == [] || !IsWhitespace(r[|r| - 1])
  {
    if |s| > 0 && IsWhitespace(s[|s| - 1]) then
      var p := s[..|s| - 1];
      var r := TrimEnd(p);
      assert s[|r|..] == p[|r|..] + [s[|s| - 1]];
      r
    else s
  }

  /** `String.prototype.trim`: neither starts nor ends with whitespace, and
      is empty exactly when `s` is all whitespace. */
  function Trim(s: string): (r: string)
    ensures |r| <= |s|
    ensures r == [] || (!IsWhitespace(r[0]) && !IsWhitespace(r[|r| - 1]))
    ensures r == [] <==> AllWhitespace(s)
    ensures exists i, j :: 0 <= i <= j <= |s| && r == s[i..j] && AllWhitespace(s[..i]) && AllWhitespace(s[j..])
  {
    TrimEmpty(s);
    var t := TrimStart(s);
    var r := TrimEnd(t);
    assert r == [] || r[0] == t[0];
    var i := |s| - |t|;
    var j := i + |r|;
    assert s[i..j] == t[..|r|] == r;
    assert s[j..] == t[|r|..];
    r
  }

  lemma TrimEmpty(s: string)
    ensures TrimEnd(TrimStart(s)) == [] <==> AllWhitespace(s)
  {
    var n := LeadingWhitespace(s);
    var t := TrimStart(s);
    TrimEndEmpty(t);
    if AllWhitespace(t) {
      assert t == [];
      assert s[..n] == s;
    }
    assert AllWhitespace(s) ==> n == |s|;
  }

  lemma {:induction false} TrimEndEmpty(s: string)
    ensures TrimEnd(s) == [] <==> AllWhitespace(s)
    decreases |s|
  {
    if |s| > 0 && IsWhitespace(s[|s| - 1]) {
      var p := s[..|s| - 1];
      TrimEndEmpty(p);
      assert AllWhitespace(s) <==> AllWhitespace(p) by {
        if AllWhitespace(p) {
          forall k | 0 <= k < |s| ensures IsWhitespace(s[k]) {
            if k < |s| - 1 { assert s[k] == p[k]; }
          }
        }
      }
    }
  }

  predicate StartsWith(s: string, prefix: string) {
    prefix <= s
  }

  /** The position of the first `c` in `s`. */
  function IndexOf(s: string, c: char): (i: nat)
    requires c in s
    ensures i < |s| && s[i] == c && c !in s[..i]
  {
    if s[0] == c then 0 else 1 + IndexOf(s[1..], c)
  }

  /** `parts.join(sep)`: the empty list joins to the empty string. */
  function Join(parts: seq<string>, sep: char): string {
    if |parts| == 0 then ""
    else if |parts| == 1 then parts[0]
    else parts[0] + [sep] + Join(parts[1..], sep)
  }

  /** `s.split(sep)`: the pieces of `s` between occurrences of `sep`. The
      result is never empty; splitting the empty string gives `[""]`. */
  function Split(s: string, sep: char): (parts: seq<string>)
    ensures |parts| >= 1
    ensures forall k :: 0 <= k < |parts| ==> sep !in parts[k]
    ensures sep in s <==> |parts| >= 2
    ensures parts[0] <= s
    decreases |s|
  {
    if sep !in s then [s]
    else
      var i := IndexOf(s, sep);
      [s[..i]] + Split(s[i + 1..], sep)
  }

  /** Joining the pieces of a split gives the original string back. */
  lemma {:induction false} JoinSplit(s: string, sep: char)
    ensures Join(Split(s, sep), sep) == s
    decreases |s|
  {
    if sep in s {
      var i := IndexOf(s, sep);
      var rest := Split(s[i + 1..], sep);
      JoinSplit(s[i + 1..], sep);
      assert Split(s, sep) == [s[..i]] + rest;
      assert ([s[..i]] + rest)[1..] == rest;
      assert s == s[..i] + [sep] + s[i + 1..];
    }
  }

  /** Splitting a join of separator-free pieces gives the pieces back. */
  lemma {:induction false} SplitJoin(parts: seq<string>, sep: char)
    requires |parts| >= 1
    requires forall k :: 0 <= k < |parts| ==> sep !in parts[k]
    ensures Split(Join(parts, sep), sep) == parts
  {
    if |parts| > 1 {
      var tail := Join(parts[1..], sep);
      assert Join(parts, sep) == parts[0] + [sep] + tail;
      SplitJoin(parts[1..], sep);
      SplitAtFirst(parts[0], tail, sep);
      assert parts == [parts[0]] + parts[1..];
    }
  }

  /** Splitting at the first separator. */
  lemma SplitAtFirst(a: string, b: string, sep: char)
    requires sep !in a
    ensures Split(a + [sep] + b, sep) == [a] + Split(b, sep)
  {
    var s := a + [sep] + b;
    assert s[|a|] == sep;
    var i := IndexOf(s, sep);
    assert i == |a|;
    assert s[..i] == a;
    assert s[i + 1..] == b;
  }
}
