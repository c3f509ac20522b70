/** The JavaScript string operations the storefront relies on, stated over
    `seq<char>`: truthiness of `||`, `\s`/`\d` character classes,
    `replace(/class/g, '')`, `trim`, ASCII case mapping and `join`. */
module JsString {

  /** JavaScript `a || b` on two strings: the empty string is falsy and yields `b`. */
  function Or(a: string, b: string): (r: string)
    ensures a != "" ==> r == a
    ensures a == "" ==> r == b
    ensures r == "" <==> a == "" && b == ""
  {
    if a != "" then a else b
  }

  /** `m[k] ?? ''` on an object whose values are strings: a missing key
      reads as the empty string. */
  function Field(m: map<string, string>, k: string): (v: string)
    ensures k !in m ==> v == ""
    ensures k in m ==> v == m[k]
  {
    if k in m then m[k] else ""
  }

  /** The characters matched by the regular-expression class `\s`; they are
      also exactly the characters `String.prototype.trim` strips. */
  predicate IsWhitespace(c: char) {
    || c == ' ' || c == '\t' || c == '\n' || c == '\r' || c == '\U{B}' || c == '\U{C}'
    || c == '\U{A0}' || c == '\U{1680}' || ('\U{2000}' <= c <= '\U{200A}')
    || c == '\U{2028}' || c == '\U{2029}' || c == '\U{202F}' || c == '\U{205F}'
    || c == '\U{3000}' || c == '\U{FEFF}'
  }

  /** The characters matched by `\d` (ASCII digits only). */
  predicate IsDigit(c: char) {
    '0' <= c <= '9'
  }

  predicate NotWhitespace(c: char) {
    !IsWhitespace(c)
  }

  predicate NoWhitespace(s: string) {
    forall i :: 0 <= i < |s| ==> !IsWhitespace(s[i])
  }

  predicate AllDigits(s: string) {
    forall i :: 0 <= i < |s| ==> IsDigit(s[i])
  }

  /** The characters of `s` that satisfy `keep`, in their original order:
      `s.replace(/[^class]/g, '')` for the class `keep` describes. */
  function Keep(s: string, keep: char -> bool): (r: string)
    ensures |r| <= |s|
    ensures forall i :: 0 <= i < |r| ==> keep(r[i])
  {
    if |s| == 0 then ""
    else
      var rest := Keep(s[1..], keep);
      if keep(s[0]) then [s[0]] + rest else rest
  }

  /** Filtering keeps every occurrence of a kept character and none of the
      others. */
  lemma {:induction false} KeepCounts(s: string, keep: char -> bool)
    ensures forall c :: multiset(Keep(s, keep))[c] == if keep(c) then multiset(s)[c] else 0
  {
    if |s| > 0 {
      KeepCounts(s[1..], keep);
      assert s == [s[0]] + s[1..];
    }
  }

  /** Filtering distributes over concatenation. */
  lemma {:induction false} KeepAppend(s: string, t: string, keep: char -> bool)
    ensures Keep(s + t, keep) == Keep(s, keep) + Keep(t, keep)
  {
    if |s| == 0 {
      assert s + t == t;
    } else {
      assert (s + t)[1..] == s[1..] + t;
      KeepAppend(s[1..], t, keep);
    }
  }

  /** A string all of whose characters are kept is left unchanged, so
      filtering twice is the same as filtering once. */
  lemma {:induction false} KeepAll(s: string, keep: char -> bool)
    ensures (forall i :: 0 <= i < |s| ==> keep(s[i])) ==> Keep(s, keep) == s
  {
    if |s| > 0 {
      KeepAll(s[1..], keep);
    }
  }

  /** `s.replace(/\s/g, '')`. */
  function RemoveWhitespace(s: string): (r: string)
    ensures NoWhitespace(r)
    ensures NoWhitespace(s) ==> r == s
  {
    KeepAll(s, NotWhitespace);
    Keep(s, NotWhitespace)
  }

  /** `s.replace(/\D/g, '')`. */
  function DigitsOnly(s: string): (r: string)
    ensures AllDigits(r)
    ensures AllDigits(s) ==> r == s
  {
    KeepAll(s, IsDigit);
    Keep(s, IsDigit)
  }

  /** `s.trimStart()`: the longest whitespace prefix is dropped. */
  function TrimStart(s: string): (r: string)
    ensures |r| <= |s| && r == s[|s| - |r|..]
    ensures forall i :: 0 <= i < |s| - |r| ==> IsWhitespace(s[i])
    ensures r == "" || !IsWhitespace(r[0])
  {
    if |s| == 0 || !IsWhitespace(s[0]) then s else TrimStart(s[1..])
  }

  /** `s.trimEnd()`: the longest whitespace suffix is dropped. */
  function TrimEnd(s: string): (r: string)
    ensures |r| <= |s| && r == s[..|r|]
    ensures forall i :: |r| <= i < |s| ==> IsWhitespace(s[i])
    ensures r == "" || !IsWhitespace(r[|r| - 1])
  {
    if |s| == 0 || !IsWhitespace(s[|s| - 1]) then s else TrimEnd(s[..|s| - 1])
  }

  /** `s.trim()`. */
  function Trim(s: string): string {
    TrimEnd(TrimStart(s))
  }

  /** A string that is empty or holds only whitespace. */
  predicate Blank(s: string) {
    forall i :: 0 <= i < |s| ==> IsWhitespace(s[i])
  }

  /** A string trims to nothing exactly when it is all whitespace. */
  lemma TrimEmptyIffBlank(s: string)
    ensures Trim(s) == "" <==> Blank(s)
  {
    var u := TrimStart(s);
    if Trim(s) == "" {
      assert |u| == 0;
    }
  }

  /** A string that neither starts nor ends with whitespace is its own trim. */
  lemma TrimUntouched(s: string)
    requires s == "" || (!IsWhitespace(s[0]) && !IsWhitespace(s[|s| - 1]))
    ensures Trim(s) == s
  {
  }

  /** Trimming removes a single trailing space after such a string. */
  lemma TrimTrailingSpace(s: string)
    requires s == "" || (!IsWhitespace(s[0]) && !IsWhitespace(s[|s| - 1]))
    ensures Trim(s + " ") == s
  {
    var t := s + " ";
    if s == "" {
      assert TrimStart(t) == "";
    } else {
      assert TrimStart(t) == t;
      var r := TrimEnd(t);
      assert t[|s| - 1] == s[|s| - 1];
      assert |r| == |s|;
      assert r == t[..|s|] == s;
    }
  }

  /** ASCII upper-casing of one character (`toUpperCase` outside ASCII is not modelled). */
  function UpperChar(c: char): char {
    if 'a' <= c <= 'z' then (c as int - 32) as char else c
  }

  /** ASCII lower-casing of one character. */
  function LowerChar(c: char): char {
    if 'A' <= c <= 'Z' then (c as int + 32) as char else c
  }

  predicate IsLowerAscii(c: char) {
    'a' <= c <= 'z'
  }

  predicate IsUpperAscii(c: char) {
    'A' <= c <= 'Z'
  }

  /** `s.toUpperCase()`: no lower-case letter is left, every character
      still matches the input's ignoring case, and everything but the
      lower-case letters is kept as it was. */
  function ToUpper(s: string): (r: string)
    ensures |r| == |s|
    ensures forall i :: 0 <= i < |r| ==> !IsLowerAscii(r[i])
    ensures forall i :: 0 <= i < |s| ==> LowerChar(r[i]) == LowerChar(s[i])
    ensures forall i :: 0 <= i < |s| && !IsLowerAscii(s[i]) ==> r[i] == s[i]
  {
    seq(|s|, i requires 0 <= i < |s| => UpperChar(s[i]))
  }

  /** `s.toLowerCase()`: no upper-case letter is left, every character
      still matches the input's ignoring case, and everything but the
      upper-case letters is kept as it was. */
  function ToLower(s: string): (r: string)
    ensures |r| == |s|
    ensures forall i :: 0 <= i < |r| ==> !IsUpperAscii(r[i])
    ensures forall i :: 0 <= i < |s| ==> UpperChar(r[i]) == UpperChar(s[i])
    ensures forall i :: 0 <= i < |s| && !IsUpperAscii(s[i]) ==> r[i] == s[i]
  {
    seq(|s|, i requires 0 <= i < |s| => LowerChar(s[i]))
  }

  /** Upper-casing twice is upper-casing once. */
  lemma ToUpperIdempotent(s: string)
    ensures ToUpper(ToUpper(s)) == ToUpper(s)
  {
  }

  /** Lower-casing twice is lower-casing once. */
  lemma ToLowerIdempotent(s: string)
    ensures ToLower(ToLower(s)) == ToLower(s)
  {
  }

  /** The position of the first `c` in `s`, or `|s|` when there is none
      (`indexOf` with `-1` replaced by the length). */
  function IndexOf(s: string, c: char): (i: nat)
    ensures i <= |s|
    ensures i < |s| ==> s[i] == c
    ensures forall j :: 0 <= j < i ==> s[j] != c
  {
    if |s| == 0 then 0 else if s[0] == c then 0 else 1 + IndexOf(s[1..], c)
  }

  /** A character absent from `x` is first found right after `x`. */
  lemma IndexOfAfter(x: string, c: char, rest: string)
    requires c !in x
    ensures IndexOf(x + [c] + rest, c) == |x|
  {
    var s := x + [c] + rest;
    assert s[|x|] == c;
  }

  /** `parts.join(sep)` for a one-character separator. */
  function Join(parts: seq<string>, sep: char): (r: string)
    ensures |parts| == 0 ==> r == ""
  {
    if |parts| == 0 then ""
    else if |parts| == 1 then parts[0]
    else parts[0] + [sep] + Join(parts[1..], sep)
  }

  /** Every part of `parts` is free of the separator character. */
  predicate SepFree(parts: seq<string>, sep: char) {
    forall i :: 0 <= i < |parts| ==> sep !in parts[i]
  }

  /** Joining equally many separator-free parts is injective: the joined
      string determines every part. */
  lemma {:induction false} JoinInjective(a: seq<string>, b: seq<string>, sep: char)
    requires |a| == |b|
    requires SepFree(a, sep) && SepFree(b, sep)
    requires Join(a, sep) == Join(b, sep)
    ensures a == b
  {
    if |a| == 1 {
    } else if |a| > 1 {
      var x, y := a[0], b[0];
      var s, t := Join(a, sep), Join(b, sep);
      assert s == x + [sep] + Join(a[1..], sep);
      assert t == y + [sep] + Join(b[1..], sep);
      IndexOfAfter(x, sep, Join(a[1..], sep));
      IndexOfAfter(y, sep, Join(b[1..], sep));
      assert x == s[..|x|] == t[..|y|] == y;
      assert Join(a[1..], sep) == s[|x| + 1..];
      assert Join(b[1..], sep) == t[|y| + 1..];
      JoinInjective(a[1..], b[1..], sep);
      assert a == [x] + a[1..];
      assert b == [y] + b[1..];
    }
  }

  /** Changing exactly one of equally many parts changes the joined
      string, whatever characters the parts contain: the parts before and
      after the change are shared, so the changed parts must have the same
      length and then the same characters. */
  lemma {:induction false} JoinOneChange(a: seq<string>, b: seq<string>, sep: char, i: nat)
    requires |a| == |b| && i < |a|
    requires a[i] != b[i]
    requires forall j :: 0 <= j < |a| && j != i ==> a[j] == b[j]
    ensures Join(a, sep) != Join(b, sep)
  {
    if |a| > 1 {
      var s, t := Join(a, sep), Join(b, sep);
      assert s == a[0] + [sep] + Join(a[1..], sep);
      assert t == b[0] + [sep] + Join(b[1..], sep);
      if i == 0 {
        assert a[1..] == b[1..];
        if |a[0]| == |b[0]| {
          assert s[..|a[0]|] == a[0] && t[..|a[0]|] == b[0];
        } else {
          assert |s| != |t|;
        }
      } else {
        assert a[0] == b[0];
        assert s[|a[0]| + 1..] == Join(a[1..], sep) && t[|a[0]| + 1..] == Join(b[1..], sep);
        JoinOneChange(a[1..], b[1..], sep, i - 1);
      }
    }
  }
}
