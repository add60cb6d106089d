/** The parts of JavaScript's string runtime that the pipeline relies on:
    String.prototype.trim, startsWith, includes and indexOf, the
    regular-expression class \s, and the decimal rendering of a
    non-negative integer inside a template literal. */
module JsStrings {
  import opened Wrappers

  /** ECMAScript WhiteSpace and LineTerminator code points: exactly the
      characters that trim() removes and that \s matches. */
  predicate IsWhitespace(c: char) {
    || c == '\t' || c == '\n' || c == '\U{000B}' || c == '\U{000C}' || c == '\r'
    || c == ' ' || c == '\U{00A0}' || c == '\U{1680}'
    || ('\U{2000}' <= c <= '\U{200A}')
    || c == '\U{2028}' || c == '\U{2029}' || c == '\U{202F}' || c == '\U{205F}'
    || c == '\U{3000}' || c == '\U{FEFF}'
  }

  predicate Blank(s: string) {
    forall k :: 0 <= k < |s| ==> IsWhitespace(s[k])
  }

  /** Neither end of t is whitespace: what trim() leaves behind. */
  predicate Trimmed(t: string) {
    t == [] || (!IsWhitespace(t[0]) && !IsWhitespace(t[|t| - 1]))
  }

  /** Drops the longest whitespace prefix. */
  function TrimStart(s: string): (r: string)
    ensures |r| <= |s| && r == s[|s| - |r|..]
    ensures forall k :: 0 <= k < |s| - |r| ==> IsWhitespace(s[k])
    ensures r == [] || !IsWhitespace(r[0])
  {
    if |s| > 0 && IsWhitespace(s[0]) then TrimStart(s[1..]) else s
  }

  /** Drops the longest whitespace suffix. */
  function TrimEnd(s: string): (r: string)
    ensures |r| <= |s| && r == s[..|r|]
    ensures forall k :: |r| <= k < |s| ==> IsWhitespace(s[k])
    ensures r == [] || !IsWhitespace(r[|r| - 1])
  {
    if |s| > 0 && IsWhitespace(s[|s| - 1]) then TrimEnd(s[..|s| - 1]) else s
  }

  /** String.prototype.trim. */
  function Trim(s: string): (r: string)
    ensures Trimmed(r)
    ensures |r| <= |s|
  {
    TrimEnd(TrimStart(s))
  }

  lemma {:induction false} TrimStartPadded(w: string, t: string)
    requires Blank(w)
    requires t == [] || !IsWhitespace(t[0])
    ensures TrimStart(w + t) == t
    decreases |w|
  {
    if w == [] {
      assert w + t == t;
    } else {
      assert (w + t)[0] == w[0];
      assert (w + t)[1..] == w[1..] + t;
      TrimStartPadded(w[1..], t);
    }
  }

  lemma {:induction false} TrimEndPadded(t: string, w: string)
    requires Blank(w)
    requires t == [] || !IsWhitespace(t[|t| - 1])
    ensures TrimEnd(t + w) == t
    decreases |w|
  {
    if w == [] {
      assert t + w == t;
    } else {
      var w' := w[..|w| - 1];
      assert (t + w)[|t + w| - 1] == w[|w| - 1];
      assert (t + w)[..|t + w| - 1] == t + w';
      TrimEndPadded(t, w');
    }
  }

  /** trim() of a trimmed core padded with whitespace on both sides is that core. */
  lemma TrimPadded(w0: string, t: string, w1: string)
    requires Blank(w0) && Blank(w1) && Trimmed(t)
    ensures Trim(w0 + t + w1) == t
  {
    assert w0 + t + w1 == w0 + (t + w1);
    if t == [] {
      assert t + w1 == w1;
      TrimStartPadded(w0 + w1, []);
      assert w0 + w1 + [] == w0 + w1;
    } else {
      TrimStartPadded(w0, t + w1);
      TrimEndPadded(t, w1);
    }
  }

  /** p occurs in s at index i. */
  predicate OccursAt(s: string, p: string, i: int) {
    0 <= i && i + |p| <= |s| && s[i..i + |p|] == p
  }

  /** String.prototype.indexOf(p, from), for from <= |s|. */
  function IndexOfFrom(s: string, p: string, from: nat): (r: Option<nat>)
    requires from <= |s|
    ensures r.Some? ==> from <= r.value && OccursAt(s, p, r.value)
    ensures r.Some? ==> forall k :: from <= k < r.value ==> !OccursAt(s, p, k)
    ensures r.None? ==> forall k :: from <= k ==> !OccursAt(s, p, k)
    decreases |s| - from
  {
    if OccursAt(s, p, from) then Some(from)
    else if from == |s| then None
    else IndexOfFrom(s, p, from + 1)
  }

  /** String.prototype.indexOf(p): the leftmost occurrence, if any. */
  function IndexOf(s: string, p: string): (r: Option<nat>)
    ensures r.Some? ==> OccursAt(s, p, r.value)
    ensures r.Some? ==> forall k :: 0 <= k < r.value ==> !OccursAt(s, p, k)
    ensures r.None? ==> forall k :: !OccursAt(s, p, k)
  {
    IndexOfFrom(s, p, 0)
  }

  /** String.prototype.includes. */
  function Includes(s: string, p: string): (b: bool)
    ensures b <==> exists k :: OccursAt(s, p, k)
  {
    IndexOf(s, p).Some?
  }

  /** String.prototype.startsWith. */
  predicate StartsWith(s: string, p: string) {
    |p| <= |s| && s[..|p|] == p
  }

  lemma OccursInMiddle(a: string, p: string, b: string)
    ensures OccursAt(a + p + b, p, |a|)
  {
    assert (a + p + b)[|a|..|a| + |p|] == p;
  }

  lemma OccursShifted(s: string, p: string, k: int, a: string, b: string)
    requires OccursAt(s, p, k)
    ensures OccursAt(a + s + b, p, |a| + k)
  {
    assert (a + s + b)[|a| + k..|a| + k + |p|] == s[k..k + |p|];
  }

  lemma OccursExtended(s: string, p: string, k: int, b: string)
    requires OccursAt(s, p, k)
    ensures OccursAt(s + b, p, k)
  {
    assert (s + b)[k..k + |p|] == s[k..k + |p|];
  }

  lemma OccursAfter(a: string, s: string, p: string, k: int)
    requires OccursAt(s, p, k)
    ensures OccursAt(a + s, p, |a| + k)
  {
    assert (a + s)[|a| + k..|a| + k + |p|] == s[k..k + |p|];
  }

  /** No occurrence of p is possible when its first character is absent. */
  lemma AbsentFirstChar(s: string, p: string)
    requires |p| > 0 && p[0] !in s
    ensures forall k :: !OccursAt(s, p, k)
  {
    forall k | 0 <= k && k + |p| <= |s|
      ensures !OccursAt(s, p, k)
    {
      assert s[k..k + |p|][0] == s[k];
    }
  }

  /** The end of the whitespace run of s that starts at from: what a greedy
      \s* consumes. */
  function SkipWhitespace(s: string, from: nat): (j: nat)
    requires from <= |s|
    ensures from <= j <= |s|
    ensures forall k :: from <= k < j ==> IsWhitespace(s[k])
    ensures j == |s| || !IsWhitespace(s[j])
    decreases |s| - from
  {
    if from < |s| && IsWhitespace(s[from]) then SkipWhitespace(s, from + 1) else from
  }

  function DigitChar(d: nat): (c: char)
    requires d < 10
    ensures '0' <= c <= '9' && c as int - '0' as int == d
  {
    ('0' as int + d) as char
  }

  predicate AllDigits(s: string) {
    forall k :: 0 <= k < |s| ==> '0' <= s[k] <= '9'
  }

  /** The number a string of decimal digits denotes. */
  function DigitsValue(s: string): nat
    requires AllDigits(s)
  {
    if s == [] then 0
    else DigitsValue(s[..|s| - 1]) * 10 + (s[|s| - 1] as int - '0' as int)
  }

  /** How JavaScript renders a non-negative integer in a template literal:
      plain decimal digits, no leading zero. */
  function NatToString(n: nat): (r: string)
    ensures |r| > 0 && AllDigits(r)
    ensures |r| > 1 ==> r[0] != '0'
  {
    if n < 10 then [DigitChar(n)] else NatToString(n / 10) + [DigitChar(n % 10)]
  }

  /** The rendering is faithful: reading the digits back gives the number. */
  lemma {:induction false} NatToStringRoundTrip(n: nat)
    ensures DigitsValue(NatToString(n)) == n
  {
    if n >= 10 {
      NatToStringRoundTrip(n / 10);
      var s := NatToString(n);
      assert s[..|s| - 1] == NatToString(n / 10);
    }
  }
}
