/**
 * The few .NET library string operations the slideshow relies on:
 * `string.ToLower`, `string.Contains`, `Path.GetExtension` and the decimal
 * formatting of a non-negative `int` inside an interpolated string.
 */
module Strings {

  /** Lower-cases one character (the letters A to Z; every other character is kept). */
  function ToLowerChar(c: char): char {
    if 'A' <= c <= 'Z' then (c as int + 32) as char else c
  }

  /** `s.ToLower()`: the same length, every character lower-cased. */
  function ToLower(s: string): (r: string)
    ensures |r| == |s|
    ensures forall i :: 0 <= i < |s| ==> r[i] == ToLowerChar(s[i])
  {
    seq(|s|, i requires 0 <= i < |s| => ToLowerChar(s[i]))
  }

  /** No character of `s` is an upper-case letter. */
  predicate IsLowerCase(s: string) {
    forall i :: 0 <= i < |s| ==> !('A' <= s[i] <= 'Z')
  }

  /** Lower-casing leaves a string without upper-case letters unchanged. */
  lemma ToLowerOfLowerCase(s: string)
    requires IsLowerCase(s)
    ensures ToLower(s) == s
  {
  }

  /** `s.Contains(t)`: `t` occurs in `s` at some position. */
  predicate Contains(s: string, t: string)
    decreases |s|
  {
    t <= s || (|s| > 0 && Contains(s[1..], t))
  }

  /** Every suffix of a string occurs in it. */
  lemma {:induction false} ContainsSuffix(s: string, k: nat)
    requires k <= |s|
    ensures Contains(s, s[k..])
    decreases k
  {
    if k > 0 {
      ContainsSuffix(s[1..], k - 1);
      assert s[1..][k - 1..] == s[k..];
    }
  }

  /** Every character of a string that occurs in `s` is a character of `s`. */
  lemma {:induction false} ContainedCharsOccur(s: string, t: string, i: nat)
    requires Contains(s, t) && i < |t|
    ensures t[i] in s
    decreases |s|
  {
    if t <= s {
      assert s[i] == t[i];
    } else {
      ContainedCharsOccur(s[1..], t, i);
      assert t[i] in s[1..];
    }
  }

  /** The directory separators `Path.GetExtension` stops at. */
  predicate IsDirectorySeparator(c: char) {
    c == '/' || c == '\\'
  }

  /** No dot and no directory separator anywhere in `s`. */
  predicate NoDotOrSeparator(s: string) {
    forall m :: 0 <= m < |s| ==> s[m] != '.' && !IsDirectorySeparator(s[m])
  }

  /**
   * `Path.GetExtension(path)`: the suffix that starts at the last '.' that
   * has no directory separator after it, or "" when there is no such dot or
   * when that dot is the last character of the path.
   */
  function GetExtension(path: string): (ext: string)
    ensures ext != "" ==>
      && 2 <= |ext| <= |path|
      && ext == path[|path| - |ext|..]
      && ext[0] == '.'
      && NoDotOrSeparator(ext[1..])
    ensures ext == "" ==>
      forall j :: 0 <= j < |path| - 1 ==> !(path[j] == '.' && NoDotOrSeparator(path[j + 1..]))
  {
    ExtensionBefore(path, |path|)
  }

  /** Scans `path` backwards from position `i - 1`; `path[i..]` is already known to hold no dot or separator. */
  function ExtensionBefore(path: string, i: nat): (ext: string)
    requires i <= |path|
    requires NoDotOrSeparator(path[i..])
    ensures ext != "" ==>
      && 2 <= |ext| <= |path|
      && ext == path[|path| - |ext|..]
      && ext[0] == '.'
      && NoDotOrSeparator(ext[1..])
    ensures ext == "" ==>
      forall j :: 0 <= j < |path| - 1 ==> !(path[j] == '.' && NoDotOrSeparator(path[j + 1..]))
    decreases i
  {
    if i == 0 then
      assert forall j :: 0 <= j < |path| ==> path[j] == path[0..][j];
      ""
    else if path[i - 1] == '.' then
      if i - 1 != |path| - 1 then
        assert path[i - 1..][1..] == path[i..];
        path[i - 1..]
      else
        ""
    else if IsDirectorySeparator(path[i - 1]) then
      ""
    else
      ExtensionBefore(path, i - 1)
  }

  /** The decimal digit character for `d`. */
  function DigitChar(d: nat): char
    requires d < 10
  {
    ('0' as int + d) as char
  }

  /** The decimal text of a non-negative integer, as C# prints an `int` (no sign, no leading zeros). */
  function Decimal(n: nat): (s: string)
    ensures 1 <= |s|
    ensures n >= 10 ==> 2 <= |s|
    ensures forall i :: 0 <= i < |s| ==> '0' <= s[i] <= '9'
    decreases n
  {
    if n < 10 then [DigitChar(n)] else Decimal(n / 10) + [DigitChar(n % 10)]
  }

  /** Distinct numbers print differently. */
  lemma {:induction false} DecimalInjective(a: nat, b: nat)
    requires Decimal(a) == Decimal(b)
    ensures a == b
    decreases a
  {
    if a >= 10 && b >= 10 {
      var da, db := Decimal(a), Decimal(b);
      assert da[|da| - 1] == DigitChar(a % 10) && db[|db| - 1] == DigitChar(b % 10);
      assert da[..|da| - 1] == Decimal(a / 10);
      assert db[..|db| - 1] == Decimal(b / 10);
      DecimalInjective(a / 10, b / 10);
    } else if a < 10 && b < 10 {
      assert Decimal(a)[0] == DigitChar(a);
    }
  }

  /** `$"{p}:{q}"`. */
  function FormatRatio(p: nat, q: nat): string {
    Decimal(p) + ":" + Decimal(q)
  }

  /** The text "p:q" determines both numbers: the colon can only be where the first number ends. */
  lemma FormatRatioInjective(p: nat, q: nat, p': nat, q': nat)
    requires FormatRatio(p, q) == FormatRatio(p', q')
    ensures p == p' && q == q'
  {
    var a, b, a', b' := Decimal(p), Decimal(q), Decimal(p'), Decimal(q');
    var s := FormatRatio(p, q);
    assert s == a + ":" + b && s == a' + ":" + b';
    assert forall i :: 0 <= i < |a| ==> s[i] == a[i];
    assert forall i :: 0 <= i < |a'| ==> s[i] == a'[i];
    assert s[|a|] == ':' && s[|a'|] == ':';
    assert |a| == |a'|;
    assert a == s[..|a|] == a';
    assert b == s[|a| + 1..] == b';
    DecimalInjective(p, p');
    DecimalInjective(q, q');
  }
}
