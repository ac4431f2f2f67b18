/**
 The slice of JavaScript value semantics the authentication flows rely on:
 optional values (`undefined`/`null`), truthiness of strings, the `||`
 default idiom, and the string operations the flows call
 (`includes`, `indexOf`-based `split(c)[0]` and `replace`, and the decimal
 rendering of a non-negative integer).
 */
module Js {

  /** A value that may be missing (`undefined` or `null` in the source). */
  datatype Option<+T> = None | Some(value: T)

  /** A string is truthy iff it is present and not the empty string. */
  predicate Truthy(v: Option<string>)
  {
    v.Some? && v.value != ""
  }

  /** `v || d` for an optional string `v`. */
  function OrElse(v: Option<string>, d: string): string
  {
    if Truthy(v) then v.value else d
  }

  /** String coercion of an optional string, as template literals and
      `+` perform it: a missing value renders as "undefined". */
  function ToJsString(v: Option<string>): string
  {
    match v
    case Some(s) => s
    case None => "undefined"
  }

  // ---------------------------------------------------------------------
  // Substring search: `s.includes(t)`

  predicate StartsWith(s: string, t: string)
  {
    |t| <= |s| && s[..|t|] == t
  }

  /** `t` occurs in `s` at some position: the meaning of `s.includes(t)`. */
  ghost predicate Occurs(s: string, t: string)
  {
    exists i :: 0 <= i <= |s| && StartsWith(s[i..], t)
  }

  /** `s.includes(t)`, scanning left to right. */
  function Includes(s: string, t: string): bool
    decreases |s|
  {
    if StartsWith(s, t) then true
    else if |s| == 0 then false
    else Includes(s[1..], t)
  }

  lemma {:induction false} IncludesIsOccurs(s: string, t: string)
    ensures Includes(s, t) <==> Occurs(s, t)
    decreases |s|
  {
    if StartsWith(s, t) {
      assert s[0..] == s;
    } else if |s| == 0 {
      forall i | 0 <= i <= |s|
        ensures !StartsWith(s[i..], t)
      {
        assert s[i..] == s;
      }
    } else {
      IncludesIsOccurs(s[1..], t);
      if Occurs(s, t) {
        var i :| 0 <= i <= |s| && StartsWith(s[i..], t);
        assert i != 0 by { assert s[0..] == s; }
        assert s[1..][i - 1..] == s[i..];
      }
      if Occurs(s[1..], t) {
        var j :| 0 <= j <= |s[1..]| && StartsWith(s[1..][j..], t);
        assert s[1..][j..] == s[j + 1..];
      }
    }
  }

  /** A text that lacks one of the characters of `t` does not contain `t`. */
  lemma {:induction false} NotIncludesMissingChar(s: string, t: string, k: nat)
    requires k < |t| && t[k] !in s
    ensures !Includes(s, t)
  {
    IncludesIsOccurs(s, t);
    forall i | 0 <= i <= |s|
      ensures !StartsWith(s[i..], t)
    {
      if |t| <= |s[i..]| {
        assert s[i..][k] == s[i + k];
        assert s[i + k] != t[k];
      }
    }
  }

  // ---------------------------------------------------------------------
  // First occurrence of a character

  /** `s.indexOf(c)`, with -1 rendered as `None`. */
  function IndexOf(s: string, c: char): (r: Option<nat>)
    ensures r.None? <==> c !in s
    ensures r.Some? ==> r.value < |s| && s[r.value] == c && c !in s[..r.value]
    decreases |s|
  {
    if |s| == 0 then None
    else if s[0] == c then Some(0)
    else
      match IndexOf(s[1..], c)
      case None => None
      case Some(i) =>
        assert s[..i + 1] == [s[0]] + s[1..][..i];
        Some(i + 1)
  }

  /** `s.split(c)[0]`: the part of `s` before the first `c`, or all of `s`
      when `c` does not occur. */
  function BeforeFirst(s: string, c: char): (r: string)
    ensures c !in r
    ensures r <= s
    ensures |r| < |s| ==> s[|r|] == c
  {
    match IndexOf(s, c)
    case None => s
    case Some(i) => s[..i]
  }

  /** `s.replace(c, rep)` for a one-character pattern and a replacement
      without `$` patterns: only the first occurrence is replaced. */
  function ReplaceFirst(s: string, c: char, rep: string): (r: string)
    ensures c !in s ==> r == s
  {
    match IndexOf(s, c)
    case None => s
    case Some(i) => s[..i] + rep + s[i + 1..]
  }

  /** Splitting at the first `c` and putting it back gives `s`. */
  lemma SplitAtFirst(s: string, c: char)
    requires c in s
    ensures s == BeforeFirst(s, c) + [c] + s[|BeforeFirst(s, c)| + 1..]
  {
    var p := BeforeFirst(s, c);
    assert s == s[..|p|] + [s[|p|]] + s[|p| + 1..];
  }

  /** The replacement keeps the text before and after the first `c` and puts
      `rep` in its place. */
  lemma ReplaceFirstShape(s: string, c: char, rep: string)
    requires c in s
    ensures ReplaceFirst(s, c, rep)
            == BeforeFirst(s, c) + rep + s[|BeforeFirst(s, c)| + 1..]
  {
  }

  // ---------------------------------------------------------------------
  // Decimal rendering of a non-negative integer: `String(n)` / `${n}`

  predicate IsDigit(c: char)
  {
    '0' <= c <= '9'
  }

  function DigitChar(d: nat): (c: char)
    requires d < 10
    ensures IsDigit(c)
  {
    ('0' as int + d) as char
  }

  /** Decimal digits of `n`, most significant first, no leading zeros. */
  function Decimal(n: nat): (r: string)
    ensures |r| >= 1
    ensures forall i :: 0 <= i < |r| ==> IsDigit(r[i])
    ensures |r| > 1 ==> r[0] != '0'
    decreases n
  {
    if n < 10 then [DigitChar(n)]
    else Decimal(n / 10) + [DigitChar(n % 10)]
  }

  function DigitValue(c: char): nat
    requires IsDigit(c)
  {
    c as int - '0' as int
  }

  /** The number a string of decimal digits denotes. */
  function DecimalValue(s: string): nat
    requires forall i :: 0 <= i < |s| ==> IsDigit(s[i])
  {
    if |s| == 0 then 0
    else DecimalValue(s[..|s| - 1]) * 10 + DigitValue(s[|s| - 1])
  }

  /** Reading the rendering back gives the number: the rendering loses
      nothing, so distinct numbers render differently. */
  lemma {:induction false} DecimalRoundTrip(n: nat)
    ensures DecimalValue(Decimal(n)) == n
    decreases n
  {
    if n >= 10 {
      DecimalRoundTrip(n / 10);
      var r := Decimal(n);
      assert r[..|r| - 1] == Decimal(n / 10);
    }
  }
}
