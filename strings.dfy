/** The string operations the plugins rely on: `str.startswith`, `in`,
    `str.replace`, `str.strip`, `str.split`, `int(...)`, `float(...)` and
    `str(n)`, on ASCII text. */
module Strings {
  import opened Base

  predicate IsDigit(c: char) {
    '0' <= c <= '9'
  }

  predicate AllDigits(s: string) {
    forall i :: 0 <= i < |s| ==> IsDigit(s[i])
  }

  function Pow10Nat(n: nat): (r: nat)
    ensures r >= 1
  {
    if n == 0 then 1 else 10 * Pow10Nat(n - 1)
  }

  /** The number a string of decimal digits denotes ("" denotes 0). */
  function DigitsValue(s: string): nat
    requires AllDigits(s)
  {
    if s == [] then 0 else 10 * DigitsValue(s[..|s| - 1]) + (s[|s| - 1] as int - '0' as int)
  }

  /** `str(n)` for a natural number: its shortest decimal digits. */
  function NatToString(n: nat): (s: string)
    ensures s != [] && AllDigits(s)
    ensures DigitsValue(s) == n
    ensures n > 0 ==> s[0] != '0'
  {
    var d := ['0' + (n % 10) as char];
    if n < 10 then d
    else
      var s := NatToString(n / 10) + d;
      assert s[..|s| - 1] == NatToString(n / 10);
      s
  }

  /** `str(n)` for an integer. */
  function IntToString(n: int): string {
    if n < 0 then "-" + NatToString(-n) else NatToString(n)
  }

  /** `int(s)` on an optionally signed string of ASCII digits; None where
      Python raises ValueError. */
  function ParseInt(s: string): Option<int> {
    if |s| > 1 && s[0] == '-' && AllDigits(s[1..]) then Some(-(DigitsValue(s[1..]) as int))
    else if |s| > 1 && s[0] == '+' && AllDigits(s[1..]) then Some(DigitsValue(s[1..]))
    else if s != [] && AllDigits(s) then Some(DigitsValue(s))
    else None
  }

  /** Rendering an integer and reading it back gives the integer. */
  lemma ParseIntRoundTrip(n: int)
    ensures ParseInt(IntToString(n)) == Some(n)
  {
    if n < 0 {
      var s := IntToString(n);
      assert s[1..] == NatToString(-n);
    }
  }

  /** Index of the first occurrence of `c`. */
  function IndexOf(s: string, c: char): (r: Option<nat>)
    ensures r.Some? ==> r.value < |s| && s[r.value] == c && c !in s[..r.value]
    ensures r.None? ==> c !in s
  {
    if s == [] then None
    else if s[0] == c then Some(0)
    else
      match IndexOf(s[1..], c)
      case None => None
      case Some(k) => assert s[..k + 1] == [s[0]] + s[1..][..k]; Some(k + 1)
  }

  /** `float(s)` on an optionally signed decimal with at most one '.' and at
      least one digit ("5", "-0.5", "5.", ".5"); None where Python raises. */
  function ParseReal(s: string): Option<real> {
    if |s| > 0 && s[0] == '-' then
      match ParseUnsignedReal(s[1..])
      case Some(x) => Some(-x)
      case None => None
    else if |s| > 0 && s[0] == '+' then ParseUnsignedReal(s[1..])
    else ParseUnsignedReal(s)
  }

  function ParseUnsignedReal(s: string): Option<real> {
    match IndexOf(s, '.')
    case None => if s != [] && AllDigits(s) then Some(DigitsValue(s) as real) else None
    case Some(k) =>
      var whole, frac := s[..k], s[k + 1..];
      if (whole != [] || frac != []) && AllDigits(whole) && AllDigits(frac)
      then Some(DigitsValue(whole) as real + DigitsValue(frac) as real / Pow10Nat(|frac|) as real)
      else None
  }

  /** `float` and `int` agree on every string `int` accepts. */
  lemma ParseRealExtendsParseInt(s: string)
    requires ParseInt(s).Some?
    ensures ParseReal(s) == Some(ParseInt(s).value as real)
  {
    if |s| > 1 && (s[0] == '-' || s[0] == '+') {
      assert '.' !in s[1..] by {
        assert forall i :: 0 <= i < |s[1..]| ==> IsDigit(s[1..][i]);
      }
    } else {
      assert '.' !in s by {
        assert forall i :: 0 <= i < |s| ==> IsDigit(s[i]);
      }
    }
  }

  /** `s.startswith(p)`. */
  predicate StartsWith(s: string, p: string) {
    |p| <= |s| && s[..|p|] == p
  }

  /** `sub in s`: `sub` starts at some position of `s`. */
  predicate Contains(s: string, sub: string) {
    StartsWith(s, sub) || (s != [] && Contains(s[1..], sub))
  }

  /** `s.replace(pat, rep)`: every occurrence, scanning left to right
      without overlap. */
  function ReplaceAll(s: string, pat: string, rep: string): string
    requires pat != []
  {
    if |s| < |pat| then s
    else if s[..|pat|] == pat then rep + ReplaceAll(s[|pat|..], pat, rep)
    else [s[0]] + ReplaceAll(s[1..], pat, rep)
  }

  /** A string without the pattern is left as it is. */
  lemma {:induction false} ReplaceAllAbsent(s: string, pat: string, rep: string)
    requires pat != [] && !Contains(s, pat)
    ensures ReplaceAll(s, pat, rep) == s
  {
    if |s| >= |pat| {
      ReplaceAllAbsent(s[1..], pat, rep);
    }
  }

  /** A leading occurrence becomes the replacement. */
  lemma ReplaceAllPrefix(pat: string, s: string, rep: string)
    requires pat != []
    ensures ReplaceAll(pat + s, pat, rep) == rep + ReplaceAll(s, pat, rep)
  {
    assert (pat + s)[..|pat|] == pat;
    assert (pat + s)[|pat|..] == s;
  }

  /** `s.lstrip(c)`: drops every leading `c`. */
  function StripLeft(s: string, c: char): (r: string)
    ensures |r| <= |s| && r == s[|s| - |r|..]
    ensures forall i :: 0 <= i < |s| - |r| ==> s[i] == c
    ensures r == [] || r[0] != c
  {
    if s != [] && s[0] == c then StripLeft(s[1..], c) else s
  }

  /** `s.rstrip(c)`: drops every trailing `c`. */
  function StripRight(s: string, c: char): (r: string)
    ensures |r| <= |s| && r == s[..|r|]
    ensures forall i :: |r| <= i < |s| ==> s[i] == c
    ensures r == [] || r[|r| - 1] != c
  {
    if s != [] && s[|s| - 1] == c then StripRight(s[..|s| - 1], c) else s
  }

  /** `s.strip(c)`. */
  function Strip(s: string, c: char): string {
    StripRight(StripLeft(s, c), c)
  }

  /** Number of occurrences of `c` in `s`. */
  function Count(s: string, c: char): nat {
    if s == [] then 0 else (if s[0] == c then 1 else 0) + Count(s[1..], c)
  }

  /** `s.split(c)` for a one-character separator: one more piece than
      there are separators, and no piece contains one. */
  function Split(s: string, c: char): (parts: seq<string>)
    ensures |parts| == Count(s, c) + 1
    ensures forall i :: 0 <= i < |parts| ==> c !in parts[i]
  {
    if s == [] then [[]]
    else
      var rest := Split(s[1..], c);
      if s[0] == c then [[]] + rest else [[s[0]] + rest[0]] + rest[1..]
  }

  /** `c.join(parts)`. */
  function Join(parts: seq<string>, c: char): string
    requires parts != []
  {
    if |parts| == 1 then parts[0] else parts[0] + [c] + Join(parts[1..], c)
  }

  /** Joining the pieces of a split gives back the string. */
  lemma {:induction false} JoinSplit(s: string, c: char)
    ensures Join(Split(s, c), c) == s
  {
    if s != [] {
      JoinSplit(s[1..], c);
      var rest := Split(s[1..], c);
      if s[0] == c {
        assert Split(s, c)[1..] == rest;
      } else if |rest| == 1 {
        assert Join(Split(s, c), c) == [s[0]] + rest[0];
      } else {
        assert Split(s, c)[1..] == rest[1..];
        assert Join(rest, c) == rest[0] + [c] + Join(rest[1..], c);
      }
    }
  }

  /** A string without the separator splits into itself. */
  lemma {:induction false} SplitWithoutSeparator(s: string, c: char)
    requires c !in s
    ensures Split(s, c) == [s]
  {
    if s != [] {
      SplitWithoutSeparator(s[1..], c);
      assert [s[0]] + s[1..] == s;
    }
  }

  /** `(a + c + b).split(c)` is `[a, b]` when neither part holds the separator. */
  lemma {:induction false} SplitAroundSeparator(a: string, b: string, c: char)
    requires c !in a && c !in b
    ensures Split(a + [c] + b, c) == [a, b]
  {
    var s := a + [c] + b;
    if a == [] {
      assert s[1..] == b;
      SplitWithoutSeparator(b, c);
    } else {
      assert s[0] == a[0] && s[1..] == a[1..] + [c] + b;
      SplitAroundSeparator(a[1..], b, c);
      assert [a[0]] + a[1..] == a;
    }
  }
}
