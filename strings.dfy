/** String helpers shared by the modules: prefixes, searching, splitting and decimal digits. */
module Strings {
  import opened Wrappers

  predicate StartsWith(s: string, p: string) {
    |p| <= |s| && s[..|p|] == p
  }

  predicate EndsWith(s: string, p: string) {
    |p| <= |s| && s[|s| - |p|..] == p
  }

  /** Python's `c in s` for a single character. */
  predicate Contains(s: string, c: char) {
    exists i :: 0 <= i < |s| && s[i] == c
  }

  /** The text before the first occurrence of `c`, or all of `s` when `c` does not occur:
      Python's `s.split(c)[0]`. */
  function BeforeFirst(s: string, c: char): (r: string)
    ensures |r| <= |s| && s[..|r|] == r
    ensures forall i :: 0 <= i < |r| ==> r[i] != c
    ensures |r| == |s| || s[|r|] == c
  {
    if s == [] then []
    else if s[0] == c then []
    else [s[0]] + BeforeFirst(s[1..], c)
  }

  /** Is `pat` found in `s` at position `i`? */
  predicate OccursAt(s: string, pat: string, i: nat) {
    i + |pat| <= |s| && s[i..i + |pat|] == pat
  }

  /** The position of the first occurrence of a non-empty `pat` in `s`, looking from `from` on. */
  function FindFrom(s: string, pat: string, from: nat): (r: Option<nat>)
    requires pat != []
    decreases |s| - from
    ensures r.Some? ==> from <= r.value && OccursAt(s, pat, r.value)
    ensures r.Some? ==> forall j :: from <= j < r.value ==> !OccursAt(s, pat, j)
    ensures r.None? ==> forall j :: from <= j ==> !OccursAt(s, pat, j)
  {
    if from + |pat| > |s| then None
    else if s[from..from + |pat|] == pat then Some(from)
    else FindFrom(s, pat, from + 1)
  }

  /** Python's `s.split(sep)` for a non-empty separator, as a list of the pieces in order. */
  function Split(s: string, sep: string): (r: seq<string>)
    requires sep != []
    decreases |s|
    ensures |r| >= 1
  {
    match FindFrom(s, sep, 0)
    case None => [s]
    case Some(i) => [s[..i]] + Split(s[i + |sep|..], sep)
  }

  /** The text before the first occurrence of a non-empty `pat`, or all of `s`:
      the first piece of Python's `s.split(pat)`. */
  function UpTo(s: string, pat: string): (r: string)
    requires pat != []
    ensures StartsWith(s, r)
    ensures forall k :: !OccursAt(r, pat, k)
    ensures |r| < |s| ==> OccursAt(s, pat, |r|)
  {
    match FindFrom(s, pat, 0)
    case None => s
    case Some(j) =>
      PrefixOccurrences(s, pat, j);
      s[..j]
  }

  /** An occurrence inside a prefix is an occurrence in the whole string. */
  lemma PrefixOccurrences(s: string, pat: string, j: nat)
    requires j <= |s|
    ensures forall k: nat :: OccursAt(s[..j], pat, k) ==> OccursAt(s, pat, k)
  {
    forall k: nat | OccursAt(s[..j], pat, k) ensures OccursAt(s, pat, k) {
      assert s[..j][k..k + |pat|] == s[k..k + |pat|];
    }
  }

  lemma SplitHead(s: string, sep: string)
    requires sep != []
    ensures Split(s, sep)[0] == UpTo(s, sep)
    ensures |Split(s, sep)| >= 2 <==> FindFrom(s, sep, 0).Some?
  {
  }

  /** The second piece of a split is the text after the first separator, up to the next. */
  lemma SplitSecond(s: string, sep: string)
    requires sep != [] && |Split(s, sep)| >= 2
    ensures FindFrom(s, sep, 0).Some?
    ensures Split(s, sep)[1] == UpTo(s[FindFrom(s, sep, 0).value + |sep|..], sep)
  {
    SplitHead(s, sep);
    var i := FindFrom(s, sep, 0).value;
    var rest := s[i + |sep|..];
    assert Split(s, sep) == [s[..i]] + Split(rest, sep);
    SplitHead(rest, sep);
  }

  /** The text before the last occurrence of `c`: Python's `s.rpartition(c)[0]`
      (empty when `c` does not occur). */
  function BeforeLast(s: string, c: char): (r: string)
    ensures |r| <= |s| && s[..|r|] == r
    ensures |r| < |s| ==> (r == [] && forall i :: 0 <= i < |s| ==> s[i] != c) || s[|r|] == c
    ensures |r| < |s| && s[|r|] == c ==> forall i :: |r| < i < |s| ==> s[i] != c
    ensures Contains(s, c) ==> |r| < |s| && s[|r|] == c
  {
    if s == [] then []
    else if s[|s| - 1] == c then s[..|s| - 1]
    else BeforeLast(s[..|s| - 1], c)
  }

  /** ASCII lower-casing of one character. */
  function LowerChar(c: char): char {
    if 'A' <= c <= 'Z' then (c as int - 'A' as int + 'a' as int) as char else c
  }

  /** Python's `s.lower()` restricted to ASCII letters. */
  function Lower(s: string): (r: string)
    ensures |r| == |s| && forall i :: 0 <= i < |s| ==> r[i] == LowerChar(s[i])
  {
    if s == [] then [] else [LowerChar(s[0])] + Lower(s[1..])
  }

  /** Python's `s.replace(a, b)` for single characters. */
  function ReplaceChar(s: string, a: char, b: char): (r: string)
    ensures |r| == |s|
    ensures forall i :: 0 <= i < |s| ==> r[i] == (if s[i] == a then b else s[i])
  {
    if s == [] then [] else [if s[0] == a then b else s[0]] + ReplaceChar(s[1..], a, b)
  }

  /** Python's `sep.join(parts)`. */
  function Join(parts: seq<string>, sep: string): string {
    if parts == [] then []
    else if |parts| == 1 then parts[0]
    else parts[0] + sep + Join(parts[1..], sep)
  }

  predicate IsDigit(c: char) {
    '0' <= c <= '9'
  }

  function DigitChar(d: nat): (c: char)
    requires d < 10
    ensures IsDigit(c)
  {
    ('0' as int + d) as char
  }

  function DigitValue(c: char): nat
    requires IsDigit(c)
  {
    c as int - '0' as int
  }

  /** The decimal digits of `n`, without leading zeros: Python's `'%d' % n` for n >= 0. */
  function NatToString(n: nat): (r: string)
    decreases n
    ensures |r| >= 1 && forall i :: 0 <= i < |r| ==> IsDigit(r[i])
    ensures |r| > 1 ==> r[0] != '0'
  {
    if n < 10 then [DigitChar(n)] else NatToString(n / 10) + [DigitChar(n % 10)]
  }

  /** `'%d' % n` for any integer. */
  function IntToString(n: int): (r: string)
    ensures |r| >= 1
  {
    if n < 0 then "-" + NatToString(-n) else NatToString(n)
  }

  /** The value of a non-empty string of decimal digits. */
  function ParseNat(s: string): nat
    requires forall i :: 0 <= i < |s| ==> IsDigit(s[i])
    decreases |s|
  {
    if s == [] then 0 else ParseNat(s[..|s| - 1]) * 10 + DigitValue(s[|s| - 1])
  }

  /** Reads back what IntToString wrote. */
  function ParseInt(s: string): Option<int> {
    if |s| >= 2 && s[0] == '-' && forall i :: 1 <= i < |s| ==> IsDigit(s[i]) then
      Some(-(ParseNat(s[1..]) as int))
    else if |s| >= 1 && forall i :: 0 <= i < |s| ==> IsDigit(s[i]) then Some(ParseNat(s))
    else None
  }

  lemma {:induction false} ParseNatToString(n: nat)
    ensures ParseNat(NatToString(n)) == n
  {
    if n >= 10 {
      var s := NatToString(n);
      assert s[..|s| - 1] == NatToString(n / 10);
      ParseNatToString(n / 10);
    }
  }

  /** A minus sign before a non-empty digit string reads back as the negated value. */
  lemma ParseNegative(s: string)
    requires |s| >= 1 && forall i :: 0 <= i < |s| ==> IsDigit(s[i])
    ensures ParseInt("-" + s) == Some(-(ParseNat(s) as int))
  {
    var t := "-" + s;
    assert t[1..] == s;
    assert forall i :: 1 <= i < |t| ==> t[i] == s[i - 1];
  }

  /** A non-empty digit string reads back as its value. */
  lemma ParseNonNegative(s: string)
    requires |s| >= 1 && forall i :: 0 <= i < |s| ==> IsDigit(s[i])
    ensures ParseInt(s) == Some(ParseNat(s) as int)
  {
    assert IsDigit(s[0]);
  }

  /** Decimal formatting of integers is a bijection onto its image. */
  lemma IntToStringRoundTrip(n: int)
    ensures ParseInt(IntToString(n)) == Some(n)
  {
    if n < 0 {
      var digits := NatToString(-n);
      ParseNatToString(-n);
      ParseNegative(digits);
      assert IntToString(n) == "-" + digits;
    } else {
      ParseNatToString(n);
      ParseNonNegative(NatToString(n));
    }
  }

  lemma IntToStringInjective(m: int, n: int)
    ensures IntToString(m) == IntToString(n) <==> m == n
  {
    if IntToString(m) == IntToString(n) {
      IntToStringRoundTrip(m);
      IntToStringRoundTrip(n);
    }
  }
}
