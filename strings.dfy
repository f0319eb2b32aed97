/** Ordinal string operations the source takes from the runtime's span API (IndexOf, LastIndexOf,
  * EndsWith, StartsWith, Trim, TrimStart(chars), TrimEnd(char)). */
module Strings {
  import CharClass

  predicate StartsWith(s: string, prefix: string)
  {
    |prefix| <= |s| && s[..|prefix|] == prefix
  }

  predicate EndsWith(s: string, suffix: string)
  {
    |suffix| <= |s| && s[|s| - |suffix|..] == suffix
  }

  /** `sep` occurs in `s` starting at index `i`. */
  predicate OccursAt(s: string, sep: string, i: int)
  {
    0 <= i && i + |sep| <= |s| && s[i..i + |sep|] == sep
  }

  /** The first ordinal occurrence of `sep` in `s` at or after `from`, or -1. */
  function IndexOfFrom(s: string, sep: string, from: nat): (r: int)
    decreases |s| - from
    ensures r == -1 || (from <= r && OccursAt(s, sep, r))
    ensures r == -1 ==> forall k :: from <= k ==> !OccursAt(s, sep, k)
    ensures r != -1 ==> forall k :: from <= k < r ==> !OccursAt(s, sep, k)
  {
    if from + |sep| > |s| then -1
    else if s[from..from + |sep|] == sep then from
    else IndexOfFrom(s, sep, from + 1)
  }

  /** The last ordinal occurrence of `sep` in `s[..end]`, or -1. */
  function LastIndexOfBefore(s: string, sep: string, end: nat): (r: int)
    requires end <= |s|
    ensures r == -1 || (OccursAt(s, sep, r) && r + |sep| <= end)
    ensures r == -1 ==> forall k :: 0 <= k && k + |sep| <= end ==> !OccursAt(s, sep, k)
    ensures r != -1 ==> forall k :: r < k && k + |sep| <= end ==> !OccursAt(s, sep, k)
  {
    if end < |sep| then -1
    else if s[end - |sep|..end] == sep then end - |sep|
    else LastIndexOfBefore(s, sep, end - 1)
  }

  /** `span.LastIndexOf(sep)`: the last ordinal occurrence of `sep` in `s`, or -1. */
  function LastIndexOf(s: string, sep: string): (r: int)
    ensures r == -1 || OccursAt(s, sep, r)
    ensures r == -1 ==> forall k :: !OccursAt(s, sep, k)
    ensures r != -1 ==> forall k :: r < k ==> !OccursAt(s, sep, k)
  {
    LastIndexOfBefore(s, sep, |s|)
  }

  /** A suffix ends with the last character of the text. */
  lemma EndsWithLastChar(s: string, suffix: string)
    requires |suffix| > 0
    ensures EndsWith(s, suffix) ==> suffix[|suffix| - 1] == s[|s| - 1]
  {
    if EndsWith(s, suffix) {
      assert s[|s| - |suffix|..][|suffix| - 1] == s[|s| - 1];
    }
  }

  /** `parts` joined with `sep` between consecutive parts. */
  function Join(parts: seq<string>, sep: string): string
  {
    if |parts| == 0 then ""
    else if |parts| == 1 then parts[0]
    else parts[0] + sep + Join(parts[1..], sep)
  }

  /** `parts` joined by `sep`, preceded by one more `sep` when the parts do not start the run. */
  function JoinFrom(parts: seq<string>, sep: string, first: bool): string
  {
    if first || |parts| == 0 then Join(parts, sep) else sep + Join(parts, sep)
  }

  lemma JoinFromStep(parts: seq<string>, sep: string, first: bool)
    requires |parts| > 0
    ensures JoinFrom(parts, sep, first) == ((if first then "" else sep) + parts[0]) + JoinFrom(parts[1..], sep, false)
  {
  }

  /** Three adjacent slices of `s` make up the slice from the first bound to the end. */
  lemma AdjacentSlices(s: string, a: nat, b: nat, c: nat)
    requires a <= b <= c <= |s|
    ensures s[a..b] + s[b..c] + s[c..] == s[a..]
  {
    assert s[a..] == s[a..b] + s[b..];
    assert s[b..] == s[b..c] + s[c..];
  }

  lemma StringsOfTail(a: string, b: string, c: string)
    ensures (a + b) + c == a + (b + c)
  {
  }

  /** The number of leading characters of `s` that satisfy `p`. */
  function LeadingCount(s: string, p: char -> bool): (n: nat)
    ensures n <= |s|
    ensures forall i :: 0 <= i < n ==> p(s[i])
    ensures n < |s| ==> !p(s[n])
  {
    if |s| == 0 || !p(s[0]) then 0 else 1 + LeadingCount(s[1..], p)
  }

  /** The leading run of `p` characters ends at the first character `p` rejects. */
  lemma {:induction false} LeadingCountAt(s: string, p: char -> bool, n: nat)
    requires n <= |s|
    requires forall i :: 0 <= i < n ==> p(s[i])
    requires n == |s| || !p(s[n])
    ensures LeadingCount(s, p) == n
  {
    if n > 0 {
      LeadingCountAt(s[1..], p, n - 1);
    }
  }

  /** The number of trailing characters of `s` that satisfy `p`. */
  function TrailingCount(s: string, p: char -> bool): (n: nat)
    ensures n <= |s|
    ensures forall i :: |s| - n <= i < |s| ==> p(s[i])
    ensures n < |s| ==> !p(s[|s| - n - 1])
  {
    if |s| == 0 || !p(s[|s| - 1]) then 0 else 1 + TrailingCount(s[..|s| - 1], p)
  }

  function TrimStartBy(s: string, p: char -> bool): (r: string)
    ensures |r| <= |s| && s[|s| - |r|..] == r
    ensures |r| > 0 ==> !p(r[0])
    ensures forall i :: 0 <= i < |s| - |r| ==> p(s[i])
  {
    s[LeadingCount(s, p)..]
  }

  function TrimEndBy(s: string, p: char -> bool): (r: string)
    ensures |r| <= |s| && s[..|r|] == r
    ensures |r| > 0 ==> !p(r[|r| - 1])
    ensures forall i :: |r| <= i < |s| ==> p(s[i])
  {
    s[..|s| - TrailingCount(s, p)]
  }

  /** What TrimEndBy keeps ends at the last character `p` rejects. */
  lemma TrimEndAt(s: string, p: char -> bool, n: nat)
    requires n <= |s|
    requires forall i :: n <= i < |s| ==> p(s[i])
    requires n == 0 || !p(s[n - 1])
    ensures TrimEndBy(s, p) == s[..n]
  {
    var t := TrailingCount(s, p);
    assert |s| - t == n;
  }

  /** `span.Trim()`: leading and trailing (ASCII) whitespace removed. */
  function Trim(s: string): (r: string)
    ensures |r| > 0 ==> !CharClass.IsWhiteSpace(r[0]) && !CharClass.IsWhiteSpace(r[|r| - 1])
  {
    TrimEndBy(TrimStartBy(s, CharClass.IsWhiteSpace), CharClass.IsWhiteSpace)
  }

  /** Whether `s` consists only of (ASCII) whitespace, or is empty — string.IsNullOrWhiteSpace on a present string. */
  predicate IsBlank(s: string)
  {
    forall i :: 0 <= i < |s| ==> CharClass.IsWhiteSpace(s[i])
  }

  /** `StringComparer.OrdinalIgnoreCase`: the same length, and the same characters once both are
    * upper-cased. */
  predicate EqualsIgnoreCase(a: string, b: string)
  {
    |a| == |b| && forall i :: 0 <= i < |a| ==> CharClass.ToUpper(a[i]) == CharClass.ToUpper(b[i])
  }

  /** Ignore-case equality is an equivalence, so it can key a dictionary. */
  lemma IgnoreCaseIsEquivalence(a: string, b: string, c: string)
    ensures EqualsIgnoreCase(a, a)
    ensures EqualsIgnoreCase(a, b) ==> EqualsIgnoreCase(b, a)
    ensures EqualsIgnoreCase(a, b) && EqualsIgnoreCase(b, c) ==> EqualsIgnoreCase(a, c)
  {
  }
}
