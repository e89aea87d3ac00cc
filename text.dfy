/**
 * String primitives of Python's `str` that the converter relies on:
 * `strip`, `lower`, `startswith`, `find`, `replace`, `in`, `join`, and the
 * decimal rendering of integers. Strings are sequences of Unicode scalar values.
 */
module Text {
  import opened Wrappers

  /** Python's `str.isspace()` for one code point: the characters `str.strip()` removes. */
  predicate IsSpace(c: char) {
    var n := c as int;
    (9 <= n <= 13) || (28 <= n <= 32) || n == 0x85 || n == 0xA0 || n == 0x1680
    || (0x2000 <= n <= 0x200A) || n == 0x2028 || n == 0x2029 || n == 0x202F
    || n == 0x205F || n == 0x3000
  }

  /** Every character is whitespace (the empty string included). */
  predicate IsBlank(s: string) {
    forall i :: 0 <= i < |s| ==> IsSpace(s[i])
  }

  /** Neither end is whitespace: what `strip()` returns. */
  predicate IsStripped(s: string) {
    s == [] || (!IsSpace(s[0]) && !IsSpace(s[|s| - 1]))
  }

  /** The first index at or after `i` that is not whitespace; `|s|` if none. */
  function SkipSpaces(s: string, i: nat): (r: nat)
    requires i <= |s|
    ensures i <= r <= |s|
    ensures forall k :: i <= k < r ==> IsSpace(s[k])
    ensures r < |s| ==> !IsSpace(s[r])
    decreases |s| - i
  {
    if i < |s| && IsSpace(s[i]) then SkipSpaces(s, i + 1) else i
  }

  /** The least index `r` in `lo..j` such that `s[r..j]` is all whitespace. */
  function BackSpaces(s: string, lo: nat, j: nat): (r: nat)
    requires lo <= j <= |s|
    ensures lo <= r <= j
    ensures forall k :: r <= k < j ==> IsSpace(s[k])
    ensures r > lo ==> !IsSpace(s[r - 1])
    decreases j - lo
  {
    if j > lo && IsSpace(s[j - 1]) then BackSpaces(s, lo, j - 1) else j
  }

  /** Where `s.strip()` starts: after the leading whitespace. */
  function StripStart(s: string): (a: nat)
    ensures a <= |s|
    ensures forall k :: 0 <= k < a ==> IsSpace(s[k])
    ensures a < |s| ==> !IsSpace(s[a])
  {
    SkipSpaces(s, 0)
  }

  /** Where `s.strip()` ends: before the trailing whitespace. */
  function StripEnd(s: string): (b: nat)
    ensures StripStart(s) <= b <= |s|
    ensures forall k :: b <= k < |s| ==> IsSpace(s[k])
    ensures b > StripStart(s) ==> !IsSpace(s[b - 1])
  {
    BackSpaces(s, StripStart(s), |s|)
  }

  /** Python's `s.strip()`: the slice of `s` left after removing whitespace at both ends. */
  function Strip(s: string): (r: string)
    ensures IsStripped(r)
    ensures r == s[StripStart(s)..StripEnd(s)]
  {
    s[StripStart(s)..StripEnd(s)]
  }

  lemma StrippedIsFixed(s: string)
    requires IsStripped(s)
    ensures Strip(s) == s
  {
    if s != [] {
      assert StripStart(s) == 0;
      assert StripEnd(s) == |s|;
    }
  }

  /** `strip()` is idempotent. */
  lemma StripIdempotent(s: string)
    ensures Strip(Strip(s)) == Strip(s)
  {
    StrippedIsFixed(Strip(s));
  }

  /** `not s.strip()` holds exactly for the all-whitespace strings. */
  lemma StripEmptyIffBlank(s: string)
    ensures Strip(s) == [] <==> IsBlank(s)
  {
    var a, b := StripStart(s), StripEnd(s);
    if IsBlank(s) {
      assert a == |s|;
    }
    if Strip(s) == [] {
      assert a == b;
    }
  }

  /** Whitespace around a stripped string is exactly what `strip()` removes. */
  lemma StripFrame(w1: string, t: string, w2: string)
    requires IsBlank(w1) && IsBlank(w2) && IsStripped(t)
    ensures Strip(w1 + t + w2) == t
  {
    var x := w1 + t + w2;
    forall k | 0 <= k < |w1| ensures x[k] == w1[k] { }
    forall k | |w1| + |t| <= k < |x| ensures x[k] == w2[k - |w1| - |t|] { }
    if t == [] {
      assert StripStart(x) == |x|;
    } else {
      assert x[|w1|] == t[0] && x[|w1| + |t| - 1] == t[|t| - 1];
      assert StripStart(x) == |w1|;
      assert StripEnd(x) == |w1| + |t|;
      assert x[|w1|..|w1| + |t|] == t;
    }
  }

  /** ASCII case folding; other characters are kept (see README, Left out). */
  function LowerChar(c: char): char {
    if 'A' <= c <= 'Z' then (c as int + 32) as char else c
  }

  /** Python's `s.lower()` on the ASCII range. */
  function Lower(s: string): (r: string)
    ensures |r| == |s|
    ensures forall i :: 0 <= i < |s| ==> r[i] == LowerChar(s[i])
  {
    seq(|s|, i requires 0 <= i < |s| => LowerChar(s[i]))
  }

  /** Folding case never turns whitespace into non-whitespace or back. */
  lemma LowerKeepsSpace(c: char)
    ensures IsSpace(LowerChar(c)) <==> IsSpace(c)
  {
  }

  /** `s.strip().lower() == s.lower().strip()`. */
  lemma LowerStrip(s: string)
    ensures Lower(Strip(s)) == Strip(Lower(s))
  {
    var ls := Lower(s);
    forall k | 0 <= k < |s| ensures IsSpace(ls[k]) <==> IsSpace(s[k]) {
      LowerKeepsSpace(s[k]);
    }
    assert StripStart(ls) == StripStart(s);
    assert StripEnd(ls) == StripEnd(s);
    LowerSlice(s, StripStart(s), StripEnd(s));
  }

  lemma LowerSlice(s: string, i: nat, j: nat)
    requires i <= j <= |s|
    ensures Lower(s[i..j]) == Lower(s)[i..j]
  {
  }

  predicate IsDigit(c: char) {
    '0' <= c <= '9'
  }

  predicate StartsWithAt(s: string, i: nat, prefix: string) {
    i + |prefix| <= |s| && forall k :: 0 <= k < |prefix| ==> s[i + k] == prefix[k]
  }

  /** Python's `s.startswith(prefix)`. */
  predicate StartsWith(s: string, prefix: string) {
    StartsWithAt(s, 0, prefix)
  }

  /** The first index at or after `from` holding `c`, or `|s|` when there is none. */
  function FindChar(s: string, c: char, from: nat): (r: nat)
    requires from <= |s|
    ensures from <= r <= |s|
    ensures forall k :: from <= k < r ==> s[k] != c
    ensures r < |s| ==> s[r] == c
    decreases |s| - from
  {
    if from == |s| || s[from] == c then from else FindChar(s, c, from + 1)
  }

  /** The end of the run of ASCII digits starting at `from`. */
  function DigitsEnd(s: string, from: nat): (r: nat)
    requires from <= |s|
    ensures from <= r <= |s|
    ensures forall k :: from <= k < r ==> IsDigit(s[k])
    ensures r < |s| ==> !IsDigit(s[r])
    decreases |s| - from
  {
    if from == |s| || !IsDigit(s[from]) then from else DigitsEnd(s, from + 1)
  }

  /** The contract of `FindChar` pins its value down. */
  lemma FindCharUnique(s: string, c: char, from: nat, r: nat)
    requires from <= r <= |s|
    requires forall k :: from <= k < r ==> s[k] != c
    requires r < |s| ==> s[r] == c
    ensures FindChar(s, c, from) == r
  {
  }

  /** The contract of `DigitsEnd` pins its value down. */
  lemma DigitsEndUnique(s: string, from: nat, r: nat)
    requires from <= r <= |s|
    requires forall k :: from <= k < r ==> IsDigit(s[k])
    requires r < |s| ==> !IsDigit(s[r])
    ensures DigitsEnd(s, from) == r
  {
  }

  /** Python's `s.find(pat, from)`, `None` for -1. */
  function FindSub(s: string, pat: string, from: nat): (r: Option<nat>)
    requires from <= |s|
    ensures r.Some? ==> from <= r.value && StartsWithAt(s, r.value, pat)
    ensures r.Some? ==> forall q :: from <= q < r.value ==> !StartsWithAt(s, q, pat)
    ensures r.None? ==> forall q :: from <= q <= |s| ==> !StartsWithAt(s, q, pat)
    decreases |s| - from
  {
    if StartsWithAt(s, from, pat) then Some(from)
    else if from == |s| then None
    else FindSub(s, pat, from + 1)
  }

  /** Python's `sub in s`. */
  predicate Contains(s: string, sub: string) {
    FindSub(s, sub, 0).Some?
  }

  /** Python's `s.replace(pat, rep, 1)`. */
  function ReplaceFirst(s: string, pat: string, rep: string): (r: string)
  {
    match FindSub(s, pat, 0)
    case None => s
    case Some(i) => s[..i] + rep + s[i + |pat|..]
  }

  /** Python's `s.replace(pat, rep)`: every non-overlapping occurrence, left to right. */
  function ReplaceAll(s: string, pat: string, rep: string): (r: string)
    decreases |s|
  {
    if pat == [] then Interleave(s, rep)
    else
      match FindSub(s, pat, 0)
      case None => s
      case Some(i) => s[..i] + rep + ReplaceAll(s[i + |pat|..], pat, rep)
  }

  /** `s.replace("", rep)` puts `rep` before every character and at the end. */
  function Interleave(s: string, rep: string): string
    decreases |s|
  {
    if s == [] then rep else rep + [s[0]] + Interleave(s[1..], rep)
  }

  /** A pattern that does not occur is left alone by `replace`. */
  lemma {:induction false} ReplaceAllAbsent(s: string, pat: string, rep: string)
    requires pat != [] && !Contains(s, pat)
    ensures ReplaceAll(s, pat, rep) == s
  {
  }

  function DigitChar(d: nat): char
    requires d < 10
  {
    "0123456789"[d]
  }

  function NatToString(n: nat): (r: string)
    ensures |r| >= 1 && forall i :: 0 <= i < |r| ==> IsDigit(r[i])
    decreases n
  {
    if n < 10 then [DigitChar(n)] else NatToString(n / 10) + [DigitChar(n % 10)]
  }

  /** Python's `str(i)` for an integer. */
  function IntToString(i: int): (r: string)
    ensures r != [] && !IsSpace(r[0])
  {
    if i < 0 then "-" + NatToString(-i) else NatToString(i)
  }

  /** Python's `sep.join(parts)`. */
  function Join(sep: string, parts: seq<string>): string
    decreases |parts|
  {
    if parts == [] then "" else if |parts| == 1 then parts[0] else parts[0] + sep + Join(sep, parts[1..])
  }
}
