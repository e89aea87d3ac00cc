/**
 * The fixed regular expressions of the data cleaner, written out as matchers.
 *
 * Every pattern here is deterministic: each `[^c]+` run is followed by the
 * character `c` itself (or by a delimiter that starts with it), and each
 * `\d+` run by a non-digit, so the longest run is the only one that can lead
 * to a match and backtracking never finds another. A matcher therefore reads
 * the maximal run and checks what follows it.
 */
module Patterns {
  import opened Wrappers
  import opened Text

  /**
   * The substitution patterns, each replaced by its first group:
   *   Link       `\[([^\]]+)\]\([^)]+\)`
   *   CodeBlock  ```` ```([^`]+)``` ````
   *   Code       `` `([^`]+)` ``
   *   Bold       `\*\*([^*]+)\*\*`
   *   Italic     `\*([^*]+)\*`
   */
  datatype Pattern = Link | CodeBlock | Code | Bold | Italic

  /** A match: the text of group 1 and the index just past the whole match. */
  datatype Match = Match(group: string, end: nat)

  /** `n` copies of `x` start at `i`. */
  predicate RunAt(s: string, i: nat, x: char, n: nat) {
    i + n <= |s| && forall k :: i <= k < i + n ==> s[k] == x
  }

  /**
   * `n` copies of `x`, then a non-empty run free of `x`, then `n` copies of
   * `x` again: the shape of the code-block, code, bold and italic patterns.
   */
  function DelimAt(s: string, i: nat, x: char, n: nat): (r: Option<Match>)
    requires i <= |s| && n > 0
    ensures r.Some? ==> i + n + |r.value.group| + n == r.value.end <= |s|
    ensures r.Some? ==> r.value.group != [] && r.value.group == s[i + n..i + n + |r.value.group|]
  {
    if !RunAt(s, i, x, n) then None
    else
      var j := FindChar(s, x, i + n);
      if j > i + n && RunAt(s, j, x, n) then Some(Match(s[i + n..j], j + n)) else None
  }

  /** `[caption](target)`: group 1 is the caption. */
  function LinkAt(s: string, i: nat): (r: Option<Match>)
    requires i <= |s|
    ensures r.Some? ==> i + 1 + |r.value.group| + 4 <= r.value.end <= |s|
    ensures r.Some? ==> r.value.group != [] && r.value.group == s[i + 1..i + 1 + |r.value.group|]
  {
    if i == |s| || s[i] != '[' then None
    else
      var j := FindChar(s, ']', i + 1);
      if j > i + 1 && j + 1 < |s| && s[j + 1] == '(' then
        var k := FindChar(s, ')', j + 2);
        if j + 2 < k < |s| then Some(Match(s[i + 1..j], k + 1)) else None
      else None
  }

  /** `pattern.match(s, i)`: the match starting exactly at `i`, if any. */
  function MatchAt(p: Pattern, s: string, i: nat): (r: Option<Match>)
    requires i <= |s|
    ensures r.Some? ==> i < r.value.end <= |s| && |r.value.group| + 2 <= r.value.end - i
  {
    match p
    case Link => LinkAt(s, i)
    case CodeBlock => DelimAt(s, i, '`', 3)
    case Code => DelimAt(s, i, '`', 1)
    case Bold => DelimAt(s, i, '*', 2)
    case Italic => DelimAt(s, i, '*', 1)
  }

  /** No match of `p` starts anywhere in `s`. */
  predicate NoMatch(p: Pattern, s: string) {
    forall i :: 0 <= i < |s| ==> MatchAt(p, s, i).None?
  }

  /** No match of `p` starts at or after `from`. */
  predicate NoMatchFrom(p: Pattern, s: string, from: nat) {
    forall i :: from <= i < |s| ==> MatchAt(p, s, i).None?
  }

  /**
   * `pattern.sub(r'\1', s[from:])` as a scan: at each position either a
   * match is replaced by its group and the scan resumes after it, or one
   * character is copied.
   */
  function SubFrom(p: Pattern, s: string, from: nat): string
    requires from <= |s|
    decreases |s| - from
  {
    if from == |s| then []
    else match MatchAt(p, s, from)
      case Some(m) => m.group + SubFrom(p, s, m.end)
      case None => [s[from]] + SubFrom(p, s, from + 1)
  }

  /** `pattern.sub(r'\1', s)`. */
  function Sub(p: Pattern, s: string): string {
    SubFrom(p, s, 0)
  }

  /** The scan never lengthens, and it keeps the length only when nothing matched, leaving the text as it was. */
  lemma SubFromLength(p: Pattern, s: string, from: nat)
    requires from <= |s|
    ensures |SubFrom(p, s, from)| <= |s| - from
    ensures |SubFrom(p, s, from)| == |s| - from <==> NoMatchFrom(p, s, from)
    ensures NoMatchFrom(p, s, from) ==> SubFrom(p, s, from) == s[from..]
  {
    SubFromNotLonger(p, s, from);
    if NoMatchFrom(p, s, from) {
      SubFromUnchanged(p, s, from);
    } else {
      var i :| from <= i < |s| && MatchAt(p, s, i).Some?;
      SubFromShorter(p, s, from, i);
    }
  }

  /** The scan never lengthens the text. */
  lemma {:induction false} SubFromNotLonger(p: Pattern, s: string, from: nat)
    requires from <= |s|
    ensures |SubFrom(p, s, from)| <= |s| - from
    decreases |s| - from
  {
    if from < |s| {
      var r := MatchAt(p, s, from);
      if r.Some? {
        SubFromNotLonger(p, s, r.value.end);
      } else {
        SubFromNotLonger(p, s, from + 1);
      }
    }
  }

  /** Once a match is met at some `i`, the scan shortens the text. */
  lemma {:induction false} SubFromShorter(p: Pattern, s: string, from: nat, i: nat)
    requires from <= i < |s| && MatchAt(p, s, i).Some?
    ensures |SubFrom(p, s, from)| < |s| - from
    decreases |s| - from
  {
    var r := MatchAt(p, s, from);
    if r.Some? {
      SubFromNotLonger(p, s, r.value.end);
      assert SubFrom(p, s, from) == r.value.group + SubFrom(p, s, r.value.end);
    } else {
      SubFromShorter(p, s, from + 1, i);
      assert SubFrom(p, s, from) == [s[from]] + SubFrom(p, s, from + 1);
    }
  }

  /** Where nothing matches, the scan copies the text. */
  lemma {:induction false} SubFromUnchanged(p: Pattern, s: string, from: nat)
    requires from <= |s| && NoMatchFrom(p, s, from)
    ensures SubFrom(p, s, from) == s[from..]
    decreases |s| - from
  {
    if from < |s| {
      assert MatchAt(p, s, from).None?;
      SubFromUnchanged(p, s, from + 1);
      assert s[from..] == [s[from]] + s[from + 1..];
    }
  }

  /** A substitution changes the text exactly when the pattern occurs, and then shortens it. */
  lemma SubChanges(p: Pattern, s: string)
    ensures Sub(p, s) == s <==> NoMatch(p, s)
    ensures Sub(p, s) != s ==> |Sub(p, s)| < |s|
  {
    SubFromLength(p, s, 0);
    assert s[0..] == s;
  }

  /** A match inside a slice is a match of the whole text at the shifted position. */
  lemma MatchInSlice(p: Pattern, s: string, a: nat, b: nat, i: nat)
    requires a <= b <= |s| && i < b - a
    requires MatchAt(p, s[a..b], i).Some?
    ensures MatchAt(p, s, a + i).Some?
  {
    match p
    case Link => LinkInSlice(s, a, b, i);
    case CodeBlock => DelimInSlice(s, a, b, i, '`', 3);
    case Code => DelimInSlice(s, a, b, i, '`', 1);
    case Bold => DelimInSlice(s, a, b, i, '*', 2);
    case Italic => DelimInSlice(s, a, b, i, '*', 1);
  }

  lemma LinkInSlice(s: string, a: nat, b: nat, i: nat)
    requires a <= b <= |s| && i < b - a
    requires LinkAt(s[a..b], i).Some?
    ensures LinkAt(s, a + i).Some?
  {
    var t := s[a..b];
    var j := FindChar(t, ']', i + 1);
    var k := FindChar(t, ')', j + 2);
    FindCharShift(s, a, b, ']', i + 1, j);
    FindCharShift(s, a, b, ')', j + 2, k);
  }

  lemma DelimInSlice(s: string, a: nat, b: nat, i: nat, x: char, n: nat)
    requires a <= b <= |s| && i < b - a && n > 0
    requires DelimAt(s[a..b], i, x, n).Some?
    ensures DelimAt(s, a + i, x, n).Some?
  {
    var t := s[a..b];
    var j := FindChar(t, x, i + n);
    assert RunAt(s, a + i, x, n) by {
      forall k | a + i <= k < a + i + n ensures s[k] == x { assert s[k] == t[k - a]; }
    }
    FindCharShift(s, a, b, x, i + n, j);
    assert RunAt(s, a + j, x, n) by {
      forall k | a + j <= k < a + j + n ensures s[k] == x { assert s[k] == t[k - a]; }
    }
  }

  /** A character found inside a slice is found at the shifted position of the whole text. */
  lemma FindCharShift(s: string, a: nat, b: nat, c: char, from: nat, j: nat)
    requires a <= b <= |s| && from <= b - a
    requires j == FindChar(s[a..b], c, from) && j < b - a
    ensures FindChar(s, c, a + from) == a + j
  {
    var t := s[a..b];
    forall k | a + from <= k < a + j ensures s[k] != c {
      assert s[k] == t[k - a];
    }
    assert s[a + j] == t[j];
    FindCharUnique(s, c, a + from, a + j);
  }

  /** Absence of matches survives slicing; in particular it survives `strip()`. */
  lemma NoMatchSlice(p: Pattern, s: string, a: nat, b: nat)
    requires a <= b <= |s| && NoMatch(p, s)
    ensures NoMatch(p, s[a..b])
  {
    forall i | 0 <= i < b - a ensures MatchAt(p, s[a..b], i).None? {
      if MatchAt(p, s[a..b], i).Some? {
        MatchInSlice(p, s, a, b, i);
      }
    }
  }

  lemma NoMatchStrip(p: Pattern, s: string)
    requires NoMatch(p, s)
    ensures NoMatch(p, Strip(s))
  {
    NoMatchSlice(p, s, StripStart(s), StripEnd(s));
  }

  /** The character every match of the pattern starts with. */
  function Key(p: Pattern): char {
    match p
    case Link => '['
    case CodeBlock => '`'
    case Code => '`'
    case Bold => '*'
    case Italic => '*'
  }

  /** A text without the pattern's first character holds no match and is left unchanged. */
  lemma NoKeyNoChange(p: Pattern, s: string)
    requires forall k :: 0 <= k < |s| ==> s[k] != Key(p)
    ensures NoMatch(p, s) && Sub(p, s) == s
  {
    SubChanges(p, s);
  }

  /** A text with no `[` holds no link and is left unchanged: bare URLs survive. */
  lemma NoBracketNoLink(s: string)
    requires forall k :: 0 <= k < |s| ==> s[k] != '['
    ensures Sub(Link, s) == s
  {
    NoKeyNoChange(Link, s);
  }

  /** `[caption](target)` becomes `caption`. */
  lemma LinkRewrite(caption: string, target: string)
    requires caption != [] && forall k :: 0 <= k < |caption| ==> caption[k] != ']'
    requires target != [] && forall k :: 0 <= k < |target| ==> target[k] != ')'
    ensures Sub(Link, "[" + caption + "](" + target + ")") == caption
  {
    var s := "[" + caption + "](" + target + ")";
    var j := 1 + |caption|;
    var k := j + 2 + |target|;
    forall q | 1 <= q < j ensures s[q] != ']' { assert s[q] == caption[q - 1]; }
    FindCharUnique(s, ']', 1, j);
    forall q | j + 2 <= q < k ensures s[q] != ')' { assert s[q] == target[q - j - 2]; }
    FindCharUnique(s, ')', j + 2, k);
    assert s[1..j] == caption;
    assert MatchAt(Link, s, 0) == Some(Match(caption, |s|));
    assert SubFrom(Link, s, |s|) == [];
  }

  /** `` `code` `` becomes `code`. */
  lemma CodeRewrite(code: string)
    requires code != [] && forall k :: 0 <= k < |code| ==> code[k] != '`'
    ensures Sub(Code, "`" + code + "`") == code
  {
    var s := "`" + code + "`";
    forall q | 1 <= q < 1 + |code| ensures s[q] != '`' { assert s[q] == code[q - 1]; }
    FindCharUnique(s, '`', 1, 1 + |code|);
    assert s[1..1 + |code|] == code;
    assert MatchAt(Code, s, 0) == Some(Match(code, |s|));
    assert SubFrom(Code, s, |s|) == [];
  }

  // ---------------------------------------------------------------------
  // Case numbers: `TCG-?(\d+)\.(\d+)\.(\d+)` and `TCG(\d+)\.(\d+)\.(\d+)`.
  // ---------------------------------------------------------------------

  /** The letters `TCG` start at `i`. */
  predicate TcgAt(s: string, i: nat) {
    i + 3 <= |s| && s[i] == 'T' && s[i + 1] == 'C' && s[i + 2] == 'G'
  }

  /** `(\d+)\.(\d+)\.(\d+)` starting at `h`: the index just past the third group. */
  function ThreeGroupsAt(s: string, h: nat): (r: Option<nat>)
    requires h <= |s|
    ensures r.Some? ==> h < r.value <= |s|
  {
    var d1 := DigitsEnd(s, h);
    if d1 == h || d1 == |s| || s[d1] != '.' then None
    else
      var d2 := DigitsEnd(s, d1 + 1);
      if d2 == d1 + 1 || d2 == |s| || s[d2] != '.' then None
      else
        var d3 := DigitsEnd(s, d2 + 1);
        if d3 == d2 + 1 then None else Some(d3)
  }

  /** `TCG-?(\d+)\.(\d+)\.(\d+)` matched at `i`: the end of the match. */
  function CaseNumberAt(s: string, i: nat): (r: Option<nat>)
    requires i <= |s|
    ensures r.Some? ==> i + 3 < r.value <= |s| && TcgAt(s, i)
  {
    if !TcgAt(s, i) then None
    else if i + 3 < |s| && s[i + 3] == '-' then ThreeGroupsAt(s, i + 4)
    else ThreeGroupsAt(s, i + 3)
  }

  /** `TCG(\d+)\.(\d+)\.(\d+)` matched at `i`: the end of the match. */
  function HyphenlessAt(s: string, i: nat): (r: Option<nat>)
    requires i <= |s|
    ensures r.Some? ==> i + 3 < r.value <= |s| && TcgAt(s, i)
  {
    if !TcgAt(s, i) then None else ThreeGroupsAt(s, i + 3)
  }

  /** `pattern.search(s[from:])`: the leftmost match as (start, end). */
  function SearchCaseNumber(s: string, from: nat): (r: Option<(nat, nat)>)
    requires from <= |s|
    ensures r.Some? ==> from <= r.value.0 <= |s| && CaseNumberAt(s, r.value.0) == Some(r.value.1)
    ensures r.Some? ==> forall q :: from <= q < r.value.0 ==> CaseNumberAt(s, q).None?
    ensures r.None? ==> forall q :: from <= q <= |s| ==> CaseNumberAt(s, q).None?
    decreases |s| - from
  {
    match CaseNumberAt(s, from)
    case Some(e) => Some((from, e))
    case None => if from == |s| then None else SearchCaseNumber(s, from + 1)
  }

  /** Digits, `.`, digits, `.`, digits, and nothing else: the shape of the three groups. */
  predicate IsThreeGroups(m: string) {
    exists a: nat, b: nat ::
      0 < a && a + 1 < b && b + 1 < |m| && m[a] == '.' && m[b] == '.'
      && (forall k :: 0 <= k < |m| && k != a && k != b ==> IsDigit(m[k]))
  }

  /** A case number in canonical form: `TCG-` followed by three dotted digit groups. */
  predicate IsCanonicalNumber(m: string) {
    |m| >= 4 && m[..4] == "TCG-" && IsThreeGroups(m[4..])
  }

  /** The digit groups matched from `h` have the three-group shape. */
  lemma ThreeGroupsShape(s: string, h: nat)
    requires h <= |s| && ThreeGroupsAt(s, h).Some?
    ensures IsThreeGroups(s[h..ThreeGroupsAt(s, h).value])
  {
    var d1 := DigitsEnd(s, h);
    var d2 := DigitsEnd(s, d1 + 1);
    var d3 := DigitsEnd(s, d2 + 1);
    var m := s[h..d3];
    assert m[d1 - h] == '.' && m[d2 - h] == '.';
    forall k | 0 <= k < |m| && k != d1 - h && k != d2 - h ensures IsDigit(m[k]) {
      assert m[k] == s[h + k];
    }
  }

  /**
   * Wherever a text of the three-group shape occurs, the three groups match
   * there, ending no earlier than the text; exactly at its end when no digit
   * follows it.
   */
  lemma ThreeGroupsOfShape(m: string, t: string, h: nat)
    requires IsThreeGroups(m) && StartsWithAt(t, h, m)
    ensures ThreeGroupsAt(t, h).Some? && ThreeGroupsAt(t, h).value >= h + |m|
    ensures h + |m| == |t| || !IsDigit(t[h + |m|]) ==> ThreeGroupsAt(t, h).value == h + |m|
  {
    var a: nat, b: nat :| 0 < a && a + 1 < b && b + 1 < |m| && m[a] == '.' && m[b] == '.'
                          && (forall k :: 0 <= k < |m| && k != a && k != b ==> IsDigit(m[k]));
    ThreeGroupsWithDots(m, t, h, a, b);
  }

  /** `ThreeGroupsOfShape` with the positions of the two dots given. */
  lemma ThreeGroupsWithDots(m: string, t: string, h: nat, a: nat, b: nat)
    requires StartsWithAt(t, h, m)
    requires 0 < a && a + 1 < b && b + 1 < |m| && m[a] == '.' && m[b] == '.'
    requires forall k :: 0 <= k < |m| && k != a && k != b ==> IsDigit(m[k])
    ensures ThreeGroupsAt(t, h) == Some(DigitsEnd(t, h + b + 1))
    ensures DigitsEnd(t, h + b + 1) >= h + |m|
    ensures h + |m| == |t| || !IsDigit(t[h + |m|]) ==> DigitsEnd(t, h + b + 1) == h + |m|
  {
    GroupAt(m, t, h, h, h + a);
    GroupAt(m, t, h, h + a + 1, h + b);
    GroupAt(m, t, h, h + b + 1, h + |m|);
    assert t[h + a] == m[a] && t[h + b] == m[b];
    ThreeGroupsIntro(t, h, h + a, h + b);
  }

  /**
   * A maximal run of digits of `m` is read from the same place wherever `m`
   * occurs (positions `p..q` of `t`, with `m` at `h`); at the end of `m`,
   * the run may go on in `t`.
   */
  lemma GroupAt(m: string, t: string, h: nat, p: nat, q: nat)
    requires StartsWithAt(t, h, m) && h <= p < q <= h + |m|
    requires forall k :: p - h <= k < q - h ==> IsDigit(m[k])
    requires q < h + |m| ==> !IsDigit(m[q - h])
    ensures DigitsEnd(t, p) >= q
    ensures q < h + |m| || q == |t| || !IsDigit(t[q]) ==> DigitsEnd(t, p) == q
  {
    DigitsAt(m, t, h, p - h, q - h);
    if q < h + |m| {
      assert t[h + (q - h)] == m[q - h];
    }
    if q < h + |m| || q == |t| || !IsDigit(t[q]) {
      DigitsEndUnique(t, p, q);
    }
  }

  /** A run of digits of `m` is a run of digits wherever `m` occurs. */
  lemma DigitsAt(m: string, t: string, h: nat, i: nat, j: nat)
    requires StartsWithAt(t, h, m) && i <= j <= |m|
    requires forall k :: i <= k < j ==> IsDigit(m[k])
    ensures forall k :: h + i <= k < h + j ==> IsDigit(t[k])
  {
    forall k | h + i <= k < h + j ensures IsDigit(t[k]) {
      assert t[h + (k - h)] == m[k - h];
    }
  }

  /** Three digit runs separated by dots are a three-group match. */
  lemma ThreeGroupsIntro(s: string, h: nat, d1: nat, d2: nat)
    requires h < d1 && d1 + 1 < d2 && d2 + 1 < |s|
    requires d1 == DigitsEnd(s, h) && s[d1] == '.'
    requires d2 == DigitsEnd(s, d1 + 1) && s[d2] == '.'
    requires DigitsEnd(s, d2 + 1) > d2 + 1
    ensures ThreeGroupsAt(s, h) == Some(DigitsEnd(s, d2 + 1))
  {
  }

  /** A prefix occurrence carries over to every suffix of the prefix. */
  lemma StartsWithSuffix(s: string, q: nat, m: string, j: nat)
    requires StartsWithAt(s, q, m) && j <= |m|
    ensures StartsWithAt(s, q + j, m[j..])
  {
    forall k | 0 <= k < |m[j..]| ensures s[q + j + k] == m[j..][k] {
      assert s[q + (j + k)] == m[j + k];
    }
  }

  /** Wherever the text of a case-number match occurs, the pattern matches there too. */
  lemma CaseNumberCopy(s: string, i: nat, e: nat, q: nat)
    requires i <= |s| && CaseNumberAt(s, i) == Some(e)
    requires StartsWithAt(s, q, s[i..e])
    ensures CaseNumberAt(s, q).Some?
  {
    CaseNumberShape(s, i);
    CaseNumberOfShape(s[i..e], s, q);
  }

  /** `TCG`, an optional `-` and the three groups: the shape of a case-number match. */
  predicate IsCaseNumberText(m: string) {
    TcgAt(m, 0) && |m| > 3
    && (m[3] == '-' ==> IsThreeGroups(m[4..]))
    && (m[3] != '-' ==> IsThreeGroups(m[3..]))
  }

  /** The text of a case-number match has the case-number shape. */
  lemma CaseNumberShape(s: string, i: nat)
    requires i <= |s| && CaseNumberAt(s, i).Some?
    ensures IsCaseNumberText(s[i..CaseNumberAt(s, i).value])
  {
    var e := CaseNumberAt(s, i).value;
    var m := s[i..e];
    if s[i + 3] == '-' {
      assert m[4..] == s[i + 4..e];
      ThreeGroupsShape(s, i + 4);
    } else {
      assert m[3..] == s[i + 3..e];
      ThreeGroupsShape(s, i + 3);
    }
  }

  /** Wherever a text of the case-number shape occurs, the pattern matches. */
  lemma CaseNumberOfShape(m: string, t: string, q: nat)
    requires IsCaseNumberText(m) && StartsWithAt(t, q, m)
    ensures CaseNumberAt(t, q).Some?
  {
    assert t[q + 0] == m[0] && t[q + 1] == m[1] && t[q + 2] == m[2] && t[q + 3] == m[3];
    if m[3] == '-' {
      StartsWithSuffix(t, q, m, 4);
      ThreeGroupsOfShape(m[4..], t, q + 4);
    } else {
      StartsWithSuffix(t, q, m, 3);
      ThreeGroupsOfShape(m[3..], t, q + 3);
    }
  }

  /** Every string occurs in itself at each of its suffixes. */
  lemma SuffixAt(m: string, j: nat)
    requires j <= |m|
    ensures StartsWithAt(m, j, m[j..])
  {
    forall k | 0 <= k < |m| - j ensures m[j + k] == m[j..][k] { }
  }

  /** A canonical number is matched by the case-number pattern as a whole. */
  lemma CanonicalMatches(m: string)
    requires IsCanonicalNumber(m)
    ensures StartsWith(m, "TCG-")
    ensures CaseNumberAt(m, 0) == Some(|m|)
  {
    assert m[0] == m[..4][0] && m[1] == m[..4][1] && m[2] == m[..4][2] && m[3] == m[..4][3];
    assert StartsWithAt(m, 0, "TCG-");
    SuffixAt(m, 4);
    ThreeGroupsOfShape(m[4..], m, 4);
  }

  /** The literal `replace(match, "", 1)` removes exactly the leftmost match. */
  lemma RemoveFirstMatch(s: string)
    requires SearchCaseNumber(s, 0).Some?
    ensures var (i, e) := SearchCaseNumber(s, 0).value;
            ReplaceFirst(s, s[i..e], "") == s[..i] + s[e..]
  {
    var (i, e) := SearchCaseNumber(s, 0).value;
    var m := s[i..e];
    assert StartsWithAt(s, i, m);
    match FindSub(s, m, 0)
    case None =>
      assert false;
    case Some(r) =>
      if r < i {
        CaseNumberCopy(s, i, e, r);
      }
      assert r == i;
  }
}
