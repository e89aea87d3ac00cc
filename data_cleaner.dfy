/**
 * The data cleaner: splits a raw title into its case number and the rest,
 * repairs a missing hyphen in the number, removes Markdown decoration from
 * free text, and cleans a whole extracted record into the six fields the
 * formatter expects.
 */
module DataCleaner {
  import opened Wrappers
  import opened Text
  import opened Values
  import opened Patterns

  /** The `TypeError`s the cleaner raises, with their messages. */
  datatype CleanError = TypeError(msg: string)

  const TitleNoneMsg := "標題不能為None"
  const TitleNotStrMsg := "標題必須是字串"
  const ContentNoneMsg := "內容不能為None"
  const ContentNotStrMsg := "內容必須是字串"
  const CaseNotDictMsg := "測試案例必須是字典型態"

  // ---------------------------------------------------------------------
  // fix_missing_hyphen
  // ---------------------------------------------------------------------

  /**
   * `fix_missing_hyphen` on a string: kept when it already starts with a
   * hyphenated number; rebuilt as `TCG-{n1}.{n2}.{n3}` from a hyphenless
   * number at its start (the groups and their dots are contiguous, so this
   * is `TCG-` followed by the matched digits; text after the match is
   * dropped); kept otherwise.
   */
  function FixHyphen(s: string): (r: string)
    ensures r == s || (HyphenlessAt(s, 0).Some? && StartsWith(r, "TCG-") && |r| <= |s| + 1)
  {
    if StartsWith(s, "TCG-") && CaseNumberAt(s, 0).Some? then s
    else match HyphenlessAt(s, 0)
      case Some(e) => "TCG-" + s[3..e]
      case None => s
  }

  /** `fix_missing_hyphen` on any value: non-strings are returned unchanged. */
  function FixMissingHyphen(v: Value): (r: Value)
    ensures !v.VStr? ==> r == v
    ensures v.VStr? ==> r.VStr?
  {
    if v.VStr? then VStr(FixHyphen(v.s)) else v
  }

  /** Text that does not start with a hyphenless number is left as it is. */
  lemma FixHyphenKeeps(s: string)
    requires HyphenlessAt(s, 0).None?
    ensures FixHyphen(s) == s
  {
  }

  /** An already hyphenated number is left as it is. */
  lemma FixHyphenKeepsCorrect(s: string)
    requires StartsWith(s, "TCG-") && CaseNumberAt(s, 0).Some?
    ensures FixHyphen(s) == s
  {
  }

  /** A hyphenless number at the start becomes the canonical hyphenated number. */
  lemma FixHyphenRepairs(s: string)
    requires HyphenlessAt(s, 0).Some?
    ensures IsCanonicalNumber(FixHyphen(s))
    ensures FixHyphen(s) == "TCG-" + s[3..HyphenlessAt(s, 0).value]
  {
    var e := HyphenlessAt(s, 0).value;
    NotHyphenated(s);
    ThreeGroupsShape(s, 3);
    var r := "TCG-" + s[3..e];
    assert r[..4] == "TCG-";
    assert r[4..] == s[3..e];
  }

  /** Text whose fourth character is a digit does not start with `TCG-`. */
  lemma NotHyphenated(s: string)
    requires HyphenlessAt(s, 0).Some?
    ensures !StartsWith(s, "TCG-")
  {
    assert IsDigit(s[3]) by { assert DigitsEnd(s, 3) > 3; }
    assert s[0 + 3] != "TCG-"[3];
  }

  /** Repairing twice is repairing once. */
  lemma FixHyphenIdempotent(s: string)
    ensures FixHyphen(FixHyphen(s)) == FixHyphen(s)
  {
    if !(StartsWith(s, "TCG-") && CaseNumberAt(s, 0).Some?) && HyphenlessAt(s, 0).Some? {
      FixHyphenRepairs(s);
      CanonicalMatches(FixHyphen(s));
    }
  }

  /** Whatever `fix_missing_hyphen` makes of a case-number match is a canonical number. */
  lemma FixHyphenOfMatch(t: string, i: nat, e: nat)
    requires i <= |t| && CaseNumberAt(t, i) == Some(e)
    ensures IsCanonicalNumber(FixHyphen(t[i..e]))
  {
    if t[i + 3] == '-' {
      HyphenatedMatch(t, i, e);
    } else {
      var m := t[i..e];
      CaseNumberShape(t, i);
      assert m[3] == t[i + 3];
      SuffixAt(m, 3);
      ThreeGroupsOfShape(m[3..], m, 3);
      assert HyphenlessAt(m, 0).Some?;
      FixHyphenRepairs(m);
    }
  }

  /** A match with its hyphen is kept as it is, and is canonical. */
  lemma HyphenatedMatch(t: string, i: nat, e: nat)
    requires i <= |t| && CaseNumberAt(t, i) == Some(e) && t[i + 3] == '-'
    ensures FixHyphen(t[i..e]) == t[i..e] && IsCanonicalNumber(t[i..e])
  {
    var m := t[i..e];
    CaseNumberShape(t, i);
    assert m[..4] == "TCG-";
    CanonicalMatches(m);
  }

  // ---------------------------------------------------------------------
  // extract_test_case_number_and_title
  // ---------------------------------------------------------------------

  /**
   * The string case of `extract_test_case_number_and_title`: the stripped
   * title is searched for the leftmost case number; the number is repaired,
   * and its first occurrence is removed from the title, which is stripped
   * again. Without a number the result is `("", stripped title)`.
   */
  function SplitTitle(title: string): (r: (string, string))
    ensures IsStripped(r.1) && |r.1| <= |title|
  {
    var t := Strip(title);
    if t == [] then ("", "")
    else match SearchCaseNumber(t, 0)
      case Some((i, e)) => (FixHyphen(t[i..e]), Strip(ReplaceFirst(t, t[i..e], "")))
      case None => ("", t)
  }

  /** `extract_test_case_number_and_title`: `None` and non-strings raise `TypeError`. */
  function ExtractNumberAndTitle(title: Value): (r: Result<(string, string), CleanError>)
    ensures title.VNone? ==> r == Err(TypeError(TitleNoneMsg))
    ensures !title.VNone? && !title.VStr? ==> r == Err(TypeError(TitleNotStrMsg))
    ensures title.VStr? ==> r.Ok?
  {
    match title
    case VNone => Err(TypeError(TitleNoneMsg))
    case VStr(s) => Ok(SplitTitle(s))
    case _ => Err(TypeError(TitleNotStrMsg))
  }

  /**
   * With a number in the title: the number is canonical, and the remainder
   * is the stripped title with exactly that leftmost match cut out; any
   * later number stays in the remainder.
   */
  lemma SplitTitleFound(title: string)
    requires SearchCaseNumber(Strip(title), 0).Some?
    ensures var t := Strip(title);
            var (i, e) := SearchCaseNumber(t, 0).value;
            SplitTitle(title) == (FixHyphen(t[i..e]), Strip(t[..i] + t[e..]))
            && IsCanonicalNumber(SplitTitle(title).0)
  {
    var t := Strip(title);
    var (i, e) := SearchCaseNumber(t, 0).value;
    RemoveFirstMatch(t);
    FixHyphenOfMatch(t, i, e);
  }

  /** Without a number the title comes back stripped, with an empty number; a blank title gives two empty strings. */
  lemma SplitTitleNotFound(title: string)
    requires SearchCaseNumber(Strip(title), 0).None?
    ensures SplitTitle(title) == ("", Strip(title))
    ensures IsBlank(title) ==> SplitTitle(title) == ("", "")
  {
    StripEmptyIffBlank(title);
  }

  /** The number returned is empty or canonical, and the remainder is stripped. */
  lemma SplitTitleShape(title: string)
    ensures SplitTitle(title).0 == "" || IsCanonicalNumber(SplitTitle(title).0)
    ensures IsStripped(SplitTitle(title).1)
  {
    if Strip(title) != [] && SearchCaseNumber(Strip(title), 0).Some? {
      SplitTitleFound(title);
    }
  }

  /** A hyphenless number is found, repaired and cut from the title. */
  lemma SplitTitleExample(s: string)
    requires s == "TCG001.002.003 x"
    ensures SplitTitle(s) == ("TCG-001.002.003", "x")
  {
    ExampleSearch(s);
    ExampleNumber(s[0..14]);
    ExampleRest(s);
  }

  lemma ExampleRest(s: string)
    requires SearchCaseNumber(s, 0) == Some((0, 14)) && |s| == 16 && s[14] == ' ' && s[15] == 'x'
    ensures Strip(ReplaceFirst(s, s[0..14], "")) == "x"
  {
    RemoveFirstMatch(s);
    assert s[..0] + s[14..] == " " + "x" + "";
    StripFrame(" ", "x", "");
  }

  lemma ExampleSearch(s: string)
    requires s == "TCG001.002.003 x"
    ensures Strip(s) == s && SearchCaseNumber(s, 0) == Some((0, 14))
  {
    assert IsStripped(s);
    StrippedIsFixed(s);
    ExampleGroups(s);
    assert CaseNumberAt(s, 0) == Some(14);
  }

  lemma ExampleGroups(s: string)
    requires |s| >= 15 && s[..15] == "TCG001.002.003 "
    ensures ThreeGroupsAt(s, 3) == Some(14)
  {
    DigitsEndUnique(s, 3, 6);
    DigitsEndUnique(s, 7, 10);
    DigitsEndUnique(s, 11, 14);
  }

  lemma ExampleNumber(m: string)
    requires m == "TCG001.002.003"
    ensures FixHyphen(m) == "TCG-001.002.003"
  {
    ExampleNumberGroups(m);
    assert m[3..14] == "001.002.003";
    ExampleRepair(m);
  }

  lemma ExampleRepair(m: string)
    requires HyphenlessAt(m, 0) == Some(14) && m[3..14] == "001.002.003"
    ensures FixHyphen(m) == "TCG-001.002.003"
  {
    FixHyphenRepairs(m);
    var g := m[3..14];
    assert FixHyphen(m) == "TCG-" + g;
    assert "TCG-" + g == "TCG-001.002.003";
  }

  lemma ExampleNumberGroups(m: string)
    requires |m| == 14 && m[..14] == "TCG001.002.003"
    ensures HyphenlessAt(m, 0) == Some(14)
  {
    DigitsEndUnique(m, 3, 6);
    DigitsEndUnique(m, 7, 10);
    DigitsEndUnique(m, 11, 14);
    ThreeGroupsIntro(m, 3, 6, 10);
    assert TcgAt(m, 0);
  }

  // ---------------------------------------------------------------------
  // extract_url_description and clean_markdown_content
  // ---------------------------------------------------------------------

  /** `extract_url_description`: every `[caption](target)` becomes `caption`; non-strings are returned unchanged. */
  function ExtractUrlDescription(v: Value): (r: Value)
    ensures !v.VStr? ==> r == v
    ensures v.VStr? ==> r.VStr? && |r.s| <= |v.s|
  {
    match v
    case VStr(s) =>
      SubChanges(Link, s);
      if s == [] then VStr("") else VStr(Sub(Link, s))
    case _ => v
  }

  /** A link is replaced by its caption. */
  lemma ExtractUrlLink(caption: string, target: string)
    requires caption != [] && forall k :: 0 <= k < |caption| ==> caption[k] != ']'
    requires target != [] && forall k :: 0 <= k < |target| ==> target[k] != ')'
    ensures ExtractUrlDescription(VStr("[" + caption + "](" + target + ")")) == VStr(caption)
  {
    LinkRewrite(caption, target);
  }

  /** Text without `[`, such as a bare URL, is untouched. */
  lemma ExtractUrlBare(s: string)
    requires forall k :: 0 <= k < |s| ==> s[k] != '['
    ensures ExtractUrlDescription(VStr(s)) == VStr(s)
  {
    NoBracketNoLink(s);
  }

  /** One round of the loop: bold markers, then italic markers. */
  function Step(c: string): string {
    Sub(Italic, Sub(Bold, c))
  }

  /** A round either changes nothing, and then no bold or italic match is left, or it shortens the text. */
  lemma StepProgress(c: string)
    ensures Step(c) == c <==> NoMatch(Bold, c) && NoMatch(Italic, c)
    ensures Step(c) != c ==> |Step(c)| < |c|
  {
    SubChanges(Bold, c);
    SubChanges(Italic, Sub(Bold, c));
    SubChanges(Italic, c);
  }

  /** The text the bold/italic loop settles on: rounds are repeated until one changes nothing. */
  function StripEmphasis(c: string): (r: string)
    ensures NoMatch(Bold, r) && NoMatch(Italic, r)
    ensures |r| <= |c|
    decreases |c|
  {
    StepProgress(c);
    if Step(c) == c then c else StripEmphasis(Step(c))
  }

  /** The whole string pipeline: links, code blocks, inline code, then the loop, then `strip()`. */
  function CleanText(s: string): (r: string)
    ensures IsStripped(r)
    ensures NoMatch(Bold, r) && NoMatch(Italic, r)
    ensures |r| <= |s|
  {
    if s == [] then []
    else
      var a := Sub(Link, s);
      var b := Sub(CodeBlock, a);
      var c := Sub(Code, b);
      var d := StripEmphasis(c);
      SubChanges(Link, s);
      SubChanges(CodeBlock, a);
      SubChanges(Code, b);
      NoMatchStrip(Bold, d);
      NoMatchStrip(Italic, d);
      Strip(d)
  }

  /** `clean_markdown_content`: `None` and non-strings raise `TypeError`; strings are cleaned. */
  function CleanMarkdown(content: Value): (r: Result<string, CleanError>)
    ensures content.VNone? ==> r == Err(TypeError(ContentNoneMsg))
    ensures !content.VNone? && !content.VStr? ==> r == Err(TypeError(ContentNotStrMsg))
    ensures content.VStr? ==> r.Ok? && IsStripped(r.value)
    ensures content.VStr? ==> NoMatch(Bold, r.value) && NoMatch(Italic, r.value)
  {
    match content
    case VNone => Err(TypeError(ContentNoneMsg))
    case VStr(s) => Ok(CleanText(s))
    case _ => Err(TypeError(ContentNotStrMsg))
  }

  /**
   * `clean_markdown_content` as the code runs it: the rewrites in turn, then
   * the bold/italic rounds until the text stops changing, then `strip()`.
   */
  method CleanMarkdownContent(content: Value) returns (r: Result<string, CleanError>)
    ensures r == CleanMarkdown(content)
  {
    if content.VNone? {
      return Err(TypeError(ContentNoneMsg));
    }
    if !content.VStr? {
      return Err(TypeError(ContentNotStrMsg));
    }
    if content.s == [] {
      return Ok("");
    }
    var text := ExtractUrlDescription(content).s;
    text := Sub(CodeBlock, text);
    text := Sub(Code, text);
    ghost var start := text;
    var previous := "";
    while previous != text
      invariant StripEmphasis(text) == StripEmphasis(start)
      invariant previous == text ==> Step(text) == text
      decreases |text| + (if previous == text then 0 else 1)
    {
      previous := text;
      StepProgress(text);
      text := Step(text);
    }
    StepProgress(text);
    return Ok(Strip(text));
  }

  /** Bold inside italic, as in `***x***`, is fully unwrapped. */
  lemma NestedEmphasis(s: string)
    requires s == "***粗斜體***"
    ensures CleanText(s) == "粗斜體"
  {
    NoKeyNoChange(Link, s);
    NoKeyNoChange(CodeBlock, s);
    NoKeyNoChange(Code, s);
    var u := NestedBold(s);
    var w := NestedItalic(u);
    NoKeyNoChange(Bold, w);
    NoKeyNoChange(Italic, w);
    assert Step(s) == w && Step(w) == w;
    assert StripEmphasis(s) == w;
    StrippedIsFixed(w);
  }

  lemma NestedBold(s: string) returns (u: string)
    requires s == "***粗斜體***"
    ensures u == "*粗斜體*" && Sub(Bold, s) == u
  {
    u := "*粗斜體*";
    FindCharUnique(s, '*', 2, 2);
    assert MatchAt(Bold, s, 0).None?;
    FindCharUnique(s, '*', 3, 6);
    assert s[3..6] == "粗斜體";
    assert MatchAt(Bold, s, 1) == Some(Match("粗斜體", 8));
    assert MatchAt(Bold, s, 8).None?;
    assert SubFrom(Bold, s, 9) == [];
    assert SubFrom(Bold, s, 8) == "*";
    assert SubFrom(Bold, s, 1) == "粗斜體" + "*";
  }

  lemma NestedItalic(u: string) returns (w: string)
    requires u == "*粗斜體*"
    ensures w == "粗斜體" && Sub(Italic, u) == w
  {
    w := "粗斜體";
    FindCharUnique(u, '*', 1, 4);
    assert u[1..4] == "粗斜體";
    assert MatchAt(Italic, u, 0) == Some(Match("粗斜體", 5));
    assert SubFrom(Italic, u, 5) == [];
  }

  /** Cleaning is not idempotent: a link uncovered by unwrapping bold survives the first pass. */
  lemma CleanTextNotIdempotent(s: string, u: string)
    requires s == "[**a]**(b)" && u == "[a](b)"
    ensures CleanText(s) == u
    ensures CleanText(u) == "a"
  {
    CleanHiddenLink(s, u);
    CleanLink(u);
  }

  lemma CleanHiddenLink(s: string, u: string)
    requires s == "[**a]**(b)" && u == "[a](b)"
    ensures CleanText(s) == u
  {
    HiddenLinkNoLink(s);
    NoKeyNoChange(CodeBlock, s);
    NoKeyNoChange(Code, s);
    HiddenLinkBold(s, u);
    NoKeyNoChange(Bold, u);
    NoKeyNoChange(Italic, u);
    assert Step(s) == u && Step(u) == u;
    assert StripEmphasis(s) == u;
    StrippedIsFixed(u);
  }

  lemma CleanLink(u: string)
    requires u == "[a](b)"
    ensures CleanText(u) == "a"
  {
    LinkRewrite("a", "b");
    assert "[" + "a" + "](" + "b" + ")" == u;
    var a := "a";
    NoKeyNoChange(CodeBlock, a);
    NoKeyNoChange(Code, a);
    NoKeyNoChange(Bold, a);
    NoKeyNoChange(Italic, a);
    assert Step(a) == a;
    StrippedIsFixed(a);
  }

  lemma HiddenLinkNoLink(s: string)
    requires s == "[**a]**(b)"
    ensures Sub(Link, s) == s
  {
    FindCharUnique(s, ']', 1, 4);
    assert LinkAt(s, 0).None?;
    forall i | 0 <= i < |s| ensures MatchAt(Link, s, i).None? {
      if i > 0 {
        assert s[i] != '[';
      }
    }
    SubChanges(Link, s);
  }

  lemma HiddenLinkBold(s: string, u: string)
    requires s == "[**a]**(b)" && u == "[a](b)"
    ensures Sub(Bold, s) == u
  {
    assert MatchAt(Bold, s, 0).None?;
    FindCharUnique(s, '*', 3, 5);
    assert s[3..5] == "a]";
    assert MatchAt(Bold, s, 1) == Some(Match("a]", 7));
    assert NoMatchFrom(Bold, s, 7);
    SubFromLength(Bold, s, 7);
    assert s[7..] == "(b)";
    assert SubFrom(Bold, s, 1) == "a]" + "(b)";
    assert SubFrom(Bold, s, 0) == [s[0]] + SubFrom(Bold, s, 1);
  }

  // ---------------------------------------------------------------------
  // clean_test_case_fields
  // ---------------------------------------------------------------------

  /** The cleaned record. */
  datatype CleanedCase = CleanedCase(testCaseNumber: string, title: string, priority: string,
                                     precondition: string, steps: string, expectedResult: string)

  /** The record as the dictionary handed to the formatter: exactly six string keys. */
  function CleanedToDict(c: CleanedCase): (d: map<string, Value>)
    ensures d.Keys == {"test_case_number", "title", "priority", "precondition", "steps", "expected_result"}
    ensures forall k :: k in d ==> d[k].VStr?
  {
    map["test_case_number" := VStr(c.testCaseNumber), "title" := VStr(c.title),
        "priority" := VStr(c.priority), "precondition" := VStr(c.precondition),
        "steps" := VStr(c.steps), "expected_result" := VStr(c.expectedResult)]
  }

  /** `test_case.get(key, "")`, with `None` replaced by `""`. */
  function FieldOrEmpty(m: map<string, Value>, key: string): (r: Value)
    ensures key !in m || m[key] == VNone ==> r == VStr("")
    ensures key in m && m[key] != VNone ==> r == m[key]
  {
    var v := Get(m, key, VStr(""));
    if v.VNone? then VStr("") else v
  }

  /** `clean_test_case_fields`: a non-dict raises `TypeError`; a dict is cleaned field by field. */
  function CleanTestCaseFields(testCase: Value): (r: Result<CleanedCase, CleanError>)
    ensures !testCase.VDict? <==> r == Err(TypeError(CaseNotDictMsg))
  {
    match testCase
    case VDict(m) =>
      var (number, cleanTitle) := SplitTitle(Str(FieldOrEmpty(m, "title")));
      Ok(CleanedCase(number, CleanText(cleanTitle), Str(FieldOrEmpty(m, "priority")),
                     CleanText(Str(FieldOrEmpty(m, "preconds"))),
                     CleanText(Str(FieldOrEmpty(m, "steps"))),
                     CleanText(Str(FieldOrEmpty(m, "expected")))))
    case _ => Err(TypeError(CaseNotDictMsg))
  }

  /** A dict always cleans; missing or `None` fields come out empty, and the priority is `str()` of the raw value, uncleaned. */
  lemma CleanTestCaseFieldsDefaults(m: map<string, Value>)
    ensures CleanTestCaseFields(VDict(m)).Ok?
    ensures var c := CleanTestCaseFields(VDict(m)).value;
            c.priority == Str(FieldOrEmpty(m, "priority"))
            && ("priority" !in m || m["priority"] == VNone ==> c.priority == "")
            && ("preconds" !in m || m["preconds"] == VNone ==> c.precondition == "")
            && ("steps" !in m || m["steps"] == VNone ==> c.steps == "")
            && ("expected" !in m || m["expected"] == VNone ==> c.expectedResult == "")
  {
  }

  /** The number is empty or canonical; the text fields are stripped and free of bold and italic. */
  lemma CleanTestCaseFieldsClean(m: map<string, Value>)
    ensures var c := CleanTestCaseFields(VDict(m)).value;
            (c.testCaseNumber == "" || IsCanonicalNumber(c.testCaseNumber))
            && IsStripped(c.title) && NoMatch(Bold, c.title) && NoMatch(Italic, c.title)
            && IsStripped(c.precondition) && NoMatch(Bold, c.precondition) && NoMatch(Italic, c.precondition)
            && IsStripped(c.steps) && NoMatch(Bold, c.steps) && NoMatch(Italic, c.steps)
            && IsStripped(c.expectedResult) && NoMatch(Bold, c.expectedResult) && NoMatch(Italic, c.expectedResult)
  {
    SplitTitleShape(Str(FieldOrEmpty(m, "title")));
  }
}
