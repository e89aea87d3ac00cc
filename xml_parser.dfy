/**
 * Extraction of test cases from a TestRail XML export that has already been
 * parsed into an element tree. A `case` element may sit at any depth below
 * the root; each is projected onto six text fields, and cases without a
 * title are dropped.
 */
module XmlParser {
  import opened Wrappers
  import opened Text
  import opened Values

  /**
   * An element of the tree: its tag, its text (`None` when the element has
   * no text at all, as for `<priority/>` or `<priority></priority>`) and its
   * child elements in document order.
   */
  datatype Element = Element(tag: string, text: Option<string>, children: seq<Element>)

  /** The six fields extracted from one `case` element. */
  datatype RawCase = RawCase(id: string, title: string, priority: string,
                             preconds: string, steps: string, expected: string)

  /** The record as the dictionary handed to the next stage. */
  function ToDict(c: RawCase): (d: map<string, Value>)
    ensures d.Keys == {"id", "title", "priority", "preconds", "steps", "expected"}
    ensures d["id"] == VStr(c.id) && d["title"] == VStr(c.title) && d["priority"] == VStr(c.priority)
    ensures d["preconds"] == VStr(c.preconds) && d["steps"] == VStr(c.steps) && d["expected"] == VStr(c.expected)
  {
    map["id" := VStr(c.id), "title" := VStr(c.title), "priority" := VStr(c.priority),
        "preconds" := VStr(c.preconds), "steps" := VStr(c.steps), "expected" := VStr(c.expected)]
  }

  /** Index of the first child of `cs` with tag `tag`, at or after `from`; `|cs|` if none. */
  function FirstWithTag(cs: seq<Element>, tag: string, from: nat): (r: nat)
    requires from <= |cs|
    ensures from <= r <= |cs|
    ensures forall k :: from <= k < r ==> cs[k].tag != tag
    ensures r < |cs| ==> cs[r].tag == tag
    decreases |cs| - from
  {
    if from == |cs| || cs[from].tag == tag then from else FirstWithTag(cs, tag, from + 1)
  }

  /** `parent.find(tag)`: the first direct child with that tag. */
  function Find(parent: Element, tag: string): (r: Option<Element>)
    ensures r.Some? <==> exists i :: 0 <= i < |parent.children| && parent.children[i].tag == tag
    ensures r.Some? ==> r.value in parent.children && r.value.tag == tag
  {
    var i := FirstWithTag(parent.children, tag, 0);
    if i < |parent.children| then Some(parent.children[i]) else None
  }

  /**
   * `_get_element_text`: the stripped text of the first direct child named
   * `tag`, or `default` when there is no parent, no such child, or the child
   * has no text.
   */
  function GetElementText(parent: Option<Element>, tag: string, default: string): (r: string)
    ensures parent.None? ==> r == default
    ensures parent.Some? && Find(parent.value, tag).None? ==> r == default
    ensures parent.Some? && Find(parent.value, tag).Some? ==>
              var child := Find(parent.value, tag).value;
              r == (if child.text.Some? then Strip(child.text.value) else default)
    ensures r == default || IsStripped(r)
  {
    if parent.None? then default
    else match Find(parent.value, tag)
      case None => default
      case Some(child) => if child.text.Some? then Strip(child.text.value) else default
  }

  /** `d` is an element strictly below `e`. */
  predicate IsProperDescendant(d: Element, e: Element)
    decreases e
  {
    exists i :: 0 <= i < |e.children| && (e.children[i] == d || IsProperDescendant(d, e.children[i]))
  }

  /** The `case` elements strictly below `e`, in document order (`e.findall(".//case")`). */
  function FindAllCases(e: Element): seq<Element>
    decreases e, 1
  {
    CasesInList(e.children)
  }

  /** The `case` elements among `cs` and their descendants, in document order. */
  function CasesInList(cs: seq<Element>): seq<Element>
    decreases cs, 0
  {
    if cs == [] then []
    else (if cs[0].tag == "case" then [cs[0]] else []) + FindAllCases(cs[0]) + CasesInList(cs[1..])
  }

  /** Every element found is a `case` element somewhere below the root, and every such element is found. */
  lemma {:induction false} FindAllCasesComplete(e: Element, c: Element)
    ensures c in FindAllCases(e) <==> c.tag == "case" && IsProperDescendant(c, e)
    decreases e, 1
  {
    CasesInListComplete(e.children, c);
  }

  lemma {:induction false} CasesInListComplete(cs: seq<Element>, c: Element)
    ensures c in CasesInList(cs) <==>
              c.tag == "case" && exists i :: 0 <= i < |cs| && (cs[i] == c || IsProperDescendant(c, cs[i]))
    decreases cs, 0
  {
    if cs != [] {
      FindAllCasesComplete(cs[0], c);
      CasesInListComplete(cs[1..], c);
      if c.tag == "case" && exists i :: 0 <= i < |cs| && (cs[i] == c || IsProperDescendant(c, cs[i])) {
        var i :| 0 <= i < |cs| && (cs[i] == c || IsProperDescendant(c, cs[i]));
        if i > 0 {
          assert cs[1..][i - 1] == cs[i];
        }
      }
      if c in CasesInList(cs[1..]) {
        var i :| 0 <= i < |cs[1..]| && (cs[1..][i] == c || IsProperDescendant(c, cs[1..][i]));
        assert cs[i + 1] == cs[1..][i];
      }
    }
  }

  /** The cases found in a list of siblings are those of the first sibling followed by those of the rest. */
  lemma CasesInListAppend(a: seq<Element>, b: seq<Element>)
    ensures CasesInList(a + b) == CasesInList(a) + CasesInList(b)
    decreases |a|
  {
    if a == [] {
      assert a + b == b;
    } else {
      assert (a + b)[1..] == a[1..] + b;
      CasesInListAppend(a[1..], b);
    }
  }

  /**
   * `_extract_single_test_case`: the six fields with their defaults (`""`,
   * and `"Medium"` for the priority); `None` when there is no element or its
   * title is empty.
   */
  function ExtractSingle(c: Option<Element>): (r: Option<RawCase>)
    ensures r.Some? <==> c.Some? && GetElementText(c, "title", "") != []
    ensures r.Some? ==> r.value.title != [] && IsStripped(r.value.title)
    ensures r.Some? ==> r.value.id == GetElementText(c, "id", "")
    ensures r.Some? ==> r.value.priority == GetElementText(c, "priority", "Medium")
    ensures r.Some? && Find(c.value, "custom").None? ==>
              r.value.preconds == "" && r.value.steps == "" && r.value.expected == ""
    ensures r.Some? && Find(c.value, "custom").Some? ==>
              var custom := Find(c.value, "custom");
              r.value.preconds == GetElementText(custom, "preconds", "")
              && r.value.steps == GetElementText(custom, "steps", "")
              && r.value.expected == GetElementText(custom, "expected", "")
  {
    if c.None? then None
    else
      var title := GetElementText(c, "title", "");
      var custom := Find(c.value, "custom");
      if title == [] then None
      else
        Some(RawCase(GetElementText(c, "id", ""), title, GetElementText(c, "priority", "Medium"),
                     GetElementText(custom, "preconds", ""),
                     GetElementText(custom, "steps", ""),
                     GetElementText(custom, "expected", "")))
  }

  /** The record one case element contributes: none, or one. */
  function Kept(c: Element): (r: seq<RawCase>)
    ensures |r| <= 1
  {
    var t := ExtractSingle(Some(c));
    if t.Some? then [t.value] else []
  }

  /** The records kept from a list of case elements: those with a title, in order. */
  function KeptCases(cs: seq<Element>): seq<RawCase>
    decreases |cs|
  {
    if cs == [] then []
    else Kept(cs[0]) + KeptCases(cs[1..])
  }

  /** Keeping distributes over concatenation, so the input order is preserved. */
  lemma {:induction false} KeptCasesAppend(a: seq<Element>, b: seq<Element>)
    ensures KeptCases(a + b) == KeptCases(a) + KeptCases(b)
    decreases |a|
  {
    if a == [] {
      assert a + b == b;
    } else {
      assert (a + b)[0] == a[0];
      assert (a + b)[1..] == a[1..] + b;
      KeptCasesAppend(a[1..], b);
    }
  }

  /** At most one record per case element, and every record has a non-empty title. */
  lemma {:induction false} KeptCasesBounds(cs: seq<Element>)
    ensures |KeptCases(cs)| <= |cs|
    ensures forall k :: 0 <= k < |KeptCases(cs)| ==> KeptCases(cs)[k].title != []
    decreases |cs|
  {
    if cs != [] {
      KeptCasesBounds(cs[1..]);
    }
  }

  /** Each record comes from some case element, and each titled case element gives a record. */
  lemma {:induction false} KeptCasesMembers(cs: seq<Element>, r: RawCase)
    ensures r in KeptCases(cs) <==> exists c :: c in cs && ExtractSingle(Some(c)) == Some(r)
    decreases |cs|
  {
    if cs != [] {
      KeptCasesMembers(cs[1..], r);
      if exists c :: c in cs && ExtractSingle(Some(c)) == Some(r) {
        var c :| c in cs && ExtractSingle(Some(c)) == Some(r);
        if c != cs[0] {
          assert c in cs[1..];
        }
      }
    }
  }

  /** Nothing is dropped exactly when every case element has a non-empty title. */
  lemma {:induction false} KeptCasesAll(cs: seq<Element>)
    ensures |KeptCases(cs)| == |cs| <==> forall k :: 0 <= k < |cs| ==> GetElementText(Some(cs[k]), "title", "") != []
    decreases |cs|
  {
    if cs != [] {
      KeptCasesAll(cs[1..]);
      KeptCasesBounds(cs[1..]);
      if forall k :: 0 <= k < |cs| ==> GetElementText(Some(cs[k]), "title", "") != [] {
        forall k | 0 <= k < |cs[1..]| ensures GetElementText(Some(cs[1..][k]), "title", "") != [] {
          assert cs[1..][k] == cs[k + 1];
        }
      }
      if |KeptCases(cs)| == |cs| {
        forall k | 0 <= k < |cs| ensures GetElementText(Some(cs[k]), "title", "") != [] {
          if k > 0 {
            assert cs[k] == cs[1..][k - 1];
          }
        }
      }
    }
  }

  /** One more case element adds its record, if it has one, at the end. */
  lemma KeptStep(cs: seq<Element>, i: nat)
    requires i < |cs|
    ensures ExtractSingle(Some(cs[i])).Some? ==> KeptCases(cs[..i + 1]) == KeptCases(cs[..i]) + [ExtractSingle(Some(cs[i])).value]
    ensures ExtractSingle(Some(cs[i])).None? ==> KeptCases(cs[..i + 1]) == KeptCases(cs[..i])
  {
    assert cs[..i + 1] == cs[..i] + [cs[i]];
    KeptCasesAppend(cs[..i], [cs[i]]);
    assert KeptCases([cs[i]]) == Kept(cs[i]);
  }

  /** The records `extract_test_cases` returns for a tree (or for no tree). */
  function Extracted(root: Option<Element>): seq<RawCase> {
    if root.None? then [] else KeptCases(FindAllCases(root.value))
  }

  /** `extract_test_cases`: run over the case elements, keeping those that yield a record. */
  method ExtractTestCases(root: Option<Element>) returns (testCases: seq<RawCase>)
    ensures testCases == Extracted(root)
    ensures root.None? ==> testCases == []
  {
    if root.None? {
      return [];
    }
    var caseElements := FindAllCases(root.value);
    testCases := [];
    var i := 0;
    while i < |caseElements|
      invariant 0 <= i <= |caseElements|
      invariant testCases == KeptCases(caseElements[..i])
    {
      KeptStep(caseElements, i);
      var testCase := ExtractSingle(Some(caseElements[i]));
      if testCase.Some? {
        testCases := testCases + [testCase.value];
      }
      i := i + 1;
    }
    assert caseElements[..i] == caseElements;
  }

  /** `validate_xml_structure`: there is a tree, and it has a `sections` child or some `case` below it. */
  function ValidateXmlStructure(root: Option<Element>): (ok: bool)
    ensures root.None? ==> !ok
  {
    root.Some? && (Find(root.value, "sections").Some? || FindAllCases(root.value) != [])
  }

  /** The structural check, stated without the search functions. */
  lemma ValidateXmlStructureMeaning(root: Element)
    ensures ValidateXmlStructure(Some(root)) <==>
              (exists i :: 0 <= i < |root.children| && root.children[i].tag == "sections")
              || (exists c: Element :: c.tag == "case" && IsProperDescendant(c, root))
  {
    if exists c: Element :: c.tag == "case" && IsProperDescendant(c, root) {
      var c: Element :| c.tag == "case" && IsProperDescendant(c, root);
      FindAllCasesComplete(root, c);
    }
    if FindAllCases(root) != [] {
      FindAllCasesComplete(root, FindAllCases(root)[0]);
    }
  }
}
