/**
 * The formatter: checks a cleaned record for the six required fields,
 * normalises its priority to one of the three values the remote table's
 * single-select column accepts, and converts batches, skipping records that
 * fail.
 */
module Formatter {
  import opened Wrappers
  import opened Text
  import opened Values

  const RequiredFields: seq<string> :=
    ["test_case_number", "title", "priority", "precondition", "steps", "expected_result"]

  /** The required fields that must also be non-blank. */
  const CriticalFields: seq<string> := ["test_case_number", "title", "steps", "expected_result"]

  const NotDictMsg := "輸入必須是字典類型"
  const MissingFieldsPrefix := "缺少必要欄位: "

  /** The priority values the table accepts. */
  predicate IsPriority(p: string) {
    p == "High" || p == "Medium" || p == "Low"
  }

  /** The mapping table `{"high": "High", "medium": "Medium", "low": "Low"}` with `Medium` as the fallback. */
  function MapPriority(key: string): (r: string)
    ensures IsPriority(r)
  {
    if key == "high" then "High"
    else if key == "medium" then "Medium"
    else if key == "low" then "Low"
    else "Medium"
  }

  /** The priority for the text `str(priority)`: looked up as `text.strip().lower()`, blank gives `Medium`. */
  function PriorityOf(text: string): (r: string)
    ensures IsPriority(r)
  {
    var key := Lower(Strip(text));
    if key == [] then "Medium" else MapPriority(key)
  }

  /** `format_priority_field`: `None`, blank and unknown values give `Medium`. */
  function FormatPriorityField(priority: Value): (r: string)
    ensures IsPriority(r)
    ensures priority.VNone? ==> r == "Medium"
    ensures priority.VStr? ==> r == PriorityOf(priority.s)
  {
    if priority.VNone? then "Medium" else PriorityOf(Str(priority))
  }

  /** Texts with the same lookup key get the same priority. */
  lemma SameKeySamePriority(x: string, y: string)
    requires Lower(Strip(x)) == Lower(Strip(y))
    ensures PriorityOf(x) == PriorityOf(y)
  {
  }

  /** Whitespace around the text does not matter. */
  lemma PriorityIgnoresSpace(w1: string, t: string, w2: string)
    requires IsBlank(w1) && IsBlank(w2) && IsStripped(t)
    ensures FormatPriorityField(VStr(w1 + t + w2)) == FormatPriorityField(VStr(t))
  {
    KeyIgnoresSpace(w1, t, w2);
    SameKeySamePriority(w1 + t + w2, t);
  }

  lemma KeyIgnoresSpace(w1: string, t: string, w2: string)
    requires IsBlank(w1) && IsBlank(w2) && IsStripped(t)
    ensures Lower(Strip(w1 + t + w2)) == Lower(Strip(t))
  {
    StripFrame(w1, t, w2);
    StrippedIsFixed(t);
  }

  /** Letter case does not matter. */
  lemma PriorityIgnoresCase(s: string, u: string)
    requires Lower(s) == Lower(u)
    ensures FormatPriorityField(VStr(s)) == FormatPriorityField(VStr(u))
  {
    KeyIgnoresCase(s, u);
    SameKeySamePriority(s, u);
  }

  lemma KeyIgnoresCase(s: string, u: string)
    requires Lower(s) == Lower(u)
    ensures Lower(Strip(s)) == Lower(Strip(u))
  {
    LowerStrip(s);
    LowerStrip(u);
  }

  /** The three table values map back to themselves. */
  lemma PriorityFixed(p: string)
    requires IsPriority(p)
    ensures FormatPriorityField(VStr(p)) == p
  {
    PriorityStripped(p);
    PriorityOfStripped(p);
    var key := LowerPriority(p);
    assert MapPriority(key) == p;
  }

  lemma PriorityOfStripped(s: string)
    requires IsStripped(s) && s != []
    ensures PriorityOf(s) == MapPriority(Lower(s))
  {
    StrippedIsFixed(s);
  }

  lemma PriorityStripped(p: string)
    requires IsPriority(p)
    ensures IsStripped(p) && p != []
  {
    assert !IsSpace(p[0]) && !IsSpace(p[|p| - 1]);
  }

  lemma LowerPriority(p: string) returns (key: string)
    requires IsPriority(p)
    ensures key == Lower(p) && key != []
    ensures p == "High" ==> key == "high"
    ensures p == "Medium" ==> key == "medium"
    ensures p == "Low" ==> key == "low"
  {
    key := Lower(p);
    if p == "High" {
      assert key == "high";
    } else if p == "Medium" {
      assert key == "medium";
    } else {
      assert key == "low";
    }
  }

  /** Normalising a normalised priority changes nothing. */
  lemma PriorityIdempotent(priority: Value)
    ensures FormatPriorityField(VStr(FormatPriorityField(priority))) == FormatPriorityField(priority)
  {
    PriorityFixed(FormatPriorityField(priority));
  }

  /** The six required keys, named one by one (the first loop of `validate_required_fields`). */
  predicate HasRequired(m: map<string, Value>) {
    "test_case_number" in m && "title" in m && "priority" in m
    && "precondition" in m && "steps" in m && "expected_result" in m
  }

  /** The four critical fields are not blank (the second loop). */
  predicate CriticalNonBlank(m: map<string, Value>)
    requires HasRequired(m)
  {
    !IsBlankValue(m["test_case_number"]) && !IsBlankValue(m["title"])
    && !IsBlankValue(m["steps"]) && !IsBlankValue(m["expected_result"])
  }

  /**
   * `validate_required_fields`: a dict holding all six fields whose number,
   * title, steps and expected result are not blank. The precondition and the
   * priority may be blank.
   */
  function ValidateRequiredFields(testCase: Value): (ok: bool)
    ensures ok ==> testCase.VDict? && HasRequired(testCase.entries)
    ensures ok ==> !IsBlankValue(testCase.entries["title"]) && !IsBlankValue(testCase.entries["steps"])
  {
    testCase.VDict? && HasRequired(testCase.entries) && CriticalNonBlank(testCase.entries)
  }

  /** The validation, stated over the two field lists the formatter declares. */
  lemma ValidateMeaning(testCase: Value)
    ensures ValidateRequiredFields(testCase) <==>
              testCase.VDict?
              && (forall k :: 0 <= k < |RequiredFields| ==> RequiredFields[k] in testCase.entries)
              && (forall k :: 0 <= k < |CriticalFields| ==>
                    CriticalFields[k] in testCase.entries && !IsBlankValue(testCase.entries[CriticalFields[k]]))
  {
    if testCase.VDict? {
      HasRequiredMeaning(testCase.entries);
      if HasRequired(testCase.entries) {
        CriticalMeaning(testCase.entries);
      }
    }
  }

  /** `HasRequired` is membership of every name in `RequiredFields`. */
  lemma HasRequiredMeaning(m: map<string, Value>)
    ensures HasRequired(m) <==> forall k :: 0 <= k < |RequiredFields| ==> RequiredFields[k] in m
  {
    if forall k :: 0 <= k < |RequiredFields| ==> RequiredFields[k] in m {
      assert RequiredFields[0] in m && RequiredFields[1] in m && RequiredFields[2] in m;
      assert RequiredFields[3] in m && RequiredFields[4] in m && RequiredFields[5] in m;
    }
  }

  /** `CriticalNonBlank` is non-blankness of every name in `CriticalFields`. */
  lemma CriticalMeaning(m: map<string, Value>)
    requires HasRequired(m)
    ensures CriticalNonBlank(m) <==>
              forall k :: 0 <= k < |CriticalFields| ==> CriticalFields[k] in m && !IsBlankValue(m[CriticalFields[k]])
  {
    if forall k :: 0 <= k < |CriticalFields| ==> CriticalFields[k] in m && !IsBlankValue(m[CriticalFields[k]]) {
      assert !IsBlankValue(m[CriticalFields[0]]) && !IsBlankValue(m[CriticalFields[1]]);
      assert !IsBlankValue(m[CriticalFields[2]]) && !IsBlankValue(m[CriticalFields[3]]);
    }
  }

  /** The formatted record: five copied fields and the normalised priority. */
  datatype LarkRecord = LarkRecord(testCaseNumber: string, title: string, priority: string,
                                   precondition: string, steps: string, expectedResult: string)

  /** The formatted record as the dict the formatter returns. */
  function RecordToDict(r: LarkRecord): (d: map<string, Value>)
    ensures HasRequired(d)
    ensures d["test_case_number"] == VStr(r.testCaseNumber) && d["title"] == VStr(r.title)
    ensures d["priority"] == VStr(r.priority) && d["precondition"] == VStr(r.precondition)
    ensures d["steps"] == VStr(r.steps) && d["expected_result"] == VStr(r.expectedResult)
  {
    map["test_case_number" := VStr(r.testCaseNumber), "title" := VStr(r.title),
        "priority" := VStr(r.priority), "precondition" := VStr(r.precondition),
        "steps" := VStr(r.steps), "expected_result" := VStr(r.expectedResult)]
  }

  /** What `format_test_case_for_lark` raises. */
  datatype FormatError =
    | FormatTypeError(msg: string)
    | ValidationError(missing: seq<string>)

  /** `[field for field in required_fields if field not in test_case]`, in declaration order. */
  function MissingFields(m: map<string, Value>): (r: seq<string>)
    ensures r == [] <==> HasRequired(m)
    ensures |r| <= 6
  {
    (if "test_case_number" in m then [] else ["test_case_number"])
    + (if "title" in m then [] else ["title"])
    + (if "priority" in m then [] else ["priority"])
    + (if "precondition" in m then [] else ["precondition"])
    + (if "steps" in m then [] else ["steps"])
    + (if "expected_result" in m then [] else ["expected_result"])
  }

  /** The names reported missing are exactly the required fields that are absent. */
  lemma MissingFieldsMembers(m: map<string, Value>, f: string)
    ensures f in MissingFields(m) <==> f in RequiredFields && f !in m
  {
  }

  /** `str()` of a Python list of strings. */
  function ListStr(xs: seq<string>): string {
    Str(VList(seq(|xs|, k requires 0 <= k < |xs| => VStr(xs[k]))))
  }

  /** The text of the exception, `str(e)`. */
  function ErrorMessage(e: FormatError): (msg: string)
    ensures e.ValidationError? ==> |msg| >= |MissingFieldsPrefix| && msg[..|MissingFieldsPrefix|] == MissingFieldsPrefix
  {
    match e
    case FormatTypeError(m) => m
    case ValidationError(missing) => MissingFieldsPrefix + ListStr(missing)
  }

  /**
   * `format_test_case_for_lark`: a non-dict raises `TypeError`; a record that
   * fails validation raises `ValidationError` naming the absent fields
   * (possibly none, when only a value is blank); otherwise the five text
   * fields are `str()` of the input and the priority is normalised.
   */
  function FormatTestCaseForLark(testCase: Value): (r: Result<LarkRecord, FormatError>)
    ensures !testCase.VDict? ==> r == Err(FormatTypeError(NotDictMsg))
    ensures testCase.VDict? ==> (r.Ok? <==> ValidateRequiredFields(testCase))
    ensures testCase.VDict? && r.Err? ==>
              r.error.ValidationError? && r.error.missing == MissingFields(testCase.entries)
  {
    if !testCase.VDict? then Err(FormatTypeError(NotDictMsg))
    else if !ValidateRequiredFields(testCase) then
      var missing := MissingFields(testCase.entries);
      Err(ValidationError(missing))
    else
      var m := testCase.entries;
      Ok(LarkRecord(Str(m["test_case_number"]), Str(m["title"]), FormatPriorityField(m["priority"]),
                    Str(m["precondition"]), Str(m["steps"]), Str(m["expected_result"])))
  }

  /** The five text fields are `str()` of the input's values and the priority is normalised. */
  lemma FormatFields(testCase: Value)
    requires FormatTestCaseForLark(testCase).Ok?
    ensures var m, r := testCase.entries, FormatTestCaseForLark(testCase).value;
            r.testCaseNumber == Str(m["test_case_number"]) && r.title == Str(m["title"])
            && r.precondition == Str(m["precondition"]) && r.steps == Str(m["steps"])
            && r.expectedResult == Str(m["expected_result"])
            && r.priority == FormatPriorityField(m["priority"])
  {
  }

  /** A formatted record passes validation again: its critical fields are the non-blank texts of the input. */
  lemma FormattedIsValid(testCase: Value)
    requires FormatTestCaseForLark(testCase).Ok?
    ensures ValidateRequiredFields(VDict(RecordToDict(FormatTestCaseForLark(testCase).value)))
    ensures IsPriority(FormatTestCaseForLark(testCase).value.priority)
  {
    var m := testCase.entries;
    var rec := FormatTestCaseForLark(testCase).value;
    assert rec.testCaseNumber == Str(m["test_case_number"]) && rec.title == Str(m["title"]);
    assert rec.steps == Str(m["steps"]) && rec.expectedResult == Str(m["expected_result"]);
    RecordValid(rec);
  }

  /** A record whose critical texts are not all whitespace passes validation. */
  lemma RecordValid(rec: LarkRecord)
    requires !IsBlank(rec.testCaseNumber) && !IsBlank(rec.title) && !IsBlank(rec.steps) && !IsBlank(rec.expectedResult)
    ensures ValidateRequiredFields(VDict(RecordToDict(rec)))
  {
  }

  /** The dict has exactly the six required keys, and every value is a string. */
  lemma RecordToDictKeys(rec: LarkRecord)
    ensures RecordToDict(rec).Keys == {"test_case_number", "title", "priority", "precondition", "steps", "expected_result"}
    ensures forall k :: k in RecordToDict(rec) ==> RecordToDict(rec)[k].VStr?
  {
  }

  /** The record one input contributes to a batch: none, or one. */
  function Formatted(testCase: Value): (r: seq<LarkRecord>)
    ensures |r| <= 1
  {
    var f := FormatTestCaseForLark(testCase);
    if f.Ok? then [f.value] else []
  }

  /** The records `batch_format_records` keeps: those that validate and format, in input order. */
  function FormatBatch(testCases: seq<Value>): seq<LarkRecord>
    decreases |testCases|
  {
    if testCases == [] then []
    else Formatted(testCases[0]) + FormatBatch(testCases[1..])
  }

  /** Formatting a batch distributes over concatenation: the input order is kept. */
  lemma {:induction false} FormatBatchAppend(a: seq<Value>, b: seq<Value>)
    ensures FormatBatch(a + b) == FormatBatch(a) + FormatBatch(b)
    decreases |a|
  {
    if a == [] {
      assert a + b == b;
    } else {
      assert (a + b)[0] == a[0];
      assert (a + b)[1..] == a[1..] + b;
      FormatBatchAppend(a[1..], b);
    }
  }

  /** The output is no longer than the input, and holds exactly the records of inputs that format. */
  lemma {:induction false} FormatBatchMembers(testCases: seq<Value>, r: LarkRecord)
    ensures |FormatBatch(testCases)| <= |testCases|
    ensures r in FormatBatch(testCases) <==> exists c :: c in testCases && FormatTestCaseForLark(c) == Ok(r)
    decreases |testCases|
  {
    if testCases != [] {
      FormatBatchMembers(testCases[1..], r);
      if exists c :: c in testCases && FormatTestCaseForLark(c) == Ok(r) {
        var c :| c in testCases && FormatTestCaseForLark(c) == Ok(r);
        if c != testCases[0] {
          assert c in testCases[1..];
        }
      }
    }
  }

  /** Every record of a batch passes validation. */
  lemma FormatBatchValid(testCases: seq<Value>, r: LarkRecord)
    requires r in FormatBatch(testCases)
    ensures ValidateRequiredFields(VDict(RecordToDict(r)))
    ensures IsPriority(r.priority)
  {
    FormatBatchMembers(testCases, r);
    var c :| c in testCases && FormatTestCaseForLark(c) == Ok(r);
    FormattedIsValid(c);
  }

  /** What one more input adds to the batch: its record exactly when it validates. */
  lemma BatchStep(testCases: seq<Value>, i: nat)
    requires i < |testCases|
    ensures ValidateRequiredFields(testCases[i]) ==>
              FormatBatch(testCases[..i + 1]) == FormatBatch(testCases[..i]) + [FormatTestCaseForLark(testCases[i]).value]
    ensures !ValidateRequiredFields(testCases[i]) ==> FormatBatch(testCases[..i + 1]) == FormatBatch(testCases[..i])
  {
    assert testCases[..i + 1] == testCases[..i] + [testCases[i]];
    FormatBatchAppend(testCases[..i], [testCases[i]]);
    assert FormatBatch([testCases[i]]) == Formatted(testCases[i]);
  }

  /** `batch_format_records`: records that fail are counted and skipped; the rest are kept in order. */
  method BatchFormatRecords(testCases: seq<Value>) returns (formatted: seq<LarkRecord>)
    ensures formatted == FormatBatch(testCases)
    ensures testCases == [] ==> formatted == []
  {
    if testCases == [] {
      return [];
    }
    formatted := [];
    var errorCount := 0;
    var i := 0;
    while i < |testCases|
      invariant 0 <= i <= |testCases|
      invariant formatted == FormatBatch(testCases[..i])
      invariant errorCount + |formatted| == i
    {
      var testCase := testCases[i];
      BatchStep(testCases, i);
      if !ValidateRequiredFields(testCase) {
        errorCount := errorCount + 1;
      } else {
        var result := FormatTestCaseForLark(testCase);
        match result {
          case Ok(record) =>
            formatted := formatted + [record];
          case Err(_) =>
            errorCount := errorCount + 1;
        }
      }
      i := i + 1;
    }
    assert testCases[..i] == testCases;
  }
}
