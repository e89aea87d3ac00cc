/**
 * src/utils/validators.py: the format checks for case numbers and
 * priorities, the required-field check, the error collector
 * `ValidationResult`, and the rule-driven `FieldValidator`.
 */
module Validators {
  import opened Wrappers
  import opened Text
  import opened Values

  // ---------------------------------------------------------------------
  // validate_test_case_number with the default pattern
  // ---------------------------------------------------------------------

  /** One position of a regular expression made only of literals and `\d`. */
  datatype Atom = Lit(c: char) | Digit

  predicate AtomMatches(a: Atom, c: char) {
    match a
    case Lit(l) => c == l
    case Digit => IsDigit(c)
  }

  /** `^TCG-\d{3}\.\d{3}\.\d{3}$`, position by position. */
  const CaseNumberPattern: seq<Atom> :=
    [Lit('T'), Lit('C'), Lit('G'), Lit('-'), Digit, Digit, Digit, Lit('.'),
     Digit, Digit, Digit, Lit('.'), Digit, Digit, Digit]

  /** The atoms match `s` exactly, one character each. */
  predicate AtomsMatch(p: seq<Atom>, s: string) {
    |s| == |p| && forall i :: 0 <= i < |p| ==> AtomMatches(p[i], s[i])
  }

  /**
   * `re.match('^' + p + '$', s)`: Python's `$` also matches just before a
   * newline that ends the string.
   */
  predicate AnchoredMatch(p: seq<Atom>, s: string) {
    AtomsMatch(p, s) || (|s| == |p| + 1 && s[|p|] == '\n' && AtomsMatch(p, s[..|p|]))
  }

  predicate ThreeDigitsAt(s: string, i: nat)
    requires i + 3 <= |s|
  {
    IsDigit(s[i]) && IsDigit(s[i + 1]) && IsDigit(s[i + 2])
  }

  /** `TCG-XXX.YYY.ZZZ` with exactly three digits per group. */
  predicate IsCaseNumber(s: string) {
    |s| == 15 && s[0] == 'T' && s[1] == 'C' && s[2] == 'G' && s[3] == '-'
    && ThreeDigitsAt(s, 4) && s[7] == '.' && ThreeDigitsAt(s, 8) && s[11] == '.' && ThreeDigitsAt(s, 12)
  }

  /** The pattern accepts exactly the `TCG-XXX.YYY.ZZZ` strings. */
  lemma CaseNumberPatternMeaning(s: string)
    ensures AtomsMatch(CaseNumberPattern, s) <==> IsCaseNumber(s)
  {
    var p := CaseNumberPattern;
    if |s| == 15 {
      assert AtomMatches(p[0], s[0]) <==> s[0] == 'T';
      assert AtomMatches(p[3], s[3]) <==> s[3] == '-';
      assert AtomMatches(p[7], s[7]) <==> s[7] == '.';
      assert AtomMatches(p[11], s[11]) <==> s[11] == '.';
      if IsCaseNumber(s) {
        forall i | 0 <= i < |p| ensures AtomMatches(p[i], s[i]) {
        }
      }
    }
  }

  /**
   * `validate_test_case_number(case_number, strip_whitespace=...)` with the
   * default pattern: a falsy value fails, a string is stripped when asked and
   * matched; any other value makes `re.match` raise, which yields `False`.
   */
  function ValidateTestCaseNumber(caseNumber: Value, stripWhitespace: bool): (ok: bool)
    ensures ok ==> caseNumber.VStr? && caseNumber.s != []
  {
    if !Truthy(caseNumber) then false
    else if !caseNumber.VStr? then false
    else
      var s := if stripWhitespace then Strip(caseNumber.s) else caseNumber.s;
      AnchoredMatch(CaseNumberPattern, s)
  }

  /** With stripping, exactly the strings whose stripped form is `TCG-XXX.YYY.ZZZ` pass. */
  lemma StrippedCaseNumber(s: string)
    ensures ValidateTestCaseNumber(VStr(s), true) <==> IsCaseNumber(Strip(s))
  {
    var t := Strip(s);
    CaseNumberPatternMeaning(t);
    if |t| == 16 {
      assert t[15] != '\n' by { assert !IsSpace(t[|t| - 1]); }
    }
    if IsCaseNumber(t) {
      assert s != [];
    }
  }

  /** Without stripping the match is exact, apart from one final newline that `$` lets through. */
  lemma UnstrippedCaseNumber(s: string)
    ensures ValidateTestCaseNumber(VStr(s), false) <==>
              IsCaseNumber(s) || (|s| == 16 && s[15] == '\n' && IsCaseNumber(s[..15]))
  {
    CaseNumberPatternMeaning(s);
    if |s| == 16 {
      CaseNumberPatternMeaning(s[..15]);
    }
  }

  /** Whatever is not a string, or is empty, fails. */
  lemma CaseNumberNeedsText(v: Value, strip: bool)
    requires !v.VStr? || v.s == []
    ensures !ValidateTestCaseNumber(v, strip)
  {
  }

  // ---------------------------------------------------------------------
  // validate_priority_value
  // ---------------------------------------------------------------------

  const DefaultPriorities: seq<string> := ["High", "Medium", "Low"]

  /** `[val.lower() for val in allowed_values]`. */
  function LowerAll(xs: seq<string>): (r: seq<string>)
    ensures |r| == |xs| && forall k :: 0 <= k < |xs| ==> r[k] == Lower(xs[k])
    decreases |xs|
  {
    if xs == [] then [] else [Lower(xs[0])] + LowerAll(xs[1..])
  }

  /**
   * `validate_priority_value`: a falsy value fails; a string passes when its
   * stripped, lower-cased form is one of the lower-cased allowed values; any
   * other value has no `strip` and fails.
   */
  function ValidatePriorityValue(priority: Value, allowed: seq<string>): (r: bool)
    ensures r ==> priority.VStr? && priority.s != []
    ensures allowed == [] ==> !r
  {
    Truthy(priority) && priority.VStr? && Lower(Strip(priority.s)) in LowerAll(allowed)
  }

  lemma LowerIdempotent(s: string)
    ensures Lower(Lower(s)) == Lower(s)
  {
  }

  /** Stripping and lower-casing a second time changes nothing. */
  lemma NormalFormFixed(s: string)
    ensures Lower(Strip(Lower(Strip(s)))) == Lower(Strip(s))
  {
    var u := Strip(s);
    var t := Lower(u);
    StripIdempotent(s);
    LowerStrip(u);
    assert Strip(t) == Lower(u);
    LowerIdempotent(u);
  }

  /** Case and surrounding whitespace do not matter, once something is left after stripping. */
  lemma PriorityNormalised(s: string, allowed: seq<string>)
    requires Strip(s) != []
    ensures ValidatePriorityValue(VStr(s), allowed) == ValidatePriorityValue(VStr(Lower(Strip(s))), allowed)
  {
    NormalFormFixed(s);
    assert |Lower(Strip(s))| == |Strip(s)|;
  }

  /** With the default list, the accepted strings are `high`, `medium` and `low` in any case, with any padding. */
  lemma DefaultPriorityMeaning(s: string)
    ensures ValidatePriorityValue(VStr(s), DefaultPriorities) <==> Lower(Strip(s)) in ["high", "medium", "low"]
  {
    var ls := LowerAll(DefaultPriorities);
    assert ls[0] == Lower("High") == "high";
    assert ls[1] == Lower("Medium") == "medium";
    assert ls[2] == Lower("Low") == "low";
    assert ls == ["high", "medium", "low"];
    if Lower(Strip(s)) in ls {
      assert Strip(s) != [];
    }
  }

  // ---------------------------------------------------------------------
  // validate_required_fields
  // ---------------------------------------------------------------------

  /** `value is None or (isinstance(value, str) and not value.strip())`. */
  predicate EmptyValue(v: Value) {
    v == VNone || (v.VStr? && Strip(v.s) == [])
  }

  /** The `TypeError` message for looking up a value that cannot be hashed. */
  function UnhashableMsg(v: Value): string {
    "unhashable type: '" + TypeName(v) + "'"
  }

  /**
   * The loop of `validate_required_fields` from position `from` on. A
   * string name is looked up; a scalar that is not a string is never a key;
   * a list or dict cannot be hashed and raises.
   */
  function CheckFields(data: map<string, Value>, fields: seq<Value>, allowEmpty: bool, from: nat): Result<bool, string>
    requires from <= |fields|
    decreases |fields| - from
  {
    if from == |fields| then Ok(true)
    else match fields[from]
      case VStr(k) =>
        if k !in data then Ok(false)
        else if !allowEmpty && EmptyValue(data[k]) then Ok(false)
        else CheckFields(data, fields, allowEmpty, from + 1)
      case VList(_) => Err(UnhashableMsg(fields[from]))
      case VDict(_) => Err(UnhashableMsg(fields[from]))
      case _ => Ok(false)
  }

  /** `validate_required_fields(data, required_fields, allow_empty)`. */
  function ValidateRequiredFields(data: Value, requiredFields: Value, allowEmpty: bool): Result<bool, string> {
    if !data.VDict? || !requiredFields.VList? then Ok(false)
    else CheckFields(data.entries, requiredFields.items, allowEmpty, 0)
  }

  /** The field `f` is present and, unless empty values are allowed, not empty. */
  predicate FieldFilled(data: map<string, Value>, f: string, allowEmpty: bool) {
    f in data && (allowEmpty || !EmptyValue(data[f]))
  }

  /** For a list of names, the check holds exactly when every named field is filled. */
  lemma {:induction false} CheckFieldsMeaning(data: map<string, Value>, fields: seq<Value>, allowEmpty: bool, from: nat)
    requires from <= |fields| && forall k :: 0 <= k < |fields| ==> fields[k].VStr?
    ensures CheckFields(data, fields, allowEmpty, from)
            == Ok(forall k :: from <= k < |fields| ==> FieldFilled(data, fields[k].s, allowEmpty))
    decreases |fields| - from
  {
    if from < |fields| {
      CheckFieldsMeaning(data, fields, allowEmpty, from + 1);
    }
  }

  /** The whole check on a dict and a list of names. */
  lemma RequiredFieldsMeaning(data: map<string, Value>, names: seq<string>, allowEmpty: bool)
    ensures ValidateRequiredFields(VDict(data), VList(AsValues(names)), allowEmpty)
            == Ok(forall k :: 0 <= k < |names| ==> FieldFilled(data, names[k], allowEmpty))
  {
    CheckFieldsMeaning(data, AsValues(names), allowEmpty, 0);
  }

  /** The names as Python strings. */
  function AsValues(names: seq<string>): (r: seq<Value>)
    ensures |r| == |names| && forall k :: 0 <= k < |names| ==> r[k] == VStr(names[k])
  {
    seq(|names|, k requires 0 <= k < |names| => VStr(names[k]))
  }

  /** Keys that are not asked for do not change the verdict. */
  lemma ExtraKeysIgnored(data: map<string, Value>, names: seq<string>, allowEmpty: bool, key: string, v: Value)
    requires key !in names
    ensures ValidateRequiredFields(VDict(data[key := v]), VList(AsValues(names)), allowEmpty)
            == ValidateRequiredFields(VDict(data), VList(AsValues(names)), allowEmpty)
  {
    RequiredFieldsMeaning(data, names, allowEmpty);
    RequiredFieldsMeaning(data[key := v], names, allowEmpty);
    forall k | 0 <= k < |names|
      ensures FieldFilled(data[key := v], names[k], allowEmpty) == FieldFilled(data, names[k], allowEmpty)
    {
      assert names[k] != key;
    }
  }

  /** Whatever passes without empty values also passes with them allowed. */
  lemma {:induction false} AllowEmptyIsWeaker(data: map<string, Value>, fields: seq<Value>, from: nat)
    requires from <= |fields| && CheckFields(data, fields, false, from) == Ok(true)
    ensures CheckFields(data, fields, true, from) == Ok(true)
    decreases |fields| - from
  {
    if from < |fields| {
      AllowEmptyIsWeaker(data, fields, from + 1);
    }
  }

  // ---------------------------------------------------------------------
  // ValidationResult
  // ---------------------------------------------------------------------

  /** `add_error` on the error table: `message` is appended under `field`. */
  function WithError(errors: map<string, seq<string>>, field: string, message: string): (r: map<string, seq<string>>)
    ensures field in r && r.Keys == errors.Keys + {field}
  {
    errors[field := (if field in errors then errors[field] else []) + [message]]
  }

  /** Earlier messages are kept, the new one comes last, and other fields are untouched. */
  lemma WithErrorKeeps(errors: map<string, seq<string>>, field: string, message: string)
    ensures var r := WithError(errors, field, message);
            (field in errors ==> r[field] == errors[field] + [message])
            && (field !in errors ==> r[field] == [message])
            && forall f :: f in errors && f != field ==> r[f] == errors[f]
  {
  }

  class ValidationResult {
    var isValid: bool
    var errors: map<string, seq<string>>

    constructor(isValid: bool, errors: map<string, seq<string>>)
      ensures this.isValid == isValid && this.errors == errors
    {
      this.isValid := isValid;
      this.errors := errors;
    }

    /** `add_error`: the message is recorded under the field and the result is no longer valid. */
    method AddError(field: string, message: string)
      modifies this
      ensures errors == WithError(old(errors), field, message)
      ensures !isValid
    {
      if field !in errors {
        errors := errors[field := []];
      }
      errors := errors[field := errors[field] + [message]];
      isValid := false;
    }
  }

  // ---------------------------------------------------------------------
  // FieldValidator
  // ---------------------------------------------------------------------

  /** The built-in rules of `FieldValidator`. */
  datatype Builtin =
    | Required | IsString | IsInteger | IsFloat | Email | Url
    | MinLength | MaxLength | MinValue | MaxValue

  /** A rule in the table: a built-in one, or one added with `add_rule` (a one-argument callable). */
  datatype Rule = BuiltinRule(kind: Builtin) | Custom(check: Value -> bool)

  /**
   * The verdicts of the e-mail and URL regular expressions and of the
   * float-based `min`/`max` rules, which are not modelled: the model takes
   * them as given.
   */
  type Oracle = (Builtin, Value, Option<string>) -> bool

  /** The rules whose method takes a parameter after the value. */
  predicate TakesParam(k: Builtin) {
    k == MinLength || k == MaxLength || k == MinValue || k == MaxValue
  }

  /** The table built by `FieldValidator.__init__`. */
  function DefaultRules(): map<string, Rule> {
    map["required" := BuiltinRule(Required), "string" := BuiltinRule(IsString),
        "integer" := BuiltinRule(IsInteger), "float" := BuiltinRule(IsFloat),
        "email" := BuiltinRule(Email), "url" := BuiltinRule(Url),
        "min_length" := BuiltinRule(MinLength), "max_length" := BuiltinRule(MaxLength),
        "min" := BuiltinRule(MinValue), "max" := BuiltinRule(MaxValue)]
  }

  function DigitValue(c: char): nat
    requires IsDigit(c)
  {
    c as int - '0' as int
  }

  predicate AllDigits(s: string) {
    forall i :: 0 <= i < |s| ==> IsDigit(s[i])
  }

  /** The number written by a run of decimal digits. */
  function DigitsValue(s: string): nat
    requires AllDigits(s)
    decreases |s|
  {
    if s == [] then 0 else DigitsValue(s[..|s| - 1]) * 10 + DigitValue(s[|s| - 1])
  }

  /** Python's `int(s)` on a string: optional padding, an optional sign, and decimal digits. */
  function ParseInt(s: string): Option<int> {
    var t := Strip(s);
    if t == [] then None
    else
      var neg := t[0] == '-';
      var body := if t[0] == '-' || t[0] == '+' then t[1..] else t;
      if body == [] || !AllDigits(body) then None
      else
        var n: int := DigitsValue(body);
        Some(if neg then -n else n)
  }

  lemma DigitCharValue(d: nat)
    requires d < 10
    ensures IsDigit(DigitChar(d)) && DigitValue(DigitChar(d)) == d
  {
  }

  /** Reading back what `str(n)` writes gives `n`. */
  lemma {:induction false} NatRoundTrip(n: nat)
    ensures AllDigits(NatToString(n)) && DigitsValue(NatToString(n)) == n
    decreases n
  {
    var r := NatToString(n);
    if n < 10 {
      DigitCharValue(n);
    } else {
      NatRoundTrip(n / 10);
      DigitCharValue(n % 10);
      assert r[..|r| - 1] == NatToString(n / 10);
    }
  }

  /** The digits `str(n)` writes read back as `n`, with no padding to strip. */
  lemma DigitsReadBack(n: nat)
    ensures var d := NatToString(n); IsStripped(d) && AllDigits(d) && DigitsValue(d) == n
  {
    var d := NatToString(n);
    NatRoundTrip(n);
    assert !IsSpace(d[0]) && !IsSpace(d[|d| - 1]);
  }

  /** `int(str(i)) == i`. */
  lemma ParseIntRoundTrip(i: int)
    ensures ParseInt(IntToString(i)) == Some(i)
  {
    var r := IntToString(i);
    var d := NatToString(if i < 0 then -i else i);
    DigitsReadBack(if i < 0 then -i else i);
    if i < 0 {
      assert r == "-" + d;
      assert IsStripped(r) by { assert r[|r| - 1] == d[|d| - 1]; }
      StrippedIsFixed(r);
      assert r[1..] == d;
    } else {
      assert r == d;
      StrippedIsFixed(r);
      assert r[0] != '-' && r[0] != '+' by { assert IsDigit(d[0]); }
    }
  }

  /** The name of the bound method behind a built-in rule. */
  function MethodName(k: Builtin): string {
    match k
    case Required => "_validate_required"
    case IsString => "_validate_string"
    case IsInteger => "_validate_integer"
    case IsFloat => "_validate_float"
    case Email => "_validate_email"
    case Url => "_validate_url"
    case MinLength => "_validate_min_length"
    case MaxLength => "_validate_max_length"
    case MinValue => "_validate_min_value"
    case MaxValue => "_validate_max_value"
  }

  /** The name of the parameter of a built-in rule that takes one. */
  function ParamName(k: Builtin): string
    requires TakesParam(k)
  {
    match k
    case MinLength => "min_length"
    case MaxLength => "max_length"
    case MinValue => "min_value"
    case MaxValue => "max_value"
  }

  /**
   * The `TypeError` message for calling a built-in rule's method with a
   * parameter it does not take, or without the one it needs (as Python 3.10
   * and later word it).
   */
  function ArgumentErrorMsg(k: Builtin, param: Option<string>): string
    requires TakesParam(k) != param.Some?
  {
    "FieldValidator." + MethodName(k) + "() "
    + if param.Some? then "takes 2 positional arguments but 3 were given"
      else "missing 1 required positional argument: '" + ParamName(k) + "'"
  }

  /**
   * The end of the `TypeError` message for calling a one-argument rule added
   * with `add_rule` with a parameter; Python puts the callable's own name in front.
   */
  const CustomArgumentMsg := "() takes 1 positional argument but 2 were given"

  /**
   * One rule applied to a value. A parameter given to a rule that takes none,
   * or missing for one that needs it, makes the call raise.
   */
  function ApplyRule(rule: Rule, value: Value, param: Option<string>, oracle: Oracle): Result<bool, string> {
    match rule
    case Custom(check) => if param.Some? then Err(CustomArgumentMsg) else Ok(check(value))
    case BuiltinRule(k) =>
      if TakesParam(k) != param.Some? then Err(ArgumentErrorMsg(k, param))
      else match k
        case Required => Ok(!EmptyValue(value))
        case IsString => Ok(value.VStr?)
        case IsInteger => Ok(value.VInt?)
        case IsFloat => Ok(value.VInt?)
        case MinLength =>
          (match ParseInt(param.value)
           case None => Ok(false)
           case Some(n) => Ok(HasLen(value) && Len(value) >= n))
        case MaxLength =>
          (match ParseInt(param.value)
           case None => Ok(false)
           case Some(n) => Ok(HasLen(value) && Len(value) <= n))
        case _ => Ok(oracle(k, value, param))
  }

  /**
   * `rule.split(':', 1)` followed by the truthiness test on the parameter:
   * no colon and an empty parameter both mean a call without one.
   */
  function SplitRule(rule: string): (r: (string, Option<string>)) {
    var i := FindChar(rule, ':', 0);
    if i == |rule| then (rule, None)
    else (rule[..i], if rule[i + 1..] == [] then None else Some(rule[i + 1..]))
  }

  /** The split is at the first colon: the parameter keeps any later colons. */
  lemma SplitAtFirstColon(name: string, param: string)
    requires ':' !in name
    ensures SplitRule(name + ":" + param) == (name, if param == [] then None else Some(param))
  {
    var s := name + ":" + param;
    forall k | 0 <= k < |name| ensures s[k] != ':' {
      assert s[k] == name[k];
    }
    FindCharUnique(s, ':', 0, |name|);
    assert s[..|name|] == name;
    assert s[|name| + 1..] == param;
  }

  /** A rule without a colon is a name alone. */
  lemma SplitNoColon(rule: string)
    requires ':' !in rule
    ensures SplitRule(rule) == (rule, None)
  {
  }

  /** The outcome of one rule string under a table: unknown names fail. */
  function RuleOutcome(table: map<string, Rule>, value: Value, rule: string, oracle: Oracle): Result<bool, string> {
    var (name, param) := SplitRule(rule);
    if name !in table then Ok(false) else ApplyRule(table[name], value, param, oracle)
  }

  /** The loop of `FieldValidator.validate` from position `from` on: it stops at the first failure. */
  function RunRules(table: map<string, Rule>, value: Value, rules: seq<string>, oracle: Oracle, from: nat): Result<bool, string>
    requires from <= |rules|
    decreases |rules| - from
  {
    if from == |rules| then Ok(true)
    else match RuleOutcome(table, value, rules[from], oracle)
      case Err(e) => Err(e)
      case Ok(passed) => if !passed then Ok(false) else RunRules(table, value, rules, oracle, from + 1)
  }

  /** `validate` is true exactly when every rule is known and passes. */
  lemma {:induction false} RunRulesMeaning(table: map<string, Rule>, value: Value, rules: seq<string>, oracle: Oracle, from: nat)
    requires from <= |rules|
    ensures RunRules(table, value, rules, oracle, from) == Ok(true)
            <==> forall k :: from <= k < |rules| ==> RuleOutcome(table, value, rules[k], oracle) == Ok(true)
    decreases |rules| - from
  {
    if from < |rules| {
      RunRulesMeaning(table, value, rules, oracle, from + 1);
      var o := RuleOutcome(table, value, rules[from], oracle);
      if o == Ok(true) {
        assert RunRules(table, value, rules, oracle, from) == RunRules(table, value, rules, oracle, from + 1);
      } else {
        assert RunRules(table, value, rules, oracle, from) != Ok(true);
      }
    }
  }

  /** An unknown rule name fails the value, whatever the other rules say. */
  lemma {:induction false} UnknownRuleFails(table: map<string, Rule>, value: Value, rules: seq<string>, oracle: Oracle, k: nat)
    requires k < |rules| && SplitRule(rules[k]).0 !in table
    ensures RunRules(table, value, rules, oracle, 0) != Ok(true)
  {
    RunRulesMeaning(table, value, rules, oracle, 0);
  }

  /** The `integer` rule rejects booleans; `min_length` with a parameter that is not a number fails. */
  lemma BuiltinCorners(b: bool, v: Value, p: string, oracle: Oracle)
    requires ParseInt(p).None? && p != []
    ensures ApplyRule(BuiltinRule(IsInteger), VBool(b), None, oracle) == Ok(false)
    ensures ApplyRule(BuiltinRule(MinLength), v, Some(p), oracle) == Ok(false)
    ensures ApplyRule(BuiltinRule(MaxLength), v, Some(p), oracle) == Ok(false)
  {
  }

  const FailedFieldPrefix := "欄位 "
  const FailedFieldSuffix := " 驗證失敗"
  const MissingFieldPrefix := "缺少必要欄位 "

  function FieldMessage(field: string, present: bool): string {
    if present then FailedFieldPrefix + field + FailedFieldSuffix else MissingFieldPrefix + field
  }

  /** The verdict on one `(field, rules)` entry: `Some(present)` when an error is recorded. */
  function EntryError(table: map<string, Rule>, data: map<string, Value>, entry: (string, seq<string>), oracle: Oracle)
    : Result<Option<bool>, string>
  {
    var (field, rules) := entry;
    if field in data then
      match RunRules(table, data[field], rules, oracle, 0)
      case Err(e) => Err(e)
      case Ok(passed) => Ok(if passed then None else Some(true))
    else Ok(if "required" in rules then Some(false) else None)
  }

  /** The error table `validate_batch` builds for the first `n` entries, or what it raised. */
  function BatchErrors(table: map<string, Rule>, data: map<string, Value>, entries: seq<(string, seq<string>)>, oracle: Oracle)
    : Result<map<string, seq<string>>, string>
    decreases |entries|
  {
    if entries == [] then Ok(map[])
    else
      match BatchErrors(table, data, entries[..|entries| - 1], oracle)
      case Err(e) => Err(e)
      case Ok(errors) =>
        var field := entries[|entries| - 1].0;
        match EntryError(table, data, entries[|entries| - 1], oracle)
        case Err(e) => Err(e)
        case Ok(None) => Ok(errors)
        case Ok(Some(present)) => Ok(WithError(errors, field, FieldMessage(field, present)))
  }

  /** The entry's field fails: present and failing its rules, or absent and required. */
  predicate EntryFails(table: map<string, Rule>, data: map<string, Value>, entry: (string, seq<string>), oracle: Oracle) {
    EntryError(table, data, entry, oracle).Ok? && EntryError(table, data, entry, oracle).value.Some?
  }

  /** The fields of the entries are distinct, as the keys of a dict are. */
  predicate DistinctFields(entries: seq<(string, seq<string>)>) {
    forall i, j :: 0 <= i < j < |entries| ==> entries[i].0 != entries[j].0
  }

  /** What the error table says about one entry: an error exactly when it fails, with its one message. */
  predicate DescribesEntry(errors: map<string, seq<string>>, table: map<string, Rule>, data: map<string, Value>,
                           entry: (string, seq<string>), oracle: Oracle) {
    (entry.0 in errors <==> EntryFails(table, data, entry, oracle))
    && (entry.0 in errors ==> errors[entry.0] == [FieldMessage(entry.0, entry.0 in data)])
  }

  /** Every key of the table is the field of some entry. */
  predicate KeysFromEntries(errors: map<string, seq<string>>, entries: seq<(string, seq<string>)>) {
    forall f :: f in errors ==> exists k :: 0 <= k < |entries| && entries[k].0 == f
  }

  /**
   * When nothing raised, a field has an error exactly when its entry fails,
   * and then its one message says whether it failed or was missing.
   */
  lemma {:induction false} BatchErrorsMeaning(table: map<string, Rule>, data: map<string, Value>,
                                              entries: seq<(string, seq<string>)>, oracle: Oracle)
    requires DistinctFields(entries) && BatchErrors(table, data, entries, oracle).Ok?
    ensures KeysFromEntries(BatchErrors(table, data, entries, oracle).value, entries)
    ensures forall k :: 0 <= k < |entries| ==>
              DescribesEntry(BatchErrors(table, data, entries, oracle).value, table, data, entries[k], oracle)
    decreases |entries|
  {
    if entries != [] {
      var init := entries[..|entries| - 1];
      var last := entries[|entries| - 1];
      assert DistinctFields(init) by {
        forall i, j | 0 <= i < j < |init| ensures init[i].0 != init[j].0 {
          assert init[i] == entries[i] && init[j] == entries[j];
        }
      }
      BatchErrorsMeaning(table, data, init, oracle);
      var prev := BatchErrors(table, data, init, oracle).value;
      forall k | 0 <= k < |init| ensures init[k].0 != last.0 && init[k] == entries[k] {
        assert entries[k].0 != entries[|entries| - 1].0;
      }
      assert last.0 !in prev;
      BatchErrorsStep(table, data, entries, oracle, prev);
    }
  }

  /** The last entry adds at most its own key to a table that describes the others. */
  lemma BatchErrorsStep(table: map<string, Rule>, data: map<string, Value>,
                        entries: seq<(string, seq<string>)>, oracle: Oracle, prev: map<string, seq<string>>)
    requires entries != [] && BatchErrors(table, data, entries, oracle).Ok?
    requires BatchErrors(table, data, entries[..|entries| - 1], oracle) == Ok(prev)
    requires entries[|entries| - 1].0 !in prev
    requires KeysFromEntries(prev, entries[..|entries| - 1])
    requires forall k :: 0 <= k < |entries| - 1 ==>
               entries[k].0 != entries[|entries| - 1].0
               && DescribesEntry(prev, table, data, entries[k], oracle)
    ensures KeysFromEntries(BatchErrors(table, data, entries, oracle).value, entries)
    ensures forall k :: 0 <= k < |entries| ==>
              DescribesEntry(BatchErrors(table, data, entries, oracle).value, table, data, entries[k], oracle)
  {
    var n := |entries| - 1;
    var last := entries[n];
    var errors := BatchErrors(table, data, entries, oracle).value;
    var r := EntryError(table, data, last, oracle);
    assert r.Ok?;
    assert errors == (if r.value.None? then prev else WithError(prev, last.0, FieldMessage(last.0, r.value.value)));
    assert r.value.Some? ==> r.value.value == (last.0 in data);
    forall k | 0 <= k < n ensures DescribesEntry(errors, table, data, entries[k], oracle) {
      assert entries[k].0 in errors <==> entries[k].0 in prev;
      if entries[k].0 in prev {
        assert errors[entries[k].0] == prev[entries[k].0];
      }
    }
    assert DescribesEntry(errors, table, data, last, oracle);
    forall f | f in errors ensures exists k :: 0 <= k < |entries| && entries[k].0 == f {
      if f != last.0 {
        assert f in prev;
        var k :| 0 <= k < n && entries[..n][k].0 == f;
        assert entries[k].0 == f;
      }
    }
  }

  /** No error was recorded exactly when every entry passes. */
  lemma BatchValidIff(table: map<string, Rule>, data: map<string, Value>,
                      entries: seq<(string, seq<string>)>, oracle: Oracle)
    requires DistinctFields(entries) && BatchErrors(table, data, entries, oracle).Ok?
    ensures BatchErrors(table, data, entries, oracle).value == map[]
            <==> forall k :: 0 <= k < |entries| ==> !EntryFails(table, data, entries[k], oracle)
  {
    BatchErrorsMeaning(table, data, entries, oracle);
    var errors := BatchErrors(table, data, entries, oracle).value;
    if errors != map[] {
      var f :| f in errors;
      var k :| 0 <= k < |entries| && entries[k].0 == f;
      assert EntryFails(table, data, entries[k], oracle);
    }
  }

  class FieldValidator {
    var rules: map<string, Rule>

    constructor()
      ensures rules == DefaultRules()
    {
      rules := DefaultRules();
    }

    /** `add_rule`: the name now dispatches to the given check, replacing any earlier rule. */
    method AddRule(name: string, check: Value -> bool)
      modifies this
      ensures rules == old(rules)[name := Custom(check)]
    {
      rules := rules[name := Custom(check)];
    }

    /** `validate(value, rules)` under the current table. */
    function Validate(value: Value, ruleList: seq<string>, oracle: Oracle): (r: Result<bool, string>)
      reads this
      ensures r == Ok(true) <==> forall k :: 0 <= k < |ruleList| ==> RuleOutcome(rules, value, ruleList[k], oracle) == Ok(true)
    {
      RunRulesMeaning(rules, value, ruleList, oracle, 0);
      RunRules(rules, value, ruleList, oracle, 0)
    }

    /**
     * `validate_batch`: each entry's field is checked against its rules and a
     * message recorded for each failure; an exception from a rule ends the
     * call with nothing returned.
     */
    method ValidateBatch(data: map<string, Value>, entries: seq<(string, seq<string>)>, oracle: Oracle)
      returns (result: ValidationResult, raised: Option<string>)
      ensures fresh(result)
      ensures raised.Some? <==> BatchErrors(rules, data, entries, oracle).Err?
      ensures raised.Some? ==> raised.value == BatchErrors(rules, data, entries, oracle).error
      ensures raised.None? ==> result.errors == BatchErrors(rules, data, entries, oracle).value
                               && (result.isValid <==> result.errors == map[])
    {
      result := new ValidationResult(true, map[]);
      var i := 0;
      while i < |entries|
        invariant 0 <= i <= |entries|
        invariant BatchErrors(rules, data, entries[..i], oracle) == Ok(result.errors)
        invariant result.isValid <==> result.errors == map[]
        modifies result
      {
        BatchPrefix(rules, data, entries, oracle, i);
        var (field, fieldRules) := entries[i];
        if field in data {
          var v := Validate(data[field], fieldRules, oracle);
          if v.Err? {
            BatchErrorPersists(rules, data, entries, oracle, i + 1);
            return result, Some(v.error);
          }
          if !v.value {
            result.AddError(field, FailedFieldPrefix + field + FailedFieldSuffix);
          }
        } else if "required" in fieldRules {
          result.AddError(field, MissingFieldPrefix + field);
        }
        i := i + 1;
      }
      assert entries[..|entries|] == entries;
      return result, None;
    }
  }

  /** Once a prefix of the entries raised, the whole call raises the same. */
  lemma {:induction false} BatchErrorPersists(table: map<string, Rule>, data: map<string, Value>,
                                               entries: seq<(string, seq<string>)>, oracle: Oracle, i: nat)
    requires i <= |entries| && BatchErrors(table, data, entries[..i], oracle).Err?
    ensures BatchErrors(table, data, entries, oracle) == BatchErrors(table, data, entries[..i], oracle)
    decreases |entries|
  {
    if i == |entries| {
      assert entries[..i] == entries;
    } else {
      var init := entries[..|entries| - 1];
      assert init[..i] == entries[..i];
      BatchErrorPersists(table, data, init, oracle, i);
    }
  }

  /** One more entry: the table for `entries[..i+1]` from the one for `entries[..i]`. */
  lemma BatchPrefix(table: map<string, Rule>, data: map<string, Value>,
                    entries: seq<(string, seq<string>)>, oracle: Oracle, i: nat)
    requires i < |entries|
    ensures BatchErrors(table, data, entries[..i + 1], oracle) ==
              match BatchErrors(table, data, entries[..i], oracle)
              case Err(e) => Err(e)
              case Ok(errors) =>
                match EntryError(table, data, entries[i], oracle)
                case Err(e) => Err(e)
                case Ok(None) => Ok(errors)
                case Ok(Some(present)) => Ok(WithError(errors, entries[i].0, FieldMessage(entries[i].0, present)))
  {
    assert entries[..i + 1][..i] == entries[..i];
  }
}
