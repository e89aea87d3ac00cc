/**
 * src/config/config_manager.py: merging configuration dicts, setting a value
 * at a nested path, mapping environment variable names to configuration
 * paths, validating a configuration, masking secrets, and the manager's
 * load, backup and restore state. Configurations are `Values.Value` dicts.
 */
module Config {
  import opened Wrappers
  import opened Text
  import opened Values
  import Validators

  /** The exceptions the manager lets escape. */
  datatype Raised = ConfigError(msg: string) | TypeError(msg: string) | AttributeError(msg: string)

  // ---------------------------------------------------------------------
  // Paths into nested dicts
  // ---------------------------------------------------------------------

  /** `d[p[0]][p[1]]...`, when every step is a dict that holds the key. */
  function GetPath(m: map<string, Value>, p: seq<string>): Option<Value>
    requires p != []
    decreases |p|
  {
    if p[0] !in m then None
    else if |p| == 1 then Some(m[p[0]])
    else if m[p[0]].VDict? then GetPath(m[p[0]].entries, p[1..])
    else None
  }

  // ---------------------------------------------------------------------
  // _merge_configs
  // ---------------------------------------------------------------------

  /**
   * `_merge_configs(base, override)`: a copy of `base` in which every key of
   * `override` is set to its value, except that two dicts merge recursively.
   */
  function Merge(base: map<string, Value>, override: map<string, Value>): (r: map<string, Value>)
    ensures r.Keys == base.Keys + override.Keys
    decreases VDict(override)
  {
    map k | k in base.Keys + override.Keys ::
      if k in override then
        if k in base && base[k].VDict? && override[k].VDict? then VDict(Merge(base[k].entries, override[k].entries))
        else override[k]
      else base[k]
  }

  /** Merging nothing in gives the base back. */
  lemma MergeEmpty(base: map<string, Value>)
    ensures Merge(base, map[]) == base
  {
  }

  /** A value of the override that is not a dict is found at its path in the result. */
  lemma {:induction false} MergeOverrideWins(base: map<string, Value>, override: map<string, Value>, p: seq<string>)
    requires p != [] && GetPath(override, p).Some? && !GetPath(override, p).value.VDict?
    ensures GetPath(Merge(base, override), p) == GetPath(override, p)
    decreases |p|
  {
    var r := Merge(base, override);
    var k := p[0];
    if |p| > 1 {
      if k in base && base[k].VDict? {
        assert r[k] == VDict(Merge(base[k].entries, override[k].entries));
        MergeOverrideWins(base[k].entries, override[k].entries, p[1..]);
      } else {
        assert r[k] == override[k];
      }
    }
  }

  /** The override has nothing at `p` or at any dict on the way to it. */
  predicate OverrideMisses(override: map<string, Value>, p: seq<string>)
    requires p != []
    decreases |p|
  {
    p[0] !in override
    || (|p| > 1 && override[p[0]].VDict? && OverrideMisses(override[p[0]].entries, p[1..]))
  }

  /** A base value the override does not reach survives the merge. */
  lemma {:induction false} MergeKeepsBase(base: map<string, Value>, override: map<string, Value>, p: seq<string>)
    requires p != [] && GetPath(base, p).Some? && OverrideMisses(override, p)
    ensures GetPath(Merge(base, override), p) == GetPath(base, p)
    decreases |p|
  {
    var r := Merge(base, override);
    var k := p[0];
    if k in override {
      assert r[k] == VDict(Merge(base[k].entries, override[k].entries));
      MergeKeepsBase(base[k].entries, override[k].entries, p[1..]);
    } else {
      assert r[k] == base[k];
    }
  }

  /** Merging a dict into itself changes nothing. */
  lemma {:induction false} MergeSelf(m: map<string, Value>)
    ensures Merge(m, m) == m
    decreases VDict(m)
  {
    var r := Merge(m, m);
    forall k | k in m ensures r[k] == m[k] {
      if m[k].VDict? {
        MergeSelf(m[k].entries);
      }
    }
  }

  /** Applying the same override twice is the same as applying it once. */
  lemma {:induction false} MergeOverrideTwice(base: map<string, Value>, override: map<string, Value>)
    ensures Merge(Merge(base, override), override) == Merge(base, override)
    decreases VDict(override)
  {
    var once := Merge(base, override);
    var twice := Merge(once, override);
    forall k | k in once ensures twice[k] == once[k] {
      if k in override && once[k].VDict? && override[k].VDict? {
        if k in base && base[k].VDict? {
          MergeOverrideTwice(base[k].entries, override[k].entries);
        } else {
          MergeSelf(override[k].entries);
        }
      }
    }
  }

  // ---------------------------------------------------------------------
  // _set_nested_value
  // ---------------------------------------------------------------------

  const NoItemAssignMsg := "object does not support item assignment"

  /**
   * `_set_nested_value(config, path, value)`: every key but the last is
   * walked, a missing one gets a new empty dict, and the last key is set. A
   * step onto a value that is not a dict raises.
   */
  function SetNested(m: map<string, Value>, path: seq<string>, v: Value): Result<map<string, Value>, Raised>
    requires path != []
    decreases |path|
  {
    var k := path[0];
    if |path| == 1 then Ok(m[k := v])
    else
      var child := if k in m then m[k] else VDict(map[]);
      if !child.VDict? then Err(TypeError("'" + TypeName(child) + "' " + NoItemAssignMsg))
      else match SetNested(child.entries, path[1..], v)
        case Err(e) => Err(e)
        case Ok(c) => Ok(m[k := VDict(c)])
  }

  /** Every step before the last is a dict or missing. */
  predicate PathOpen(m: map<string, Value>, path: seq<string>)
    requires path != []
    decreases |path|
  {
    |path| == 1 || path[0] !in m || (m[path[0]].VDict? && PathOpen(m[path[0]].entries, path[1..]))
  }

  /** Missing steps are always created. */
  lemma {:induction false} PathOpenEmpty(path: seq<string>)
    requires path != []
    ensures PathOpen(map[], path)
  {
  }

  /**
   * The update succeeds exactly when the path is open; then the value is at
   * the path and the other top-level keys are untouched.
   */
  lemma {:induction false} SetNestedMeaning(m: map<string, Value>, path: seq<string>, v: Value)
    requires path != []
    ensures SetNested(m, path, v).Ok? <==> PathOpen(m, path)
    ensures SetNested(m, path, v).Ok? ==>
              var r := SetNested(m, path, v).value;
              GetPath(r, path) == Some(v) && r.Keys == m.Keys + {path[0]}
              && forall k :: k in m && k != path[0] ==> r[k] == m[k]
    decreases |path|
  {
    if |path| > 1 {
      var k := path[0];
      var child := if k in m then m[k] else VDict(map[]);
      if child.VDict? {
        SetNestedMeaning(child.entries, path[1..], v);
      }
    }
  }

  /** The paths `p` and `q` part ways at some key. */
  predicate Diverge(p: seq<string>, q: seq<string>)
    requires p != [] && q != []
    decreases |p|
  {
    p[0] != q[0] || (|p| > 1 && |q| > 1 && Diverge(p[1..], q[1..]))
  }

  /** Nothing off the updated path changes. */
  lemma {:induction false} SetNestedFrame(m: map<string, Value>, path: seq<string>, v: Value, q: seq<string>)
    requires path != [] && q != [] && Diverge(path, q) && SetNested(m, path, v).Ok?
    ensures GetPath(SetNested(m, path, v).value, q) == GetPath(m, q)
    decreases |path|
  {
    var r := SetNested(m, path, v).value;
    var k := path[0];
    if q[0] == k {
      var child := if k in m then m[k] else VDict(map[]);
      var c := SetNested(child.entries, path[1..], v).value;
      assert r[k] == VDict(c);
      SetNestedFrame(child.entries, path[1..], v, q[1..]);
      if k !in m {
        assert GetPath(map[], q[1..]) == None;
      }
    }
  }

  // ---------------------------------------------------------------------
  // Environment variable names
  // ---------------------------------------------------------------------

  /** `(r'^LARK_(.+)', 'lark')` and the other two patterns, in order. */
  const EnvPatterns: seq<(string, string)> :=
    [("LARK_", "lark"), ("PROCESSING_", "processing"), ("LOGGING_", "logging")]

  /**
   * `re.match('^' + prefix + '(.+)', key).group(1)`: at least one character
   * after the prefix, and `.` stops at the first newline.
   */
  function PrefixGroup(key: string, prefix: string): (r: Option<string>)
    ensures r.Some? ==> StartsWith(key, prefix) && r.value != [] && '\n' !in r.value
  {
    if StartsWithAt(key, 0, prefix) && |key| > |prefix| && key[|prefix|] != '\n' then
      var r := key[|prefix|..FindChar(key, '\n', |prefix|)];
      assert forall i :: 0 <= i < |r| ==> r[i] == key[|prefix| + i];
      Some(r)
    else None
  }

  /** `_get_section_from_env_key`: the section of the first pattern that matches. */
  function SectionFrom(key: string, patterns: seq<(string, string)>): Option<string>
    decreases |patterns|
  {
    if patterns == [] then None
    else if PrefixGroup(key, patterns[0].0).Some? then Some(patterns[0].1)
    else SectionFrom(key, patterns[1..])
  }

  function SectionFromEnvKey(key: string): Option<string> {
    SectionFrom(key, EnvPatterns)
  }

  /** The special nested fields; anything else is the lower-cased remainder itself. */
  function FieldPathFor(section: string, fieldPart: string): seq<string> {
    if section == "processing" && fieldPart == "batch_size" then ["batch_processing", "batch_size"]
    else if section == "lark" && StartsWith(fieldPart, "rate_limit_") then
      ["rate_limit", ReplaceAll(fieldPart, "rate_limit_", "")]
    else if section == "lark" && StartsWith(fieldPart, "field_mapping_") then
      ["field_mapping", ReplaceAll(fieldPart, "field_mapping_", "")]
    else if section == "processing" && StartsWith(fieldPart, "batch_processing_") then
      ["batch_processing", ReplaceAll(fieldPart, "batch_processing_", "")]
    else [fieldPart]
  }

  /** `_get_field_path_from_env_key`: the first pattern of the section that matches. */
  function FieldPathFrom(key: string, section: string, patterns: seq<(string, string)>): Option<seq<string>>
    decreases |patterns|
  {
    if patterns == [] then None
    else if patterns[0].1 == section && PrefixGroup(key, patterns[0].0).Some? then
      Some(FieldPathFor(section, Lower(PrefixGroup(key, patterns[0].0).value)))
    else FieldPathFrom(key, section, patterns[1..])
  }

  function FieldPathFromEnvKey(key: string, section: string): (r: Option<seq<string>>)
    ensures r.Some? ==> r.value != []
  {
    FieldPathFrom(key, section, EnvPatterns)
  }

  /** A prefix followed by a first line of text. */
  lemma PrefixGroupOf(prefix: string, rest: string)
    requires rest != [] && '\n' !in rest
    ensures PrefixGroup(prefix + rest, prefix) == Some(rest)
  {
    var key := prefix + rest;
    assert StartsWithAt(key, 0, prefix) by {
      assert forall k :: 0 <= k < |prefix| ==> key[k] == prefix[k];
    }
    forall k | |prefix| <= k < |key| ensures key[k] != '\n' {
      assert key[k] == rest[k - |prefix|];
    }
    FindCharUnique(key, '\n', |prefix|, |key|);
    assert key[|prefix|] == rest[0];
    assert key[|prefix|..] == rest;
    assert key[|prefix|..FindChar(key, '\n', |prefix|)] == rest;
  }

  /** `LARK_x` belongs to `lark` and maps to the path for `x.lower()`. */
  lemma LarkEnvKey(rest: string)
    requires rest != [] && '\n' !in rest
    ensures SectionFromEnvKey("LARK_" + rest) == Some("lark")
    ensures FieldPathFromEnvKey("LARK_" + rest, "lark") == Some(FieldPathFor("lark", Lower(rest)))
  {
    PrefixGroupOf("LARK_", rest);
  }

  /** `PROCESSING_x` belongs to `processing` and maps to the path for `x.lower()`. */
  lemma ProcessingEnvKey(rest: string)
    requires rest != [] && '\n' !in rest
    ensures SectionFromEnvKey("PROCESSING_" + rest) == Some("processing")
    ensures FieldPathFromEnvKey("PROCESSING_" + rest, "processing") == Some(FieldPathFor("processing", Lower(rest)))
  {
    var key := "PROCESSING_" + rest;
    PrefixGroupOf("PROCESSING_", rest);
    DiffersAt(key, "LARK_", 0);
  }

  /** `LOGGING_x` belongs to `logging` and maps to `[x.lower()]`. */
  lemma LoggingEnvKey(rest: string)
    requires rest != [] && '\n' !in rest
    ensures SectionFromEnvKey("LOGGING_" + rest) == Some("logging")
    ensures FieldPathFromEnvKey("LOGGING_" + rest, "logging") == Some([Lower(rest)])
  {
    var key := "LOGGING_" + rest;
    PrefixGroupOf("LOGGING_", rest);
    DiffersAt(key, "LARK_", 1);
    DiffersAt(key, "PROCESSING_", 0);
  }

  /** Two strings that differ at `k` do not start alike. */
  lemma DiffersAt(s: string, prefix: string, k: nat)
    requires k < |prefix| && k < |s| && s[k] != prefix[k]
    ensures !StartsWith(s, prefix)
  {
  }

  /** A name starting with none of the prefixes belongs to no section. */
  lemma OtherEnvKey(key: string)
    requires !StartsWith(key, "LARK_") && !StartsWith(key, "PROCESSING_") && !StartsWith(key, "LOGGING_")
    ensures SectionFromEnvKey(key) == None
  {
  }

  /** A sub-field that does not repeat the marker is kept whole. */
  lemma NestedFieldPaths(x: string)
    requires !Contains(x, "rate_limit_") && !Contains(x, "field_mapping_") && !Contains(x, "batch_processing_")
    ensures FieldPathFor("lark", "rate_limit_" + x) == ["rate_limit", x]
    ensures FieldPathFor("lark", "field_mapping_" + x) == ["field_mapping", x]
    ensures FieldPathFor("processing", "batch_processing_" + x) == ["batch_processing", x]
  {
    StripMarker("rate_limit_", x);
    StripMarker("field_mapping_", x);
    StripMarker("batch_processing_", x);
    assert StartsWith("rate_limit_" + x, "rate_limit_");
    assert StartsWith("field_mapping_" + x, "field_mapping_");
    assert StartsWith("batch_processing_" + x, "batch_processing_");
    DiffersAt("field_mapping_" + x, "rate_limit_", 0);
    assert |"batch_processing_" + x| > |"batch_size"|;
  }

  /** `(marker + x).replace(marker, "")` is `x` when `x` holds no further marker. */
  lemma StripMarker(marker: string, x: string)
    requires marker != [] && !Contains(x, marker)
    ensures ReplaceAll(marker + x, marker, "") == x
  {
    var s := marker + x;
    assert StartsWithAt(s, 0, marker);
    assert FindSub(s, marker, 0) == Some(0);
    assert s[|marker|..] == x;
    ReplaceAllAbsent(x, marker, "");
  }

  // ---------------------------------------------------------------------
  // _convert_env_value
  // ---------------------------------------------------------------------

  /**
   * `_convert_env_value`: a value containing `.` goes through `float()`,
   * which `isFloat` decides and whose result is not modelled (`None`); a
   * value without one goes through `int()`. When the conversion fails,
   * `true`/`false` in any case become booleans, and anything else stays the
   * string it was.
   */
  function ConvertEnvValue(value: string, isFloat: string -> bool): (r: Option<Value>)
    ensures r.None? <==> '.' in value && isFloat(value)
    ensures r.Some? ==> r.value.VInt? || r.value.VBool? || (r.value.VStr? && r.value.s == value)
  {
    if '.' in value && isFloat(value) then None
    else match (if '.' in value then None else Validators.ParseInt(value))
      case Some(i) => Some(VInt(i))
      case None =>
        if Lower(value) == "true" then Some(VBool(true))
        else if Lower(value) == "false" then Some(VBool(false))
        else Some(VStr(value))
  }

  lemma NoDotInDigits(n: nat)
    ensures '.' !in NatToString(n)
  {
    var d := NatToString(n);
    assert forall i :: 0 <= i < |d| ==> d[i] != '.';
  }

  /** An integer written out converts back to itself. */
  lemma ConvertIntRoundTrip(i: int, isFloat: string -> bool)
    ensures ConvertEnvValue(IntToString(i), isFloat) == Some(VInt(i))
  {
    var n: nat := if i < 0 then -i else i;
    NoDotInDigits(n);
    var s := IntToString(i);
    if i < 0 {
      assert s == "-" + NatToString(n);
      assert forall k :: 1 <= k < |s| ==> s[k] == NatToString(n)[k - 1];
    }
    assert '.' !in s;
    Validators.ParseIntRoundTrip(i);
  }

  /**
   * When neither number conversion succeeds (no `.` and no integer, or a `.`
   * and no float, as in `logs/app.log`), `true` and `false` in any case
   * become booleans and other words stay strings.
   */
  lemma ConvertWords(value: string, isFloat: string -> bool)
    requires if '.' in value then !isFloat(value) else Validators.ParseInt(value).None?
    ensures Lower(value) == "true" ==> ConvertEnvValue(value, isFloat) == Some(VBool(true))
    ensures Lower(value) == "false" ==> ConvertEnvValue(value, isFloat) == Some(VBool(false))
    ensures Lower(value) != "true" && Lower(value) != "false" ==> ConvertEnvValue(value, isFloat) == Some(VStr(value))
  {
  }

  // ---------------------------------------------------------------------
  // validate_config
  // ---------------------------------------------------------------------

  const MissingSectionPrefix := "缺少必要的設定區段: "
  const MissingFieldPrefix := "缺少必要的設定欄位: "
  const BadAppIdMsg := "Lark app_id 必須是非空字串"
  const BadAppSecretMsg := "Lark app_secret 必須是非空字串"
  const BadMaxRequestsMsg := "rate_limit.max_requests 必須是正整數"
  const BadPatternMsg := "test_case_number_pattern 不是有效的正則表達式"
  const BadRequiredFieldsMsg := "required_fields 必須是非空列表"

  /** Python's `key in v` for a string key: dict keys, substrings, list members; anything else raises. */
  function InContainer(key: string, v: Value): Result<bool, Raised> {
    match v
    case VDict(m) => Ok(key in m)
    case VStr(s) => Ok(Contains(s, key))
    case VList(xs) => Ok(VStr(key) in xs)
    case _ => Err(TypeError("argument of type '" + TypeName(v) + "' is not iterable"))
  }

  /** The first of `fields` missing from the section, as the error it raises. */
  function FirstMissingField(section: string, sv: Value, fields: seq<string>): Option<Raised>
    decreases |fields|
  {
    if fields == [] then None
    else match InContainer(fields[0], sv)
      case Err(e) => Some(e)
      case Ok(present) =>
        if !present then Some(ConfigError(MissingFieldPrefix + section + "." + fields[0]))
        else FirstMissingField(section, sv, fields[1..])
  }


  /** `not v or not isinstance(v, str)` fails: a non-empty string. */
  predicate NonEmptyStr(v: Value) {
    v.VStr? && v.s != []
  }

  /** `isinstance(v, int) and v > 0`, where `True` is the integer 1. */
  predicate PositiveInt(v: Value) {
    (v.VInt? && v.i > 0) || v == VBool(true)
  }

  /** The `TypeError` messages for subscripting a string or a list with a string. */
  const StrIndexMsg := "string indices must be integers, not 'str'"
  const ListIndexMsg := "list indices must be integers or slices, not str"

  /** `_validate_lark_config`, as the exception it raises, if any. */
  function LarkProblem(lc: Value): Option<Raised> {
    if !lc.VDict? then Some(AttributeError(NoGetMsg(lc)))
    else
      var m := lc.entries;
      if !NonEmptyStr(Get(m, "app_id", VStr(""))) then Some(ConfigError(BadAppIdMsg))
      else if !NonEmptyStr(Get(m, "app_secret", VStr(""))) then Some(ConfigError(BadAppSecretMsg))
      else
        var rl := Get(m, "rate_limit", VDict(map[]));
        match InContainer("max_requests", rl)
        case Err(e) => Some(e)
        case Ok(present) =>
          if !present then None
          else if !rl.VDict? then Some(TypeError(if rl.VStr? then StrIndexMsg else ListIndexMsg))
          else if !PositiveInt(rl.entries["max_requests"]) then Some(ConfigError(BadMaxRequestsMsg))
          else None
  }

  /** `_validate_processing_config`; `compiles` stands for `re.compile` succeeding. */
  function ProcessingProblem(pc: Value, compiles: string -> bool): Option<Raised> {
    if !pc.VDict? then Some(AttributeError(NoGetMsg(pc)))
    else
      var m := pc.entries;
      var pattern := Get(m, "test_case_number_pattern", VStr(""));
      if Truthy(pattern) && (pattern.VList? || pattern.VDict?) then Some(TypeError(Validators.UnhashableMsg(pattern)))
      else if Truthy(pattern) && !pattern.VStr? then Some(TypeError("first argument must be string or compiled pattern"))
      else if Truthy(pattern) && !compiles(pattern.s) then Some(ConfigError(BadPatternMsg))
      else
        var rf := Get(m, "required_fields", VList([]));
        if !rf.VList? || rf.items == [] then Some(ConfigError(BadRequiredFieldsMsg))
        else None
  }

  /** `validate_config`: `True`, or what it raises. */
  function ValidateConfig(config: map<string, Value>, compiles: string -> bool): (r: Result<bool, Raised>)
    ensures r.Ok? ==> r.value && "lark" in config && "processing" in config
    ensures r.Ok? ==> config["lark"].VDict? && config["processing"].VDict?
  {
    if "lark" !in config then Err(ConfigError(MissingSectionPrefix + "lark"))
    else if "processing" !in config then Err(ConfigError(MissingSectionPrefix + "processing"))
    else match FirstMissingField("lark", config["lark"], ["app_id", "app_secret"])
      case Some(e) => Err(e)
      case None =>
        match FirstMissingField("processing", config["processing"], ["test_case_number_pattern", "required_fields"])
        case Some(e) => Err(e)
        case None =>
          match LarkProblem(config["lark"])
          case Some(e) => Err(e)
          case None =>
            match ProcessingProblem(config["processing"], compiles)
            case Some(e) => Err(e)
            case None => Ok(true)
  }

  /** A missing section is reported first, `lark` before `processing`. */
  lemma MissingSections(config: map<string, Value>, compiles: string -> bool)
    ensures "lark" !in config ==> ValidateConfig(config, compiles) == Err(ConfigError(MissingSectionPrefix + "lark"))
    ensures "lark" in config && "processing" !in config ==>
              ValidateConfig(config, compiles) == Err(ConfigError(MissingSectionPrefix + "processing"))
  {
  }

  /** A `lark` dict without `app_id` is reported as that missing field. */
  lemma MissingAppId(config: map<string, Value>, compiles: string -> bool)
    requires "lark" in config && "processing" in config && config["lark"].VDict?
    requires "app_id" !in config["lark"].entries
    ensures ValidateConfig(config, compiles) == Err(ConfigError(MissingFieldPrefix + "lark.app_id"))
  {
    var fields := ["app_id", "app_secret"];
    assert InContainer(fields[0], config["lark"]) == Ok(false);
    assert FirstMissingField("lark", config["lark"], fields) == Some(ConfigError(MissingFieldPrefix + "lark" + "." + "app_id"));
    assert MissingFieldPrefix + "lark" + "." + "app_id" == MissingFieldPrefix + "lark.app_id";
  }

  /**
   * A `rate_limit` that passes: a dict whose `max_requests`, if any, is a positive
   * integer, or a string or list without `max_requests` (as a substring, as an element).
   */
  predicate RateLimitValid(rl: Value) {
    match rl
    case VDict(e) => "max_requests" in e ==> PositiveInt(e["max_requests"])
    case VStr(s) => !Contains(s, "max_requests")
    case VList(xs) => VStr("max_requests") !in xs
    case _ => false
  }

  /** The checks on the `lark` section when it is a dict. */
  predicate LarkValid(m: map<string, Value>) {
    "app_id" in m && "app_secret" in m && NonEmptyStr(m["app_id"]) && NonEmptyStr(m["app_secret"])
    && ("rate_limit" in m ==> RateLimitValid(m["rate_limit"]))
  }

  /** The checks on the `processing` section when it is a dict. */
  predicate ProcessingValid(m: map<string, Value>, compiles: string -> bool) {
    "test_case_number_pattern" in m && "required_fields" in m
    && (Truthy(m["test_case_number_pattern"]) ==>
          m["test_case_number_pattern"].VStr? && compiles(m["test_case_number_pattern"].s))
    && m["required_fields"].VList? && m["required_fields"].items != []
  }

  /** For dict sections, validation passes exactly when both sections meet their checks. */
  lemma ValidateConfigMeaning(config: map<string, Value>, compiles: string -> bool)
    requires "lark" in config && "processing" in config
    requires config["lark"].VDict? && config["processing"].VDict?
    ensures ValidateConfig(config, compiles) == Ok(true) <==>
              LarkValid(config["lark"].entries) && ProcessingValid(config["processing"].entries, compiles)
  {
  }

  /** A list or dict pattern reaches `re.compile`, which cannot hash it for its cache. */
  lemma UnhashablePattern(config: map<string, Value>, compiles: string -> bool)
    requires "lark" in config && "processing" in config
    requires config["lark"].VDict? && LarkValid(config["lark"].entries)
    requires config["processing"].VDict?
    requires "test_case_number_pattern" in config["processing"].entries && "required_fields" in config["processing"].entries
    requires var p := config["processing"].entries["test_case_number_pattern"];
             (p.VList? && p.items != []) || (p.VDict? && p.entries != map[])
    ensures var p := config["processing"].entries["test_case_number_pattern"];
            ValidateConfig(config, compiles) == Err(TypeError("unhashable type: '" + (if p.VList? then "list" else "dict") + "'"))
  {
  }

  // ---------------------------------------------------------------------
  // Defaults and load_config
  // ---------------------------------------------------------------------

  /** `self._defaults`, without the float `retry_delay`. */
  function Defaults(): (r: map<string, Value>)
    ensures r.Keys == {"lark", "processing", "logging"}
    ensures r["lark"].VDict? && "app_id" !in r["lark"].entries && "app_secret" !in r["lark"].entries
  {
    map[
      "lark" := VDict(map[
        "rate_limit" := VDict(map["max_requests" := VInt(100), "window_seconds" := VInt(60)]),
        "field_mapping" := VDict(map[
          "test_case_number" := VStr("測試案例編號"), "title" := VStr("標題"),
          "priority" := VStr("優先級"), "precondition" := VStr("前置條件"),
          "steps" := VStr("測試步驟"), "expected_result" := VStr("預期結果")])]),
      "processing" := VDict(map[
        "test_case_number_pattern" := VStr(DefaultPattern),
        "required_fields" := VList([VStr("test_case_number"), VStr("title"), VStr("priority"),
                                    VStr("precondition"), VStr("steps"), VStr("expected_result")]),
        "batch_processing" := VDict(map["batch_size" := VInt(500), "max_retries" := VInt(3)])]),
      "logging" := VDict(map[
        "level" := VStr("INFO"),
        "format" := VStr("%(asctime)s - %(name)s - %(levelname)s - %(message)s"),
        "file" := VStr("logs/converter.log")])]
  }

  /** The default case-number pattern `TCG-\d+\.\d+\.\d+`. */
  const DefaultPattern := "TCG-\\d+\\.\\d+\\.\\d+"

  /** A file giving only the two credentials validates once merged over the defaults. */
  lemma CredentialsSuffice(appId: string, appSecret: string, compiles: string -> bool)
    requires appId != [] && appSecret != [] && compiles(DefaultPattern)
    ensures ValidateConfig(Merge(Defaults(), map["lark" := VDict(map["app_id" := VStr(appId), "app_secret" := VStr(appSecret)])]), compiles)
            == Ok(true)
  {
    var d := Defaults();
    var file := map["lark" := VDict(map["app_id" := VStr(appId), "app_secret" := VStr(appSecret)])];
    var c := Merge(d, file);
    assert c["lark"] == VDict(Merge(d["lark"].entries, file["lark"].entries));
    assert c["processing"] == d["processing"];
    MergedLarkValid(appId, appSecret);
    DefaultProcessingValid(compiles);
    ValidateConfigMeaning(c, compiles);
  }

  /** The default `lark` section with both credentials passes its checks. */
  lemma MergedLarkValid(appId: string, appSecret: string)
    requires appId != [] && appSecret != []
    ensures var lark := Merge(Defaults()["lark"].entries, map["app_id" := VStr(appId), "app_secret" := VStr(appSecret)]);
            LarkValid(lark) && lark["rate_limit"].VDict?
  {
    var base := Defaults()["lark"].entries;
    var lark := Merge(base, map["app_id" := VStr(appId), "app_secret" := VStr(appSecret)]);
    assert lark["rate_limit"] == base["rate_limit"];
    assert lark["app_id"] == VStr(appId);
    assert lark["app_secret"] == VStr(appSecret);
  }

  /** The default `processing` section passes its checks when its pattern compiles. */
  lemma DefaultProcessingValid(compiles: string -> bool)
    requires compiles(DefaultPattern)
    ensures Defaults()["processing"].VDict? && ProcessingValid(Defaults()["processing"].entries, compiles)
  {
  }

  const LoadFailedPrefix := "設定載入失敗: "
  const ReadFailedPrefix := "設定檔讀取失敗: "
  const RootNotDictMsg := "設定檔格式錯誤：根層級必須是字典"
  const NotLoadedMsg := "設定尚未載入，請先呼叫 load_config()"
  const NoBackupMsg := "設定尚未載入，無法備份"

  /**
   * What `load_config` makes of parsed file contents, with no environment
   * overrides. The root check's error is caught by the reader's own
   * `except Exception` and wrapped once more before `load_config` wraps it.
   */
  function Loaded(fileConfig: Value, compiles: string -> bool): (r: Result<map<string, Value>, Raised>)
    ensures r.Ok? <==> fileConfig.VDict? && ValidateConfig(Merge(Defaults(), fileConfig.entries), compiles) == Ok(true)
    ensures r.Ok? ==> r.value == Merge(Defaults(), fileConfig.entries)
    ensures r.Err? ==> r.error.ConfigError? && StartsWith(r.error.msg, LoadFailedPrefix)
  {
    if !fileConfig.VDict? then Err(ConfigError(LoadFailedPrefix + ReadFailedPrefix + RootNotDictMsg))
    else
      var config := Merge(Defaults(), fileConfig.entries);
      match ValidateConfig(config, compiles)
      case Err(e) => Err(ConfigError(LoadFailedPrefix + e.msg))
      case Ok(_) => Ok(config)
  }

  /** A loaded configuration holds every default the file does not reach. */
  lemma LoadedKeepsDefaults(fileConfig: Value, compiles: string -> bool, p: seq<string>)
    requires Loaded(fileConfig, compiles).Ok?
    requires p != [] && GetPath(Defaults(), p).Some? && OverrideMisses(fileConfig.entries, p)
    ensures GetPath(Loaded(fileConfig, compiles).value, p) == GetPath(Defaults(), p)
  {
    MergeKeepsBase(Defaults(), fileConfig.entries, p);
  }

  /** A file with just the two credentials loads. */
  lemma CredentialsLoad(appId: string, appSecret: string, compiles: string -> bool)
    requires appId != [] && appSecret != [] && compiles(DefaultPattern)
    ensures Loaded(VDict(map["lark" := VDict(map["app_id" := VStr(appId), "app_secret" := VStr(appSecret)])]), compiles).Ok?
  {
    CredentialsSuffice(appId, appSecret, compiles);
  }

  // ---------------------------------------------------------------------
  // _mask_sensitive_data
  // ---------------------------------------------------------------------

  /** A key whose lower-cased form contains one of the sensitive words. */
  predicate SensitiveKey(key: string) {
    var k := Lower(key);
    Contains(k, "app_secret") || Contains(k, "secret") || Contains(k, "password")
    || Contains(k, "token") || Contains(k, "key")
  }

  const MaskText := "***"

  /**
   * `mask_recursive`: under a sensitive key a non-empty string becomes
   * `***` and anything else is left as it is; other values are searched.
   */
  function Mask(v: Value): Value
    decreases v
  {
    match v
    case VDict(m) =>
      VDict(map k | k in m ::
        if SensitiveKey(k) then (if m[k].VStr? && m[k].s != [] then VStr(MaskText) else m[k])
        else Mask(m[k]))
    case VList(xs) => VList(seq(|xs|, i requires 0 <= i < |xs| => Mask(xs[i])))
    case _ => v
  }

  /**
   * No sensitive key that the search reaches holds a non-empty string other
   * than `***`. The search descends through dicts under keys that are not
   * sensitive and through lists; it does not look inside a value held by a
   * sensitive key.
   */
  predicate NoSecrets(v: Value)
    decreases v
  {
    match v
    case VDict(m) =>
      forall k :: k in m ==>
        if SensitiveKey(k) then !(m[k].VStr? && m[k].s != [] && m[k].s != MaskText) else NoSecrets(m[k])
    case VList(xs) => forall i :: 0 <= i < |xs| ==> NoSecrets(xs[i])
    case _ => true
  }

  /** After masking, no secret string is left where the search looks. */
  lemma {:induction false} MaskHidesSecrets(v: Value)
    ensures NoSecrets(Mask(v))
    decreases v
  {
    match v
    case VDict(m) =>
      var r := Mask(v).entries;
      forall k | k in r && !SensitiveKey(k) ensures NoSecrets(r[k]) {
        MaskHidesSecrets(m[k]);
      }
    case VList(xs) =>
      var r := Mask(v).items;
      forall i | 0 <= i < |r| ensures NoSecrets(r[i]) {
        MaskHidesSecrets(xs[i]);
      }
    case _ =>
  }

  /** One subscript: a dict key or a list index. */
  datatype Step = KeyStep(key: string) | IndexStep(index: nat)

  /** The value reached by a path of subscripts, if every subscript succeeds. */
  function Walk(v: Value, path: seq<Step>): Option<Value>
    decreases |path|
  {
    if path == [] then Some(v)
    else match (v, path[0])
      case (VDict(m), KeyStep(k)) => if k in m then Walk(m[k], path[1..]) else None
      case (VList(xs), IndexStep(i)) => if i < |xs| then Walk(xs[i], path[1..]) else None
      case _ => None
  }

  /** The search reaches the end of a path when none of its keys is sensitive. */
  predicate Searched(path: seq<Step>) {
    forall j :: 0 <= j < |path| && path[j].KeyStep? ==> !SensitiveKey(path[j].key)
  }

  lemma {:induction false} WalkSnoc(v: Value, path: seq<Step>, s: Step)
    ensures Walk(v, path + [s]) == if Walk(v, path).Some? then Walk(Walk(v, path).value, [s]) else None
    decreases |path|
  {
    if path != [] {
      assert (path + [s])[0] == path[0] && (path + [s])[1..] == path[1..] + [s];
      match (v, path[0])
      case (VDict(m), KeyStep(k)) =>
        if k in m { WalkSnoc(m[k], path[1..], s); }
      case (VList(xs), IndexStep(i)) =>
        if i < |xs| { WalkSnoc(xs[i], path[1..], s); }
      case _ =>
    } else {
      assert [] + [s] == [s];
    }
  }

  /** Along a searched path, masking commutes with walking: what is reached is masked in place. */
  lemma {:induction false} MaskAlong(v: Value, path: seq<Step>)
    requires Searched(path) && Walk(v, path).Some?
    ensures Walk(Mask(v), path) == Some(Mask(Walk(v, path).value))
    decreases |path|
  {
    if path != [] {
      assert Searched(path[1..]) by {
        forall j | 0 <= j < |path[1..]| && path[1..][j].KeyStep? ensures !SensitiveKey(path[1..][j].key) {
          assert path[1..][j] == path[j + 1];
        }
      }
      match (v, path[0])
      case (VDict(m), KeyStep(k)) =>
        assert !SensitiveKey(path[0].key);
        MaskAlong(m[k], path[1..]);
      case (VList(xs), IndexStep(i)) =>
        MaskAlong(xs[i], path[1..]);
    }
  }

  /**
   * What masking does at each key the search reaches: a sensitive key with a
   * non-empty string now holds `***`, a sensitive key with any other value
   * keeps it unchanged, and any other key holds its masked value.
   */
  lemma MaskAtKey(v: Value, path: seq<Step>, k: string)
    requires Searched(path) && Walk(v, path).Some? && Walk(v, path).value.VDict?
    requires k in Walk(v, path).value.entries
    ensures var w := Walk(v, path).value.entries[k];
            Walk(Mask(v), path + [KeyStep(k)]) ==
              Some(if !SensitiveKey(k) then Mask(w) else if w.VStr? && w.s != [] then VStr(MaskText) else w)
  {
    MaskAlong(v, path);
    WalkSnoc(Mask(v), path, KeyStep(k));
    var m := Walk(v, path).value.entries;
    assert Walk(Mask(VDict(m)), [KeyStep(k)]) == Walk(Mask(VDict(m)).entries[k], []);
  }

  /** Everything that is not a dict or a list is left as it is, wherever the search reaches it. */
  lemma MaskKeepsLeaf(v: Value, path: seq<Step>)
    requires Searched(path) && Walk(v, path).Some?
    requires !Walk(v, path).value.VDict? && !Walk(v, path).value.VList?
    ensures Walk(Mask(v), path) == Walk(v, path)
  {
    MaskAlong(v, path);
  }

  /** Masking keeps the shape: exactly the same paths of subscripts succeed, at every depth. */
  lemma {:induction false} MaskKeepsShape(v: Value, path: seq<Step>)
    ensures Walk(Mask(v), path).Some? <==> Walk(v, path).Some?
    decreases |path|
  {
    if path != [] {
      match (v, path[0])
      case (VDict(m), KeyStep(k)) =>
        if k in m {
          if SensitiveKey(k) {
            var w := m[k];
            var u := Mask(v).entries[k];
            if w.VStr? && w.s != [] {
              assert Walk(u, path[1..]).Some? <==> path[1..] == [];
              assert Walk(w, path[1..]).Some? <==> path[1..] == [];
            }
          } else {
            MaskKeepsShape(m[k], path[1..]);
          }
        }
      case (VList(xs), IndexStep(i)) =>
        if i < |xs| { MaskKeepsShape(xs[i], path[1..]); }
      case _ =>
    }
  }

  /**
   * A dict held by a sensitive key is not searched: a password inside it
   * stays visible, and the search still finds no secret.
   */
  lemma MaskSkipsUnderSensitiveKey(key: string, inner: map<string, Value>)
    requires SensitiveKey(key)
    ensures var v := VDict(map[key := VDict(inner)]);
            Mask(v) == v && NoSecrets(v)
  {
    var v := VDict(map[key := VDict(inner)]);
    assert Mask(v).entries == v.entries;
  }

  /** Masking keeps the top-level keys of the configuration. */
  lemma MaskKeepsKeys(m: map<string, Value>)
    ensures Mask(VDict(m)).VDict? && Mask(VDict(m)).entries.Keys == m.Keys
  {
  }

  /** Masking twice is masking once. */
  lemma {:induction false} MaskIdempotent(v: Value)
    ensures Mask(Mask(v)) == Mask(v)
    decreases v
  {
    match v
    case VDict(m) =>
      var r := Mask(v).entries;
      forall k | k in r && !SensitiveKey(k) ensures Mask(r[k]) == r[k] {
        MaskIdempotent(m[k]);
      }
      assert Mask(VDict(r)).entries == r;
    case VList(xs) =>
      var r := Mask(v).items;
      forall i | 0 <= i < |r| ensures Mask(r[i]) == r[i] {
        MaskIdempotent(xs[i]);
      }
      assert Mask(VList(r)).items == r;
    case _ =>
  }

  // ---------------------------------------------------------------------
  // ConfigManager
  // ---------------------------------------------------------------------

  class ConfigManager {
    var config: Option<map<string, Value>>
    var backup: Option<map<string, Value>>

    constructor()
      ensures config == None && backup == None
    {
      config := None;
      backup := None;
    }

    /** `load_config` on parsed file contents: merge over the defaults, validate, store. */
    method LoadConfig(fileConfig: Value, compiles: string -> bool) returns (r: Result<map<string, Value>, Raised>)
      modifies this
      ensures r == Loaded(fileConfig, compiles)
      ensures r.Ok? ==> config == Some(r.value) && backup == old(backup)
      ensures r.Err? ==> config == old(config) && backup == old(backup)
    {
      r := Loaded(fileConfig, compiles);
      if r.Ok? {
        config := Some(r.value);
      }
    }

    /** `get_lark_config`, `get_processing_config`, `get_logging_config`: the section, `{}` when absent. */
    function GetSection(name: string): (r: Result<Value, Raised>)
      reads this
      ensures config.None? ==> r == Err(ConfigError(NotLoadedMsg))
      ensures config.Some? && name in config.value ==> r == Ok(config.value[name])
      ensures config.Some? && name !in config.value ==> r == Ok(VDict(map[]))
    {
      if config.None? then Err(ConfigError(NotLoadedMsg)) else Ok(Get(config.value, name, VDict(map[])))
    }

    /** `backup_config`: the current configuration is kept aside and returned. */
    method BackupConfig() returns (r: Result<map<string, Value>, Raised>)
      modifies this
      ensures old(config).None? ==> r == Err(ConfigError(NoBackupMsg)) && backup == old(backup)
      ensures old(config).Some? ==> r == Ok(old(config).value) && backup == old(config)
      ensures config == old(config)
    {
      if config.None? {
        return Err(ConfigError(NoBackupMsg));
      }
      backup := config;
      return Ok(config.value);
    }

    /** `restore_config(backup)`: the given configuration becomes the current one. */
    method RestoreConfig(saved: map<string, Value>)
      modifies this
      ensures config == Some(saved) && backup == old(backup)
    {
      config := Some(saved);
    }

    /** The configuration `__str__` renders: masked, or nothing before a load. */
    function SafeConfig(): (r: Option<Value>)
      reads this
      ensures config.None? <==> r.None?
      ensures r.Some? ==> NoSecrets(r.value) && r.value.VDict? && r.value.entries.Keys == config.value.Keys
      ensures r.Some? ==> r.value == Mask(VDict(config.value))
    {
      if config.None? then None
      else
        MaskHidesSecrets(VDict(config.value));
        MaskKeepsKeys(config.value);
        Some(Mask(VDict(config.value)))
    }
  }

  /** A backup taken before a change is what a restore puts back. */
  method BackupRestore(cm: ConfigManager, changed: map<string, Value>)
    requires cm.config.Some?
    modifies cm
    ensures cm.config == old(cm.config)
  {
    var saved := cm.BackupConfig();
    cm.config := Some(changed);
    cm.RestoreConfig(saved.value);
  }
}
