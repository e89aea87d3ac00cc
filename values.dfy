/**
 * Python values as the converter receives them: records are `dict`s whose
 * values may be `None`, booleans, integers, strings, lists or nested dicts.
 * This is also the shape of the JSON the remote table service answers with.
 */
module Values {
  import opened Wrappers
  import opened Text

  datatype Value =
    | VNone
    | VBool(b: bool)
    | VInt(i: int)
    | VStr(s: string)
    | VList(items: seq<Value>)
    | VDict(entries: map<string, Value>)

  /** Python truthiness: `None`, `False`, `0`, `""`, `[]` and `{}` are false. */
  predicate Truthy(v: Value) {
    match v
    case VNone => false
    case VBool(b) => b
    case VInt(i) => i != 0
    case VStr(s) => s != []
    case VList(xs) => xs != []
    case VDict(m) => m != map[]
  }

  /** `str(v)` of a value that is neither a list nor a string. */
  function ScalarStr(v: Value): (r: string)
    requires !v.VList? && !v.VStr?
    ensures r != [] && !IsSpace(r[0])
  {
    match v
    case VNone => "None"
    case VBool(b) => if b then "True" else "False"
    case VInt(i) => IntToString(i)
    case VDict(m) => if m == map[] then "{}" else "{...}"
  }

  /** Python's `str(v)`. A non-empty dict is rendered as the placeholder `{...}` (see README). */
  function Str(v: Value): (r: string)
    ensures !v.VStr? ==> r != [] && !IsSpace(r[0])
    ensures v.VStr? ==> r == v.s
  {
    match v
    case VStr(s) => s
    case VList(xs) => "[" + Join(", ", ReprAll(xs)) + "]"
    case _ => ScalarStr(v)
  }

  /** Python's `repr(v)` as it appears inside a list; string escapes are not modelled. */
  function Repr(v: Value): string {
    match v
    case VStr(s) => "'" + s + "'"
    case VList(xs) => "[" + Join(", ", ReprAll(xs)) + "]"
    case _ => ScalarStr(v)
  }

  function ReprAll(xs: seq<Value>): seq<string>
    decreases xs
  {
    if xs == [] then [] else [Repr(xs[0])] + ReprAll(xs[1..])
  }

  /**
   * The blankness test the formatter and the client share, `not v or not
   * str(v).strip()`: stated with `IsBlank`, which `BlankValueStrip` shows is
   * the same thing.
   */
  predicate IsBlankValue(v: Value) {
    !Truthy(v) || IsBlank(Str(v))
  }

  /** Python's `0 == v` on JSON values: `0` and `False` compare equal to zero. */
  predicate IsZero(v: Value) {
    v == VInt(0) || v == VBool(false)
  }

  /** Python's `d.get(key, default)`. */
  function Get(m: map<string, Value>, key: string, default: Value): (r: Value)
    ensures key in m ==> r == m[key]
    ensures key !in m ==> r == default
  {
    if key in m then m[key] else default
  }

  /** Python's `type(v).__name__`. */
  function TypeName(v: Value): string {
    match v
    case VNone => "NoneType"
    case VBool(_) => "bool"
    case VInt(_) => "int"
    case VStr(_) => "str"
    case VList(_) => "list"
    case VDict(_) => "dict"
  }

  /** The `AttributeError` message for calling `.get` on a value that is not a dict. */
  function NoGetMsg(v: Value): string {
    "'" + TypeName(v) + "' object has no attribute 'get'"
  }

  /** Python's `hasattr(v, '__len__')`. */
  predicate HasLen(v: Value) {
    v.VStr? || v.VList? || v.VDict?
  }

  /** Python's `len(v)` for a sized value. */
  function Len(v: Value): nat
    requires HasLen(v)
  {
    match v
    case VStr(s) => |s|
    case VList(xs) => |xs|
    case VDict(m) => |m|
  }

  /** `IsBlankValue` is `not v or not str(v).strip()`. */
  lemma BlankValueStrip(v: Value)
    ensures IsBlankValue(v) <==> !Truthy(v) || Strip(Str(v)) == []
  {
    StripEmptyIffBlank(Str(v));
  }
}
