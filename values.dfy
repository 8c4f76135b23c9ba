// The JSON values the service receives (request bodies, social-graph
// responses, catalog entries) together with the few Python built-ins the code
// applies to them: truthiness, dict.get, str(), float() and int().
module Values {
  import opened Text

  datatype Option<T> = None | Some(value: T)

  /** A decoded JSON value as Python holds it. A float carries the text that
      Python's repr gives it, because float formatting is not modelled. */
  datatype Value =
    | VNone
    | VBool(b: bool)
    | VInt(i: int)
    | VFloat(x: real, repr: string)
    | VStr(s: string)
    | VList(items: seq<Value>)
    | VDict(fields: map<string, Value>)

  /** Python's `bool(v)`. */
  predicate Truthy(v: Value) {
    match v
    case VNone => false
    case VBool(b) => b
    case VInt(i) => i != 0
    case VFloat(x, _) => x != 0.0
    case VStr(s) => s != []
    case VList(items) => items != []
    case VDict(fields) => fields != map[]
  }

  /** `d.get(key)`: a missing key reads as None. */
  function Get(d: map<string, Value>, key: string): (r: Value)
    ensures key !in d ==> r == VNone
  {
    if key in d then d[key] else VNone
  }

  /** `d.get(key, default)`. */
  function GetOr(d: map<string, Value>, key: string, default: Value): (r: Value)
    ensures key in d ==> r == d[key]
  {
    if key in d then d[key] else default
  }

  /** Python's `str(v)` (also `format(v, '')` and f-string interpolation). */
  function Str(v: Value): string {
    match v
    case VNone => "None"
    case VBool(b) => if b then "True" else "False"
    case VInt(i) => IntToString(i)
    case VFloat(_, repr) => repr
    case VStr(s) => s
    case VList(_) => "[...]"
    case VDict(_) => "{...}"
  }

  /** How the Python runtime parses numbers written as text. `float(s)` and
      `int(s)` accept signs, surrounding blanks, underscores, exponents and more;
      which strings they accept is left to this parameter. */
  datatype NumberSyntax = NumberSyntax(floatText: string -> Option<real>, intText: string -> Option<int>)

  /** Python's `float(v)`; None where it raises TypeError or ValueError. */
  function FloatOf(num: NumberSyntax, v: Value): (r: Option<real>)
    ensures v.VInt? ==> r == Some(v.i as real)
    ensures v.VNone? || v.VList? || v.VDict? ==> r == None
  {
    match v
    case VNone => None
    case VBool(b) => Some(if b then 1.0 else 0.0)
    case VInt(i) => Some(i as real)
    case VFloat(x, _) => Some(x)
    case VStr(s) => num.floatText(s)
    case VList(_) => None
    case VDict(_) => None
  }

  /** `int(x)` of a float: truncation toward zero. */
  function Truncate(x: real): (r: int)
    ensures x >= 0.0 ==> r as real <= x < r as real + 1.0
    ensures x < 0.0 ==> r as real - 1.0 < x <= r as real
  {
    if x >= 0.0 then x.Floor else -((-x).Floor)
  }

  /** Python's `int(v)`; None where it raises. */
  function IntOf(num: NumberSyntax, v: Value): (r: Option<int>)
    ensures v.VInt? ==> r == Some(v.i)
    ensures v.VNone? || v.VList? || v.VDict? ==> r == None
  {
    match v
    case VNone => None
    case VBool(b) => Some(if b then 1 else 0)
    case VInt(i) => Some(i)
    case VFloat(x, _) => Some(Truncate(x))
    case VStr(s) => num.intText(s)
    case VList(_) => None
    case VDict(_) => None
  }

  /** `int(float(v))`, the way the handlers read millisecond timestamps. */
  function IntOfFloat(num: NumberSyntax, v: Value): (r: Option<int>)
    ensures v.VInt? ==> r == Some(v.i)
  {
    match FloatOf(num, v)
    case None => None
    case Some(x) => Some(Truncate(x))
  }

  /** `isinstance(v, dict)` */
  predicate IsDict(v: Value) { v.VDict? }
}
