/** The request parameters shared by the job runner and the request-file
    writer: a dictionary from names to the JSON values a stored request
    holds, with Python's `dict.get`, truthiness, `float()` and `str()`. The
    text of a float is a parameter of every member that prints one. */
module Params {
  import opened Wrappers
  import opened Text

  datatype Value = Null | Bool(b: bool) | Int(i: int) | Num(x: real) | Str(s: string)

  type Params = map<string, Value>

  /** `params.get(key, default)`. */
  function Get(p: Params, key: string, default: Value): (r: Value)
    ensures key in p ==> r == p[key]
    ensures key !in p ==> r == default
  {
    if key in p then p[key] else default
  }

  /** Python truthiness of a value. */
  predicate Truthy(v: Value)
  {
    match v
    case Null => false
    case Bool(b) => b
    case Int(i) => i != 0
    case Num(x) => x != 0.0
    case Str(s) => s != []
  }

  /** `float(v)`: `None` where Python raises (`TypeError` for `None`,
      `ValueError` for a string that is not a number). */
  function ToFloat(v: Value): (r: Option<real>)
    ensures v.Num? ==> r == Some(v.x)
    ensures v.Null? ==> r.None?
    ensures v.Str? ==> r == ParseFloat(v.s)
  {
    match v
    case Null => None
    case Bool(b) => Some(if b then 1.0 else 0.0)
    case Int(i) => Some(i as real)
    case Num(x) => Some(x)
    case Str(s) => ParseFloat(s)
  }

  /** `str(v)`, as an f-string prints it. */
  function ValueText(v: Value, floatText: real -> string): string
  {
    match v
    case Null => "None"
    case Bool(b) => if b then "True" else "False"
    case Int(i) => IntToString(i)
    case Num(x) => floatText(x)
    case Str(s) => s
  }
}
