/**
 * The values Python's json module produces, and the two things app.py does
 * with them besides reading fields: interpolating them into an f-string and
 * calling `.get` on them.
 */
module JsonValue {
  import opened Wrappers
  import PyText

  /** A decoded JSON document (numbers are integers in this model). */
  datatype Json =
    | Null
    | Bool(b: bool)
    | Number(n: int)
    | Str(s: string)
    | Array(items: seq<Json>)
    | Object(fields: map<string, Json>)

  /**
   * json.loads: the decoded document, or the text of the exception it
   * raised. Its grammar is not modelled; every operation that needs it takes
   * it as a parameter.
   */
  type Loader = string -> Result<Json, string>

  /** dict.get(key, default). */
  function Get(m: map<string, Json>, key: string, default: Json): (r: Json)
    ensures key in m ==> r == m[key]
    ensures key !in m ==> r == default
  {
    if key in m then m[key] else default
  }

  /** type(v).__name__ for the Python value json.loads builds; only an object is a dict. */
  function TypeName(j: Json): (name: string)
    ensures name == "dict" <==> j.Object?
  {
    match j
    case Null => "NoneType"
    case Bool(_) => "bool"
    case Number(_) => "int"
    case Str(_) => "str"
    case Array(_) => "list"
    case Object(_) => "dict"
  }

  /**
   * str() of the AttributeError raised by `v.get(...)` when v is not a dict:
   * the quoted type name, then the fixed explanation.
   */
  function NoAttributeGet(j: Json): (msg: string)
    ensures PyText.StartsWith(msg, "'" + TypeName(j) + "'")
    ensures msg[|TypeName(j)| + 2..] == " object has no attribute 'get'"
  {
    var quoted := "'" + TypeName(j) + "'";
    var msg := quoted + " object has no attribute 'get'";
    assert msg[..|quoted|] == quoted;
    assert msg[|quoted|..] == " object has no attribute 'get'";
    msg
  }

  /**
   * str(v), as an f-string renders a field of the request. Strings render
   * as themselves, ints in canonical decimal, booleans and null as Python
   * spells them; lists and dicts are rendered by a fixed marker.
   */
  function Render(j: Json): (r: string)
    ensures j.Str? ==> r == j.s
    ensures j.Number? && j.n >= 0 ==>
      |r| >= 1 && PyText.IsDigits(r) && PyText.DigitsValue(r) == j.n && (|r| > 1 ==> r[0] != '0')
    ensures j.Number? && j.n < 0 ==>
      |r| >= 2 && r[0] == '-' && PyText.IsDigits(r[1..]) && PyText.DigitsValue(r[1..]) == -j.n && r[1] != '0'
    ensures j.Bool? ==> r == (if j.b then "True" else "False")
    ensures j.Null? ==> r == "None"
  {
    match j
    case Null => "None"
    case Bool(b) => if b then "True" else "False"
    case Number(n) => PyText.IntToStr(n)
    case Str(s) => s
    case Array(_) => "[...]"
    case Object(_) => "{...}"
  }
}
