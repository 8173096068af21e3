/**
  JSON values as Python's `json` module produces them, and the two Python
  views of a value that the error blurb relies on: `str(v)` and truthiness.
*/
module PyJson {
  import Strptime

  /** A float, kept as the text of its Python `repr` (e.g. "49.2805"); its arithmetic is not modelled. */
  datatype Float = Float(repr: string)

  datatype Json =
    | JNull
    | JBool(b: bool)
    | JInt(i: int)
    | JFloat(f: Float)
    | JString(s: string)
    | JArray(items: seq<Json>)
    | JObject(fields: map<string, Json>)

  /** A response body: `response.json()` either raises ValueError (not JSON) or gives a value. */
  datatype Body = NotJson | Parsed(json: Json)

  /** Python truthiness of a decoded JSON value. */
  predicate Truthy(j: Json) {
    match j
    case JNull => false
    case JBool(b) => b
    case JInt(i) => i != 0
    case JFloat(f) => f.repr != "0.0" && f.repr != "-0.0"
    case JString(s) => s != ""
    case JArray(items) => items != []
    case JObject(fields) => fields != map[]
  }

  /** The decimal numeral `str(n)` writes for a natural: digits whose value is `n`, with no leading zero. */
  function DigitString(n: nat): (s: string)
    ensures |s| >= 1
    ensures Strptime.AllDigits(s) && Strptime.Decimal(s) == n
    ensures |s| > 1 ==> s[0] != '0'
  {
    var d := [(n % 10 + '0' as int) as char];
    if n < 10 then d
    else
      var t := DigitString(n / 10);
      assert (t + d)[..|t + d| - 1] == t;
      t + d
  }

  /** `str(i)` for an int. */
  function IntString(i: int): string {
    if i < 0 then "-" + DigitString(-i) else DigitString(i)
  }

  /**
    `str(v)` / `'{}'.format(v)` for a decoded JSON value.  Strings are
    themselves; None, booleans, ints and floats print as Python prints them.
    Lists and dicts print as opaque placeholders here (see README).
  */
  function Str(j: Json): string {
    match j
    case JNull => "None"
    case JBool(b) => if b then "True" else "False"
    case JInt(i) => IntString(i)
    case JFloat(f) => f.repr
    case JString(s) => s
    case JArray(_) => "[...]"
    case JObject(_) => "{...}"
  }
}
