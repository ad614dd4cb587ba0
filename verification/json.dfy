/** JSON values as `json.loads` returns them, and the two Python operations the
    handlers apply to them: `==` against an int and `int()`. */
module JsonData {
  import opened Outcomes
  import opened Digits

  /** A JSON value. Objects are dictionaries: a repeated key keeps its last value. */
  datatype Json =
    | JNull
    | JBool(b: bool)
    | JNumber(n: int)
    | JString(str: string)
    | JArray(items: seq<Json>)
    | JObject(fields: map<string, Json>)

  /** An appointment as stored in the appointments list: a JSON object. */
  type Appointment = map<string, Json>

  /** A roster entry; only `id` is ever consulted, and it is taken to be an
      integer that every entry carries. */
  datatype Doctor = Doctor(id: int, details: map<string, Json>)

  /** Python's `v == n` for a decoded JSON value and an int. A bool is an int
      in Python, so `true == 1` holds; strings, null and containers never
      equal an int. */
  predicate PyEqualsInt(v: Json, n: int) {
    match v
    case JNumber(m) => m == n
    case JBool(b) => n == (if b then 1 else 0)
    case _ => false
  }

  /** Python's `int(v)` for a decoded JSON value: numbers and bools convert,
      a string of decimal digits is parsed, anything else raises. */
  function IntOf(v: Json): (r: Result<int>)
    ensures r.Err? ==> r.error == Crashed(NotAnInteger)
    ensures r.Ok? && v.JNumber? ==> PyEqualsInt(v, r.value)
    ensures r.Ok? && v.JBool? ==> PyEqualsInt(v, r.value)
  {
    match v
    case JNumber(m) => Ok(m)
    case JBool(b) => Ok(if b then 1 else 0)
    case JString(s) =>
      if s != [] && forall i :: 0 <= i < |s| ==> IsDigit(s[i]) then Ok(DigitsValue(s))
      else Err(Crashed(NotAnInteger))
    case _ => Err(Crashed(NotAnInteger))
  }
}
