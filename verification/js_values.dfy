/**
 * The JavaScript values the dashboard reads off the wire, and the built-ins
 * it calls on them.
 *
 * Finite numbers are idealised as mathematical reals: the model does not
 * reproduce IEEE-754 rounding. Built-ins whose behaviour is a library's own
 * business (JSON.parse, TextDecoder, string-to-number conversion, number
 * printing, date formatting) are not re-implemented: they are supplied as
 * the function-valued fields of a `Runtime`, and every property proved here
 * holds for every choice of them.
 */
module JsValues {
  import opened Wrappers

  /** A JavaScript number. */
  datatype JsNumber = Finite(v: real) | NaN | PosInfinity | NegInfinity

  /** A value produced by JSON.parse. Objects map each key to its last value. */
  datatype Json =
    | JNull
    | JBool(b: bool)
    | JNumber(n: JsNumber)
    | JString(s: string)
    | JArray(items: seq<Json>)
    | JObject(fields: map<string, Json>)

  /** The result of reading a property: a missing property reads as `undefined`. */
  datatype Value = Undefined | Defined(json: Json)

  /** The JavaScript built-ins the model treats as given. */
  datatype Runtime = Runtime(
    /** JSON.parse; `None` when it throws. */
    parseJson: string -> Option<Json>,
    /** TextDecoder#decode with the default (replacing, never throwing) mode. */
    decodeUtf8: seq<bv8> -> string,
    /** Number(s) for a string `s`. */
    stringToNumber: string -> JsNumber,
    /** Number(v) for an array or object `v` (via its primitive conversion). */
    compositeToNumber: Json -> JsNumber,
    /** Number#toString for a finite number. */
    numberToString: real -> string,
    /** new Date(ms).toLocaleTimeString() for a log timestamp. */
    timeText: Json -> string
  )

  /** `typeof v === "object" && v !== null`: true for objects and for arrays. */
  predicate IsRecord(v: Value) {
    v.Defined? && (v.json.JObject? || v.json.JArray?)
  }

  /**
   * Property read `v[key]` for the property names the dashboard uses, none of
   * which is an array index or `length`: only objects carry them.
   */
  function Get(v: Value, key: string): (r: Value)
    ensures r.Defined? <==> v.Defined? && v.json.JObject? && key in v.json.fields
    ensures r.Defined? ==> r.json == v.json.fields[key]
  {
    if v.Defined? && v.json.JObject? && key in v.json.fields then Defined(v.json.fields[key]) else Undefined
  }

  /** `v == null`: the values `??` and `?.` treat as absent. */
  predicate IsNullish(v: Value) {
    v.Undefined? || v.json.JNull?
  }

  /** `a ?? b`. */
  function Coalesce(a: Value, b: Value): Value {
    if IsNullish(a) then b else a
  }

  /** JavaScript truthiness. */
  predicate Truthy(v: Value) {
    match v
    case Undefined => false
    case Defined(JNull) => false
    case Defined(JBool(b)) => b
    case Defined(JNumber(n)) => n != NaN && n != Finite(0.0)
    case Defined(JString(s)) => s != ""
    case Defined(_) => true
  }

  /** Number(v). */
  function ToNumber(rt: Runtime, v: Value): JsNumber {
    match v
    case Undefined => NaN
    case Defined(JNull) => Finite(0.0)
    case Defined(JBool(b)) => Finite(if b then 1.0 else 0.0)
    case Defined(JNumber(n)) => n
    case Defined(JString(s)) => rt.stringToNumber(s)
    case Defined(j) => rt.compositeToNumber(j)
  }

  /** Number.isFinite(n). */
  predicate IsFinite(n: JsNumber) {
    n.Finite?
  }

  /** Number.isInteger(n). */
  predicate IsInteger(n: JsNumber) {
    n.Finite? && n.v == (n.v.Floor as real)
  }

  /** The string value of a field when it holds a string. */
  function StringOf(v: Value): Option<string> {
    if v.Defined? && v.json.JString? then Some(v.json.s) else None
  }

  /** The number value of a field when it holds a finite number. */
  function FiniteOf(v: Value): Option<real> {
    if v.Defined? && v.json.JNumber? && v.json.n.Finite? then Some(v.json.n.v) else None
  }
}
