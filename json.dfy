/**
 * JavaScript values as they travel in JSON bodies, with the three pieces of
 * JavaScript semantics the services depend on: truthiness, reading a property
 * (which throws on `null`/`undefined`) and `String(v)` (what `setItem` stores).
 * An absent value (`undefined`) is `None`.
 */
module JsValue {
  import opened Wrappers
  import Text

  /** Only integral numbers are modelled. */
  datatype Json =
    | JNull
    | JBool(b: bool)
    | JNum(n: int)
    | JStr(s: string)
    | JArr(items: seq<Json>)
    | JObj(fields: map<string, Json>)

  /** JavaScript truthiness: `undefined`, `null`, `false`, `0` and `''` are falsy. */
  predicate Truthy(v: Option<Json>)
  {
    match v
    case None => false
    case Some(JNull) => false
    case Some(JBool(b)) => b
    case Some(JNum(n)) => n != 0
    case Some(JStr(s)) => s != ""
    case Some(_) => true
  }

  /** A string is truthy exactly when it is non-empty. */
  predicate TruthyStr(s: Option<string>)
  {
    s.Some? && s.value != ""
  }

  /** An integral number is truthy exactly when it is not zero (NaN is not modelled). */
  predicate TruthyNum(n: Option<int>)
  {
    n.Some? && n.value != 0
  }

  /** The thrown TypeError of a property read on `null` or `undefined`. */
  datatype TypeError = TypeError

  /**
   * `v.key`. Only own properties of objects are modelled: reading `key` on any
   * other non-null value gives `undefined`.
   */
  function Get(v: Option<Json>, key: string): (r: Result<Option<Json>, TypeError>)
    ensures r.Err? <==> (v == None || v == Some(JNull))
    ensures r.Ok? && r.value.Some? ==> v.value.JObj? && key in v.value.fields && r.value.value == v.value.fields[key]
  {
    match v
    case None => Err(TypeError)
    case Some(JNull) => Err(TypeError)
    case Some(JObj(f)) => Ok(if key in f then Some(f[key]) else None)
    case Some(_) => Ok(None)
  }

  /** `v?.key`: optional chaining, `undefined` instead of a TypeError. */
  function OptGet(v: Option<Json>, key: string): (r: Option<Json>)
    ensures r.Some? <==> (v.Some? && v.value.JObj? && key in v.value.fields)
  {
    match Get(v, key)
    case Err(_) => None
    case Ok(x) => x
  }

  /** `String(v)`, which is what `localStorage.setItem` stores for a non-string value. */
  function ToJsString(v: Option<Json>): string
  {
    match v
    case None => "undefined"
    case Some(j) => JsonToString(j)
  }

  function JsonToString(j: Json): string
    decreases j, 1
  {
    match j
    case JNull => "null"
    case JBool(b) => if b then "true" else "false"
    case JNum(n) => Text.IntToString(n)
    case JStr(s) => s
    case JObj(_) => "[object Object]"
    case JArr(items) => JoinElements(j, items)
  }

  /** `Array.prototype.join(',')`: `null` and `undefined` elements become empty strings. */
  function JoinElements(whole: Json, items: seq<Json>): string
    requires forall i :: 0 <= i < |items| ==> items[i] < whole
    decreases whole, 0, |items|
  {
    if |items| == 0 then ""
    else
      var first := if items[0] == JNull then "" else JsonToString(items[0]);
      if |items| == 1 then first else first + "," + JoinElements(whole, items[1..])
  }
}
