/**
 * The JSON values that reach the server in request bodies and stored orders,
 * with the three JavaScript operations the handlers apply to them: truthiness,
 * `String(value)` and property access (`undefined` when absent).
 */
module Js {
  import opened Wrappers
  import opened Strings

  /** A parsed JSON value. Numbers are integers in this model. */
  datatype Json =
    | JNull
    | JBool(b: bool)
    | JNum(n: int)
    | JStr(s: string)
    | JArr(items: seq<Json>)
    | JObj(fields: map<string, Json>)

  /** JavaScript truthiness: `null`, `false`, `0` and `''` are falsy. */
  predicate Truthy(v: Json) {
    match v
    case JNull => false
    case JBool(b) => b
    case JNum(n) => n != 0
    case JStr(s) => s != ""
    case JArr(_) => true
    case JObj(_) => true
  }

  /** Truthiness of a slot that may hold `undefined`. */
  predicate Present(v: Option<Json>) {
    v.Some? && Truthy(v.value)
  }

  /** `String(v)`. */
  function ToStr(v: Json): string
    decreases v
  {
    match v
    case JNull => "null"
    case JBool(b) => if b then "true" else "false"
    case JNum(n) => IntToString(n)
    case JStr(s) => s
    case JArr(items) => JoinItems(items, v)
    case JObj(_) => "[object Object]"
  }

  /** `Array.prototype.join(',')`, which renders `null` elements as empty. */
  function JoinItems(items: seq<Json>, ghost parent: Json): string
    requires forall x :: x in items ==> x < parent
    decreases parent, |items|
  {
    if |items| == 0 then ""
    else
      assert items[0] in items;
      var head := if items[0].JNull? then "" else ToStr(items[0]);
      if |items| == 1 then head
      else
        assert forall x :: x in items[1..] ==> x in items;
        head + "," + JoinItems(items[1..], parent)
  }

  /** `obj.key`: `undefined` (None) unless `obj` is an object holding `key`. */
  function Get(obj: Json, key: string): Option<Json> {
    if obj.JObj? && key in obj.fields then Some(obj.fields[key]) else None
  }

  /** `${v || fallback}`: the string form of `v` when it is truthy, else `fallback`. */
  function OrStr(v: Option<Json>, fallback: string): string {
    if Present(v) then ToStr(v.value) else fallback
  }

  /** `v || fallback` as a value. */
  function OrJson(v: Option<Json>, fallback: Json): Json {
    if Present(v) then v.value else fallback
  }
}
