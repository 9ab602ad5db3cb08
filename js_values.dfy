/** The JavaScript values the front end reads out of JSON rows, and plain
    objects as ordered key/value lists. */
module JsValues {

  /** A cell of a row as the browser holds it. A number carries the text
      `String(n)` gives for it; NaN is kept apart because the profiler tests
      for it. */
  datatype JsValue =
    | Null
    | Undefined
    | Str(s: string)
    | Num(shown: string)
    | NaN
    | Bool(b: bool)

  /** `String(v)`. */
  function ToJsString(v: JsValue): string
  {
    match v
    case Null => "null"
    case Undefined => "undefined"
    case Str(s) => s
    case Num(shown) => shown
    case NaN => "NaN"
    case Bool(b) => if b then "true" else "false"
  }

  /** `typeof v === "number"` (NaN is a number to `typeof`). */
  predicate IsNumber(v: JsValue)
  {
    v.Num? || v.NaN?
  }

  /** A plain object: its own keys in insertion order, each with its value. */
  type Row = seq<(string, JsValue)>

  /** `Object.keys(row)`. */
  function Keys(row: Row): (ks: seq<string>)
    ensures |ks| == |row|
    ensures forall i :: 0 <= i < |row| ==> ks[i] == row[i].0
  {
    if row == [] then [] else [row[0].0] + Keys(row[1..])
  }

  /** `row[key]`: the value stored under `key`, or undefined when the key is
      not there. */
  function Get(row: Row, key: string): (v: JsValue)
    ensures key !in Keys(row) ==> v == Undefined
    ensures (exists i :: 0 <= i < |row| && row[i] == (key, v)) || v == Undefined
  {
    if row == [] then Undefined
    else if row[0].0 == key then row[0].1
    else Get(row[1..], key)
  }
}
