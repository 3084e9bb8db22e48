/**
  The part of JavaScript's value model the scripts rely on: JSON-shaped
  values, truthiness (`if (!x)`), and reading a property of an object.
 */
module Js {

  /** Raw bytes of a response body (`Uint8Array` / `ArrayBuffer`). */
  type Bytes = seq<bv8>

  /** A value as produced by `JSON.parse` (plus `undefined` for a missing property). */
  datatype Value =
    | Undefined
    | Null
    | Bool(b: bool)
    | Num(n: int)
    | Str(s: string)
    | Arr(items: seq<Value>)
    | Obj(fields: map<string, Value>)

  /** Manifest entry properties the download and convert scripts read. */
  const RepoKey := "repo"
  const SourceUrlKey := "sourceUrl"
  const ImageUrlKey := "imageUrl"

  /** The own properties of a JSON object. */
  type Record = map<string, Value>

  /** JavaScript truthiness: `!v` is false exactly when this holds. */
  predicate Truthy(v: Value)
  {
    match v
    case Undefined => false
    case Null => false
    case Bool(b) => b
    case Num(n) => n != 0
    case Str(s) => s != ""
    case Arr(_) => true
    case Obj(_) => true
  }

  /** `record.key`: the property's value, `undefined` when it is absent. */
  function Field(record: Record, key: string): Value
  {
    if key in record then record[key] else Undefined
  }
}
