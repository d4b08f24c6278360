/** The JSON values that travel in request and response bodies. */
module Json {

  /** A JSON number kept as its literal text. The handlers store and copy
      prices but never compute with them, so no arithmetic is needed. */
  datatype Number = Number(literal: string)

  datatype Value =
    | Null
    | Bool(b: bool)
    | Int(i: int)
    | Num(n: Number)
    | Str(s: string)
    | Arr(items: seq<Value>)
    | Obj(fields: map<string, Value>)

  /** The one-key object `{key: value}` used for every message and error body. */
  function Single(key: string, value: Value): (v: Value)
    ensures v.Obj? && v.fields.Keys == {key} && v.fields[key] == value
  {
    Obj(map[key := value])
  }
}
