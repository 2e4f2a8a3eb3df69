/**
 * The values `JSON.parse` returns, and the JavaScript property read `v.key`
 * on them. Parsing itself is a foreign call and is not part of this model.
 */
module Json {

  datatype Json =
    | JNull
    | JBool(b: bool)
    | JNumber(n: real)
    | JString(s: string)
    | JArray(elems: seq<Json>)
    | JObject(fields: map<string, Json>)

  /** The result of a property read: `undefined` or a value. */
  datatype Read = Undefined | Value(v: Json)

  /**
   * `v.key` for a non-null value: an object yields its own field, every other
   * value (boolean, number, string, array) yields `undefined` for the keys the
   * model reads. Reading a property of `null` throws, so it is excluded here.
   */
  function Get(v: Json, key: string): (r: Read)
    requires !v.JNull?
    ensures r.Value? <==> v.JObject? && key in v.fields
  {
    if v.JObject? && key in v.fields then Value(v.fields[key]) else Undefined
  }

  /** `typeof r === 'string'`. */
  predicate IsString(r: Read) {
    r.Value? && r.v.JString?
  }

  /** `Array.isArray(r)`. */
  predicate IsArray(r: Read) {
    r.Value? && r.v.JArray?
  }
}
