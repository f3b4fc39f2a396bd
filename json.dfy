/**
 * A parsed JSON value, as `JSON.parse` hands it to the persisted-settings
 * validators. Numbers are reals (JSON has no NaN or infinity); an object is a
 * map from property names to values, and reading a property it lacks gives
 * `undefined` (None).
 */
module Json {
  import opened Wrappers

  datatype Json =
    | JNull
    | JBool(b: bool)
    | JNumber(n: real)
    | JString(s: string)
    | JArray(items: seq<Json>)
    | JObject(fields: map<string, Json>)

  /** `typeof value === 'object' && value !== null`: objects and arrays. */
  predicate IsNonNullObject(v: Json) {
    v.JObject? || v.JArray?
  }

  /**
   * The named properties the validators can read off a non-null object: an
   * array has none of the names they ask for.
   */
  function Props(v: Json): map<string, Json> {
    if v.JObject? then v.fields else map[]
  }

  /** `typeof v === 'number'`. */
  predicate IsNumber(v: Option<Json>) {
    v.Some? && v.value.JNumber?
  }

  /** `typeof v === 'string'`. */
  predicate IsString(v: Option<Json>) {
    v.Some? && v.value.JString?
  }

  /** `typeof v === 'boolean'`. */
  predicate IsBoolean(v: Option<Json>) {
    v.Some? && v.value.JBool?
  }

  /** `v === s` for a string literal `s`. */
  predicate IsStringLiteral(v: Option<Json>, s: string) {
    v == Some(JString(s))
  }
}
