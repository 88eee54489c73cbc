/** The JavaScript values that cross the HTTP boundary: a JSON request body, as
    body-parser hands it to the handler, and JavaScript truthiness on its fields. */
module JsValues {

  datatype Option<+T> = None | Some(value: T)

  /** A JSON value. Numbers are kept as reals; JSON has no NaN or infinity. */
  datatype Json =
    | JNull
    | JBool(b: bool)
    | JNumber(n: real)
    | JString(s: string)
    | JArray(items: seq<Json>)
    | JObject(members: map<string, Json>)

  /** A parsed JSON request body. */
  type Body = map<string, Json>

  /** Destructuring `const { key } = body`: `None` stands for `undefined`. */
  function Field(body: Body, key: string): (v: Option<Json>)
    ensures v.Some? <==> key in body
    ensures v.Some? ==> v.value == body[key]
  {
    if key in body then Some(body[key]) else None
  }

  /** JavaScript truthiness: `undefined`, `null`, `false`, `0` and `""` are falsy;
      every other JSON value, including `[]` and `{}`, is truthy. */
  predicate Truthy(v: Option<Json>) {
    match v
    case None => false
    case Some(JNull) => false
    case Some(JBool(b)) => b
    case Some(JNumber(n)) => n != 0.0
    case Some(JString(s)) => s != []
    case Some(JArray(_)) => true
    case Some(JObject(_)) => true
  }

  /** The falsy values, listed: a value is truthy exactly when it is none of
      `undefined`, `null`, `false`, `0` and `""`. */
  lemma FalsyValues(v: Option<Json>)
    ensures !Truthy(v) <==> v in {None, Some(JNull), Some(JBool(false)), Some(JNumber(0.0)), Some(JString(""))}
  {
  }

  /** Whether converting a value to a string, as a template literal `${v}` does,
      throws a TypeError. Primitives always convert. A parsed object converts through
      `Object.prototype.toString` unless it carries its own `toString` key: JSON
      values are never callable, so that key hides the inherited method, the
      inherited `valueOf` returns the object itself, and the conversion fails. An
      array converts by joining its elements, so it fails when one of them does. */
  predicate ToStringThrows(v: Json) {
    match v
    case JObject(members) => "toString" in members
    case JArray(items) => exists i :: 0 <= i < |items| && ToStringThrows(items[i])
    case _ => false
  }

  /** `${v}` for a destructured field; `undefined` converts to "undefined". */
  predicate InterpolationThrows(v: Option<Json>) {
    v.Some? && ToStringThrows(v.value)
  }

  /** Strings, numbers, booleans, `null`, `undefined` and objects without their own
      `toString` key convert; an array fails exactly when one of its elements fails,
      however deeply the offending object is nested. */
  lemma InterpolationCases(v: Option<Json>)
    ensures (v.None? || v.value.JString? || v.value.JNumber? || v.value.JBool? || v.value.JNull?)
              ==> !InterpolationThrows(v)
    ensures v.Some? && v.value.JObject? ==> (InterpolationThrows(v) <==> "toString" in v.value.members)
    ensures v.Some? && v.value.JArray? ==>
      (InterpolationThrows(v) <==> exists i :: 0 <= i < |v.value.items| && InterpolationThrows(Some(v.value.items[i])))
  {
  }

}
