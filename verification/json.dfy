/**
 An already-parsed JSON value, and the Gson 2.11 accessors the tool window calls on it. An
 accessor that throws in Gson returns `None` here; a member lookup that yields `null` in Gson
 is `None` from `Get`.
 */
module JsonValue {
  import opened Options

  /** A JSON value as Gson's `JsonElement` holds it. A number keeps its literal text, which
      is what `getAsString` gives back for a parsed number. Object members are keyed by
      name; Gson keeps the last of duplicate names. */
  datatype Json =
    | JNull
    | JBool(b: bool)
    | JNumber(literal: string)
    | JString(s: string)
    | JArray(items: seq<Json>)
    | JObject(fields: map<string, Json>)

  /** What the parser made of a response body: a value, or a syntax error (Gson throws). */
  datatype Parse = Parsed(root: Json) | ParseFailed

  /** `isJsonPrimitive`: a boolean, a number or a string. */
  predicate IsPrimitive(j: Json) {
    j.JBool? || j.JNumber? || j.JString?
  }

  /** `JsonPrimitive.getAsString`. */
  function PrimitiveText(j: Json): (r: string)
    requires IsPrimitive(j)
    ensures j.JString? ==> r == j.s
    ensures j.JNumber? ==> r == j.literal
    ensures j.JBool? ==> (r == "true" <==> j.b) && (r == "false" <==> !j.b)
  {
    match j
    case JBool(b) => if b then "true" else "false"
    case JNumber(lit) => lit
    case JString(s) => s
  }

  /** `JsonObject.get(name)`: the member's value, or Kotlin `null` when there is no such member. */
  function Get(fields: map<string, Json>, name: string): (r: Option<Json>)
    ensures r.Some? <==> name in fields
    ensures r.Some? ==> r.value == fields[name]
  {
    if name in fields then Some(fields[name]) else None
  }

  /** `JsonElement.getAsString` in Gson 2.11: a primitive gives its text; an array with exactly
      one element gives that element's string; every other value (`JsonNull`, an object, an
      array of another size) throws, which is `None` here. */
  function AsString(j: Json): (r: Option<string>)
    ensures IsPrimitive(j) ==> r == Some(PrimitiveText(j))
    ensures j.JNull? || j.JObject? ==> r.None?
    ensures j.JArray? && |j.items| != 1 ==> r.None?
  {
    match j
    case JArray(items) => if |items| == 1 then AsString(items[0]) else None
    case JNull => None
    case JObject(_) => None
    case _ => Some(PrimitiveText(j))
  }

  /** A value nested in one-element arrays, as many levels deep as `depth`. */
  function Wrap(j: Json, depth: nat): Json {
    if depth == 0 then j else JArray([Wrap(j, depth - 1)])
  }

  /** `getAsString` sees through any number of one-element array wrappers. */
  lemma {:induction false} AsStringWrapped(j: Json, depth: nat)
    ensures AsString(Wrap(j, depth)) == AsString(j)
  {
    if depth > 0 {
      AsStringWrapped(j, depth - 1);
    }
  }
}
