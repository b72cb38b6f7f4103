/** An already-parsed JSON tree, in the shape Newtonsoft.Json's `JToken`
    hierarchy gives it, and the two conversions of a token to text that
    the manifest reader uses. */
module Json {
  import opened Wrappers

  /** A JSON token. An object is a finite map from property names to tokens,
      so its property names are unique. */
  datatype Json =
    | JNull
    | JBool(flag: bool)
    | JNumber(num: real)
    | JString(str: string)
    | JArray(items: seq<Json>)
    | JObject(props: map<string, Json>)

  /** The top-level object of a manifest. */
  type JsonObject = map<string, Json>

  /** Outcome of the explicit `(string)` conversion of a token: a C# null,
      a string, or an exception because the token is not a scalar. */
  datatype StringCast = CastNull | CastText(text: string) | CastFails

  /** The textual form of a token that `JToken.ToString()` gives: a string
      token is its own text; every other token gets whatever text `render`
      (the library's formatting, not modelled) gives it. */
  function TokenText(render: Json -> string, t: Json): (r: string)
    ensures t.JString? ==> r == t.str
    ensures !t.JString? ==> r == render(t)
  {
    if t.JString? then t.str else render(t)
  }

  /** Whether `(string)` accepts the token: anything but an array or an object. */
  predicate Convertible(t: Json) {
    !t.JArray? && !t.JObject?
  }

  /** The explicit `(string)` conversion of a token: null stays null, a
      string is itself, a number or boolean becomes its textual form, and an
      array or an object cannot be converted. */
  function CastString(render: Json -> string, t: Json): (r: StringCast)
    ensures r.CastFails? <==> !Convertible(t)
    ensures r.CastNull? <==> t.JNull?
    ensures t.JString? ==> r == CastText(t.str)
    ensures (t.JNumber? || t.JBool?) ==> r == CastText(render(t))
  {
    match t
    case JNull => CastNull
    case JString(s) => CastText(s)
    case JBool(_) => CastText(render(t))
    case JNumber(_) => CastText(render(t))
    case JArray(_) => CastFails
    case JObject(_) => CastFails
  }

  /** The C# string a successful conversion gives (`None` is null). */
  function CastValue(c: StringCast): (r: Option<string>)
    requires !c.CastFails?
    ensures r.None? <==> c.CastNull?
    ensures c.CastText? ==> r == Some(c.text)
  {
    if c.CastText? then Some(c.text) else None
  }

  /** `(string)json[key]`: the indexer gives null for a missing key, and
      converting null gives null. */
  function CastField(render: Json -> string, obj: JsonObject, key: string): (r: StringCast)
    ensures key !in obj ==> r == CastNull
    ensures key in obj ==> r == CastString(render, obj[key])
  {
    if key in obj then CastString(render, obj[key]) else CastNull
  }
}
