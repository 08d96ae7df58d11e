/**
 * JSON documents as an abstract tree, and the `System.Text.Json` lookups the
 * provider parsers perform on them. Turning response text into a tree is
 * library behaviour; callers receive it as a function `parse`, where `None`
 * stands for text that is not JSON (a `JsonException`).
 */
module Json {
  import opened Wrappers
  import opened Errors

  datatype Json =
    | JNull
    | JBool(b: bool)
    | JNumber(n: real)
    | JString(s: string)
    | JArray(items: seq<Json>)
    | JObject(members: map<string, Json>)

  /** `JsonSerializer.Deserialize<Dictionary<string, object>>(text) ?? new Dictionary()`. */
  function DeserializeDictionary(parsed: Option<Json>): Result<map<string, Json>, Error>
  {
    match parsed
    case None => Err(JsonSyntax)
    case Some(JNull) => Ok(map[])
    case Some(JObject(m)) => Ok(m)
    case Some(_) => Err(JsonSyntax)
  }

  /** `JsonDocument.Parse(text).RootElement`. */
  function ParseDocument(parsed: Option<Json>): Result<Json, Error>
  {
    match parsed
    case None => Err(JsonSyntax)
    case Some(root) => Ok(root)
  }

  /** The dictionary indexer `d[key]`. */
  function Entry(d: map<string, Json>, key: string): Result<Json, Error>
  {
    if key in d then Ok(d[key]) else Err(KeyNotFound(key))
  }

  /** `JsonElement.GetProperty(name)`: ordinal, case-sensitive. */
  function GetProperty(e: Json, name: string): Result<Json, Error>
  {
    match e
    case JObject(m) => if name in m then Ok(m[name]) else Err(KeyNotFound(name))
    case _ => Err(WrongJsonKind)
  }

  /** `JsonElement.GetDecimal()`. */
  function GetDecimal(e: Json): Result<real, Error>
  {
    match e
    case JNumber(n) => Ok(n)
    case _ => Err(WrongJsonKind)
  }

  /** The member `name` of an object-valued JSON text, if it is there. */
  ghost predicate HasMember(parsed: Option<Json>, name: string, v: Json) {
    parsed.Some? && parsed.value.JObject? && name in parsed.value.members
    && parsed.value.members[name] == v
  }
}
