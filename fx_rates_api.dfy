/**
 * The FXRatesAPI provider: a `latest` query by base and symbols, authorised by a
 * bearer header on the shared client, answering with a nested `rates` object.
 */
module FxRatesApi {
  import opened Wrappers
  import opened Errors
  import opened Text
  import opened Json
  import opened Http
  import opened Models

  const Endpoint := "https://api.fxratesapi.com/latest"
  const ParseFailureMessage := "fxratesapi: failed to parse response."

  /** `FXR_UrlBuilder.ProvideURL`. The guard tests `key` twice; the key is not part of the URL. */
  function ProvideUrl(key: Option<string>, from: string, to: string): string
  {
    if IsNullOrEmpty(key) || IsNullOrEmpty(key) then ""
    else Endpoint + "?base=" + from + "&symbols=" + to
  }

  /** The URL is empty exactly when the key is null or empty. */
  lemma UrlEmptyIff(key: Option<string>, from: string, to: string)
    ensures ProvideUrl(key, from, to) == "" <==> IsNullOrEmpty(key)
  {
  }

  /** Any two usable keys give the same URL: the key never reaches it. */
  lemma UrlIndependentOfKey(k1: string, k2: string, from: string, to: string)
    requires k1 != "" && k2 != ""
    ensures ProvideUrl(Some(k1), from, to) == ProvideUrl(Some(k2), from, to)
  {
  }

  /**
   * `FXR_RequestBuilder.ProvideRequest`: before sending, it overwrites the shared
   * client's authorization with `Bearer <key>` and adds one more JSON accept entry.
   */
  method ProvideRequest(client: HttpClient, url: string, key: Option<string>, send: string -> HttpResponse)
    returns (r: Result<string, Error>)
    modifies client
    ensures client.authorization == Some(AuthenticationHeader("Bearer", key))
    ensures client.accept == old(client.accept) + ["application/json"]
    ensures url == "" ==> r == Err(InvalidOperation(InvalidRequestUriMessage, None))
    ensures url != "" ==> (r.Err? <==> send(url).Thrown?)
    ensures url != "" && send(url).Response? ==>
      r == Ok(if IsSuccessStatusCode(send(url).status) then send(url).body else "")
    ensures r == BodyOrEmpty(GetAsync(send, url))
  {
    client.authorization := Some(AuthenticationHeader("Bearer", key));
    client.accept := client.accept + ["application/json"];
    var response := GetAsync(send, url);
    r := BodyOrEmpty(response);
  }

  /** `dict["rates"].GetProperty(to).GetDecimal()` on the deserialised dictionary. */
  function ReadRate(parsed: Option<Json>, to: string): Result<real, Error>
  {
    var dict :- DeserializeDictionary(parsed);
    var rates :- Entry(dict, "rates");
    var value :- GetProperty(rates, to);
    GetDecimal(value)
  }

  /** `FXR_ResponseBuilder.ProvideResponse`. */
  function ProvideResponse(parse: string -> Option<Json>, json: string, from: string, to: string)
    : Result<ExchangeRate, Error>
  {
    var rate := ReadRate(parse(json), to);
    if rate.Ok? then Ok(ExchangeRate(from, to, rate.value))
    else Err(InvalidOperation(ParseFailureMessage, Some(rate.error)))
  }

  /** The body is an object whose `rates` object maps `to` to the number `rate`. */
  ghost predicate RateListed(parsed: Option<Json>, to: string, rate: real) {
    exists rates :: HasMember(parsed, "rates", rates) && rates.JObject?
      && to in rates.members && rates.members[to] == JNumber(rate)
  }

  /**
   * The parser succeeds with `ExchangeRate(from, to, rate)` exactly when the body
   * lists `rate` under `rates[to]`; every failure is the one wrapped parse error.
   */
  lemma ResponseSpec(parse: string -> Option<Json>, json: string, from: string, to: string)
    ensures forall rate ::
              ProvideResponse(parse, json, from, to) == Ok(ExchangeRate(from, to, rate))
              <==> RateListed(parse(json), to, rate)
    ensures var r := ProvideResponse(parse, json, from, to);
            r.Ok? ==> r.value.from == from && r.value.to == to
    ensures var r := ProvideResponse(parse, json, from, to);
            r.Err? ==> r.error == InvalidOperation(ParseFailureMessage, r.error.inner) && r.error.inner.Some?
  {
    var parsed := parse(json);
    forall rate | RateListed(parsed, to, rate)
      ensures ProvideResponse(parse, json, from, to) == Ok(ExchangeRate(from, to, rate))
    {
      var rates :| HasMember(parsed, "rates", rates) && rates.JObject?
        && to in rates.members && rates.members[to] == JNumber(rate);
      assert ReadRate(parsed, to) == Ok(rate);
    }
    forall rate | ProvideResponse(parse, json, from, to) == Ok(ExchangeRate(from, to, rate))
      ensures RateListed(parsed, to, rate)
    {
      var dict := DeserializeDictionary(parsed).value;
      assert parsed.Some? && parsed.value.JObject?;
      assert HasMember(parsed, "rates", dict["rates"]);
    }
  }
}
