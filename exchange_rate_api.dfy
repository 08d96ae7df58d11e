/**
 * The ExchangeRate-API provider: a path-templated `pair` lookup answering with
 * a flat `conversion_rate` field.
 */
module ExchangeRateApi {
  import opened Wrappers
  import opened Errors
  import opened Text
  import opened Json
  import opened Http
  import opened Models

  const Endpoint := "https://v6.exchangerate-api.com/v6/"
  const RequestFailureMessage := "exchangerate-api: failed to parse request."
  const ParseFailureMessage := "exchangerate-api: failed to parse response."

  /** `ERAF_UrlBuilder.ProvideURL`: the key is placed in the path unescaped. */
  function ProvideUrl(key: Option<string>, from: string, to: string): string
  {
    if IsNullOrEmpty(key) || from == "" || to == "" then ""
    else Endpoint + key.value + "/pair/" + from + "/" + to
  }

  /** The URL is empty exactly when the key, `from` or `to` is null or empty. */
  lemma UrlEmptyIff(key: Option<string>, from: string, to: string)
    ensures ProvideUrl(key, from, to) == "" <==> IsNullOrEmpty(key) || from == "" || to == ""
  {
  }

  /**
   * `ERAF_RequestBuilder.ProvideRequest`: `GetAsync(url)` then `EnsureSuccessStatusCode`,
   * so an empty URL, a thrown request or a non-2xx answer is raised as the wrapped
   * request error.
   */
  function ProvideRequest(send: string -> HttpResponse, url: string): (r: Result<string, Error>)
    ensures r.Ok? <==> url != "" && send(url).Response? && IsSuccessStatusCode(send(url).status)
    ensures r.Ok? ==> r.value == send(url).body
    ensures r.Err? ==> r.error.InvalidOperation? && r.error.message == RequestFailureMessage
    ensures url == "" ==> r == Err(InvalidOperation(RequestFailureMessage, Some(InvalidOperation(InvalidRequestUriMessage, None))))
  {
    match GetAsync(send, url)
    case Thrown(error) =>
      Err(InvalidOperation(RequestFailureMessage, Some(error)))
    case Response(status, body) =>
      if IsSuccessStatusCode(status) then Ok(body)
      else Err(InvalidOperation(RequestFailureMessage, Some(HttpStatus(status, "Response status code does not indicate success"))))
  }

  /** `JsonDocument.Parse(json).RootElement.GetProperty("conversion_rate").GetDecimal()`. */
  function ReadConversionRate(parsed: Option<Json>): Result<real, Error>
  {
    var root :- ParseDocument(parsed);
    var value :- GetProperty(root, "conversion_rate");
    GetDecimal(value)
  }

  /** `ERAF_ResponseBuilder.ProvideResponse`: the rate is labelled with the caller's pair. */
  function ProvideResponse(parse: string -> Option<Json>, json: string, from: string, to: string)
    : Result<ExchangeRate, Error>
  {
    var rate := ReadConversionRate(parse(json));
    if rate.Ok? then Ok(ExchangeRate(from, to, rate.value))
    else Err(InvalidOperation(ParseFailureMessage, Some(rate.error)))
  }

  /**
   * The parser succeeds with `ExchangeRate(from, to, rate)` exactly when the body's
   * root object has the number `rate` as `conversion_rate`; every failure is the
   * one wrapped parse error.
   */
  lemma ResponseSpec(parse: string -> Option<Json>, json: string, from: string, to: string)
    ensures forall rate ::
              ProvideResponse(parse, json, from, to) == Ok(ExchangeRate(from, to, rate))
              <==> HasMember(parse(json), "conversion_rate", JNumber(rate))
    ensures var r := ProvideResponse(parse, json, from, to);
            r.Ok? ==> r.value.from == from && r.value.to == to
    ensures var r := ProvideResponse(parse, json, from, to);
            r.Err? ==> r.error == InvalidOperation(ParseFailureMessage, r.error.inner) && r.error.inner.Some?
  {
  }
}
