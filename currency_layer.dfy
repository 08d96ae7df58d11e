/**
 * The CurrencyLayer provider: a `live` query keyed by `access_key`, answering
 * with a `quotes` object whose members are named by the concatenated pair.
 */
module CurrencyLayer {
  import opened Wrappers
  import opened Errors
  import opened Text
  import opened UriEscape
  import opened Json
  import opened Http
  import opened Models

  const Endpoint := "https://api.currencylayer.com/live"
  const ParseFailureMessage := "currencylayer: failed to parse response."

  /** `CurrencyLayer_UrlBuilder.ProvideURL`. The guard tests `key` twice and never `from` or `to`. */
  function ProvideUrl(key: Option<string>, from: string, to: string): string
  {
    if IsNullOrEmpty(key) || IsNullOrEmpty(key) then ""
    else
      Endpoint + "?access_key=" + EscapeDataString(key.value)
      + "&currencies=" + to + "&source=" + from + "&format=1"
  }

  /** The URL is empty exactly when the key is null or empty; empty currencies do not matter. */
  lemma UrlEmptyIff(key: Option<string>, from: string, to: string)
    ensures ProvideUrl(key, from, to) == "" <==> IsNullOrEmpty(key)
  {
  }

  /**
   * `CurrencyLayer_RequestBuilder.ProvideRequest`: `GetAsync(url)` under the shared
   * status rule, so an empty URL throws and a non-2xx answer becomes the empty body.
   */
  function ProvideRequest(send: string -> HttpResponse, url: string): (r: Result<string, Error>)
    ensures url == "" ==> r == Err(InvalidOperation(InvalidRequestUriMessage, None))
    ensures url != "" ==> (r.Err? <==> send(url).Thrown?)
    ensures url != "" && send(url).Response? ==>
      r == Ok(if IsSuccessStatusCode(send(url).status) then send(url).body else "")
  {
    BodyOrEmpty(GetAsync(send, url))
  }

  /** `dict["quotes"].GetProperty(pairKey).GetDecimal()` on the deserialised dictionary. */
  function ReadQuote(parsed: Option<Json>, pairKey: string): Result<real, Error>
  {
    var dict :- DeserializeDictionary(parsed);
    var quotes :- Entry(dict, "quotes");
    var value :- GetProperty(quotes, pairKey);
    GetDecimal(value)
  }

  /** `CurrencyLayer_ResponseBuilder.ProvideResponse`. */
  function ProvideResponse(parse: string -> Option<Json>, json: string, from: string, to: string)
    : Result<ExchangeRate, Error>
  {
    var quote := ReadQuote(parse(json), from + to);
    if quote.Ok? then Ok(ExchangeRate(from, to, quote.value))
    else Err(InvalidOperation(ParseFailureMessage, Some(quote.error)))
  }

  /** The body is an object whose `quotes` object maps `pairKey` to the number `rate`. */
  ghost predicate Quoted(parsed: Option<Json>, pairKey: string, rate: real) {
    exists quotes :: HasMember(parsed, "quotes", quotes) && quotes.JObject?
      && pairKey in quotes.members && quotes.members[pairKey] == JNumber(rate)
  }

  /**
   * The parser succeeds with `ExchangeRate(from, to, rate)` exactly when the body
   * quotes `rate` under `from ++ to`; every failure is the one wrapped parse error.
   */
  lemma ResponseSpec(parse: string -> Option<Json>, json: string, from: string, to: string)
    ensures forall rate ::
              ProvideResponse(parse, json, from, to) == Ok(ExchangeRate(from, to, rate))
              <==> Quoted(parse(json), from + to, rate)
    ensures var r := ProvideResponse(parse, json, from, to);
            r.Ok? ==> r.value.from == from && r.value.to == to
    ensures var r := ProvideResponse(parse, json, from, to);
            r.Err? ==> r.error == InvalidOperation(ParseFailureMessage, r.error.inner) && r.error.inner.Some?
  {
    var parsed := parse(json);
    forall rate | Quoted(parsed, from + to, rate)
      ensures ProvideResponse(parse, json, from, to) == Ok(ExchangeRate(from, to, rate))
    {
      var quotes :| HasMember(parsed, "quotes", quotes) && quotes.JObject?
        && from + to in quotes.members && quotes.members[from + to] == JNumber(rate);
      assert ReadQuote(parsed, from + to) == Ok(rate);
    }
    forall rate | ProvideResponse(parse, json, from, to) == Ok(ExchangeRate(from, to, rate))
      ensures Quoted(parsed, from + to, rate)
    {
      var dict := DeserializeDictionary(parsed).value;
      assert parsed.Some? && parsed.value.JObject?;
      var quotes := dict["quotes"];
      assert HasMember(parsed, "quotes", quotes);
    }
  }
}
