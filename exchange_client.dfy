/**
 * The provider abstraction: a factory hands out a provider's URL, request and
 * response builders, and `HttpExchangeClient.GetRatesAsync` runs them in order,
 * wrapping any failure in one error naming the pair.
 */
module ExchangeClient {
  import opened Wrappers
  import opened Errors
  import opened Text
  import opened Json
  import opened Http
  import opened Models
  import CurrencyLayer
  import ExchangeRateApi
  import FxRatesApi

  /** Which family of builders a factory hands out. */
  datatype ProviderKind = CurrencyLayerProvider | ExchangeRateApiProvider | FxRatesApiProvider

  /** A provider factory with the key it was constructed with. */
  datatype ExchangeFactory = ExchangeFactory(kind: ProviderKind, key: string)

  /** An `HttpExchangeClient`: the three builders of one provider. */
  datatype HttpExchangeClient = HttpExchangeClient(builders: ProviderKind)

  /** The client built from a factory's `UrlBuilder()`, `RequestBuilder()` and `ResponseBuilder()`. */
  function ClientFor(factory: ExchangeFactory): HttpExchangeClient
  {
    HttpExchangeClient(factory.kind)
  }

  /** `urlBuilder.ProvideURL(key, from, to)`. */
  function ProvideUrl(kind: ProviderKind, key: Option<string>, from: string, to: string): string
  {
    match kind
    case CurrencyLayerProvider => CurrencyLayer.ProvideUrl(key, from, to)
    case ExchangeRateApiProvider => ExchangeRateApi.ProvideUrl(key, from, to)
    case FxRatesApiProvider => FxRatesApi.ProvideUrl(key, from, to)
  }

  /** The body (or error) `requestBuilder.ProvideRequest` makes of the answer. */
  function RequestOutcome(kind: ProviderKind, send: string -> HttpResponse, url: string): Result<string, Error>
  {
    match kind
    case CurrencyLayerProvider => CurrencyLayer.ProvideRequest(send, url)
    case ExchangeRateApiProvider => ExchangeRateApi.ProvideRequest(send, url)
    case FxRatesApiProvider => BodyOrEmpty(GetAsync(send, url))
  }

  /** `responseBuilder.ProvideResponse(json, from, to)`. */
  function ProvideResponse(kind: ProviderKind, parse: string -> Option<Json>, json: string, from: string, to: string)
    : Result<ExchangeRate, Error>
  {
    match kind
    case CurrencyLayerProvider => CurrencyLayer.ProvideResponse(parse, json, from, to)
    case ExchangeRateApiProvider => ExchangeRateApi.ProvideResponse(parse, json, from, to)
    case FxRatesApiProvider => FxRatesApi.ProvideResponse(parse, json, from, to)
  }

  function FetchFailedMessage(from: string, to: string): string {
    "Failed to fetch exchange rate (" + from + "-" + to + ")"
  }

  /** What `GetRatesAsync(key, from, to)` returns or throws, given the network and the JSON reader. */
  function FetchRate(client: HttpExchangeClient, send: string -> HttpResponse, parse: string -> Option<Json>,
                     key: Option<string>, from: string, to: string): Result<ExchangeRate, Error>
  {
    var kind := client.builders;
    var url := ProvideUrl(kind, key, from, to);
    var json := RequestOutcome(kind, send, url);
    if json.Err? then Err(InvalidOperation(FetchFailedMessage(from, to), Some(json.error)))
    else
      var rate := ProvideResponse(kind, parse, json.value, from, to);
      if rate.Err? then Err(InvalidOperation(FetchFailedMessage(from, to), Some(rate.error)))
      else rate
  }

  /**
   * `HttpExchangeClient.GetRatesAsync`. The request builder is called without a
   * key, so the FXRatesAPI builder installs a bearer header with a null token;
   * the other builders leave the shared client alone.
   */
  method GetRates(client: HttpExchangeClient, http: HttpClient, send: string -> HttpResponse,
                  parse: string -> Option<Json>, key: Option<string>, from: string, to: string)
    returns (r: Result<ExchangeRate, Error>)
    modifies http
    ensures r == FetchRate(client, send, parse, key, from, to)
    ensures client.builders == FxRatesApiProvider ==>
      http.authorization == Some(AuthenticationHeader("Bearer", None))
      && http.accept == old(http.accept) + ["application/json"]
    ensures client.builders != FxRatesApiProvider ==>
      http.authorization == old(http.authorization) && http.accept == old(http.accept)
  {
    var url := ProvideUrl(client.builders, key, from, to);
    var json: Result<string, Error>;
    if client.builders == FxRatesApiProvider {
      json := FxRatesApi.ProvideRequest(http, url, None, send);
    } else {
      json := RequestOutcome(client.builders, send, url);
    }
    if json.Err? {
      return Err(InvalidOperation(FetchFailedMessage(from, to), Some(json.error)));
    }
    var rate := ProvideResponse(client.builders, parse, json.value, from, to);
    if rate.Err? {
      return Err(InvalidOperation(FetchFailedMessage(from, to), Some(rate.error)));
    }
    r := rate;
  }

  /**
   * On success the result is exactly the response builder's rate for the body
   * the request builder returned, labelled with the requested pair.
   */
  lemma FetchRateOk(client: HttpExchangeClient, send: string -> HttpResponse, parse: string -> Option<Json>,
                    key: Option<string>, from: string, to: string, rate: ExchangeRate)
    requires FetchRate(client, send, parse, key, from, to) == Ok(rate)
    ensures var json := RequestOutcome(client.builders, send, ProvideUrl(client.builders, key, from, to));
      json.Ok? && ProvideResponse(client.builders, parse, json.value, from, to) == Ok(rate)
    ensures rate.from == from && rate.to == to
  {
    var json := RequestOutcome(client.builders, send, ProvideUrl(client.builders, key, from, to));
    match client.builders
    case CurrencyLayerProvider => CurrencyLayer.ResponseSpec(parse, json.value, from, to);
    case ExchangeRateApiProvider => ExchangeRateApi.ResponseSpec(parse, json.value, from, to);
    case FxRatesApiProvider => FxRatesApi.ResponseSpec(parse, json.value, from, to);
  }

  /**
   * Every failure is rethrown as the one error naming the pair, carrying the
   * failing step's own error as its cause.
   */
  lemma FetchRateErr(client: HttpExchangeClient, send: string -> HttpResponse, parse: string -> Option<Json>,
                     key: Option<string>, from: string, to: string)
    requires FetchRate(client, send, parse, key, from, to).Err?
    ensures var json := RequestOutcome(client.builders, send, ProvideUrl(client.builders, key, from, to));
      FetchRate(client, send, parse, key, from, to).error ==
        InvalidOperation(FetchFailedMessage(from, to),
          Some(if json.Err? then json.error
               else ProvideResponse(client.builders, parse, json.value, from, to).error))
  {
  }

  /** A failed request ends the fetch before the response builder runs: the JSON reader is never consulted. */
  lemma FailedRequestSkipsParsing(client: HttpExchangeClient, send: string -> HttpResponse,
                                  parse1: string -> Option<Json>, parse2: string -> Option<Json>,
                                  key: Option<string>, from: string, to: string)
    requires RequestOutcome(client.builders, send, ProvideUrl(client.builders, key, from, to)).Err?
    ensures FetchRate(client, send, parse1, key, from, to) == FetchRate(client, send, parse2, key, from, to)
    ensures FetchRate(client, send, parse1, key, from, to).Err?
  {
  }

  /** The JSON reader rejects the empty text, as `System.Text.Json` does. */
  ghost predicate RejectsEmptyText(parse: string -> Option<Json>) {
    parse("") == None
  }

  /**
   * With CurrencyLayer or FXRatesAPI a non-2xx answer is not an error of the
   * request step, but the empty body it becomes always fails to parse.
   */
  lemma NonSuccessStatusFails(client: HttpExchangeClient, send: string -> HttpResponse, parse: string -> Option<Json>,
                              key: Option<string>, from: string, to: string)
    requires RejectsEmptyText(parse)
    requires var response := GetAsync(send, ProvideUrl(client.builders, key, from, to));
      response.Response? && !IsSuccessStatusCode(response.status)
    ensures FetchRate(client, send, parse, key, from, to).Err?
  {
  }

  /** The exception every request builder meets first when the URL builder gave up. */
  function MissingUrlCause(kind: ProviderKind): Error {
    var refused := InvalidOperation(InvalidRequestUriMessage, None);
    if kind == ExchangeRateApiProvider then InvalidOperation(ExchangeRateApi.RequestFailureMessage, Some(refused))
    else refused
  }

  /**
   * An empty URL never reaches the network: whatever the network and the JSON
   * reader would do, the fetch fails with the refused request as its cause.
   */
  lemma EmptyUrlFails(client: HttpExchangeClient, send: string -> HttpResponse, parse: string -> Option<Json>,
                      key: Option<string>, from: string, to: string)
    requires ProvideUrl(client.builders, key, from, to) == ""
    ensures FetchRate(client, send, parse, key, from, to)
            == Err(InvalidOperation(FetchFailedMessage(from, to), Some(MissingUrlCause(client.builders))))
  {
  }

  /**
   * A null or empty key always fails the fetch, as does an empty currency code
   * with ExchangeRate-API; CurrencyLayer and FXRatesAPI do not look at the codes.
   */
  lemma {:induction false} MissingKeyFails(client: HttpExchangeClient, send: string -> HttpResponse,
                                           parse: string -> Option<Json>, key: Option<string>, from: string, to: string)
    requires IsNullOrEmpty(key) || (client.builders == ExchangeRateApiProvider && (from == "" || to == ""))
    ensures FetchRate(client, send, parse, key, from, to).Err?
    ensures FetchRate(client, send, parse, key, from, to).error.inner == Some(MissingUrlCause(client.builders))
  {
    match client.builders {
      case CurrencyLayerProvider => CurrencyLayer.UrlEmptyIff(key, from, to);
      case ExchangeRateApiProvider => ExchangeRateApi.UrlEmptyIff(key, from, to);
      case FxRatesApiProvider => FxRatesApi.UrlEmptyIff(key, from, to);
    }
    EmptyUrlFails(client, send, parse, key, from, to);
  }
}
