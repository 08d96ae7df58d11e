/**
 * The part of `HttpClient` the providers touch: the outcome of a GET (status and
 * body, or the exception it throws) and the client's shared default headers.
 */
module Http {
  import opened Wrappers
  import opened Errors

  /** What `GetAsync` followed by `ReadAsStringAsync` yields: an answer, or the exception thrown. */
  datatype HttpResponse =
    | Thrown(error: Error)
    | Response(status: int, body: string)

  /** `HttpResponseMessage.IsSuccessStatusCode`. */
  predicate IsSuccessStatusCode(status: int) {
    200 <= status <= 299
  }

  /** The message of the `InvalidOperationException` `GetAsync` throws for a request with no URI. */
  const InvalidRequestUriMessage :=
    "An invalid request URI was provided. Either the request URI must be an absolute URI or BaseAddress must be set."

  /**
   * `GetAsync(url)` on a client made by `IHttpClientFactory.CreateClient`, which has
   * no `BaseAddress`: the empty URL is refused before anything is sent; any other
   * URL goes to the network, `send`.
   */
  function GetAsync(send: string -> HttpResponse, url: string): (r: HttpResponse)
    ensures url == "" ==> r == Thrown(InvalidOperation(InvalidRequestUriMessage, None))
    ensures url != "" ==> r == send(url)
  {
    if url == "" then Thrown(InvalidOperation(InvalidRequestUriMessage, None)) else send(url)
  }

  /**
   * The status rule the CurrencyLayer and FXRatesAPI request builders share: an
   * exception from `GetAsync` propagates unwrapped, a 2xx answer gives its body
   * and any other status gives the empty body.
   */
  function BodyOrEmpty(response: HttpResponse): (r: Result<string, Error>)
    ensures r.Err? <==> response.Thrown?
    ensures r.Err? ==> r.error == response.error
    ensures response.Response? && IsSuccessStatusCode(response.status) ==> r == Ok(response.body)
    ensures response.Response? && !IsSuccessStatusCode(response.status) ==> r == Ok("")
  {
    match response
    case Thrown(error) => Err(error)
    case Response(status, body) =>
      if !IsSuccessStatusCode(status) then Ok("") else Ok(body)
  }

  /** A client instance whose `DefaultRequestHeaders` are shared by every request it sends. */
  class HttpClient {
    var authorization: Option<AuthenticationHeader>
    var accept: seq<string>

    constructor ()
      ensures authorization == None && accept == []
    {
      authorization := None;
      accept := [];
    }
  }

  /** `AuthenticationHeaderValue(scheme, parameter)`; the parameter may be null. */
  datatype AuthenticationHeader = AuthenticationHeader(scheme: string, parameter: Option<string>)
}
