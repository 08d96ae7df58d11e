/** The producer's records: rates, packages, requests and provider configuration. */
module Models {
  import opened Wrappers

  /** One quoted rate. Decimals are exact, so they are modelled as `real`. */
  datatype ExchangeRate = ExchangeRate(from: string, to: string, rate: real)

  /**
   * A package of rates. `id` is absent until the document store assigns one on
   * insert; `time` is the UTC instant of construction.
   */
  datatype ExchangePackage = ExchangePackage(id: Option<string>, time: int, rates: seq<ExchangeRate>)

  /** A currency pair in a stream request. */
  datatype PairDto = PairDto(from: string, to: string)

  /** The body of a start-stream request. */
  datatype StartKafkaStreamRequest = StartKafkaStreamRequest(pairs: seq<PairDto>, intervalInSeconds: int)

  /** The interval a request carries when it names none. */
  const DefaultIntervalInSeconds: int := 60

  /** The body of a fetch request: a possibly-null list of (from, to) tuples. */
  datatype ExchangePackageRequest = ExchangePackageRequest(currencies: Option<seq<(string, string)>>)

  /** One entry of the `Exchange` configuration section. */
  datatype ExchangeProviderConfig = ExchangeProviderConfig(provider: Option<string>, key: Option<string>, active: bool)

  /** The provider and key of the active entry, copied as configured. */
  datatype ActiveExchangeOptions = ActiveExchangeOptions(provider: Option<string>, key: Option<string>)
}
