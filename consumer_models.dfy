/** The consumer's own view of a package and its settings. */
module ConsumerModels {
  import opened Wrappers

  /** A consumed rate: every field is nullable once deserialised. */
  datatype ConsumedRate = ConsumedRate(from: Option<string>, to: Option<string>, rate: Option<real>)

  /** A consumed package; `rates` may be null when the payload says so. */
  datatype ConsumedPackage = ConsumedPackage(id: Option<string>, time: int, rates: Option<seq<ConsumedRate>>)

  /** The consumer's Kafka section. */
  datatype KafkaSettings = KafkaSettings(bootstrapServers: Option<string>, topic: Option<string>, groupId: Option<string>)

  /** The settings used when the section is missing: no servers, the default topic, no group. */
  const DefaultSettings := KafkaSettings(Some(""), Some("exchange-packages"), None)
}
