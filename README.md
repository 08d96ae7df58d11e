# Currencies exchange pipeline — a Dafny model

This project models the decision logic of the CurrenciesExchange system.

The producer runs streams. Each stream periodically fetches exchange rates for a list of currency pairs from one configured provider: CurrencyLayer, ExchangeRate-API or FXRatesAPI. It stores each package of rates in a document store and publishes it to a Kafka topic. A stream backs off exponentially after consecutive failures.

The consumer subscribes to the topic and keeps the last well-formed package in a single-slot cache.

Two small Node services keep an in-memory item table with create, update and list.

I/O is reduced to inputs:
- the network is a function from a non-empty URL to a response or an exception; the empty URL is refused before it reaches the network;
- JSON text parsing is a function from text to an abstract JSON tree;
- Kafka polls, publish outcomes, store inserts, ids, clocks and cancellation are sequences or parameters.

Each piece of state that the source updates in place is a class:
- the stream registry;
- a stream's loop;
- the shared HTTP client's headers;
- the package store;
- the cache;
- the consumer service;
- the item tables.

Each method's ensures gives the new state in terms of the old one. The loops of `StreamLoop.RunLoop`, `ConsumerService.Execute` and `DocumentPackage` are proved equal to a specification function, and the properties of those functions are proved as lemmas. The list operations are characterised by their ensures: which ids or items they return, each once, and in which order.

Module layout:
- `wrappers.dfy`, `errors.dfy`: the Option/Result types and the exceptions the code throws.
- `text.dfy`: `Trim`, `IsNullOrEmpty`, `IsNullOrWhiteSpace` and ordinal case folding.
- `uri_escape.dfy`: `Uri.EscapeDataString`.
- `json.dfy`, `http.dfy`: the JSON tree with `GetProperty`/`GetDecimal`, HTTP responses and the shared client.
- `models.dfy`, `consumer_models.dfy`: the records of the producer and the consumer.
- `currency_layer.dfy`, `exchange_rate_api.dfy`, `fx_rates_api.dfy`: the URL, request and response builders of each provider.
- `exchange_client.dfy`: `HttpExchangeClient.GetRatesAsync`.
- `provider_selection.dfy`: the provider selection at producer start-up.
- `exchange_rate_service.dfy`: `DocumentPackage`.
- `kafka_stream_manager.dfy`: the stream registry and the per-stream retry loop.
- `last_package_cache.dfy`, `kafka_consumer_service.dfy`: the consumer.
- `insertion_order.dfy`, `domain_item_service.dfy`, `mvc_item_service.dfy`: the item tables.

Where the code and its comments disagree, the model follows the code:
- The backoff comment at `producer/Services/KafkaStreamManager.cs:90` says the delays run 1, 2, 4, …. The formula gives 2 seconds after the first failure (`BackoffTable`).
- A cycle whose package has no rates returns normally. So it resets the failure counter rather than counting as a failure (`EmptyPackageIsNotAFailure`).
- `DocumentPackage` rejects only a null request or a null pair list. An empty pair list yields a package with no rates, which is then stored.
- CurrencyLayer and FXRatesAPI test the key twice and never test `from` or `to`.
- The client calls the request builder without the key. So FXRatesAPI always sends `Bearer` with a null token, and its URL has no key either.

## Model

| member | source | states |
|---|---|---|
| KafkaStreamManager.EffectiveInterval | producer/Services/KafkaStreamManager.cs:30 | the interval is at least 60 and at least the requested value, and it equals one of them (a floor, no ceiling) |
| KafkaStreamManager.Pow2 | producer/Services/KafkaStreamManager.cs:105 | integer powers of two are at least 1 |
| KafkaStreamManager.Backoff | producer/Services/KafkaStreamManager.cs:103-105 | the backoff after n consecutive failures lies between 1 and 60 seconds |
| KafkaStreamManager.BackoffTable | producer/Services/KafkaStreamManager.cs:103-105 | the delays after failures 1 to 6 are 2, 4, 8, 16, 32 and 60 seconds, and 60 for every later failure |
| KafkaStreamManager.BackoffMonotone | producer/Services/KafkaStreamManager.cs:135-136 | the delay never shrinks as consecutive failures accumulate |
| KafkaStreamManager.StreamRegistry.constructor | producer/Services/KafkaStreamManager.cs:18 | the registry starts empty and keeps every entry under its lower-cased id |
| KafkaStreamManager.StreamRegistry.Start | producer/Services/KafkaStreamManager.cs:27-42 | a fresh id is added with the clamped interval and returned, and nothing else changes; an id already present, ignoring case, gives "Could not create stream." and leaves the registry unchanged |
| KafkaStreamManager.StreamRegistry.Stop | producer/Services/KafkaStreamManager.cs:44-53 | returns true exactly when the id was registered, ignoring case; afterwards that id is gone and nothing else changed |
| KafkaStreamManager.StreamRegistry.List | producer/Services/KafkaStreamManager.cs:55 | returns exactly the registered ids, as generated, with no two equal ignoring case |
| KafkaStreamManager.StartThenStop | producer/Services/KafkaStreamManager.cs:27-53 | Start then Stop of an id restores the registry; the first Stop returns true and a second Stop returns false |
| KafkaStreamManager.StopIgnoresCase | producer/Services/KafkaStreamManager.cs:18 | stopping "ABC" removes the stream registered as "abc" |
| KafkaStreamManager.StreamLoop.constructor | producer/Services/KafkaStreamManager.cs:66-70 | a loop starts with a zero failure counter, nothing published and no backoff |
| KafkaStreamManager.StreamLoop.ProduceOnce | producer/Services/KafkaStreamManager.cs:157-175 | publishes exactly when the package is non-null and has at least one rate; throws exactly when the fetch or that publish throws, and otherwise only logs |
| KafkaStreamManager.StreamLoop.RunCycle | producer/Services/KafkaStreamManager.cs:127-143 | a normal return resets the counter to 0; a throw adds 1 to it and schedules the backoff for the new count |
| KafkaStreamManager.StreamLoop.RunLoop | producer/Services/KafkaStreamManager.cs:66-150 | after running the cycles, the loop's state is the fold of the cycle rule over them: the first cycle runs at once, the others on ticks |
| KafkaStreamManager.CounterIsTrailingFailures | producer/Services/KafkaStreamManager.cs:72-144 | the failure counter always equals the number of failing cycles since the last normal return |
| KafkaStreamManager.FailureRunSchedule | producer/Services/KafkaStreamManager.cs:103-105 | from a reset counter, n failures in a row schedule exactly the backoffs for counts 1 to n |
| KafkaStreamManager.BackoffScenario | producer/Services/KafkaStreamManager.cs:127-143 | three failures give delays 2, 4, 8; failure, failure, success, failure gives 2, 4, 2 |
| KafkaStreamManager.EmptyPackageIsNotAFailure | producer/Services/KafkaStreamManager.cs:164-174 | a null or rate-less package publishes nothing, resets the counter and schedules no backoff |
| KafkaStreamManager.RunPublishesDelivered | producer/Services/KafkaStreamManager.cs:164-169 | the loop publishes exactly the packages of the cycles whose publish succeeds, in cycle order |
| KafkaStreamManager.PublishedAreNonEmpty | producer/Services/KafkaStreamManager.cs:164 | every published package carries at least one rate |
| ExchangeRateService.PackageStore.InsertOne | producer/Services/ExchangeRateService.cs:56 | a successful insert gives the package its id and appends it; a failed insert stores nothing and propagates the error |
| ExchangeRateService.Successes | producer/Services/ExchangeRateService.cs:37-51 | there are never more successful rates than pairs |
| ExchangeRateService.DocumentPackage | producer/Services/ExchangeRateService.cs:26-58 | a null request or null pair list gives ArgumentNullException("request", "Request cannot be null.") and stores nothing; otherwise the package's rates are a permutation of the successful fetches; it is stored before it is returned, and an insert failure propagates |
| ExchangeRateService.SuccessIsKept | producer/Services/ExchangeRateService.cs:42-45 | every pair whose fetch succeeds has its rate in the package |
| ExchangeRateService.FaultIsolation | producer/Services/ExchangeRateService.cs:42-50 | when some fetches throw instead of succeeding, the rates are a sub-multiset of the rates without those failures, so a failure only removes rates |
| ExchangeRateService.SuccessCount | producer/Services/ExchangeRateService.cs:34-53 | the number of rates equals the number of pairs whose fetch succeeds |
| ExchangeRateService.AllFailedGivesEmpty | producer/Services/ExchangeRateService.cs:47-53 | when every fetch fails, including for an empty pair list, the package has no rates and is not an error |
| ExchangeRateService.RatesAreForRequestedPairs | producer/Services/ExchangeRateService.cs:37-45 | every rate in the package is labelled with a requested (from, to) pair |
| ExchangeClient.GetRates | producer/Services/ExchangeProviders/IExchangeFactory.cs:107-123 | the result is the URL, request, response composition; with FXRatesAPI the shared client gets Bearer with a null token, because no key is passed, and one more JSON accept entry; the other providers leave the client unchanged |
| ExchangeClient.FetchRateOk | producer/Services/ExchangeProviders/IExchangeFactory.cs:112-117 | a success is exactly the response builder's rate for the body the request step returned on the URL built from (key, from, to), labelled (from, to) |
| ExchangeClient.FetchRateErr | producer/Services/ExchangeProviders/IExchangeFactory.cs:119-122 | every failure is rethrown as "Failed to fetch exchange rate (from-to)" carrying the failing step's own error |
| ExchangeClient.FailedRequestSkipsParsing | producer/Services/ExchangeProviders/IExchangeFactory.cs:110-118 | a failing request step fails the fetch without consulting the response step |
| ExchangeClient.EmptyUrlFails | producer/Services/ExchangeProviders/IExchangeFactory.cs:112-121 | an empty URL fails the fetch whatever the network and JSON reader do, with the refused request as the cause (wrapped once more by ExchangeRate-API) |
| ExchangeClient.MissingKeyFails | producer/Services/ExchangeProviders/IExchangeFactory.cs:112-121 | a null or empty key always fails the fetch, and so does an empty currency code with ExchangeRate-API |
| ExchangeClient.NonSuccessStatusFails | producer/Services/ExchangeProviders/IExchangeFactory.cs:112-116 | a non-2xx answer fails the fetch for every provider: ExchangeRate-API in the request step, the others by parsing the empty body |
| CurrencyLayer.UrlEmptyIff | producer/Services/ExchangeProviders/CurrencyLayerFactory.cs:38-43 | the URL is empty exactly when the key is null or empty; from and to are never checked |
| Http.GetAsync | producer/Program.cs:73-81 | on a client with no base address the empty URL throws InvalidOperationException before anything is sent; any other URL is sent |
| Http.BodyOrEmpty | producer/Services/ExchangeProviders/CurrencyLayerFactory.cs:57-68 | an exception from GetAsync propagates unwrapped; a 2xx answer gives exactly its body; any other status gives "" |
| CurrencyLayer.ProvideRequest | producer/Services/ExchangeProviders/CurrencyLayerFactory.cs:55-69 | an empty URL throws the invalid-URI error; otherwise it throws exactly when GetAsync throws, a 2xx answer gives exactly its body and any other status gives "" |
| CurrencyLayer.ResponseSpec | producer/Services/ExchangeProviders/CurrencyLayerFactory.cs:80-93 | the result is ExchangeRate(from, to, r) exactly when quotes[from+to] is the number r; every failure is "currencylayer: failed to parse response." with a cause |
| UriEscape.EscapeDataString | producer/Services/ExchangeProviders/CurrencyLayerFactory.cs:43 | the escaped key uses only unreserved characters and percent escapes, and is never shorter than the key |
| UriEscape.EscapedHasNoDelimiters | producer/Services/ExchangeProviders/CurrencyLayerFactory.cs:43 | the escaped key contains no '&', '=', '?', '#' or '/', so it stays within its query parameter |
| UriEscape.EscapeUnreservedIsIdentity | producer/Services/ExchangeProviders/CurrencyLayerFactory.cs:43 | a key made only of unreserved characters is placed in the URL unchanged |
| ExchangeRateApi.UrlEmptyIff | producer/Services/ExchangeProviders/ExchangeRateAPIFactory.cs:21-29 | the URL is empty exactly when the key, from or to is null or empty |
| ExchangeRateApi.ProvideRequest | producer/Services/ExchangeProviders/ExchangeRateAPIFactory.cs:34-48 | the body is returned exactly when the URL is non-empty and the answer is 2xx; an empty URL, a thrown request or any other status gives "exchangerate-api: failed to parse request." |
| ExchangeRateApi.ResponseSpec | producer/Services/ExchangeProviders/ExchangeRateAPIFactory.cs:53-65 | the result is ExchangeRate(from, to, r) exactly when the root's conversion_rate is the number r; every failure is "exchangerate-api: failed to parse response." with a cause |
| FxRatesApi.UrlEmptyIff | producer/Services/ExchangeProviders/FXRatesAPIFactory.cs:24-32 | the URL is empty exactly when the key is null or empty; from and to are never checked |
| FxRatesApi.UrlIndependentOfKey | producer/Services/ExchangeProviders/FXRatesAPIFactory.cs:31 | any two usable keys give the same URL: the key never appears in it |
| FxRatesApi.ProvideRequest | producer/Services/ExchangeProviders/FXRatesAPIFactory.cs:37-53 | the shared client's authorization becomes Bearer with the given key, and one JSON accept entry is added, before the request is sent; then an empty URL throws the invalid-URI error, a thrown request propagates, a 2xx answer gives exactly its body and any other status gives "" |
| FxRatesApi.ResponseSpec | producer/Services/ExchangeProviders/FXRatesAPIFactory.cs:58-71 | the result is ExchangeRate(from, to, r) exactly when rates[to] is the number r; every failure is "fxratesapi: failed to parse response." with a cause |
| ProviderSelection.FirstActive | producer/Program.cs:42 | an entry is found exactly when some entry is active, and it is the first active one |
| ProviderSelection.LabelIsLoweredName | producer/Program.cs:57-59 | each case label is its provider's configured name lower-cased |
| ProviderSelection.ProviderNamedIff | producer/Program.cs:55-60 | the switch on the lower-cased name picks a provider exactly when the name equals that provider's configured name ignoring case |
| ProviderSelection.FactoryNamed | producer/Program.cs:46-61 | a factory is made exactly when the trimmed name equals a configured name ignoring case, and it carries the key; "" gives the empty-provider ArgumentException and any other name "Exchange: Unknown provider '…'." |
| ProviderSelection.SelectFactorySpec | producer/Program.cs:36-62 | selection succeeds exactly when the first active entry's trimmed name matches one of the three names ignoring case; the factory gets that entry's key with null read as ""; an empty name and an unknown name give their own errors |
| ProviderSelection.NoActiveEntryFails | producer/Program.cs:40-43 | with no active entry, or no section at all, start-up fails with "Exchange: All providers inactive." |
| ProviderSelection.BlankNameRejected | producer/Program.cs:46-51 | a first active entry whose name is null or white space gives the empty-provider ArgumentException |
| ProviderSelection.NameMatchIgnoresCase | producer/Program.cs:55-59 | names equal ignoring case select the same provider |
| ProviderSelection.PaddingIgnored | producer/Program.cs:46 | a name with any white space before and after it selects exactly as the bare name does |
| ProviderSelection.ConfiguredNamesAccepted | producer/Program.cs:55-59 | a name equal ignoring case to a provider's configured name ("CurrencyLayer", "ExchangeRate", "FXRatesAPI") selects that provider and no other, with the given key |
| ProviderSelection.InactiveEntriesSkipped | producer/Program.cs:42 | an inactive entry in front of the list changes neither the selected factory nor the active options |
| ProviderSelection.ActiveOptionsCopyFirstActive | producer/Program.cs:64-71 | the active options copy the first active entry's provider and key untrimmed |
| Text.TrimSpec | producer/Program.cs:46 | the trimmed name is a contiguous piece of the name with no white space at either end and only white space cut away around it |
| Text.TrimStartPrefix | producer/Program.cs:46 | the leading trim removes exactly a white-space prefix in front of a non-white-space character |
| Text.TrimEndSuffix | producer/Program.cs:46 | the trailing trim removes exactly a white-space suffix behind a non-white-space character |
| Text.TrimSurrounded | producer/Program.cs:46 | white space of any length before and after a string with clean ends is exactly what Trim removes |
| Text.TrimEmptyIff | producer/Program.cs:46-48 | a trimmed name is empty exactly when the name is all white space |
| LastPackageCache.Cache.constructor | consumer/Services/LastPackageCache.cs:13 | a new cache holds null |
| LastPackageCache.Cache.GetLastPackage | consumer/Services/LastPackageCache.cs:16-23 | returns the stored package and changes nothing |
| LastPackageCache.Cache.SetLastPackage | consumer/Services/LastPackageCache.cs:25-32 | the stored package becomes exactly the one given |
| KafkaConsumerService.GroupIdFor | consumer/Services/KafkaConsumerService.cs:83 | a blank group id becomes "ce-consumer-1", any other is kept, so the group id is never blank |
| KafkaConsumerService.Decide | consumer/Services/KafkaConsumerService.cs:30-47 | the service proceeds exactly when the run mode (default "Kafka") is "Kafka" ignoring case and both servers and topic are non-blank; a wrong mode is reported first |
| KafkaConsumerService.RunModeDefaultsToKafka | consumer/Services/KafkaConsumerService.cs:30-32 | a missing RunMode, or "kafka" in lower case, lets a configured service start |
| KafkaConsumerService.DefaultSettingsDoNotStart | consumer/Services/KafkaConsumerService.cs:38-42 | with the default settings, which have no servers, the service returns without subscribing |
| KafkaConsumerService.ConsumerService.constructor | consumer/Services/KafkaConsumerService.cs:21-27 | a service starts unsubscribed, open, with no delays |
| KafkaConsumerService.ConsumerService.Execute | consumer/Services/KafkaConsumerService.cs:28-152 | a failed guard changes nothing; otherwise, whatever the topic creation did, it subscribes once, runs the polls, always closes, and leaves the cache and delays as the poll fold says |
| KafkaConsumerService.SkippedRecordsChangeNothing | consumer/Services/KafkaConsumerService.cs:100-134 | a null poll, a null value, a null payload or a JSON error leaves the whole state unchanged |
| KafkaConsumerService.OtherFailureDelays | consumer/Services/KafkaConsumerService.cs:139-144 | any other error while handling a record keeps the cache and waits 2 seconds |
| KafkaConsumerService.PollFaultEndsLoop | consumer/Services/KafkaConsumerService.cs:99 | a poll that throws ends the loop with that error, and later polls change nothing |
| KafkaConsumerService.LastParsedWins | consumer/Services/KafkaConsumerService.cs:111-118 | the cache ends holding the last package that parsed before any poll fault, or its old value if none did |
| KafkaConsumerService.CacheComesFromRecords | consumer/Services/KafkaConsumerService.cs:118 | the cache only ever holds its old value or a package some consumed record parsed to |
| InsertionOrder.Insert | src/domain/services/item.service.ts:22 | Map.set keeps each key once: a new key goes last, and the existing order is kept as a prefix |
| DomainItemService.Coalesce | src/domain/services/item.service.ts:37-39 | `a ?? b` is the value when present and the fallback otherwise |
| DomainItemService.Merge | src/domain/services/item.service.ts:35-41 | present fields replace, absent fields keep, id and createdAt are kept, updatedAt is the new time |
| DomainItemService.EmptyUpdateTouchesOnlyTimestamp | src/domain/services/item.service.ts:35-41 | an update with no fields changes only updatedAt |
| DomainItemService.MergeIdempotent | src/domain/services/item.service.ts:35-41 | applying the same update twice is applying it once at the later time |
| DomainItemService.LaterUpdateWins | src/domain/services/item.service.ts:37-39 | an update giving every field overrides whatever an earlier update set |
| DomainItemService.ItemService.constructor | src/domain/services/item.service.ts:6 | the table starts empty |
| DomainItemService.ItemService.ListItems | src/domain/services/item.service.ts:8-10 | returns exactly the stored items, each once, in insertion order |
| DomainItemService.ItemService.CreateItem | src/domain/services/item.service.ts:12-24 | stores under the new id an item with the input's name, price and description and equal createdAt and updatedAt, and returns it; nothing else changes |
| DomainItemService.ItemService.UpdateItem | src/domain/services/item.service.ts:26-44 | an unknown id gives a 404 "Item not found" and changes nothing; otherwise only that entry is replaced by the merged item, which is returned |
| DomainItemService.CreateThenUpdate | src/domain/services/item.service.ts:12-44 | after create then update, the stored item keeps its id and creation time and carries the update time |
| MvcItemService.Spread | ts-mvc-service/src/services/itemService.ts:31-34 | keys present in the input override, absent keys and the id are kept |
| MvcItemService.EmptySpreadIsIdentity | ts-mvc-service/src/services/itemService.ts:31-34 | an input without keys leaves the item unchanged |
| MvcItemService.SpreadIdempotent | ts-mvc-service/src/services/itemService.ts:31-34 | spreading the same input twice is spreading it once |
| MvcItemService.SpreadComposes | ts-mvc-service/src/services/itemService.ts:31-34 | two updates equal one update with the inputs combined, the later keys winning |
| MvcItemService.ItemStore.constructor | ts-mvc-service/src/services/itemService.ts:6 | the table starts empty |
| MvcItemService.ItemStore.ListItems | ts-mvc-service/src/services/itemService.ts:16-18 | returns exactly the stored items, each once, in insertion order |
| MvcItemService.ItemStore.CreateItem | ts-mvc-service/src/services/itemService.ts:20-24 | stores {id, name, description} under the generated id and returns it; nothing else changes |
| MvcItemService.ItemStore.UpdateItem | ts-mvc-service/src/services/itemService.ts:26-36 | an unknown id gives HttpError(404, "Item with id … not found") and changes nothing; otherwise only that entry is replaced by the spread item, which is returned |

## Left out

- Concurrency: `Task.Run`, `PeriodicTimer`, `Task.Delay`, `Parallel.ForEachAsync` with `ConcurrentBag`, `ConcurrentDictionary` atomicity and the cache's lock. Everything is modelled sequentially, with ticks and cancellation as the end of an input sequence.
- KafkaStreamManager.StreamLoop.RunLoop: the time between cycles (timer period, backoff wait, ticks missed during a backoff) is recorded as delays, not waited. A cancelled `Task.Run` that never starts, and cancellation during a fetch, appear only as an empty cycle list or as a failing cycle.
- KafkaStreamManager.StreamRegistry.Start: the interval has no ceiling, as registration has none. The loop's `PeriodicTimer`, built outside any `try`, rejects periods of `uint.MaxValue` milliseconds or more, so such a stream registers but its loop faults before the first cycle; the model shows that only as an empty cycle list.
- KafkaStreamManager.StreamRegistry: an entry holds the stream's id, pairs and interval in place of its cancellation source. Cancelling the loop on Stop is not modelled.
- ExchangeRateService.DocumentPackage: cancellation of the parallel loop is not modelled. The package's rates are stated up to permutation, because the bag's order is not promised.
- KafkaConsumerService.ConsumerService.Execute: cancellation that interrupts the 2-second delay ends the loop through an exception. Here it is the end of the poll sequence. The `UnknownTopicOrPart` handler (`consumer/Services/KafkaConsumerService.cs:123-129`) catches only what the deserialise-and-cache block throws, and nothing there throws a `ConsumeException`, so the model has no such branch. A `ConsumeException` from the poll itself ends the loop (`PollFaultEndsLoop`).
- HTTP and JSON: apart from refusing the empty URL, `HttpClient.GetAsync` is a function from URL to a response or an exception, and JSON text parsing is a function from text to an abstract tree. Reading the body of a failed response and the console logging are not modelled.
- The producer's `KafkaProducerService` is not part of this model. Publishing is appending to the loop's published sequence, with the publish outcome as an input. JSON serialisation of the package is not modelled.
- ExchangeRateService.DocumentPackage: each fetch's outcome is a function of (key, from, to). A pair listed twice in one request therefore gets the same outcome both times; in the source each copy is fetched separately and one may succeed while the other fails.
- KafkaStreamManager.StreamLoop: the failure counter is unbounded. The source's `int` counter would wrap to a negative value after 2^31 - 1 consecutive failures, making the backoff about zero seconds; that case is not modelled.
- The document store's `InsertOneAsync` is an input outcome: the id it assigns, or an error.
- `Guid.NewGuid`, `DateTime.UtcNow`, `randomUUID`, `new Date().toISOString()` and the MVC service's fallback id are parameters. The collision of a fresh id with a registered one is kept as a case.
- `Math.Pow` in doubles: the backoff is computed with integer powers, whose values are the same small integers.
- Decimals are `real`. The range and precision of `decimal` are not modelled.
- Text: case folding and `ToLowerInvariant` are modelled for ASCII letters only; other letters keep their case. Null currency codes are not modelled (`from` and `to` are strings).
- The accept header list grows by one entry per FXRatesAPI request. Its effect on later requests is not modelled.
- Controllers, dependency injection and configuration binding outside the provider selection, zod validation schemas, Express wiring and the compiled `dist/` copies are not part of this model.
