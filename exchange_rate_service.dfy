/**
 * `ExchangeRateService.DocumentPackage`: fetch every requested pair through the
 * exchange client, keep the successes, assemble a package and insert it into
 * the document store. The parallel loop is modelled as a sequential one; its
 * completion order is not promised, so the result is stated up to permutation.
 */
module ExchangeRateService {
  import opened Wrappers
  import opened Errors
  import opened Models
  import ExchangeClient
  import Http
  import Json

  /** What one `GetRatesAsync(key, from, to)` call returns or throws. */
  type Fetcher = (Option<string>, string, string) -> Result<ExchangeRate, Error>

  const RequestNullMessage := "Request cannot be null."

  /** The `ExchangePackages` collection: the packages inserted so far, oldest first. */
  class PackageStore {
    var documents: seq<ExchangePackage>

    constructor ()
      ensures documents == []
    {
      documents := [];
    }

    /**
     * `InsertOneAsync`: on success the store assigns the package its `Id` (given
     * here as `insertion`) and keeps it; on failure nothing is stored and the error
     * propagates.
     */
    method InsertOne(package: ExchangePackage, insertion: Result<string, Error>)
      returns (r: Result<ExchangePackage, Error>)
      modifies this
      ensures insertion.Ok? ==>
                r == Ok(package.(id := Some(insertion.value))) && documents == old(documents) + [r.value]
      ensures insertion.Err? ==> r == Err(insertion.error) && documents == old(documents)
    {
      if insertion.Err? {
        return Err(insertion.error);
      }
      var stored := package.(id := Some(insertion.value));
      documents := documents + [stored];
      r := Ok(stored);
    }
  }

  /** The rates the successful fetches of `pairs` return, in request order. */
  function Successes(key: Option<string>, pairs: seq<(string, string)>, fetch: Fetcher): (rates: seq<ExchangeRate>)
    ensures |rates| <= |pairs|
  {
    if pairs == [] then []
    else
      var last := pairs[|pairs| - 1];
      var result := fetch(key, last.0, last.1);
      Successes(key, pairs[..|pairs| - 1], fetch) + (if result.Ok? then [result.value] else [])
  }

  /** The fetches whose result is kept: the pairs whose fetch does not throw. */
  ghost predicate Succeeds(key: Option<string>, pair: (string, string), fetch: Fetcher) {
    fetch(key, pair.0, pair.1).Ok?
  }

  /**
   * `DocumentPackage(request)`. A null request or null pair list is rejected
   * before anything is fetched or stored. Otherwise every pair is fetched once
   * with the active key; a throwing fetch is swallowed; the package, built at
   * `now`, holds exactly the successful rates (in some order) and is inserted
   * before it is returned, an insert failure propagating.
   */
  method DocumentPackage(request: Option<ExchangePackageRequest>, activeKey: Option<string>, fetch: Fetcher,
                         now: int, store: PackageStore, insertion: Result<string, Error>)
    returns (r: Result<ExchangePackage, Error>)
    modifies store
    ensures (request.None? || request.value.currencies.None?) ==>
      r == Err(ArgumentNull("request", RequestNullMessage)) && store.documents == old(store.documents)
    ensures request.Some? && request.value.currencies.Some? && insertion.Err? ==>
      r == Err(insertion.error) && store.documents == old(store.documents)
    ensures request.Some? && request.value.currencies.Some? && insertion.Ok? ==>
      var pairs := request.value.currencies.value;
      && r.Ok?
      && r.value.id == Some(insertion.value)
      && r.value.time == now
      && multiset(r.value.rates) == multiset(Successes(activeKey, pairs, fetch))
      && store.documents == old(store.documents) + [r.value]
  {
    if request.None? || request.value.currencies.None? {
      return Err(ArgumentNull("request", RequestNullMessage));
    }
    var pairs := request.value.currencies.value;
    var bag: seq<ExchangeRate> := [];
    var i := 0;
    while i < |pairs|
      invariant 0 <= i <= |pairs|
      invariant bag == Successes(activeKey, pairs[..i], fetch)
    {
      var result := fetch(activeKey, pairs[i].0, pairs[i].1);
      if result.Ok? {
        bag := bag + [result.value];
      }
      assert pairs[..i + 1][..i] == pairs[..i];
      i := i + 1;
    }
    assert pairs[..i] == pairs;
    var package := ExchangePackage(None, now, bag);
    r := store.InsertOne(package, insertion);
  }

  /** A pair's successful rate is in the package however the other pairs fare. */
  lemma {:induction false} SuccessIsKept(key: Option<string>, pairs: seq<(string, string)>, fetch: Fetcher, i: int)
    requires 0 <= i < |pairs| && Succeeds(key, pairs[i], fetch)
    ensures fetch(key, pairs[i].0, pairs[i].1).value in multiset(Successes(key, pairs, fetch))
  {
    if i < |pairs| - 1 {
      SuccessIsKept(key, pairs[..|pairs| - 1], fetch, i);
    }
  }

  /**
   * Fault isolation: if `failing` agrees with `fetch` except that some fetches
   * throw instead, it keeps a sub-multiset of the rates — a failure removes only
   * its own pair's rate.
   */
  lemma {:induction false} FaultIsolation(key: Option<string>, pairs: seq<(string, string)>, fetch: Fetcher, failing: Fetcher)
    requires forall p :: p in pairs && failing(key, p.0, p.1).Ok? ==> failing(key, p.0, p.1) == fetch(key, p.0, p.1)
    ensures multiset(Successes(key, pairs, failing)) <= multiset(Successes(key, pairs, fetch))
  {
    if pairs != [] {
      var init := pairs[..|pairs| - 1];
      var last := pairs[|pairs| - 1];
      assert forall p :: p in init ==> p in pairs;
      FaultIsolation(key, init, fetch, failing);
      assert last in pairs;
      var kept := if failing(key, last.0, last.1).Ok? then [failing(key, last.0, last.1).value] else [];
      var full := if fetch(key, last.0, last.1).Ok? then [fetch(key, last.0, last.1).value] else [];
      assert multiset(kept) <= multiset(full);
      assert Successes(key, pairs, failing) == Successes(key, init, failing) + kept;
      assert Successes(key, pairs, fetch) == Successes(key, init, fetch) + full;
    }
  }

  /** The package holds one rate per successful pair and none for a failed one. */
  lemma {:induction false} SuccessCount(key: Option<string>, pairs: seq<(string, string)>, fetch: Fetcher)
    ensures |Successes(key, pairs, fetch)| == |set i | 0 <= i < |pairs| && Succeeds(key, pairs[i], fetch)|
  {
    if pairs != [] {
      var n := |pairs| - 1;
      var init := pairs[..n];
      SuccessCount(key, init, fetch);
      var before := set i | 0 <= i < n && Succeeds(key, init[i], fetch);
      var now := set i | 0 <= i < |pairs| && Succeeds(key, pairs[i], fetch);
      assert before == set i | 0 <= i < n && Succeeds(key, pairs[i], fetch);
      if Succeeds(key, pairs[n], fetch) {
        assert now == before + {n};
      } else {
        assert now == before;
      }
    }
  }

  /** When every fetch throws, and in particular for an empty pair list, the package is empty, not an error. */
  lemma {:induction false} AllFailedGivesEmpty(key: Option<string>, pairs: seq<(string, string)>, fetch: Fetcher)
    requires forall p :: p in pairs ==> !Succeeds(key, p, fetch)
    ensures Successes(key, pairs, fetch) == []
  {
    if pairs != [] {
      var init := pairs[..|pairs| - 1];
      assert forall p :: p in init ==> p in pairs;
      AllFailedGivesEmpty(key, init, fetch);
      assert pairs[|pairs| - 1] in pairs;
    }
  }

  /** With the exchange client as fetcher, every rate is labelled with one of the requested pairs. */
  lemma {:induction false} RatesAreForRequestedPairs(client: ExchangeClient.HttpExchangeClient,
      send: string -> Http.HttpResponse, parse: string -> Option<Json.Json>,
      key: Option<string>, pairs: seq<(string, string)>)
    ensures var rates := Successes(key, pairs, (k, f, t) => ExchangeClient.FetchRate(client, send, parse, k, f, t));
      forall r :: r in rates ==> (r.from, r.to) in pairs
  {
    var fetch: Fetcher := (k, f, t) => ExchangeClient.FetchRate(client, send, parse, k, f, t);
    if pairs != [] {
      var init := pairs[..|pairs| - 1];
      var last := pairs[|pairs| - 1];
      RatesAreForRequestedPairs(client, send, parse, key, init);
      assert forall p :: p in init ==> p in pairs;
      var result := fetch(key, last.0, last.1);
      if result.Ok? {
        ExchangeClient.FetchRateOk(client, send, parse, key, last.0, last.1, result.value);
      }
    }
  }
}
