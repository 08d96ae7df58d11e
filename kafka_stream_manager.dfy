/**
 * The stream manager: a registry of running streams keyed by a
 * case-insensitive id, and each stream's loop, which fetches and publishes a
 * package per cycle and backs off exponentially after consecutive failures.
 * Timer ticks, delays and cancellation are inputs; a loop runs the cycles it is
 * given and then observes cancellation.
 */
module KafkaStreamManager {
  import opened Wrappers
  import opened Errors
  import opened Text
  import opened Models

  const MinIntervalSeconds: int := 60
  const MaxBackoffSeconds: int := 60
  const MaxBackoffExponent: nat := 6
  const CouldNotCreateMessage := "Could not create stream."

  /** `Math.Max(60, req.IntervalInSeconds)`: a floor of 60 seconds and no ceiling. */
  function EffectiveInterval(requested: int): (seconds: int)
    ensures seconds >= MinIntervalSeconds && seconds >= requested
    ensures seconds == MinIntervalSeconds || seconds == requested
  {
    if requested < MinIntervalSeconds then MinIntervalSeconds else requested
  }

  function Pow2(n: nat): (p: nat)
    ensures p >= 1
  {
    if n == 0 then 1 else 2 * Pow2(n - 1)
  }

  /** `Math.Min(60, Math.Pow(2, Math.Min(6, failures)))` seconds; the values are exact small integers. */
  function Backoff(failures: nat): (seconds: int)
    ensures 1 <= seconds <= MaxBackoffSeconds
  {
    var exponent := if failures < MaxBackoffExponent then failures else MaxBackoffExponent;
    var p := Pow2(exponent);
    if p < MaxBackoffSeconds then p else MaxBackoffSeconds
  }

  /** The delays after the 1st to 6th consecutive failure are 2, 4, 8, 16, 32, 60; from then on 60. */
  lemma BackoffTable(n: nat)
    ensures Backoff(1) == 2 && Backoff(2) == 4 && Backoff(3) == 8
    ensures Backoff(4) == 16 && Backoff(5) == 32 && Backoff(6) == 60
    ensures n >= 6 ==> Backoff(n) == 60
  {
    assert Pow2(6) == 64;
  }

  /** The delay never shrinks while failures accumulate. */
  lemma {:induction false} BackoffMonotone(m: nat, n: nat)
    requires m <= n
    ensures Backoff(m) <= Backoff(n)
  {
    Pow2Monotone(if m < 6 then m else 6, if n < 6 then n else 6);
  }

  lemma {:induction false} Pow2Monotone(m: nat, n: nat)
    requires m <= n
    ensures Pow2(m) <= Pow2(n)
    decreases n
  {
    if m < n {
      Pow2Monotone(m, n - 1);
    }
  }

  // ---------------------------------------------------------------- registry

  /** A registered stream: its id as generated, its pairs, and its clamped interval. */
  datatype StreamEntry = StreamEntry(id: string, pairs: seq<PairDto>, intervalSeconds: int)

  /**
   * The registry. Keys compare ignoring case, so an entry is stored under its
   * lower-cased id and keeps the id as generated.
   */
  class StreamRegistry {
    var streams: map<string, StreamEntry>

    ghost predicate Valid()
      reads this
    {
      forall k :: k in streams ==> ToLower(streams[k].id) == k
    }

    /** The ids of the registered streams. */
    ghost function Ids(): set<string>
      reads this
    {
      set k | k in streams :: streams[k].id
    }

    /** Whether `id` names a registered stream, ignoring case. */
    predicate Contains(id: string)
      reads this
    {
      ToLower(id) in streams
    }

    constructor ()
      ensures Valid() && streams == map[]
    {
      streams := map[];
    }

    /**
     * `Start(req)`: registers a stream under the freshly generated `guid` with the
     * clamped interval and returns the id; a colliding id throws and leaves the
     * registry as it was.
     */
    method Start(req: StartKafkaStreamRequest, guid: string) returns (r: Result<string, Error>)
      requires Valid()
      modifies this
      ensures Valid()
      ensures old(Contains(guid)) ==>
        r == Err(InvalidOperation(CouldNotCreateMessage, None)) && streams == old(streams)
      ensures !old(Contains(guid)) ==>
        && r == Ok(guid)
        && streams == old(streams)[ToLower(guid) := StreamEntry(guid, req.pairs, EffectiveInterval(req.intervalInSeconds))]
    {
      var interval := EffectiveInterval(req.intervalInSeconds);
      var key := ToLower(guid);
      if key in streams {
        return Err(InvalidOperation(CouldNotCreateMessage, None));
      }
      ToLowerIdempotent(guid);
      streams := streams[key := StreamEntry(guid, req.pairs, interval)];
      r := Ok(guid);
    }

    /**
     * `Stop(streamId)`: removes the stream whose id equals `streamId` ignoring case
     * and reports whether there was one.
     */
    method Stop(streamId: string) returns (found: bool)
      requires Valid()
      modifies this
      ensures Valid()
      ensures found == old(Contains(streamId))
      ensures streams == old(streams) - {ToLower(streamId)}
      ensures !Contains(streamId)
    {
      var key := ToLower(streamId);
      found := key in streams;
      if found {
        streams := streams - {key};
      }
    }

    /** `List()`: the registered ids, each once, in no particular order. */
    method List() returns (ids: seq<string>)
      requires Valid()
      ensures |ids| == |streams|
      ensures forall id :: id in ids <==> id in Ids()
      ensures forall i, j :: 0 <= i < j < |ids| ==> !EqualsIgnoreCase(ids[i], ids[j])
    {
      ids := [];
      var rest := streams.Keys;
      while rest != {}
        invariant rest <= streams.Keys
        invariant |ids| + |rest| == |streams|
        invariant forall i :: 0 <= i < |ids| ==> ToLower(ids[i]) in streams.Keys - rest
        invariant forall i :: 0 <= i < |ids| ==> streams[ToLower(ids[i])].id == ids[i]
        invariant forall k :: k in streams.Keys - rest ==> streams[k].id in ids
        invariant forall i, j :: 0 <= i < j < |ids| ==> ToLower(ids[i]) != ToLower(ids[j])
        decreases rest
      {
        var k :| k in rest;
        ids := ids + [streams[k].id];
        rest := rest - {k};
      }
    }
  }

  /** Start then Stop of the same id restores the registry, and a second Stop finds nothing. */
  method StartThenStop(registry: StreamRegistry, req: StartKafkaStreamRequest, guid: string)
    returns (first: bool, second: bool)
    requires registry.Valid() && !registry.Contains(guid)
    modifies registry
    ensures registry.Valid() && registry.streams == old(registry.streams)
    ensures first && !second
  {
    var started := registry.Start(req, guid);
    first := registry.Stop(guid);
    second := registry.Stop(guid);
  }

  /** Ids are matched ignoring case: stopping "ABC" removes the stream registered as "abc". */
  method StopIgnoresCase(registry: StreamRegistry, req: StartKafkaStreamRequest)
    returns (found: bool)
    requires registry.Valid() && !registry.Contains("abc")
    modifies registry
    ensures found && !registry.Contains("abc")
  {
    var started := registry.Start(req, "abc");
    assert ToLower("ABC") == ToLower("abc");
    found := registry.Stop("ABC");
  }

  // ---------------------------------------------------------------- stream loop

  /**
   * What one `ProduceOnce` cycle meets: fetching the package throws (this
   * includes cancellation during the fetch), or it returns a possibly-null
   * package and, if that package is published, the publish's own failure.
   */
  datatype CycleOutcome =
    | DocumentFailed(error: Error)
    | Documented(package: Option<ExchangePackage>, publishError: Option<Error>)

  /** `package?.rates is { Count: > 0 }`: the cycle attempts a publish. */
  predicate AttemptsPublish(o: CycleOutcome) {
    o.Documented? && o.package.Some? && |o.package.value.rates| > 0
  }

  /** The cycle throws out of `ProduceOnce`. */
  predicate CycleFails(o: CycleOutcome) {
    o.DocumentFailed? || (AttemptsPublish(o) && o.publishError.Some?)
  }

  /** The cycle's package reaches the topic. */
  predicate Delivers(o: CycleOutcome) {
    AttemptsPublish(o) && o.publishError.None?
  }

  /** The observable state of one stream's loop. */
  datatype LoopState = LoopState(consecutiveFailures: nat, published: seq<ExchangePackage>, backoffs: seq<int>)

  const Initial := LoopState(0, [], [])

  /** One cycle: reset the counter on a normal return, otherwise count the failure and back off. */
  function Cycle(s: LoopState, o: CycleOutcome): LoopState
  {
    var published := if Delivers(o) then s.published + [o.package.value] else s.published;
    if CycleFails(o) then
      LoopState(s.consecutiveFailures + 1, published, s.backoffs + [Backoff(s.consecutiveFailures + 1)])
    else
      LoopState(0, published, s.backoffs)
  }

  /** The state after the given cycles, in order. */
  function Run(s: LoopState, cycles: seq<CycleOutcome>): LoopState
  {
    if cycles == [] then s
    else Cycle(Run(s, cycles[..|cycles| - 1]), cycles[|cycles| - 1])
  }

  /** One stream's `RunLoop` task. */
  class StreamLoop {
    const id: string
    const pairs: seq<PairDto>
    const intervalSeconds: int
    var consecutiveFailures: nat
    var published: seq<ExchangePackage>
    var backoffs: seq<int>

    function State(): LoopState
      reads this
    {
      LoopState(consecutiveFailures, published, backoffs)
    }

    constructor (entry: StreamEntry)
      ensures id == entry.id && pairs == entry.pairs && intervalSeconds == entry.intervalSeconds
      ensures State() == Initial
    {
      id := entry.id;
      pairs := entry.pairs;
      intervalSeconds := entry.intervalSeconds;
      consecutiveFailures := 0;
      published := [];
      backoffs := [];
    }

    /**
     * `ProduceOnce`: publishes the package only when it is non-null with at least
     * one rate; otherwise it only logs. Returns the exception it throws, if any.
     */
    method ProduceOnce(o: CycleOutcome) returns (thrown: Option<Error>)
      modifies this`published
      ensures thrown.Some? <==> CycleFails(o)
      ensures o.DocumentFailed? ==> thrown == Some(o.error)
      ensures AttemptsPublish(o) ==> thrown == o.publishError
      ensures published == if Delivers(o) then old(published) + [o.package.value] else old(published)
    {
      match o
      case DocumentFailed(e) =>
        thrown := Some(e);
      case Documented(package, publishError) =>
        if package.Some? && |package.value.rates| > 0 {
          if publishError.Some? {
            thrown := publishError;
          } else {
            published := published + [package.value];
            thrown := None;
          }
        } else {
          thrown := None;
        }
    }

    /** One guarded `ProduceOnce` with its counter update and backoff. */
    method RunCycle(o: CycleOutcome)
      modifies this
      ensures State() == Cycle(old(State()), o)
    {
      var thrown := ProduceOnce(o);
      if thrown.None? {
        consecutiveFailures := 0;
      } else {
        consecutiveFailures := consecutiveFailures + 1;
        var backoff := Backoff(consecutiveFailures);
        backoffs := backoffs + [backoff];
      }
    }

    /**
     * `RunLoop`: the first cycle runs at once, each later one on a timer tick;
     * after the last given cycle the loop observes cancellation and ends.
     */
    method RunLoop(cycles: seq<CycleOutcome>)
      modifies this
      ensures State() == Run(old(State()), cycles)
    {
      if cycles == [] {
        return;
      }
      ghost var start := State();
      RunCycle(cycles[0]);
      assert cycles[..1][..0] == [];
      var i := 1;
      while i < |cycles|
        invariant 1 <= i <= |cycles|
        invariant State() == Run(start, cycles[..i])
      {
        RunCycle(cycles[i]);
        assert cycles[..i + 1][..i] == cycles[..i];
        i := i + 1;
      }
      assert cycles[..i] == cycles;
    }
  }

  // ---------------------------------------------------------------- loop properties

  /** The number of failing cycles at the end of `cycles`. */
  function TrailingFailures(cycles: seq<CycleOutcome>): nat
  {
    if cycles == [] || !CycleFails(cycles[|cycles| - 1]) then 0
    else TrailingFailures(cycles[..|cycles| - 1]) + 1
  }

  /** The counter is exactly the length of the current run of failures: any normal return resets it. */
  lemma {:induction false} CounterIsTrailingFailures(cycles: seq<CycleOutcome>)
    ensures Run(Initial, cycles).consecutiveFailures == TrailingFailures(cycles)
  {
    if cycles != [] {
      CounterIsTrailingFailures(cycles[..|cycles| - 1]);
    }
  }

  /** The delays scheduled by n consecutive failures: Backoff(1), ..., Backoff(n). */
  function Schedule(n: nat): seq<int>
  {
    if n == 0 then [] else Schedule(n - 1) + [Backoff(n)]
  }

  /** Starting from a reset counter, a run of failures schedules exactly `Schedule(n)`. */
  lemma {:induction false} FailureRunSchedule(s: LoopState, cycles: seq<CycleOutcome>)
    requires s.consecutiveFailures == 0
    requires forall i :: 0 <= i < |cycles| ==> CycleFails(cycles[i])
    ensures Run(s, cycles).consecutiveFailures == |cycles|
    ensures Run(s, cycles).backoffs == s.backoffs + Schedule(|cycles|)
  {
    if cycles != [] {
      FailureRunSchedule(s, cycles[..|cycles| - 1]);
    }
  }

  /** Three failures give delays of 2, 4 and 8 seconds; a success in between resets the next delay to 2. */
  lemma BackoffScenario(e: Error, package: ExchangePackage)
    requires |package.rates| > 0
    ensures Run(Initial, [DocumentFailed(e), DocumentFailed(e), DocumentFailed(e)]).backoffs == [2, 4, 8]
    ensures Run(Initial, [DocumentFailed(e), DocumentFailed(e), Documented(Some(package), None), DocumentFailed(e)]).backoffs
            == [2, 4, 2]
  {
    var f := DocumentFailed(e);
    FailureRunSchedule(Initial, [f, f, f]);
    BackoffTable(0);
    var ok := Documented(Some(package), None);
    var cycles := [f, f, ok, f];
    assert cycles[..3][..2] == [f, f];
    FailureRunSchedule(Initial, [f, f]);
  }

  /**
   * A cycle whose package is null or has no rates returns normally: nothing is
   * published, the counter resets and no backoff is scheduled.
   */
  lemma EmptyPackageIsNotAFailure(s: LoopState, package: Option<ExchangePackage>, publishError: Option<Error>)
    requires package.None? || package.value.rates == []
    ensures Cycle(s, Documented(package, publishError)) == LoopState(0, s.published, s.backoffs)
  {
  }

  /** The packages a run of cycles delivers, defined cycle by cycle from the first. */
  function Delivered(cycles: seq<CycleOutcome>): seq<ExchangePackage>
  {
    if cycles == [] then []
    else (if Delivers(cycles[0]) then [cycles[0].package.value] else []) + Delivered(cycles[1..])
  }

  /** The loop publishes exactly the packages of the cycles that deliver, in order. */
  lemma {:induction false} RunPublishesDelivered(cycles: seq<CycleOutcome>)
    ensures Run(Initial, cycles).published == Delivered(cycles)
  {
    if cycles != [] {
      var init := cycles[..|cycles| - 1];
      RunPublishesDelivered(init);
      DeliveredAppend(init, cycles[|cycles| - 1]);
      assert init + [cycles[|cycles| - 1]] == cycles;
    }
  }

  lemma {:induction false} DeliveredAppend(cycles: seq<CycleOutcome>, o: CycleOutcome)
    ensures Delivered(cycles + [o]) == Delivered(cycles) + (if Delivers(o) then [o.package.value] else [])
  {
    if cycles != [] {
      assert (cycles + [o])[1..] == cycles[1..] + [o];
      DeliveredAppend(cycles[1..], o);
    }
  }

  /** Every published package carries at least one rate. */
  lemma {:induction false} PublishedAreNonEmpty(cycles: seq<CycleOutcome>)
    ensures forall p :: p in Delivered(cycles) ==> |p.rates| > 0
  {
    if cycles != [] {
      PublishedAreNonEmpty(cycles[1..]);
    }
  }
}
