/**
 * The consumer's background service: startup guards, then a poll loop that
 * writes every well-formed package into the single-slot cache. Polls,
 * deserialisation and topic creation are inputs; the poll sequence ends where
 * the service observes cancellation.
 */
module KafkaConsumerService {
  import opened Wrappers
  import opened Errors
  import opened Text
  import opened ConsumerModels
  import opened LastPackageCache

  const DefaultRunMode := "Kafka"
  const DefaultGroupId := "ce-consumer-1"
  const OtherFailureDelaySeconds := 2

  /** The consumer configuration built once the guards pass. */
  datatype ConsumerConfig = ConsumerConfig(bootstrapServers: string, groupId: string)

  /** What `ExecuteAsync` decides before touching the broker. */
  datatype Startup =
    | RunModeNotKafka(mode: string)
    | BootstrapServersMissing
    | TopicMissing
    | Proceed(topic: string, config: ConsumerConfig)

  /** A blank group id falls back to the default one, so the group id is never blank. */
  function GroupIdFor(groupId: Option<string>): (g: string)
    ensures !AllWhiteSpace(g)
    ensures !IsNullOrWhiteSpace(groupId) ==> g == groupId.value
    ensures IsNullOrWhiteSpace(groupId) ==> g == DefaultGroupId
  {
    if IsNullOrWhiteSpace(groupId) then
      assert !IsWhiteSpace(DefaultGroupId[0]);
      DefaultGroupId
    else groupId.value
  }

  /** The startup guards, checked in order: run mode, bootstrap servers, topic. */
  function Decide(runMode: Option<string>, settings: KafkaSettings): (d: Startup)
    ensures d.Proceed? <==>
      && EqualsIgnoreCase(runMode.GetOr(DefaultRunMode), DefaultRunMode)
      && !IsNullOrWhiteSpace(settings.bootstrapServers)
      && !IsNullOrWhiteSpace(settings.topic)
    ensures !EqualsIgnoreCase(runMode.GetOr(DefaultRunMode), DefaultRunMode) ==>
      d == RunModeNotKafka(runMode.GetOr(DefaultRunMode))
    ensures d.Proceed? ==>
      d == Proceed(settings.topic.value, ConsumerConfig(settings.bootstrapServers.value, GroupIdFor(settings.groupId)))
  {
    var mode := runMode.GetOr(DefaultRunMode);
    if !EqualsIgnoreCase(mode, DefaultRunMode) then RunModeNotKafka(mode)
    else if IsNullOrWhiteSpace(settings.bootstrapServers) then BootstrapServersMissing
    else if IsNullOrWhiteSpace(settings.topic) then TopicMissing
    else Proceed(settings.topic.value, ConsumerConfig(settings.bootstrapServers.value, GroupIdFor(settings.groupId)))
  }

  /** With no RunMode configured, or with "kafka" in any case, the guards pass on configured servers and topic. */
  lemma RunModeDefaultsToKafka(settings: KafkaSettings)
    requires !IsNullOrWhiteSpace(settings.bootstrapServers) && !IsNullOrWhiteSpace(settings.topic)
    ensures Decide(None, settings).Proceed?
    ensures Decide(Some("kafka"), settings).Proceed?
  {
    assert ToLower("kafka") == ToLower(DefaultRunMode);
  }

  /** The default settings have no bootstrap servers, so the service does not start. */
  lemma DefaultSettingsDoNotStart(runMode: Option<string>)
    ensures !Decide(runMode, DefaultSettings).Proceed?
  {
  }

  /** What `CreateTopicsAsync` did; every outcome lets the service go on. */
  datatype TopicCreation = TopicCreated | TopicAlreadyExists | TopicCreationFailed(error: Error)

  /** One `Consume(1s)` call: no record, a record with a possibly-null value, or a thrown error. */
  datatype Poll = NoRecord | Record(value: Option<string>) | PollFault(error: Error)

  /** What deserialising a payload gives. */
  datatype Payload = NullPayload | Parsed(package: ConsumedPackage) | JsonFailure | OtherFailure(error: Error)

  /** How the service ends. */
  datatype Exit = NotStarted(decision: Startup) | Stopped | Faulted(error: Error)

  /** The loop's observable state: the cache, the error delays taken, and a fault that ended it. */
  datatype ConsumeState = ConsumeState(cache: Option<ConsumedPackage>, delays: seq<int>, fault: Option<Error>)

  /**
   * One poll. A fault thrown by the poll itself is outside the inner `try`, so
   * it ends the loop; the inner handlers see only deserialisation outcomes.
   */
  function Step(s: ConsumeState, poll: Poll, deserialize: string -> Payload): ConsumeState
  {
    if s.fault.Some? then s
    else match poll
      case NoRecord => s
      case Record(value) =>
        if value.None? then s
        else (match deserialize(value.value)
          case NullPayload => s
          case Parsed(p) => s.(cache := Some(p))
          case JsonFailure => s
          case OtherFailure(_) => s.(delays := s.delays + [OtherFailureDelaySeconds]))
      case PollFault(e) => s.(fault := Some(e))
  }

  /** The state after the given polls, in order. */
  function Consume(s: ConsumeState, polls: seq<Poll>, deserialize: string -> Payload): ConsumeState
  {
    if polls == [] then s
    else Step(Consume(s, polls[..|polls| - 1], deserialize), polls[|polls| - 1], deserialize)
  }

  class ConsumerService {
    const runMode: Option<string>
    const settings: KafkaSettings
    const cache: Cache
    var subscriptions: seq<string>
    var delays: seq<int>
    var closed: bool

    constructor (runMode: Option<string>, settings: KafkaSettings, cache: Cache)
      ensures this.runMode == runMode && this.settings == settings && this.cache == cache
      ensures subscriptions == [] && delays == [] && !closed
    {
      this.runMode := runMode;
      this.settings := settings;
      this.cache := cache;
      subscriptions := [];
      delays := [];
      closed := false;
    }

    /**
     * `ExecuteAsync`: when a guard fails nothing happens; otherwise the topic
     * creation outcome is ignored, the consumer subscribes, runs the polls and
     * is closed however the loop ends.
     */
    method Execute(topicCreation: TopicCreation, polls: seq<Poll>, deserialize: string -> Payload) returns (exit: Exit)
      modifies this, cache
      ensures !Decide(runMode, settings).Proceed? ==>
        && exit == NotStarted(Decide(runMode, settings))
        && unchanged(this) && unchanged(cache)
      ensures Decide(runMode, settings).Proceed? ==>
        var final := Consume(ConsumeState(old(cache.lastPackage), old(delays), None), polls, deserialize);
        && subscriptions == old(subscriptions) + [Decide(runMode, settings).topic]
        && closed
        && cache.lastPackage == final.cache
        && delays == final.delays
        && exit == (if final.fault.Some? then Faulted(final.fault.value) else Stopped)
    {
      var decision := Decide(runMode, settings);
      if !decision.Proceed? {
        return NotStarted(decision);
      }
      subscriptions := subscriptions + [decision.topic];
      ghost var start := ConsumeState(cache.lastPackage, delays, None);
      var fault: Option<Error> := None;
      var i := 0;
      while i < |polls| && fault.None?
        invariant 0 <= i <= |polls|
        invariant ConsumeState(cache.lastPackage, delays, fault) == Consume(start, polls[..i], deserialize)
        invariant subscriptions == old(subscriptions) + [decision.topic]
        decreases |polls| - i
      {
        match polls[i] {
          case NoRecord =>
          case Record(value) =>
            if value.Some? {
              match deserialize(value.value) {
                case NullPayload =>
                case Parsed(p) =>
                  cache.SetLastPackage(p);
                case JsonFailure =>
                case OtherFailure(_) =>
                  delays := delays + [OtherFailureDelaySeconds];
              }
            }
          case PollFault(e) =>
            fault := Some(e);
        }
        assert polls[..i + 1][..i] == polls[..i];
        i := i + 1;
      }
      ConsumeSplit(start, polls[..i], polls[i..], deserialize);
      assert polls[..i] + polls[i..] == polls;
      if fault.Some? {
        ConsumeAfterFault(Consume(start, polls[..i], deserialize), polls[i..], deserialize);
      } else {
        assert polls[i..] == [];
      }
      closed := true;
      exit := if fault.Some? then Faulted(fault.value) else Stopped;
    }
  }

  // ---------------------------------------------------------------- loop properties

  /** A fault is final: later polls change nothing. */
  lemma {:induction false} ConsumeAfterFault(s: ConsumeState, polls: seq<Poll>, deserialize: string -> Payload)
    requires s.fault.Some?
    ensures Consume(s, polls, deserialize) == s
  {
    if polls != [] {
      ConsumeAfterFault(s, polls[..|polls| - 1], deserialize);
    }
  }

  /** Consuming `a + b` is consuming `a`, then `b`. */
  lemma {:induction false} ConsumeSplit(s: ConsumeState, a: seq<Poll>, b: seq<Poll>, deserialize: string -> Payload)
    ensures Consume(s, a + b, deserialize) == Consume(Consume(s, a, deserialize), b, deserialize)
  {
    if b != [] {
      assert (a + b)[..|a + b| - 1] == a + b[..|b| - 1];
      ConsumeSplit(s, a, b[..|b| - 1], deserialize);
    } else {
      assert a + b == a;
    }
  }

  /** Null polls, null values, null payloads and JSON errors leave the whole state unchanged. */
  lemma SkippedRecordsChangeNothing(s: ConsumeState, v: string, deserialize: string -> Payload)
    requires deserialize(v).NullPayload? || deserialize(v).JsonFailure?
    ensures Step(s, NoRecord, deserialize) == s
    ensures Step(s, Record(None), deserialize) == s
    ensures Step(s, Record(Some(v)), deserialize) == s
  {
  }

  /** Any other deserialisation error keeps the cache and adds a 2-second delay. */
  lemma OtherFailureDelays(s: ConsumeState, v: string, deserialize: string -> Payload)
    requires s.fault.None? && deserialize(v).OtherFailure?
    ensures Step(s, Record(Some(v)), deserialize).cache == s.cache
    ensures Step(s, Record(Some(v)), deserialize).delays == s.delays + [2]
  {
  }

  /** A poll that throws ends the loop with that error; polls after it are never made. */
  lemma PollFaultEndsLoop(s: ConsumeState, before: seq<Poll>, e: Error, after: seq<Poll>, deserialize: string -> Payload)
    requires Consume(s, before, deserialize).fault.None?
    ensures Consume(s, before + [PollFault(e)] + after, deserialize)
            == Consume(s, before, deserialize).(fault := Some(e))
  {
    ConsumeSplit(s, before + [PollFault(e)], after, deserialize);
    ConsumeSplit(s, before, [PollFault(e)], deserialize);
    ConsumeAfterFault(Consume(s, before + [PollFault(e)], deserialize), after, deserialize);
  }

  /** The package of the last record that parses, among polls before the first fault; `current` if there is none. */
  function LastParsed(polls: seq<Poll>, deserialize: string -> Payload, current: Option<ConsumedPackage>): Option<ConsumedPackage>
  {
    if polls == [] then current
    else match polls[0]
      case PollFault(_) => current
      case NoRecord => LastParsed(polls[1..], deserialize, current)
      case Record(value) =>
        var next := if value.Some? && deserialize(value.value).Parsed? then Some(deserialize(value.value).package) else current;
        LastParsed(polls[1..], deserialize, next)
  }

  /** The cache ends holding the last well-formed package consumed, or what it held before if there was none. */
  lemma {:induction false} LastParsedWins(s: ConsumeState, polls: seq<Poll>, deserialize: string -> Payload)
    requires s.fault.None?
    ensures Consume(s, polls, deserialize).cache == LastParsed(polls, deserialize, s.cache)
    decreases |polls|
  {
    if polls != [] {
      ConsumeSplit(s, [polls[0]], polls[1..], deserialize);
      assert [polls[0]] + polls[1..] == polls;
      assert [polls[0]][..0] == [];
      var s1 := Step(s, polls[0], deserialize);
      if s1.fault.Some? {
        ConsumeAfterFault(s1, polls[1..], deserialize);
      } else {
        LastParsedWins(s1, polls[1..], deserialize);
      }
    }
  }

  /** The cache only ever holds a package some consumed record parsed to, or its initial value. */
  lemma {:induction false} CacheComesFromRecords(s: ConsumeState, polls: seq<Poll>, deserialize: string -> Payload)
    ensures var c := Consume(s, polls, deserialize).cache;
      c == s.cache || exists i :: 0 <= i < |polls| && ParsesTo(polls[i], deserialize, c)
  {
    if polls != [] {
      var init := polls[..|polls| - 1];
      CacheComesFromRecords(s, init, deserialize);
      var c0 := Consume(s, init, deserialize).cache;
      if c0 != s.cache {
        var i :| 0 <= i < |init| && ParsesTo(init[i], deserialize, c0);
        assert polls[i] == init[i];
      }
    }
  }

  /** The record is non-null and its payload parses to the package `c` holds. */
  ghost predicate ParsesTo(poll: Poll, deserialize: string -> Payload, c: Option<ConsumedPackage>) {
    poll.Record? && poll.value.Some? && deserialize(poll.value.value).Parsed?
    && c == Some(deserialize(poll.value.value).package)
  }
}
