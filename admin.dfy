/**
 * The admin RPC handler (AdminImpl): the statistics response assembled
 * per topic and direction, and the configuration response. The RPC
 * observer is replaced by return values; the clock reading is a parameter.
 */
module Admin {
  import opened Wrappers
  import opened JavaLang
  import opened JavaFormat
  import opened Metrics

  /** A java.time.Instant: seconds since the epoch and a nanosecond adjustment. */
  datatype Instant = Instant(epochSecond: EpochSecond, nano: Nano)

  /** The seconds an Instant can hold, from `Instant.MIN` (year -1000000000) to `Instant.MAX` (year 1000000000). */
  type EpochSecond = s: int | -31557014167219200 <= s <= 31556889864403199

  type Nano = n: int | 0 <= n < 1_000_000_000

  function EpochNanos(t: Instant): int {
    t.epochSecond * 1_000_000_000 + t.nano
  }

  /**
   * `Duration.between(start, end).getSeconds()`: the whole seconds of the
   * exact difference, rounded toward negative infinity.
   */
  function DurationSeconds(start: Instant, end: Instant): (d: int)
    ensures d == end.epochSecond - start.epochSecond - (if end.nano < start.nano then 1 else 0)
    ensures d * 1_000_000_000 <= EpochNanos(end) - EpochNanos(start) < (d + 1) * 1_000_000_000
  {
    var diff := EpochNanos(end) - EpochNanos(start);
    var secs := end.epochSecond - start.epochSecond - (if end.nano < start.nano then 1 else 0);
    assert diff == secs * 1_000_000_000 + (diff - secs * 1_000_000_000);
    diff / 1_000_000_000
  }

  /** The application's Kafka settings the handler reads: the topics and the two executor counts. */
  datatype KafkaProperties = KafkaProperties(topics: seq<string>, producerExecutors: int32, consumerExecutors: int32)

  /** Why a statistics call throws instead of answering. */
  datatype Failure =
    | MissingInformation(topic: string)  // no StatisticsInformation for the topic: NullPointerException
    | DuplicateTopic(topic: string)      // a topic listed twice: Collectors.toMap throws IllegalStateException

  /** The metric list reported for one topic in one direction. */
  datatype StatisticsConsolidation = StatisticsConsolidation(metrics: seq<Metric>)

  datatype StatisticsResponse = StatisticsResponse(
    publisherExecutors: int32,
    subscriberExecutors: int32,
    publisherByTopic: map<string, StatisticsConsolidation>,
    subscriberByTopic: map<string, StatisticsConsolidation>)

  datatype Extension = YAML

  datatype ConfigurationResponse = ConfigurationResponse(content: string, extension: Extension)

  datatype JsonProcessingException = JsonProcessingException(message: string)

  /** What `Configuration.getCurrentConfiguration()` produces: the YAML document, or the exception it throws. */
  datatype Serialization = Serialized(content: string) | SerializationFailed(cause: JsonProcessingException)

  datatype StatusCode = Internal

  /** The error status sent to the caller (`Status.INTERNAL.withCause(e)`). */
  datatype ErrorStatus = ErrorStatus(code: StatusCode, cause: JsonProcessingException)

  predicate Distinct(topics: seq<string>) {
    forall i, j :: 0 <= i < j < |topics| ==> topics[i] != topics[j]
  }

  predicate Repeated(topics: seq<string>, t: string) {
    exists i, j :: 0 <= i < j < |topics| && topics[i] == t && topics[j] == t
  }

  predicate AllOk(topics: seq<string>, f: string -> Result<StatisticsConsolidation, Failure>) {
    forall t :: t in topics ==> f(t).Ok?
  }

  predicate FailsOn(topics: seq<string>, f: string -> Result<StatisticsConsolidation, Failure>, e: Failure) {
    exists t :: t in topics && f(t) == Err(e)
  }

  /**
   * `processResult`: the configured topics streamed in order into a map
   * by `Collectors.toMap(identity, f)`. Each element's value is computed
   * first, so a failing `f` throws at that element; a key seen before
   * throws the duplicate-key exception.
   */
  function ProcessResult(topics: seq<string>, f: string -> Result<StatisticsConsolidation, Failure>)
    : (r: Result<map<string, StatisticsConsolidation>, Failure>)
    ensures r.Ok? ==> r.value.Keys == set t | t in topics
    decreases |topics|
  {
    if topics == [] then Ok(map[])
    else
      var init, topic := topics[..|topics| - 1], topics[|topics| - 1];
      assert forall t :: t in topics <==> t in init || t == topic by {
        assert topics == init + [topic];
      }
      match ProcessResult(init, f)
      case Err(e) => Err(e)
      case Ok(m) =>
        match f(topic)
        case Err(e) => Err(e)
        case Ok(v) => if topic in m then Err(DuplicateTopic(topic)) else Ok(m[topic := v])
  }

  lemma SplitLast(topics: seq<string>)
    requires topics != []
    ensures var init, topic := topics[..|topics| - 1], topics[|topics| - 1];
      && (forall t :: t in topics <==> t in init || t == topic)
      && (Distinct(topics) <==> Distinct(init) && topic !in init)
      && (forall t :: Repeated(init, t) ==> Repeated(topics, t))
  {
    var init, topic := topics[..|topics| - 1], topics[|topics| - 1];
    assert topics == init + [topic];
    if Distinct(topics) {
      forall i | 0 <= i < |init| ensures init[i] != topic {
        assert init[i] == topics[i];
      }
    }
    if Distinct(init) && topic !in init {
      forall i, j | 0 <= i < j < |topics| ensures topics[i] != topics[j] {
        if j == |topics| - 1 { assert topics[i] == init[i]; } else { assert topics[i] == init[i] && topics[j] == init[j]; }
      }
    }
    forall t | Repeated(init, t) ensures Repeated(topics, t) {
      var i, j :| 0 <= i < j < |init| && init[i] == t && init[j] == t;
      assert topics[i] == t && topics[j] == t;
    }
  }

  /** Every topic maps to the value the builder made for it. */
  lemma {:induction false} ProcessResultValues(topics: seq<string>, f: string -> Result<StatisticsConsolidation, Failure>)
    requires ProcessResult(topics, f).Ok?
    ensures forall t :: t in topics ==> f(t) == Ok(ProcessResult(topics, f).value[t])
    decreases |topics|
  {
    if topics != [] {
      var init := topics[..|topics| - 1];
      SplitLast(topics);
      ProcessResultValues(init, f);
    }
  }

  /** The map is built exactly when the topics are distinct and the builder succeeds on each. */
  lemma {:induction false} ProcessResultSucceeds(topics: seq<string>, f: string -> Result<StatisticsConsolidation, Failure>)
    ensures ProcessResult(topics, f).Ok? <==> Distinct(topics) && AllOk(topics, f)
    decreases |topics|
  {
    if topics != [] {
      var init := topics[..|topics| - 1];
      SplitLast(topics);
      ProcessResultSucceeds(init, f);
    }
  }

  /** A failure is the builder's own failure on some topic, or a repeated topic. */
  lemma {:induction false} ProcessResultFails(topics: seq<string>, f: string -> Result<StatisticsConsolidation, Failure>)
    requires ProcessResult(topics, f).Err?
    ensures var e := ProcessResult(topics, f).error;
      FailsOn(topics, f, e) || (e.DuplicateTopic? && Repeated(topics, e.topic))
    decreases |topics|
  {
    var init, topic := topics[..|topics| - 1], topics[|topics| - 1];
    SplitLast(topics);
    var e := ProcessResult(topics, f).error;
    if ProcessResult(init, f).Err? {
      ProcessResultFails(init, f);
    } else if f(topic).Ok? {
      var i :| 0 <= i < |init| && init[i] == topic;
      assert topics[i] == topic && topics[|topics| - 1] == topic;
    }
  }

  /** The publisher builder for one topic (the first lambda in `statistics`). */
  function PublisherConsolidation(catalog: Catalog, durationSeconds: int, information: map<string, StatisticsInformation>, topic: string)
    : (r: Result<StatisticsConsolidation, Failure>)
  {
    if topic in information then Ok(StatisticsConsolidation(CalculatePublisherInformation(catalog, durationSeconds, information[topic])))
    else Err(MissingInformation(topic))
  }

  /** The subscriber builder for one topic (the second lambda in `statistics`). */
  function SubscriberConsolidation(catalog: Catalog, durationSeconds: int, information: map<string, StatisticsInformation>, topic: string)
    : (r: Result<StatisticsConsolidation, Failure>)
  {
    if topic in information then Ok(StatisticsConsolidation(CalculateInformation(catalog, durationSeconds, information[topic])))
    else Err(MissingInformation(topic))
  }

  /** `topic -> calculatePublisherInformation(...)`, the builder `statistics` hands to `processResult`. */
  function PublisherBuilder(catalog: Catalog, durationSeconds: int, information: map<string, StatisticsInformation>)
    : string -> Result<StatisticsConsolidation, Failure>
  {
    topic => PublisherConsolidation(catalog, durationSeconds, information, topic)
  }

  /** `topic -> calculateInformation(...)`, the subscriber builder. */
  function SubscriberBuilder(catalog: Catalog, durationSeconds: int, information: map<string, StatisticsInformation>)
    : string -> Result<StatisticsConsolidation, Failure>
  {
    topic => SubscriberConsolidation(catalog, durationSeconds, information, topic)
  }

  predicate Registered(topics: seq<string>, information: map<string, StatisticsInformation>) {
    forall t :: t in topics ==> t in information
  }

  /**
   * The response a statistics call gives for one elapsed duration: both
   * executor counts copied, and for each configured topic the publisher
   * list and the subscriber list of its readings, all built with that one
   * duration.
   */
  function ConsolidatedResponse(
    catalog: Catalog, properties: KafkaProperties, durationSeconds: int,
    publish: map<string, StatisticsInformation>, subscribe: map<string, StatisticsInformation>)
    : (r: StatisticsResponse)
    requires Registered(properties.topics, publish) && Registered(properties.topics, subscribe)
    ensures r.publisherByTopic.Keys == r.subscriberByTopic.Keys == set t | t in properties.topics
  {
    StatisticsResponse(
      properties.producerExecutors, properties.consumerExecutors,
      map t | t in properties.topics :: StatisticsConsolidation(CalculatePublisherInformation(catalog, durationSeconds, publish[t])),
      map t | t in properties.topics :: StatisticsConsolidation(CalculateInformation(catalog, durationSeconds, subscribe[t])))
  }

  /**
   * Every publisher entry has the 5 publisher metrics and every subscriber
   * entry the 4 subscriber metrics, in order.
   */
  lemma ConsolidatedShape(
    catalog: Catalog, properties: KafkaProperties, durationSeconds: int,
    publish: map<string, StatisticsInformation>, subscribe: map<string, StatisticsInformation>)
    requires Registered(properties.topics, publish) && Registered(properties.topics, subscribe)
    ensures var response := ConsolidatedResponse(catalog, properties, durationSeconds, publish, subscribe);
      && (forall t :: t in response.publisherByTopic ==>
            var ms := response.publisherByTopic[t].metrics;
            |ms| == 5 && forall k :: 0 <= k < 5 ==> Describes(catalog, ms[k], PublisherProperties[k]))
      && (forall t :: t in response.subscriberByTopic ==>
            var ms := response.subscriberByTopic[t].metrics;
            |ms| == 4 && forall k :: 0 <= k < 4 ==> Describes(catalog, ms[k], SubscriberProperties[k]))
  {
  }

  /**
   * Two responses over the same readings taken at different elapsed
   * seconds differ at most in throughput and QPS: message count, average
   * latency and error rate are the same.
   */
  lemma OnlyRatesDependOnDuration(
    catalog: Catalog, properties: KafkaProperties, d1: int, d2: int,
    publish: map<string, StatisticsInformation>, subscribe: map<string, StatisticsInformation>)
    requires Registered(properties.topics, publish) && Registered(properties.topics, subscribe)
    ensures var r1, r2 := ConsolidatedResponse(catalog, properties, d1, publish, subscribe),
                          ConsolidatedResponse(catalog, properties, d2, publish, subscribe);
      && (forall t :: t in r1.publisherByTopic ==>
            var a, b := r1.publisherByTopic[t].metrics, r2.publisherByTopic[t].metrics;
            a[0] == b[0] && a[2] == b[2] && a[4] == b[4])
      && (forall t :: t in r1.subscriberByTopic ==>
            var a, b := r1.subscriberByTopic[t].metrics, r2.subscriberByTopic[t].metrics;
            a[0] == b[0] && a[2] == b[2])
  {
    forall t | t in properties.topics
      ensures var a, b := CalculatePublisherInformation(catalog, d1, publish[t]), CalculatePublisherInformation(catalog, d2, publish[t]);
        a[0] == b[0] && a[2] == b[2] && a[4] == b[4]
      ensures var a, b := CalculateInformation(catalog, d1, subscribe[t]), CalculateInformation(catalog, d2, subscribe[t]);
        a[0] == b[0] && a[2] == b[2]
    {
      PublisherRatesOnly(catalog, d1, d2, publish[t]);
      SubscriberRatesOnly(catalog, d1, d2, subscribe[t]);
    }
  }

  /** A failure names an unregistered configured topic, or a repeated one. */
  predicate Explains(e: Failure, topics: seq<string>, information: map<string, StatisticsInformation>) {
    match e
    case MissingInformation(topic) => topic in topics && topic !in information
    case DuplicateTopic(topic) => Repeated(topics, topic)
  }

  /**
   * The publisher pass: it succeeds exactly on distinct, registered
   * topics, and then yields the publisher lists of the response.
   */
  lemma PublisherPass(topics: seq<string>, catalog: Catalog, durationSeconds: int, publish: map<string, StatisticsInformation>)
    ensures var r := ProcessResult(topics, PublisherBuilder(catalog, durationSeconds, publish));
      && (r.Ok? <==> Distinct(topics) && Registered(topics, publish))
      && (r.Ok? ==> r.value == map t | t in topics :: StatisticsConsolidation(CalculatePublisherInformation(catalog, durationSeconds, publish[t])))
      && (r.Err? ==> Explains(r.error, topics, publish))
  {
    var r := ProcessResult(topics, PublisherBuilder(catalog, durationSeconds, publish));
    PublisherPassSucceeds(topics, catalog, durationSeconds, publish);
    if r.Ok? {
      PublisherPassValues(topics, catalog, durationSeconds, publish);
    } else {
      PublisherPassFails(topics, catalog, durationSeconds, publish);
    }
  }

  lemma PublisherPassSucceeds(topics: seq<string>, catalog: Catalog, durationSeconds: int, publish: map<string, StatisticsInformation>)
    ensures ProcessResult(topics, PublisherBuilder(catalog, durationSeconds, publish)).Ok? <==> Distinct(topics) && Registered(topics, publish)
  {
    var f := PublisherBuilder(catalog, durationSeconds, publish);
    ProcessResultSucceeds(topics, f);
    assert AllOk(topics, f) <==> Registered(topics, publish);
  }

  lemma PublisherPassValues(topics: seq<string>, catalog: Catalog, durationSeconds: int, publish: map<string, StatisticsInformation>)
    requires ProcessResult(topics, PublisherBuilder(catalog, durationSeconds, publish)).Ok?
    requires Registered(topics, publish)
    ensures ProcessResult(topics, PublisherBuilder(catalog, durationSeconds, publish)).value
      == map t | t in topics :: StatisticsConsolidation(CalculatePublisherInformation(catalog, durationSeconds, publish[t]))
  {
    var f := PublisherBuilder(catalog, durationSeconds, publish);
    var m := ProcessResult(topics, f).value;
    ProcessResultValues(topics, f);
    forall t | t in topics ensures m[t] == StatisticsConsolidation(CalculatePublisherInformation(catalog, durationSeconds, publish[t])) {
      assert f(t) == Ok(m[t]);
    }
  }

  lemma PublisherPassFails(topics: seq<string>, catalog: Catalog, durationSeconds: int, publish: map<string, StatisticsInformation>)
    requires ProcessResult(topics, PublisherBuilder(catalog, durationSeconds, publish)).Err?
    ensures Explains(ProcessResult(topics, PublisherBuilder(catalog, durationSeconds, publish)).error, topics, publish)
  {
    var f := PublisherBuilder(catalog, durationSeconds, publish);
    ProcessResultFails(topics, f);
  }

  /** The subscriber pass, likewise. */
  lemma SubscriberPass(topics: seq<string>, catalog: Catalog, durationSeconds: int, subscribe: map<string, StatisticsInformation>)
    ensures var r := ProcessResult(topics, SubscriberBuilder(catalog, durationSeconds, subscribe));
      && (r.Ok? <==> Distinct(topics) && Registered(topics, subscribe))
      && (r.Ok? ==> r.value == map t | t in topics :: StatisticsConsolidation(CalculateInformation(catalog, durationSeconds, subscribe[t])))
      && (r.Err? ==> Explains(r.error, topics, subscribe))
  {
    var r := ProcessResult(topics, SubscriberBuilder(catalog, durationSeconds, subscribe));
    SubscriberPassSucceeds(topics, catalog, durationSeconds, subscribe);
    if r.Ok? {
      SubscriberPassValues(topics, catalog, durationSeconds, subscribe);
    } else {
      SubscriberPassFails(topics, catalog, durationSeconds, subscribe);
    }
  }

  lemma SubscriberPassSucceeds(topics: seq<string>, catalog: Catalog, durationSeconds: int, subscribe: map<string, StatisticsInformation>)
    ensures ProcessResult(topics, SubscriberBuilder(catalog, durationSeconds, subscribe)).Ok? <==> Distinct(topics) && Registered(topics, subscribe)
  {
    var f := SubscriberBuilder(catalog, durationSeconds, subscribe);
    ProcessResultSucceeds(topics, f);
    assert AllOk(topics, f) <==> Registered(topics, subscribe);
  }

  lemma SubscriberPassValues(topics: seq<string>, catalog: Catalog, durationSeconds: int, subscribe: map<string, StatisticsInformation>)
    requires ProcessResult(topics, SubscriberBuilder(catalog, durationSeconds, subscribe)).Ok?
    requires Registered(topics, subscribe)
    ensures ProcessResult(topics, SubscriberBuilder(catalog, durationSeconds, subscribe)).value
      == map t | t in topics :: StatisticsConsolidation(CalculateInformation(catalog, durationSeconds, subscribe[t]))
  {
    var f := SubscriberBuilder(catalog, durationSeconds, subscribe);
    var m := ProcessResult(topics, f).value;
    ProcessResultValues(topics, f);
    forall t | t in topics ensures m[t] == StatisticsConsolidation(CalculateInformation(catalog, durationSeconds, subscribe[t])) {
      assert f(t) == Ok(m[t]);
    }
  }

  lemma SubscriberPassFails(topics: seq<string>, catalog: Catalog, durationSeconds: int, subscribe: map<string, StatisticsInformation>)
    requires ProcessResult(topics, SubscriberBuilder(catalog, durationSeconds, subscribe)).Err?
    ensures Explains(ProcessResult(topics, SubscriberBuilder(catalog, durationSeconds, subscribe)).error, topics, subscribe)
  {
    var f := SubscriberBuilder(catalog, durationSeconds, subscribe);
    ProcessResultFails(topics, f);
  }

  /** The per-topic readings the relay workers keep. */
  class StatisticsManager {
    const publishInformationByTopic: map<string, StatisticsInformation>
    const subscriberInformationByTopic: map<string, StatisticsInformation>

    constructor(publish: map<string, StatisticsInformation>, subscribe: map<string, StatisticsInformation>)
      ensures publishInformationByTopic == publish && subscriberInformationByTopic == subscribe
    {
      this.publishInformationByTopic := publish;
      this.subscriberInformationByTopic := subscribe;
    }
  }

  /** The admin service: its two fields are fixed when it is constructed. */
  class AdminImpl {
    const statisticsManager: StatisticsManager
    const startedAt: Instant

    /** Records the start instant, the clock reading `now` taken at construction. */
    constructor(statisticsManager: StatisticsManager, now: Instant)
      ensures this.statisticsManager == statisticsManager && startedAt == now
    {
      this.statisticsManager := statisticsManager;
      this.startedAt := now;
    }

    /**
     * `configuration`: the current configuration tagged YAML, or an
     * INTERNAL error carrying the serialisation exception and no content.
     */
    method Configuration(current: Serialization) returns (r: Result<ConfigurationResponse, ErrorStatus>)
      ensures r.Ok? <==> current.Serialized?
      ensures r.Ok? ==> r.value.content == current.content && r.value.extension == YAML
      ensures r.Err? ==> r.error.code == Internal && r.error.cause == current.cause
    {
      match current
      case Serialized(content) =>
        r := Ok(ConfigurationResponse(content, YAML));
      case SerializationFailed(e) =>
        r := Err(ErrorStatus(Internal, e));
    }

    /**
     * `statistics` at clock reading `now`: one elapsed duration, the
     * publisher map, then the subscriber map, then the response. It fails
     * exactly when a topic is repeated or has no readings in either direction.
     */
    method Statistics(catalog: Catalog, properties: KafkaProperties, now: Instant) returns (r: Result<StatisticsResponse, Failure>)
      ensures r.Ok? <==>
        && Distinct(properties.topics)
        && Registered(properties.topics, statisticsManager.publishInformationByTopic)
        && Registered(properties.topics, statisticsManager.subscriberInformationByTopic)
      ensures r.Ok? ==> r.value == ConsolidatedResponse(catalog, properties, DurationSeconds(startedAt, now),
                                     statisticsManager.publishInformationByTopic, statisticsManager.subscriberInformationByTopic)
      ensures r.Err? ==>
        if Distinct(properties.topics) && Registered(properties.topics, statisticsManager.publishInformationByTopic)
        then Explains(r.error, properties.topics, statisticsManager.subscriberInformationByTopic)
        else Explains(r.error, properties.topics, statisticsManager.publishInformationByTopic)
    {
      var topics := properties.topics;
      var durationSeconds := DurationSeconds(startedAt, now);
      var publishInformationByTopic := statisticsManager.publishInformationByTopic;
      var subscriberInformationByTopic := statisticsManager.subscriberInformationByTopic;

      var publishResultByTopic := ProcessResult(topics, PublisherBuilder(catalog, durationSeconds, publishInformationByTopic));
      PublisherPass(topics, catalog, durationSeconds, publishInformationByTopic);
      if publishResultByTopic.Err? {
        return Err(publishResultByTopic.error);
      }
      var subscriberResultByTopic := ProcessResult(topics, SubscriberBuilder(catalog, durationSeconds, subscriberInformationByTopic));
      SubscriberPass(topics, catalog, durationSeconds, subscriberInformationByTopic);
      if subscriberResultByTopic.Err? {
        return Err(subscriberResultByTopic.error);
      }
      r := Ok(StatisticsResponse(
        properties.producerExecutors, properties.consumerExecutors,
        publishResultByTopic.value, subscriberResultByTopic.value));
    }
  }
}
