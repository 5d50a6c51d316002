/**
 * The metric catalog and the per-direction metric lists that the admin
 * handler builds for one topic (`buildMetric`, `calculateInformation` and
 * `calculatePublisherInformation` in AdminImpl).
 */
module Metrics {
  import opened Wrappers
  import opened JavaLang
  import opened JavaFormat

  /** The reportable metric kinds (the MetricProperty enumeration). */
  datatype MetricProperty = MessageCount | Throughput | AvgLatency | Qps | ErrorRate

  /** The name and description an enumeration constant carries. */
  datatype Label = Label(name: string, description: string)

  /** The fixed labels of the enumeration, one per kind. */
  type Catalog = MetricProperty -> Label

  /** A reported metric: name, description and formatted value. */
  datatype Metric = Metric(name: string, description: string, value: string)

  /** `FORMAT`, the integer format `"%d"`. */
  const CountFormat: FormatSpec := IntegerConversion

  /** `DECIMAL_FORMAT`, the fixed-point format `"%19.2f"`. */
  const DecimalFormat: FormatSpec := FixedConversion(19)

  /**
   * The readings of one topic in one direction. The derived readings are
   * doubles computed by the statistics source, seen here as they are after
   * rounding to two decimals; throughput and QPS depend on the elapsed seconds.
   */
  datatype StatisticsInformation = StatisticsInformation(
    count: int64,
    throughput: int -> Decimal2,
    averageLatency: Decimal2,
    qps: int -> Decimal2,
    errorRating: Decimal2)

  /** The metric kinds of a subscriber list, in list order. */
  const SubscriberProperties: seq<MetricProperty> := [MessageCount, Throughput, AvgLatency, Qps]

  /** The metric kinds of a publisher list, in list order. */
  const PublisherProperties: seq<MetricProperty> := SubscriberProperties + [ErrorRate]

  /** The metric carries the catalog's name and description for `property`, unchanged. */
  predicate Describes(catalog: Catalog, m: Metric, property: MetricProperty) {
    m.name == catalog(property).name && m.description == catalog(property).description
  }

  /** The metric's value reads back as exactly this count. */
  predicate ShowsCount(m: Metric, count: int) {
    ParseInteger(m.value) == Some(count)
  }

  /** The metric's value reads back as exactly this rounded double. */
  predicate ShowsDecimal(m: Metric, x: Decimal2) {
    ParseDecimal2(m.value) == Some(x)
  }

  /**
   * `buildMetric`: labels a rendered value with the kind's name and
   * description. The value is the rendering without field padding, which
   * `BuildMetricTrimsFormat` proves equal to the `String.format` output
   * trimmed.
   */
  function BuildMetric(catalog: Catalog, property: MetricProperty, value: FormatArg, format: FormatSpec): (m: Metric)
    requires Accepts(format, value)
    ensures Describes(catalog, m, property)
    ensures m.value == Unpadded(value)
    ensures m.value != [] && NoEdgeSpace(m.value)
  {
    Metric(catalog(property).name, catalog(property).description, Unpadded(value))
  }

  /** The metric value is `String.format(format, value).trim()`, as `buildMetric` computes it. */
  lemma BuildMetricTrimsFormat(catalog: Catalog, property: MetricProperty, value: FormatArg, format: FormatSpec)
    requires Accepts(format, value)
    ensures BuildMetric(catalog, property, value, format).value == Trim(Format(format, value))
  {
    TrimFormat(format, value);
  }

  /** A built metric's value reads back as the number it was built from. */
  lemma BuildMetricReadsBack(catalog: Catalog, property: MetricProperty, value: FormatArg, format: FormatSpec)
    requires Accepts(format, value)
    ensures var m := BuildMetric(catalog, property, value, format);
      && (value.IntArg? ==> ShowsCount(m, value.i))
      && (value.DoubleArg? ==> ShowsDecimal(m, value.x))
  {
    match value
    case IntArg(i) => FormatIntegerRoundTrip(i);
    case DoubleArg(x) => FormatDecimal2RoundTrip(x);
  }

  /**
   * `calculateInformation`: the subscriber list. Message count (the count
   * narrowed to `int`, `"%d"`), then throughput, average latency and QPS
   * (each `"%19.2f"`, trimmed), the rates for the given elapsed seconds.
   */
  function CalculateInformation(catalog: Catalog, durationSeconds: int, information: StatisticsInformation): (r: seq<Metric>)
    ensures |r| == |SubscriberProperties| == 4
    ensures forall k :: 0 <= k < |r| ==> Describes(catalog, r[k], SubscriberProperties[k])
  {
    var count := BuildMetric(catalog, MessageCount, IntArg(IntValue(information.count)), CountFormat);
    var throughput := BuildMetric(catalog, Throughput, DoubleArg(information.throughput(durationSeconds)), DecimalFormat);
    var averageLatency := BuildMetric(catalog, AvgLatency, DoubleArg(information.averageLatency), DecimalFormat);
    var qps := BuildMetric(catalog, Qps, DoubleArg(information.qps(durationSeconds)), DecimalFormat);
    [count, throughput, averageLatency, qps]
  }

  /**
   * `calculatePublisherInformation`: the subscriber list for the same
   * readings and duration, with the error rate appended.
   */
  function CalculatePublisherInformation(catalog: Catalog, durationSeconds: int, information: StatisticsInformation): (r: seq<Metric>)
    ensures |r| == |PublisherProperties| == 5
    ensures r[..4] == CalculateInformation(catalog, durationSeconds, information)
    ensures forall k :: 0 <= k < |r| ==> Describes(catalog, r[k], PublisherProperties[k])
  {
    var metrics := CalculateInformation(catalog, durationSeconds, information);
    metrics + [BuildMetric(catalog, ErrorRate, DoubleArg(information.errorRating), DecimalFormat)]
  }

  /**
   * The values of a publisher list: the count narrowed by `intValue()` in
   * decimal, then each rate for the given duration to two decimals.
   */
  lemma PublisherValues(catalog: Catalog, durationSeconds: int, information: StatisticsInformation)
    ensures var r := CalculatePublisherInformation(catalog, durationSeconds, information);
      && r[0].value == FormatInteger(IntValue(information.count))
      && r[1].value == FormatDecimal2(information.throughput(durationSeconds))
      && r[2].value == FormatDecimal2(information.averageLatency)
      && r[3].value == FormatDecimal2(information.qps(durationSeconds))
      && r[4].value == FormatDecimal2(information.errorRating)
  {
    var r := CalculatePublisherInformation(catalog, durationSeconds, information);
    var s := CalculateInformation(catalog, durationSeconds, information);
    assert r[..4] == s;
    assert r[0] == s[0] && r[1] == s[1] && r[2] == s[2] && r[3] == s[3] by {
      assert r[..4][0] == r[0] && r[..4][1] == r[1] && r[..4][2] == r[2] && r[..4][3] == r[3];
    }
  }

  /**
   * The values of a subscriber list: the count narrowed by `intValue()` in
   * decimal, then throughput, average latency and QPS to two decimals.
   */
  lemma SubscriberValues(catalog: Catalog, durationSeconds: int, information: StatisticsInformation)
    ensures var r := CalculateInformation(catalog, durationSeconds, information);
      && r[0].value == FormatInteger(IntValue(information.count))
      && r[1].value == FormatDecimal2(information.throughput(durationSeconds))
      && r[2].value == FormatDecimal2(information.averageLatency)
      && r[3].value == FormatDecimal2(information.qps(durationSeconds))
  {
    var r := CalculatePublisherInformation(catalog, durationSeconds, information);
    PublisherValues(catalog, durationSeconds, information);
    assert r[..4][0] == r[0] && r[..4][1] == r[1] && r[..4][2] == r[2] && r[..4][3] == r[3];
  }

  /** Of a publisher list, only throughput and QPS depend on the elapsed seconds. */
  lemma PublisherRatesOnly(catalog: Catalog, d1: int, d2: int, information: StatisticsInformation)
    ensures var a, b := CalculatePublisherInformation(catalog, d1, information), CalculatePublisherInformation(catalog, d2, information);
      a[0] == b[0] && a[2] == b[2] && a[4] == b[4]
  {
  }

  /** Of a subscriber list, only throughput and QPS depend on the elapsed seconds. */
  lemma SubscriberRatesOnly(catalog: Catalog, d1: int, d2: int, information: StatisticsInformation)
    ensures var a, b := CalculateInformation(catalog, d1, information), CalculateInformation(catalog, d2, information);
      a[0] == b[0] && a[2] == b[2]
  {
  }

  /**
   * Every value of a publisher list reads back as its reading: the count
   * after `intValue()`, and each rate for the given duration.
   */
  lemma PublisherValuesReadBack(catalog: Catalog, durationSeconds: int, information: StatisticsInformation)
    ensures var r := CalculatePublisherInformation(catalog, durationSeconds, information);
      && ShowsCount(r[0], IntValue(information.count))
      && ShowsDecimal(r[1], information.throughput(durationSeconds))
      && ShowsDecimal(r[2], information.averageLatency)
      && ShowsDecimal(r[3], information.qps(durationSeconds))
      && ShowsDecimal(r[4], information.errorRating)
  {
    PublisherValues(catalog, durationSeconds, information);
    FormatIntegerRoundTrip(IntValue(information.count));
    FormatDecimal2RoundTrip(information.throughput(durationSeconds));
    FormatDecimal2RoundTrip(information.averageLatency);
    FormatDecimal2RoundTrip(information.qps(durationSeconds));
    FormatDecimal2RoundTrip(information.errorRating);
  }

  /** No value of a publisher list (and so of a subscriber list) is empty or carries padding. */
  lemma ValuesAreTrimmed(catalog: Catalog, durationSeconds: int, information: StatisticsInformation)
    ensures var r := CalculatePublisherInformation(catalog, durationSeconds, information);
      forall k :: 0 <= k < |r| ==> r[k].value != [] && NoEdgeSpace(r[k].value)
  {
    var r := CalculatePublisherInformation(catalog, durationSeconds, information);
    var s := CalculateInformation(catalog, durationSeconds, information);
    assert r[..4] == s;
    forall k | 0 <= k < 4 ensures r[k].value == s[k].value {
      assert r[..4][k] == r[k];
    }
  }

  /** The subscriber list never reports an error rate. */
  lemma SubscriberHasNoErrorRate(catalog: Catalog, durationSeconds: int, information: StatisticsInformation)
    requires forall p :: p != ErrorRate ==> catalog(p).name != catalog(ErrorRate).name
    ensures forall m :: m in CalculateInformation(catalog, durationSeconds, information) ==> m.name != catalog(ErrorRate).name
  {
    var r := CalculateInformation(catalog, durationSeconds, information);
    forall m | m in r ensures m.name != catalog(ErrorRate).name {
      var k :| 0 <= k < |r| && r[k] == m;
      assert SubscriberProperties[k] != ErrorRate;
    }
  }

  /**
   * A count past `Integer.MAX_VALUE` is reported after `intValue()` wraps it:
   * 2^31 messages show as -2147483648.
   */
  lemma CountWrapsAtIntRange(catalog: Catalog, durationSeconds: int, information: StatisticsInformation)
    requires information.count == 0x8000_0000
    ensures ShowsCount(CalculateInformation(catalog, durationSeconds, information)[0], -0x8000_0000)
  {
    PublisherValuesReadBack(catalog, durationSeconds, information);
  }

  /**
   * A topic with no traffic at startup: every reading is zero, and the list
   * reads "0", "0.00", "0.00", "0.00", "0.00".
   */
  lemma ZeroTraffic(catalog: Catalog, information: StatisticsInformation)
    requires information.count == 0
    requires information.throughput(0) == Finite(false, 0) && information.qps(0) == Finite(false, 0)
    requires information.averageLatency == Finite(false, 0) && information.errorRating == Finite(false, 0)
    ensures var r := CalculatePublisherInformation(catalog, 0, information);
      && r[0].value == "0" && r[1].value == "0.00" && r[2].value == "0.00"
      && r[3].value == "0.00" && r[4].value == "0.00"
  {
    PublisherValues(catalog, 0, information);
    assert FormatDecimal2(Finite(false, 0)) == "0.00";
  }

  /**
   * A publisher topic with 100 messages over 50 seconds, cumulative latency
   * 250 and 5 errors reads "100", "2.00", "2.50", "2.00", "0.05".
   */
  lemma HundredMessagesScenario(catalog: Catalog, information: StatisticsInformation)
    requires information.count == 100
    requires information.throughput(50) == Finite(false, 200) && information.qps(50) == Finite(false, 200)
    requires information.averageLatency == Finite(false, 250) && information.errorRating == Finite(false, 5)
    ensures var r := CalculatePublisherInformation(catalog, 50, information);
      && r[0].value == "100" && r[1].value == "2.00" && r[2].value == "2.50"
      && r[3].value == "2.00" && r[4].value == "0.05"
  {
    PublisherValues(catalog, 50, information);
    assert Digits(100) == "100" by {
      assert Digits(10) == "10";
    }
    assert FormatDecimal2(Finite(false, 200)) == "2.00";
    assert FormatDecimal2(Finite(false, 250)) == "2.50";
    assert FormatDecimal2(Finite(false, 5)) == "0.05";
  }
}
