# Admin statistics and configuration of the Kafka Pub/Sub emulator, in Dafny

This project models the admin endpoint of the Kafka-backed Pub/Sub emulator
(`AdminImpl`). The endpoint answers two queries:

- **Configuration** returns the current configuration document tagged YAML. If
  serialisation throws, it fails with an INTERNAL status carrying that exception.
- **Statistics** reports, for every configured topic, the metric list of the
  publisher side and of the subscriber side. Each list is built from that
  topic's readings and the whole seconds elapsed since the endpoint was
  constructed.

A subscriber list is four metrics in this order: message count, throughput,
average latency and QPS. A publisher list is those four followed by the error
rate. Each metric carries the name and description of its kind and a value.
The value is the reading formatted with `"%d"` (the count) or `"%19.2f"`
(the rates), then trimmed.

The modules follow the code's layers:

- `JavaLang` (java_lang.dfy) covers the Java operations the code relies on:
  - `Long.intValue()` as a 32-bit two's-complement narrowing;
  - `String.trim()`, which removes characters up to U+0020 at both ends;
  - left padding to a field width.
- `JavaFormat` (java_format.dfy) covers `String.format` for the two
  conversions the code uses. It includes parsers, which serve as the
  renderings' inverses for the round-trip lemmas.
- `Metrics` (metrics.dfy) holds the metric kinds, `buildMetric`,
  `calculateInformation` and `calculatePublisherInformation`.
- `Admin` (admin.dfy) holds the following:
  - the elapsed duration;
  - `processResult`, which collects topics with `Collectors.toMap`;
  - the response as a function of the duration;
  - the classes `StatisticsManager` and `AdminImpl`, whose constant fields
    are fixed at construction.

The statistics query has two failure cases, and the model keeps both:

- A configured topic with no readings makes `get` return null. Line 123
  dereferences it and throws a `NullPointerException`.
- A topic listed twice makes `Collectors.toMap` throw its duplicate-key
  `IllegalStateException` (line 145).

The message count is narrowed with `intValue()` (line 123), so counts of 2^31
or more wrap to negative values.

The RPC observer is replaced by a result value. A call that would throw is an
`Err` carrying the reason. The clock reading `Instant.now()` is a parameter:
of the constructor for the start instant, and of `Statistics` for the report
instant.

## Model

| member | source | states |
|---|---|---|
| JavaLang.IntValue | src/main/java/com/google/cloud/partners/pubsub/kafka/AdminImpl.java:123 | the narrowed count is congruent to the long modulo 2^32 and equals it when it fits in an int |
| JavaLang.TrimPadded | src/main/java/com/google/cloud/partners/pubsub/kafka/AdminImpl.java:152 | trimming a rendering with no edge whitespace after any left padding gives back exactly the rendering |
| JavaFormat.Digits | src/main/java/com/google/cloud/partners/pubsub/kafka/AdminImpl.java:50-52 | the digit run of a number is non-empty, has no leading zero for a positive number and is exactly "0" for zero |
| JavaFormat.Format | src/main/java/com/google/cloud/partners/pubsub/kafka/AdminImpl.java:50-52 | the fixed conversion is at least its field width; every formatted value is the unpadded rendering left-padded with spaces to the width |
| JavaFormat.TrimFormat | src/main/java/com/google/cloud/partners/pubsub/kafka/AdminImpl.java:50-52 | trimming a formatted value leaves exactly the unpadded rendering, with no padding and no edge spaces |
| JavaFormat.FormatIntegerRoundTrip | src/main/java/com/google/cloud/partners/pubsub/kafka/AdminImpl.java:52 | the "%d" rendering of an int parses back to that int |
| JavaFormat.FormatDecimal2RoundTrip | src/main/java/com/google/cloud/partners/pubsub/kafka/AdminImpl.java:50 | the two-decimal rendering (including NaN and the infinities) parses back to the same value |
| Metrics.BuildMetric | src/main/java/com/google/cloud/partners/pubsub/kafka/AdminImpl.java:148-154 | the metric carries the kind's name and description unchanged and a non-empty value without edge whitespace |
| Metrics.BuildMetricTrimsFormat | src/main/java/com/google/cloud/partners/pubsub/kafka/AdminImpl.java:148-154 | the metric value is the formatted value trimmed |
| Metrics.BuildMetricReadsBack | src/main/java/com/google/cloud/partners/pubsub/kafka/AdminImpl.java:148-154 | the metric value reads back as the integer or the rounded double it was built from |
| Metrics.CalculateInformation | src/main/java/com/google/cloud/partners/pubsub/kafka/AdminImpl.java:121-130 | the subscriber list has exactly 4 metrics labelled message count, throughput, average latency and QPS, in that order |
| Metrics.CalculatePublisherInformation | src/main/java/com/google/cloud/partners/pubsub/kafka/AdminImpl.java:132-137 | the publisher list has 5 metrics: its first 4 are the subscriber list for the same readings and duration, and the 5th is labelled error rate |
| Metrics.PublisherValues | src/main/java/com/google/cloud/partners/pubsub/kafka/AdminImpl.java:121-137 | the values are the narrowed count in decimal, then throughput and QPS at the given duration, average latency and error rate, each to two decimals |
| Metrics.SubscriberValues | src/main/java/com/google/cloud/partners/pubsub/kafka/AdminImpl.java:121-130 | the values of a subscriber list are the narrowed count in decimal, then throughput and QPS at the given duration and average latency, each to two decimals |
| Metrics.PublisherValuesReadBack | src/main/java/com/google/cloud/partners/pubsub/kafka/AdminImpl.java:121-137 | every value of a publisher list parses back as its reading: the count after narrowing, and each rate |
| Metrics.ValuesAreTrimmed | src/main/java/com/google/cloud/partners/pubsub/kafka/AdminImpl.java:121-137 | no value of a publisher list is empty or starts or ends with whitespace |
| Metrics.SubscriberHasNoErrorRate | src/main/java/com/google/cloud/partners/pubsub/kafka/AdminImpl.java:121-130 | when the error-rate kind has its own name, no subscriber metric carries that name |
| Metrics.PublisherRatesOnly | src/main/java/com/google/cloud/partners/pubsub/kafka/AdminImpl.java:121-137 | across two durations, the count, average latency and error rate metrics of a publisher list are identical |
| Metrics.SubscriberRatesOnly | src/main/java/com/google/cloud/partners/pubsub/kafka/AdminImpl.java:121-130 | across two durations, the count and average latency metrics of a subscriber list are identical |
| Metrics.CountWrapsAtIntRange | src/main/java/com/google/cloud/partners/pubsub/kafka/AdminImpl.java:123 | a count of 2^31 is reported as -2147483648 |
| Metrics.ZeroTraffic | src/main/java/com/google/cloud/partners/pubsub/kafka/AdminImpl.java:121-137 | all-zero readings are reported as "0" and four times "0.00" |
| Metrics.HundredMessagesScenario | src/main/java/com/google/cloud/partners/pubsub/kafka/AdminImpl.java:121-137 | given readings show as "100", "2.00", "2.50", "2.00", "0.05" |
| Admin.DurationSeconds | src/main/java/com/google/cloud/partners/pubsub/kafka/AdminImpl.java:84 | the elapsed seconds are the difference of the epoch seconds, less one when the end's nanosecond part is smaller; they are the floor of the exact difference |
| Admin.ProcessResult | src/main/java/com/google/cloud/partners/pubsub/kafka/AdminImpl.java:139-146 | when the collection succeeds, its key set is exactly the set of configured topics |
| Admin.ProcessResultValues | src/main/java/com/google/cloud/partners/pubsub/kafka/AdminImpl.java:139-146 | when the collection succeeds, every topic maps to the value the builder produced for it |
| Admin.ProcessResultSucceeds | src/main/java/com/google/cloud/partners/pubsub/kafka/AdminImpl.java:139-146 | the collection succeeds exactly when the topics are pairwise distinct and the builder succeeds on each of them |
| Admin.ProcessResultFails | src/main/java/com/google/cloud/partners/pubsub/kafka/AdminImpl.java:139-146 | a failure is either the builder's own failure on some configured topic or a duplicate key naming a topic listed twice |
| Admin.PublisherPass | src/main/java/com/google/cloud/partners/pubsub/kafka/AdminImpl.java:92-99 | the publisher pass succeeds exactly on distinct topics that all have publisher readings; it then yields each topic's publisher list, and otherwise names an unregistered or repeated topic |
| Admin.SubscriberPass | src/main/java/com/google/cloud/partners/pubsub/kafka/AdminImpl.java:101-108 | the same for the subscriber pass and the subscriber readings |
| Admin.ConsolidatedResponse | src/main/java/com/google/cloud/partners/pubsub/kafka/AdminImpl.java:110-116 | the publisher map and the subscriber map both have exactly the configured topics as keys |
| Admin.ConsolidatedShape | src/main/java/com/google/cloud/partners/pubsub/kafka/AdminImpl.java:92-116 | every publisher entry holds 5 metrics labelled in publisher order; every subscriber entry holds 4, in subscriber order |
| Admin.OnlyRatesDependOnDuration | src/main/java/com/google/cloud/partners/pubsub/kafka/AdminImpl.java:84-108 | two responses over the same readings at different durations agree on every count, average latency and error rate metric |
| Admin.StatisticsManager.constructor | src/main/java/com/google/cloud/partners/pubsub/kafka/AdminImpl.java:86-90 | the manager holds the given per-topic publisher and subscriber readings |
| Admin.AdminImpl.constructor | src/main/java/com/google/cloud/partners/pubsub/kafka/AdminImpl.java:56-61 | the start instant is the clock reading at construction, and the statistics manager is the one given |
| Admin.AdminImpl.Configuration | src/main/java/com/google/cloud/partners/pubsub/kafka/AdminImpl.java:63-76 | succeeds exactly when serialisation does, with the document as content and the YAML tag; otherwise an INTERNAL status carrying the exception and no content |
| Admin.AdminImpl.Statistics | src/main/java/com/google/cloud/partners/pubsub/kafka/AdminImpl.java:78-119 | succeeds exactly when the configured topics are distinct and every topic has both publisher and subscriber readings; on success the response is ConsolidatedResponse for the one elapsed duration between the start instant and now, used for both directions; on failure it names an unregistered or repeated topic, the publisher pass's reason first when that pass fails |

## Left out

- The gRPC plumbing is not modelled: the request messages, `StreamObserver`
  and the `Status` exception wrapping. Results are returned as values instead.
- The wall clock is not modelled: `Instant.now()` is a parameter of the
  `AdminImpl` constructor and of `Statistics`.
- `Configuration.getCurrentConfiguration()`, its Jackson YAML serialisation
  and `getApplicationProperties()` are not part of this model. Their results
  are inputs: a `Serialization` outcome and a `KafkaProperties` value.
  `statistics` and `processResult` read the application properties three
  times separately; the model assumes all three return the same properties.
  Exceptions other than `JsonProcessingException` are not caught by the
  source, and they are not modelled.
- The `StatisticsInformation` class and its getters are not part of this
  model. The readings are a datatype:
  - a `long` count;
  - throughput and QPS as functions of the elapsed seconds;
  - average latency and error rate.
  How the getters compute these, including their zero-duration policy, is not
  modelled. Neither are the concurrent updates by relay workers that the
  getters read without locking.
- Floating point is not modelled. A double reading is a `Decimal2`: its value
  after `"%.2f"` rounding, or NaN, or an infinity. The rounding and the
  locale are left out, along with the locale's decimal separator, which is
  taken to be `.`.
- `MetricProperty.java` is not part of this model. The names and descriptions
  of the metric kinds are a `Catalog` parameter.
- Admin.DurationSeconds: the epoch seconds are limited to the range of
  `Instant` itself; the `Instant.MIN`/`Instant.MAX` constants and the clock
  that produces instants are not modelled.
- Metrics.CalculatePublisherInformation: `calculatePublisherInformation`
  appends to the `ArrayList` returned by `calculateInformation` in place
  (line 135); the model appends to an immutable sequence. The difference is
  not observable, because that list is not shared.
