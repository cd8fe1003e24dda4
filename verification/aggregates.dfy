/** The search response as the decoders see it: the client's `Aggregate` union, its bucket
    types, and the name-to-aggregate maps found at the top level and inside each bucket. */
module Aggregates {
  import opened Wrappers
  import opened Numbers

  /** The client's `FieldValue` union: the key of a string-terms bucket and each part of a
      multi-terms key. */
  datatype FieldValue =
    | DoubleValue(d: real)
    | LongValue(n: Long)
    | BooleanValue(b: bool)
    | StringValue(s: string)
    | NullValue
    | AnyValue(json: string)

  datatype StringTermsBucket = StringTermsBucket(key: FieldValue, docCount: Long, aggregations: AggregateMap)
  datatype LongTermsBucket = LongTermsBucket(key: Long, docCount: Long, aggregations: AggregateMap)
  datatype MultiTermsBucket = MultiTermsBucket(key: seq<FieldValue>, docCount: Long, aggregations: AggregateMap)
  /** `key` is the start of the interval in epoch milliseconds; `keyAsString` is the formatted
      date the store sends alongside it. */
  datatype DateHistogramBucket = DateHistogramBucket(key: Long, keyAsString: string, docCount: Long, aggregations: AggregateMap)

  /** The variants of the client's `Aggregate` union that the decoders test for; every other
      variant is `Other`. */
  datatype Aggregate =
    | ValueCount(value: real)
    | Sum(value: real)
    | Avg(value: real)
    | Min(value: real)
    | Max(value: real)
    | STerms(sbuckets: seq<StringTermsBucket>)
    | LTerms(lbuckets: seq<LongTermsBucket>)
    | MultiTerms(mbuckets: seq<MultiTermsBucket>)
    | DateHistogram(dbuckets: seq<DateHistogramBucket>)
    | Other

  /** A name-to-aggregate map that may be null: the response's aggregations (None when the
      search returned none) and the sub-aggregations of a bucket. */
  type AggregateMap = Option<map<string, Aggregate>>

  /** `get(name)` on a possibly-null map: None when the map is null or has no such name. */
  function Lookup(aggs: AggregateMap, name: string): (r: Option<Aggregate>)
    ensures r.Some? <==> aggs.Some? && name in aggs.value
    ensures r.Some? ==> r.value == aggs.value[name]
  {
    match aggs
    case None => None
    case Some(m) => if name in m then Some(m[name]) else None
  }

  /** The single-value metric variants, one per `isValueCount()`, `isSum()`, ... test. */
  datatype MetricKind = ValueCountKind | SumKind | AvgKind | MinKind | MaxKind

  /** The aggregate the store sends for metric `kind` with value `v`. */
  function MetricOf(kind: MetricKind, v: real): Aggregate {
    match kind
    case ValueCountKind => ValueCount(v)
    case SumKind => Sum(v)
    case AvgKind => Avg(v)
    case MinKind => Min(v)
    case MaxKind => Max(v)
  }

  /** Which metric variant `a` is, if any. */
  function KindOf(a: Aggregate): (r: Option<MetricKind>)
    ensures r.Some? <==> a.ValueCount? || a.Sum? || a.Avg? || a.Min? || a.Max?
    ensures r.Some? ==> a == MetricOf(r.value, a.value)
  {
    match a
    case ValueCount(_) => Some(ValueCountKind)
    case Sum(_) => Some(SumKind)
    case Avg(_) => Some(AvgKind)
    case Min(_) => Some(MinKind)
    case Max(_) => Some(MaxKind)
    case _ => None
  }

  /** The map is present, holds `name`, and the aggregate under it is of metric `kind`. */
  predicate Reports(aggs: AggregateMap, name: string, kind: MetricKind) {
    aggs.Some? && name in aggs.value && KindOf(aggs.value[name]) == Some(kind)
  }

  /** Null-tolerant metric read: the value when the map reports `kind` under `name`, else None. */
  function MetricOrNull(aggs: AggregateMap, name: string, kind: MetricKind): (r: Option<real>)
    ensures r.Some? <==> Reports(aggs, name, kind)
    ensures r.Some? ==> aggs.value[name] == MetricOf(kind, r.value)
  {
    match Lookup(aggs, name)
    case Some(a) => if KindOf(a) == Some(kind) then Some(a.value) else None
    case None => None
  }

  /** Soft metric read: a null map, a missing name and a different variant all read as 0. */
  function SoftMetric(aggs: AggregateMap, name: string, kind: MetricKind): (r: real)
    ensures Reports(aggs, name, kind) ==> aggs.value[name] == MetricOf(kind, r)
    ensures !Reports(aggs, name, kind) ==> r == 0.0
  {
    MetricOrNull(aggs, name, kind).GetOr(0.0)
  }

  /** Strict metric read: `get(name).sum().value()` and its siblings, which throw unless the
      entry is there with the right variant. */
  function StrictMetric(aggs: AggregateMap, name: string, kind: MetricKind): (r: real)
    requires Reports(aggs, name, kind)
    ensures aggs.value[name] == MetricOf(kind, r)
  {
    aggs.value[name].value
  }

  /** Reading back a reported metric gives the reported value. */
  lemma SoftMetricRoundTrip(m: map<string, Aggregate>, name: string, kind: MetricKind, v: real)
    ensures SoftMetric(Some(m[name := MetricOf(kind, v)]), name, kind) == v
  {
  }

  /** A soft read looks at its own name only: other entries do not affect it. */
  lemma SoftMetricLocal(m: map<string, Aggregate>, name: string, other: string, a: Aggregate, kind: MetricKind)
    requires other != name
    ensures SoftMetric(Some(m[other := a]), name, kind) == SoftMetric(Some(m), name, kind)
  {
  }
}
