/** The single-value decoders of `OrderPaginationAggregations`: total order count, total and
    average revenue, the min/max pair, paid revenue and the four paid-revenue statistics.
    Each takes the response's aggregations (None when the search returned none). */
module MetricDecoders {
  import opened Wrappers
  import opened Numbers
  import opened Aggregates
  import opened Dto

  const TotalOrdersName := "total_orders"
  const TotalRevenueName := "total_revenue"
  const AvgOrderValueName := "avg_order_value"
  const MinAmountName := "min_amount"
  const MaxAmountName := "max_amount"
  const PaidRevenueName := "paid_revenue"
  const AverageOrderValueName := "average_order_value"
  const MinOrderAmountName := "min_order_amount"
  const MaxOrderAmountName := "max_order_amount"

  /** `getTotalOrdersCount`: the value_count under "total_orders", cast to `long`; 0 when the
      aggregations are null, the name is missing or the entry is not a value_count. */
  function TotalOrdersCount(aggs: AggregateMap): (r: Long)
    ensures aggs.None? ==> r == 0
    ensures aggs.Some? && TotalOrdersName !in aggs.value ==> r == 0
    ensures aggs.Some? && TotalOrdersName in aggs.value && !aggs.value[TotalOrdersName].ValueCount? ==> r == 0
    ensures Reports(aggs, TotalOrdersName, ValueCountKind) ==> r == DoubleToLong(aggs.value[TotalOrdersName].value)
  {
    match Lookup(aggs, TotalOrdersName)
    case None => 0
    case Some(a) => if a.ValueCount? then DoubleToLong(a.value) else 0
  }

  /** `getTotalRevenueFromOrders`: the sum under "total_revenue", else 0. */
  function TotalRevenueFromOrders(aggs: AggregateMap): (r: real)
    ensures Reports(aggs, TotalRevenueName, SumKind) ==> aggs.value[TotalRevenueName] == Sum(r)
    ensures !Reports(aggs, TotalRevenueName, SumKind) ==> r == 0.0
  {
    SoftMetric(aggs, TotalRevenueName, SumKind)
  }

  /** `getTotalAverageFromOrders`: the avg under "avg_order_value", else 0. */
  function TotalAverageFromOrders(aggs: AggregateMap): (r: real)
    ensures Reports(aggs, AvgOrderValueName, AvgKind) ==> aggs.value[AvgOrderValueName] == Avg(r)
    ensures !Reports(aggs, AvgOrderValueName, AvgKind) ==> r == 0.0
  {
    SoftMetric(aggs, AvgOrderValueName, AvgKind)
  }

  /** `getTotalRevenueFromPaidOrders`: the sum under "paid_revenue", else 0. */
  function TotalRevenueFromPaidOrders(aggs: AggregateMap): (r: real)
    ensures Reports(aggs, PaidRevenueName, SumKind) ==> aggs.value[PaidRevenueName] == Sum(r)
    ensures !Reports(aggs, PaidRevenueName, SumKind) ==> r == 0.0
  {
    SoftMetric(aggs, PaidRevenueName, SumKind)
  }

  /** `getMinAndMaxAmountFromOrders`: each side is the min (max) reported under "min_amount"
      ("max_amount"), or null; the two sides are read independently. */
  function MinAndMaxAmountFromOrders(aggs: AggregateMap): (r: MinMax)
    ensures aggs.None? ==> r == MinMax(None, None)
    ensures r.min.Some? <==> Reports(aggs, MinAmountName, MinKind)
    ensures r.min.Some? ==> aggs.value[MinAmountName] == Min(r.min.value)
    ensures r.max.Some? <==> Reports(aggs, MaxAmountName, MaxKind)
    ensures r.max.Some? ==> aggs.value[MaxAmountName] == Max(r.max.value)
  {
    if aggs.None? then MinMax(None, None)
    else MinMax(MetricOrNull(aggs, MinAmountName, MinKind), MetricOrNull(aggs, MaxAmountName, MaxKind))
  }

  /** `getPaidRevenueStats`: each of the four fields is its own metric or 0. */
  function PaidRevenueStats(aggs: AggregateMap): (r: RevenueStatsResponse)
    ensures aggs.None? ==> r == RevenueStatsResponse(0.0, 0.0, 0.0, 0.0)
    ensures Reports(aggs, TotalRevenueName, SumKind) ==> aggs.value[TotalRevenueName] == Sum(r.totalRevenue)
    ensures !Reports(aggs, TotalRevenueName, SumKind) ==> r.totalRevenue == 0.0
    ensures Reports(aggs, AverageOrderValueName, AvgKind) ==> aggs.value[AverageOrderValueName] == Avg(r.averageOrderValue)
    ensures !Reports(aggs, AverageOrderValueName, AvgKind) ==> r.averageOrderValue == 0.0
    ensures Reports(aggs, MinOrderAmountName, MinKind) ==> aggs.value[MinOrderAmountName] == Min(r.minOrderAmount)
    ensures !Reports(aggs, MinOrderAmountName, MinKind) ==> r.minOrderAmount == 0.0
    ensures Reports(aggs, MaxOrderAmountName, MaxKind) ==> aggs.value[MaxOrderAmountName] == Max(r.maxOrderAmount)
    ensures !Reports(aggs, MaxOrderAmountName, MaxKind) ==> r.maxOrderAmount == 0.0
  {
    if aggs.None? then RevenueStatsResponse(0.0, 0.0, 0.0, 0.0)
    else
      RevenueStatsResponse(
        SoftMetric(aggs, TotalRevenueName, SumKind),
        SoftMetric(aggs, AverageOrderValueName, AvgKind),
        SoftMetric(aggs, MinOrderAmountName, MinKind),
        SoftMetric(aggs, MaxOrderAmountName, MaxKind))
  }

  /** A response that reports a whole count under "total_orders" decodes to that count. */
  lemma TotalOrdersCountRoundTrip(m: map<string, Aggregate>, n: Long)
    ensures TotalOrdersCount(Some(m[TotalOrdersName := ValueCount(n as real)])) == n
  {
    var d := n as real;
    assert d.Floor == n;
    if n < 0 {
      assert (-d).Floor == -(n as int);
    }
  }

  /** Each soft scalar decoder returns the value it is handed under its own name. */
  lemma ScalarDecodersRoundTrip(m: map<string, Aggregate>, v: real)
    ensures TotalRevenueFromOrders(Some(m[TotalRevenueName := Sum(v)])) == v
    ensures TotalAverageFromOrders(Some(m[AvgOrderValueName := Avg(v)])) == v
    ensures TotalRevenueFromPaidOrders(Some(m[PaidRevenueName := Sum(v)])) == v
  {
    SoftMetricRoundTrip(m, TotalRevenueName, SumKind, v);
    SoftMetricRoundTrip(m, AvgOrderValueName, AvgKind, v);
    SoftMetricRoundTrip(m, PaidRevenueName, SumKind, v);
  }

  /** The min side ignores the max entry and the max side ignores the min entry. */
  lemma MinMaxSidesIndependent(m: map<string, Aggregate>, a: Aggregate)
    ensures MinAndMaxAmountFromOrders(Some(m[MaxAmountName := a])).min == MinAndMaxAmountFromOrders(Some(m)).min
    ensures MinAndMaxAmountFromOrders(Some(m[MinAmountName := a])).max == MinAndMaxAmountFromOrders(Some(m)).max
  {
  }

  /** "No value" and "a value of 0" stay distinguishable in the min/max pair. */
  lemma MinMaxNullIsNotZero()
    ensures MinAndMaxAmountFromOrders(Some(map[])) == MinMax(None, None)
    ensures MinAndMaxAmountFromOrders(Some(map[MinAmountName := Min(0.0), MaxAmountName := Max(0.0)]))
            == MinMax(Some(0.0), Some(0.0))
  {
  }

  /** A missing or mismatched statistic affects only its own field. */
  lemma PaidRevenueStatsFieldsIndependent(m: map<string, Aggregate>, name: string, a: Aggregate)
    ensures var before, after := PaidRevenueStats(Some(m)), PaidRevenueStats(Some(m[name := a]));
      && (name != TotalRevenueName ==> after.totalRevenue == before.totalRevenue)
      && (name != AverageOrderValueName ==> after.averageOrderValue == before.averageOrderValue)
      && (name != MinOrderAmountName ==> after.minOrderAmount == before.minOrderAmount)
      && (name != MaxOrderAmountName ==> after.maxOrderAmount == before.maxOrderAmount)
  {
  }

  /** The paid statistics read "total_revenue" exactly as the total-revenue decoder does. */
  lemma PaidStatsTotalMatchesTotalRevenue(aggs: AggregateMap)
    ensures PaidRevenueStats(aggs).totalRevenue == TotalRevenueFromOrders(aggs)
  {
  }
}
