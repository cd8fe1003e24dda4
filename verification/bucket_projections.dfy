/** The decoders of `OrderPaginationAggregations` that turn each bucket of a terms or
    date-histogram aggregation into one result record: revenue per customer, top customers
    by revenue, customer order statistics, daily sales and category statistics.
    Where the Java methods dereference without checking (`stringValue()` on the key,
    `get(name)` on the sub-aggregations, `avg()`/`max()`/`sum()` on the entry) the model
    requires what the dereference needs, since the Java code would throw otherwise. */
module BucketProjections {
  import opened Wrappers
  import opened Numbers
  import opened Aggregates
  import opened LinkedMaps
  import opened Dto

  const RevenuePerCustomerName := "revenue_per_customer"
  const TotalSpentName := "total_spent"
  const OrdersByCustomerName := "orders_by_customer"
  const AvgOrderValueName := "avg_order_value"
  const MaxOrderValueName := "max_order_value"
  const DailySalesName := "daily_sales"
  const TotalSalesName := "total_sales"
  const AvgSalesName := "avg_sales"
  const OrdersByCategoryName := "orders_by_category"
  const MaxSaleName := "max_sale"

  /** The buckets of the string-terms aggregation under `name`; None when the map is null,
      the name is missing or the entry is another variant. */
  function STermsBuckets(aggs: AggregateMap, name: string): (r: Option<seq<StringTermsBucket>>)
    ensures r.Some? <==> aggs.Some? && name in aggs.value && aggs.value[name].STerms?
    ensures r.Some? ==> r.value == aggs.value[name].sbuckets
  {
    match Lookup(aggs, name)
    case Some(STerms(bs)) => Some(bs)
    case _ => None
  }

  /** Every bucket key is a string, so `key().stringValue()` does not throw. */
  predicate StringKeyed(bs: seq<StringTermsBucket>) {
    forall i :: 0 <= i < |bs| ==> bs[i].key.StringValue?
  }

  /** No two buckets share a key. */
  predicate DistinctBucketKeys(bs: seq<StringTermsBucket>) {
    forall i, j :: 0 <= i < j < |bs| ==> bs[i].key != bs[j].key
  }

  // ---------------------------------------------------------------- revenue per customer

  predicate RevenuePerCustomerReadable(aggs: AggregateMap) {
    STermsBuckets(aggs, RevenuePerCustomerName).Some? ==> StringKeyed(STermsBuckets(aggs, RevenuePerCustomerName).value)
  }

  /** `getRevenuePerCustomer`: one record per bucket in bucket order; a sub-aggregation map
      that is null, lacks "total_spent" or holds another variant there gives 0 spent. */
  function RevenuePerCustomer(aggs: AggregateMap): (r: seq<CustomerRevenueResponse>)
    requires RevenuePerCustomerReadable(aggs)
    ensures STermsBuckets(aggs, RevenuePerCustomerName).None? ==> r == []
    ensures STermsBuckets(aggs, RevenuePerCustomerName).Some? ==>
              var bs := STermsBuckets(aggs, RevenuePerCustomerName).value;
              && |r| == |bs|
              && forall i :: 0 <= i < |bs| ==>
                   && r[i].customer == bs[i].key.s
                   && r[i].orderCount == bs[i].docCount
                   && (Reports(bs[i].aggregations, TotalSpentName, SumKind) ==>
                         bs[i].aggregations.value[TotalSpentName] == Sum(r[i].totalSpent))
                   && (!Reports(bs[i].aggregations, TotalSpentName, SumKind) ==> r[i].totalSpent == 0.0)
  {
    match STermsBuckets(aggs, RevenuePerCustomerName)
    case None => []
    case Some(bs) =>
      seq(|bs|, i requires 0 <= i < |bs| =>
        CustomerRevenueResponse(bs[i].key.s, bs[i].docCount, SoftMetric(bs[i].aggregations, TotalSpentName, SumKind)))
  }

  /** The bucket the store sends for one customer's revenue record. */
  function RevenueBucket(c: CustomerRevenueResponse): StringTermsBucket {
    StringTermsBucket(StringValue(c.customer), c.orderCount, Some(map[TotalSpentName := Sum(c.totalSpent)]))
  }

  /** A response listing the given records as revenue-per-customer buckets. */
  function RevenueResponse(rs: seq<CustomerRevenueResponse>): AggregateMap {
    Some(map[RevenuePerCustomerName := STerms(seq(|rs|, i requires 0 <= i < |rs| => RevenueBucket(rs[i])))])
  }

  /** Decoding the response built from a list of records gives the list back. */
  lemma RevenuePerCustomerRoundTrip(rs: seq<CustomerRevenueResponse>)
    ensures RevenuePerCustomerReadable(RevenueResponse(rs))
    ensures RevenuePerCustomer(RevenueResponse(rs)) == rs
  {
    var r := RevenuePerCustomer(RevenueResponse(rs));
    forall i | 0 <= i < |rs| ensures r[i] == rs[i] {
      SoftMetricRoundTrip(map[], TotalSpentName, SumKind, rs[i].totalSpent);
    }
  }

  // ---------------------------------------------------------------- top customers by revenue

  predicate TopCustomersReadable(aggs: AggregateMap) {
    STermsBuckets(aggs, RevenuePerCustomerName).Some? ==>
      var bs := STermsBuckets(aggs, RevenuePerCustomerName).value;
      && StringKeyed(bs)
      && forall i :: 0 <= i < |bs| ==> Lookup(bs[i].aggregations, TotalSpentName).Some?
  }

  /** `getTopCustomersByRevenue`: one record per bucket in bucket order; "total_spent" must be
      present in every bucket (no null check precedes `isSum()`), and reads 0 when it is not
      a sum. */
  function TopCustomersByRevenue(aggs: AggregateMap): (r: seq<CustomerRevenue>)
    requires TopCustomersReadable(aggs)
    ensures STermsBuckets(aggs, RevenuePerCustomerName).None? ==> r == []
    ensures STermsBuckets(aggs, RevenuePerCustomerName).Some? ==>
              var bs := STermsBuckets(aggs, RevenuePerCustomerName).value;
              && |r| == |bs|
              && forall i :: 0 <= i < |bs| ==>
                   && r[i].customer == bs[i].key.s
                   && (bs[i].aggregations.value[TotalSpentName].Sum? ==>
                         bs[i].aggregations.value[TotalSpentName] == Sum(r[i].totalSpent))
                   && (!bs[i].aggregations.value[TotalSpentName].Sum? ==> r[i].totalSpent == 0.0)
  {
    match STermsBuckets(aggs, RevenuePerCustomerName)
    case None => []
    case Some(bs) =>
      seq(|bs|, i requires 0 <= i < |bs| =>
        var total := bs[i].aggregations.value[TotalSpentName];
        CustomerRevenue(bs[i].key.s, if total.Sum? then total.value else 0.0))
  }

  /** Wherever both decoders can read the response, the top-customers list is the
      revenue-per-customer list without the order counts. */
  lemma TopCustomersAgreeWithRevenuePerCustomer(aggs: AggregateMap)
    requires TopCustomersReadable(aggs)
    ensures RevenuePerCustomerReadable(aggs)
    ensures var top, rev := TopCustomersByRevenue(aggs), RevenuePerCustomer(aggs);
            && |top| == |rev|
            && forall i :: 0 <= i < |top| ==> top[i] == CustomerRevenue(rev[i].customer, rev[i].totalSpent)
  {
  }

  /** The response listing the given customers, each bucket carrying its "total_spent" sum. */
  function TopCustomersResponse(cs: seq<CustomerRevenue>): AggregateMap {
    Some(map[RevenuePerCustomerName := STerms(seq(|cs|, i requires 0 <= i < |cs| =>
      StringTermsBucket(StringValue(cs[i].customer), 0, Some(map[TotalSpentName := Sum(cs[i].totalSpent)]))))])
  }

  lemma TopCustomersRoundTrip(cs: seq<CustomerRevenue>)
    ensures TopCustomersReadable(TopCustomersResponse(cs))
    ensures TopCustomersByRevenue(TopCustomersResponse(cs)) == cs
  {
  }

  // ---------------------------------------------------------------- customer order stats

  /** What `getCustomerOrderStatsLast30Days` dereferences: when the aggregations are not null,
      "orders_by_customer" is a string-terms aggregation whose buckets have string keys and
      an avg under "avg_order_value" and a max under "max_order_value". */
  predicate CustomerStatsReadable(aggs: AggregateMap) {
    aggs.Some? ==>
      && STermsBuckets(aggs, OrdersByCustomerName).Some?
      && CustomerBucketsReadable(STermsBuckets(aggs, OrdersByCustomerName).value)
  }

  predicate CustomerBucketsReadable(bs: seq<StringTermsBucket>) {
    && StringKeyed(bs)
    && forall i :: 0 <= i < |bs| ==>
         Reports(bs[i].aggregations, AvgOrderValueName, AvgKind) && Reports(bs[i].aggregations, MaxOrderValueName, MaxKind)
  }

  function CustomerStatsEntries(bs: seq<StringTermsBucket>): (es: seq<(string, CustomerOrderStats)>)
    requires CustomerBucketsReadable(bs)
    ensures |es| == |bs|
    ensures forall i :: 0 <= i < |bs| ==>
              && es[i].0 == bs[i].key.s
              && es[i].1.orderCount == bs[i].docCount
              && bs[i].aggregations.value[AvgOrderValueName] == Avg(es[i].1.avgOrderValue)
              && bs[i].aggregations.value[MaxOrderValueName] == Max(es[i].1.maxOrderValue)
  {
    seq(|bs|, i requires 0 <= i < |bs| =>
      (bs[i].key.s, CustomerOrderStats(bs[i].docCount,
                                       StrictMetric(bs[i].aggregations, AvgOrderValueName, AvgKind),
                                       StrictMetric(bs[i].aggregations, MaxOrderValueName, MaxKind))))
  }

  /** `getCustomerOrderStatsLast30Days`: empty for null aggregations; otherwise the map a
      `LinkedHashMap` holds after one `put(customer, stats)` per bucket, which for distinct
      customers is one entry per bucket in bucket order. */
  function CustomerOrderStatsLast30Days(aggs: AggregateMap): (r: LinkedMap<CustomerOrderStats>)
    requires CustomerStatsReadable(aggs)
    ensures aggs.None? ==> r.entries == []
    ensures aggs.Some? ==>
              var bs := STermsBuckets(aggs, OrdersByCustomerName).value;
              && PutsOutcome(CustomerStatsEntries(bs), r)
              && |r.entries| <= |bs|
              && (DistinctBucketKeys(bs) ==>
                    && |r.entries| == |bs|
                    && forall i :: 0 <= i < |bs| ==>
                         && r.entries[i].0 == bs[i].key.s
                         && r.entries[i].1.orderCount == bs[i].docCount
                         && bs[i].aggregations.value[AvgOrderValueName] == Avg(r.entries[i].1.avgOrderValue)
                         && bs[i].aggregations.value[MaxOrderValueName] == Max(r.entries[i].1.maxOrderValue))
  {
    if aggs.None? then Empty()
    else
      var bs := STermsBuckets(aggs, OrdersByCustomerName).value;
      var es := CustomerStatsEntries(bs);
      FromPairsOutcome(es);
      FromPairsDistinct(es);
      FromPairs(es)
  }

  /** The response whose buckets list the given customers and statistics in map order. */
  function CustomerStatsResponse(m: LinkedMap<CustomerOrderStats>): AggregateMap {
    var es := m.entries;
    Some(map[OrdersByCustomerName := STerms(seq(|es|, i requires 0 <= i < |es| =>
      StringTermsBucket(StringValue(es[i].0), es[i].1.orderCount,
        Some(map[AvgOrderValueName := Avg(es[i].1.avgOrderValue), MaxOrderValueName := Max(es[i].1.maxOrderValue)]))))])
  }

  /** Decoding the response built from a map with distinct customers gives the map back. */
  lemma CustomerStatsRoundTrip(m: LinkedMap<CustomerOrderStats>)
    requires DistinctKeys(m)
    ensures CustomerStatsReadable(CustomerStatsResponse(m))
    ensures CustomerOrderStatsLast30Days(CustomerStatsResponse(m)) == m
  {
    var aggs := CustomerStatsResponse(m);
    var bs := STermsBuckets(aggs, OrdersByCustomerName).value;
    assert |bs| == |m.entries|;
    assert CustomerBucketsReadable(bs);
    var es := CustomerStatsEntries(bs);
    forall i | 0 <= i < |es| ensures es[i] == m.entries[i] {
      assert es[i].0 == Keys(m)[i];
    }
    assert es == m.entries;
    forall i, j | 0 <= i < j < |es| ensures es[i].0 != es[j].0 {
      assert Keys(m)[i] != Keys(m)[j];
    }
    FromPairsDistinct(es);
    assert CustomerOrderStatsLast30Days(aggs) == FromPairs(es);
  }

  // ---------------------------------------------------------------- daily sales

  /** What `getDailySalesForCustomer` dereferences: when the aggregations are not null,
      "daily_sales" is a date histogram whose buckets have a sum under "total_sales" and an
      avg under "avg_sales". */
  predicate DailySalesReadable(aggs: AggregateMap) {
    aggs.Some? ==>
      && Lookup(aggs, DailySalesName).Some?
      && aggs.value[DailySalesName].DateHistogram?
      && DateBucketsReadable(aggs.value[DailySalesName].dbuckets)
  }

  predicate DateBucketsReadable(bs: seq<DateHistogramBucket>) {
    forall i :: 0 <= i < |bs| ==>
      Reports(bs[i].aggregations, TotalSalesName, SumKind) && Reports(bs[i].aggregations, AvgSalesName, AvgKind)
  }

  function DailySalesEntries(bs: seq<DateHistogramBucket>): (es: seq<(string, DailySalesStats)>)
    requires DateBucketsReadable(bs)
    ensures |es| == |bs|
    ensures forall i :: 0 <= i < |bs| ==>
              && es[i].0 == bs[i].keyAsString
              && es[i].1.orderCount == bs[i].docCount
              && bs[i].aggregations.value[TotalSalesName] == Sum(es[i].1.totalSales)
              && bs[i].aggregations.value[AvgSalesName] == Avg(es[i].1.avgSales)
  {
    seq(|bs|, i requires 0 <= i < |bs| =>
      (bs[i].keyAsString, DailySalesStats(bs[i].docCount,
                                          StrictMetric(bs[i].aggregations, TotalSalesName, SumKind),
                                          StrictMetric(bs[i].aggregations, AvgSalesName, AvgKind))))
  }

  /** `getDailySalesForCustomer`: empty for null aggregations; otherwise the map after one
      `put(keyAsString, stats)` per date bucket, which for distinct date keys is one entry
      per bucket in chronological (bucket) order. The customer name only shapes the query. */
  function DailySalesForCustomer(aggs: AggregateMap): (r: LinkedMap<DailySalesStats>)
    requires DailySalesReadable(aggs)
    ensures aggs.None? ==> r.entries == []
    ensures aggs.Some? ==>
              var bs := aggs.value[DailySalesName].dbuckets;
              && PutsOutcome(DailySalesEntries(bs), r)
              && |r.entries| <= |bs|
              && ((forall i, j :: 0 <= i < j < |bs| ==> bs[i].keyAsString != bs[j].keyAsString) ==>
                    && |r.entries| == |bs|
                    && forall i :: 0 <= i < |bs| ==>
                         && r.entries[i].0 == bs[i].keyAsString
                         && r.entries[i].1.orderCount == bs[i].docCount
                         && bs[i].aggregations.value[TotalSalesName] == Sum(r.entries[i].1.totalSales)
                         && bs[i].aggregations.value[AvgSalesName] == Avg(r.entries[i].1.avgSales))
  {
    if aggs.None? then Empty()
    else
      var bs := aggs.value[DailySalesName].dbuckets;
      var es := DailySalesEntries(bs);
      FromPairsOutcome(es);
      FromPairsDistinct(es);
      FromPairs(es)
  }

  /** The response whose date buckets list the given days and statistics in map order. */
  function DailySalesResponse(m: LinkedMap<DailySalesStats>): AggregateMap {
    var es := m.entries;
    Some(map[DailySalesName := DateHistogram(seq(|es|, i requires 0 <= i < |es| =>
      DateHistogramBucket(0, es[i].0, es[i].1.orderCount,
        Some(map[TotalSalesName := Sum(es[i].1.totalSales), AvgSalesName := Avg(es[i].1.avgSales)]))))])
  }

  /** Decoding the response built from a map with distinct days gives the map back. */
  lemma DailySalesRoundTrip(m: LinkedMap<DailySalesStats>)
    requires DistinctKeys(m)
    ensures DailySalesReadable(DailySalesResponse(m))
    ensures DailySalesForCustomer(DailySalesResponse(m)) == m
  {
    var aggs := DailySalesResponse(m);
    var bs := aggs.value[DailySalesName].dbuckets;
    forall i, j | 0 <= i < j < |bs| ensures bs[i].keyAsString != bs[j].keyAsString {
      assert Keys(m)[i] != Keys(m)[j];
    }
    var r := DailySalesForCustomer(aggs);
    assert r.entries == m.entries;
  }

  // ---------------------------------------------------------------- category stats

  /** What `getCategoryStatsLast30Days` dereferences: the aggregations are not null (the
      Java method does not check), "orders_by_category" is a string-terms aggregation, and every
      bucket has a string key, a sum under "total_sales", an avg under "avg_sales" and a max
      under "max_sale". */
  predicate CategoryStatsReadable(aggs: AggregateMap) {
    && STermsBuckets(aggs, OrdersByCategoryName).Some?
    && var bs := STermsBuckets(aggs, OrdersByCategoryName).value;
    && StringKeyed(bs)
    && forall i :: 0 <= i < |bs| ==>
         && Reports(bs[i].aggregations, TotalSalesName, SumKind)
         && Reports(bs[i].aggregations, AvgSalesName, AvgKind)
         && Reports(bs[i].aggregations, MaxSaleName, MaxKind)
  }

  /** `getCategoryStatsLast30Days`: one record per bucket in bucket order. The bucket's
      document count is read by the Java method but not kept. */
  function CategoryStatsLast30Days(aggs: AggregateMap): (r: seq<CategoryStats>)
    requires CategoryStatsReadable(aggs)
    ensures var bs := STermsBuckets(aggs, OrdersByCategoryName).value;
            && |r| == |bs|
            && forall i :: 0 <= i < |bs| ==>
                 && r[i].category == bs[i].key.s
                 && bs[i].aggregations.value[TotalSalesName] == Sum(r[i].totalSales)
                 && bs[i].aggregations.value[AvgSalesName] == Avg(r[i].avgSales)
                 && bs[i].aggregations.value[MaxSaleName] == Max(r[i].maxSale)
  {
    var bs := STermsBuckets(aggs, OrdersByCategoryName).value;
    seq(|bs|, i requires 0 <= i < |bs| =>
      CategoryStats(bs[i].key.s,
                    StrictMetric(bs[i].aggregations, TotalSalesName, SumKind),
                    StrictMetric(bs[i].aggregations, AvgSalesName, AvgKind),
                    StrictMetric(bs[i].aggregations, MaxSaleName, MaxKind)))
  }

  /** The response listing the given categories, each bucket with `docCount` documents. */
  function CategoryStatsResponse(cs: seq<CategoryStats>, docCount: Long): AggregateMap {
    Some(map[OrdersByCategoryName := STerms(seq(|cs|, i requires 0 <= i < |cs| =>
      StringTermsBucket(StringValue(cs[i].category), docCount,
        Some(map[TotalSalesName := Sum(cs[i].totalSales), AvgSalesName := Avg(cs[i].avgSales),
                 MaxSaleName := Max(cs[i].maxSale)]))))])
  }

  /** Decoding gives the categories back, whatever document counts the buckets carry. */
  lemma CategoryStatsRoundTrip(cs: seq<CategoryStats>, docCount: Long)
    ensures CategoryStatsReadable(CategoryStatsResponse(cs, docCount))
    ensures CategoryStatsLast30Days(CategoryStatsResponse(cs, docCount)) == cs
  {
  }
}
