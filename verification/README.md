# Order aggregation decoding — a Dafny model

This project models the response-decoding half of `OrderPaginationAggregations`, the
Spring service that runs aggregation searches over the `orders_pagination` index. Each of
its twelve public methods builds a fixed query, sends it to Elasticsearch, and then reads
the response's aggregations into a scalar, an insertion-ordered map or a list of result
records. The model covers that last step. The search response is an input value:
`AggregateMap`, a possibly-null map from aggregation name to the client's `Aggregate`
union. The same type holds the sub-aggregations of each bucket.

Modules, leaf first:

- `Wrappers`: `Option`, which stands in for a nullable reference.
- `Numbers`: Java `long`, the `(long)` cast of a double, and `String.valueOf(long)`. The
  cast is stated clause by clause: it truncates toward zero and saturates at both bounds.
  The decimal text is proved against its reference inverse `ParseLongText`. Each number
  has exactly one canonical text: no leading zero and no "-0".
- `Joining`: `Collectors.joining("|")`. `Split` is a reference inverse that shows which
  information the join keeps and which it loses.
- `LinkedMaps`: `LinkedHashMap<String, V>` as a sequence of entries. `put` overwrites a
  present key in place and appends a new key at the end. `PutsOutcome` describes the map
  left after a series of puts without replaying them: keys are distinct, each key holds its
  last value, and keys appear in order of first insertion.
- `Aggregates`: the `Aggregate` union (`ValueCount`, `Sum`, `Avg`, `Min`, `Max`,
  `STerms`, `LTerms`, `MultiTerms`, `DateHistogram`, `Other`) and the four bucket types.
  It also has three ways to read a metric: soft (0 on a miss), null-tolerant (None on a
  miss) and strict (the caller must guarantee the entry).
- `Dto`: the result records.
- `MetricDecoders`: the total order count, total revenue, average order value, min/max
  pair, paid revenue and paid revenue statistics.
- `StatusGrouping`: orders grouped by status. Keys are built per terms variant.
- `BucketProjections`: revenue per customer, top customers by revenue, customer order
  statistics, daily sales and category statistics.

The Java code reads metric values but does no arithmetic on them, so they are `real`.

Each decoder has a partner. Most have a round trip: a response built from a value or
record list decodes back to it. Others have a locality or independence lemma: entries
under other names do not change the result. The grouping decoder is tied to the
declarative `PutsOutcome` description.

Where the Java code dereferences without a check, the model states what the dereference
needs as a precondition; the Java code would throw in those cases. Every such dereference
becomes a precondition. They are:
- `aggs.aggregationsAsMap()` on a null `aggs` in the category statistics method (line 1092).
- `wrapper.aggregation()` on a wrapper that a missing name leaves null (lines 837, 951, 1094).
- `agg.sterms()` and `agg.dateHistogram()` on an aggregate whose variant is not checked
  (lines 850, 955, 1098).
- `key().stringValue()` on a bucket key.
- `aggregations().get(name)` followed by `.isSum()` (lines 722-724) or by
  `.avg()`/`.max()`/`.sum()`.

How the Java code handles missing or unexpected data, which the model follows:

- Only `getRevenuePerCustomer` projects a missing sub-aggregation to 0, and
  `getTopCustomersByRevenue` projects a wrong variant to 0. The customer-statistics,
  daily-sales and category-statistics methods dereference without checking.
- A composite-key part is rendered by the client's `toString` of that part. The model
  takes this rendering as the parameter `render`.
- An unknown aggregate shape gives an empty result in grouping, revenue per customer and
  top customers. The strict methods would throw instead.

## Model

| member | source | states |
|---|---|---|
| Numbers.DoubleToLong | src/main/java/com/spring/elasticsearch/learning/service/OrderPaginationAggregations.java:77 | The `(long)` cast: within range the result is the integer next to the value on the side of zero; beyond the range it saturates at the `long` bounds |
| Numbers.LongText | src/main/java/com/spring/elasticsearch/learning/service/OrderPaginationAggregations.java:326 | `String.valueOf(long)` yields a minus sign exactly for negative numbers, followed by decimal digits with no leading zero: "0" alone, never "05" or "-0" |
| Numbers.Digits | src/main/java/com/spring/elasticsearch/learning/service/OrderPaginationAggregations.java:317 | The decimal digits of a natural number are non-empty, all digits, and begin with '0' only for zero, in which case they are exactly "0" |
| Numbers.DigitsRoundTrip | src/main/java/com/spring/elasticsearch/learning/service/OrderPaginationAggregations.java:317 | Reading the digit string back gives the number |
| Numbers.LongTextRoundTrip | src/main/java/com/spring/elasticsearch/learning/service/OrderPaginationAggregations.java:316-317 | The decimal key text of a long reads back to the same long |
| Numbers.DigitsOfParse | src/main/java/com/spring/elasticsearch/learning/service/OrderPaginationAggregations.java:326 | A digit string with no leading zero is the decimal text of the number it denotes |
| Numbers.CanonicalLongTextUnique | src/main/java/com/spring/elasticsearch/learning/service/OrderPaginationAggregations.java:326 | Every canonical decimal text is the `String.valueOf` text of the long it reads as, so each long has exactly one text |
| Numbers.LongTextInjective | src/main/java/com/spring/elasticsearch/learning/service/OrderPaginationAggregations.java:326 | Distinct long keys get distinct display keys |
| Joining.SplitJoin | src/main/java/com/spring/elasticsearch/learning/service/OrderPaginationAggregations.java:330-332 | Joining separator-free parts with "\|" can be undone by splitting at "\|" |
| Joining.SplitEach | src/main/java/com/spring/elasticsearch/learning/service/OrderPaginationAggregations.java:330-332 | Gives the pieces of every part in order, at least one piece per part |
| Joining.SplitOfSeparated | src/main/java/com/spring/elasticsearch/learning/service/OrderPaginationAggregations.java:332 | A text that holds "\|" is cut into at least two pieces |
| Joining.SplitEachGrows | src/main/java/com/spring/elasticsearch/learning/service/OrderPaginationAggregations.java:330-332 | There are more pieces than parts exactly when some part holds "\|"; this is when the join loses the part boundaries |
| Joining.JoinAppend | src/main/java/com/spring/elasticsearch/learning/service/OrderPaginationAggregations.java:332 | Joining two non-empty part lists in sequence puts one separator between their two joins |
| Joining.SplitUnique | src/main/java/com/spring/elasticsearch/learning/service/OrderPaginationAggregations.java:332 | `Split` of a key is the only non-empty list of separator-free parts that joins to it |
| Joining.SplitAppend | src/main/java/com/spring/elasticsearch/learning/service/OrderPaginationAggregations.java:332 | Cutting a text at a separator placed between two texts cuts each of the two texts on its own |
| Joining.SplitOfJoin | src/main/java/com/spring/elasticsearch/learning/service/OrderPaginationAggregations.java:330-332 | Cutting a join of any non-empty list of parts gives every part's pieces in order, even for parts that contain "\|" |
| Joining.SplitEachSeparatorFree | src/main/java/com/spring/elasticsearch/learning/service/OrderPaginationAggregations.java:330-332 | Parts that contain no separator are their own pieces |
| Joining.JoinSplit | src/main/java/com/spring/elasticsearch/learning/service/OrderPaginationAggregations.java:332 | Joining the pieces of a text gives the text back, so a key is determined by its pieces |
| Joining.JoinInjective | src/main/java/com/spring/elasticsearch/learning/service/OrderPaginationAggregations.java:330-332 | Different non-empty lists of separator-free parts give different composite keys |
| LinkedMaps.FirstIndex | src/main/java/com/spring/elasticsearch/learning/service/OrderPaginationAggregations.java:287 | The reported position holds the key, and the key does not occur before it; the position is the length exactly when the key is absent |
| LinkedMaps.Get | src/main/java/com/spring/elasticsearch/learning/service/OrderPaginationAggregations.java:287 | A lookup finds a value exactly for the keys the map lists |
| LinkedMaps.Put | src/main/java/com/spring/elasticsearch/learning/service/OrderPaginationAggregations.java:321 | After `put(k, v)` the key reads v and all other keys read as before. The key order is unchanged when k was present, otherwise k is appended. Distinct keys stay distinct |
| LinkedMaps.FromPairs | src/main/java/com/spring/elasticsearch/learning/service/OrderPaginationAggregations.java:311-322 | The map after one put per pair has distinct keys and no more entries than pairs |
| LinkedMaps.LastValue | src/main/java/com/spring/elasticsearch/learning/service/OrderPaginationAggregations.java:321 | The last-written value exists exactly for keys that occur among the pairs |
| LinkedMaps.PutKeepsValues | src/main/java/com/spring/elasticsearch/learning/service/OrderPaginationAggregations.java:321 | One more put keeps "every key holds the value of its last pair" |
| LinkedMaps.PutKeepsOrder | src/main/java/com/spring/elasticsearch/learning/service/OrderPaginationAggregations.java:321 | One more put keeps the keys ordered by their first pair |
| LinkedMaps.PutKeepsOutcome | src/main/java/com/spring/elasticsearch/learning/service/OrderPaginationAggregations.java:321 | One more `put` keeps the whole description: distinct keys, each key at its last value, keys in first-occurrence order |
| LinkedMaps.FromPairsOutcome | src/main/java/com/spring/elasticsearch/learning/service/OrderPaginationAggregations.java:311-334 | Sequential puts leave distinct keys ordered by first occurrence, with the value of each key's last pair: a repeated key keeps its place and takes the later value |
| LinkedMaps.FromPairsRepeatedKey | src/main/java/com/spring/elasticsearch/learning/service/OrderPaginationAggregations.java:321 | Putting one key twice leaves a single entry, holding the second value |
| LinkedMaps.FromPairsDistinct | src/main/java/com/spring/elasticsearch/learning/service/OrderPaginationAggregations.java:864 | Whenever no key repeats, the map produced by the puts lists exactly the pairs, in order |
| Aggregates.Lookup | src/main/java/com/spring/elasticsearch/learning/service/OrderPaginationAggregations.java:65-69 | A lookup finds an aggregate exactly when the map is non-null and holds the name, and returns the entry under it |
| Aggregates.KindOf | src/main/java/com/spring/elasticsearch/learning/service/OrderPaginationAggregations.java:73 | An aggregate has a metric kind exactly when it is one of the five single-value variants, and rebuilding it from kind and value gives it back |
| Aggregates.MetricOrNull | src/main/java/com/spring/elasticsearch/learning/service/OrderPaginationAggregations.java:222-229 | The value is non-null exactly when the map reports the requested kind under the name, and then it is that metric's value |
| Aggregates.SoftMetric | src/main/java/com/spring/elasticsearch/learning/service/OrderPaginationAggregations.java:124-138 | A null map, a missing name or a different variant reads as 0; otherwise the result is the reported value |
| Aggregates.SoftMetricLocal | src/main/java/com/spring/elasticsearch/learning/service/OrderPaginationAggregations.java:124-138 | A soft read depends only on the entry under its own name; changing any other entry leaves the result unchanged |
| Aggregates.StrictMetric | src/main/java/com/spring/elasticsearch/learning/service/OrderPaginationAggregations.java:854-857 | When the entry is present with the right variant, the result is its value |
| MetricDecoders.TotalOrdersCount | src/main/java/com/spring/elasticsearch/learning/service/OrderPaginationAggregations.java:65-77 | The result is 0 for null aggregations, a missing "total_orders" or a variant other than value_count; otherwise it is the `(long)` cast of the count |
| MetricDecoders.TotalRevenueFromOrders | src/main/java/com/spring/elasticsearch/learning/service/OrderPaginationAggregations.java:124-138 | The result is the sum reported under "total_revenue", or 0 when the response does not report one |
| MetricDecoders.TotalAverageFromOrders | src/main/java/com/spring/elasticsearch/learning/service/OrderPaginationAggregations.java:170-184 | The result is the avg reported under "avg_order_value", or 0 |
| MetricDecoders.TotalRevenueFromPaidOrders | src/main/java/com/spring/elasticsearch/learning/service/OrderPaginationAggregations.java:480-490 | The result is the sum reported under "paid_revenue", or 0 |
| MetricDecoders.MinAndMaxAmountFromOrders | src/main/java/com/spring/elasticsearch/learning/service/OrderPaginationAggregations.java:213-241 | Null aggregations give (null, null). Otherwise each side is non-null exactly when its own name holds the matching min/max variant, and then it is that value |
| MetricDecoders.PaidRevenueStats | src/main/java/com/spring/elasticsearch/learning/service/OrderPaginationAggregations.java:554-625 | Null aggregations give (0,0,0,0). Otherwise each field is the value its own name reports with the matching variant, or 0 |
| MetricDecoders.TotalOrdersCountRoundTrip | src/main/java/com/spring/elasticsearch/learning/service/OrderPaginationAggregations.java:77 | A whole-number value count decodes to exactly that count |
| MetricDecoders.ScalarDecodersRoundTrip | src/main/java/com/spring/elasticsearch/learning/service/OrderPaginationAggregations.java:124-138 | Total revenue, average and paid revenue each decode the value placed under their own name |
| MetricDecoders.MinMaxSidesIndependent | src/main/java/com/spring/elasticsearch/learning/service/OrderPaginationAggregations.java:216-238 | Replacing the max entry never changes the min side, and replacing the min entry never changes the max side |
| MetricDecoders.MinMaxNullIsNotZero | src/main/java/com/spring/elasticsearch/learning/service/OrderPaginationAggregations.java:219-241 | Missing entries give null sides, while reported zeros give 0 sides |
| MetricDecoders.PaidRevenueStatsFieldsIndependent | src/main/java/com/spring/elasticsearch/learning/service/OrderPaginationAggregations.java:596-622 | Changing the entry under one name changes at most the field read from that name |
| MetricDecoders.PaidStatsTotalMatchesTotalRevenue | src/main/java/com/spring/elasticsearch/learning/service/OrderPaginationAggregations.java:596-601 | The paid statistics read "total_revenue" exactly as the total-revenue decoder does |
| StatusGrouping.STermsKeyText | src/main/java/com/spring/elasticsearch/learning/service/OrderPaginationAggregations.java:313-320 | A string key is used as is. A long key becomes its `String.valueOf` text, which reads back to the long. Any other key kind uses the client's rendering |
| StatusGrouping.Rendered | src/main/java/com/spring/elasticsearch/learning/service/OrderPaginationAggregations.java:331 | One rendered text per key part, in part order |
| StatusGrouping.MultiTermsKeyText | src/main/java/com/spring/elasticsearch/learning/service/OrderPaginationAggregations.java:330-332 | No parts give the empty key. Otherwise splitting the key at "\|" gives every rendered part's pieces in order, which fixes the key. A rendered part that contains "\|" comes back as several pieces, so the parts are recovered exactly when none contains it |
| StatusGrouping.StatusEntries | src/main/java/com/spring/elasticsearch/learning/service/OrderPaginationAggregations.java:308-338 | Only the three terms variants give entries. There is one (display key, doc count) entry per bucket, in bucket order, keyed by the variant's rule |
| StatusGrouping.OrdersGroupedByStatus | src/main/java/com/spring/elasticsearch/learning/service/OrderPaginationAggregations.java:273-340 | Null aggregations, a missing name or another variant give an empty map. Otherwise keys follow first occurrence, a later bucket with an equal key overwrites the count in place, and there are at most as many keys as buckets |
| StatusGrouping.LongTermsGroupingIsLossless | src/main/java/com/spring/elasticsearch/learning/service/OrderPaginationAggregations.java:324-326 | Long-keyed buckets with distinct keys give one entry per bucket, in order, keyed by decimal text |
| StatusGrouping.CollidingKeyTexts | src/main/java/com/spring/elasticsearch/learning/service/OrderPaginationAggregations.java:330-332 | When the client's `toString` shows a string part as the string itself, the one part "a\|b" and the two parts "a" and "b" give the same key text "a\|b". This follows from the splitting law of the key text |
| StatusGrouping.CollidingEntries | src/main/java/com/spring/elasticsearch/learning/service/OrderPaginationAggregations.java:327-334 | When the client's `toString` shows a string part as the string itself, the buckets with key parts ["a\|b"] and ["a","b"] give two entries with the same key text "a\|b" and their own counts |
| StatusGrouping.MultiTermsKeysCanCollide | src/main/java/com/spring/elasticsearch/learning/service/OrderPaginationAggregations.java:327-334 | When the client's `toString` shows a string part as the string itself, two distinct multi-terms buckets can collapse to one entry. That entry keeps the first bucket's position and the second bucket's count |
| BucketProjections.STermsBuckets | src/main/java/com/spring/elasticsearch/learning/service/OrderPaginationAggregations.java:693-701 | Buckets are returned exactly when the map is non-null and the name holds a string-terms aggregate |
| BucketProjections.RevenuePerCustomer | src/main/java/com/spring/elasticsearch/learning/service/OrderPaginationAggregations.java:398-434 | Without string-terms there is an empty list. Otherwise there is one record per bucket in order: customer = key, orderCount = docCount, and totalSpent = the "total_spent" sum, or 0 when that entry is null, absent or not a sum |
| BucketProjections.RevenuePerCustomerRoundTrip | src/main/java/com/spring/elasticsearch/learning/service/OrderPaginationAggregations.java:410-427 | The response built from a record list decodes back to that list |
| BucketProjections.TopCustomersByRevenue | src/main/java/com/spring/elasticsearch/learning/service/OrderPaginationAggregations.java:688-731 | Without string-terms there is an empty list. Otherwise there is one record per bucket in order, with the "total_spent" sum or 0 when it is not a sum. Every bucket must contain "total_spent" |
| BucketProjections.TopCustomersAgreeWithRevenuePerCustomer | src/main/java/com/spring/elasticsearch/learning/service/OrderPaginationAggregations.java:718-729 | On any response top customers can read, the result is revenue per customer without the order counts |
| BucketProjections.TopCustomersRoundTrip | src/main/java/com/spring/elasticsearch/learning/service/OrderPaginationAggregations.java:718-729 | The response built from a customer list decodes back to that list |
| BucketProjections.CustomerStatsEntries | src/main/java/com/spring/elasticsearch/learning/service/OrderPaginationAggregations.java:850-865 | There is one (customer, stats) pair per bucket carrying the doc count and the avg and max of that bucket |
| BucketProjections.CustomerOrderStatsLast30Days | src/main/java/com/spring/elasticsearch/learning/service/OrderPaginationAggregations.java:832-867 | Null aggregations give an empty map. Otherwise the map is the outcome of one put per bucket; with distinct customers it has exactly one entry per bucket, in order, with docCount, avg and max copied |
| BucketProjections.CustomerStatsRoundTrip | src/main/java/com/spring/elasticsearch/learning/service/OrderPaginationAggregations.java:850-865 | The response built from a map with distinct customers decodes back to that map |
| BucketProjections.DailySalesEntries | src/main/java/com/spring/elasticsearch/learning/service/OrderPaginationAggregations.java:955-970 | There is one (keyAsString, stats) pair per date bucket carrying the doc count, sum and avg |
| BucketProjections.DailySalesForCustomer | src/main/java/com/spring/elasticsearch/learning/service/OrderPaginationAggregations.java:946-1003 | Null aggregations give an empty map. Otherwise the map is the outcome of one put per date bucket; with distinct date keys it has exactly one entry per bucket, in order |
| BucketProjections.DailySalesRoundTrip | src/main/java/com/spring/elasticsearch/learning/service/OrderPaginationAggregations.java:955-970 | The response built from a map with distinct days decodes back to that map |
| BucketProjections.CategoryStatsLast30Days | src/main/java/com/spring/elasticsearch/learning/service/OrderPaginationAggregations.java:1091-1109 | There is one record per bucket in order, with category = key and the bucket's sum, avg and max. Non-null aggregations are required because the Java code does not check |
| BucketProjections.CategoryStatsRoundTrip | src/main/java/com/spring/elasticsearch/learning/service/OrderPaginationAggregations.java:1098-1107 | The response built from a category list decodes back to it whatever the doc counts, because the count is read but not kept |

## Left out

- Query construction and the search call. This covers the `Query.of`/`Aggregation.of` builders, field names, bucket sizes, the `now-330d/d` date math and `operations.search`. These are fixed library calls or external I/O, so the response is an input.
- The `System.out.println` calls at lines 227 and 236: console output only.
- The `customerName` parameter of `getDailySalesForCustomer` only shapes the query and does not affect decoding.
- Floating-point behaviour: metric values are reals passed through unchanged. NaN, and a JSON null value that the client may map to a double, are not represented.
- Numbers.DoubleToLong: does not model Java's NaN-to-0 case, because metric values are reals.
- StatusGrouping.CollidingKeyTexts, StatusGrouping.CollidingEntries and StatusGrouping.MultiTermsKeysCanCollide: these show the collision only for a `render` that shows a string part as the string itself. The client's `toString` is not part of this model. A rendering that quotes or escapes string parts would keep these two keys apart.
- `FieldValue.toString()` is client code. It is the parameter `render` of the grouping decoder, used for non-string, non-long string-terms keys and for every multi-terms key part.
- A null `keyAsString` on a date bucket is not modelled; the field is a string.
- Java exceptions (`NullPointerException`, the client's exception for `stringValue()` on a non-string key or for a wrong-variant accessor) are not results. The strict methods require the inputs under which the Java code does not throw.
- `MinMax` is constructed at line 241 with two nullable `Double`s. The model's `MinMax` record has the two matching `Option<real>` fields; the class's own file is not part of this model.
- OrdersPaginationService.java, the controllers, the repository interface and the application class are search-DSL glue, HTTP routing and bootstrap code.
