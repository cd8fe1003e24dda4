/** `getOrdersGroupedByStatus`: the terms aggregation "orders_by_status" decoded into an
    insertion-ordered map from display key to document count. */
module StatusGrouping {
  import opened Wrappers
  import opened Numbers
  import opened Aggregates
  import opened Joining
  import opened LinkedMaps

  const OrdersByStatusName := "orders_by_status"

  /** Display key of a string-terms bucket: the string itself, the decimal text of a long,
      and for any other key kind the client's own rendering `render`. */
  function STermsKeyText(key: FieldValue, render: FieldValue -> string): (s: string)
    ensures key.StringValue? ==> s == key.s
    ensures key.LongValue? ==> s == LongText(key.n) && ParseLongText(s) == key.n
    ensures !key.StringValue? && !key.LongValue? ==> s == render(key)
  {
    match key
    case StringValue(str) => str
    case LongValue(n) => LongTextRoundTrip(n); LongText(n)
    case _ => render(key)
  }

  /** The client's rendering of each key part, in order. */
  function Rendered(parts: seq<FieldValue>, render: FieldValue -> string): (texts: seq<string>)
    ensures |texts| == |parts|
    ensures forall i :: 0 <= i < |parts| ==> texts[i] == render(parts[i])
  {
    seq(|parts|, i requires 0 <= i < |parts| => render(parts[i]))
  }

  /** Display key of a multi-terms bucket: each part rendered by the client, joined by '|'.
      No parts give the empty key. Otherwise cutting the key at every '|' gives the pieces
      of each rendered part in turn, which fixes the key (`JoinSplit`). A part whose
      rendering contains '|' comes back as several pieces, so the parts are recovered
      exactly when no rendering contains the separator. */
  function MultiTermsKeyText(parts: seq<FieldValue>, render: FieldValue -> string): (s: string)
    ensures |parts| == 0 ==> s == ""
    ensures |parts| >= 1 ==> Split(s) == SplitEach(Rendered(parts, render))
    ensures |parts| >= 1 && (forall i :: 0 <= i < |parts| ==> Separator !in render(parts[i])) ==>
              |Split(s)| == |parts| && forall i :: 0 <= i < |parts| ==> Split(s)[i] == render(parts[i])
  {
    var texts := Rendered(parts, render);
    SplitOfJoin(texts);
    SplitEachSeparatorFree(texts);
    Join(texts)
  }

  /** The (display key, doc count) of every bucket, in bucket order, for the three terms
      variants; None for every other variant. */
  function StatusEntries(a: Aggregate, render: FieldValue -> string): (r: Option<seq<(string, Long)>>)
    ensures r.Some? <==> a.STerms? || a.LTerms? || a.MultiTerms?
    ensures a.STerms? ==> |r.value| == |a.sbuckets| && forall i :: 0 <= i < |a.sbuckets| ==>
              r.value[i] == (STermsKeyText(a.sbuckets[i].key, render), a.sbuckets[i].docCount)
    ensures a.LTerms? ==> |r.value| == |a.lbuckets| && forall i :: 0 <= i < |a.lbuckets| ==>
              r.value[i] == (LongText(a.lbuckets[i].key), a.lbuckets[i].docCount)
    ensures a.MultiTerms? ==> |r.value| == |a.mbuckets| && forall i :: 0 <= i < |a.mbuckets| ==>
              r.value[i] == (MultiTermsKeyText(a.mbuckets[i].key, render), a.mbuckets[i].docCount)
  {
    match a
    case STerms(bs) =>
      Some(seq(|bs|, i requires 0 <= i < |bs| => (STermsKeyText(bs[i].key, render), bs[i].docCount)))
    case LTerms(bs) =>
      Some(seq(|bs|, i requires 0 <= i < |bs| => (LongText(bs[i].key), bs[i].docCount)))
    case MultiTerms(bs) =>
      Some(seq(|bs|, i requires 0 <= i < |bs| => (MultiTermsKeyText(bs[i].key, render), bs[i].docCount)))
    case _ => None
  }

  /** The grouping result: empty for null aggregations, a missing name or a variant that is
      not a terms aggregation; otherwise what a `LinkedHashMap` holds after one `put` per
      bucket in bucket order, so keys appear in order of first occurrence, a repeated key
      keeps its place and takes the later count, and there are no more keys than buckets. */
  function OrdersGroupedByStatus(aggs: AggregateMap, render: FieldValue -> string): (r: LinkedMap<Long>)
    ensures Lookup(aggs, OrdersByStatusName).None? ==> r.entries == []
    ensures Lookup(aggs, OrdersByStatusName).Some? ==>
              var es := StatusEntries(aggs.value[OrdersByStatusName], render);
              && (es.None? ==> r.entries == [])
              && (es.Some? ==> PutsOutcome(es.value, r) && |r.entries| <= |es.value|)
  {
    match Lookup(aggs, OrdersByStatusName)
    case None => Empty()
    case Some(a) =>
      match StatusEntries(a, render)
      case None => Empty()
      case Some(es) => FromPairsOutcome(es); FromPairs(es)
  }

  /** Long-keyed buckets with distinct keys lose nothing: one entry per bucket, in bucket
      order, keyed by the decimal text of the bucket key. */
  lemma LongTermsGroupingIsLossless(bs: seq<LongTermsBucket>, render: FieldValue -> string)
    requires forall i, j :: 0 <= i < j < |bs| ==> bs[i].key != bs[j].key
    ensures var r := OrdersGroupedByStatus(Some(map[OrdersByStatusName := LTerms(bs)]), render);
            && |r.entries| == |bs|
            && forall i :: 0 <= i < |bs| ==> r.entries[i] == (LongText(bs[i].key), bs[i].docCount)
  {
    var aggs := Some(map[OrdersByStatusName := LTerms(bs)]);
    var es := StatusEntries(LTerms(bs), render).value;
    assert Lookup(aggs, OrdersByStatusName) == Some(LTerms(bs));
    forall i, j | 0 <= i < j < |es| ensures es[i].0 != es[j].0 {
      LongTextInjective(bs[i].key, bs[j].key);
    }
    FromPairsDistinct(es);
    assert OrdersGroupedByStatus(aggs, render).entries == es;
  }

  /** With a `toString` that shows a string as itself, the one part "a|b" and the two parts
      "a" and "b" join to the same key text. */
  lemma CollidingKeyTexts(render: FieldValue -> string)
    requires forall s: string :: render(StringValue(s)) == s
    ensures MultiTermsKeyText([StringValue("a|b")], render) == "a|b"
    ensures MultiTermsKeyText([StringValue("a"), StringValue("b")], render) == "a|b"
  {
    var one := [StringValue("a|b")];
    var two := [StringValue("a"), StringValue("b")];
    var k1 := MultiTermsKeyText(one, render);
    var k2 := MultiTermsKeyText(two, render);
    assert Rendered(one, render) == ["a|b"];
    assert Rendered(two, render) == ["a", "b"];
    assert "a|b" == "a" + [Separator] + "b";
    SplitAppend("a", "b");
    assert SplitEach(["a|b"]) == Split("a") + Split("b") + SplitEach([]);
    assert SplitEach(["a", "b"]) == Split("a") + (Split("b") + SplitEach([]));
    JoinSplit(k1);
    JoinSplit(k2);
    JoinSplit("a|b");
  }

  /** The two colliding buckets give two entries under the same key text. */
  lemma CollidingEntries(render: FieldValue -> string)
    requires forall s: string :: render(StringValue(s)) == s
    ensures var b1 := MultiTermsBucket([StringValue("a|b")], 3, None);
            var b2 := MultiTermsBucket([StringValue("a"), StringValue("b")], 4, None);
            StatusEntries(MultiTerms([b1, b2]), render) == Some([("a|b", 3), ("a|b", 4)])
  {
    var b1 := MultiTermsBucket([StringValue("a|b")], 3, None);
    var b2 := MultiTermsBucket([StringValue("a"), StringValue("b")], 4, None);
    CollidingKeyTexts(render);
    var es: seq<(string, Long)> := [("a|b", 3), ("a|b", 4)];
    var r := StatusEntries(MultiTerms([b1, b2]), render);
    assert |r.value| == 2 && r.value[0] == es[0] && r.value[1] == es[1];
    assert r.value == es;
  }

  /** Two different multi-terms buckets can share a display key ("a|b" as one part, and the
      parts "a" and "b"); the map then holds one entry, at the first bucket's position, with
      the second bucket's count. */
  lemma MultiTermsKeysCanCollide(render: FieldValue -> string)
    requires forall s: string :: render(StringValue(s)) == s
    ensures var b1 := MultiTermsBucket([StringValue("a|b")], 3, None);
            var b2 := MultiTermsBucket([StringValue("a"), StringValue("b")], 4, None);
            OrdersGroupedByStatus(Some(map[OrdersByStatusName := MultiTerms([b1, b2])]), render).entries
              == [("a|b", 4)]
  {
    var b1 := MultiTermsBucket([StringValue("a|b")], 3, None);
    var b2 := MultiTermsBucket([StringValue("a"), StringValue("b")], 4, None);
    var aggs := Some(map[OrdersByStatusName := MultiTerms([b1, b2])]);
    CollidingEntries(render);
    assert Lookup(aggs, OrdersByStatusName) == Some(MultiTerms([b1, b2]));
    FromPairsRepeatedKey("a|b", 3 as Long, 4 as Long);
  }
}
