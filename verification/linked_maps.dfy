/** Java's `LinkedHashMap<String, V>` as far as the decoders use it: `put` overwrites the
    value of a key already present in place and appends a new key at the end, so iteration
    follows the order in which keys were first inserted. */
module LinkedMaps {
  import opened Wrappers

  datatype LinkedMap<V> = LinkedMap(entries: seq<(string, V)>)

  function Empty<V>(): LinkedMap<V> {
    LinkedMap([])
  }

  /** The first component of each pair, in order. */
  function PairKeys<V>(ps: seq<(string, V)>): (ks: seq<string>)
    ensures |ks| == |ps|
    ensures forall i :: 0 <= i < |ps| ==> ks[i] == ps[i].0
  {
    seq(|ps|, i requires 0 <= i < |ps| => ps[i].0)
  }

  /** The keys of the map in iteration order. */
  function Keys<V>(m: LinkedMap<V>): seq<string> {
    PairKeys(m.entries)
  }

  /** No key occurs twice, the invariant every `LinkedHashMap` keeps. */
  ghost predicate DistinctKeys<V>(m: LinkedMap<V>) {
    forall i, j :: 0 <= i < j < |m.entries| ==> Keys(m)[i] != Keys(m)[j]
  }

  /** Position of the first occurrence of `k` in `ks`, or `|ks|` when it does not occur. */
  function FirstIndex(ks: seq<string>, k: string): (i: nat)
    ensures i <= |ks|
    ensures i < |ks| <==> k in ks
    ensures i < |ks| ==> ks[i] == k
    ensures k !in ks[..i]
  {
    if |ks| == 0 then 0
    else if ks[0] == k then 0
    else
      var j := FirstIndex(ks[1..], k);
      assert ks[..j + 1] == [ks[0]] + ks[1..][..j];
      j + 1
  }

  lemma FirstIndexAppend(ks: seq<string>, x: string)
    ensures forall k :: k in ks ==> FirstIndex(ks + [x], k) == FirstIndex(ks, k)
    ensures x !in ks ==> FirstIndex(ks + [x], x) == |ks|
  {
    forall k | k in ks
      ensures FirstIndex(ks + [x], k) == FirstIndex(ks, k)
    {
      var i := FirstIndex(ks + [x], k);
      var j := FirstIndex(ks, k);
      assert (ks + [x])[..j + 1][j] == k;
    }
  }

  /** `map.get(k)`: the value stored under `k`, or None. */
  function Get<V>(m: LinkedMap<V>, k: string): (r: Option<V>)
    ensures r.Some? <==> k in Keys(m)
  {
    var i := FirstIndex(Keys(m), k);
    if i < |m.entries| then Some(m.entries[i].1) else None
  }

  /** `map.put(k, v)`. */
  function Put<V>(m: LinkedMap<V>, k: string, v: V): (r: LinkedMap<V>)
    ensures Get(r, k) == Some(v)
    ensures forall k' :: k' != k ==> Get(r, k') == Get(m, k')
    ensures k in Keys(m) ==> Keys(r) == Keys(m)
    ensures k !in Keys(m) ==> Keys(r) == Keys(m) + [k]
    ensures DistinctKeys(m) ==> DistinctKeys(r)
  {
    var i := FirstIndex(Keys(m), k);
    if i < |m.entries| then
      PutPresent(m, k, v);
      LinkedMap(m.entries[i := (k, v)])
    else
      PutAbsent(m, k, v);
      LinkedMap(m.entries + [(k, v)])
  }

  /** Overwriting the value of a present key in place. */
  lemma PutPresent<V>(m: LinkedMap<V>, k: string, v: V)
    requires k in Keys(m)
    ensures var r := LinkedMap(m.entries[FirstIndex(Keys(m), k) := (k, v)]);
            && Keys(r) == Keys(m)
            && Get(r, k) == Some(v)
            && (forall k' :: k' != k ==> Get(r, k') == Get(m, k'))
            && (DistinctKeys(m) ==> DistinctKeys(r))
  {
    var i := FirstIndex(Keys(m), k);
    var r := LinkedMap(m.entries[i := (k, v)]);
    assert Keys(r) == Keys(m);
  }

  /** Appending a key that is not present. */
  lemma PutAbsent<V>(m: LinkedMap<V>, k: string, v: V)
    requires k !in Keys(m)
    ensures var r := LinkedMap(m.entries + [(k, v)]);
            && Keys(r) == Keys(m) + [k]
            && Get(r, k) == Some(v)
            && (forall k' :: k' != k ==> Get(r, k') == Get(m, k'))
            && (DistinctKeys(m) ==> DistinctKeys(r))
  {
    var r := LinkedMap(m.entries + [(k, v)]);
    assert Keys(r) == Keys(m) + [k];
    FirstIndexAppend(Keys(m), k);
    forall k' | k' != k ensures Get(r, k') == Get(m, k') {
      if k' in Keys(m) {
        assert FirstIndex(Keys(r), k') == FirstIndex(Keys(m), k');
      } else {
        assert k' !in Keys(r);
      }
    }
    if DistinctKeys(m) {
      forall i, j | 0 <= i < j < |r.entries| ensures Keys(r)[i] != Keys(r)[j] {
        if j == |m.entries| {
          assert Keys(r)[i] == Keys(m)[i];
        }
      }
    }
  }

  /** `Put` of an absent key appends exactly one entry and leaves the others in place. */
  lemma PutAbsentEntries<V>(m: LinkedMap<V>, k: string, v: V)
    requires k !in Keys(m)
    ensures Put(m, k, v).entries == m.entries + [(k, v)]
  {
    assert FirstIndex(Keys(m), k) == |m.entries|;
  }

  /** No key occurs in two of the pairs. */
  predicate NoRepeatedKey<V>(ps: seq<(string, V)>) {
    forall i, j :: 0 <= i < j < |ps| ==> ps[i].0 != ps[j].0
  }

  lemma NoRepeatedKeyPrefix<V>(ps: seq<(string, V)>)
    requires |ps| > 0 && NoRepeatedKey(ps)
    ensures NoRepeatedKey(ps[..|ps| - 1])
  {
    var prefix := ps[..|ps| - 1];
    forall i, j | 0 <= i < j < |prefix| ensures prefix[i].0 != prefix[j].0 {
      assert prefix[i] == ps[i] && prefix[j] == ps[j];
    }
  }

  /** With pairwise distinct keys, the last key does not occur earlier. */
  lemma LastKeyIsNew<V>(ps: seq<(string, V)>)
    requires |ps| > 0
    requires NoRepeatedKey(ps)
    ensures ps[|ps| - 1].0 !in PairKeys(ps[..|ps| - 1])
  {
    var prefix := ps[..|ps| - 1];
    forall i | 0 <= i < |prefix| ensures PairKeys(prefix)[i] != ps[|ps| - 1].0 {
      assert prefix[i] == ps[i];
    }
  }

  /** Putting the same key twice leaves one entry holding the second value. */
  lemma FromPairsRepeatedKey<V>(k: string, x: V, y: V)
    ensures FromPairs([(k, x), (k, y)]).entries == [(k, y)]
  {
    var ps := [(k, x), (k, y)];
    assert ps[..1] == [(k, x)];
    assert ps[..1][..0] == [];
    var first := FromPairs(ps[..1]);
    assert first == Put(Empty(), k, x);
    assert first.entries == [(k, x)];
    assert FromPairs(ps) == Put(first, k, y);
    assert FirstIndex(Keys(first), k) == 0;
  }

  /** The map a fresh `LinkedHashMap` holds after `put(p.0, p.1)` for each pair `p` of `ps` in turn. */
  function FromPairs<V>(ps: seq<(string, V)>): (m: LinkedMap<V>)
    ensures DistinctKeys(m)
    ensures |m.entries| <= |ps|
    decreases |ps|
  {
    if |ps| == 0 then Empty()
    else
      var last := ps[|ps| - 1];
      Put(FromPairs(ps[..|ps| - 1]), last.0, last.1)
  }

  /** The value of the last pair whose key is `k`, scanning `ps` from the end. */
  function LastValue<V>(ps: seq<(string, V)>, k: string): (r: Option<V>)
    ensures r.Some? <==> k in PairKeys(ps)
    decreases |ps|
  {
    if |ps| == 0 then None
    else if ps[|ps| - 1].0 == k then Some(ps[|ps| - 1].1)
    else
      assert PairKeys(ps) == PairKeys(ps[..|ps| - 1]) + [ps[|ps| - 1].0];
      LastValue(ps[..|ps| - 1], k)
  }

  /** What sequential puts of `ps` leave behind, stated without replaying them: keys are
      distinct, each key holds the value of its last pair, and keys are listed in the order
      of their first pair. */
  ghost predicate PutsOutcome<V>(ps: seq<(string, V)>, m: LinkedMap<V>) {
    && DistinctKeys(m)
    && ValuesAreLast(ps, m)
    && OrderedByFirstIndex(Keys(m), PairKeys(ps))
  }

  /** Every key reads the value of its last pair, and only keys of the pairs are present. */
  ghost predicate ValuesAreLast<V>(ps: seq<(string, V)>, m: LinkedMap<V>) {
    forall k :: Get(m, k) == LastValue(ps, k)
  }

  /** One more put keeps the value clause of the description. */
  lemma PutKeepsValues<V>(ps: seq<(string, V)>, m: LinkedMap<V>, k: string, v: V)
    requires ValuesAreLast(ps, m)
    ensures ValuesAreLast(ps + [(k, v)], Put(m, k, v))
  {
    assert (ps + [(k, v)])[..|ps|] == ps;
  }

  /** Keys ordered by where they first occur in `ks`. */
  ghost predicate OrderedByFirstIndex(keys: seq<string>, ks: seq<string>) {
    forall i, j :: 0 <= i < j < |keys| ==> FirstIndex(ks, keys[i]) < FirstIndex(ks, keys[j])
  }

  /** A map whose lookups agree with the pairs lists only keys that occur among the pairs. */
  lemma KeysOccurInPairs<V>(ps: seq<(string, V)>, m: LinkedMap<V>)
    requires ValuesAreLast(ps, m)
    ensures forall x :: x in Keys(m) ==> x in PairKeys(ps)
  {
    forall x | x in Keys(m) ensures x in PairKeys(ps) {
      assert Get(m, x).Some?;
    }
  }

  /** Appending one key to `ks` does not reorder keys that already occur in it, and a key
      new to `ks` comes after all of them. */
  lemma OrderAfterAppend(keys: seq<string>, ks: seq<string>, k: string)
    requires forall x :: x in keys ==> x in ks
    requires OrderedByFirstIndex(keys, ks)
    ensures OrderedByFirstIndex(keys, ks + [k])
    ensures k !in ks ==> OrderedByFirstIndex(keys + [k], ks + [k])
  {
    FirstIndexAppend(ks, k);
    if k !in ks {
      var keys' := keys + [k];
      forall i, j | 0 <= i < j < |keys'|
        ensures FirstIndex(ks + [k], keys'[i]) < FirstIndex(ks + [k], keys'[j])
      {
        assert keys'[i] == keys[i] && keys[i] in ks;
        if j < |keys| {
          assert keys'[j] == keys[j] && keys[j] in ks;
        }
      }
    }
  }

  /** One more put keeps the first-occurrence order of the keys. */
  lemma PutKeepsOrder<V>(ps: seq<(string, V)>, m: LinkedMap<V>, k: string, v: V)
    requires ValuesAreLast(ps, m)
    requires OrderedByFirstIndex(Keys(m), PairKeys(ps))
    ensures OrderedByFirstIndex(Keys(Put(m, k, v)), PairKeys(ps + [(k, v)]))
  {
    var pks := PairKeys(ps);
    assert PairKeys(ps + [(k, v)]) == pks + [k];
    KeysOccurInPairs(ps, m);
    OrderAfterAppend(Keys(m), pks, k);
    if k !in Keys(m) {
      assert Get(m, k).None?;
    }
  }

  /** One more put keeps the whole description: `after` is `ps` with the pair (k, v)
      appended and `m'` is `m` after `put(k, v)`. */
  lemma PutKeepsOutcome<V>(ps: seq<(string, V)>, m: LinkedMap<V>, k: string, v: V,
                           after: seq<(string, V)>, m': LinkedMap<V>)
    requires PutsOutcome(ps, m)
    requires after == ps + [(k, v)] && m' == Put(m, k, v)
    ensures PutsOutcome(after, m')
  {
    PutKeepsValues(ps, m, k, v);
    PutKeepsOrder(ps, m, k, v);
  }

  /** Sequential puts satisfy the declarative description. */
  lemma {:induction false} FromPairsOutcome<V>(ps: seq<(string, V)>)
    ensures PutsOutcome(ps, FromPairs(ps))
    decreases |ps|
  {
    if |ps| > 0 {
      var prefix := ps[..|ps| - 1];
      var last := ps[|ps| - 1];
      assert prefix + [(last.0, last.1)] == ps;
      FromPairsOutcome(prefix);
      PutKeepsOutcome(prefix, FromPairs(prefix), last.0, last.1, ps, FromPairs(ps));
    }
  }

  /** A map listing exactly `prefix`, after `put` of a key new to it, lists `prefix` and then
      the new pair. */
  lemma PutNewKeyEntries<V>(m: LinkedMap<V>, prefix: seq<(string, V)>, last: (string, V),
                            after: seq<(string, V)>, m': LinkedMap<V>)
    requires m.entries == prefix && last.0 !in PairKeys(prefix)
    requires after == prefix + [last] && m' == Put(m, last.0, last.1)
    ensures m'.entries == after
  {
    assert Keys(m) == PairKeys(prefix);
    PutAbsentEntries(m, last.0, last.1);
  }

  /** When no key repeats, the map lists exactly the pairs, in order. */
  lemma {:induction false} FromPairsDistinct<V>(ps: seq<(string, V)>)
    ensures NoRepeatedKey(ps) ==> FromPairs(ps).entries == ps
    decreases |ps|
  {
    if |ps| > 0 && NoRepeatedKey(ps) {
      var prefix := ps[..|ps| - 1];
      var last := ps[|ps| - 1];
      assert prefix + [last] == ps;
      NoRepeatedKeyPrefix(ps);
      FromPairsDistinct(prefix);
      LastKeyIsNew(ps);
      PutNewKeyEntries(FromPairs(prefix), prefix, last, ps, FromPairs(ps));
    }
  }

}
