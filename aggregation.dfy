/** The two `reduce` folds inside `renderCharts` (script.js:161-167 and
    195-201): losses summed per year and per industry into a JavaScript
    object, then read back as chart labels and values. */
module Aggregation {
  import opened Options
  import opened Seqs
  import opened JsNumber
  import opened CsvParser

  /** `item.estimatedLoss` when it is a number. On parsed records (see
      `CsvParser.ParsedWellTyped`) this is exactly `item.estimatedLoss != null`. */
  function LossOf(e: Entry): Option<real> {
    if "estimatedLoss" in e && e["estimatedLoss"].RealVal? then Some(e["estimatedLoss"].r) else None
  }

  /** `item.year` when it is truthy: present and not 0. */
  function YearOf(e: Entry): Option<int> {
    if "year" in e && e["year"].IntVal? && e["year"].i != 0 then Some(e["year"].i) else None
  }

  /** `item.industry` when it is truthy: present and not empty. */
  function IndustryOf(e: Entry): Option<string> {
    if "industry" in e && e["industry"].Text? && e["industry"].s != "" then Some(e["industry"].s) else None
  }

  /** The inclusion guard of a fold: the record has a key and a loss. */
  predicate Counts<K>(e: Entry, key: Entry -> Option<K>) {
    key(e).Some? && LossOf(e).Some?
  }

  /** Reference definition of a bucket: the sum of the losses of the included
      records whose key is `k`. */
  function GroupTotal<K(==)>(data: seq<Entry>, key: Entry -> Option<K>, k: K): real {
    if data == [] then 0.0
    else
      var last := data[|data| - 1];
      GroupTotal(data[..|data| - 1], key, k) +
        (if Counts(last, key) && key(last).value == k then LossOf(last).value else 0.0)
  }

  /** The sum of the losses of all included records. */
  function Total<K>(data: seq<Entry>, key: Entry -> Option<K>): real {
    if data == [] then 0.0
    else
      var last := data[|data| - 1];
      Total(data[..|data| - 1], key) + (if Counts(last, key) then LossOf(last).value else 0.0)
  }

  /** The keys of the included records in order of first appearance: the
      property order `Object.keys` gives the fold's accumulator for keys that
      are not array indices. */
  function FirstSeen<K(==)>(data: seq<Entry>, key: Entry -> Option<K>): seq<K> {
    if data == [] then []
    else
      var last := data[|data| - 1];
      var seen := FirstSeen(data[..|data| - 1], key);
      if Counts(last, key) && key(last).value !in seen then seen + [key(last).value] else seen
  }

  /** The sum of the buckets `ks`. */
  function SumTotals<K(==)>(data: seq<Entry>, key: Entry -> Option<K>, ks: seq<K>): real {
    if ks == [] then 0.0 else GroupTotal(data, key, ks[0]) + SumTotals(data, key, ks[1..])
  }

  /** Some included record carries key `k`. */
  predicate HasKey<K(==)>(data: seq<Entry>, key: Entry -> Option<K>, k: K) {
    exists p :: 0 <= p < |data| && Counts(data[p], key) && key(data[p]) == Some(k)
  }

  // ---------------------------------------------------------------------------
  // The fold

  /** `lossData.reduce((acc, item) => { if (guard) acc[k] = (acc[k] || 0) +
      item.estimatedLoss; return acc; }, {})`, with the accumulator object as
      its insertion-ordered key list `order` and its values `acc`. */
  method GroupLosses<K(==)>(lossData: seq<Entry>, key: Entry -> Option<K>) returns (order: seq<K>, acc: map<K, real>)
    ensures order == FirstSeen(lossData, key)
    ensures forall k :: k in acc <==> k in order
    ensures forall k :: k in acc ==> acc[k] == GroupTotal(lossData, key, k)
    ensures forall k :: k !in acc ==> GroupTotal(lossData, key, k) == 0.0
  {
    order, acc := [], map[];
    for i := 0 to |lossData|
      invariant order == FirstSeen(lossData[..i], key)
      invariant forall k :: k in acc <==> k in order
      invariant forall k :: k in acc ==> acc[k] == GroupTotal(lossData[..i], key, k)
      invariant forall k :: k !in acc ==> GroupTotal(lossData[..i], key, k) == 0.0
    {
      var item := lossData[i];
      ghost var prefix := lossData[..i];
      assert lossData[..i + 1][..i] == prefix;
      assert lossData[..i + 1][i] == item;
      if key(item).Some? && LossOf(item).Some? {
        var k := key(item).value;
        var previous := if k in acc then acc[k] else 0.0;
        assert previous == GroupTotal(prefix, key, k);
        if k !in acc {
          order := order + [k];
        }
        acc := acc[k := previous + LossOf(item).value];
        assert acc[k] == GroupTotal(lossData[..i + 1], key, k);
      }
    }
    assert lossData[..|lossData|] == lossData;
  }

  // ---------------------------------------------------------------------------
  // Properties of the fold

  /** The bucket keys have no duplicates and are exactly the keys of the
      included records. */
  lemma {:induction false} FirstSeenMembers<K>(data: seq<Entry>, key: Entry -> Option<K>)
    ensures NoDup(FirstSeen(data, key))
    ensures forall k :: k in FirstSeen(data, key) <==> HasKey(data, key, k)
  {
    if data != [] {
      var init := data[..|data| - 1];
      FirstSeenMembers(init, key);
      forall k ensures k in FirstSeen(data, key) <==> HasKey(data, key, k) {
        if HasKey(init, key, k) {
          var p :| 0 <= p < |init| && Counts(init[p], key) && key(init[p]) == Some(k);
          assert data[p] == init[p];
        }
        if HasKey(data, key, k) {
          var p :| 0 <= p < |data| && Counts(data[p], key) && key(data[p]) == Some(k);
          if p < |init| {
            assert init[p] == data[p];
          }
        }
      }
    }
  }

  /** Every included record with key `y` comes after some included record
      with key `x`. */
  predicate Precedes<K(==)>(data: seq<Entry>, key: Entry -> Option<K>, x: K, y: K) {
    forall q :: 0 <= q < |data| && Counts(data[q], key) && key(data[q]) == Some(y) ==>
      exists p :: 0 <= p < q && Counts(data[p], key) && key(data[p]) == Some(x)
  }

  /** `ks` lists keys in order of first appearance in `data`. */
  predicate FirstAppearanceOrder<K(==)>(data: seq<Entry>, key: Entry -> Option<K>, ks: seq<K>) {
    forall a, b :: 0 <= a < b < |ks| ==> Precedes(data, key, ks[a], ks[b])
  }

  /** Bucket keys come in order of first appearance: every included record
      with a later key is preceded by an included record with each earlier
      key. */
  lemma {:induction false} FirstSeenOrder<K>(data: seq<Entry>, key: Entry -> Option<K>)
    ensures FirstAppearanceOrder(data, key, FirstSeen(data, key))
  {
    if data != [] {
      var init := data[..|data| - 1];
      FirstSeenOrder(init, key);
      FirstSeenMembers(init, key);
      var fs, fs0 := FirstSeen(data, key), FirstSeen(init, key);
      forall a, b | 0 <= a < b < |fs| ensures Precedes(data, key, fs[a], fs[b]) {
        var x, y := fs[a], fs[b];
        var last := data[|data| - 1];
        assert fs == if Counts(last, key) && key(last).value !in fs0 then fs0 + [key(last).value] else fs0;
        assert x == fs0[a] && x in fs0;
        assert HasKey(init, key, x);
        forall q | 0 <= q < |data| && Counts(data[q], key) && key(data[q]) == Some(y)
          ensures exists p :: 0 <= p < q && Counts(data[p], key) && key(data[p]) == Some(x)
        {
          if b < |fs0| {
            assert y == fs0[b] && y in fs0;
            assert FirstAppearanceOrder(init, key, fs0);
            assert Precedes(init, key, fs0[a], fs0[b]);
            if q < |init| {
              assert init[q] == data[q];
              var p :| 0 <= p < q && Counts(init[p], key) && key(init[p]) == Some(x);
              assert data[p] == init[p];
            } else {
              assert HasKey(init, key, y);
              var q' :| 0 <= q' < |init| && Counts(init[q'], key) && key(init[q']) == Some(y);
              var p :| 0 <= p < q' && Counts(init[p], key) && key(init[p]) == Some(x);
              assert data[p] == init[p];
            }
          } else {
            // `y` is the key of the last record, seen there for the first time.
            assert y !in fs0;
            if q < |init| {
              assert init[q] == data[q];
              assert HasKey(init, key, y);
              assert false;
            }
            var p :| 0 <= p < |init| && Counts(init[p], key) && key(init[p]) == Some(x);
            assert data[p] == init[p];
          }
        }
      }
    }
  }

  /** Adding a record adds its loss to the sum of the buckets `ks` exactly
      when its key is one of them. */
  lemma {:induction false} SumTotalsSnoc<K>(data: seq<Entry>, key: Entry -> Option<K>, ks: seq<K>)
    requires data != [] && NoDup(ks)
    ensures var last := data[|data| - 1];
            SumTotals(data, key, ks) ==
              SumTotals(data[..|data| - 1], key, ks) +
              (if Counts(last, key) && key(last).value in ks then LossOf(last).value else 0.0)
  {
    if ks != [] {
      assert NoDup(ks[1..]);
      SumTotalsSnoc(data, key, ks[1..]);
      var last := data[|data| - 1];
      if Counts(last, key) && key(last).value == ks[0] {
        assert ks[0] !in ks[1..];
      }
      if Counts(last, key) && key(last).value in ks && key(last).value != ks[0] {
        assert key(last).value in ks[1..];
      }
    }
  }

  /** The buckets together hold the whole included loss: summing the buckets
      of any duplicate-free key list that covers every key gives the total of
      the included records. */
  lemma {:induction false} BucketsSumToTotal<K>(data: seq<Entry>, key: Entry -> Option<K>, ks: seq<K>)
    requires NoDup(ks)
    requires forall k :: k in FirstSeen(data, key) ==> k in ks
    ensures SumTotals(data, key, ks) == Total(data, key)
  {
    if data == [] {
      SumTotalsEmpty(key, ks);
    } else {
      var init := data[..|data| - 1];
      var last := data[|data| - 1];
      FirstSeenMembers(init, key);
      FirstSeenMembers(data, key);
      forall k | k in FirstSeen(init, key) ensures k in ks {
        assert HasKey(init, key, k);
        var p :| 0 <= p < |init| && Counts(init[p], key) && key(init[p]) == Some(k);
        assert data[p] == init[p];
        assert HasKey(data, key, k);
      }
      BucketsSumToTotal(init, key, ks);
      SumTotalsSnoc(data, key, ks);
      if Counts(last, key) {
        assert HasKey(data, key, key(last).value);
      }
    }
  }

  lemma {:induction false} SumTotalsEmpty<K>(key: Entry -> Option<K>, ks: seq<K>)
    ensures SumTotals([], key, ks) == 0.0
  {
    if ks != [] {
      SumTotalsEmpty(key, ks[1..]);
    }
  }

  /** A list of bucket values read off in the order of `ks` sums to the
      buckets' sum. */
  lemma {:induction false} SumOfBucketValues<K>(data: seq<Entry>, key: Entry -> Option<K>, ks: seq<K>, values: seq<real>)
    requires |values| == |ks|
    requires forall k :: 0 <= k < |ks| ==> values[k] == GroupTotal(data, key, ks[k])
    ensures Sum(values) == SumTotals(data, key, ks)
  {
    if ks != [] {
      SumOfBucketValues(data, key, ks[1..], values[1..]);
    }
  }

  // ---------------------------------------------------------------------------
  // Losses by year (script.js:161-175)

  function Identity(x: int): int { x }

  /** The line chart's years: the accumulator's keys sorted numerically. */
  function YearLabels(lossData: seq<Entry>): seq<int> {
    SortBy(FirstSeen(lossData, YearOf), Identity)
  }

  /** `lossesByYear`, `sortedYears` and `sortedYears.map(year =>
      lossesByYear[year])`: the years in strictly increasing order, exactly
      the non-zero years of records with a loss, each with the sum of the
      losses of its records; the values together hold the whole included loss. */
  method YearSeries(lossData: seq<Entry>) returns (years: seq<int>, totals: seq<real>)
    ensures years == YearLabels(lossData)
    ensures forall a, b :: 0 <= a < b < |years| ==> years[a] < years[b]
    ensures forall y :: y in years <==> HasKey(lossData, YearOf, y)
    ensures |totals| == |years|
    ensures forall k :: 0 <= k < |years| ==> totals[k] == GroupTotal(lossData, YearOf, years[k])
    ensures Sum(totals) == Total(lossData, YearOf)
  {
    var order, acc := GroupLosses(lossData, YearOf);
    FirstSeenMembers(lossData, YearOf);
    years := SortBy(order, Identity);
    SortBySpec(order, Identity);
    SortedIntsStrictlyIncrease(years, Identity);
    totals := seq(|years|, k requires 0 <= k < |years| => acc[years[k]]);
    SumOfBucketValues(lossData, YearOf, years, totals);
    BucketsSumToTotal(lossData, YearOf, years);
  }

  // ---------------------------------------------------------------------------
  // Losses by industry (script.js:195-209)

  /** A canonical array index: the decimal rendering of an integer in
      `[0, 2^32 - 2]`. `Object.keys` lists such keys first, in ascending
      numeric order. */
  predicate IsArrayIndex(s: string) {
    |s| >= 1 && AllDigits(s) && (s[0] != '0' || |s| == 1) && DigitsValue(s) < 4294967295
  }

  function IndexValue(s: string): int {
    if AllDigits(s) then DigitsValue(s) else 0
  }

  /** The array-index keys of `keys`, in their order. */
  function IndexKeys(keys: seq<string>): seq<string> {
    if keys == [] then []
    else if IsArrayIndex(keys[0]) then [keys[0]] + IndexKeys(keys[1..])
    else IndexKeys(keys[1..])
  }

  /** The other keys of `keys`, in their order. */
  function NamedKeys(keys: seq<string>): seq<string> {
    if keys == [] then []
    else if IsArrayIndex(keys[0]) then NamedKeys(keys[1..])
    else [keys[0]] + NamedKeys(keys[1..])
  }

  /** `IndexKeys` and `NamedKeys` split `keys` into its array-index keys and
      the rest, without losing or repeating a key. */
  lemma {:induction false} KeyPartition(keys: seq<string>)
    ensures forall s :: s in IndexKeys(keys) <==> s in keys && IsArrayIndex(s)
    ensures forall s :: s in NamedKeys(keys) <==> s in keys && !IsArrayIndex(s)
    ensures |IndexKeys(keys)| + |NamedKeys(keys)| == |keys|
    ensures NoDup(keys) ==> NoDup(IndexKeys(keys)) && NoDup(NamedKeys(keys))
  {
    if keys != [] {
      KeyPartition(keys[1..]);
      assert NoDup(keys) ==> NoDup(keys[1..]) && keys[0] !in keys[1..];
    }
  }

  /** `Object.keys` of an object whose properties were created in the order
      `keys`. */
  function ObjectKeys(keys: seq<string>): seq<string> {
    SortBy(IndexKeys(keys), IndexValue) + NamedKeys(keys)
  }

  /** `Object.keys` lists every key exactly once. */
  lemma ObjectKeysMembers(keys: seq<string>)
    requires NoDup(keys)
    ensures |ObjectKeys(keys)| == |keys|
    ensures NoDup(ObjectKeys(keys))
    ensures forall s :: s in ObjectKeys(keys) <==> s in keys
  {
    KeyPartition(keys);
    SortBySpec(IndexKeys(keys), IndexValue);
    var front := SortBy(IndexKeys(keys), IndexValue);
    var back := NamedKeys(keys);
    var r := front + back;
    assert r == ObjectKeys(keys);
    forall a, b | 0 <= a < b < |r| ensures r[a] != r[b] {
      if a < |front| && b >= |front| {
        assert r[a] == front[a] && r[b] == back[b - |front|];
        assert r[a] in front && r[b] in back;
      } else if b < |front| {
        assert r[a] == front[a] && r[b] == front[b];
      } else {
        assert r[a] == back[a - |front|] && r[b] == back[b - |front|];
      }
    }
  }

  /** `Object.keys` lists the array-index keys first, in ascending numeric
      order, and then the other keys in creation order. */
  lemma ObjectKeysOrder(keys: seq<string>)
    requires NoDup(keys)
    ensures |IndexKeys(keys)| <= |ObjectKeys(keys)|
    ensures forall k :: 0 <= k < |IndexKeys(keys)| ==> IsArrayIndex(ObjectKeys(keys)[k])
    ensures SortedBy(ObjectKeys(keys)[..|IndexKeys(keys)|], IndexValue)
    ensures ObjectKeys(keys)[|IndexKeys(keys)|..] == NamedKeys(keys)
  {
    KeyPartition(keys);
    SortBySpec(IndexKeys(keys), IndexValue);
    var front := SortBy(IndexKeys(keys), IndexValue);
    var r := front + NamedKeys(keys);
    assert r == ObjectKeys(keys);
    assert r[..|front|] == front;
    forall k | 0 <= k < |front| ensures IsArrayIndex(r[k]) {
      assert r[k] == front[k] && front[k] in front;
    }
  }

  /** The pie chart's labels: `Object.keys(lossesByIndustry)`. */
  function IndustryLabels(lossData: seq<Entry>): seq<string> {
    ObjectKeys(FirstSeen(lossData, IndustryOf))
  }

  /** `lossesByIndustry` with `Object.keys` and `Object.values`: each non-empty
      industry of a record with a loss appears once, with the sum of the
      losses of the records carrying exactly that industry; records without
      an industry contribute to no bucket; the values together hold the whole
      included loss. */
  method IndustrySeries(lossData: seq<Entry>) returns (labels: seq<string>, values: seq<real>)
    ensures labels == IndustryLabels(lossData)
    ensures NoDup(labels)
    ensures forall s :: s in labels <==> HasKey(lossData, IndustryOf, s)
    ensures |values| == |labels|
    ensures forall k :: 0 <= k < |labels| ==> values[k] == GroupTotal(lossData, IndustryOf, labels[k])
    ensures Sum(values) == Total(lossData, IndustryOf)
  {
    var order, acc := GroupLosses(lossData, IndustryOf);
    FirstSeenMembers(lossData, IndustryOf);
    labels := ObjectKeys(order);
    ObjectKeysMembers(order);
    values := seq(|labels|, k requires 0 <= k < |labels| => acc[labels[k]]);
    SumOfBucketValues(lossData, IndustryOf, labels, values);
    BucketsSumToTotal(lossData, IndustryOf, labels);
  }

  /** A record whose industry is empty or missing adds to no bucket. */
  lemma {:induction false} NoIndustryNoBucket(data: seq<Entry>, e: Entry, s: string)
    requires IndustryOf(e).None?
    ensures GroupTotal(data + [e], IndustryOf, s) == GroupTotal(data, IndustryOf, s)
    ensures FirstSeen(data + [e], IndustryOf) == FirstSeen(data, IndustryOf)
  {
    assert (data + [e])[..|data|] == data;
  }
}
