/** A sharded range query against the unsharded one (pkg/datasource-providers/prom/ctx.go). */
module ShardedQuery {
  import opened Wrappers
  import opened Series
  import opened Windows
  import opened ShardFold
  import opened RangeQuery

  /** The first n instants of the window fall into different seconds, in order. */
  ghost predicate DistinctSeconds(w: Range, n: int) {
    forall i, j :: 0 <= i < j < n ==> Seconds(Instant(w, i)) < Seconds(Instant(w, j))
  }

  lemma StepOfASecond(w: Range, n: int)
    requires w.start >= 0 && w.step >= 1000
    ensures DistinctSeconds(w, n)
  {
    forall i, j | 0 <= i < j < n
      ensures Seconds(Instant(w, i)) < Seconds(Instant(w, j))
    {
      Monotone(i + 1, j, w.step);
      Monotone(0, i, w.step);
      assert (i + 1) * w.step == i * w.step + w.step;
    }
  }

  /** Series k has sample x at grid index j. */
  predicate SampleAt(eval: Oracle, w: Range, k: Labels, j: int, x: Sample) {
    var t := Instant(w, j);
    k in eval(t) && x == Sample(Seconds(t), eval(t)[k])
  }

  lemma {:induction false} SampledMembers(eval: Oracle, w: Range, k: Labels, from: int, n: nat, x: Sample)
    ensures x in ToSamples(Sampled(eval, w, k, from, n)) <==>
            (exists j :: from <= j < from + n && SampleAt(eval, w, k, j, x))
  {
    if n > 0 {
      SampledMembers(eval, w, k, from, n - 1, x);
      SampledNext(eval, w, k, from, n);
      if x in ToSamples(Sampled(eval, w, k, from, n)) && x !in ToSamples(Sampled(eval, w, k, from, n - 1)) {
        assert SampleAt(eval, w, k, from + n - 1, x);
      }
    }
  }

  lemma SampledNext(eval: Oracle, w: Range, k: Labels, from: int, n: nat)
    requires n > 0
    ensures var t := Instant(w, from + n - 1);
            ToSamples(Sampled(eval, w, k, from, n)) ==
            ToSamples(Sampled(eval, w, k, from, n - 1)) +
            if k in eval(t) then [Sample(Seconds(t), eval(t)[k])] else []
  {
  }

  lemma {:induction false} SampledIncreases(eval: Oracle, w: Range, k: Labels, from: nat, n: nat)
    requires DistinctSeconds(w, from + n)
    ensures StrictlyIncreasing(ToSamples(Sampled(eval, w, k, from, n)))
  {
    if n > 0 {
      SampledIncreases(eval, w, k, from, n - 1);
      SampledNext(eval, w, k, from, n);
      var init := ToSamples(Sampled(eval, w, k, from, n - 1));
      forall i | 0 <= i < |init|
        ensures init[i].timestamp < Seconds(Instant(w, from + n - 1))
      {
        SampledMembers(eval, w, k, from, n - 1, init[i]);
      }
    }
  }

  /** Sampling a window that starts on grid index f is sampling the original grid from f on. */
  lemma {:induction false} SampledFrom(eval: Oracle, w: Range, sub: Range, k: Labels, f: int, n: nat)
    requires sub.start == Instant(w, f) && sub.step == w.step
    ensures Sampled(eval, sub, k, 0, n) == Sampled(eval, w, k, f, n)
  {
    if n > 0 {
      SampledFrom(eval, w, sub, k, f, n - 1);
      InstantFrom(w, sub, f, n - 1);
    }
  }

  function ShardData(eval: Oracle, w: Range, limit: int, i: nat): Data
    requires w.step > 0
  {
    RangeResult(eval, Shard(w, limit, i), PointCount(Shard(w, limit, i)))
  }

  lemma ShardDataOnGrid(eval: Oracle, w: Range, limit: int, i: nat, k: Labels)
    requires w.step > 0 && limit > 0 && i < ShardCount(PointCount(w), limit)
    ensures k in ShardData(eval, w, limit, i) <==>
            (exists j: nat :: InShard(w, limit, i, j) && k in eval(Instant(w, j)))
    ensures k in ShardData(eval, w, limit, i) ==>
              ShardData(eval, w, limit, i)[k] ==
              ToSamples(Sampled(eval, w, k, FirstIndex(limit, i), PointCount(Shard(w, limit, i))))
  {
    var sub, f := Shard(w, limit, i), FirstIndex(limit, i);
    var n := PointCount(sub);
    ShardsFollowTheGrid(w, limit, i);
    SampledFrom(eval, w, sub, k, f, n);
    hide FirstIndex, Shard, PointCount;
    forall j: nat
      ensures Instant(sub, j) == Instant(w, f + j)
    {
      InstantFrom(w, sub, f, j);
    }
    if k in ShardData(eval, w, limit, i) {
      var j :| 0 <= j < n && k in eval(Instant(sub, j));
      assert InShard(w, limit, i, f + j);
    }
    if j: nat :| InShard(w, limit, i, j) && k in eval(Instant(w, j)) {
      assert 0 <= j - f < n;
      assert Instant(sub, j - f) == Instant(w, f + (j - f));
    }
  }

  /** The answers of all shards, in the order they arrived. */
  function ShardResults(eval: Oracle, w: Range, limit: int, order: seq<nat>): seq<Data>
    requires w.step > 0
  {
    seq(|order|, i requires 0 <= i < |order| => ShardData(eval, w, limit, order[i]))
  }

  lemma {:induction false} HoldersMembers(shards: seq<Data>, k: Labels, h: seq<Sample>)
    ensures h in Holders(shards, k) <==>
            (exists i :: 0 <= i < |shards| && k in shards[i] && h == shards[i][k])
  {
    if shards != [] {
      HoldersMembers(shards[..|shards| - 1], k, h);
    }
  }

  lemma HoldersAreShards(eval: Oracle, w: Range, limit: int, order: seq<nat>, k: Labels, h: seq<Sample>)
    requires w.step > 0 && limit > 0 && IsArrivalOrder(order, ShardCount(PointCount(w), limit))
    ensures h in Holders(ShardResults(eval, w, limit, order), k) <==>
            (exists i: nat :: i < |order| && k in ShardData(eval, w, limit, i) && h == ShardData(eval, w, limit, i)[k])
  {
    var rs := ShardResults(eval, w, limit, order);
    hide ShardData;
    HoldersMembers(rs, k, h);
    if i: nat :| i < |order| && k in ShardData(eval, w, limit, i) && h == ShardData(eval, w, limit, i)[k] {
      assert i in order;
      var j :| 0 <= j < |order| && order[j] == i;
      assert rs[j] == ShardData(eval, w, limit, i);
    }
  }

  /** What the shards report for a metric, taken together, are its samples at the covered instants. */
  lemma HoldersMeaning(eval: Oracle, w: Range, limit: int, order: seq<nat>, k: Labels, x: Sample)
    requires w.step > 0 && limit > 0 && IsArrivalOrder(order, ShardCount(PointCount(w), limit))
    ensures (exists h :: h in Holders(ShardResults(eval, w, limit, order), k) && x in h) <==>
            (exists j: nat :: j < Covered(w, limit) && SampleAt(eval, w, k, j, x))
  {
    var hs := Holders(ShardResults(eval, w, limit, order), k);
    if h :| h in hs && x in h {
      var j := SampleOfHolder(eval, w, limit, order, k, h, x);
    }
    if j: nat :| j < Covered(w, limit) && SampleAt(eval, w, k, j, x) {
      ShardsHoldThePrefix(w, limit, j);
      var i: nat :| i < |order| && InShard(w, limit, i, j);
      ShardDataOnGrid(eval, w, limit, i, k);
      SampledMembers(eval, w, k, FirstIndex(limit, i), PointCount(Shard(w, limit, i)), x);
      HoldersAreShards(eval, w, limit, order, k, ShardData(eval, w, limit, i)[k]);
    }
  }

  lemma SampleOfHolder(eval: Oracle, w: Range, limit: int, order: seq<nat>, k: Labels, h: seq<Sample>, x: Sample)
    returns (j: nat)
    requires w.step > 0 && limit > 0 && IsArrivalOrder(order, ShardCount(PointCount(w), limit))
    requires h in Holders(ShardResults(eval, w, limit, order), k) && x in h
    ensures j < Covered(w, limit) && SampleAt(eval, w, k, j, x)
  {
    HoldersAreShards(eval, w, limit, order, k, h);
    var i: nat :| i < |order| && k in ShardData(eval, w, limit, i) && h == ShardData(eval, w, limit, i)[k];
    ShardDataOnGrid(eval, w, limit, i, k);
    ShardsFollowTheGrid(w, limit, i);
    SampledMembers(eval, w, k, FirstIndex(limit, i), PointCount(Shard(w, limit, i)), x);
    var g :| FirstIndex(limit, i) <= g < FirstIndex(limit, i) + PointCount(Shard(w, limit, i)) &&
              SampleAt(eval, w, k, g, x);
    j := g;
    ShardsHoldThePrefix(w, limit, j);
    assert InShard(w, limit, i, j);
  }

  lemma HoldersAgree(eval: Oracle, w: Range, limit: int, order: seq<nat>, k: Labels)
    requires w.step > 0 && limit > 0 && IsArrivalOrder(order, ShardCount(PointCount(w), limit))
    requires DistinctSeconds(w, Covered(w, limit))
    ensures Agree(Holders(ShardResults(eval, w, limit, order), k))
    ensures forall h :: h in Holders(ShardResults(eval, w, limit, order), k) ==> StrictlyIncreasing(h)
  {
    var hs := Holders(ShardResults(eval, w, limit, order), k);
    forall h, g, x, y | h in hs && g in hs && x in h && y in g && x.timestamp == y.timestamp
      ensures x.value == y.value
    {
      var i := SampleOfHolder(eval, w, limit, order, k, h, x);
      var j := SampleOfHolder(eval, w, limit, order, k, g, y);
      assert i == j;
    }
    forall h | h in hs
      ensures StrictlyIncreasing(h)
    {
      HoldersAreShards(eval, w, limit, order, k, h);
      var i: nat :| i < |order| && k in ShardData(eval, w, limit, i) && h == ShardData(eval, w, limit, i)[k];
      ShardDataOnGrid(eval, w, limit, i, k);
      ShardsFollowTheGrid(w, limit, i);
      ShardEndsCovered(w, limit, i);
      SampledIncreases(eval, w, k, FirstIndex(limit, i), PointCount(Shard(w, limit, i)));
    }
  }

  lemma KeptMetrics(eval: Oracle, w: Range, limit: int, order: seq<nat>, k: Labels)
    requires w.step > 0 && limit > 0 && IsArrivalOrder(order, ShardCount(PointCount(w), limit))
    ensures Holders(ShardResults(eval, w, limit, order), k) != [] <==> k in Seen(eval, w, Covered(w, limit))
  {
    var hs := Holders(ShardResults(eval, w, limit, order), k);
    if hs != [] {
      HoldersAreShards(eval, w, limit, order, k, hs[0]);
      var i: nat :| i < |order| && k in ShardData(eval, w, limit, i) && hs[0] == ShardData(eval, w, limit, i)[k];
      ShardDataOnGrid(eval, w, limit, i, k);
      var j: nat :| InShard(w, limit, i, j) && k in eval(Instant(w, j));
      ShardsHoldThePrefix(w, limit, j);
    }
    if k in Seen(eval, w, Covered(w, limit)) {
      var j :| 0 <= j < Covered(w, limit) && k in eval(Instant(w, j));
      var t := Instant(w, j);
      HoldersMeaning(eval, w, limit, order, k, Sample(Seconds(t), eval(t)[k]));
      assert SampleAt(eval, w, k, j, Sample(Seconds(t), eval(t)[k]));
    }
  }

  lemma ShardedSeries(eval: Oracle, w: Range, limit: int, order: seq<nat>, k: Labels)
    requires w.step > 0 && limit > 0 && IsArrivalOrder(order, ShardCount(PointCount(w), limit))
    requires DistinctSeconds(w, Covered(w, limit))
    requires Holders(ShardResults(eval, w, limit, order), k) != []
    ensures FoldSeries(Holders(ShardResults(eval, w, limit, order), k)) ==
            ToSamples(Sampled(eval, w, k, 0, Covered(w, limit)))
  {
    var hs := Holders(ShardResults(eval, w, limit, order), k);
    var n := Covered(w, limit);
    hide Covered, FoldSeries, Holders;
    HoldersAgree(eval, w, limit, order, k);
    FoldSeriesMeaning(hs);
    assert hs[0] in hs;
    SampledIncreases(eval, w, k, 0, n);
    forall x
      ensures x in FoldSeries(hs) <==> x in ToSamples(Sampled(eval, w, k, 0, n))
    {
      FoldSeriesMembers(hs, x);
      HoldersMeaning(eval, w, limit, order, k, x);
      SampledMembers(eval, w, k, 0, n, x);
    }
    SameSamples(FoldSeries(hs), ToSamples(Sampled(eval, w, k, 0, n)));
  }

  /** Whatever the data and whatever the order of arrival, folding the shards gives, for every series, exactly
      the unsharded result restricted to the covered instants. */
  lemma ShardedIsRestriction(eval: Oracle, w: Range, limit: int, order: seq<nat>)
    requires w.step > 0 && limit > 0 && IsArrivalOrder(order, ShardCount(PointCount(w), limit))
    requires DistinctSeconds(w, Covered(w, limit))
    ensures Fold(ShardResults(eval, w, limit, order)) == RangeResult(eval, w, Covered(w, limit))
  {
    var rs := ShardResults(eval, w, limit, order);
    hide Covered, Fold, FoldSeries, Holders, ShardResults;
    forall k
      ensures k in Fold(rs) <==> k in RangeResult(eval, w, Covered(w, limit))
      ensures k in Fold(rs) ==> Fold(rs)[k] == RangeResult(eval, w, Covered(w, limit))[k]
    {
      FoldByMetric(rs, k);
      KeptMetrics(eval, w, limit, order, k);
      if Holders(rs, k) != [] {
        ShardedSeries(eval, w, limit, order, k);
      }
    }
  }

  // ---- Exactly when sharding loses nothing ----

  /** One series without labels, present at every instant. */
  function Steady(): Oracle {
    t => map[map[] := 0.0]
  }

  lemma {:induction false} SteadySamples(w: Range, n: nat, i: nat)
    requires i < n
    ensures |ToSamples(Sampled(Steady(), w, map[], 0, n))| == n
    ensures ToSamples(Sampled(Steady(), w, map[], 0, n))[i].timestamp == Seconds(Instant(w, i))
  {
    SampledNext(Steady(), w, map[], 0, n);
    if n > 1 {
      SteadySamples(w, n - 1, if i < n - 1 then i else 0);
    }
  }

  lemma {:induction false} EveryShardHolds(shards: seq<Data>, k: Labels)
    requires forall i :: 0 <= i < |shards| ==> k in shards[i]
    ensures |Holders(shards, k)| == |shards|
  {
    if shards != [] {
      EveryShardHolds(shards[..|shards| - 1], k);
    }
  }

  lemma SteadyIsMerged(w: Range, limit: int, order: seq<nat>)
    requires w.step > 0 && limit > 0 && IsArrivalOrder(order, ShardCount(PointCount(w), limit))
    requires |order| > 1
    ensures map[] in Fold(ShardResults(Steady(), w, limit, order))
    ensures StrictlyIncreasing(Fold(ShardResults(Steady(), w, limit, order))[map[]])
  {
    var rs, k: Labels := ShardResults(Steady(), w, limit, order), map[];
    forall i | 0 <= i < |rs|
      ensures k in rs[i]
    {
      var sub := Shard(w, limit, order[i]);
      ShardsFollowTheGrid(w, limit, order[i]);
      assert k in Steady()(Instant(sub, 0));
    }
    EveryShardHolds(rs, k);
    FoldByMetric(rs, k);
    FoldSeriesMeaning(Holders(rs, k));
  }

  /** With two shards or more, the sharded result equals the unsharded one for all data just when the shards cover
      the window and no two of its instants fall into the same second. */
  lemma LosslessExactlyWhen(w: Range, limit: int, order: seq<nat>)
    requires w.step > 0 && limit > 0 && IsArrivalOrder(order, ShardCount(PointCount(w), limit))
    requires |order| > 1
    ensures (forall eval: Oracle :: Fold(ShardResults(eval, w, limit, order)) == RangeResult(eval, w, PointCount(w))) <==>
            Covered(w, limit) == PointCount(w) && DistinctSeconds(w, PointCount(w))
  {
    var p: nat, k: Labels := PointCount(w), map[];
    CoverageIsExact(w, limit);
    if forall eval: Oracle :: Fold(ShardResults(eval, w, limit, order)) == RangeResult(eval, w, p) {
      var all: Data := RangeResult(Steady(), w, PointCount(w));
      assert Fold(ShardResults(Steady(), w, limit, order)) == all;
      SteadyIsMerged(w, limit, order);
      forall i, j | 0 <= i < j < p
        ensures Seconds(Instant(w, i)) < Seconds(Instant(w, j))
      {
        SteadySamples(w, p, i);
        SteadySamples(w, p, j);
        assert all[k][i].timestamp < all[k][j].timestamp;
      }
      ShardedIsRestriction(Steady(), w, limit, order);
      SteadySamples(w, p, 0);
      SteadySamples(w, Covered(w, limit), 0);
    } else if Covered(w, limit) == p && DistinctSeconds(w, p) {
      var eval: Oracle :| Fold(ShardResults(eval, w, limit, order)) != RangeResult(eval, w, p);
      ShardedIsRestriction(eval, w, limit, order);
      assert false;
    }
  }

  // ---- The whole call ----

  lemma {:induction false} AllSucceed(arrivals: seq<Result<Data>>, values: seq<Data>)
    requires |arrivals| == |values| && forall i :: 0 <= i < |arrivals| ==> arrivals[i] == Ok(values[i])
    ensures Successes(arrivals) == values
  {
    if arrivals != [] {
      var n := |arrivals| - 1;
      AllSucceed(arrivals[..n], values[..n]);
      assert values == values[..n] + [values[n]];
    }
  }

  /** No shard asks for more than the server allows, so every shard is answered from the data. */
  lemma ShardsAreServed(api: Api, eval: Oracle, serverLimit: int, w: Range, limit: int, order: seq<nat>)
    requires w.step > 0 && 0 < limit <= serverLimit && IsArrivalOrder(order, ShardCount(PointCount(w), limit))
    requires Serves(api, eval, serverLimit)
    ensures forall i :: 0 <= i < |order| ==> ShardAnswer(api, Shard(w, limit, i)).Ok?
    ensures Successes(Arrivals(api, Shards(w, limit), order)) == ShardResults(eval, w, limit, order)
  {
    forall i: nat | i < |order|
      ensures ShardAnswer(api, Shard(w, limit, i)) == Ok(ShardData(eval, w, limit, i))
    {
      var sub := Shard(w, limit, i);
      ShardsFollowTheGrid(w, limit, i);
      MatrixByMetric(api(sub).value, eval, sub);
    }
    AllSucceed(Arrivals(api, Shards(w, limit), order), ShardResults(eval, w, limit, order));
  }

  lemma {:induction false} MatrixListed(value: PromValue, eval: Oracle, w: Range, n: nat)
    requires w.step > 0 && IsMatrixOf(value, eval, w) && n <= |value.streams|
    ensures |Listed(value.streams[..n])| == n
    ensures forall i :: 0 <= i < n ==>
              Listed(value.streams[..n])[i] ==
              TimeSeries(value.streams[i].value.metric, ToSamples(value.streams[i].value.values))
  {
    hide Seen, Sampled, PointCount, ToSamples;
    if n > 0 {
      MatrixListed(value, eval, w, n - 1);
      assert value.streams[..n][..n - 1] == value.streams[..n - 1];
    }
  }

  lemma MatrixLists(value: PromValue, eval: Oracle, w: Range)
    requires w.step > 0 && IsMatrixOf(value, eval, w)
    ensures Lists(Listed(value.streams), RangeResult(eval, w, PointCount(w)))
  {
    MatrixListed(value, eval, w, |value.streams|);
    assert value.streams[..|value.streams|] == value.streams;
    var results, m := Listed(value.streams), RangeResult(eval, w, PointCount(w));
    forall k | k in m
      ensures TimeSeries(k, m[k]) in results
    {
      var i :| 0 <= i < |value.streams| && value.streams[i].value.metric == k;
      assert results[i] == TimeSeries(k, m[k]);
    }
  }

  // ---- What the callers get, point by point ----

  /** The server fails on the window, or answers with a kind of value that is not supported. */
  ghost predicate Unanswered(api: Api, w: Range) {
    api(w).Err? || !Supported(api(w).value)
  }

  /** The answer to the window has a series of metric k with a point that the sample is read off from. */
  ghost predicate FromAnswer(api: Api, w: Range, k: Labels, x: Sample) {
    && !Unanswered(api, w)
    && exists i: nat, points, j :: HasSeries(api(w).value, i, k, points) && ReadOffAt(points, j, x)
  }

  ghost predicate ReadOffAt(points: seq<Pair>, j: int, x: Sample) {
    0 <= j < |points| && InSecond(x.timestamp, points[j].timeMs) && x.value == points[j].value
  }

  ghost predicate IsListed(results: seq<TimeSeries>, k: Labels) {
    exists r :: 0 <= r < |results| && results[r].labels == k
  }

  /** Every series is listed once, and is one that an answered shard has, with samples that answered shards have; and
      every series of an answered shard is listed. */
  ghost predicate ListsShards(results: seq<TimeSeries>, api: Api, w: Range, limit: int, n: nat) {
    && (forall i, j :: 0 <= i < j < |results| ==> results[i].labels != results[j].labels)
    && (forall r, x :: 0 <= r < |results| && x in results[r].samples ==>
          exists i :: 0 <= i < n && FromAnswer(api, Shard(w, limit, i), results[r].labels, x))
    && (forall k :: IsListed(results, k) <==> exists i :: 0 <= i < n && Answers(api, Shard(w, limit, i), k))
  }

  ghost predicate Answers(api: Api, w: Range, k: Labels) {
    !Unanswered(api, w) && exists i: nat, points :: HasSeries(api(w).value, i, k, points)
  }

  /** Series k exists at grid index j. */
  ghost predicate ExistsAt(eval: Oracle, w: Range, k: Labels, j: int) {
    k in eval(w.start + j * w.step)
  }

  /** x is the value of series k at grid index j, at the second that the instant is in. */
  ghost predicate IsSampleAt(eval: Oracle, w: Range, k: Labels, j: int, x: Sample) {
    var t := w.start + j * w.step;
    k in eval(t) && x.value == eval(t)[k] && InSecond(x.timestamp, t)
  }

  /** Every series that exists at one of the first n instants of the window is listed once, in the order of time, with a
      sample for each of those instants at which it exists, and no other. */
  ghost predicate ListsInstants(results: seq<TimeSeries>, eval: Oracle, w: Range, n: nat) {
    && (forall i, j :: 0 <= i < j < |results| ==> results[i].labels != results[j].labels)
    && (forall k :: IsListed(results, k) <==> exists j :: 0 <= j < n && ExistsAt(eval, w, k, j))
    && (forall r :: 0 <= r < |results| ==> HasInstants(results[r], eval, w, n))
  }

  ghost predicate HasInstants(ts: TimeSeries, eval: Oracle, w: Range, n: nat) {
    && StrictlyIncreasing(ts.samples)
    && (forall x :: x in ts.samples ==> exists j :: 0 <= j < n && IsSampleAt(eval, w, ts.labels, j, x))
    && (forall j :: 0 <= j < n && ExistsAt(eval, w, ts.labels, j) ==>
          exists x :: x in ts.samples && IsSampleAt(eval, w, ts.labels, j, x))
  }

  lemma SampleIsAt(eval: Oracle, w: Range, k: Labels, j: int, x: Sample)
    ensures SampleAt(eval, w, k, j, x) ==> IsSampleAt(eval, w, k, j, x)
    ensures ExistsAt(eval, w, k, j) ==> exists y :: SampleAt(eval, w, k, j, y)
  {
    if ExistsAt(eval, w, k, j) {
      var t := Instant(w, j);
      assert SampleAt(eval, w, k, j, Sample(Seconds(t), eval(t)[k]));
    }
  }

  lemma SeenAt(eval: Oracle, w: Range, n: nat, k: Labels)
    ensures k in Seen(eval, w, n) <==> (exists j :: 0 <= j < n && ExistsAt(eval, w, k, j))
  {
    if k in Seen(eval, w, n) {
      var j :| 0 <= j < n && k in eval(Instant(w, j));
      assert ExistsAt(eval, w, k, j);
    }
    if j :| 0 <= j < n && ExistsAt(eval, w, k, j) {
      assert k in eval(Instant(w, j));
    }
  }

  lemma SeriesHasInstants(eval: Oracle, w: Range, n: nat, k: Labels)
    requires DistinctSeconds(w, n)
    ensures HasInstants(TimeSeries(k, ToSamples(Sampled(eval, w, k, 0, n))), eval, w, n)
  {
    var samples := ToSamples(Sampled(eval, w, k, 0, n));
    SampledIncreases(eval, w, k, 0, n);
    hide IsSampleAt, SampleAt, ExistsAt, ToSamples, Sampled, DistinctSeconds, StrictlyIncreasing;
    forall x | x in samples
      ensures exists j :: 0 <= j < n && IsSampleAt(eval, w, k, j, x)
    {
      SampledMembers(eval, w, k, 0, n, x);
      var j :| 0 <= j < 0 + n && SampleAt(eval, w, k, j, x);
      SampleIsAt(eval, w, k, j, x);
    }
    forall j | 0 <= j < n && ExistsAt(eval, w, k, j)
      ensures exists x :: x in samples && IsSampleAt(eval, w, k, j, x)
    {
      SampleIsAt(eval, w, k, j, Sample(0, 0.0));
      var x :| SampleAt(eval, w, k, j, x);
      SampleIsAt(eval, w, k, j, x);
      SampledMembers(eval, w, k, 0, n, x);
    }
  }

  lemma RestrictionListsInstants(results: seq<TimeSeries>, eval: Oracle, w: Range, n: nat)
    requires Lists(results, RangeResult(eval, w, n)) && DistinctSeconds(w, n)
    ensures ListsInstants(results, eval, w, n)
  {
    hide HasInstants, ExistsAt, Seen, ToSamples, Sampled, DistinctSeconds;
    var m := RangeResult(eval, w, n);
    forall k
      ensures IsListed(results, k) <==> exists j :: 0 <= j < n && ExistsAt(eval, w, k, j)
    {
      SeenAt(eval, w, n, k);
      if k in m {
        var r :| 0 <= r < |results| && results[r] == TimeSeries(k, m[k]);
      }
    }
    forall r | 0 <= r < |results|
      ensures HasInstants(results[r], eval, w, n)
    {
      SeriesHasInstants(eval, w, n, results[r].labels);
    }
  }

  lemma ShardAnswerHas(api: Api, w: Range, k: Labels)
    ensures ShardAnswer(api, w).Err? <==> Unanswered(api, w)
    ensures ShardAnswer(api, w).Ok? ==> (k in ShardAnswer(api, w).value <==> Answers(api, w, k))
    ensures ShardAnswer(api, w).Ok? && k in ShardAnswer(api, w).value ==>
              forall x :: x in ShardAnswer(api, w).value[k] ==> FromAnswer(api, w, k, x)
  {
    hide HasSeries, ByMetric, ReadOffAt, InSecond;
    if !Unanswered(api, w) {
      ByMetricMapsSeries(api(w).value);
      var m := ByMetric(Streams(api(w).value).value);
      if k in m {
        ByMetricIsLast(Streams(api(w).value).value, k);
        var i: nat :| LastStreamOf(Streams(api(w).value).value, i, k);
        var points := Streams(api(w).value).value[i].value.values;
        SeriesOfStreams(api(w).value, i, k, points);
        forall x | x in m[k]
          ensures FromAnswer(api, w, k, x)
        {
          var j :| 0 <= j < |m[k]| && m[k][j] == x;
          PointOf(points, j);
          assert ReadOffAt(points, j, x);
        }
      }
    }
  }

  lemma PointOf(points: seq<Pair>, j: nat)
    requires j < |points|
    ensures ReadOffAt(points, j, ToSamples(points)[j])
  {
  }

  /** The folded shards, listed, are what answered shards have. */
  lemma FoldListsShards(results: seq<TimeSeries>, api: Api, w: Range, limit: int, order: seq<nat>)
    requires w.step > 0 && limit > 0 && IsArrivalOrder(order, ShardCount(PointCount(w), limit))
    requires Lists(results, Fold(Successes(Arrivals(api, Shards(w, limit), order))))
    ensures ListsShards(results, api, w, limit, |order|)
  {
    hide Fold, Shard, ShardAnswer, Answers, FromAnswer, Successes, FoldSeries, Holders, ShardCount, PointCount;
    var data := Successes(Arrivals(api, Shards(w, limit), order));
    forall k
      ensures IsListed(results, k) <==> exists i :: 0 <= i < |order| && Answers(api, Shard(w, limit, i), k)
    {
      FoldByMetric(data, k);
      HeldByAnswers(api, w, limit, order, k);
      if k in Fold(data) {
        var r :| 0 <= r < |results| && results[r] == TimeSeries(k, Fold(data)[k]);
      }
    }
    forall r, x | 0 <= r < |results| && x in results[r].samples
      ensures exists i :: 0 <= i < |order| && FromAnswer(api, Shard(w, limit, i), results[r].labels, x)
    {
      var k := results[r].labels;
      FoldByMetric(data, k);
      FoldedFrom(Holders(data, k), x);
      var h :| h in Holders(data, k) && x in h;
      var i := HeldFrom(api, w, limit, order, k, h);
      ShardAnswerHas(api, Shard(w, limit, i), k);
    }
  }

  lemma {:induction false} SuccessesAre(arrivals: seq<Result<Data>>, d: Data)
    ensures d in Successes(arrivals) <==> (exists i :: 0 <= i < |arrivals| && arrivals[i] == Ok(d))
  {
    if arrivals != [] {
      SuccessesAre(arrivals[..|arrivals| - 1], d);
    }
  }

  /** Whatever is held for a metric was answered by some shard. */
  lemma HeldFrom(api: Api, w: Range, limit: int, order: seq<nat>, k: Labels, h: seq<Sample>) returns (i: nat)
    requires w.step > 0 && limit > 0 && IsArrivalOrder(order, ShardCount(PointCount(w), limit))
    requires h in Holders(Successes(Arrivals(api, Shards(w, limit), order)), k)
    ensures i < |order|
    ensures var answer := ShardAnswer(api, Shard(w, limit, i)); answer.Ok? && k in answer.value && answer.value[k] == h
  {
    hide ShardAnswer, Shard, Successes, Holders, ShardCount, PointCount;
    var arrivals := Arrivals(api, Shards(w, limit), order);
    HoldersMembers(Successes(arrivals), k, h);
    var p :| 0 <= p < |Successes(arrivals)| && k in Successes(arrivals)[p] && h == Successes(arrivals)[p][k];
    SuccessesAre(arrivals, Successes(arrivals)[p]);
    var q :| 0 <= q < |arrivals| && arrivals[q] == Ok(Successes(arrivals)[p]);
    i := order[q];
    assert Shards(w, limit)[i] == Shard(w, limit, i);
  }

  lemma HeldByAnswers(api: Api, w: Range, limit: int, order: seq<nat>, k: Labels)
    requires w.step > 0 && limit > 0 && IsArrivalOrder(order, ShardCount(PointCount(w), limit))
    ensures Holders(Successes(Arrivals(api, Shards(w, limit), order)), k) != [] <==>
            (exists i :: 0 <= i < |order| && Answers(api, Shard(w, limit, i), k))
  {
    hide ShardAnswer, Shard, Successes, Holders, Answers, ShardCount, PointCount;
    var arrivals := Arrivals(api, Shards(w, limit), order);
    var hs := Holders(Successes(arrivals), k);
    if hs != [] {
      assert hs[0] in hs;
      var i := HeldFrom(api, w, limit, order, k, hs[0]);
      ShardAnswerHas(api, Shard(w, limit, i), k);
    }
    if i :| 0 <= i < |order| && Answers(api, Shard(w, limit, i), k) {
      ShardAnswerHas(api, Shard(w, limit, i), k);
      AnswersAreAnswered(api, Shard(w, limit, i), k);
      var d := ShardAnswer(api, Shard(w, limit, i)).value;
      assert i in order;
      var q :| 0 <= q < |order| && order[q] == i;
      assert Shards(w, limit)[i] == Shard(w, limit, i);
      assert arrivals[q] == Ok(d);
      SuccessesAre(arrivals, d);
      HoldersMembers(Successes(arrivals), k, d[k]);
      assert d[k] in hs;
    }
  }

  lemma AnswersAreAnswered(api: Api, w: Range, k: Labels)
    requires Answers(api, w, k)
    ensures !Unanswered(api, w)
  {
  }

  /** The range query as callers see it. `order` is the order in which the shards happen to finish. Against a server
      that answers from `eval` and enforces at least the client's own limit, the call never fails and lists every
      series once, with exactly its samples at the covered instants. */
  method QueryRangeSync(api: Api, w: Range, limit: int, order: seq<nat>, ghost eval: Oracle, ghost serverLimit: int)
    returns (results: seq<TimeSeries>, err: Option<string>)
    requires w.step > 0 && limit > 0 && IsArrivalOrder(order, ShardCount(PointCount(w), limit))
    ensures |order| <= 1 ==> (err.Some? <==> Unanswered(api, w))
    ensures |order| <= 1 ==> if err.Some? then results == [] else ListsSeries(api(w).value, results)
    ensures |order| > 1 ==> (err.Some? <==> exists i :: 0 <= i < |order| && Unanswered(api, Shard(w, limit, i)))
    ensures |order| > 1 ==> ListsShards(results, api, w, limit, |order|)
    ensures |order| > 1 ==> Lists(results, Fold(Successes(Arrivals(api, Shards(w, limit), order))))
    ensures Serves(api, eval, serverLimit) && limit <= serverLimit && DistinctSeconds(w, Covered(w, limit)) ==>
              && err.None?
              && Lists(results, RangeResult(eval, w, Covered(w, limit)))
              && ListsInstants(results, eval, w, Covered(w, limit))
  {
    hide Serves, DistinctSeconds, Covered, Fold, Successes, Listed, RangeResult, Streams, ShardAnswer, Lists, Unanswered;
    hide ShardResults, Arrivals, ListsSeries, ListsShards, ListsInstants;
    var shards := ComputeWindowShards(w, limit);
    if |shards| <= 1 {
      if Serves(api, eval, serverLimit) && limit <= serverLimit && DistinctSeconds(w, Covered(w, limit)) {
        OneShardIsEnough(api, eval, serverLimit, w, limit);
        RestrictionListsInstants(Listed(api(w).value.streams), eval, w, Covered(w, limit));
      }
      UnansweredOne(api, w);
      match api(w) {
        case Err(e) => return [], Some(e);
        case Ok(value) =>
          var r := ConvertPromResultsToTimeSeries(value);
          match r {
            case Err(e) => return [], Some(e);
            case Ok(list) => return list, None;
          }
      }
    }
    results, err := QueryByShards(api, shards, order);
    assert |order| == |shards| && forall i :: 0 <= i < |order| ==> shards[i] == Shard(w, limit, i);
    FoldListsShards(results, api, w, limit, order);
    hide Shards, Shard, ShardCount, PointCount;
    forall i | 0 <= i < |order|
      ensures ShardAnswer(api, Shard(w, limit, i)).Err? <==> Unanswered(api, Shard(w, limit, i))
    {
      ShardAnswerHas(api, Shard(w, limit, i), map[]);
    }
    if Serves(api, eval, serverLimit) && limit <= serverLimit && DistinctSeconds(w, Covered(w, limit)) {
      ShardsAreServed(api, eval, serverLimit, w, limit, order);
      ShardedIsRestriction(eval, w, limit, order);
      RestrictionListsInstants(results, eval, w, Covered(w, limit));
    }
  }

  lemma UnansweredOne(api: Api, w: Range)
    ensures Unanswered(api, w) <==> api(w).Err? || !Supported(api(w).value)
  {
  }

  lemma OneShardIsEnough(api: Api, eval: Oracle, serverLimit: int, w: Range, limit: int)
    requires w.step > 0 && 0 < limit <= serverLimit && ShardCount(PointCount(w), limit) <= 1
    requires Serves(api, eval, serverLimit)
    ensures Covered(w, limit) == PointCount(w)
    ensures api(w).Ok? && api(w).value.Matrix? && Streams(api(w).value) == Ok(api(w).value.streams)
    ensures Lists(Listed(api(w).value.streams), RangeResult(eval, w, PointCount(w)))
  {
    ShardCountRoundsUp(PointCount(w), limit);
    CoverageIsExact(w, limit);
    MatrixLists(api(w).value, eval, w);
  }
}
