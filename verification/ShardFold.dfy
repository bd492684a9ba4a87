/** Folding shard results, in the order they arrive, into one series per metric
    (pkg/datasource-providers/prom/ctx.go). */
module ShardFold {
  import opened Wrappers
  import opened Series
  import opened Merge

  /** The result of one shard: map[string]*TimeSeries, keyed by the metric's labels. */
  type Data = map<Labels, seq<Sample>>

  function Insert(x: Sample, s: seq<Sample>): seq<Sample> {
    if s == [] || x.timestamp <= s[0].timestamp then [x] + s else [s[0]] + Insert(x, s[1..])
  }

  /** TimeSeries.SortSampleAsc. */
  function SortAsc(s: seq<Sample>): seq<Sample> {
    if s == [] then [] else Insert(s[0], SortAsc(s[1..]))
  }

  lemma {:induction false} InsertKeepsOrder(x: Sample, s: seq<Sample>, t: int)
    requires Sorted(s)
    ensures Sorted(Insert(x, s))
    ensures Insert(x, s) != [] && (Insert(x, s)[0] == x || (s != [] && Insert(x, s)[0] == s[0]))
    ensures Lookup(Insert(x, s), t) == if x.timestamp == t then Some(x.value) else Lookup(s, t)
  {
    if s == [] || x.timestamp <= s[0].timestamp {
      assert ([x] + s)[1..] == s;
    } else {
      InsertKeepsOrder(x, s[1..], t);
      var r := Insert(x, s[1..]);
      assert ([s[0]] + r)[1..] == r;
    }
  }

  lemma {:induction false} InsertAddsOne(x: Sample, s: seq<Sample>)
    ensures multiset(Insert(x, s)) == multiset{x} + multiset(s)
  {
    if s != [] && x.timestamp > s[0].timestamp {
      InsertAddsOne(x, s[1..]);
      assert s == [s[0]] + s[1..];
    }
  }

  /** Sorting is a permutation, orders by time, and keeps the first sample of every timestamp first. */
  lemma {:induction false} SortMeaning(s: seq<Sample>, t: int)
    ensures Sorted(SortAsc(s)) && multiset(SortAsc(s)) == multiset(s)
    ensures Lookup(SortAsc(s), t) == Lookup(s, t)
  {
    if s != [] {
      SortMeaning(s[1..], t);
      InsertKeepsOrder(s[0], SortAsc(s[1..]), t);
      InsertAddsOne(s[0], SortAsc(s[1..]));
      assert s == [s[0]] + s[1..];
    }
  }

  function MergeTwo(a: seq<Sample>, b: seq<Sample>): seq<Sample> {
    Merged(SortAsc(a), SortAsc(b))
  }

  lemma MergeTwoMeaning(a: seq<Sample>, b: seq<Sample>)
    ensures UnionPreferringFirst(MergeTwo(a, b), a, b)
  {
    SortMeaning(a, 0);
    SortMeaning(b, 0);
    MergeMeaning(SortAsc(a), SortAsc(b));
    forall t
      ensures Lookup(MergeTwo(a, b), t) == OrElse(Lookup(a, t), Lookup(b, t))
    {
      SortMeaning(a, t);
      SortMeaning(b, t);
    }
  }

  function Absorb(results: Data, shard: Data): Data {
    map k | k in results.Keys + shard.Keys ::
      if k in results && k in shard then MergeTwo(results[k], shard[k])
      else if k in results then results[k] else shard[k]
  }

  lemma AbsorbAt(results: Data, shard: Data, k: Labels)
    ensures k in Absorb(results, shard) <==> k in results || k in shard
    ensures k in Absorb(results, shard) ==>
              Absorb(results, shard)[k] ==
              if k !in shard then results[k] else if k !in results then shard[k] else MergeTwo(results[k], shard[k])
  {
  }

  function Fold(shards: seq<Data>): Data {
    if shards == [] then map[] else Absorb(Fold(shards[..|shards| - 1]), shards[|shards| - 1])
  }

  function Successes(arrivals: seq<Result<Data>>): seq<Data> {
    if arrivals == [] then []
    else
      var last := arrivals[|arrivals| - 1];
      Successes(arrivals[..|arrivals| - 1]) + if last.Ok? then [last.value] else []
  }

  function Errors(arrivals: seq<Result<Data>>): seq<string> {
    if arrivals == [] then []
    else
      var last := arrivals[|arrivals| - 1];
      Errors(arrivals[..|arrivals| - 1]) + if last.Err? then [last.error] else []
  }

  lemma FoldNext(shards: seq<Data>, next: Data)
    ensures Fold(shards + [next]) == Absorb(Fold(shards), next)
  {
    assert (shards + [next])[..|shards|] == shards;
  }

  /** Drain the channel of shard results; within a shard the keys come in no particular order. */
  method Drain(arrivals: seq<Result<Data>>) returns (resultsMap: Data, errs: seq<string>)
    ensures resultsMap == Fold(Successes(arrivals)) && errs == Errors(arrivals)
  {
    errs := [];
    resultsMap := map[];
    for n := 0 to |arrivals|
      invariant resultsMap == Fold(Successes(arrivals[..n])) && errs == Errors(arrivals[..n])
    {
      assert arrivals[..n + 1][..n] == arrivals[..n];
      match arrivals[n] {
        case Err(e) =>
          errs := errs + [e];
          assert Successes(arrivals[..n + 1]) == Successes(arrivals[..n]);
        case Ok(data) =>
          FoldNext(Successes(arrivals[..n]), data);
          assert Successes(arrivals[..n + 1]) == Successes(arrivals[..n]) + [data];
          assert Errors(arrivals[..n + 1]) == Errors(arrivals[..n]);
          resultsMap := DrainOne(resultsMap, data);
      }
    }
    assert arrivals[..|arrivals|] == arrivals;
  }

  method DrainOne(soFar: Data, data: Data) returns (resultsMap: Data)
    ensures resultsMap == Absorb(soFar, data)
  {
    resultsMap := soFar;
    ghost var goal := Absorb(soFar, data);
    hide Absorb;
    var keys := data.Keys;
    while keys != {}
      invariant keys <= data.Keys
      invariant resultsMap.Keys == soFar.Keys + (data.Keys - keys)
      invariant forall k :: k in data.Keys - keys ==> k in goal && resultsMap[k] == goal[k]
      invariant forall k :: k in soFar && k !in data.Keys - keys ==> resultsMap[k] == soFar[k]
      decreases keys
    {
      var key :| key in keys;
      AbsorbAt(soFar, data, key);
      if key in resultsMap {
        var ts1, ts2 := SortAsc(resultsMap[key]), SortAsc(data[key]);
        var ts := MergeSortedTimeSeries(TimeSeries(key, ts1), TimeSeries(key, ts2));
        resultsMap := resultsMap[key := ts.samples];
      } else {
        resultsMap := resultsMap[key := data[key]];
      }
      keys := keys - {key};
    }
    forall k
      ensures k in resultsMap <==> k in goal
      ensures k in resultsMap ==> resultsMap[k] == goal[k]
    {
      AbsorbAt(soFar, data, k);
    }
  }

  /** The call reports an error just when some shard did. */
  lemma {:induction false} ErrorsReported(arrivals: seq<Result<Data>>)
    ensures Errors(arrivals) != [] <==> exists i :: 0 <= i < |arrivals| && arrivals[i].Err?
  {
    if arrivals != [] {
      ErrorsReported(arrivals[..|arrivals| - 1]);
    }
  }

  /** The series that shards report for one metric, in arrival order. */
  function Holders(shards: seq<Data>, k: Labels): seq<seq<Sample>> {
    if shards == [] then []
    else
      var last := shards[|shards| - 1];
      Holders(shards[..|shards| - 1], k) + if k in last then [last[k]] else []
  }

  function FoldSeries(hs: seq<seq<Sample>>): seq<Sample>
    requires hs != []
  {
    if |hs| == 1 then hs[0] else MergeTwo(FoldSeries(hs[..|hs| - 1]), hs[|hs| - 1])
  }

  lemma FoldSeriesNext(hs: seq<seq<Sample>>, next: seq<Sample>)
    ensures FoldSeries(hs + [next]) == if hs == [] then next else MergeTwo(FoldSeries(hs), next)
  {
    assert (hs + [next])[..|hs|] == hs;
  }

  lemma {:induction false} FoldByMetric(shards: seq<Data>, k: Labels)
    ensures k in Fold(shards) <==> Holders(shards, k) != []
    ensures k in Fold(shards) ==> Fold(shards)[k] == FoldSeries(Holders(shards, k))
  {
    if shards != [] {
      var init, last := shards[..|shards| - 1], shards[|shards| - 1];
      FoldByMetric(init, k);
      AbsorbAt(Fold(init), last, k);
      if k in last {
        FoldSeriesNext(Holders(init, k), last[k]);
      } else {
        assert Holders(init, k) + [] == Holders(init, k);
      }
    }
  }

  function FirstHit(hs: seq<seq<Sample>>, t: int): Option<real> {
    if hs == [] then None else OrElse(FirstHit(hs[..|hs| - 1], t), Lookup(hs[|hs| - 1], t))
  }

  /** A metric reported by one shard is passed on untouched; otherwise the result is strictly increasing and
      answers, at each time, with the earliest arrival that knows it. */
  lemma {:induction false} FoldSeriesMeaning(hs: seq<seq<Sample>>)
    requires hs != []
    ensures |hs| > 1 ==> StrictlyIncreasing(FoldSeries(hs))
    ensures forall t :: Lookup(FoldSeries(hs), t) == FirstHit(hs, t)
  {
    if |hs| > 1 {
      FoldSeriesMeaning(hs[..|hs| - 1]);
      MergeTwoMeaning(FoldSeries(hs[..|hs| - 1]), hs[|hs| - 1]);
    }
  }

  /** Folding invents nothing: every sample is from some shard, and every metric of a shard is kept. */
  lemma {:induction false} FoldedFrom(hs: seq<seq<Sample>>, x: Sample)
    requires hs != [] && x in FoldSeries(hs)
    ensures exists h :: h in hs && x in h
  {
    if |hs| == 1 {
      assert hs[0] in hs;
    } else {
      var front, last := hs[..|hs| - 1], hs[|hs| - 1];
      var a := FoldSeries(front);
      MergeTwoMeaning(a, last);
      LookupOfMember(MergeTwo(a, last), x);
      LookupFinds(a, x.timestamp);
      LookupFinds(last, x.timestamp);
      if x in a {
        FoldedFrom(front, x);
        var h :| h in front && x in h;
        assert h in hs;
      } else {
        assert last in hs;
      }
    }
  }

  /** Shards agree when samples at the same instant carry the same value. */
  ghost predicate Agree(hs: seq<seq<Sample>>) {
    forall h, g, x, y :: h in hs && g in hs && x in h && y in g && x.timestamp == y.timestamp ==> x.value == y.value
  }

  lemma {:induction false} FirstHitIsAnyHit(hs: seq<seq<Sample>>, t: int, v: real)
    requires Agree(hs)
    ensures FirstHit(hs, t) == Some(v) <==> exists h :: h in hs && Sample(t, v) in h
  {
    if hs != [] {
      var init, last := hs[..|hs| - 1], hs[|hs| - 1];
      assert hs == init + [last];
      FirstHitIsAnyHit(init, t, v);
      LookupFinds(last, t);
      if FirstHit(init, t).Some? {
        FirstHitIsAnyHit(init, t, FirstHit(init, t).value);
      }
      if Sample(t, v) in last {
        var i :| 0 <= i < |last| && last[i] == Sample(t, v);
        assert last[i].timestamp == t;
      }
    }
  }

  lemma SameSamples(a: seq<Sample>, b: seq<Sample>)
    requires StrictlyIncreasing(a) && StrictlyIncreasing(b)
    requires forall x :: x in a <==> x in b
    ensures a == b
  {
    forall t
      ensures Lookup(a, t) == Lookup(b, t)
    {
      LookupFinds(a, t);
      LookupFinds(b, t);
      if Lookup(a, t).Some? {
        LookupOfMember(b, Sample(t, Lookup(a, t).value));
      }
      if Lookup(b, t).Some? {
        LookupOfMember(a, Sample(t, Lookup(b, t).value));
      }
    }
    DeterminedByLookup(a, b);
  }

  lemma FoldSeriesMembers(hs: seq<seq<Sample>>, x: Sample)
    requires hs != [] && Agree(hs) && StrictlyIncreasing(FoldSeries(hs))
    ensures x in FoldSeries(hs) <==> exists h :: h in hs && x in h
  {
    FoldSeriesMeaning(hs);
    LookupOfMember(FoldSeries(hs), x);
    FirstHitIsAnyHit(hs, x.timestamp, x.value);
  }

  lemma SeriesOrderFree(hs: seq<seq<Sample>>, gs: seq<seq<Sample>>)
    requires hs != [] && Agree(hs)
    requires multiset(hs) == multiset(gs)
    ensures gs != [] && FoldSeries(hs) == FoldSeries(gs)
  {
    assert |multiset(hs)| == |hs| && |multiset(gs)| == |gs|;
    assert forall h :: h in hs <==> h in multiset(hs);
    assert forall h :: h in gs <==> h in multiset(gs);
    if |hs| == 1 {
      assert hs[0] in hs;
      assert hs[0] in gs;
    } else {
      FoldSeriesMeaning(hs);
      FoldSeriesMeaning(gs);
      forall x
        ensures x in FoldSeries(hs) <==> x in FoldSeries(gs)
      {
        FoldSeriesMembers(hs, x);
        FoldSeriesMembers(gs, x);
      }
      SameSamples(FoldSeries(hs), FoldSeries(gs));
    }
  }

  lemma {:induction false} HoldersAppend(a: seq<Data>, b: seq<Data>, k: Labels)
    ensures Holders(a + b, k) == Holders(a, k) + Holders(b, k)
  {
    if b == [] {
      assert a + b == a;
    } else {
      assert (a + b)[..|a + b| - 1] == a + b[..|b| - 1];
      HoldersAppend(a, b[..|b| - 1], k);
    }
  }

  lemma HoldersWithout(before: seq<Data>, d: Data, after: seq<Data>, k: Labels)
    ensures multiset(Holders(before + [d] + after, k)) ==
            multiset(Holders(before + after, k)) + multiset(Holders([d], k))
  {
    HoldersAppend(before + [d], after, k);
    HoldersAppend(before, [d], k);
    HoldersAppend(before, after, k);
  }

  lemma TakeOut(init: seq<Data>, d: Data, es: seq<Data>) returns (before: seq<Data>, after: seq<Data>)
    requires multiset(init + [d]) == multiset(es)
    ensures es == before + [d] + after && multiset(init) == multiset(before + after)
  {
    assert d in multiset(init + [d]);
    var i :| 0 <= i < |es| && es[i] == d;
    before, after := es[..i], es[i + 1..];
    assert es == before + [d] + after;
    MultisetOfThree(before, d, after);
    MultisetOfThree(init, d, []);
    assert init + [d] + [] == init + [d] && init + [] == init;
    assert multiset(init) == multiset(init + [d]) - multiset{d};
    assert multiset(before + after) == multiset(es) - multiset{d};
  }

  lemma MultisetOfThree(a: seq<Data>, d: Data, b: seq<Data>)
    ensures multiset(a + [d] + b) == multiset(a + b) + multiset{d}
  {
  }

  lemma {:induction false} HoldersPermute(ds: seq<Data>, es: seq<Data>, k: Labels)
    requires multiset(ds) == multiset(es)
    ensures multiset(Holders(ds, k)) == multiset(Holders(es, k))
    decreases |ds|
  {
    if ds == [] {
      assert |multiset(es)| == 0;
    } else {
      var init, d := ds[..|ds| - 1], ds[|ds| - 1];
      assert ds == init + [d] == init + [d] + [] && init == init + [];
      var before, after := TakeOut(init, d, es);
      HoldersPermute(init, before + after, k);
      HoldersWithout(before, d, after, k);
      HoldersWithout(init, d, [], k);
    }
  }

  /** Shards that agree can arrive in any order: the folded map is the same. */
  lemma ArrivalOrderIsIrrelevant(ds: seq<Data>, es: seq<Data>)
    requires multiset(ds) == multiset(es)
    requires forall k :: Agree(Holders(ds, k))
    ensures Fold(ds) == Fold(es)
  {
    forall k
      ensures k in Fold(ds) <==> k in Fold(es)
      ensures k in Fold(ds) ==> Fold(ds)[k] == Fold(es)[k]
    {
      FoldByMetric(ds, k);
      FoldByMetric(es, k);
      HoldersPermute(ds, es, k);
      if Holders(ds, k) != [] {
        SeriesOrderFree(Holders(ds, k), Holders(es, k));
      } else {
        assert |multiset(Holders(es, k))| == 0;
      }
    }
  }
}
