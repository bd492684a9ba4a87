/** What the comparator gets back when it loads the data it has saved, said of the data alone
    (pkg/cost-comparator/comparator.go). */
module Reloads {
  import opened Wrappers
  import opened Series
  import opened Decimal
  import opened CheckpointTable
  import opened CheckpointSave
  import opened CheckpointLoad
  import opened CheckpointRoundTrip
  import opened Checkpoints

  // ---- One entry ----

  /** The series has as many samples as the first series saved for metric b, with the same values to five decimals; it
      is empty if there was none. */
  ghost predicate ValuesComeBack(saved: Metrics, b: nat, series: seq<Sample>) {
    if b < |saved| && saved[b] != [] then
      && |series| == |saved[b][0]|
      && forall i :: 0 <= i < |series| ==> series[i].value == Rounded5(saved[b][0][i].value)
    else
      series == []
  }

  ghost predicate TimesComeBack(saved: Metrics, b: nat, series: seq<Sample>) {
    b < |saved| && saved[b] != [] ==>
      && |series| == |saved[b][0]|
      && forall i :: 0 <= i < |series| ==> series[i].timestamp == saved[b][0][i].timestamp
  }

  /** One series for each of n metrics. */
  ghost predicate HasShape(n: nat, loaded: Metrics) {
    |loaded| == n && forall b :: 0 <= b < n ==> |loaded[b]| == 1
  }

  ghost predicate HasValues(n: nat, saved: Metrics, loaded: Metrics) {
    HasShape(n, loaded) && forall b :: 0 <= b < n ==> ValuesComeBack(saved, b, loaded[b][0])
  }

  ghost predicate HasTimes(n: nat, saved: Metrics, loaded: Metrics) {
    HasShape(n, loaded) && forall b :: 0 <= b < n ==> TimesComeBack(saved, b, loaded[b][0])
  }

  ghost predicate ComesBack(n: nat, saved: Metrics, loaded: Metrics) {
    HasValues(n, saved, loaded) && HasTimes(n, saved, loaded)
  }

  lemma FaithfulExactlyWhen(saved: Metrics, b: nat, series: seq<Sample>)
    ensures series == Faithful(Used(saved, b)) <==> ValuesComeBack(saved, b, series) && TimesComeBack(saved, b, series)
  {
    if ValuesComeBack(saved, b, series) && TimesComeBack(saved, b, series) {
      assert forall i :: 0 <= i < |series| ==>
        series[i] == Sample(series[i].timestamp, series[i].value) == Faithful(Used(saved, b))[i];
    }
  }

  lemma KeptExactlyWhen(l: Layout, saved: Metrics, loaded: Metrics)
    ensures loaded == Kept(l, saved) <==> ComesBack(|l.names|, saved, loaded)
  {
    hide Faithful, Used, ValuesComeBack, TimesComeBack;
    var kept := Kept(l, saved);
    assert |kept| == |l.names| && forall b :: 0 <= b < |kept| ==> kept[b] == [Faithful(Used(saved, b))];
    if HasShape(|l.names|, loaded) {
      forall b: nat | b < |loaded|
        ensures loaded[b] == kept[b] <==>
                ValuesComeBack(saved, b, loaded[b][0]) && TimesComeBack(saved, b, loaded[b][0])
      {
        FaithfulExactlyWhen(saved, b, loaded[b][0]);
        assert loaded[b] == [loaded[b][0]];
      }
    }
  }

  lemma RereadHasValues(ds: seq<Metrics>, saved: Metrics, b: nat)
    ensures ValuesComeBack(saved, b, Reread(ds, Used(saved, b), b))
  {
  }

  // ---- All entries ----

  /** No metric has a sample. */
  ghost predicate NothingSaved(n: nat, entries: set<Metrics>) {
    forall d: Metrics, b: nat :: d in entries && b < n ==> !HasSample(d, b, 0)
  }

  /** Timestamps are not negative, and all entries agree on them, metric by metric and index by index. */
  ghost predicate TimesMatch(n: nat, entries: set<Metrics>) {
    && (forall d: Metrics, b: nat, i: nat :: d in entries && b < n && HasSample(d, b, i) ==> d[b][0][i].timestamp >= 0)
    && (forall d: Metrics, e: Metrics, b: nat, i: nat ::
          d in entries && e in entries && b < n && HasSample(d, b, i) && HasSample(e, b, i) ==>
          d[b][0][i].timestamp == e[b][0][i].timestamp)
  }

  /** Some metric of a workload has two samples, or two metrics have samples. */
  ghost predicate TwoColumns(entries: set<Metrics>) {
    || (exists d: Metrics, b: nat :: d in entries && b < 7 && HasSample(d, b, 1))
    || (exists d: Metrics, e: Metrics, a: nat, b: nat ::
          d in entries && e in entries && a < b < 7 && HasSample(d, a, 0) && HasSample(e, b, 0))
  }

  /** No workload has a memory request, or none has anything after the memory requests. */
  ghost predicate NoHarm(entries: set<Metrics>) {
    || (forall d :: d in entries ==> !HasSample(d, 3, 0))
    || (forall d: Metrics, b: nat :: d in entries && 4 <= b < 7 ==> !HasSample(d, b, 0))
  }

  ghost function Rows(ds: seq<Metrics>): set<Metrics> {
    set d | d in ds
  }

  lemma EntriesAreValues(cache: Cache, order: seq<Key>)
    requires Enumerates(order, cache)
    ensures Rows(Entries(order, cache)) == cache.Values
  {
    var ds := Entries(order, cache);
    forall k | k in cache
      ensures cache[k] in ds
    {
      var r :| 0 <= r < |order| && order[r] == k;
      assert ds[r] == cache[k];
    }
  }

  lemma NothingInRows(l: Layout, ds: seq<Metrics>)
    ensures NothingSaved(|l.names|, Rows(ds)) <==> NoSamples(l, ds)
  {
    hide Used, HasSample;
    forall d: Metrics, b: nat
      ensures HasSample(d, b, 0) <==> Used(d, b) != []
    {
      UsedIsTheFirst(d, b, 0);
    }
    if NothingSaved(|l.names|, Rows(ds)) {
      forall r, b | 0 <= r < |ds| && 0 <= b < |l.names|
        ensures Used(ds[r], b) == []
      {
        assert ds[r] in Rows(ds);
      }
    }
  }

  lemma TimesInRows(l: Layout, ds: seq<Metrics>)
    ensures TimesMatch(|l.names|, Rows(ds)) <==> AllTimesAgree(l, ds)
  {
    hide Used, HasSample;
    forall d: Metrics, b: nat, i: nat
      ensures HasSample(d, b, i) <==> i < |Used(d, b)|
      ensures HasSample(d, b, i) ==> b < |d| && d[b] != [] && i < |d[b][0]| && Used(d, b)[i] == d[b][0][i]
    {
      UsedIsTheFirst(d, b, i);
      HasSampleMeans(d, b, i);
    }
    if TimesMatch(|l.names|, Rows(ds)) {
      forall b: nat | b < |l.names|
        ensures TimesAgree(ds, b)
      {
        assert forall r :: 0 <= r < |ds| ==> ds[r] in Rows(ds);
      }
    }
    if AllTimesAgree(l, ds) {
      forall d: Metrics, b: nat, i: nat | d in Rows(ds) && b < |l.names| && HasSample(d, b, i)
        ensures d[b][0][i].timestamp >= 0
      {
        var r :| 0 <= r < |ds| && ds[r] == d;
        assert TimesAgree(ds, b);
      }
      forall d: Metrics, e: Metrics, b: nat, i: nat | d in Rows(ds) && e in Rows(ds) && b < |l.names| && HasSample(d, b, i) && HasSample(e, b, i)
        ensures d[b][0][i].timestamp == e[b][0][i].timestamp
      {
        var r :| 0 <= r < |ds| && ds[r] == d;
        var q :| 0 <= q < |ds| && ds[q] == e;
        assert TimesAgree(ds, b);
      }
    }
  }

  lemma HasSampleMeans(d: Metrics, b: nat, i: nat)
    ensures HasSample(d, b, i) ==> b < |d| && d[b] != [] && i < |d[b][0]|
  {
  }

  /** A width is exceeded just when some entry has a sample there. */
  lemma WidthAbove(ds: seq<Metrics>, b: nat, n: nat)
    ensures Width(ds, b) > n <==> exists d :: d in Rows(ds) && HasSample(d, b, n)
  {
    hide Used, Width, HasSample;
    WidthIsReached(ds, b);
    if Width(ds, b) > n {
      var r :| 0 <= r < |ds| && |Used(ds[r], b)| == Width(ds, b);
      UsedIsTheFirst(ds[r], b, n);
      assert ds[r] in Rows(ds);
    }
    if d :| d in Rows(ds) && HasSample(d, b, n) {
      var r :| 0 <= r < |ds| && ds[r] == d;
      UsedIsTheFirst(d, b, n);
      WidthCovers(ds, b, r);
    }
  }

  lemma TwoColumnsInRows(ds: seq<Metrics>)
    ensures TwoColumns(Rows(ds)) <==> Offset(Widths(ds, 7), 7) > 1
  {
    hide Offset, Width, HasSample, Rows;
    OffsetAboveOne(Widths(ds, 7), 7);
    TwoSamplesInRows(ds);
    TwoMetricsInRows(ds);
  }

  lemma TwoSamplesInRows(ds: seq<Metrics>)
    ensures (exists d: Metrics, b: nat :: d in Rows(ds) && b < 7 && HasSample(d, b, 1)) <==>
            (exists b :: 0 <= b < 7 && Widths(ds, 7)[b] > 1)
  {
    hide Width, HasSample, Rows;
    var w := Widths(ds, 7);
    forall b: nat | b < 7
      ensures w[b] > 1 <==> exists d :: d in Rows(ds) && HasSample(d, b, 1)
    {
      WidthAbove(ds, b, 1);
    }
    if d: Metrics, b: nat :| d in Rows(ds) && b < 7 && HasSample(d, b, 1) {
      assert w[b] > 1;
    }
  }

  lemma TwoMetricsInRows(ds: seq<Metrics>)
    ensures (exists d: Metrics, e: Metrics, a: nat, b: nat ::
               d in Rows(ds) && e in Rows(ds) && a < b < 7 && HasSample(d, a, 0) && HasSample(e, b, 0)) <==>
            (exists a, b :: 0 <= a < b < 7 && Widths(ds, 7)[a] > 0 && Widths(ds, 7)[b] > 0)
  {
    hide Width, HasSample, Rows;
    var w := Widths(ds, 7);
    forall b: nat | b < 7
      ensures w[b] > 0 <==> exists d :: d in Rows(ds) && HasSample(d, b, 0)
    {
      WidthAbove(ds, b, 0);
    }
    if d: Metrics, e: Metrics, a: nat, b: nat :| d in Rows(ds) && e in Rows(ds) && a < b < 7 && HasSample(d, a, 0) && HasSample(e, b, 0) {
      assert w[a] > 0 && w[b] > 0;
    }
    if a, b :| 0 <= a < b < 7 && w[a] > 0 && w[b] > 0 {
      var d :| d in Rows(ds) && HasSample(d, a, 0);
      var e :| e in Rows(ds) && HasSample(e, b, 0);
    }
  }

  lemma NoHarmInRows(ds: seq<Metrics>)
    ensures NoHarm(Rows(ds)) <==> Harmless(ds)
  {
    hide Width, HasSample, Rows;
    forall b: nat
      ensures Width(ds, b) == 0 <==> forall d :: d in Rows(ds) ==> !HasSample(d, b, 0)
    {
      WidthAbove(ds, b, 0);
    }
  }

  // ---- Tables ----

  /** The keys that were saved and no others, and every entry as it was saved, values to five decimals. */
  ghost predicate GivesBackAll(l: Layout, m: Cache, ks: seq<Key>, ds: seq<Metrics>)
    requires |ks| == |ds|
  {
    && (forall k :: k in m <==> k in ks)
    && forall r :: 0 <= r < |ks| ==> ks[r] in m && ComesBack(|l.names|, ds[r], m[ks[r]])
  }

  /** The saved table loads, and gives everything back. */
  ghost predicate Reloads(l: Layout, ks: seq<Key>, ds: seq<Metrics>)
    requires |ks| == |ds|
  {
    var t := Table(l, ks, ds);
    Readable(l, t) && LoadTable(l, t).Ok? && GivesBackAll(l, LoadTable(l, t).value, ks, ds)
  }

  lemma ReloadsIsRoundTrips(l: Layout, ks: seq<Key>, ds: seq<Metrics>)
    requires |ks| == |ds|
    ensures Reloads(l, ks, ds) <==> RoundTrips(l, ks, ds)
  {
    hide Table, Readable, LoadTable, Kept, ComesBack;
    forall d, loaded
      ensures ComesBack(|l.names|, d, loaded) <==> loaded == Kept(l, d)
    {
      KeptExactlyWhen(l, d, loaded);
    }
  }

  /** A container checkpoint reloads just when there is a sample to save and the timestamps match. */
  lemma ContainerReloadsExactlyWhen(ks: seq<Key>, ds: seq<Metrics>)
    requires Saved(ContainerLayout(), ks, ds)
    ensures Reloads(ContainerLayout(), ks, ds) <==> !NothingSaved(6, Rows(ds)) && TimesMatch(6, Rows(ds))
  {
    hide Reloads, RoundTrips, NothingSaved, TimesMatch, NoSamples, AllTimesAgree;
    assert |ContainerLayout().names| == 6;
    ReloadsIsRoundTrips(ContainerLayout(), ks, ds);
    ContainerRoundTripsExactlyWhen(ks, ds);
    NothingInRows(ContainerLayout(), ds);
    TimesInRows(ContainerLayout(), ds);
  }

  /** The same numbers of samples. */
  ghost predicate SameCounts(ds: seq<Metrics>, es: seq<Metrics>) {
    |ds| == |es| &&
    forall r, b: nat, i: nat :: 0 <= r < |ds| && b < 7 ==> (HasSample(ds[r], b, i) <==> HasSample(es[r], b, i))
  }

  lemma SameCountsIsSameShape(ds: seq<Metrics>, es: seq<Metrics>)
    ensures SameCounts(ds, es) <==> SameShape(ds, es)
  {
    hide Used, HasSample;
    forall d: Metrics, b: nat, i: nat
      ensures HasSample(d, b, i) <==> i < |Used(d, b)|
    {
      UsedIsTheFirst(d, b, i);
    }
    if SameCounts(ds, es) {
      forall r, b: nat | 0 <= r < |ds| && b < 7
        ensures |Used(ds[r], b)| == |Used(es[r], b)|
      {
        var m, n := |Used(ds[r], b)|, |Used(es[r], b)|;
        assert HasSample(ds[r], b, m) <==> HasSample(es[r], b, m);
        assert HasSample(ds[r], b, n) <==> HasSample(es[r], b, n);
      }
    }
  }

  /** For workloads with the given numbers of samples, saving and loading gives all of them back, whatever the samples
      are, as long as their timestamps match, just when there are two columns of samples or more, and no memory requests
      or nothing after them. */
  lemma WorkloadReloadsExactlyWhen(ks: seq<Key>, es: seq<Metrics>)
    requires Saved(WorkloadLayout(), ks, es)
    ensures (forall ds :: SameCounts(ds, es) && TimesMatch(7, Rows(ds)) ==> Reloads(WorkloadLayout(), ks, ds)) <==>
            TwoColumns(Rows(es)) && NoHarm(Rows(es))
  {
    hide SameCounts, SameShape, TimesMatch, AllTimesAgree, RoundTrips, TwoColumns, NoHarm, Harmless, Offset, Widths;
    WorkloadRoundTripExactlyWhen(ks, es);
    TwoColumnsInRows(es);
    NoHarmInRows(es);
    assert |WorkloadLayout().names| == 7;
    forall ds
      ensures SameCounts(ds, es) <==> SameShape(ds, es)
      ensures TimesMatch(7, Rows(ds)) <==> AllTimesAgree(WorkloadLayout(), ds)
      ensures SameShape(ds, es) ==> |ds| == |es| && (Reloads(WorkloadLayout(), ks, ds) <==> RoundTrips(WorkloadLayout(), ks, ds))
    {
      SameCountsIsSameShape(ds, es);
      TimesInRows(WorkloadLayout(), ds);
      ShapesAreAsLong(ds, es);
      if SameShape(ds, es) {
        ReloadsIsRoundTrips(WorkloadLayout(), ks, ds);
      }
    }
  }

  lemma ShapesAreAsLong(ds: seq<Metrics>, es: seq<Metrics>)
    ensures SameShape(ds, es) ==> |ds| == |es|
    ensures SameCounts(ds, es) ==> |ds| == |es|
  {
  }

  // ---- Caches ----

  /** Save the container data, and load it when the comparator starts the next time. */
  method ReloadContainers(cache: Cache) returns (r: Result<Cache>)
    requires forall k :: k in cache ==> |k| == 4
    ensures r.Err? <==> NothingSaved(6, cache.Values)
    ensures r.Ok? ==> r.value.Keys == cache.Keys
    ensures r.Ok? ==> forall k :: k in cache ==> HasValues(6, cache[k], r.value[k])
    ensures r.Ok? ==> ((forall k :: k in cache ==> HasTimes(6, cache[k], r.value[k])) <==> TimesMatch(6, cache.Values))
  {
    hide Saved, Enumerates, Entries, LoadTable, Table, Readable, NothingSaved, TimesMatch, HasValues, HasTimes;
    hide SavesSamples;
    ContainerLayoutIsValid();
    var lines, order := Checkpoint(ContainerLayout(), cache);
    ReloadedContainers(cache, order);
    r := LoadCheckpoint(ContainerLayout(), lines);
  }

  lemma ReloadedHasValues(ds: seq<Metrics>, r: nat)
    requires r < |ds|
    ensures HasValues(6, ds[r], Reloaded(ContainerLayout(), ds, r))
  {
    hide Reread, Used, ValuesComeBack;
    var loaded := Reloaded(ContainerLayout(), ds, r);
    forall b: nat | b < 6
      ensures ValuesComeBack(ds[r], b, loaded[b][0])
    {
      RereadHasValues(ds, ds[r], b);
    }
  }

  lemma ReloadedContainers(cache: Cache, order: seq<Key>)
    requires (forall k :: k in cache ==> |k| == 4) && Enumerates(order, cache)
    ensures var l := ContainerLayout();
            var t := Table(l, order, Entries(order, cache));
            && Readable(l, t)
            && (LoadTable(l, t).Err? <==> NothingSaved(6, cache.Values))
            && (LoadTable(l, t).Ok? ==>
                  var m := LoadTable(l, t).value;
                  && m.Keys == cache.Keys
                  && (forall k :: k in cache ==> HasValues(6, cache[k], m[k]))
                  && ((forall k :: k in cache ==> HasTimes(6, cache[k], m[k])) <==> TimesMatch(6, cache.Values)))
  {
    var l, ds := ContainerLayout(), Entries(order, cache);
    assert Saved(l, order, ds);
    assert |l.names| == 6;
    hide NoSamples, LoadTable, Table, Readable, ContainerLayout, Saved, Entries, Reloaded, GivesBackAll, Rows;
    hide NothingSaved, TimesMatch, Enumerates, HasValues, HasTimes;
    EntriesAreValues(cache, order);
    NothingInRows(l, ds);
    ContainerRoundTrip(order, ds);
    ContainerReloadsExactlyWhen(order, ds);
    if LoadTable(l, Table(l, order, ds)).Ok? {
      var m := LoadTable(l, Table(l, order, ds)).value;
      assert m.Keys == cache.Keys by {
        SameKeys(m, cache, order);
      }
      forall k | k in cache
        ensures HasValues(6, cache[k], m[k])
      {
        var r := RowOf(cache, order, k);
        assert m[order[r]] == Reloaded(l, ds, r);
        ReloadedHasValues(ds, r);
      }
      ByKey(l, cache, order, m);
    }
  }

  lemma SameKeys(m: Cache, cache: Cache, order: seq<Key>)
    requires Enumerates(order, cache) && forall k :: k in m <==> k in order
    ensures m.Keys == cache.Keys
  {
    assert forall k :: k in order ==> k in cache;
  }

  lemma RowOf(cache: Cache, order: seq<Key>, k: Key) returns (r: nat)
    requires Enumerates(order, cache) && k in cache
    ensures r < |order| && order[r] == k && Entries(order, cache)[r] == cache[k]
  {
    r :| 0 <= r < |order| && order[r] == k;
  }

  lemma ByKey(l: Layout, cache: Cache, order: seq<Key>, m: Cache)
    requires Enumerates(order, cache)
    ensures GivesBackAll(l, m, order, Entries(order, cache)) <==>
            m.Keys == cache.Keys && forall k :: k in cache ==> ComesBack(|l.names|, cache[k], m[k])
  {
    hide ComesBack;
    var ds := Entries(order, cache);
    assert forall k :: k in order <==> k in cache;
    if GivesBackAll(l, m, order, ds) {
      forall k | k in cache
        ensures ComesBack(|l.names|, cache[k], m[k])
      {
        var r := RowOf(cache, order, k);
        assert ComesBack(|l.names|, ds[r], m[order[r]]);
      }
    }
  }

  /** Save the workload data, and load it when the comparator starts the next time. */
  method ReloadWorkloads(cache: Cache) returns (r: Result<Cache>, order: seq<Key>)
    requires forall k :: k in cache ==> |k| == 3
    ensures r.Err? <==> !TwoColumns(cache.Values)
    ensures Enumerates(order, cache)
    ensures r.Ok? ==> r.value.Keys == cache.Keys && LoadedAs(r.value, order, Entries(order, cache))
    ensures r.Ok? && NoHarm(cache.Values) ==>
              ((forall k :: k in cache ==> ComesBack(7, cache[k], r.value[k])) <==> TimesMatch(7, cache.Values))
  {
    hide Enumerates, Entries, LoadTable, Table, Readable, LoadedAs, TwoColumns, NoHarm, TimesMatch, ComesBack;
    hide SavesSamples;
    var lines;
    WorkloadLayoutIsValid();
    lines, order := Checkpoint(WorkloadLayout(), cache);
    ReloadedWorkloads(cache, order);
    r := LoadCheckpoint(WorkloadLayout(), lines);
  }

  lemma ReloadedWorkloads(cache: Cache, order: seq<Key>)
    requires (forall k :: k in cache ==> |k| == 3) && Enumerates(order, cache)
    ensures var l, ds := WorkloadLayout(), Entries(order, cache);
            var t := Table(l, order, ds);
            && Readable(l, t)
            && (LoadTable(l, t).Err? <==> !TwoColumns(cache.Values))
            && (LoadTable(l, t).Ok? ==>
                  var m := LoadTable(l, t).value;
                  && m.Keys == cache.Keys && LoadedAs(m, order, ds)
                  && (NoHarm(cache.Values) ==>
                        ((forall k :: k in cache ==> ComesBack(7, cache[k], m[k])) <==> TimesMatch(7, cache.Values))))
  {
    var l, ds := WorkloadLayout(), Entries(order, cache);
    assert Saved(l, order, ds);
    assert |l.names| == 7;
    hide LoadTable, Table, Readable, LoadedAs, WorkloadLayout, Saved, Offset, Enumerates, Entries, Widths, ComesBack;
    hide TwoColumns, NoHarm, Harmless, TimesMatch, AllTimesAgree, GivesBackAll, RoundTrips, Rows;
    EntriesAreValues(cache, order);
    WorkloadLoad(order, ds);
    TwoColumnsInRows(ds);
    NoHarmInRows(ds);
    TimesInRows(l, ds);
    WorkloadRoundTripsWhenHarmless(order, ds);
    ReloadsIsRoundTrips(l, order, ds);
    if LoadTable(l, Table(l, order, ds)).Ok? {
      SameKeys(LoadTable(l, Table(l, order, ds)).value, cache, order);
      ByKey(l, cache, order, LoadTable(l, Table(l, order, ds)).value);
    }
  }
}
