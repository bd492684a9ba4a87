/** The two checkpoints of the comparator, saved and loaded again (pkg/cost-comparator/comparator.go). */
module Checkpoints {
  import opened Wrappers
  import opened Numbers
  import opened Series
  import opened Decimal
  import opened CheckpointTable
  import opened CheckpointSave
  import opened CheckpointLoad
  import opened CheckpointRoundTrip

  /** Every metric with its first series only, values to five decimals, timestamps as they were. */
  function Kept(l: Layout, d: Metrics): Metrics {
    seq(|l.names|, b requires 0 <= b < |l.names| => [Faithful(Used(d, b))])
  }

  function Reloaded(l: Layout, ds: seq<Metrics>, r: nat): Metrics
    requires r < |ds|
  {
    seq(|l.names|, b requires 0 <= b < |l.names| => [Reread(ds, Used(ds[r], b), b)])
  }

  ghost predicate NoSamples(l: Layout, ds: seq<Metrics>) {
    forall r, b :: 0 <= r < |ds| && 0 <= b < |l.names| ==> Used(ds[r], b) == []
  }

  lemma {:induction false} OffsetIsZero(widths: seq<nat>, n: nat)
    requires n <= |widths|
    ensures Offset(widths, n) == 0 <==> forall b :: 0 <= b < n ==> widths[b] == 0
  {
    if n > 0 {
      OffsetIsZero(widths, n - 1);
    }
  }

  lemma NoColumns(l: Layout, ds: seq<Metrics>)
    ensures Columns(l, ds) == |l.keyNames| <==> NoSamples(l, ds)
  {
    OffsetIsZero(Widths(ds, |l.names|), |l.names|);
    if NoSamples(l, ds) {
      forall b | 0 <= b < |l.names|
        ensures Width(ds, b) == 0
      {
        WidthIsReached(ds, b);
      }
    } else {
      var r, b :| 0 <= r < |ds| && 0 <= b < |l.names| && Used(ds[r], b) != [];
      WidthCovers(ds, b, r);
      assert Widths(ds, |l.names|)[b] > 0;
    }
  }

  /** Every entry comes back as it was saved, up to the rounding and the series beyond the first, and nothing else. */
  ghost predicate GivesBack(l: Layout, m: Cache, ks: seq<Key>, ds: seq<Metrics>)
    requires |ks| == |ds|
  {
    (forall k :: k in m <==> k in ks) && forall r :: 0 <= r < |ks| ==> ks[r] in m && m[ks[r]] == Kept(l, ds[r])
  }

  /** The saved table loads, and gives everything back. */
  ghost predicate RoundTrips(l: Layout, ks: seq<Key>, ds: seq<Metrics>)
    requires |ks| == |ds|
  {
    var t := Table(l, ks, ds);
    Readable(l, t) && LoadTable(l, t).Ok? && GivesBack(l, LoadTable(l, t).value, ks, ds)
  }

  // ---- Containers ----

  lemma {:induction false} ContainerNotSkewed(widths: seq<nat>, b: nat)
    requires b <= |widths|
    ensures Skew(ContainerLayout(), widths, b) == 0
  {
    if b > 0 {
      ContainerNotSkewed(widths, b - 1);
    }
  }

  /** The container checkpoint loads just when there is a sample to save, with the keys it was saved with; every
      sample keeps its value to five decimals and takes the timestamp of the last row that has as many samples. */
  lemma ContainerRoundTrip(ks: seq<Key>, ds: seq<Metrics>)
    requires Saved(ContainerLayout(), ks, ds)
    ensures Readable(ContainerLayout(), Table(ContainerLayout(), ks, ds))
    ensures LoadTable(ContainerLayout(), Table(ContainerLayout(), ks, ds)).Err? <==> NoSamples(ContainerLayout(), ds)
    ensures !NoSamples(ContainerLayout(), ds) ==>
              var m := LoadTable(ContainerLayout(), Table(ContainerLayout(), ks, ds)).value;
              && (forall k :: k in m <==> k in ks)
              && forall r :: 0 <= r < |ks| ==> m[ks[r]] == Reloaded(ContainerLayout(), ds, r)
  {
    var l := ContainerLayout();
    ContainerLayoutIsValid();
    LoadOfTable(l, ks, ds);
    NoColumns(l, ds);
    forall r | 0 <= r < |ks|
      ensures seq(|l.names|, b requires 0 <= b < |l.names| => [LoadedSeries(l, ds, r, b)]) == Reloaded(l, ds, r)
    {
      forall b | 0 <= b < |l.names|
        ensures LoadedSeries(l, ds, r, b) == Reread(ds, Used(ds[r], b), b)
      {
        ContainerNotSkewed(Widths(ds, |l.names|), b);
        UnskewedSeries(l, ds, r, b);
      }
    }
  }

  ghost predicate AllTimesAgree(l: Layout, ds: seq<Metrics>) {
    forall b :: 0 <= b < |l.names| ==> TimesAgree(ds, b)
  }

  /** It comes back unchanged, up to the rounding and the series beyond the first, just when the timestamps are not
      negative and agree, metric by metric and index by index, across all containers. */
  lemma ReloadedIsKept(l: Layout, ds: seq<Metrics>)
    ensures (forall r :: 0 <= r < |ds| ==> Reloaded(l, ds, r) == Kept(l, ds[r])) <==> AllTimesAgree(l, ds)
  {
    hide Reread, Faithful, TimesAgree;
    forall b: nat
      ensures BlockSurvives(ds, b) <==> TimesAgree(ds, b)
    {
      TimesSurviveExactlyWhen(ds, b);
    }
    if AllTimesAgree(l, ds) {
      forall r | 0 <= r < |ds|
        ensures Reloaded(l, ds, r) == Kept(l, ds[r])
      {
        forall b | 0 <= b < |l.names|
          ensures Reloaded(l, ds, r)[b] == Kept(l, ds[r])[b]
        {
          assert TimesAgree(ds, b) && BlockSurvives(ds, b);
        }
      }
    }
    if forall r :: 0 <= r < |ds| ==> Reloaded(l, ds, r) == Kept(l, ds[r]) {
      forall b | 0 <= b < |l.names|
        ensures TimesAgree(ds, b)
      {
        forall r | 0 <= r < |ds|
          ensures Reread(ds, Used(ds[r], b), b) == Faithful(Used(ds[r], b))
        {
          assert Reloaded(l, ds, r)[b] == Kept(l, ds[r])[b];
        }
        assert BlockSurvives(ds, b);
      }
    }
  }

  /** A container checkpoint round-trips just when there is a sample to save and the timestamps agree. */
  lemma ContainerRoundTripsExactlyWhen(ks: seq<Key>, ds: seq<Metrics>)
    requires Saved(ContainerLayout(), ks, ds)
    ensures RoundTrips(ContainerLayout(), ks, ds) <==>
            !NoSamples(ContainerLayout(), ds) && AllTimesAgree(ContainerLayout(), ds)
  {
    hide NoSamples, AllTimesAgree, LoadTable, Table, Readable, Reloaded, Kept, ContainerLayout;
    ContainerRoundTrip(ks, ds);
    ReloadedIsKept(ContainerLayout(), ds);
    assert forall r :: 0 <= r < |ks| ==> ks[r] in ks;
  }

  // ---- Workloads ----

  lemma {:induction false} WorkloadSkew(widths: seq<nat>, b: nat)
    requires b <= |widths|
    ensures Skew(WorkloadLayout(), widths, b) == if b > 3 then widths[3] else 0
  {
    if b > 0 {
      WorkloadSkew(widths, b - 1);
    }
  }

  /** Row r was loaded with one series for every metric. */
  ghost predicate LoadedAs(m: Cache, order: seq<Key>, ds: seq<Metrics>)
    requires |order| == |ds|
  {
    forall r, b :: 0 <= r < |order| && 0 <= b < 7 ==>
      order[r] in m && |m[order[r]]| == 7 && m[order[r]][b] == [WorkloadSeries(ds, r, b)]
  }

  /** The workload checkpoint needs two columns of samples to be accepted. Its loader reads CPU and memory usage and
      requests properly, but CPU limits, memory limits and replicas from columns that start as many places too early
      as there are memory request columns. */
  lemma WorkloadLoad(ks: seq<Key>, ds: seq<Metrics>)
    requires Saved(WorkloadLayout(), ks, ds)
    ensures Readable(WorkloadLayout(), Table(WorkloadLayout(), ks, ds))
    ensures LoadTable(WorkloadLayout(), Table(WorkloadLayout(), ks, ds)).Err? <==> Offset(Widths(ds, 7), 7) <= 1
    ensures Offset(Widths(ds, 7), 7) > 1 ==>
              var m := LoadTable(WorkloadLayout(), Table(WorkloadLayout(), ks, ds)).value;
              (forall k :: k in m <==> k in ks) && LoadedAs(m, ks, ds)
  {
    var l := WorkloadLayout();
    WorkloadLayoutIsValid();
    LoadOfTable(l, ks, ds);
    forall r, b | 0 <= r < |ds| && 0 <= b < 7
      ensures LoadedSeries(l, ds, r, b) == WorkloadSeries(ds, r, b)
    {
      WorkloadSeriesIsLoaded(ds, r, b);
    }
    hide LoadedSeries, WorkloadSeries, Table, LoadTable, Readable;
  }

  lemma {:induction false} OffsetAboveOne(widths: seq<nat>, n: nat)
    requires n <= |widths|
    ensures Offset(widths, n) > 1 <==>
            (exists b :: 0 <= b < n && widths[b] > 1) || (exists a, b :: 0 <= a < b < n && widths[a] > 0 && widths[b] > 0)
  {
    if n > 0 {
      OffsetAboveOne(widths, n - 1);
      OffsetIsZero(widths, n - 1);
      if Offset(widths, n - 1) > 0 && widths[n - 1] > 0 {
        var a :| 0 <= a < n - 1 && widths[a] > 0;
        assert 0 <= a < n - 1 < n && widths[a] > 0 && widths[n - 1] > 0;
      }
    }
  }

  lemma WorkloadSeriesIsLoaded(ds: seq<Metrics>, r: nat, b: nat)
    requires r < |ds| && b < 7
    ensures LoadedSeries(WorkloadLayout(), ds, r, b) == WorkloadSeries(ds, r, b)
  {
    hide DecodeBlock, RowCells, HeaderBlock, Reread, Used, Offset, Skew, Width, ValidLayout;
    WorkloadSkew(Widths(ds, 7), b);
    WorkloadLayoutIsValid();
    if b <= 3 {
      UnskewedSeries(WorkloadLayout(), ds, r, b);
    }
  }

  function WorkloadSeries(ds: seq<Metrics>, r: nat, b: nat): seq<Sample>
    requires r < |ds| && b < 7
  {
    if b <= 3 then Reread(ds, Used(ds[r], b), b)
    else
      var w := Widths(ds, 7);
      OffsetsGrow(w, 3, b);
      OffsetsGrow(w, b, 7);
      RowLength(w, ds[r], 7);
      DecodeBlock(HeaderBlock(ds, WorkloadLayout().names[b], b), RowCells(w, ds[r], 7), Offset(w, b) - w[3], w[b])
  }

  /** What is read for each metric of each workload is what was saved. */
  ghost predicate WorkloadsSurvive(ds: seq<Metrics>) {
    forall r, b :: 0 <= r < |ds| && 0 <= b < 7 ==> WorkloadSeries(ds, r, b) == Faithful(Used(ds[r], b))
  }

  ghost predicate SameShape(ds: seq<Metrics>, es: seq<Metrics>) {
    |ds| == |es| && forall r, b :: 0 <= r < |ds| && 0 <= b < 7 ==> |Used(ds[r], b)| == |Used(es[r], b)|
  }

  lemma {:induction false} SameWidths(ds: seq<Metrics>, es: seq<Metrics>, b: nat)
    requires SameShape(ds, es) && b < 7
    ensures Width(ds, b) == Width(es, b)
  {
    if ds != [] {
      SameWidths(ds[..|ds| - 1], es[..|es| - 1], b);
    }
  }

  /** Sample i of every series at time i, with value 1 for memory requests and 2 for everything else. */
  function Filled(es: seq<Metrics>): (ds: seq<Metrics>)
    ensures |ds| == |es|
  {
    seq(|es|, r requires 0 <= r < |es| => seq(7, b requires 0 <= b < 7 => [Ramp(|Used(es[r], b)|, if b == 3 then 1.0 else 2.0)]))
  }

  function Ramp(n: nat, v: real): seq<Sample> {
    seq(n, i requires 0 <= i < n => Sample(i, v))
  }

  lemma FilledUses(es: seq<Metrics>, r: nat, b: nat)
    requires r < |es| && b < 7
    ensures Used(Filled(es)[r], b) == Ramp(|Used(es[r], b)|, if b == 3 then 1.0 else 2.0)
  {
  }

  lemma FilledIsRegular(es: seq<Metrics>)
    ensures SameShape(Filled(es), es) && AllTimesAgree(WorkloadLayout(), Filled(es))
  {
    var ds := Filled(es);
    forall r, b | 0 <= r < |ds| && 0 <= b < 7
      ensures |Used(ds[r], b)| == |Used(es[r], b)|
      ensures forall i :: 0 <= i < |Used(ds[r], b)| ==> Used(ds[r], b)[i].timestamp == i
    {
      FilledUses(es, r, b);
    }
  }

  lemma {:induction false} DecodedFrom(headers: seq<string>, cells: seq<string>, start: nat, n: nat, x: Sample)
    requires n <= |headers| && start + n <= |cells|
    requires x in DecodeBlock(headers, cells, start, n)
    ensures exists i :: 0 <= i < n && x in Decoded(headers[i], cells[start + i])
  {
    hide Decoded;
    if x in DecodeBlock(headers, cells, start, n - 1) {
      DecodedFrom(headers, cells, start, n - 1, x);
    } else {
      assert x in Decoded(headers[n - 1], cells[start + (n - 1)]);
    }
  }

  /** The memory requests under the headers of metric b, as many as there are columns of both. */
  function MemRequestsAs(ds: seq<Metrics>, d: Metrics, b: nat): seq<Sample> {
    var samples := Reread(ds, Used(d, 3), b);
    var n := Min(|samples|, Width(ds, b));
    samples[..n]
  }

  /** The first metric after the memory requests that has columns is read from the memory request columns: it begins
      with the memory requests, and there is nothing else in it unless it has more columns. */
  lemma ReadFromMemRequest(ds: seq<Metrics>, r: nat, b: nat)
    requires 4 <= b < 7 && r < |ds| && forall a :: 4 <= a < b ==> Width(ds, a) == 0
    ensures MemRequestsAs(ds, ds[r], b) <= WorkloadSeries(ds, r, b)
    ensures Width(ds, b) <= Width(ds, 3) ==> WorkloadSeries(ds, r, b) == MemRequestsAs(ds, ds[r], b)
  {
    hide DecodeBlock, Decoded, RowCells, Offset, Width, Used, HeaderCell, LastTime, Cell, HeaderBlock, Reread;
    var w, name := Widths(ds, 7), WorkloadLayout().names[b];
    var headers, cells := HeaderBlock(ds, name, b), RowCells(w, ds[r], 7);
    var samples, n := Reread(ds, Used(ds[r], 3), b), Min(w[3], w[b]);
    FirstAfterMemRequest(w, b);
    OffsetsGrow(w, 3, b);
    OffsetsGrow(w, b, 7);
    RowLength(w, ds[r], 7);
    BlockHeaders(ds, name, b);
    NamesHaveNoDash(b);
    WidthCovers(ds, 3, r);
    RereadLength(ds, Used(ds[r], 3), b);
    forall i | 0 <= i < n
      ensures Decoded(headers[i], cells[Offset(w, 3) + i]) == if i < |samples| then [samples[i]] else []
    {
      CellsInPlace(w, ds[r], 7, 3, i);
      DecodeNext(ds, name, Used(ds[r], 3), b, i);
    }
    DecodeColumns(headers, cells, Offset(w, 3), n, samples);
    DecodePrefix(headers, cells, Offset(w, 3), n, w[b]);
  }

  lemma RereadLength(ds: seq<Metrics>, samples: seq<Sample>, b: nat)
    ensures |Reread(ds, samples, b)| == |samples|
  {
  }

  lemma {:induction false} DecodePrefix(headers: seq<string>, cells: seq<string>, start: nat, m: nat, n: nat)
    requires m <= n <= |headers| && start + n <= |cells|
    ensures DecodeBlock(headers, cells, start, m) <= DecodeBlock(headers, cells, start, n)
  {
    hide Decoded;
    if m < n {
      DecodePrefix(headers, cells, start, m, n - 1);
      var a, b := DecodeBlock(headers, cells, start, m), DecodeBlock(headers, cells, start, n - 1);
      assert DecodeBlock(headers, cells, start, n) == b + Decoded(headers[n - 1], cells[start + n - 1]);
      PrefixOfSum(a, b, Decoded(headers[n - 1], cells[start + n - 1]));
    }
  }

  lemma PrefixOfSum<T>(a: seq<T>, b: seq<T>, c: seq<T>)
    requires a <= b
    ensures a <= b + c
  {
  }

  lemma FilledFromMemRequest(es: seq<Metrics>, r: nat, b: nat)
    requires 4 <= b < 7 && r < |es| && |Used(es[r], b)| > 0
    requires Width(es, 3) > 0 && forall a :: 4 <= a < b ==> Width(es, a) == 0
    ensures WorkloadSeries(Filled(es), r, b) != Faithful(Used(Filled(es)[r], b))
  {
    hide DecodeBlock, Decoded, RowCells, Offset, Width, Used, Filled, AllTimesAgree, HeaderCell, LastTime, SameShape;
    var ds, x := Filled(es), Sample(0, 2.0);
    FilledIsRegular(es);
    forall a: nat | a < 7
      ensures Width(ds, a) == Width(es, a)
    {
      SameWidths(ds, es, a);
    }
    FilledUses(es, r, b);
    assert Rounded5(2.0) == 2.0;
    assert x == Faithful(Used(ds[r], b))[0];
    var w, name := Widths(ds, 7), WorkloadLayout().names[b];
    var headers, cells := HeaderBlock(ds, name, b), RowCells(w, ds[r], 7);
    FirstAfterMemRequest(w, b);
    OffsetsGrow(w, 3, b);
    OffsetsGrow(w, b, 7);
    RowLength(w, ds[r], 7);
    if x in WorkloadSeries(ds, r, b) {
      DecodedFrom(headers, cells, Offset(w, 3), w[b], x);
      var i :| 0 <= i < w[b] && x in Decoded(headers[i], cells[Offset(w, 3) + i]);
      NotTheSample(es, r, b, i, cells[Offset(w, 3) + i]);
    }
  }

  lemma FirstAfterMemRequest(w: seq<nat>, b: nat)
    requires |w| == 7 && 4 <= b < 7 && forall a :: 4 <= a < b ==> w[a] == 0
    ensures Offset(w, b) == Offset(w, 3) + w[3]
  {
    assert Offset(w, 4) == Offset(w, 3) + w[3];
    assert b > 4 ==> Offset(w, 5) == Offset(w, 4);
    assert b > 5 ==> Offset(w, 6) == Offset(w, 5);
  }

  lemma NotTheSample(es: seq<Metrics>, r: nat, b: nat, i: nat, cell: string)
    requires 4 <= b < 7 && r < |es| && i < Width(Filled(es), b)
    requires i == 0 ==> Width(Filled(es), 3) > 0 && cell == RowCells(Widths(Filled(es), 7), Filled(es)[r], 7)[ColumnOf(es, r)]
    ensures Sample(0, 2.0) !in Decoded(HeaderBlock(Filled(es), WorkloadLayout().names[b], b)[i], cell)
  {
    var ds := Filled(es);
    hide Filled, RowCells, Width, LastTime, HeaderCell, HeaderTime, Float642Str, ParseFloat, AllTimesAgree, Used, ValidLayout;
    NamesHaveNoDash(b);
    BlockHeaders(ds, WorkloadLayout().names[b], b);
    LastTimeExists(ds, b, i);
    var s :| 0 <= s < |ds| && i < |Used(ds[s], b)| && LastTime(ds, b, i) == Some(Used(ds[s], b)[i].timestamp);
    FilledUses(es, s, b);
    HeaderTimeOf(WorkloadLayout().names[b], i, LastTime(ds, b, i));
    if i == 0 {
      CellsInPlace(Widths(ds, 7), ds[r], 7, 3, 0);
      FilledUses(es, r, 3);
      NullAfterTheSamples(Used(ds[r], 3), 0);
      Float642StrParses(1.0);
    }
  }

  lemma NamesHaveNoDash(b: nat)
    requires b < 7
    ensures '-' !in WorkloadLayout().names[b]
  {
    WorkloadLayoutIsValid();
  }

  function ColumnOf(es: seq<Metrics>, r: nat): (c: nat)
    requires r < |es| && Width(Filled(es), 3) > 0
    ensures c < |RowCells(Widths(Filled(es), 7), Filled(es)[r], 7)|
  {
    CellsInPlace(Widths(Filled(es), 7), Filled(es)[r], 7, 3, 0);
    Offset(Widths(Filled(es), 7), 3)
  }

  /** There is no memory request column, or no column after them. */
  ghost predicate Harmless(ds: seq<Metrics>) {
    Width(ds, 3) == 0 || (Width(ds, 4) == 0 && Width(ds, 5) == 0 && Width(ds, 6) == 0)
  }

  lemma HarmlessSkew(ds: seq<Metrics>, r: nat, b: nat)
    requires Harmless(ds) && r < |ds| && b < 7
    ensures WorkloadSeries(ds, r, b) == Reread(ds, Used(ds[r], b), b)
  {
    hide Width, Reread, DecodeBlock;
    if b <= 3 {
    } else if Width(ds, 3) == 0 {
      WorkloadSeriesIsLoaded(ds, r, b);
      WorkloadSkew(Widths(ds, 7), b);
      WorkloadLayoutIsValid();
      UnskewedSeries(WorkloadLayout(), ds, r, b);
    } else {
      WidthCovers(ds, b, r);
      NothingDecoded(ds, r, b);
    }
  }

  lemma NothingDecoded(ds: seq<Metrics>, r: nat, b: nat)
    requires r < |ds| && 4 <= b < 7 && Width(ds, b) == 0 && Used(ds[r], b) == []
    ensures WorkloadSeries(ds, r, b) == Reread(ds, Used(ds[r], b), b)
  {
  }

  lemma SurvivesWhenHarmless(ds: seq<Metrics>)
    requires Harmless(ds)
    ensures WorkloadsSurvive(ds) <==> AllTimesAgree(WorkloadLayout(), ds)
  {
    hide Reread, Faithful, TimesAgree, WorkloadSeries, Harmless, Used;
    forall b: nat | b < 7
      ensures TimesAgree(ds, b) <==> forall r :: 0 <= r < |ds| ==> WorkloadSeries(ds, r, b) == Faithful(Used(ds[r], b))
    {
      TimesSurviveExactlyWhen(ds, b);
      forall r | 0 <= r < |ds|
        ensures WorkloadSeries(ds, r, b) == Reread(ds, Used(ds[r], b), b)
      {
        HarmlessSkew(ds, r, b);
      }
    }
    assert |WorkloadLayout().names| == 7;
    if WorkloadsSurvive(ds) {
      forall b | 0 <= b < 7
        ensures TimesAgree(ds, b)
      {
        assert forall r :: 0 <= r < |ds| ==> WorkloadSeries(ds, r, b) == Faithful(Used(ds[r], b));
      }
    }
    if AllTimesAgree(WorkloadLayout(), ds) {
      forall r, b | 0 <= r < |ds| && 0 <= b < 7
        ensures WorkloadSeries(ds, r, b) == Faithful(Used(ds[r], b))
      {
        assert TimesAgree(ds, b);
      }
    }
  }

  lemma LoadedIsKept(m: Cache, ks: seq<Key>, ds: seq<Metrics>)
    requires |ks| == |ds| && LoadedAs(m, ks, ds)
    ensures (forall r :: 0 <= r < |ks| ==> ks[r] in m && m[ks[r]] == Kept(WorkloadLayout(), ds[r])) <==> WorkloadsSurvive(ds)
  {
    hide WorkloadSeries, Faithful, Used;
    forall r | 0 <= r < |ks|
      ensures ks[r] in m
      ensures m[ks[r]] == Kept(WorkloadLayout(), ds[r]) <==>
              forall b :: 0 <= b < 7 ==> WorkloadSeries(ds, r, b) == Faithful(Used(ds[r], b))
    {
      LoadedEntryIsKept(m, ks, ds, r);
    }
  }

  lemma LoadedEntryIsKept(m: Cache, ks: seq<Key>, ds: seq<Metrics>, r: nat)
    requires |ks| == |ds| && LoadedAs(m, ks, ds) && r < |ks|
    ensures ks[r] in m
    ensures m[ks[r]] == Kept(WorkloadLayout(), ds[r]) <==>
            forall b :: 0 <= b < 7 ==> WorkloadSeries(ds, r, b) == Faithful(Used(ds[r], b))
  {
    hide WorkloadSeries, Faithful, Used;
    var first := WorkloadSeries(ds, r, 0);
    var entry, kept := m[ks[r]], Kept(WorkloadLayout(), ds[r]);
    assert |entry| == |kept| == 7;
    assert forall b :: 0 <= b < 7 ==> entry[b] == [WorkloadSeries(ds, r, b)] && kept[b] == [Faithful(Used(ds[r], b))];
    if forall b :: 0 <= b < 7 ==> WorkloadSeries(ds, r, b) == Faithful(Used(ds[r], b)) {
      assert forall b :: 0 <= b < 7 ==> entry[b] == kept[b];
    }
    if entry == kept {
      forall b | 0 <= b < 7
        ensures WorkloadSeries(ds, r, b) == Faithful(Used(ds[r], b))
      {
        assert entry[b][0] == kept[b][0];
      }
    }
  }

  /** A workload checkpoint round-trips just when it has two columns of samples and every series is read as it was
      saved. */
  lemma WorkloadRoundTrips(ks: seq<Key>, ds: seq<Metrics>)
    requires Saved(WorkloadLayout(), ks, ds)
    ensures RoundTrips(WorkloadLayout(), ks, ds) <==> Offset(Widths(ds, 7), 7) > 1 && WorkloadsSurvive(ds)
  {
    hide LoadTable, Table, Readable, LoadedAs, WorkloadLayout, Offset, WorkloadsSurvive, Kept, Saved;
    SavedAreAsLong(ks, ds);
    var l := WorkloadLayout();
    WorkloadLoad(ks, ds);
    if Offset(Widths(ds, 7), 7) > 1 {
      LoadedIsKept(LoadTable(l, Table(l, ks, ds)).value, ks, ds);
    }
  }

  lemma SavedAreAsLong(ks: seq<Key>, ds: seq<Metrics>)
    requires Saved(WorkloadLayout(), ks, ds)
    ensures |ks| == |ds|
  {
  }

  lemma WorkloadRoundTripsWhenHarmless(ks: seq<Key>, ds: seq<Metrics>)
    requires Saved(WorkloadLayout(), ks, ds)
    ensures Harmless(ds) ==>
              (RoundTrips(WorkloadLayout(), ks, ds) <==>
               Offset(Widths(ds, 7), 7) > 1 && AllTimesAgree(WorkloadLayout(), ds))
  {
    hide RoundTrips, Harmless, Offset, WorkloadsSurvive, AllTimesAgree, WorkloadLayout, Saved;
    WorkloadRoundTrips(ks, ds);
    if Harmless(ds) {
      SurvivesWhenHarmless(ds);
    }
  }

  lemma SameShapeSameColumns(ds: seq<Metrics>, es: seq<Metrics>)
    requires SameShape(ds, es)
    ensures Widths(ds, 7) == Widths(es, 7) && (Harmless(ds) <==> Harmless(es))
  {
    hide Width, SameShape;
    forall b: nat | b < 7
      ensures Width(ds, b) == Width(es, b)
    {
      SameWidths(ds, es, b);
    }
  }

  /** For workloads with the given numbers of samples, saving and loading gives all of them back, whatever the samples
      are, as long as their timestamps agree, just when there are two columns of samples or more, and no memory request
      column or no column after them. */
  lemma WorkloadRoundTripExactlyWhen(ks: seq<Key>, es: seq<Metrics>)
    requires Saved(WorkloadLayout(), ks, es)
    ensures (forall ds ::
               SameShape(ds, es) && AllTimesAgree(WorkloadLayout(), ds) ==> RoundTrips(WorkloadLayout(), ks, ds)) <==>
            Offset(Widths(es, 7), 7) > 1 && Harmless(es)
  {
    hide RoundTrips, Offset, AllTimesAgree, WorkloadLayout, Width, WorkloadsSurvive;
    forall ds | SameShape(ds, es) && AllTimesAgree(WorkloadLayout(), ds)
      ensures Offset(Widths(es, 7), 7) > 1 && Harmless(es) ==> RoundTrips(WorkloadLayout(), ks, ds)
    {
      SameShapeSameColumns(ds, es);
      WorkloadRoundTripsWhenHarmless(ks, ds);
    }
    FilledIsRegular(es);
    SameShapeSameColumns(Filled(es), es);
    WorkloadRoundTrips(ks, Filled(es));
    if !Harmless(es) {
      FilledIsMisread(es);
    }
  }

  /** One sample in all: its checkpoint is written and then refused. */
  lemma OneColumnIsRefused()
    ensures var ks, ds: seq<Metrics> := [["Deployment", "ns", "a"]], [[[[Sample(7, 1.0)]]]];
            && Saved(WorkloadLayout(), ks, ds) && Harmless(ds) && AllTimesAgree(WorkloadLayout(), ds)
            && !RoundTrips(WorkloadLayout(), ks, ds)
  {
    hide RoundTrips;
    var ks, ds: seq<Metrics> := [["Deployment", "ns", "a"]], [[[[Sample(7, 1.0)]]]];
    assert Width(ds, 0) == 1 by {
      assert ds[..0] == [];
    }
    assert forall b :: 1 <= b < 7 ==> Width(ds, b) == 0 by {
      assert ds[..0] == [];
    }
    OffsetAboveOne(Widths(ds, 7), 7);
    WorkloadRoundTrips(ks, ds);
  }

  lemma FilledIsMisread(es: seq<Metrics>)
    requires !Harmless(es)
    ensures !WorkloadsSurvive(Filled(es))
  {
    hide Width, WorkloadSeries, Faithful, Used, Filled;
    var b := if Width(es, 4) > 0 then 4 else if Width(es, 5) > 0 then 5 else 6;
    WidthIsReached(es, b);
    var r :| 0 <= r < |es| && |Used(es[r], b)| == Width(es, b);
    FilledFromMemRequest(es, r, b);
  }
}
