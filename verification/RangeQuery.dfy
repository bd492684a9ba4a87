/** Range queries, sharded and not, against one Prometheus server (pkg/datasource-providers/prom/ctx.go). */
module RangeQuery {
  import opened Wrappers
  import opened Series
  import opened Windows
  import opened ShardFold

  /** One point of an answer; Prometheus counts time in milliseconds. */
  datatype Pair = Pair(timeMs: int, value: real)
  datatype Stream = Stream(metric: Labels, values: seq<Pair>)
  datatype Point = Point(metric: Labels, pair: Pair)

  datatype PromValue =
    | Matrix(streams: seq<Option<Stream>>)
    | Vector(points: seq<Option<Point>>)
    | Scalar
    | String
    | NoValue

  type Api = Range -> Result<PromValue>

  /** t is the whole second that a time in milliseconds is in, counted toward zero. */
  ghost predicate InSecond(t: int, ms: int) {
    && (ms >= 0 ==> t * 1000 <= ms < (t + 1) * 1000)
    && (ms <= 0 ==> (t - 1) * 1000 < ms <= t * 1000)
  }

  /** int64(t / 1000): the quotient truncated toward zero. */
  function Seconds(ms: int): (t: int)
    ensures InSecond(t, ms)
  {
    if ms >= 0 then ms / 1000 else -(-ms / 1000)
  }

  function ToSamples(values: seq<Pair>): seq<Sample> {
    seq(|values|, i requires 0 <= i < |values| => Sample(Seconds(values[i].timeMs), values[i].value))
  }

  function AsStream(p: Option<Point>): Option<Stream> {
    if p.None? then None else Some(Stream(p.value.metric, [p.value.pair]))
  }

  ghost predicate Supported(value: PromValue) {
    value.Matrix? || value.Vector?
  }

  /** The streams of an answer, or the error for the kinds of value that are not supported. */
  function Streams(value: PromValue): (r: Result<seq<Option<Stream>>>)
    ensures r.Ok? <==> Supported(value)
  {
    match value
    case Matrix(streams) => Ok(streams)
    case Vector(points) => Ok(seq(|points|, i requires 0 <= i < |points| => AsStream(points[i])))
    case Scalar => Err("not support for scalar when use timeseries")
    case String => Err("not support for string when use timeseries")
    case NoValue => Err("prometheus return value type is none")
  }

  // ---- What a conversion has to give, point by point ----

  /** Entry i of an answer is a series of these points: a stream of a matrix, or a single point of a vector. */
  ghost predicate HasSeries(value: PromValue, i: nat, metric: Labels, points: seq<Pair>) {
    match value
    case Matrix(streams) => i < |streams| && streams[i] == Some(Stream(metric, points))
    case Vector(vector) => i < |vector| && |points| == 1 && vector[i] == Some(Point(metric, points[0]))
    case _ => false
  }

  /** A sample for every point, in order: the point's value at the second that the point is in. */
  ghost predicate ReadsOff(samples: seq<Sample>, points: seq<Pair>) {
    && |samples| == |points|
    && forall j :: 0 <= j < |points| ==>
         InSecond(samples[j].timestamp, points[j].timeMs) && samples[j].value == points[j].value
  }

  /** Every metric of the answer, with the points of its last series. */
  ghost predicate MapsSeries(value: PromValue, m: Data) {
    && (forall k :: k in m <==> exists i: nat, points :: HasSeries(value, i, k, points))
    && (forall i: nat, k, points :: HasSeries(value, i, k, points) && LastOf(value, i, k) ==> k in m && ReadsOff(m[k], points))
  }

  ghost predicate LastOf(value: PromValue, i: nat, metric: Labels) {
    forall j: nat, points :: j > i ==> !HasSeries(value, j, metric, points)
  }

  /** The series of the answer in order, without the nil entries; place n is where the n-th one is in the answer. */
  ghost predicate ListsSeriesAt(value: PromValue, list: seq<TimeSeries>, places: seq<nat>) {
    && |places| == |list|
    && (forall n, p :: 0 <= n < p < |places| ==> places[n] < places[p])
    && (forall n :: 0 <= n < |list| ==> IsEntry(value, places[n], list[n]))
    && (forall i: nat, k, points :: HasSeries(value, i, k, points) ==> i in places)
  }

  ghost predicate IsEntry(value: PromValue, i: nat, ts: TimeSeries) {
    exists points :: HasSeries(value, i, ts.labels, points) && ReadsOff(ts.samples, points)
  }

  ghost predicate ListsSeries(value: PromValue, list: seq<TimeSeries>) {
    exists places :: ListsSeriesAt(value, list, places)
  }

  lemma SamplesReadOff(points: seq<Pair>)
    ensures ReadsOff(ToSamples(points), points)
  {
  }

  lemma SeriesOfStreams(value: PromValue, i: nat, k: Labels, points: seq<Pair>)
    requires Supported(value)
    ensures HasSeries(value, i, k, points) <==>
            i < |Streams(value).value| && Streams(value).value[i] == Some(Stream(k, points))
  {
    if value.Vector? && i < |value.points| && |points| == 1 {
      assert [points[0]] == points;
    }
  }

  ghost predicate LastStreamOf(streams: seq<Option<Stream>>, i: nat, k: Labels) {
    && i < |streams| && streams[i].Some? && streams[i].value.metric == k
    && forall j :: i < j < |streams| ==> streams[j].None? || streams[j].value.metric != k
  }

  lemma {:induction false} ByMetricIsLast(streams: seq<Option<Stream>>, k: Labels)
    ensures k in ByMetric(streams) <==> exists i: nat :: LastStreamOf(streams, i, k)
    ensures forall i: nat :: LastStreamOf(streams, i, k) ==>
              k in ByMetric(streams) && ByMetric(streams)[k] == ToSamples(streams[i].value.values)
  {
    if streams != [] {
      var n := |streams| - 1;
      var front := streams[..n];
      ByMetricIsLast(front, k);
      hide ToSamples;
      assert forall i :: 0 <= i < n ==> front[i] == streams[i];
      if streams[n].Some? && streams[n].value.metric == k {
        assert LastStreamOf(streams, n, k);
      } else {
        assert forall i: nat :: LastStreamOf(streams, i, k) ==> LastStreamOf(front, i, k);
        assert forall i: nat :: LastStreamOf(front, i, k) ==> LastStreamOf(streams, i, k);
      }
    }
  }

  lemma {:induction false} SomeLast(streams: seq<Option<Stream>>, i: nat, k: Labels) returns (last: nat)
    requires i < |streams| && streams[i].Some? && streams[i].value.metric == k
    ensures LastStreamOf(streams, last, k)
    decreases |streams| - i
  {
    last := i;
    if j :| i < j < |streams| && streams[j].Some? && streams[j].value.metric == k {
      last := SomeLast(streams, j, k);
    }
  }

  /** Converting to a map gives what it has to give. */
  lemma ByMetricMapsSeries(value: PromValue)
    requires Supported(value)
    ensures MapsSeries(value, ByMetric(Streams(value).value))
  {
    hide HasSeries, ReadsOff, Streams, ByMetric, ToSamples, Supported;
    var streams := Streams(value).value;
    var m := ByMetric(streams);
    forall k
      ensures k in m <==> exists i: nat, points :: HasSeries(value, i, k, points)
    {
      ByMetricIsLast(streams, k);
      if i: nat :| LastStreamOf(streams, i, k) {
        SeriesOfStreams(value, i, k, streams[i].value.values);
      }
      if i: nat, points :| HasSeries(value, i, k, points) {
        SeriesOfStreams(value, i, k, points);
        var last := SomeLast(streams, i, k);
      }
    }
    forall i: nat, k, points | HasSeries(value, i, k, points) && LastOf(value, i, k)
      ensures k in m && ReadsOff(m[k], points)
    {
      SeriesOfStreams(value, i, k, points);
      forall j | i < j < |streams|
        ensures streams[j].None? || streams[j].value.metric != k
      {
        if streams[j].Some? {
          SeriesOfStreams(value, j, k, streams[j].value.values);
        }
      }
      assert LastStreamOf(streams, i, k);
      ByMetricIsLast(streams, k);
      SamplesReadOff(points);
    }
  }

  /** The places of the entries that are not nil. */
  ghost function Places(streams: seq<Option<Stream>>): seq<nat> {
    if streams == [] then []
    else
      var n := |streams| - 1;
      Places(streams[..n]) + if streams[n].None? then [] else [n]
  }

  lemma {:induction false} PlacesOfListed(streams: seq<Option<Stream>>)
    ensures |Places(streams)| == |Listed(streams)|
    ensures forall i: nat :: i in Places(streams) <==> i < |streams| && streams[i].Some?
    ensures forall n, p :: 0 <= n < p < |Places(streams)| ==> Places(streams)[n] < Places(streams)[p]
    ensures forall n :: 0 <= n < |Places(streams)| ==>
              var i := Places(streams)[n];
              && i < |streams| && streams[i].Some?
              && Listed(streams)[n] == TimeSeries(streams[i].value.metric, ToSamples(streams[i].value.values))
  {
    hide ToSamples;
    if streams != [] {
      var n := |streams| - 1;
      PlacesOfListed(streams[..n]);
      assert forall i :: 0 <= i < n ==> streams[..n][i] == streams[i];
      assert forall i :: 0 <= i < |Places(streams[..n])| ==> Places(streams[..n])[i] in Places(streams[..n]);
    }
  }

  /** Converting to a list gives what it has to give. */
  lemma ListedListsSeries(value: PromValue)
    requires Supported(value)
    ensures ListsSeries(value, Listed(Streams(value).value))
  {
    hide HasSeries, ReadsOff, Streams, Listed, ToSamples, Supported, Places;
    var streams := Streams(value).value;
    var list, places := Listed(streams), Places(streams);
    PlacesOfListed(streams);
    forall n | 0 <= n < |list|
      ensures IsEntry(value, places[n], list[n])
    {
      var s := streams[places[n]].value;
      SeriesOfStreams(value, places[n], s.metric, s.values);
      SamplesReadOff(s.values);
      assert HasSeries(value, places[n], list[n].labels, s.values);
    }
    forall i: nat, k, points | HasSeries(value, i, k, points)
      ensures i in places
    {
      SeriesOfStreams(value, i, k, points);
    }
    assert ListsSeriesAt(value, list, places);
  }

  function ByMetric(streams: seq<Option<Stream>>): Data {
    if streams == [] then map[]
    else
      var last := streams[|streams| - 1];
      var m := ByMetric(streams[..|streams| - 1]);
      if last.None? then m else m[last.value.metric := ToSamples(last.value.values)]
  }

  function Listed(streams: seq<Option<Stream>>): seq<TimeSeries> {
    if streams == [] then []
    else
      var last := streams[|streams| - 1];
      Listed(streams[..|streams| - 1]) +
      if last.None? then [] else [TimeSeries(last.value.metric, ToSamples(last.value.values))]
  }

  method ConvertSamples(values: seq<Pair>) returns (samples: seq<Sample>)
    ensures samples == ToSamples(values)
  {
    samples := [];
    for i := 0 to |values|
      invariant samples == ToSamples(values)[..i]
    {
      samples := samples + [Sample(Seconds(values[i].timeMs), values[i].value)];
    }
  }

  method ConvertPromResultsToTimeSeriesMap(value: PromValue) returns (r: Result<Data>)
    ensures r == match Streams(value) { case Err(e) => Err(e) case Ok(streams) => Ok(ByMetric(streams)) }
    ensures r.Ok? <==> Supported(value)
    ensures r.Ok? ==> MapsSeries(value, r.value)
  {
    hide MapsSeries;
    if Supported(value) {
      ByMetricMapsSeries(value);
    }
    match Streams(value) {
      case Err(e) => r := Err(e);
      case Ok(streams) =>
        var results: Data := map[];
        for i := 0 to |streams|
          invariant results == ByMetric(streams[..i])
        {
          assert streams[..i + 1][..i] == streams[..i];
          if streams[i].Some? {
            var samples := ConvertSamples(streams[i].value.values);
            results := results[streams[i].value.metric := samples];
          }
        }
        assert streams[..|streams|] == streams;
        r := Ok(results);
    }
  }

  method ConvertPromResultsToTimeSeries(value: PromValue) returns (r: Result<seq<TimeSeries>>)
    ensures r == match Streams(value) { case Err(e) => Err(e) case Ok(streams) => Ok(Listed(streams)) }
    ensures r.Ok? <==> Supported(value)
    ensures r.Ok? ==> ListsSeries(value, r.value)
  {
    hide ListsSeries;
    if Supported(value) {
      ListedListsSeries(value);
    }
    match Streams(value) {
      case Err(e) => r := Err(e);
      case Ok(streams) =>
        var results: seq<TimeSeries> := [];
        for i := 0 to |streams|
          invariant results == Listed(streams[..i])
        {
          assert streams[..i + 1][..i] == streams[..i];
          if streams[i].Some? {
            var samples := ConvertSamples(streams[i].value.values);
            results := results + [TimeSeries(streams[i].value.metric, samples)];
          }
        }
        assert streams[..|streams|] == streams;
        r := Ok(results);
    }
  }

  /** What one shard sends on the channel. */
  function ShardAnswer(api: Api, window: Range): Result<Data> {
    match api(window)
    case Err(e) => Err(e)
    case Ok(value) =>
      match Streams(value)
      case Err(e) => Err(e)
      case Ok(streams) => Ok(ByMetric(streams))
  }

  /** An order in which n shards can finish: every index once. */
  predicate IsArrivalOrder(order: seq<nat>, n: nat) {
    |order| == n && (forall i :: 0 <= i < n ==> order[i] < n) && forall i :: 0 <= i < n ==> i in order
  }

  function Arrivals(api: Api, shards: seq<Range>, order: seq<nat>): seq<Result<Data>>
    requires IsArrivalOrder(order, |shards|)
  {
    seq(|order|, i requires 0 <= i < |order| => ShardAnswer(api, shards[order[i]]))
  }

  /** A list that names every series of the map once, in any order. */
  ghost predicate Lists(results: seq<TimeSeries>, m: Data) {
    && (forall i, j :: 0 <= i < j < |results| ==> results[i].labels != results[j].labels)
    && (forall i :: 0 <= i < |results| ==> results[i].labels in m && results[i].samples == m[results[i].labels])
    && (forall k :: k in m ==> TimeSeries(k, m[k]) in results)
  }

  method ListSeries(m: Data) returns (results: seq<TimeSeries>)
    ensures Lists(results, m)
  {
    results := [];
    var keys := m.Keys;
    while keys != {}
      invariant keys <= m.Keys
      invariant forall i, j :: 0 <= i < j < |results| ==> results[i].labels != results[j].labels
      invariant forall i :: 0 <= i < |results| ==>
                  results[i].labels in m.Keys - keys && results[i].samples == m[results[i].labels]
      invariant forall k :: k in m.Keys - keys ==> TimeSeries(k, m[k]) in results
      decreases keys
    {
      var k :| k in keys;
      results := results + [TimeSeries(k, m[k])];
      keys := keys - {k};
    }
  }

  /** The body of one goroutine. */
  method QueryShard(api: Api, window: Range) returns (sent: Result<Data>)
    ensures sent == ShardAnswer(api, window)
  {
    match api(window) {
      case Err(e) => sent := Err(e);
      case Ok(value) => sent := ConvertPromResultsToTimeSeriesMap(value);
    }
  }

  /** Query every shard, then drain the answers in the order they arrived. */
  method QueryByShards(api: Api, shards: seq<Range>, order: seq<nat>)
    returns (results: seq<TimeSeries>, err: Option<string>)
    requires IsArrivalOrder(order, |shards|)
    ensures err.Some? <==> exists i :: 0 <= i < |shards| && ShardAnswer(api, shards[i]).Err?
    ensures Lists(results, Fold(Successes(Arrivals(api, shards, order))))
  {
    var channel: seq<Result<Data>> := [];
    hide ShardAnswer, Fold, Successes, Errors;
    for n := 0 to |order|
      invariant |channel| == n
      invariant forall i :: 0 <= i < n ==> channel[i] == ShardAnswer(api, shards[order[i]])
    {
      var sent := QueryShard(api, shards[order[n]]);
      channel := channel + [sent];
    }
    assert channel == Arrivals(api, shards, order);
    var resultsMap, errs := Drain(channel);
    results := ListSeries(resultsMap);
    err := if |errs| > 0 then Some("shards failed") else None;
    SomeShardFailed(api, shards, order);
  }

  lemma SomeShardFailed(api: Api, shards: seq<Range>, order: seq<nat>)
    requires IsArrivalOrder(order, |shards|)
    ensures Errors(Arrivals(api, shards, order)) != [] <==>
            exists i :: 0 <= i < |shards| && ShardAnswer(api, shards[i]).Err?
  {
    var arrivals := Arrivals(api, shards, order);
    ErrorsReported(arrivals);
    forall i | 0 <= i < |shards| && ShardAnswer(api, shards[i]).Err?
      ensures exists j :: 0 <= j < |arrivals| && arrivals[j].Err?
    {
      assert i in order;
      var j :| 0 <= j < |order| && order[j] == i;
      assert arrivals[j].Err?;
    }
  }

  // ---- One server, answering every query from the same data ----

  /** The data behind the server: the value of each series that exists at an instant (in ms). */
  type Oracle = int -> map<Labels, real>

  /** The points of series k at the n instants from grid index `from` on. */
  function Sampled(eval: Oracle, w: Range, k: Labels, from: int, n: nat): seq<Pair> {
    if n == 0 then []
    else
      var t := Instant(w, from + n - 1);
      Sampled(eval, w, k, from, n - 1) + if k in eval(t) then [Pair(t, eval(t)[k])] else []
  }

  function Seen(eval: Oracle, w: Range, n: nat): set<Labels> {
    set i, k | 0 <= i < n && k in eval(Instant(w, i)) :: k
  }

  /** The result restricted to the first n instants of the window. */
  function RangeResult(eval: Oracle, w: Range, n: nat): Data {
    map k | k in Seen(eval, w, n) :: ToSamples(Sampled(eval, w, k, 0, n))
  }

  ghost predicate IsMatrixOf(value: PromValue, eval: Oracle, w: Range)
    requires w.step > 0
  {
    && value.Matrix?
    && (forall i :: 0 <= i < |value.streams| ==>
          && value.streams[i].Some?
          && value.streams[i].value.metric in Seen(eval, w, PointCount(w))
          && value.streams[i].value.values == Sampled(eval, w, value.streams[i].value.metric, 0, PointCount(w)))
    && (forall i, j :: 0 <= i < j < |value.streams| ==>
          value.streams[i].value.metric != value.streams[j].value.metric)
    && (forall k :: k in Seen(eval, w, PointCount(w)) ==>
          exists i :: 0 <= i < |value.streams| && value.streams[i].value.metric == k)
  }

  /** The server answers from `eval` and turns away every query for more than serverLimit points. */
  ghost predicate Serves(api: Api, eval: Oracle, serverLimit: int) {
    forall r: Range :: r.step > 0 ==>
      if PointCount(r) > serverLimit then api(r).Err? else api(r).Ok? && IsMatrixOf(api(r).value, eval, r)
  }

  lemma {:induction false} ByMetricOfPrefix(value: PromValue, eval: Oracle, w: Range, n: nat)
    requires w.step > 0 && IsMatrixOf(value, eval, w) && n <= |value.streams|
    ensures forall k :: k in ByMetric(value.streams[..n]) <==>
                        exists i :: 0 <= i < n && value.streams[i].value.metric == k
    ensures forall k :: k in ByMetric(value.streams[..n]) ==>
                        ByMetric(value.streams[..n])[k] == ToSamples(Sampled(eval, w, k, 0, PointCount(w)))
  {
    hide Seen, Sampled, PointCount, ToSamples;
    if n > 0 {
      ByMetricOfPrefix(value, eval, w, n - 1);
      assert value.streams[..n][..n - 1] == value.streams[..n - 1];
    }
  }

  lemma MatrixByMetric(value: PromValue, eval: Oracle, w: Range)
    requires w.step > 0 && IsMatrixOf(value, eval, w)
    ensures ByMetric(value.streams) == RangeResult(eval, w, PointCount(w))
  {
    ByMetricOfPrefix(value, eval, w, |value.streams|);
    assert value.streams[..|value.streams|] == value.streams;
  }
}
