/** Small checkpoints, written out: the columns by their names, and numbers as they are printed
    (pkg/cost-comparator/comparator.go). */
module CheckpointExamples {
  import opened Wrappers
  import opened Series
  import opened Decimal
  import opened CheckpointTable

  /** One entry with one sample of every metric. */
  function Single(xs: seq<Sample>): Metrics {
    seq(|xs|, b requires 0 <= b < |xs| => [[xs[b]]])
  }

  lemma SingleUsed(xs: seq<Sample>, b: nat)
    requires b < |xs|
    ensures Used(Single(xs), b) == [xs[b]]
    ensures Width([Single(xs)], b) == 1 && LastTime([Single(xs)], b, 0) == Some(xs[b].timestamp)
  {
    assert [Single(xs)][..0] == [];
  }

  lemma {:induction false} SingleHeaders(l: Layout, xs: seq<Sample>, n: nat)
    requires n <= |l.names| == |xs|
    ensures HeaderCells([Single(xs)], l.names, n) ==
            seq(n, b requires 0 <= b < n => l.names[b] + "-0-" + FormatInt(xs[b].timestamp))
  {
    hide FormatInt, Width, LastTime, Used, Single, HeaderBlock;
    if n > 0 {
      SingleHeaders(l, xs, n - 1);
      SingleHeader(xs, l.names[n - 1], n - 1);
    }
  }

  lemma SingleHeader(xs: seq<Sample>, name: string, b: nat)
    requires b < |xs|
    ensures HeaderBlock([Single(xs)], name, b) == [name + "-0-" + FormatInt(xs[b].timestamp)]
  {
    hide FormatInt, Width, LastTime, Used, Single, HeaderCell;
    SingleUsed(xs, b);
    HeaderText(name, xs[b].timestamp);
  }

  lemma {:induction false} SingleCells(l: Layout, xs: seq<Sample>, n: nat)
    requires n <= |l.names| == |xs|
    ensures RowCells(Widths([Single(xs)], |l.names|), Single(xs), n) ==
            seq(n, b requires 0 <= b < n => Float642Str(xs[b].value))
  {
    hide Float642Str, Width, Used, Single;
    if n > 0 {
      SingleCells(l, xs, n - 1);
      SingleUsed(xs, n - 1);
      assert BlockCells([xs[n - 1]], 1) == [Float642Str(xs[n - 1].value)];
    }
  }

  lemma HeaderText(name: string, time: int)
    ensures HeaderCell(name, 0, Some(time)) == name + "-0-" + FormatInt(time)
  {
    assert Itoa(0) == "0";
    assert name + "-" + "0" + "-" == name + "-0-";
  }

  /** A container with one sample of every metric, in the order CPU and memory usage, requests and limits. */
  lemma ContainerColumns(k: Key, xs: seq<Sample>)
    requires |xs| == 6
    ensures Table(ContainerLayout(), [k], [Single(xs)]) == [
              ["Kind", "Namespace", "Name", "Container"] +
              ["CpuUsage-0-" + FormatInt(xs[0].timestamp), "MemUsage-0-" + FormatInt(xs[1].timestamp),
               "CpuRequest-0-" + FormatInt(xs[2].timestamp), "MemRequest-0-" + FormatInt(xs[3].timestamp),
               "CpuLimit-0-" + FormatInt(xs[4].timestamp), "MemLimit-0-" + FormatInt(xs[5].timestamp)],
              k + [Float642Str(xs[0].value), Float642Str(xs[1].value), Float642Str(xs[2].value),
                   Float642Str(xs[3].value), Float642Str(xs[4].value), Float642Str(xs[5].value)]]
  {
    hide HeaderCells, RowCells, FormatInt, Float642Str, Single, Width;
    var l := ContainerLayout();
    SingleHeaders(l, xs, 6);
    SingleCells(l, xs, 6);
    Prefixes();
    TableOfOne(l, k, Single(xs));
    var d := Single(xs);
    assert HeaderCells([d], l.names, 6) ==
           ["CpuUsage-0-" + FormatInt(xs[0].timestamp), "MemUsage-0-" + FormatInt(xs[1].timestamp),
            "CpuRequest-0-" + FormatInt(xs[2].timestamp), "MemRequest-0-" + FormatInt(xs[3].timestamp),
            "CpuLimit-0-" + FormatInt(xs[4].timestamp), "MemLimit-0-" + FormatInt(xs[5].timestamp)];
    assert RowCells(Widths([d], 6), d, 6) ==
           [Float642Str(xs[0].value), Float642Str(xs[1].value), Float642Str(xs[2].value), Float642Str(xs[3].value),
            Float642Str(xs[4].value), Float642Str(xs[5].value)];
  }

  /** A workload with one sample of every metric: the same, without a container and with replicas. */
  lemma WorkloadColumns(k: Key, xs: seq<Sample>)
    requires |xs| == 7
    ensures Table(WorkloadLayout(), [k], [Single(xs)]) == [
              ["Kind", "Namespace", "Name"] +
              ["CpuUsage-0-" + FormatInt(xs[0].timestamp), "MemUsage-0-" + FormatInt(xs[1].timestamp),
               "CpuRequest-0-" + FormatInt(xs[2].timestamp), "MemRequest-0-" + FormatInt(xs[3].timestamp),
               "CpuLimit-0-" + FormatInt(xs[4].timestamp), "MemLimit-0-" + FormatInt(xs[5].timestamp),
               "Replicas-0-" + FormatInt(xs[6].timestamp)],
              k + [Float642Str(xs[0].value), Float642Str(xs[1].value), Float642Str(xs[2].value),
                   Float642Str(xs[3].value), Float642Str(xs[4].value), Float642Str(xs[5].value),
                   Float642Str(xs[6].value)]]
  {
    hide HeaderCells, RowCells, FormatInt, Float642Str, Single, Width;
    var l := WorkloadLayout();
    SingleHeaders(l, xs, 7);
    SingleCells(l, xs, 7);
    Prefixes();
    TableOfOne(l, k, Single(xs));
    var d := Single(xs);
    assert HeaderCells([d], l.names, 7) ==
           ["CpuUsage-0-" + FormatInt(xs[0].timestamp), "MemUsage-0-" + FormatInt(xs[1].timestamp),
            "CpuRequest-0-" + FormatInt(xs[2].timestamp), "MemRequest-0-" + FormatInt(xs[3].timestamp),
            "CpuLimit-0-" + FormatInt(xs[4].timestamp), "MemLimit-0-" + FormatInt(xs[5].timestamp),
            "Replicas-0-" + FormatInt(xs[6].timestamp)];
    assert RowCells(Widths([d], 7), d, 7) ==
           [Float642Str(xs[0].value), Float642Str(xs[1].value), Float642Str(xs[2].value), Float642Str(xs[3].value),
            Float642Str(xs[4].value), Float642Str(xs[5].value), Float642Str(xs[6].value)];
  }

  lemma Prefixes()
    ensures "CpuUsage" + "-0-" == "CpuUsage-0-" && "MemUsage" + "-0-" == "MemUsage-0-"
    ensures "CpuRequest" + "-0-" == "CpuRequest-0-" && "MemRequest" + "-0-" == "MemRequest-0-"
    ensures "CpuLimit" + "-0-" == "CpuLimit-0-" && "MemLimit" + "-0-" == "MemLimit-0-"
    ensures "Replicas" + "-0-" == "Replicas-0-"
  {
  }

  lemma TableOfOne(l: Layout, k: Key, d: Metrics)
    ensures Table(l, [k], [d]) ==
            [l.keyNames + HeaderCells([d], l.names, |l.names|), k + RowCells(Widths([d], |l.names|), d, |l.names|)]
  {
    hide HeaderCells, RowCells, Widths;
  }

  /** Five decimals, halves to even, and a sign only when there is something to sign. */
  lemma PrintedSamples()
    ensures Float642Str(1.0) == "1.00000" && Float642Str(-12.5) == "-12.50000"
    ensures Float642Str(0.000005) == "0.00000" && Float642Str(0.000015) == "0.00002"
  {
    hide Float642Str, FixedBody, Round;
    Printed(1.0, 100000);
    Printed(-12.5, -1250000);
    Printed(0.000005, 0);
    Printed(0.000015, 2);
    Bodies();
  }

  lemma Printed(v: real, units: int)
    requires var x := v * 100000.0 - units as real;
             -0.5 < x < 0.5 || ((x == 0.5 || x == -0.5) && units % 2 == 0)
    ensures Float642Str(v) == Fixed5(units)
  {
    hide Fixed5;
    assert Round(v * 100000.0) == units;
  }

  lemma Bodies()
    ensures FixedBody(100000) == "1.00000" && FixedBody(1250000) == "12.50000"
    ensures FixedBody(0) == "0.00000" && FixedBody(2) == "0.00002"
  {
    hide Itoa, Pad;
    SmallIntegers();
    Fractions();
  }

  lemma SmallIntegers()
    ensures Itoa(0) == "0" && Itoa(1) == "1" && Itoa(12) == "12"
  {
    assert Itoa(2) == "2";
    assert "1" + [Digit(2)] == "12";
  }

  lemma Fractions()
    ensures Pad(0, 5) == "00000" && Pad(2, 5) == "00002" && Pad(50000, 5) == "50000"
  {
    hide Pad;
    PadNext(0, 1);
    PadNext(0, 2);
    PadNext(0, 3);
    PadNext(0, 4);
    PadNext(0, 5);
    PadNext(2, 5);
    PadNext(5, 1);
    PadNext(50, 2);
    PadNext(500, 3);
    PadNext(5000, 4);
    PadNext(50000, 5);
  }

  lemma PadNext(n: nat, k: nat)
    requires k > 0
    ensures Pad(n, k) == Pad(n / 10, k - 1) + [Digit(n % 10)] && Pad(0, 0) == Pad(n, 0) == ""
  {
  }

  lemma PrintedTimes()
    ensures FormatInt(0) == "0" && FormatInt(-70) == "-70" && FormatInt(1700) == "1700"
  {
    assert Itoa(0) == "0" && Itoa(1) == "1" && Itoa(7) == "7";
    assert Itoa(17) == "17";
    assert Itoa(70) == "70";
    assert Itoa(170) == "170";
    assert Itoa(1700) == "1700";
  }
}
