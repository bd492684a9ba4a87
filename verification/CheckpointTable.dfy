/** The checkpoint of container or workload time series as a table of strings, and how it is written
    (pkg/cost-comparator/comparator.go). */
module CheckpointTable {
  import opened Wrappers
  import opened Numbers
  import opened Series
  import opened Text
  import opened Decimal

  /** For each metric, the series fetched for it; only the first one is saved. */
  type Metrics = seq<seq<seq<Sample>>>

  /** Kind, namespace, name and, for containers, the container. */
  type Key = seq<string>

  /** The key columns, one block of columns per metric, and the blocks after which the loader forgets to advance. */
  datatype Layout = Layout(keyNames: seq<string>, names: seq<string>, unadvanced: set<nat>)

  function ContainerLayout(): Layout {
    Layout(["Kind", "Namespace", "Name", "Container"],
           ["CpuUsage", "MemUsage", "CpuRequest", "MemRequest", "CpuLimit", "MemLimit"],
           {})
  }

  /** The workload loader does not advance past the MemRequest block. */
  function WorkloadLayout(): Layout {
    Layout(["Kind", "Namespace", "Name"],
           ["CpuUsage", "MemUsage", "CpuRequest", "MemRequest", "CpuLimit", "MemLimit", "Replicas"],
           {3})
  }

  ghost predicate ValidLayout(l: Layout) {
    && (forall i :: 0 <= i < |l.keyNames| ==> '-' !in l.keyNames[i])
    && (forall b :: 0 <= b < |l.names| ==> '-' !in l.names[b])
    && (forall a, b :: 0 <= a < b < |l.names| ==> l.names[a] != l.names[b])
  }

  lemma ContainerLayoutIsValid()
    ensures ValidLayout(ContainerLayout())
  {
    hide ContainerLayout;
    KeyNamesHaveNoDash();
    MetricNamesHaveNoDash();
    MetricNamesDiffer();
  }

  lemma KeyNamesHaveNoDash()
    ensures forall i :: 0 <= i < |ContainerLayout().keyNames| ==> '-' !in ContainerLayout().keyNames[i]
  {
  }

  lemma MetricNamesHaveNoDash()
    ensures forall b :: 0 <= b < |ContainerLayout().names| ==> '-' !in ContainerLayout().names[b]
  {
  }

  lemma MetricNamesDiffer()
    ensures forall a, b :: 0 <= a < b < |ContainerLayout().names| ==> ContainerLayout().names[a] != ContainerLayout().names[b]
  {
    assert "CpuUsage"[0] == 'C' && "MemUsage"[0] == 'M' && "CpuRequest"[0] == 'C' && "MemRequest"[0] == 'M';
    assert "CpuUsage"[3] == 'U' == "MemUsage"[3] && "CpuLimit"[3] == 'L' == "MemLimit"[3];
  }

  lemma WorkloadLayoutIsValid()
    ensures ValidLayout(WorkloadLayout())
  {
    var l, c := WorkloadLayout(), ContainerLayout();
    ContainerLayoutIsValid();
    assert l.names == c.names + ["Replicas"] && l.keyNames == c.keyNames[..3];
    assert "Replicas"[0] == 'R' && forall b :: 0 <= b < |c.names| ==> c.names[b][0] in "CM";
  }

  /** Metric b has a first series with an i-th sample: what a checkpoint is to hold. */
  ghost predicate HasSample(d: Metrics, b: nat, i: nat) {
    b < |d| && d[b] != [] && i < |d[b][0]|
  }

  /** The samples that are saved for metric b. */
  function Used(d: Metrics, b: nat): seq<Sample> {
    if b < |d| && d[b] != [] then d[b][0] else []
  }

  function Width(ds: seq<Metrics>, b: nat): nat {
    if ds == [] then 0 else Max(Width(ds[..|ds| - 1], b), |Used(ds[|ds| - 1], b)|)
  }

  function Widths(ds: seq<Metrics>, n: nat): seq<nat> {
    seq(n, b requires 0 <= b < n => Width(ds, b))
  }

  /** The timestamp of the last row that has an i-th sample of metric b. */
  function LastTime(ds: seq<Metrics>, b: nat, i: nat): Option<int> {
    if ds == [] then None
    else
      var last := Used(ds[|ds| - 1], b);
      if i < |last| then Some(last[i].timestamp) else LastTime(ds[..|ds| - 1], b, i)
  }

  function HeaderCell(name: string, i: nat, time: Option<int>): string {
    name + "-" + Itoa(i) + if time.None? then "" else "-" + FormatInt(time.value)
  }

  function HeaderBlock(ds: seq<Metrics>, name: string, b: nat): seq<string> {
    seq(Width(ds, b), i requires 0 <= i => HeaderCell(name, i, LastTime(ds, b, i)))
  }

  function Cell(samples: seq<Sample>, i: nat): string {
    if i < |samples| then Float642Str(samples[i].value) else "null"
  }

  function BlockCells(samples: seq<Sample>, width: nat): seq<string> {
    seq(width, i requires 0 <= i => Cell(samples, i))
  }

  /** The first n blocks of a row. */
  function RowCells(widths: seq<nat>, d: Metrics, n: nat): seq<string>
    requires n <= |widths|
  {
    if n == 0 then [] else RowCells(widths, d, n - 1) + BlockCells(Used(d, n - 1), widths[n - 1])
  }

  function HeaderCells(ds: seq<Metrics>, names: seq<string>, n: nat): seq<string>
    requires n <= |names|
  {
    if n == 0 then [] else HeaderCells(ds, names, n - 1) + HeaderBlock(ds, names[n - 1], n - 1)
  }

  function Header(l: Layout, ds: seq<Metrics>): seq<string> {
    l.keyNames + HeaderCells(ds, l.names, |l.names|)
  }

  function Row(l: Layout, widths: seq<nat>, k: Key, d: Metrics): seq<string>
    requires |widths| == |l.names|
  {
    k + RowCells(widths, d, |l.names|)
  }

  /** The whole table for the entries in the order given. */
  function Table(l: Layout, ks: seq<Key>, ds: seq<Metrics>): seq<seq<string>>
    requires |ks| == |ds|
  {
    [Header(l, ds)] +
    seq(|ks|, r requires 0 <= r < |ks| => Row(l, Widths(ds, |l.names|), ks[r], ds[r]))
  }

  // ---- Properties of the table ----

  lemma {:induction false} WidthCovers(ds: seq<Metrics>, b: nat, r: nat)
    requires r < |ds|
    ensures |Used(ds[r], b)| <= Width(ds, b)
  {
    if r < |ds| - 1 {
      WidthCovers(ds[..|ds| - 1], b, r);
    }
  }

  lemma {:induction false} WidthIsReached(ds: seq<Metrics>, b: nat)
    ensures Width(ds, b) > 0 ==> exists r :: 0 <= r < |ds| && |Used(ds[r], b)| == Width(ds, b)
  {
    if ds != [] {
      WidthIsReached(ds[..|ds| - 1], b);
      if |Used(ds[|ds| - 1], b)| < Width(ds, b) {
        var r :| 0 <= r < |ds| - 1 && |Used(ds[..|ds| - 1][r], b)| == Width(ds, b);
        assert ds[r] == ds[..|ds| - 1][r];
      }
    }
  }

  /** Every header cell of a block ends up with the timestamp of some row that has the sample. */
  lemma {:induction false} LastTimeExists(ds: seq<Metrics>, b: nat, i: nat)
    ensures LastTime(ds, b, i).Some? <==> i < Width(ds, b)
    ensures LastTime(ds, b, i).Some? ==>
              exists r :: 0 <= r < |ds| && i < |Used(ds[r], b)| && LastTime(ds, b, i) == Some(Used(ds[r], b)[i].timestamp)
  {
    if ds != [] {
      LastTimeExists(ds[..|ds| - 1], b, i);
      if i < |Used(ds[|ds| - 1], b)| {
      } else if i < Width(ds, b) {
        var r :| 0 <= r < |ds| - 1 && i < |Used(ds[..|ds| - 1][r], b)| &&
                  LastTime(ds, b, i) == Some(Used(ds[..|ds| - 1][r], b)[i].timestamp);
        assert ds[r] == ds[..|ds| - 1][r];
      }
    }
  }

  function Offset(widths: seq<nat>, n: nat): nat
    requires n <= |widths|
  {
    if n == 0 then 0 else Offset(widths, n - 1) + widths[n - 1]
  }

  lemma {:induction false} RowLength(widths: seq<nat>, d: Metrics, n: nat)
    requires n <= |widths|
    ensures |RowCells(widths, d, n)| == Offset(widths, n)
  {
    if n > 0 {
      RowLength(widths, d, n - 1);
    }
  }

  lemma {:induction false} HeaderLength(ds: seq<Metrics>, names: seq<string>, n: nat)
    requires n <= |names|
    ensures |HeaderCells(ds, names, n)| == Offset(Widths(ds, |names|), n)
  {
    if n > 0 {
      HeaderLength(ds, names, n - 1);
    }
  }

  lemma {:induction false} CellsInPlace(widths: seq<nat>, d: Metrics, n: nat, b: nat, i: nat)
    requires b < n <= |widths| && i < widths[b]
    ensures Offset(widths, b) + i < Offset(widths, n) == |RowCells(widths, d, n)|
    ensures RowCells(widths, d, n)[Offset(widths, b) + i] == Cell(Used(d, b), i)
  {
    hide Cell, Used;
    var front, block := RowCells(widths, d, n - 1), BlockCells(Used(d, n - 1), widths[n - 1]);
    RowLength(widths, d, n);
    RowLength(widths, d, n - 1);
    assert RowCells(widths, d, n) == front + block;
    if b < n - 1 {
      CellsInPlace(widths, d, n - 1, b, i);
      assert (front + block)[Offset(widths, b) + i] == front[Offset(widths, b) + i];
    } else {
      assert (front + block)[|front| + i] == block[i];
    }
  }

  lemma {:induction false} HeadersInPlace(ds: seq<Metrics>, names: seq<string>, n: nat, b: nat, i: nat)
    requires b < n <= |names| && i < Width(ds, b)
    ensures Offset(Widths(ds, |names|), b) + i < Offset(Widths(ds, |names|), n) == |HeaderCells(ds, names, n)|
    ensures HeaderCells(ds, names, n)[Offset(Widths(ds, |names|), b) + i] ==
            HeaderCell(names[b], i, LastTime(ds, b, i))
  {
    hide HeaderCell, LastTime, Width;
    var front, block := HeaderCells(ds, names, n - 1), HeaderBlock(ds, names[n - 1], n - 1);
    HeaderLength(ds, names, n);
    HeaderLength(ds, names, n - 1);
    assert HeaderCells(ds, names, n) == front + block;
    var at := Offset(Widths(ds, |names|), b) + i;
    if b < n - 1 {
      HeadersInPlace(ds, names, n - 1, b, i);
      assert (front + block)[at] == front[at];
    } else {
      assert (front + block)[|front| + i] == block[i];
    }
  }

  /** The table is rectangular, and in every row the cells of a block are its values followed by nulls only. */
  lemma TableShape(l: Layout, ks: seq<Key>, ds: seq<Metrics>, r: nat, b: nat, i: nat)
    requires |ks| == |ds| && r < |ks| && |ks[r]| == |l.keyNames|
    requires b < |l.names| && i < Width(ds, b)
    ensures var t, w := Table(l, ks, ds), Widths(ds, |l.names|);
            && |t[r + 1]| == |t[0]| == |l.keyNames| + Offset(w, |l.names|)
            && Offset(w, b) + i < Offset(w, |l.names|)
            && t[r + 1][|l.keyNames| + Offset(w, b) + i] == Cell(Used(ds[r], b), i)
            && t[0][|l.keyNames| + Offset(w, b) + i] == HeaderCell(l.names[b], i, LastTime(ds, b, i))
    ensures Cell(Used(ds[r], b), i) == "null" <==> i >= |Used(ds[r], b)|
  {
    hide Cell, HeaderCell, LastTime, Width, Used, Offset, RowCells, HeaderCells;
    var w := Widths(ds, |l.names|);
    CellsInPlace(w, ds[r], |l.names|, b, i);
    HeadersInPlace(ds, l.names, |l.names|, b, i);
    NullAfterTheSamples(Used(ds[r], b), i);
    var at, cells, headers := Offset(w, b) + i, RowCells(w, ds[r], |l.names|), HeaderCells(ds, l.names, |l.names|);
    assert (ks[r] + cells)[|l.keyNames| + at] == cells[at];
    assert (l.keyNames + headers)[|l.keyNames| + at] == headers[at];
  }

  /** Column c holds the i-th sample of metric b: its header says which one it is, and the cell has its value. */
  ghost predicate IsInColumn(l: Layout, header: seq<string>, row: seq<string>, d: Metrics, b: nat, i: nat, c: nat)
    requires b < |l.names| && HasSample(d, b, i)
  {
    && |l.keyNames| <= c < |header| && c < |row|
    && l.names[b] + "-" + Itoa(i) + "-" <= header[c]
    && row[c] == Float642Str(d[b][0][i].value)
  }

  /** Rows of equal length, one for every entry, that begin with its key and have a column for every sample of the first
      series of every metric. */
  ghost predicate SavesSamples(l: Layout, ks: seq<Key>, ds: seq<Metrics>, lines: seq<seq<string>>)
    requires |ks| == |ds|
  {
    && |lines| == |ks| + 1 && l.keyNames <= lines[0]
    && (forall r :: 0 <= r < |ks| ==> ks[r] <= lines[r + 1] && |lines[r + 1]| == |lines[0]|)
    && forall r :: 0 <= r < |ks| ==> SavesRow(l, lines[0], lines[r + 1], ds[r])
  }

  ghost predicate SavesRow(l: Layout, header: seq<string>, row: seq<string>, d: Metrics) {
    forall b: nat, i: nat :: b < |l.names| && HasSample(d, b, i) ==> HasColumn(l, header, row, d, b, i)
  }

  ghost predicate HasColumn(l: Layout, header: seq<string>, row: seq<string>, d: Metrics, b: nat, i: nat)
    requires b < |l.names| && HasSample(d, b, i)
  {
    exists c: nat :: IsInColumn(l, header, row, d, b, i, c)
  }

  lemma UsedIsTheFirst(d: Metrics, b: nat, i: nat)
    ensures HasSample(d, b, i) <==> i < |Used(d, b)|
    ensures HasSample(d, b, i) ==> Used(d, b)[i] == d[b][0][i]
  {
  }

  lemma TableSavesSamples(l: Layout, ks: seq<Key>, ds: seq<Metrics>)
    requires |ks| == |ds| && forall r :: 0 <= r < |ks| ==> |ks[r]| == |l.keyNames|
    ensures SavesSamples(l, ks, ds, Table(l, ks, ds))
  {
    hide Used, Width, LastTime, Offset, RowCells, HeaderCells, SavesRow;
    var t, w := Table(l, ks, ds), Widths(ds, |l.names|);
    forall r | 0 <= r < |ks|
      ensures ks[r] <= t[r + 1] && |t[r + 1]| == |t[0]|
    {
      RowLength(w, ds[r], |l.names|);
      HeaderLength(ds, l.names, |l.names|);
    }
    forall r | 0 <= r < |ks|
      ensures SavesRow(l, t[0], t[r + 1], ds[r])
    {
      RowIsSaved(l, ks, ds, r);
    }
  }

  lemma RowIsSaved(l: Layout, ks: seq<Key>, ds: seq<Metrics>, r: nat)
    requires |ks| == |ds| && r < |ks| && |ks[r]| == |l.keyNames|
    ensures SavesRow(l, Table(l, ks, ds)[0], Table(l, ks, ds)[r + 1], ds[r])
  {
    hide Used, Width, LastTime, Offset, Header, Row, HeaderCell, Float642Str, Itoa;
    var t, w := Table(l, ks, ds), Widths(ds, |l.names|);
    forall b: nat, i: nat | b < |l.names| && HasSample(ds[r], b, i)
      ensures HasColumn(l, t[0], t[r + 1], ds[r], b, i)
    {
      UsedIsTheFirst(ds[r], b, i);
      WidthCovers(ds, b, r);
      TableShape(l, ks, ds, r, b, i);
      LastTimeExists(ds, b, i);
      HeaderBegins(l.names[b], i, LastTime(ds, b, i));
      assert IsInColumn(l, t[0], t[r + 1], ds[r], b, i, |l.keyNames| + Offset(w, b) + i);
    }
  }

  lemma HeaderBegins(name: string, i: nat, time: Option<int>)
    requires time.Some?
    ensures name + "-" + Itoa(i) + "-" <= HeaderCell(name, i, time)
  {
  }

  lemma NullAfterTheSamples(samples: seq<Sample>, i: nat)
    ensures Cell(samples, i) == "null" <==> i >= |samples|
  {
    if i < |samples| {
      Float642StrParses(samples[i].value);
    }
  }

  lemma NoDashInDigits(s: string)
    requires IsDigits(s)
    ensures '-' !in s
  {
  }

  /** The pieces of a header cell between the dashes. */
  lemma HeaderSplits(name: string, i: nat, time: Option<int>)
    requires '-' !in name
    ensures |Split(HeaderCell(name, i, time), '-')| >= 2
    ensures Split(HeaderCell(name, i, time), '-')[0] == name && Split(HeaderCell(name, i, time), '-')[1] == Itoa(i)
    ensures time.None? ==> |Split(HeaderCell(name, i, time), '-')| == 2
    ensures time.Some? ==>
              Split(HeaderCell(name, i, time), '-')[2..] == Split(FormatInt(time.value), '-')
  {
    hide Split, Itoa, FormatInt;
    NoDashInDigits(Itoa(i));
    if time.None? {
      assert HeaderCell(name, i, time) == name + ['-'] + Itoa(i);
      SplitFirst(name, '-', Itoa(i));
      SplitOne(Itoa(i), '-');
    } else {
      var tail := Itoa(i) + ['-'] + FormatInt(time.value);
      assert HeaderCell(name, i, time) == name + ['-'] + tail;
      SplitFirst(name, '-', tail);
      SplitFirst(Itoa(i), '-', FormatInt(time.value));
    }
  }
}
