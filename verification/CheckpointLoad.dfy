/** Reading a checkpoint: LoadContainerTimeSeriesDataFromCheckpoint and LoadWorkloadTimeSeriesDataFromCheckpoint
    (pkg/cost-comparator/comparator.go). */
module CheckpointLoad {
  import opened Wrappers
  import opened Series
  import opened Text
  import opened Decimal
  import opened CheckpointTable

  /** The header fields that start with a prefix, in order. */
  function WithPrefix(fields: seq<string>, prefix: string): seq<string> {
    if fields == [] then []
    else
      var last := fields[|fields| - 1];
      WithPrefix(fields[..|fields| - 1], prefix) + if prefix <= last then [last] else []
  }

  /** The header cells of every metric. */
  function HeadersOf(l: Layout, fields: seq<string>): seq<seq<string>> {
    seq(|l.names|, b requires 0 <= b < |l.names| => WithPrefix(fields, l.names[b] + "-"))
  }

  /** The third dash-separated piece of a header cell as a number, or zero. */
  function HeaderTime(cell: string): int {
    var splits := Split(cell, '-');
    if |splits| >= 3 then ParseInt(splits[2]).GetOr(0) else 0
  }

  function Decoded(header: string, cell: string): seq<Sample> {
    if cell == "null" then []
    else
      var v := ParseFloat(cell);
      if v.None? then [] else [Sample(HeaderTime(header), v.value)]
  }

  /** The samples of the first n columns of a block that starts at column `start`. */
  function DecodeBlock(headers: seq<string>, cells: seq<string>, start: nat, n: nat): seq<Sample>
    requires n <= |headers| && start + n <= |cells|
  {
    if n == 0 then []
    else DecodeBlock(headers, cells, start, n - 1) + Decoded(headers[n - 1], cells[start + n - 1])
  }

  /** Where the loader takes block b to start: it advances past every earlier block but the forgotten ones. */
  function LoaderOffset(l: Layout, headers: seq<seq<string>>, b: nat): nat
    requires b <= |headers|
  {
    if b == 0 then 0
    else LoaderOffset(l, headers, b - 1) + if b - 1 in l.unadvanced then 0 else |headers[b - 1]|
  }

  ghost predicate BlocksFit(l: Layout, headers: seq<seq<string>>, columns: int) {
    |l.keyNames| <= columns &&
    forall b :: 0 <= b < |headers| ==> |l.keyNames| + LoaderOffset(l, headers, b) + |headers[b]| <= columns
  }

  /** What the loader relies on: the CSV reader only returns tables with rows of equal length, and the columns that
      carry a metric's prefix are not key columns, so that no row is indexed out of range. */
  ghost predicate Readable(l: Layout, lines: seq<seq<string>>) {
    lines != [] ==>
      && (forall r :: 0 <= r < |lines| ==> |lines[r]| == |lines[0]|)
      && (|lines[0]| > 4 ==> BlocksFit(l, HeadersOf(l, lines[0]), |lines[0]|))
  }

  function LoadRow(l: Layout, headers: seq<seq<string>>, row: seq<string>): Metrics
    requires BlocksFit(l, headers, |row|)
  {
    seq(|headers|, b requires 0 <= b < |headers| =>
      [DecodeBlock(headers[b], row[|l.keyNames|..], LoaderOffset(l, headers, b), |headers[b]|)])
  }

  function LoadRows(l: Layout, headers: seq<seq<string>>, rows: seq<seq<string>>): map<Key, Metrics>
    requires forall r :: 0 <= r < |rows| ==> BlocksFit(l, headers, |rows[r]|)
  {
    if rows == [] then map[]
    else
      var last := rows[|rows| - 1];
      assert BlocksFit(l, headers, |last|);
      LoadRows(l, headers, rows[..|rows| - 1])[last[..|l.keyNames|] := LoadRow(l, headers, last)]
  }

  function LoadTable(l: Layout, lines: seq<seq<string>>): Result<map<Key, Metrics>>
    requires Readable(l, lines)
  {
    if |lines| == 0 || |lines[0]| <= 4 then Err("wrong fmt csv, header is wrong")
    else Ok(LoadRows(l, HeadersOf(l, lines[0]), lines[1..]))
  }

  // ---- The loops of the program ----

  method CollectHeaders(l: Layout, fields: seq<string>) returns (headers: seq<seq<string>>)
    ensures headers == HeadersOf(l, fields)
  {
    headers := seq(|l.names|, b => []);
    for f := 0 to |fields|
      invariant |headers| == |l.names|
      invariant forall b :: 0 <= b < |l.names| ==> headers[b] == WithPrefix(fields[..f], l.names[b] + "-")
    {
      assert fields[..f + 1][..f] == fields[..f];
      ghost var before := headers;
      for b := 0 to |l.names|
        invariant |headers| == |l.names|
        invariant forall a :: 0 <= a < b ==> headers[a] == WithPrefix(fields[..f + 1], l.names[a] + "-")
        invariant forall a :: b <= a < |l.names| ==> headers[a] == before[a]
      {
        if l.names[b] + "-" <= fields[f] {
          headers := headers[b := headers[b] + [fields[f]]];
        }
      }
    }
    assert fields[..|fields|] == fields;
  }

  /** One of the per-metric loops; `ts` stays zero where the header cell has no usable timestamp. */
  method LoadBlock(headers: seq<string>, row: seq<string>, indexStart: nat) returns (samples: seq<Sample>)
    requires indexStart + |headers| <= |row|
    ensures samples == DecodeBlock(headers, row, indexStart, |headers|)
  {
    samples := [];
    for i := 0 to |headers|
      invariant samples == DecodeBlock(headers, row, indexStart, i)
    {
      var ts := 0;
      var splits := Split(headers[i], '-');
      if |splits| >= 3 {
        var parsed := ParseInt(splits[2]);
        ts := parsed.GetOr(0);
      }
      if row[indexStart + i] == "null" {
        continue;
      }
      var val := ParseFloat(row[indexStart + i]);
      if val.None? {
        continue;
      }
      samples := samples + [Sample(ts, val.value)];
    }
  }

  lemma OffsetStarts(l: Layout, headers: seq<seq<string>>)
    ensures LoaderOffset(l, headers, 0) == 0
  {
  }

  lemma OffsetAdvances(l: Layout, headers: seq<seq<string>>, b: nat)
    requires b < |headers|
    ensures LoaderOffset(l, headers, b + 1) ==
            LoaderOffset(l, headers, b) + if b in l.unadvanced then 0 else |headers[b]|
  {
  }

  method LoadLine(l: Layout, headers: seq<seq<string>>, line: seq<string>) returns (data: Metrics)
    requires BlocksFit(l, headers, |line|)
    ensures data == LoadRow(l, headers, line)
  {
    hide DecodeBlock, LoadRow, LoaderOffset;
    OffsetStarts(l, headers);
    var row := line[|l.keyNames|..];
    data := [];
    var indexStart := 0;
    for b := 0 to |headers|
      invariant indexStart == LoaderOffset(l, headers, b)
      invariant |data| == b
      invariant forall a :: 0 <= a < b ==>
                  data[a] == [DecodeBlock(headers[a], row, LoaderOffset(l, headers, a), |headers[a]|)]
    {
      OffsetAdvances(l, headers, b);
      var samples := LoadBlock(headers[b], row, indexStart);
      data := data + [[samples]];
      if b !in l.unadvanced {
        indexStart := indexStart + |headers[b]|;
      }
    }
    LineIs(l, headers, line, data);
  }

  lemma LineIs(l: Layout, headers: seq<seq<string>>, line: seq<string>, data: Metrics)
    requires BlocksFit(l, headers, |line|)
    requires |data| == |headers|
    requires forall b :: 0 <= b < |headers| ==>
               data[b] == [DecodeBlock(headers[b], line[|l.keyNames|..], LoaderOffset(l, headers, b), |headers[b]|)]
    ensures data == LoadRow(l, headers, line)
  {
    hide DecodeBlock, LoaderOffset;
  }

  method LoadCheckpoint(l: Layout, lines: seq<seq<string>>) returns (r: Result<map<Key, Metrics>>)
    requires Readable(l, lines)
    ensures r == LoadTable(l, lines)
  {
    if |lines| == 0 || |lines[0]| <= 4 {
      return Err("wrong fmt csv, header is wrong");
    }
    var headers := CollectHeaders(l, lines[0]);
    var result: map<Key, Metrics> := map[];
    var rows := lines[1..];
    for line := 0 to |rows|
      invariant result == LoadRows(l, headers, rows[..line])
    {
      assert rows[..line + 1][..line] == rows[..line];
      var data := LoadLine(l, headers, rows[line]);
      result := result[rows[line][..|l.keyNames|] := data];
    }
    assert rows[..|rows|] == rows;
    r := Ok(result);
  }
}
