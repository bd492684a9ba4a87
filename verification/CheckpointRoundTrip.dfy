/** What a checkpoint looks like after it has been saved and loaded again (pkg/cost-comparator/comparator.go). */
module CheckpointRoundTrip {
  import opened Wrappers
  import opened Series
  import opened Text
  import opened Decimal
  import opened CheckpointTable
  import opened CheckpointLoad

  // ---- The loader finds the header cells of each block ----

  lemma PrefixMatches(p: string, name: string, rest: string)
    requires '-' !in p && '-' !in name
    ensures p + "-" <= name + "-" + rest <==> p == name
  {
    var h, q := name + "-" + rest, p + "-";
    assert h[|name|] == '-';
    assert forall i :: 0 <= i < |name| ==> h[i] == name[i];
    if q <= h {
      assert q[|p|] == '-' && q[|p|] == h[|p|];
      assert forall i :: 0 <= i < |p| ==> q[i] == p[i] && q[i] == h[i];
      assert |p| == |name|;
      assert p == name;
    }
  }

  lemma NoPrefixInKeyName(p: string, name: string)
    requires '-' !in name
    ensures !(p + "-" <= name)
  {
    var q := p + "-";
    assert q[|p|] == '-';
  }

  lemma {:induction false} WithPrefixAppend(a: seq<string>, b: seq<string>, p: string)
    ensures WithPrefix(a + b, p) == WithPrefix(a, p) + WithPrefix(b, p)
  {
    if b == [] {
      assert a + b == a;
    } else {
      var n := |b| - 1;
      assert (a + b)[..|a + b| - 1] == a + b[..n] && (a + b)[|a + b| - 1] == b[n];
      WithPrefixAppend(a, b[..n], p);
    }
  }

  lemma {:induction false} AllOrNone(fields: seq<string>, p: string)
    ensures (forall i :: 0 <= i < |fields| ==> p <= fields[i]) ==> WithPrefix(fields, p) == fields
    ensures (forall i :: 0 <= i < |fields| ==> !(p <= fields[i])) ==> WithPrefix(fields, p) == []
  {
    if fields != [] {
      var n := |fields| - 1;
      AllOrNone(fields[..n], p);
      assert fields == fields[..n] + [fields[n]];
    }
  }

  lemma BlockByPrefix(l: Layout, ds: seq<Metrics>, a: nat, b: nat)
    requires ValidLayout(l) && a < |l.names| && b < |l.names|
    ensures WithPrefix(HeaderBlock(ds, l.names[a], a), l.names[b] + "-") ==
            if a == b then HeaderBlock(ds, l.names[a], a) else []
  {
    var fields, p := HeaderBlock(ds, l.names[a], a), l.names[b] + "-";
    forall i | 0 <= i < |fields|
      ensures p <= fields[i] <==> a == b
    {
      var time := LastTime(ds, a, i);
      var rest := Itoa(i) + if time.None? then "" else "-" + FormatInt(time.value);
      assert fields[i] == l.names[a] + "-" + rest;
      PrefixMatches(l.names[b], l.names[a], rest);
    }
    AllOrNone(fields, p);
  }

  lemma {:induction false} BlockOfHeader(l: Layout, ds: seq<Metrics>, n: nat, b: nat)
    requires ValidLayout(l) && n <= |l.names| && b < |l.names|
    ensures WithPrefix(HeaderCells(ds, l.names, n), l.names[b] + "-") ==
            if b < n then HeaderBlock(ds, l.names[b], b) else []
  {
    if n > 0 {
      BlockOfHeader(l, ds, n - 1, b);
      BlockByPrefix(l, ds, n - 1, b);
      WithPrefixAppend(HeaderCells(ds, l.names, n - 1), HeaderBlock(ds, l.names[n - 1], n - 1), l.names[b] + "-");
    }
  }

  function Blocks(l: Layout, ds: seq<Metrics>): seq<seq<string>> {
    seq(|l.names|, b requires 0 <= b < |l.names| => HeaderBlock(ds, l.names[b], b))
  }

  lemma HeadersFound(l: Layout, ds: seq<Metrics>)
    requires ValidLayout(l)
    ensures HeadersOf(l, Header(l, ds)) == Blocks(l, ds)
  {
    forall b | 0 <= b < |l.names|
      ensures WithPrefix(Header(l, ds), l.names[b] + "-") == HeaderBlock(ds, l.names[b], b)
    {
      forall i | 0 <= i < |l.keyNames|
        ensures !(l.names[b] + "-" <= l.keyNames[i])
      {
        NoPrefixInKeyName(l.names[b], l.keyNames[i]);
      }
      AllOrNone(l.keyNames, l.names[b] + "-");
      BlockOfHeader(l, ds, |l.names|, b);
      WithPrefixAppend(l.keyNames, HeaderCells(ds, l.names, |l.names|), l.names[b] + "-");
    }
  }

  // ---- Where the loader looks for each block ----

  /** How many columns too early the loader takes block b to start. */
  function Skew(l: Layout, widths: seq<nat>, b: nat): nat
    requires b <= |widths|
  {
    if b == 0 then 0 else Skew(l, widths, b - 1) + if b - 1 in l.unadvanced then widths[b - 1] else 0
  }

  lemma {:induction false} LoaderIsSkewed(l: Layout, ds: seq<Metrics>, b: nat)
    requires b <= |l.names|
    ensures LoaderOffset(l, Blocks(l, ds), b) + Skew(l, Widths(ds, |l.names|), b) == Offset(Widths(ds, |l.names|), b)
  {
    if b > 0 {
      LoaderIsSkewed(l, ds, b - 1);
    }
  }

  lemma {:induction false} OffsetsGrow(widths: seq<nat>, a: nat, b: nat)
    requires a < b <= |widths|
    ensures Offset(widths, a) + widths[a] <= Offset(widths, b)
  {
    if a < b - 1 {
      OffsetsGrow(widths, a, b - 1);
    }
  }

  function Columns(l: Layout, ds: seq<Metrics>): nat {
    |l.keyNames| + Offset(Widths(ds, |l.names|), |l.names|)
  }

  lemma BlocksDoFit(l: Layout, ds: seq<Metrics>)
    ensures BlocksFit(l, Blocks(l, ds), Columns(l, ds))
  {
    var w := Widths(ds, |l.names|);
    forall b | 0 <= b < |l.names|
      ensures |l.keyNames| + LoaderOffset(l, Blocks(l, ds), b) + |Blocks(l, ds)[b]| <= Columns(l, ds)
    {
      LoaderIsSkewed(l, ds, b);
      OffsetsGrow(w, b, |l.names|);
    }
  }

  lemma TableIsRectangular(l: Layout, ks: seq<Key>, ds: seq<Metrics>)
    requires |ks| == |ds| && forall r :: 0 <= r < |ks| ==> |ks[r]| == |l.keyNames|
    ensures forall r :: 0 <= r < |Table(l, ks, ds)| ==> |Table(l, ks, ds)[r]| == Columns(l, ds)
  {
    var t := Table(l, ks, ds);
    HeaderLength(ds, l.names, |l.names|);
    forall r | 0 <= r < |t|
      ensures |t[r]| == Columns(l, ds)
    {
      if r > 0 {
        RowLength(Widths(ds, |l.names|), ds[r - 1], |l.names|);
      }
    }
  }

  lemma TableIsReadable(l: Layout, ks: seq<Key>, ds: seq<Metrics>)
    requires ValidLayout(l)
    requires |ks| == |ds| && forall r :: 0 <= r < |ks| ==> |ks[r]| == |l.keyNames|
    ensures Readable(l, Table(l, ks, ds))
  {
    TableIsRectangular(l, ks, ds);
    HeadersFound(l, ds);
    BlocksDoFit(l, ds);
    hide HeadersOf, BlocksFit, Columns;
  }

  // ---- What the loader reads back ----

  lemma {:induction false} RowsByKey(l: Layout, headers: seq<seq<string>>, rows: seq<seq<string>>, r: nat)
    requires forall i :: 0 <= i < |rows| ==> BlocksFit(l, headers, |rows[i]|)
    requires forall i :: 0 <= i < |rows| ==> |l.keyNames| <= |rows[i]|
    requires forall i, j :: 0 <= i < j < |rows| ==> rows[i][..|l.keyNames|] != rows[j][..|l.keyNames|]
    requires r < |rows|
    ensures rows[r][..|l.keyNames|] in LoadRows(l, headers, rows)
    ensures LoadRows(l, headers, rows)[rows[r][..|l.keyNames|]] == LoadRow(l, headers, rows[r])
  {
    hide LoadRow, BlocksFit;
    if r < |rows| - 1 {
      RowsByKey(l, headers, rows[..|rows| - 1], r);
    }
  }

  lemma {:induction false} KeysOfRows(l: Layout, headers: seq<seq<string>>, rows: seq<seq<string>>, k: Key)
    requires forall i :: 0 <= i < |rows| ==> BlocksFit(l, headers, |rows[i]|)
    requires forall i :: 0 <= i < |rows| ==> |l.keyNames| <= |rows[i]|
    ensures k in LoadRows(l, headers, rows) <==> exists r :: 0 <= r < |rows| && rows[r][..|l.keyNames|] == k
  {
    hide LoadRow, BlocksFit;
    if rows != [] {
      KeysOfRows(l, headers, rows[..|rows| - 1], k);
    }
  }

  /** Distinct keys of the right length, one for each row of data. */
  ghost predicate Saved(l: Layout, ks: seq<Key>, ds: seq<Metrics>) {
    && |ks| == |ds|
    && (forall r :: 0 <= r < |ks| ==> |ks[r]| == |l.keyNames|)
    && (forall i, j :: 0 <= i < j < |ks| ==> ks[i] != ks[j])
  }

  /** The series loaded for metric b of row r: the block's columns, looked for `Skew` columns too early. */
  function LoadedSeries(l: Layout, ds: seq<Metrics>, r: nat, b: nat): seq<Sample>
    requires r < |ds| && b < |l.names|
  {
    var w := Widths(ds, |l.names|);
    LoaderIsSkewed(l, ds, b);
    OffsetsGrow(w, b, |l.names|);
    RowLength(w, ds[r], |l.names|);
    DecodeBlock(HeaderBlock(ds, l.names[b], b), RowCells(w, ds[r], |l.names|), Offset(w, b) - Skew(l, w, b), w[b])
  }

  /** Loading a saved table gives back its keys and, for every metric, one series: the one read from the skewed
      columns. A header of at most four columns is refused. */
  lemma LoadOfTable(l: Layout, ks: seq<Key>, ds: seq<Metrics>)
    requires ValidLayout(l) && Saved(l, ks, ds)
    ensures Readable(l, Table(l, ks, ds))
    ensures Columns(l, ds) <= 4 <==> LoadTable(l, Table(l, ks, ds)).Err?
    ensures Columns(l, ds) > 4 ==>
              var m := LoadTable(l, Table(l, ks, ds)).value;
              && (forall k :: k in m <==> k in ks)
              && forall r :: 0 <= r < |ks| ==>
                   m[ks[r]] == seq(|l.names|, b requires 0 <= b < |l.names| => [LoadedSeries(l, ds, r, b)])
  {
    var t := Table(l, ks, ds);
    TableIsReadable(l, ks, ds);
    TableIsRectangular(l, ks, ds);
    HeadersFound(l, ds);
    BlocksDoFit(l, ds);
    TableLength(l, ks, ds);
    hide LoadRows, LoadedSeries, BlocksFit, HeadersOf, Blocks, Header, Columns, ValidLayout;
    if Columns(l, ds) > 4 {
      LoadOfRows(l, ks, ds);
    }
  }

  lemma LoadOfRows(l: Layout, ks: seq<Key>, ds: seq<Metrics>)
    requires ValidLayout(l) && Saved(l, ks, ds)
    requires forall r :: 0 <= r < |ks| ==> BlocksFit(l, Blocks(l, ds), |Table(l, ks, ds)[1..][r]|)
    ensures var m := LoadRows(l, Blocks(l, ds), Table(l, ks, ds)[1..]);
            && (forall k :: k in m <==> k in ks)
            && forall r :: 0 <= r < |ks| ==>
                 m[ks[r]] == seq(|l.names|, b requires 0 <= b < |l.names| => [LoadedSeries(l, ds, r, b)])
  {
    hide LoadRow, LoadRows, LoadedSeries, BlocksFit, Blocks, ValidLayout, Table, Widths, RowCells;
    TableLength(l, ks, ds);
    var rows, headers := Table(l, ks, ds)[1..], Blocks(l, ds);
    forall r | 0 <= r < |rows|
      ensures |l.keyNames| <= |rows[r]| && rows[r][..|l.keyNames|] == ks[r]
    {
      RowOfTable(l, ks, ds, r);
    }
    forall k
      ensures k in LoadRows(l, headers, rows) <==> k in ks
    {
      KeysOfRows(l, headers, rows, k);
    }
    forall r | 0 <= r < |ks|
      ensures LoadRows(l, headers, rows)[ks[r]] ==
              seq(|l.names|, b requires 0 <= b < |l.names| => [LoadedSeries(l, ds, r, b)])
    {
      RowOfTable(l, ks, ds, r);
      RowsByKey(l, headers, rows, r);
      LoadedRow(l, ds, r, rows[r]);
    }
  }

  lemma TableLength(l: Layout, ks: seq<Key>, ds: seq<Metrics>)
    requires |ks| == |ds|
    ensures |Table(l, ks, ds)| == |ks| + 1
  {
  }

  lemma RowOfTable(l: Layout, ks: seq<Key>, ds: seq<Metrics>, r: nat)
    requires Saved(l, ks, ds) && r < |ks|
    ensures var row := Table(l, ks, ds)[1..][r];
            && |l.keyNames| <= |row|
            && row[..|l.keyNames|] == ks[r]
            && row[|l.keyNames|..] == RowCells(Widths(ds, |l.names|), ds[r], |l.names|)
  {
    hide RowCells, Header;
  }

  lemma LoadedRow(l: Layout, ds: seq<Metrics>, r: nat, row: seq<string>)
    requires r < |ds| && BlocksFit(l, Blocks(l, ds), |row|)
    requires row[|l.keyNames|..] == RowCells(Widths(ds, |l.names|), ds[r], |l.names|)
    ensures LoadRow(l, Blocks(l, ds), row) ==
            seq(|l.names|, b requires 0 <= b < |l.names| => [LoadedSeries(l, ds, r, b)])
  {
    hide DecodeBlock, Offset, Skew, LoaderOffset, RowCells, Width, HeaderCell, LastTime;
    forall b | 0 <= b < |l.names|
      ensures LoadRow(l, Blocks(l, ds), row)[b] == [LoadedSeries(l, ds, r, b)]
    {
      LoaderIsSkewed(l, ds, b);
    }
  }

  // ---- Metrics the loader looks for in the right place ----

  function AtLeastZero(t: int): int {
    if t < 0 then 0 else t
  }

  /** A negative timestamp puts a second dash before its digits, and the loader then reads a zero. */
  lemma HeaderTimeOf(name: string, i: nat, time: Option<int>)
    requires '-' !in name && time.Some?
    ensures HeaderTime(HeaderCell(name, i, time)) == AtLeastZero(time.value)
  {
    HeaderSplits(name, i, time);
    var text, splits := FormatInt(time.value), Split(HeaderCell(name, i, time), '-');
    FormatIntParses(time.value);
    assert splits[2] == splits[2..][0];
    if time.value < 0 {
      SplitFirst("", '-', Itoa(-time.value));
      assert text == "" + ['-'] + Itoa(-time.value);
    } else {
      NoDashInDigits(text);
      SplitOne(text, '-');
    }
  }

  /** The saved samples with the timestamps of the header and the values of the cells. */
  function Reread(ds: seq<Metrics>, samples: seq<Sample>, b: nat): seq<Sample> {
    seq(|samples|, i requires 0 <= i < |samples| =>
      Sample(AtLeastZero(LastTime(ds, b, i).GetOr(0)), Rounded5(samples[i].value)))
  }

  lemma DecodeNext(ds: seq<Metrics>, name: string, samples: seq<Sample>, b: nat, i: nat)
    requires '-' !in name && i < Width(ds, b)
    ensures Decoded(HeaderCell(name, i, LastTime(ds, b, i)), Cell(samples, i)) ==
            if i < |samples| then [Reread(ds, samples, b)[i]] else []
  {
    LastTimeExists(ds, b, i);
    HeaderTimeOf(name, i, LastTime(ds, b, i));
    if i < |samples| {
      Float642StrParses(samples[i].value);
    }
  }

  lemma {:induction false} DecodeColumns(headers: seq<string>, cells: seq<string>, start: nat, n: nat,
                                         target: seq<Sample>)
    requires n <= |headers| && start + n <= |cells|
    requires forall i :: 0 <= i < n ==>
               Decoded(headers[i], cells[start + i]) == if i < |target| then [target[i]] else []
    ensures DecodeBlock(headers, cells, start, n) == target[..if n < |target| then n else |target|]
  {
    hide Decoded;
    if n > 0 {
      DecodeColumns(headers, cells, start, n - 1, target);
      assert Decoded(headers[n - 1], cells[start + (n - 1)]) ==
             if n - 1 < |target| then [target[n - 1]] else [];
    }
  }

  lemma BlockHeaders(ds: seq<Metrics>, name: string, b: nat)
    ensures |HeaderBlock(ds, name, b)| == Width(ds, b)
    ensures forall i: nat :: i < Width(ds, b) ==>
              HeaderBlock(ds, name, b)[i] == HeaderCell(name, i, LastTime(ds, b, i))
  {
  }

  lemma ReadInPlace(ds: seq<Metrics>, name: string, samples: seq<Sample>, b: nat, cells: seq<string>, start: nat)
    requires '-' !in name && |samples| <= Width(ds, b) && start + Width(ds, b) <= |cells|
    requires forall i :: 0 <= i < Width(ds, b) ==> cells[start + i] == Cell(samples, i)
    ensures DecodeBlock(HeaderBlock(ds, name, b), cells, start, Width(ds, b)) == Reread(ds, samples, b)
  {
    hide DecodeBlock, HeaderBlock, Width, Cell, Decoded, LastTime, HeaderCell;
    var headers, target := HeaderBlock(ds, name, b), Reread(ds, samples, b);
    BlockHeaders(ds, name, b);
    forall i | 0 <= i < Width(ds, b)
      ensures Decoded(headers[i], cells[start + i]) == if i < |target| then [target[i]] else []
    {
      DecodeNext(ds, name, samples, b, i);
    }
    DecodeColumns(headers, cells, start, Width(ds, b), target);
    assert target[..|target|] == target;
  }

  /** Where the loader advances properly it reads every sample back: its value to five decimals, and the timestamp
      the header got from the last row with that many samples. */
  lemma UnskewedSeries(l: Layout, ds: seq<Metrics>, r: nat, b: nat)
    requires ValidLayout(l) && r < |ds| && b < |l.names| && Skew(l, Widths(ds, |l.names|), b) == 0
    ensures LoadedSeries(l, ds, r, b) == Reread(ds, Used(ds[r], b), b)
  {
    hide Used, DecodeBlock, HeaderBlock, RowCells, Offset, Skew, Width, Cell, Reread;
    var w, samples := Widths(ds, |l.names|), Used(ds[r], b);
    var cells := RowCells(w, ds[r], |l.names|);
    WidthCovers(ds, b, r);
    RowLength(w, ds[r], |l.names|);
    OffsetsGrow(w, b, |l.names|);
    forall i | 0 <= i < w[b]
      ensures cells[Offset(w, b) + i] == Cell(samples, i)
    {
      CellsInPlace(w, ds[r], |l.names|, b, i);
    }
    ReadInPlace(ds, l.names[b], samples, b, cells, Offset(w, b));
  }

  /** The saved samples with their own timestamps, values to five decimals. */
  function Faithful(samples: seq<Sample>): seq<Sample> {
    seq(|samples|, i requires 0 <= i < |samples| => Sample(samples[i].timestamp, Rounded5(samples[i].value)))
  }

  /** All rows agree on the timestamp of the i-th sample of metric b, and none is negative. */
  ghost predicate TimesAgree(ds: seq<Metrics>, b: nat) {
    && (forall r, i :: 0 <= r < |ds| && 0 <= i < |Used(ds[r], b)| ==> Used(ds[r], b)[i].timestamp >= 0)
    && (forall r, s, i :: 0 <= r < |ds| && 0 <= s < |ds| && 0 <= i < |Used(ds[r], b)| && i < |Used(ds[s], b)| ==>
          Used(ds[r], b)[i].timestamp == Used(ds[s], b)[i].timestamp)
  }

  ghost predicate BlockSurvives(ds: seq<Metrics>, b: nat) {
    forall r :: 0 <= r < |ds| ==> Reread(ds, Used(ds[r], b), b) == Faithful(Used(ds[r], b))
  }

  /** Timestamps survive the round trip just when they are not negative and agree across rows, index by index. */
  lemma TimesSurviveExactlyWhen(ds: seq<Metrics>, b: nat)
    ensures BlockSurvives(ds, b) <==> TimesAgree(ds, b)
  {
    if TimesAgree(ds, b) {
      forall r | 0 <= r < |ds|
        ensures Reread(ds, Used(ds[r], b), b) == Faithful(Used(ds[r], b))
      {
        forall i | 0 <= i < |Used(ds[r], b)|
          ensures LastTime(ds, b, i) == Some(Used(ds[r], b)[i].timestamp)
        {
          WidthCovers(ds, b, r);
          LastTimeExists(ds, b, i);
        }
      }
    }
    if BlockSurvives(ds, b) {
      forall r, i | 0 <= r < |ds| && 0 <= i < |Used(ds[r], b)|
        ensures Used(ds[r], b)[i].timestamp == AtLeastZero(LastTime(ds, b, i).GetOr(0))
      {
        assert Reread(ds, Used(ds[r], b), b)[i] == Faithful(Used(ds[r], b))[i];
      }
    }
  }
}
