/** Writing a checkpoint: the loops of ContainerDataCheckpoint and workloadTimeSeriesDataCheckpoint, which rewrite the
    header cells in place while they emit the rows (pkg/cost-comparator/comparator.go). */
module CheckpointSave {
  import opened Wrappers
  import opened Series
  import opened Text
  import opened Decimal
  import opened CheckpointTable

  type Cache = map<Key, Metrics>

  /** All keys of the cache, each once, in some order. */
  ghost predicate Enumerates(order: seq<Key>, cache: Cache) {
    && (forall i, j :: 0 <= i < j < |order| ==> order[i] != order[j])
    && (forall i :: 0 <= i < |order| ==> order[i] in cache)
    && (forall k :: k in cache ==> k in order)
  }

  function Entries(order: seq<Key>, cache: Cache): seq<Metrics>
    requires forall i :: 0 <= i < |order| ==> order[i] in cache
  {
    seq(|order|, r requires 0 <= r < |order| => cache[order[r]])
  }

  /** The greatest number of samples saved for metric b, taken over the whole cache. */
  ghost predicate IsWidth(cache: Cache, keys: set<Key>, b: nat, w: nat) {
    && (forall k :: k in keys && k in cache ==> |Used(cache[k], b)| <= w)
    && (w == 0 || exists k :: k in keys && k in cache && |Used(cache[k], b)| == w)
  }

  lemma WidthInAnyOrder(cache: Cache, order: seq<Key>, b: nat, w: nat)
    requires Enumerates(order, cache) && IsWidth(cache, cache.Keys, b, w)
    ensures Width(Entries(order, cache), b) == w
  {
    var ds := Entries(order, cache);
    WidthIsReached(ds, b);
    if w > 0 {
      var k :| k in cache.Keys && |Used(cache[k], b)| == w;
      var r :| 0 <= r < |order| && order[r] == k;
      WidthCovers(ds, b, r);
    }
    if Width(ds, b) > 0 {
      var r :| 0 <= r < |ds| && |Used(ds[r], b)| == Width(ds, b);
      assert order[r] in cache.Keys;
    }
  }

  method MeasureWidths(cache: Cache, n: nat) returns (widths: seq<nat>)
    ensures |widths| == n && forall b :: 0 <= b < n ==> IsWidth(cache, cache.Keys, b, widths[b])
  {
    widths := seq(n, b => 0);
    var keys := cache.Keys;
    while keys != {}
      invariant keys <= cache.Keys && |widths| == n
      invariant forall b :: 0 <= b < n ==> IsWidth(cache, cache.Keys - keys, b, widths[b])
      decreases keys
    {
      var k :| k in keys;
      ghost var seen, before := cache.Keys - keys, widths;
      assert cache.Keys - (keys - {k}) == seen + {k};
      for b := 0 to n
        invariant |widths| == n
        invariant forall a :: 0 <= a < b ==> IsWidth(cache, seen + {k}, a, widths[a])
        invariant forall a :: b <= a < n ==> widths[a] == before[a]
      {
        var length := |Used(cache[k], b)|;
        assert IsWidth(cache, seen, b, before[b]);
        if widths[b] < length {
          widths := widths[b := length];
        }
        assert IsWidth(cache, seen + {k}, b, widths[b]);
      }
      keys := keys - {k};
    }
    assert cache.Keys - keys == cache.Keys;
  }

  /** One block of one row: append its cells and put the timestamps into the block's header cells. */
  method EmitBlock(name: string, cells: array<string>, samples: seq<Sample>, row: seq<string>,
                   ghost times: seq<Option<int>>)
    returns (out: seq<string>)
    requires '-' !in name && |samples| <= cells.Length == |times|
    requires forall i :: 0 <= i < cells.Length ==> cells[i] == HeaderCell(name, i, times[i])
    modifies cells
    ensures out == row + BlockCells(samples, cells.Length)
    ensures forall i :: 0 <= i < cells.Length ==>
              cells[i] == HeaderCell(name, i, if i < |samples| then Some(samples[i].timestamp) else times[i])
  {
    hide HeaderCell, Float642Str, Split, FormatInt;
    out := row;
    ghost var block := BlockCells(samples, cells.Length);
    for i := 0 to cells.Length
      invariant out == row + block[..i]
      invariant forall j :: 0 <= j < i ==>
                  cells[j] == HeaderCell(name, j, if j < |samples| then Some(samples[j].timestamp) else times[j])
      invariant forall j :: i <= j < cells.Length ==> cells[j] == HeaderCell(name, j, times[j])
    {
      assert block[..i + 1] == block[..i] + [Cell(samples, i)];
      if i < |samples| {
        out := out + [Float642Str(samples[i].value)];
        Restamped(name, i, times[i], samples[i].timestamp);
        var splits := Split(cells[i], '-');
        cells[i] := splits[0] + "-" + splits[1] + "-" + FormatInt(samples[i].timestamp);
      } else {
        out := out + ["null"];
      }
    }
    assert block[..cells.Length] == block;
  }

  /** Taking a header cell apart and putting another timestamp on it. */
  lemma Restamped(name: string, i: nat, time: Option<int>, timestamp: int)
    requires '-' !in name
    ensures var splits := Split(HeaderCell(name, i, time), '-');
            |splits| >= 2 &&
            splits[0] + "-" + splits[1] + "-" + FormatInt(timestamp) == HeaderCell(name, i, Some(timestamp))
  {
    hide Split, Itoa, FormatInt;
    HeaderSplits(name, i, time);
    assert HeaderCell(name, i, Some(timestamp)) == name + "-" + Itoa(i) + ("-" + FormatInt(timestamp));
  }

  ghost predicate Separate(blocks: seq<array<string>>) {
    forall a, b :: 0 <= a < b < |blocks| ==> blocks[a] != blocks[b]
  }

  /** The header cells of block b after the rows ds. */
  ghost predicate Shows(block: array<string>, name: string, ds: seq<Metrics>, b: nat)
    reads block
  {
    forall i :: 0 <= i < block.Length ==> block[i] == HeaderCell(name, i, LastTime(ds, b, i))
  }

  lemma LastTimeNext(ds: seq<Metrics>, d: Metrics, b: nat)
    ensures forall i: nat :: LastTime(ds + [d], b, i) ==
                             if i < |Used(d, b)| then Some(Used(d, b)[i].timestamp) else LastTime(ds, b, i)
  {
    assert (ds + [d])[..|ds|] == ds;
  }

  method EmitRow(l: Layout, blocks: seq<array<string>>, k: Key, d: Metrics, ghost ds: seq<Metrics>,
                 ghost widths: seq<nat>)
    returns (row: seq<string>)
    requires ValidLayout(l) && Separate(blocks) && |blocks| == |l.names| == |widths|
    requires forall b :: 0 <= b < |blocks| ==> |Used(d, b)| <= blocks[b].Length == widths[b]
    requires forall b :: 0 <= b < |blocks| ==> Shows(blocks[b], l.names[b], ds, b)
    modifies blocks
    ensures row == Row(l, widths, k, d)
    ensures forall b :: 0 <= b < |blocks| ==> Shows(blocks[b], l.names[b], ds + [d], b)
  {
    hide HeaderCell, BlockCells, Used, LastTime;
    row := k;
    for b := 0 to |blocks|
      invariant row == k + RowCells(widths, d, b)
      invariant forall a :: 0 <= a < b ==> Shows(blocks[a], l.names[a], ds + [d], a)
      invariant forall a :: b <= a < |blocks| ==> Shows(blocks[a], l.names[a], ds, a)
    {
      ghost var times := seq(blocks[b].Length, i requires 0 <= i => LastTime(ds, b, i));
      row := EmitBlock(l.names[b], blocks[b], Used(d, b), row, times);
      LastTimeNext(ds, d, b);
      assert k + RowCells(widths, d, b + 1) == k + RowCells(widths, d, b) + BlockCells(Used(d, b), widths[b]);
    }
  }

  method FreshHeaders(name: string, width: nat) returns (cells: array<string>)
    ensures fresh(cells) && cells.Length == width
    ensures forall i :: 0 <= i < width ==> cells[i] == HeaderCell(name, i, None)
  {
    cells := new string[width](i => "");
    for i := 0 to width
      invariant forall j :: 0 <= j < i ==> cells[j] == HeaderCell(name, j, None)
    {
      cells[i] := name + "-" + Itoa(i);
      assert HeaderCell(name, i, None) == name + "-" + Itoa(i);
    }
  }

  method FreshBlocks(l: Layout, widths: seq<nat>) returns (blocks: seq<array<string>>)
    requires |widths| == |l.names|
    ensures |blocks| == |widths| && Separate(blocks) && fresh(blocks)
    ensures forall b :: 0 <= b < |blocks| ==> blocks[b].Length == widths[b] && Shows(blocks[b], l.names[b], [], b)
  {
    hide HeaderCell;
    blocks := [];
    for b := 0 to |widths|
      invariant |blocks| == b && Separate(blocks) && fresh(blocks)
      invariant forall a :: 0 <= a < b ==> blocks[a].Length == widths[a] && Shows(blocks[a], l.names[a], [], a)
    {
      var cells := FreshHeaders(l.names[b], widths[b]);
      blocks := blocks + [cells];
    }
  }

  /** Range over the cache, emitting a row for every entry. */
  method EmitRows(l: Layout, cache: Cache, blocks: seq<array<string>>, ghost widths: seq<nat>)
    returns (data: seq<seq<string>>, order: seq<Key>)
    requires ValidLayout(l) && Separate(blocks) && |blocks| == |l.names| == |widths|
    requires forall b :: 0 <= b < |blocks| ==>
               && blocks[b].Length == widths[b]
               && IsWidth(cache, cache.Keys, b, widths[b])
               && Shows(blocks[b], l.names[b], [], b)
    modifies blocks
    ensures Enumerates(order, cache)
    ensures forall b :: 0 <= b < |blocks| ==> Shows(blocks[b], l.names[b], Entries(order, cache), b)
    ensures |data| == |order|
    ensures forall r :: 0 <= r < |data| ==> data[r] == Row(l, widths, order[r], cache[order[r]])
  {
    hide Used, HeaderCell, LastTime, Row, ValidLayout;
    data, order := [], [];
    assert Entries(order, cache) == [];
    var keys := cache.Keys;
    while keys != {}
      invariant keys <= cache.Keys
      invariant forall i :: 0 <= i < |order| ==> order[i] in cache.Keys - keys
      invariant forall i, j :: 0 <= i < j < |order| ==> order[i] != order[j]
      invariant forall k :: k in cache.Keys - keys ==> k in order
      invariant forall b :: 0 <= b < |blocks| ==> Shows(blocks[b], l.names[b], Entries(order, cache), b)
      invariant |data| == |order|
      invariant forall r :: 0 <= r < |data| ==> data[r] == Row(l, widths, order[r], cache[order[r]])
      decreases keys
    {
      var k :| k in keys;
      var row := EmitRow(l, blocks, k, cache[k], Entries(order, cache), widths);
      assert Entries(order + [k], cache) == Entries(order, cache) + [cache[k]];
      data := data + [row];
      order := order + [k];
      keys := keys - {k};
    }
  }

  method JoinHeaders(l: Layout, blocks: seq<array<string>>, ghost ds: seq<Metrics>) returns (header: seq<string>)
    requires |blocks| == |l.names|
    requires forall b :: 0 <= b < |blocks| ==>
               blocks[b].Length == Width(ds, b) && Shows(blocks[b], l.names[b], ds, b)
    ensures header == Header(l, ds)
  {
    hide HeaderCell, LastTime, Width;
    header := l.keyNames;
    for b := 0 to |blocks|
      invariant header == l.keyNames + HeaderCells(ds, l.names, b)
    {
      assert blocks[b][..] == HeaderBlock(ds, l.names[b], b);
      header := header + blocks[b][..];
    }
  }

  lemma SavedTable(l: Layout, cache: Cache, order: seq<Key>)
    requires Enumerates(order, cache)
    ensures (forall k :: k in cache ==> |k| == |l.keyNames|) ==>
              SavesSamples(l, order, Entries(order, cache), Table(l, order, Entries(order, cache)))
  {
    hide Table, SavesSamples;
    if forall k :: k in cache ==> |k| == |l.keyNames| {
      TableSavesSamples(l, order, Entries(order, cache));
    }
  }

  /** Save the cache; `order` is the order in which its map happens to be ranged over. The table has a row for every
      entry, and its header cells carry the timestamps of the last rows that had the samples. */
  method Checkpoint(l: Layout, cache: Cache) returns (lines: seq<seq<string>>, order: seq<Key>)
    requires ValidLayout(l)
    ensures Enumerates(order, cache)
    ensures lines == Table(l, order, Entries(order, cache))
    ensures (forall k :: k in cache ==> |k| == |l.keyNames|) ==> SavesSamples(l, order, Entries(order, cache), lines)
  {
    hide HeaderCell, LastTime, Width, IsWidth, ValidLayout, Row, Header, Shows, SavesSamples;
    var n := |l.names|;
    var widths := MeasureWidths(cache, n);
    var blocks := FreshBlocks(l, widths);
    var data;
    data, order := EmitRows(l, cache, blocks, widths);
    ghost var ds := Entries(order, cache);
    forall b | 0 <= b < n
      ensures Width(ds, b) == widths[b]
    {
      WidthInAnyOrder(cache, order, b, widths[b]);
    }
    assert Widths(ds, n) == widths;
    var header := JoinHeaders(l, blocks, ds);
    lines := [header] + data;
    SavedTable(l, cache, order);
  }
}
