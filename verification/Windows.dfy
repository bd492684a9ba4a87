/** Cutting a range query into shards the server accepts (pkg/datasource-providers/prom/ctx.go). Times are
    whole milliseconds. */
module Windows {
  import opened Numbers

  datatype Range = Range(start: int, end: int, step: int)

  function Instant(w: Range, k: int): int {
    w.start + k * w.step
  }

  /** How many instants start, start + step, ... lie in the window, both bounds included. */
  function PointCount(w: Range): nat
    requires w.step > 0
  {
    if w.end < w.start then 0 else (w.end - w.start) / w.step + 1
  }

  lemma Monotone(a: int, b: int, c: int)
    requires a <= b && c >= 0
    ensures a * c <= b * c
  {
  }

  /** The point count is exact: grid instant k lies in the window just when k is below it. */
  lemma PointCountIsExact(w: Range, k: nat)
    requires w.step > 0
    ensures k < PointCount(w) <==> Instant(w, k) <= w.end
  {
    if w.end < w.start {
      Monotone(0, k, w.step);
    } else {
      var q := (w.end - w.start) / w.step;
      assert q * w.step <= w.end - w.start < (q + 1) * w.step by {
        assert w.end - w.start == q * w.step + (w.end - w.start) % w.step;
      }
      if k <= q {
        Monotone(k, q, w.step);
      } else {
        Monotone(q + 1, k, w.step);
      }
    }
  }

  function ShardCount(points: nat, limit: int): nat
    requires limit > 0
  {
    if points % limit > 0 then points / limit + 1 else points / limit
  }

  /** The shard count is the points divided by the limit, rounded up. */
  lemma ShardCountRoundsUp(points: nat, limit: int)
    requires limit > 0
    ensures (ShardCount(points, limit) - 1) * limit < points + (if points == 0 then 1 else 0)
    ensures points <= ShardCount(points, limit) * limit
    ensures points > 0 ==> ShardCount(points, limit) == (points - 1) / limit + 1
  {
    var q, r := points / limit, points % limit;
    assert points == q * limit + r;
    if points > 0 {
      if r > 0 {
        QuotientIs(points - 1, limit, q, r - 1);
      } else {
        assert points - 1 == (q - 1) * limit + (limit - 1);
        QuotientIs(points - 1, limit, q - 1, limit - 1);
      }
    }
  }

  lemma QuotientIs(n: int, d: int, q: int, r: int)
    requires d > 0 && n == q * d + r && 0 <= r < d
    ensures n / d == q && n % d == r
  {
    var q', r' := n / d, n % d;
    assert n == q' * d + r';
    assert (q - q') * d == r' - r;
    if q > q' {
      Monotone(1, q - q', d);
    } else if q < q' {
      Monotone(q - q', -1, d);
    }
  }

  /** Where the shard with index i begins (and the one before it ends), clamped to the window. */
  function Cut(w: Range, limit: int, i: nat): int {
    Min(w.start + i * ((limit - 1) * w.step), w.end)
  }

  function Shard(w: Range, limit: int, i: nat): Range {
    Range(Cut(w, limit, i), Cut(w, limit, i + 1), w.step)
  }

  function Shards(w: Range, limit: int): seq<Range>
    requires w.step > 0 && limit > 0
  {
    seq(ShardCount(PointCount(w), limit), i requires 0 <= i => Shard(w, limit, i))
  }

  method ComputeWindowShards(window: Range, limit: int) returns (shards: seq<Range>)
    requires window.step > 0 && limit > 0
    ensures shards == Shards(window, limit)
  {
    var possiblePoints := 0;
    var start := window.start;
    while start <= window.end
      invariant possiblePoints >= 0 && start == Instant(window, possiblePoints)
      invariant possiblePoints > 0 ==> Instant(window, possiblePoints - 1) <= window.end
      decreases window.end - start
    {
      start := start + window.step;
      possiblePoints := possiblePoints + 1;
    }
    PointCountIsExact(window, possiblePoints);
    if possiblePoints > 0 {
      PointCountIsExact(window, possiblePoints - 1);
    }
    var shardsNum;
    if possiblePoints % limit > 0 {
      shardsNum := possiblePoints / limit + 1;
    } else {
      shardsNum := possiblePoints / limit;
    }

    var s, e := window.start, window.start;
    shards := [];
    var i := 0;
    while i < shardsNum
      invariant 0 <= i <= shardsNum == ShardCount(PointCount(window), limit)
      invariant shardsNum > 0 ==> s == e == Cut(window, limit, i)
      invariant shards == seq(i, j requires 0 <= j => Shard(window, limit, j))
    {
      var width := (limit - 1) * window.step;
      NextCut(window, limit, i);
      e := e + width;
      if e > window.end {
        e := window.end;
      }
      shards := shards + [Range(s, e, window.step)];
      s := e;
      i := i + 1;
    }
  }

  lemma NextCut(w: Range, limit: int, i: nat)
    requires w.step > 0 && limit > 0
    ensures Cut(w, limit, i + 1) == Min(Cut(w, limit, i) + (limit - 1) * w.step, w.end)
  {
    Monotone(0, limit - 1, w.step);
    assert (i + 1) * ((limit - 1) * w.step) == i * ((limit - 1) * w.step) + (limit - 1) * w.step;
  }

  /** The first grid index of shard i. */
  function FirstIndex(limit: int, i: nat): int {
    i * (limit - 1)
  }

  /** Every shard starts on the window's own grid, the clamp to the end only ever meets the last shard, and
      shard i holds the grid indices from FirstIndex(i) up to FirstIndex(i + 1) that exist: at most `limit` of
      them, and exactly `limit` in every shard but the last. */
  lemma ShardsFollowTheGrid(w: Range, limit: int, i: nat)
    requires w.step > 0 && limit > 0
    requires i < ShardCount(PointCount(w), limit)
    ensures 0 <= FirstIndex(limit, i) < PointCount(w)
    ensures Shard(w, limit, i).start == Instant(w, FirstIndex(limit, i))
    ensures PointCount(Shard(w, limit, i)) == Min(limit, PointCount(w) - FirstIndex(limit, i))
    ensures i + 1 < ShardCount(PointCount(w), limit) ==>
              && PointCount(Shard(w, limit, i)) == limit
              && Shard(w, limit, i).end == Instant(w, FirstIndex(limit, i + 1))
              && Shard(w, limit, i + 1).start == Shard(w, limit, i).end
  {
    var p, n := PointCount(w), ShardCount(PointCount(w), limit);
    var f := FirstIndex(limit, i);
    ShardCountRoundsUp(p, limit);
    CutsAreInstants(w, limit, i);
    CutsAreInstants(w, limit, i + 1);
    FirstIndexBelow(p, limit, i);
    PointCountIsExact(w, f);
    if i + 1 < n {
      FirstIndexBelow(p, limit, i + 1);
      PointCountIsExact(w, FirstIndex(limit, i + 1));
    }
    assert FirstIndex(limit, i + 1) == f + (limit - 1);
    CountInSubWindow(w, Shard(w, limit, i), f, limit - 1);
  }

  lemma CutsAreInstants(w: Range, limit: int, i: nat)
    ensures Cut(w, limit, i) == Min(Instant(w, FirstIndex(limit, i)), w.end)
  {
    assert i * ((limit - 1) * w.step) == (i * (limit - 1)) * w.step;
  }

  lemma FirstIndexBelow(points: nat, limit: int, i: nat)
    requires limit > 0 && i < ShardCount(points, limit)
    ensures 0 <= FirstIndex(limit, i) < points
  {
    ShardCountRoundsUp(points, limit);
    Monotone(i, ShardCount(points, limit) - 1, limit);
    Monotone(0, i, limit - 1);
    assert i * (limit - 1) == i * limit - i;
  }

  lemma InstantFrom(w: Range, sub: Range, f: int, k: int)
    requires sub.start == Instant(w, f) && sub.step == w.step
    ensures Instant(sub, k) == Instant(w, f + k)
  {
    assert (f + k) * w.step == f * w.step + k * w.step;
  }

  /** A window that starts on grid index f and ends `length` steps on, or at the end, holds what is left up to there. */
  lemma CountInSubWindow(w: Range, sub: Range, f: nat, length: nat)
    requires w.step > 0 && f < PointCount(w)
    requires sub.start == Instant(w, f) && sub.step == w.step
    requires sub.end == Min(Instant(w, f + length), w.end)
    ensures PointCount(sub) == Min(length + 1, PointCount(w) - f)
  {
    var m := Min(length + 1, PointCount(w) - f);
    PointCountIsExact(w, f + m - 1);
    PointCountIsExact(w, f + m);
    InstantFrom(w, sub, f, m - 1);
    InstantFrom(w, sub, f, m);
    Monotone(f + m - 1, f + length, w.step);
    assert Instant(w, f + length + 1) == Instant(w, f + length) + w.step;
    PointCountIsExact(sub, m - 1);
    PointCountIsExact(sub, m);
  }

  /** How many of the window's instants the shards reach, counting from the first. */
  function Covered(w: Range, limit: int): nat
    requires w.step > 0 && limit > 0
  {
    var n := ShardCount(PointCount(w), limit);
    if n == 0 then 0
    else
      FirstIndexBelow(PointCount(w), limit, n - 1);
      FirstIndex(limit, n - 1) + PointCount(Shard(w, limit, n - 1))
  }

  predicate InShard(w: Range, limit: int, i: nat, k: int)
    requires w.step > 0
  {
    FirstIndex(limit, i) <= k < FirstIndex(limit, i) + PointCount(Shard(w, limit, i))
  }

  lemma {:induction false} FindShard(w: Range, limit: int, k: nat, n: nat) returns (i: nat)
    requires w.step > 0 && limit > 0
    requires 0 < n <= ShardCount(PointCount(w), limit)
    requires k < FirstIndex(limit, n - 1) + PointCount(Shard(w, limit, n - 1))
    ensures i < n && InShard(w, limit, i, k)
  {
    if k >= FirstIndex(limit, n - 1) {
      i := n - 1;
    } else {
      ShardsFollowTheGrid(w, limit, n - 2);
      i := FindShard(w, limit, k, n - 1);
    }
  }

  /** Together the shards hold exactly the first Covered(w, limit) grid instants. */
  lemma ShardsHoldThePrefix(w: Range, limit: int, k: nat)
    requires w.step > 0 && limit > 0
    ensures k < Covered(w, limit) <==>
            exists i: nat :: i < ShardCount(PointCount(w), limit) && InShard(w, limit, i, k)
  {
    var n := ShardCount(PointCount(w), limit);
    if k < Covered(w, limit) {
      var i := FindShard(w, limit, k, n);
    }
    forall i: nat | i < n && InShard(w, limit, i, k)
      ensures k < Covered(w, limit)
    {
      ShardEndsCovered(w, limit, i);
    }
  }

  lemma FirstIndexGrows(limit: int, i: nat, j: nat)
    requires limit > 0 && i <= j
    ensures i < j ==> FirstIndex(limit, i) + (limit - 1) <= FirstIndex(limit, j)
  {
    if i < j {
      Monotone(i + 1, j, limit - 1);
    }
  }

  lemma ShardEndsCovered(w: Range, limit: int, i: nat)
    requires w.step > 0 && limit > 0
    requires i < ShardCount(PointCount(w), limit)
    ensures FirstIndex(limit, i) + PointCount(Shard(w, limit, i)) <= Covered(w, limit)
  {
    var n := ShardCount(PointCount(w), limit);
    ShardsFollowTheGrid(w, limit, i);
    ShardsFollowTheGrid(w, limit, n - 1);
    FirstIndexGrows(limit, i, n - 1);
    hide FirstIndex;
  }

  lemma ReachOfShards(points: nat, limit: int)
    requires points > 0 && limit > 0
    ensures var n := ShardCount(points, limit);
            && n > 0
            && n * (limit - 1) == FirstIndex(limit, n - 1) + (limit - 1)
            && n * (limit - 1) + 1 == points - ((points - 1) / limit + (points - 1) % limit - (limit - 1))
  {
    ShardCountRoundsUp(points, limit);
    var q, r := (points - 1) / limit, (points - 1) % limit;
    assert points - 1 == q * limit + r;
    assert (q + 1) * (limit - 1) == q * (limit - 1) + (limit - 1);
    assert q * (limit - 1) == q * limit - q;
  }

  /** The shards reach the first min(P, N * (limit - 1) + 1) instants of the P in the window: they cover it just
      when (P - 1) / limit + (P - 1) % limit stays below the limit, and otherwise the excess is lost at the end. */
  lemma CoverageIsExact(w: Range, limit: int)
    requires w.step > 0 && limit > 0
    ensures var p, n := PointCount(w), ShardCount(PointCount(w), limit);
            Covered(w, limit) == Min(p, n * (limit - 1) + 1)
    ensures var p := PointCount(w);
            p > 0 ==> (Covered(w, limit) == p <==> (p - 1) / limit + (p - 1) % limit <= limit - 1)
    ensures var p := PointCount(w);
            p > 0 && Covered(w, limit) != p ==>
              p - Covered(w, limit) == (p - 1) / limit + (p - 1) % limit - (limit - 1)
  {
    var p, n := PointCount(w), ShardCount(PointCount(w), limit);
    if p > 0 {
      ReachOfShards(p, limit);
      ShardsFollowTheGrid(w, limit, n - 1);
    }
  }

  /** Twenty points under a limit of ten: the last point of the window is in no shard. */
  lemma TwentyPointsLoseOne()
    ensures PointCount(Range(0, 19000, 1000)) == 20 && Covered(Range(0, 19000, 1000), 10) == 19
  {
    CoverageIsExact(Range(0, 19000, 1000), 10);
  }
}
