/** Describing and pricing instances through the cloud's API (pkg/cloudsdk/qcloud/cvm/cvm.go). */
module Cvm {
  import opened Wrappers
  import opened NodeCost

  /** What the cloud answers. describe gets the number of the call, as the cloud may change between two calls; quote
      gets instance type, charge type and zone, and answers with the price of the first matching item, if any. */
  datatype Cloud = Cloud(
    connects: bool,
    describe: Describe,
    quote: (string, string, string) -> Result<Option<ItemPrice>>)

  type Describe = (nat, seq<string>) -> Result<seq<Instance>>

  // ---- Describing, a chunk of ids at a time ----

  function Chunks(ids: seq<string>, limit: nat): seq<seq<string>>
    requires limit > 0
  {
    if |ids| <= limit then (if ids == [] then [] else [ids]) else [ids[..limit]] + Chunks(ids[limit..], limit)
  }

  function Concat<T>(parts: seq<seq<T>>): seq<T> {
    if parts == [] then [] else parts[0] + Concat(parts[1..])
  }

  /** The chunks are the ids in order; none is empty, none exceeds the limit, and only the last may fall short. */
  lemma {:induction false} ChunksPartition(ids: seq<string>, limit: nat)
    requires limit > 0
    ensures var chunks := Chunks(ids, limit);
            && Concat(chunks) == ids
            && (forall i :: 0 <= i < |chunks| ==> 0 < |chunks[i]| <= limit)
            && (forall i :: 0 <= i < |chunks| - 1 ==> |chunks[i]| == limit)
  {
    if |ids| > limit {
      ChunksPartition(ids[limit..], limit);
      var chunks := Chunks(ids, limit);
      assert chunks[1..] == Chunks(ids[limit..], limit);
      assert forall i :: 0 < i < |chunks| ==> chunks[i] == chunks[1..][i - 1];
    } else if ids != [] {
      assert Concat([ids]) == ids + Concat([]);
    }
  }

  /** All answers, in order, unless one of them is an error. */
  function Described(describe: Describe, chunks: seq<seq<string>>): Result<seq<Instance>> {
    if chunks == [] then Ok([])
    else
      var n := |chunks| - 1;
      var before := Described(describe, chunks[..n]);
      var last := describe(n, chunks[n]);
      if before.Err? then before else if last.Err? then last else Ok(before.value + last.value)
  }

  lemma {:induction false} DescribedFailsExactlyWhen(describe: Describe, chunks: seq<seq<string>>)
    ensures Described(describe, chunks).Err? <==> (exists i: nat :: i < |chunks| && describe(i, chunks[i]).Err?)
  {
    if chunks != [] {
      var n := |chunks| - 1;
      DescribedFailsExactlyWhen(describe, chunks[..n]);
      assert forall i :: 0 <= i < n ==> chunks[..n][i] == chunks[i];
    }
  }

  /** A cloud that does not change in between, and answers for a list of ids as it does for its parts. */
  ghost predicate Additive(describe: Describe) {
    && (forall i :: describe(i, []).Ok?)
    && forall i, j, k, a, b ::
         && (describe(i, a + b).Ok? <==> describe(j, a).Ok? && describe(k, b).Ok?)
         && (describe(i, a + b).Ok? ==> describe(i, a + b).value == describe(j, a).value + describe(k, b).value)
  }

  lemma AdditiveAt(describe: Describe, i: nat, j: nat, k: nat, a: seq<string>, b: seq<string>)
    requires Additive(describe)
    ensures describe(i, a + b).Ok? <==> describe(j, a).Ok? && describe(k, b).Ok?
    ensures describe(i, a + b).Ok? ==> describe(i, a + b).value == describe(j, a).value + describe(k, b).value
  {
  }

  lemma {:induction false} ConcatLast(parts: seq<seq<string>>)
    requires parts != []
    ensures Concat(parts) == Concat(parts[..|parts| - 1]) + parts[|parts| - 1]
  {
    if |parts| > 1 {
      ConcatLast(parts[1..]);
      assert parts[1..][..|parts| - 2] == parts[..|parts| - 1][1..];
    }
  }

  lemma {:induction false} AdditiveInOneCall(describe: Describe, chunks: seq<seq<string>>, i: nat)
    requires Additive(describe)
    ensures Described(describe, chunks).Ok? <==> describe(i, Concat(chunks)).Ok?
    ensures Described(describe, chunks).Ok? ==> Described(describe, chunks).value == describe(i, Concat(chunks)).value
  {
    if chunks == [] {
      AdditiveAt(describe, i, i, i, [], []);
      assert [] + [] == Concat(chunks);
      assert |describe(i, []).value| == 2 * |describe(i, []).value|;
    } else {
      var n := |chunks| - 1;
      AdditiveInOneCall(describe, chunks[..n], i);
      ConcatLast(chunks);
      AdditiveAt(describe, i, i, n, Concat(chunks[..n]), chunks[n]);
    }
  }

  function From(ids: seq<string>, s: nat): seq<string> {
    if s < |ids| then ids[s..] else []
  }

  /** The chunks before s are described, those from s on are to come. */
  ghost predicate Progress(describe: Describe, ids: seq<string>, limit: nat, s: nat,
                           chunks: seq<seq<string>>, cvms: seq<Instance>)
    requires limit > 0
  {
    && Chunks(ids, limit) == chunks + Chunks(From(ids, s), limit)
    && Described(describe, chunks) == Ok(cvms)
  }

  method GetCVMInstances(cloud: Cloud, instanceIds: seq<string>, limit: nat) returns (r: Result<seq<Instance>>)
    requires limit > 0
    ensures r.Err? <==> !cloud.connects || Described(cloud.describe, Chunks(instanceIds, limit)).Err?
    ensures r.Ok? ==> r == Described(cloud.describe, Chunks(instanceIds, limit))
  {
    hide Chunks, Described, Progress;
    if !cloud.connects {
      return Err("no client");
    }
    var cvms := [];
    var s, call := 0, 0;
    ghost var chunks := [];
    ProgressAtTheEnds(cloud.describe, instanceIds, limit);
    while s < |instanceIds|
      invariant 0 <= s && |chunks| == call
      invariant Progress(cloud.describe, instanceIds, limit, s, chunks, cvms)
      decreases |instanceIds| - s
    {
      var e := s + limit;
      if e > |instanceIds| {
        e := |instanceIds|;
      }
      var resp := cloud.describe(call, instanceIds[s..e]);
      ProgressNext(cloud.describe, instanceIds, limit, s, e, chunks, cvms);
      if resp.Err? {
        return Err(resp.error);
      }
      chunks := chunks + [instanceIds[s..e]];
      cvms := cvms + resp.value;
      s, call := s + limit, call + 1;
    }
    ProgressAtTheEnds(cloud.describe, instanceIds, limit);
    return Ok(cvms);
  }

  lemma ProgressAtTheEnds(describe: Describe, ids: seq<string>, limit: nat)
    requires limit > 0
    ensures Progress(describe, ids, limit, 0, [], [])
    ensures forall s, chunks, cvms :: s >= |ids| && Progress(describe, ids, limit, s, chunks, cvms) ==>
              Described(describe, Chunks(ids, limit)) == Ok(cvms)
  {
    assert From(ids, 0) == ids;
    assert Described(describe, []) == Ok([]);
    forall s: nat, chunks, cvms | s >= |ids| && Progress(describe, ids, limit, s, chunks, cvms)
      ensures Chunks(ids, limit) == chunks
    {
      assert chunks + [] == chunks;
    }
  }

  lemma ProgressNext(describe: Describe, ids: seq<string>, limit: nat, s: nat, e: nat,
                     chunks: seq<seq<string>>, cvms: seq<Instance>)
    requires limit > 0 && s < |ids| && e == (if s + limit > |ids| then |ids| else s + limit)
    requires Progress(describe, ids, limit, s, chunks, cvms)
    ensures var answer := describe(|chunks|, ids[s..e]);
            if answer.Err? then Described(describe, Chunks(ids, limit)).Err?
            else Progress(describe, ids, limit, s + limit, chunks + [ids[s..e]], cvms + answer.value)
  {
    hide Chunks, Described, From;
    NextChunk(ids, s, limit);
    var chunk, rest := ids[s..e], Chunks(From(ids, s + limit), limit);
    assert chunks + ([chunk] + rest) == (chunks + [chunk]) + rest;
    if describe(|chunks|, chunk).Err? {
      assert (chunks + ([chunk] + rest))[|chunks|] == chunk;
      DescribedFailsExactlyWhen(describe, Chunks(ids, limit));
    } else {
      DescribedNext(describe, chunks, chunk);
    }
  }

  lemma DescribedNext(describe: Describe, chunks: seq<seq<string>>, chunk: seq<string>)
    requires Described(describe, chunks).Ok? && describe(|chunks|, chunk).Ok?
    ensures Described(describe, chunks + [chunk]) == Ok(Described(describe, chunks).value + describe(|chunks|, chunk).value)
  {
    assert (chunks + [chunk])[..|chunks|] == chunks;
  }

  lemma NextChunk(ids: seq<string>, s: nat, limit: nat)
    requires limit > 0 && s < |ids|
    ensures var e := if s + limit > |ids| then |ids| else s + limit;
            Chunks(From(ids, s), limit) == [ids[s..e]] + Chunks(From(ids, s + limit), limit)
  {
    if s + limit < |ids| {
      assert ids[s..][limit..] == ids[s + limit..];
      assert ids[s..][..limit] == ids[s..s + limit];
    } else {
      assert ids[s..][..] == ids[s..|ids|];
    }
  }

  /** Chunked calls give what one call with all ids would. */
  lemma ChunkingIsInvisible(cloud: Cloud, ids: seq<string>, limit: nat)
    requires limit > 0 && Additive(cloud.describe)
    ensures Described(cloud.describe, Chunks(ids, limit)).Ok? <==> cloud.describe(0, ids).Ok?
    ensures cloud.describe(0, ids).Ok? ==> Described(cloud.describe, Chunks(ids, limit)) == cloud.describe(0, ids)
  {
    ChunksPartition(ids, limit);
    AdditiveInOneCall(cloud.describe, Chunks(ids, limit), 0);
  }

  // ---- Pricing ----

  function QuoteFor(cloud: Cloud, ins: Instance): Option<ItemPrice> {
    var answer := cloud.quote(ins.instanceType.GetOr(""), ins.chargeType.GetOr(""), ins.zone.GetOr(""));
    if answer.Ok? then answer.value else None
  }

  /** The instances that got a quote, in order, each with it. */
  function Priced(cloud: Cloud, instances: seq<Instance>): seq<InstancePrice> {
    if instances == [] then []
    else
      var n := |instances| - 1;
      var quote := QuoteFor(cloud, instances[n]);
      Priced(cloud, instances[..n]) + if quote.Some? then [InstancePrice(instances[n], quote.value)] else []
  }

  /** A failing quote leaves out its own instance and no other. */
  lemma {:induction false} PricedExactlyWhen(cloud: Cloud, instances: seq<Instance>, p: InstancePrice)
    ensures p in Priced(cloud, instances) <==> p.instance in instances && QuoteFor(cloud, p.instance) == Some(p.price)
  {
    if instances != [] {
      var n := |instances| - 1;
      PricedExactlyWhen(cloud, instances[..n], p);
      assert instances == instances[..n] + [instances[n]];
    }
  }

  /** In terms of what the cloud is asked: type, charge type and zone, or nothing where they are missing. */
  lemma PricedByTheCloud(cloud: Cloud, instances: seq<Instance>, p: InstancePrice)
    ensures p in Priced(cloud, instances) <==>
            && p.instance in instances
            && cloud.quote(OrNothing(p.instance.instanceType), OrNothing(p.instance.chargeType), OrNothing(p.instance.zone)) ==
               Ok(Some(p.price))
  {
    PricedExactlyWhen(cloud, instances, p);
  }

  ghost function OrNothing(s: Option<string>): string {
    match s
    case Some(text) => text
    case None => ""
  }

  method GetCVMInstancesPrice(cloud: Cloud, instances: seq<Instance>) returns (r: Result<seq<InstancePrice>>)
    ensures r.Err? <==> !cloud.connects
    ensures r.Ok? ==> r.value == Priced(cloud, instances)
  {
    if !cloud.connects {
      return Err("no client");
    }
    var prices := [];
    var i := 0;
    while i < |instances|
      invariant 0 <= i <= |instances| && prices == Priced(cloud, instances[..i])
    {
      var ins := instances[i];
      assert instances[..i + 1][..i] == instances[..i];
      i := i + 1;
      var resp := cloud.quote(ins.instanceType.GetOr(""), ins.chargeType.GetOr(""), ins.zone.GetOr(""));
      if resp.Err? {
        continue;
      }
      if resp.value.Some? {
        prices := prices + [InstancePrice(ins, resp.value.value)];
      }
    }
    assert instances[..i] == instances;
    return Ok(prices);
  }
}
