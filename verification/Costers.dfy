/** Adding up what workloads cost (pkg/cost-comparator/coster/recommended_coster.go and serverless_coster.go). */
module Costers {
  import opened Wrappers
  import opened Text
  import opened ExtReal

  // ---- Sums in any order ----

  /** The sum of f over a set; SumPick says that it does not matter in which order. */
  ghost function Sum<K(!new)>(keys: set<K>, f: K -> Float): Float {
    if keys == {} then Fin(0.0)
    else
      var k :| k in keys;
      f(k).Plus(Sum(keys - {k}, f))
  }

  lemma PlusReorders(x: Float, y: Float, z: Float)
    ensures x.Plus(y.Plus(z)) == y.Plus(x.Plus(z))
    ensures x.Plus(y) == y.Plus(x)
    ensures x.Plus(y).Plus(z) == x.Plus(y.Plus(z))
  {
  }

  lemma {:induction false} SumPick<K(!new)>(keys: set<K>, f: K -> Float, k: K)
    requires k in keys
    ensures Sum(keys, f) == f(k).Plus(Sum(keys - {k}, f))
  {
    var first :| first in keys && Sum(keys, f) == f(first).Plus(Sum(keys - {first}, f));
    if first != k {
      SumPick(keys - {first}, f, k);
      SumPick(keys - {k}, f, first);
      assert keys - {first} - {k} == keys - {k} - {first};
      PlusReorders(f(first), f(k), Sum(keys - {first} - {k}, f));
    }
  }

  lemma TimesDistributes(h: real, x: Float, y: Float)
    ensures Fin(h).Times(x.Plus(y)) == Fin(h).Times(x).Plus(Fin(h).Times(y))
  {
    if x.Fin? && y.Fin? {
      assert h * (x.r + y.r) == h * x.r + h * y.r;
    }
  }

  lemma {:induction false} SumScales<K(!new)>(keys: set<K>, f: K -> Float, g: K -> Float, h: real)
    requires forall k :: k in keys ==> g(k) == Fin(h).Times(f(k))
    ensures Sum(keys, g) == Fin(h).Times(Sum(keys, f))
  {
    hide Float.Times, Float.Plus;
    if keys == {} {
      assert Fin(h).Times(Fin(0.0)) == Fin(0.0) by {
        ScaledZero(h);
      }
    } else {
      var k :| k in keys;
      SumPick(keys, f, k);
      SumPick(keys, g, k);
      SumScales(keys - {k}, f, g, h);
      TimesDistributes(h, f(k), Sum(keys - {k}, f));
    }
  }

  lemma ScaledZero(h: real)
    ensures Fin(h).Times(Fin(0.0)) == Fin(0.0)
  {
  }

  // ---- Prices ----

  /** The text of a price. */
  datatype CostText = Empty | Unreadable | Number(value: Float)

  /** A pod spec, as far as the pricer tells specs apart. */
  type Spec = string

  datatype Name = Name(namespace: string, name: string)

  datatype Recommended = Recommended(recommended: Spec, max: Option<Spec>, maxMargin: Option<Spec>, percent: Option<Spec>)

  type Workloads<T> = map<string, map<Name, T>>

  /** ServerlessPodPrice of the configured cloud. */
  type Pricer = Spec -> Result<CostText>

  /** A workload that cannot be priced costs nothing. */
  function Price(pricer: Pricer, spec: Spec): Float {
    var pricing := pricer(spec);
    if pricing.Err? then Fin(0.0)
    else match pricing.value
      case Empty => Fin(0.0)
      case Unreadable => Fin(0.0)
      case Number(v) => v.OrZero()
  }

  function Hours(seconds: int): (h: real)
    ensures h * 60.0 * 60.0 == seconds as real
  {
    seconds as real / 3600.0
  }

  // ---- Totals ----

  /** The total over one kind, where cost may leave out a workload. */
  ghost function KindTotal<T>(workloads: map<Name, T>, cost: T -> Float): Float {
    Sum(workloads.Keys, NameCost(workloads, cost))
  }

  ghost function NameCost<T>(workloads: map<Name, T>, cost: T -> Float): Name -> Float {
    nn => if nn in workloads then cost(workloads[nn]) else Fin(0.0)
  }

  /** The total over all kinds but daemon sets, which have no place on a serverless platform. */
  ghost function Total<T>(workloads: Workloads<T>, cost: T -> Float): Float {
    Sum(workloads.Keys, KindCost(workloads, cost))
  }

  ghost function KindCost<T>(workloads: Workloads<T>, cost: T -> Float): string -> Float {
    kind => if kind in workloads && !Spells(kind, "daemonset") then KindTotal(workloads[kind], cost) else Fin(0.0)
  }

  /** The serverless coster charges price times hours. */
  function OnceByHours(pricer: Pricer, h: real): Spec -> Float {
    (spec: Spec) => Price(pricer, spec).Times(Fin(h))
  }

  /** The recommender's workloadCosting multiplies by the hours, and its TotalCost does so again. */
  function TwiceByHours(pricer: Pricer, h: real): Spec -> Float {
    (spec: Spec) => Price(pricer, spec).Times(Fin(h)).Times(Fin(h))
  }

  function ForRecommended(cost: Spec -> Float): Recommended -> Float {
    (r: Recommended) => cost(r.recommended)
  }

  function ForOptional(cost: Spec -> Float, spec: Recommended -> Option<Spec>): Recommended -> Float {
    (r: Recommended) => if spec(r).Some? then cost(spec(r).value) else Fin(0.0)
  }

  function MaxOf(r: Recommended): Option<Spec> { r.max }

  function MaxMarginOf(r: Recommended): Option<Spec> { r.maxMargin }

  function PercentOf(r: Recommended): Option<Spec> { r.percent }

  // ---- The costers ----

  datatype Cost = Cost(total: Float, serverful: Float, serverless: Float, serverfulPlatform: Float, serverlessPlatform: Float)

  datatype RecommendedCost = RecommendedCost(total: Float, platform: Float, workload: Float)

  function WithPlatform(workload: Float, platform: Float): RecommendedCost {
    RecommendedCost(workload.Plus(platform), platform, workload)
  }

  lemma SumNext<K(!new)>(all: set<K>, todo: set<K>, k: K, f: K -> Float)
    requires k in todo && todo <= all
    ensures Sum(all - (todo - {k}), f) == f(k).Plus(Sum(all - todo, f))
  {
    SumPick(all - (todo - {k}), f, k);
    assert all - (todo - {k}) - {k} == all - todo;
  }

  /** The sum so far over a kind, on top of what was there before, with one more workload. */
  lemma NextName<T>(workloads: map<Name, T>, names: set<Name>, nn: Name, cost: T -> Float, before: Float, total: Float)
    requires nn in names && names <= workloads.Keys
    requires total == Sum(workloads.Keys - names, NameCost(workloads, cost)).Plus(before)
    ensures total.Plus(cost(workloads[nn])) == Sum(workloads.Keys - (names - {nn}), NameCost(workloads, cost)).Plus(before)
  {
    hide Float.Plus, Sum;
    var sum, x := Sum(workloads.Keys - names, NameCost(workloads, cost)), cost(workloads[nn]);
    SumNext(workloads.Keys, names, nn, NameCost(workloads, cost));
    PlusReorders(x, sum, before);
    PlusReorders(total, x, before);
  }

  method ServerlessTotalCost(pricer: Pricer, seconds: int, workloadsSpec: Workloads<Spec>,
                             platformPrice: Float) returns (c: Cost)
    ensures c.serverless == Total(workloadsSpec, OnceByHours(pricer, Hours(seconds)))
    ensures c == Cost(c.serverless.Plus(platformPrice), Fin(0.0), c.serverless, Fin(0.0), platformPrice)
  {
    hide Sum, Float.Plus, Float.Times, Price;
    var total := Fin(0.0);
    var h := Hours(seconds);
    ghost var cost := OnceByHours(pricer, h);
    var kinds := workloadsSpec.Keys;
    EmptySum(workloadsSpec.Keys, KindCost(workloadsSpec, cost));
    while kinds != {}
      invariant kinds <= workloadsSpec.Keys
      invariant total == Sum(workloadsSpec.Keys - kinds, KindCost(workloadsSpec, cost))
      decreases kinds
    {
      var kind :| kind in kinds;
      SumNext(workloadsSpec.Keys, kinds, kind, KindCost(workloadsSpec, cost));
      kinds := kinds - {kind};
      LowerExactlyWhen(kind, "daemonset");
      if ToLower(kind) == "daemonset" {
        AddZero(total);
        continue;
      }
      ghost var before := total;
      var workloads := workloadsSpec[kind];
      var names := workloads.Keys;
      EmptySum(workloads.Keys, NameCost(workloads, cost));
      AddZero(total);
      while names != {}
        invariant names <= workloads.Keys
        invariant total == Sum(workloads.Keys - names, NameCost(workloads, cost)).Plus(before)
        decreases names
      {
        var nn :| nn in names;
        NextName(workloads, names, nn, cost, before, total);
        names := names - {nn};
        var pricing := pricer(workloads[nn]);
        UnpricedCostsNothing(pricer, workloads[nn], h, total);
        if pricing.Err? {
          continue;
        }
        var workloadPrice := Fin(0.0);
        if pricing.value == Unreadable {
          continue;
        }
        if pricing.value.Number? {
          workloadPrice := pricing.value.value;
        }
        workloadPrice := workloadPrice.OrZero();
        total := total.Plus(workloadPrice.Times(Fin(h)));
      }
      assert workloads.Keys - names == workloads.Keys;
    }
    assert workloadsSpec.Keys - kinds == workloadsSpec.Keys;
    c := Cost(total.Plus(platformPrice), Fin(0.0), total, Fin(0.0), platformPrice);
  }

  lemma EmptySum<K(!new)>(all: set<K>, f: K -> Float)
    ensures Sum(all - all, f) == Fin(0.0)
  {
    assert all - all == {};
  }

  lemma AddZero(x: Float)
    ensures Fin(0.0).Plus(x) == x && x.Plus(Fin(0.0)) == x
  {
  }

  lemma UnpricedCostsNothing(pricer: Pricer, spec: Spec, h: real, total: Float)
    ensures pricer(spec).Err? || pricer(spec).value == Unreadable ==> total.Plus(Price(pricer, spec).Times(Fin(h))) == total
    ensures pricer(spec).Ok? && pricer(spec).value != Unreadable ==>
              Price(pricer, spec) == (if pricer(spec).value.Number? then pricer(spec).value.value else Fin(0.0)).OrZero()
  {
  }

  /** workloadCosting. */
  method WorkloadCosting(pricer: Pricer, h: real, spec: Spec) returns (cost: Float)
    ensures cost == Price(pricer, spec).Times(Fin(h))
  {
    var pricing := pricer(spec);
    if pricing.Err? {
      return Fin(0.0);
    }
    var workloadPrice := Fin(0.0);
    if pricing.value == Unreadable {
      return Fin(0.0);
    }
    if pricing.value.Number? {
      workloadPrice := pricing.value.value;
    }
    workloadPrice := workloadPrice.OrZero();
    cost := workloadPrice.Times(Fin(h));
  }

  /** The running totals over the kinds that are done, and over the workloads done in the present one. */
  ghost predicate KindsDone(specs: Workloads<Recommended>, kinds: set<string>, cost: Recommended -> Float,
                            total: Float) {
    total == Sum(specs.Keys - kinds, KindCost(specs, cost))
  }

  ghost predicate NamesDone(specs: map<Name, Recommended>, names: set<Name>, cost: Recommended -> Float,
                            before: Float, total: Float) {
    total == Sum(specs.Keys - names, NameCost(specs, cost)).Plus(before)
  }

  lemma KindSkipped(specs: Workloads<Recommended>, kinds: set<string>, kind: string, cost: Recommended -> Float,
                    total: Float)
    requires KindsDone(specs, kinds, cost, total) && kind in kinds && kinds <= specs.Keys && Spells(kind, "daemonset")
    ensures KindsDone(specs, kinds - {kind}, cost, total)
  {
    SumNext(specs.Keys, kinds, kind, KindCost(specs, cost));
    AddZero(total);
  }

  lemma KindBegun(specs: map<Name, Recommended>, cost: Recommended -> Float, total: Float)
    ensures NamesDone(specs, specs.Keys, cost, total, total)
  {
    EmptySum(specs.Keys, NameCost(specs, cost));
    AddZero(total);
  }

  lemma KindEnded(specs: Workloads<Recommended>, kinds: set<string>, kind: string, cost: Recommended -> Float,
                  before: Float, total: Float)
    requires KindsDone(specs, kinds, cost, before) && kind in kinds && kinds <= specs.Keys && !Spells(kind, "daemonset")
    requires NamesDone(specs[kind], {}, cost, before, total)
    ensures KindsDone(specs, kinds - {kind}, cost, total)
  {
    hide Sum, Float.Plus;
    SumNext(specs.Keys, kinds, kind, KindCost(specs, cost));
    assert specs[kind].Keys - {} == specs[kind].Keys;
  }

  lemma NameDone(specs: map<Name, Recommended>, names: set<Name>, nn: Name, cost: Recommended -> Float,
                 before: Float, total: Float)
    requires NamesDone(specs, names, cost, before, total) && nn in names && names <= specs.Keys
    ensures NamesDone(specs, names - {nn}, cost, before, total.Plus(cost(specs[nn])))
    ensures cost(specs[nn]) == Fin(0.0) ==> NamesDone(specs, names - {nn}, cost, before, total)
  {
    NextName(specs, names, nn, cost, before, total);
    AddZero(total);
  }

  method RecommenderTotalCost(pricer: Pricer, seconds: int, workloadsRecSpec: Workloads<Recommended>,
                              platformPrice: Float)
      returns (rec: RecommendedCost, percent: RecommendedCost, max: RecommendedCost, maxMargin: RecommendedCost)
    ensures var cost := TwiceByHours(pricer, Hours(seconds));
            && rec == WithPlatform(Total(workloadsRecSpec, ForRecommended(cost)), platformPrice)
            && percent == WithPlatform(Total(workloadsRecSpec, ForOptional(cost, PercentOf)), platformPrice)
            && max == WithPlatform(Total(workloadsRecSpec, ForOptional(cost, MaxOf)), platformPrice)
            && maxMargin == WithPlatform(Total(workloadsRecSpec, ForOptional(cost, MaxMarginOf)), platformPrice)
    ensures rec == RecommendedCost(rec.workload.Plus(platformPrice), platformPrice, rec.workload)
    ensures percent == RecommendedCost(percent.workload.Plus(platformPrice), platformPrice, percent.workload)
    ensures max == RecommendedCost(max.workload.Plus(platformPrice), platformPrice, max.workload)
    ensures maxMargin == RecommendedCost(maxMargin.workload.Plus(platformPrice), platformPrice, maxMargin.workload)
    ensures var cost := TwiceByHours(pricer, Hours(seconds));
            && rec.workload == Total(workloadsRecSpec, ForRecommended(cost))
            && percent.workload == Total(workloadsRecSpec, ForOptional(cost, PercentOf))
            && max.workload == Total(workloadsRecSpec, ForOptional(cost, MaxOf))
            && maxMargin.workload == Total(workloadsRecSpec, ForOptional(cost, MaxMarginOf))
  {
    hide Sum, Float.Plus, Float.Times, Price, NamesDone, Total, Spells, ToLower;
    var recTotal, percentTotal, maxTotal, maxMarginTotal := Fin(0.0), Fin(0.0), Fin(0.0), Fin(0.0);
    var h := Hours(seconds);
    ghost var cost := TwiceByHours(pricer, h);
    ghost var c0, c1 := ForRecommended(cost), ForOptional(cost, PercentOf);
    ghost var c2, c3 := ForOptional(cost, MaxOf), ForOptional(cost, MaxMarginOf);
    var kinds := workloadsRecSpec.Keys;
    NothingDone(workloadsRecSpec);
    hide KindsDone;
    while kinds != {}
      invariant kinds <= workloadsRecSpec.Keys
      invariant KindsDone(workloadsRecSpec, kinds, c0, recTotal) && KindsDone(workloadsRecSpec, kinds, c1, percentTotal)
      invariant KindsDone(workloadsRecSpec, kinds, c2, maxTotal) && KindsDone(workloadsRecSpec, kinds, c3, maxMarginTotal)
      decreases kinds
    {
      var kind :| kind in kinds;
      ghost var open := kinds;
      kinds := kinds - {kind};
      LowerExactlyWhen(kind, "daemonset");
      if ToLower(kind) == "daemonset" {
        KindSkipped(workloadsRecSpec, open, kind, c0, recTotal);
        KindSkipped(workloadsRecSpec, open, kind, c1, percentTotal);
        KindSkipped(workloadsRecSpec, open, kind, c2, maxTotal);
        KindSkipped(workloadsRecSpec, open, kind, c3, maxMarginTotal);
        continue;
      }
      var specs := workloadsRecSpec[kind];
      var names := specs.Keys;
      ghost var b0, b1, b2, b3 := recTotal, percentTotal, maxTotal, maxMarginTotal;
      KindBegun(specs, c0, b0);
      KindBegun(specs, c1, b1);
      KindBegun(specs, c2, b2);
      KindBegun(specs, c3, b3);
      while names != {}
        invariant names <= specs.Keys
        invariant NamesDone(specs, names, c0, b0, recTotal) && NamesDone(specs, names, c1, b1, percentTotal)
        invariant NamesDone(specs, names, c2, b2, maxTotal) && NamesDone(specs, names, c3, b3, maxMarginTotal)
        decreases names
      {
        var nn :| nn in names;
        var spec := specs[nn];
        NameDone(specs, names, nn, c0, b0, recTotal);
        NameDone(specs, names, nn, c1, b1, percentTotal);
        NameDone(specs, names, nn, c2, b2, maxTotal);
        NameDone(specs, names, nn, c3, b3, maxMarginTotal);
        names := names - {nn};
        var price := WorkloadCosting(pricer, h, spec.recommended);
        recTotal := recTotal.Plus(price.Times(Fin(h)));
        if spec.max.Some? {
          price := WorkloadCosting(pricer, h, spec.max.value);
          maxTotal := maxTotal.Plus(price.Times(Fin(h)));
        }
        if spec.maxMargin.Some? {
          price := WorkloadCosting(pricer, h, spec.maxMargin.value);
          maxMarginTotal := maxMarginTotal.Plus(price.Times(Fin(h)));
        }
        if spec.percent.Some? {
          price := WorkloadCosting(pricer, h, spec.percent.value);
          percentTotal := percentTotal.Plus(price.Times(Fin(h)));
        }
      }
      KindEnded(workloadsRecSpec, open, kind, c0, b0, recTotal);
      KindEnded(workloadsRecSpec, open, kind, c1, b1, percentTotal);
      KindEnded(workloadsRecSpec, open, kind, c2, b2, maxTotal);
      KindEnded(workloadsRecSpec, open, kind, c3, b3, maxMarginTotal);
    }
    AllDone(workloadsRecSpec);
    rec := WithPlatform(recTotal, platformPrice);
    percent := WithPlatform(percentTotal, platformPrice);
    max := WithPlatform(maxTotal, platformPrice);
    maxMargin := WithPlatform(maxMarginTotal, platformPrice);
  }

  lemma NothingDone(specs: Workloads<Recommended>)
    ensures forall cost :: KindsDone(specs, specs.Keys, cost, Fin(0.0))
  {
    forall cost: Recommended -> Float
      ensures KindsDone(specs, specs.Keys, cost, Fin(0.0))
    {
      EmptySum(specs.Keys, KindCost(specs, cost));
    }
  }

  lemma AllDone(specs: Workloads<Recommended>)
    ensures forall cost, total :: KindsDone(specs, {}, cost, total) ==> total == Total(specs, cost)
  {
    assert specs.Keys - {} == specs.Keys;
  }

  // ---- The two costers compared ----

  /** The recommendation leaves every workload as it is. */
  ghost predicate SameSpecs(specs: Workloads<Spec>, recSpecs: Workloads<Recommended>) {
    && specs.Keys == recSpecs.Keys
    && forall kind :: kind in specs && !Spells(kind, "daemonset") ==>
         && specs[kind].Keys == recSpecs[kind].Keys
         && forall nn :: nn in specs[kind] ==> recSpecs[kind][nn].recommended == specs[kind][nn]
  }

  lemma TwiceIsOnceMore(pricer: Pricer, h: real, spec: Spec)
    ensures TwiceByHours(pricer, h)(spec) == Fin(h).Times(OnceByHours(pricer, h)(spec))
  {
    hide Price;
  }

  /** Over the same specs the recommender's workload cost is the serverless coster's cost times the hours again,
      whatever the pricer answers and in whatever order the maps are walked. */
  lemma HoursCountTwice(pricer: Pricer, h: real, specs: Workloads<Spec>, recSpecs: Workloads<Recommended>)
    requires SameSpecs(specs, recSpecs)
    ensures Total(recSpecs, ForRecommended(TwiceByHours(pricer, h))) == Fin(h).Times(Total(specs, OnceByHours(pricer, h)))
  {
    hide Sum, Float.Times, TwiceByHours, OnceByHours;
    var once, twice := OnceByHours(pricer, h), ForRecommended(TwiceByHours(pricer, h));
    ScaledZero(h);
    forall kind | kind in specs
      ensures KindCost(recSpecs, twice)(kind) == Fin(h).Times(KindCost(specs, once)(kind))
    {
      if !Spells(kind, "daemonset") {
        forall nn | nn in specs[kind]
          ensures NameCost(recSpecs[kind], twice)(nn) == Fin(h).Times(NameCost(specs[kind], once)(nn))
        {
          TwiceIsOnceMore(pricer, h, specs[kind][nn]);
        }
        SumScales(specs[kind].Keys, NameCost(specs[kind], once), NameCost(recSpecs[kind], twice), h);
      }
    }
    SumScales(specs.Keys, KindCost(specs, once), KindCost(recSpecs, twice), h);
  }

  /** So the two agree just when the time span is one hour, or the cost is zero or NaN, or it is infinite and the time
      span positive. */
  lemma CostersAgreeExactlyWhen(pricer: Pricer, seconds: int, specs: Workloads<Spec>, recSpecs: Workloads<Recommended>)
    requires SameSpecs(specs, recSpecs)
    ensures var h := Hours(seconds);
            var cost := Total(specs, OnceByHours(pricer, h));
            Total(recSpecs, ForRecommended(TwiceByHours(pricer, h))) == cost <==>
            seconds == 3600 || cost.IsZero() || cost.NaN? || (!cost.Fin? && seconds > 0)
  {
    HoursCountTwice(pricer, Hours(seconds), specs, recSpecs);
    hide Total, OnceByHours, TwiceByHours, Float.Times;
    ScaledIsSame(Hours(seconds), Total(specs, OnceByHours(pricer, Hours(seconds))));
  }

  lemma ScaledIsSame(h: real, x: Float)
    ensures Fin(h).Times(x) == x <==> h == 1.0 || x.IsZero() || x.NaN? || (!x.Fin? && h > 0.0)
  {
    if x.Fin? {
      assert h * x.r - x.r == (h - 1.0) * x.r;
      ZeroProduct(h - 1.0, x.r);
    }
  }

  lemma ZeroProduct(a: real, b: real)
    ensures a * b == 0.0 <==> a == 0.0 || b == 0.0
  {
    if a != 0.0 {
      assert a * b / a == b;
    }
  }
}
