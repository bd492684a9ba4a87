/** The three values exported for a priced node (pkg/cost-exporter/store/prometheus/prom_emitter.go), and how close
    their total comes to the price the breakdown started from. */
module Exported {
  import opened Wrappers
  import opened ExtReal
  import opened NodeCost

  datatype Gauges = Gauges(cpuCost: Float, ramCost: Float, total: Float)

  /** A float64 field: text that does not parse counts as 0. */
  function Parsed(field: Option<Float>): Float {
    field.GetOr(Fin(0.0))
  }

  function IfFinite(x: Float, otherwise: Float): Float {
    if x.Fin? then x else otherwise
  }

  function Export(cfg: CustomPricing, node: PricedNode): Gauges {
    var cpuCost := IfFinite(Parsed(node.cpuHourlyCost), cfg.cpuHourlyPrice);
    var cpu := IfFinite(Parsed(node.cpu), Fin(1.0));
    var ramCost := IfFinite(Parsed(node.ramGBHourlyCost), IfFinite(cfg.ramGBHourlyPrice, Fin(0.0)));
    var ram := IfFinite(Parsed(node.ram), Fin(0.0));
    Gauges(cpuCost, ramCost, cpu.Times(cpuCost).Plus(ramCost.Times(ram)))
  }

  // ---- What the gauges have to show ----

  /** A field read as a number: 0 where it is missing, and the other value where it is infinite or NaN. */
  ghost predicate ReadsAs(field: Option<Float>, otherwise: Float, x: Float) {
    match field
    case None => x == Fin(0.0)
    case Some(v) => if v == PosInf || v == NegInf || v == NaN then x == otherwise else x == v
  }

  ghost predicate IsTotal(g: Gauges, cpu: real, ramGB: real) {
    g.cpuCost.Fin? && g.ramCost.Fin? ==> g.total == Fin(cpu * g.cpuCost.r + g.ramCost.r * ramGB)
  }

  /** The gauges of a node: the cost fields, for which the configured prices stand in, the RAM price only if it is a
      number; and the total over cores and memory, where one core and no memory stand in. */
  ghost predicate ShowsFields(cfg: CustomPricing, node: PricedNode, g: Gauges) {
    && ReadsAs(node.cpuHourlyCost, cfg.cpuHourlyPrice, g.cpuCost)
    && ReadsAs(node.ramGBHourlyCost, if cfg.ramGBHourlyPrice.Fin? then cfg.ramGBHourlyPrice else Fin(0.0), g.ramCost)
    && (exists cpu, ramGB ::
          ReadsAs(node.cpu, Fin(1.0), Fin(cpu)) && ReadsAs(node.ram, Fin(0.0), Fin(ramGB)) && IsTotal(g, cpu, ramGB))
    && (g.total.Fin? <==> g.cpuCost.Fin?)
  }

  lemma ExportShowsFields(cfg: CustomPricing, node: PricedNode)
    ensures ShowsFields(cfg, node, Export(cfg, node))
  {
    var g := Export(cfg, node);
    var cpu, ram := IfFinite(Parsed(node.cpu), Fin(1.0)), IfFinite(Parsed(node.ram), Fin(0.0));
    assert ReadsAs(node.cpu, Fin(1.0), Fin(cpu.r)) && ReadsAs(node.ram, Fin(0.0), Fin(ram.r)) && IsTotal(g, cpu.r, ram.r);
  }

  /** The gauges of a node that is not virtual, at configured prices a and b: those prices where there is no bill, or
      where they leave nothing to split the bill by; otherwise the shares of the bill in their proportion. */
  ghost predicate ShowsBill(a: real, b: real, node: Node, cached: Option<InstancePrice>, g: Gauges) {
    if !Billable(cached) then
      && g.cpuCost == Fin(a) && g.ramCost == Fin(b)
      && g.total == Fin(AtDefaultPrices(a, b, node.cpu as real, Gigabytes(node)))
    else
      && (forall price :: BillsAt(cached.value, price) ==>
            ShowsShares(a, b, CoresOf(node, cached), Gigabytes(node), price, g.cpuCost, g.ramCost))
      && exists ramGB: real :: IsNear(Fin(ramGB), Gigabytes(node)) && IsTotal(g, CoresOf(node, cached), ramGB)
  }

  ghost predicate ShowsShares(a: real, b: real, cpu: real, ramGB: real, price: real, cpuCost: Float, ramCost: Float) {
    if b == 0.0 then
      ramCost == Fin(0.0) && IsNear(cpuCost, if cpu == 0.0 then price else price / cpu)
    else if cpu * a + ramGB * b != 0.0 then
      && IsNear(cpuCost, price * a / (cpu * a + ramGB * b))
      && IsNear(ramCost, price * b / (cpu * a + ramGB * b))
    else if price == 0.0 then
      cpuCost == Fin(0.0) && ramCost == Fin(0.0)
    else
      cpuCost == Fin(a) && ramCost == Fin(b)
  }

  lemma GaugesShowBill(a: real, b: real, node: Node, cached: Option<InstancePrice>)
    requires !node.virtual
    ensures ShowsBill(a, b, node, cached, ExportOf(CustomPricing(Fin(a), Fin(b)), node, cached))
  {
    hide BreakdownCost, Gigabytes, Export, SplitsPrice, ShowsShares, IsTotal, BillsAt;
    var cfg := CustomPricing(Fin(a), Fin(b));
    var r := BreakdownCost(cfg, node, cached);
    BreakdownShows(a, b, node, cached);
    if !Billable(cached) {
      GaugesUnbilled(a, b, node.cpu as real, Gigabytes(node), r);
    } else {
      GaugesTotal(cfg, CoresOf(node, cached), Gigabytes(node), r);
      forall price | BillsAt(cached.value, price)
        ensures ShowsShares(a, b, CoresOf(node, cached), Gigabytes(node), price, Export(cfg, r).cpuCost, Export(cfg, r).ramCost)
      {
        GaugesShares(a, b, CoresOf(node, cached), Gigabytes(node), price, r);
      }
    }
  }

  lemma GaugesUnbilled(a: real, b: real, cpu: real, ramGB: real, r: PricedNode)
    requires r.cpuHourlyCost == Some(Fin(a)) && r.ramGBHourlyCost == Some(Fin(b))
    requires r.cpu == Some(Fin(cpu)) && r.ram == Some(Fin(ramGB))
    ensures Export(CustomPricing(Fin(a), Fin(b)), r) == Gauges(Fin(a), Fin(b), Fin(AtDefaultPrices(a, b, cpu, ramGB)))
  {
    assert AtDefaultPrices(a, b, cpu, ramGB) == cpu * a + b * ramGB;
    assert Fin(cpu).Times(Fin(a)).Plus(Fin(b).Times(Fin(ramGB))) == Fin(cpu * a + b * ramGB);
  }

  lemma GaugesTotal(cfg: CustomPricing, cpu: real, ramGB: real, r: PricedNode)
    requires r.cpu == Some(Fin(cpu)) && Near(r.ram, ramGB)
    ensures exists x: real :: IsNear(Fin(x), ramGB) && IsTotal(Export(cfg, r), cpu, x)
  {
    var x := r.ram.value.r;
    assert IsNear(Fin(x), ramGB) && IsTotal(Export(cfg, r), cpu, x);
  }

  lemma GaugesShares(a: real, b: real, cpu: real, ramGB: real, price: real, r: PricedNode)
    requires SplitsPrice(a, b, cpu, ramGB, price, r.cpuHourlyCost, r.ramGBHourlyCost)
    ensures var g := Export(CustomPricing(Fin(a), Fin(b)), r);
            ShowsShares(a, b, cpu, ramGB, price, g.cpuCost, g.ramCost)
  {
    hide Float.Times, Float.Plus;
  }

  // ---- Finiteness ----

  /** Whatever the node's fields say, the RAM gauge is a number; the CPU gauge is one just when the field or the
      configured price is; and then, and only then, so is the total. */
  lemma GaugesAreNumbers(cfg: CustomPricing, node: PricedNode)
    ensures var g := Export(cfg, node);
            && g.ramCost.Fin?
            && (g.cpuCost.Fin? <==> Parsed(node.cpuHourlyCost).Fin? || cfg.cpuHourlyPrice.Fin?)
            && (g.total.Fin? <==> g.cpuCost.Fin?)
  {
  }

  ghost predicate AllFinite(g: Gauges) {
    g.cpuCost.Fin? && g.ramCost.Fin? && g.total.Fin?
  }

  function ExportOf(cfg: CustomPricing, node: Node, cached: Option<InstancePrice>): Gauges {
    Export(cfg, BreakdownCost(cfg, node, cached))
  }

  /** Every gauge of every node, however the cloud prices it, is a number just when the configured CPU price is one.
      The configured RAM price is guarded, the CPU price is not. */
  lemma ProviderGaugesAreFiniteExactlyWhen(cfg: CustomPricing)
    ensures (forall node, cached :: AllFinite(ExportOf(cfg, node, cached))) <==> cfg.cpuHourlyPrice.Fin?
  {
    hide ExportOf;
    forall node, cached | cfg.cpuHourlyPrice.Fin?
      ensures AllFinite(ExportOf(cfg, node, cached))
    {
      ExportOfIsExport(cfg, node, cached);
    }
    if !cfg.cpuHourlyPrice.Fin? {
      UnpricedNode(cfg);
    }
  }

  lemma ExportOfIsExport(cfg: CustomPricing, node: Node, cached: Option<InstancePrice>)
    requires cfg.cpuHourlyPrice.Fin?
    ensures AllFinite(ExportOf(cfg, node, cached))
  {
    hide BreakdownCost, Export;
    GaugesAreNumbers(cfg, BreakdownCost(cfg, node, cached));
  }

  lemma UnpricedNode(cfg: CustomPricing)
    requires !cfg.cpuHourlyPrice.Fin?
    ensures var g := ExportOf(cfg, Node("n", false, 1, 1, "", "", ""), None);
            !g.cpuCost.Fin? && !g.total.Fin? && g.ramCost.Fin?
  {
    hide Export, Float.Times, Float.Over, Float.Plus, Quote;
    GaugesAreNumbers(cfg, BreakdownCost(cfg, Node("n", false, 1, 1, "", "", ""), None));
  }

  // ---- The total ----

  lemma ProductOfErrors(p: real, g: real, e: real)
    requires Abs(p) <= e && Abs(g) <= e
    ensures Abs(Mul(p, g)) <= Mul(e, e)
  {
    Product(Abs(p), g, e);
    assert Abs(p) * e <= e * e;
    assert p < 0.0 ==> Abs(p) * g == -(p * g);
  }

  lemma FormattingError(cpu: real, ramGB: real, cpuPrice: real, ramPrice: real)
    requires cpu >= 0.0 && ramGB >= 0.0 && ramPrice >= 0.0
    ensures Abs(cpu * Rounded6(cpuPrice) + Rounded6(ramPrice) * Rounded6(ramGB) - (cpu * cpuPrice + ramGB * ramPrice)) <=
            E6 * (cpu + ramGB + ramPrice + E6)
  {
    Rounded6IsNear(cpuPrice);
    Rounded6IsNear(ramPrice);
    Rounded6IsNear(ramGB);
    ErrorOf(cpu, ramGB, cpuPrice, ramPrice, Rounded6(cpuPrice), Rounded6(ramPrice), Rounded6(ramGB));
  }

  lemma ErrorOf(cpu: real, ramGB: real, cpuPrice: real, ramPrice: real, x: real, y: real, z: real)
    requires cpu >= 0.0 && ramGB >= 0.0 && ramPrice >= 0.0
    requires Abs(x - cpuPrice) <= E6 && Abs(y - ramPrice) <= E6 && Abs(z - ramGB) <= E6
    ensures Abs(cpu * x + y * z - (cpu * cpuPrice + ramGB * ramPrice)) <= E6 * (cpu + ramGB + ramPrice + E6)
  {
    hide Abs, Mul;
    Product(cpu, x - cpuPrice, E6);
    Product(ramPrice, z - ramGB, E6);
    Product(ramGB, y - ramPrice, E6);
    ProductOfErrors(y - ramPrice, z - ramGB, E6);
    Expand(cpu, ramGB, cpuPrice, ramPrice, x, y, z);
    ExpandBound(cpu, ramGB, ramPrice);
    Triangle(cpu * x + y * z - (cpu * cpuPrice + ramGB * ramPrice),
             Mul(cpu, x - cpuPrice), Mul(ramPrice, z - ramGB), Mul(ramGB, y - ramPrice), Mul(y - ramPrice, z - ramGB),
             Mul(cpu, E6), Mul(ramPrice, E6), Mul(ramGB, E6), Mul(E6, E6));
  }

  lemma Triangle(sum: real, a: real, b: real, c: real, d: real, a': real, b': real, c': real, d': real)
    requires Abs(a) <= a' && Abs(b) <= b' && Abs(c) <= c' && Abs(d) <= d'
    requires sum == a + b + c + d
    ensures Abs(sum) <= a' + b' + c' + d'
  {
  }

  lemma Expand(cpu: real, ramGB: real, cpuPrice: real, ramPrice: real, x: real, y: real, z: real)
    ensures cpu * x + y * z - (cpu * cpuPrice + ramGB * ramPrice) ==
            Mul(cpu, x - cpuPrice) + Mul(ramPrice, z - ramGB) + Mul(ramGB, y - ramPrice) + Mul(y - ramPrice, z - ramGB)
  {
  }

  lemma ExpandBound(cpu: real, ramGB: real, ramPrice: real)
    ensures E6 * (cpu + ramGB + ramPrice + E6) == Mul(cpu, E6) + Mul(ramPrice, E6) + Mul(ramGB, E6) + Mul(E6, E6)
  {
  }

  /** The price of one GB at the given default prices, or 0 when RAM has no default price. */
  function RamShare(a: real, b: real, cpu: real, ramGB: real, price: real): real
    requires b != 0.0 ==> cpu * a + ramGB * b != 0.0
  {
    if b == 0.0 then 0.0 else price * b / (cpu * a + ramGB * b)
  }

  ghost predicate HasNoDefaultPrice(a: real, b: real, cpu: real, ramGB: real) {
    if b == 0.0 then cpu == 0.0 else cpu * a + ramGB * b == 0.0
  }

  ghost predicate TotalMatches(a: real, b: real, cpu: real, ramGB: real, price: real, total: Float) {
    && total.Fin?
    && if HasNoDefaultPrice(a, b, cpu, ramGB) then total.r == 0.0
       else if b == 0.0 then Abs(total.r - price) <= E6 * cpu
       else Abs(total.r - price) <= E6 * (cpu + ramGB + RamShare(a, b, cpu, ramGB, price) + E6)
  }

  ghost predicate HasFields(n: PricedNode, cfg: CustomPricing, cpu: real, ramGB: real, price: real) {
    && n.cpu == Some(Fin(cpu)) && n.ram == Some(Fin(Rounded6(ramGB)))
    && (n.cpuHourlyCost, n.ramGBHourlyCost) == HourlyCosts(cfg, Fin(cpu), Fin(ramGB), Fin(price))
  }

  lemma TotalOfFields(cpu: real, ramGB: real, cpuCost: Float, ramCost: Float)
    requires cpuCost.Fin? && ramCost.Fin?
    ensures Fin(cpu).Times(cpuCost).Plus(ramCost.Times(Fin(ramGB))) == Fin(cpu * cpuCost.r + ramCost.r * ramGB)
  {
  }

  lemma TotalOnCores(a: real, cpu: real, ramGB: real, price: real, n: PricedNode)
    requires a >= 0.0 && cpu >= 0.0
    requires HasFields(n, CustomPricing(Fin(a), Fin(0.0)), cpu, ramGB, price)
    ensures TotalMatches(a, 0.0, cpu, ramGB, price, Export(CustomPricing(Fin(a), Fin(0.0)), n).total)
  {
    hide Rounded6, UnitPrices;
    var unit := if cpu == 0.0 then price else price / cpu;
    assert cpu != 0.0 ==> Fin(price).Over(Fin(cpu)) == Fin(price / cpu);
    TotalOfFields(cpu, Rounded6(ramGB), Fin(Rounded6(unit)), Fin(0.0));
    if cpu != 0.0 {
      Rounded6IsNear(unit);
      var d := Rounded6(unit) - unit;
      Product(cpu, d, E6);
      assert cpu * unit == price;
      assert cpu * Rounded6(unit) == cpu * unit + Mul(cpu, d);
    }
  }

  lemma TotalOfSplit(a: real, b: real, cpu: real, ramGB: real, price: real, n: PricedNode)
    requires a >= 0.0 && b > 0.0 && cpu >= 0.0 && ramGB >= 0.0 && price >= 0.0
    requires cpu * a + ramGB * b != 0.0
    requires HasFields(n, CustomPricing(Fin(a), Fin(b)), cpu, ramGB, price)
    ensures TotalMatches(a, b, cpu, ramGB, price, Export(CustomPricing(Fin(a), Fin(b)), n).total)
  {
    hide Rounded6, UnitPrices;
    UnitPricesOfNumbers(a, b, cpu, ramGB, price);
    BreakdownConserves(a, b, cpu, ramGB, price);
    var u := UnitPrices(CustomPricing(Fin(a), Fin(b)), Fin(cpu), Fin(ramGB), Fin(price));
    var x, y := u.cpuPrice.r, u.ramPrice.r;
    SolvedFor(a, b, cpu, ramGB, price, x, y);
    SharesAreNotNegative(a, b, cpu, ramGB, price);
    FormattingError(cpu, ramGB, x, y);
    TotalOfFields(cpu, Rounded6(ramGB), Fin(Rounded6(x)), Fin(Rounded6(y)));
  }

  lemma SharesAreNotNegative(a: real, b: real, cpu: real, ramGB: real, price: real)
    requires a >= 0.0 && b > 0.0 && cpu >= 0.0 && ramGB >= 0.0 && price >= 0.0
    requires cpu * a + ramGB * b != 0.0
    ensures RamShare(a, b, cpu, ramGB, price) >= 0.0
  {
    assert cpu * a >= 0.0 && ramGB * b >= 0.0 && price * b >= 0.0;
  }

  lemma FreeNode(a: real, b: real, cpu: real, ramGB: real, price: real, n: PricedNode)
    requires a >= 0.0 && b > 0.0 && cpu >= 0.0 && ramGB >= 0.0 && price >= 0.0
    requires cpu * a + ramGB * b == 0.0
    requires HasFields(n, CustomPricing(Fin(a), Fin(b)), cpu, ramGB, price)
    ensures TotalMatches(a, b, cpu, ramGB, price, Export(CustomPricing(Fin(a), Fin(b)), n).total)
  {
    hide UnitPrices, Rounded6;
    assert cpu * a == 0.0 && ramGB == 0.0 by {
      assert cpu * a >= 0.0 && ramGB * b >= 0.0;
    }
    Rounded6OfZero();
    UnitPricesOfNumbers(a, b, cpu, ramGB, price);
    MultipleInPrices(a, b, cpu, ramGB);
    if price == 0.0 {
      TotalOfFields(cpu, 0.0, Fin(0.0), Fin(0.0));
    } else {
      TotalOfFields(cpu, 0.0, Fin(a), Fin(b));
    }
  }

  /** The exported total of a node that the cloud prices is that price, but for what six decimals lose. A node that
      the configured prices make free, and one without cores when only CPU is charged, is exported with total 0. */
  lemma ExportedTotal(a: real, b: real, node: Node, cached: InstancePrice)
    requires a >= 0.0 && b >= 0.0 && !node.virtual
    requires Quote(cached).Some? && Quote(cached).value.Fin? && Quote(cached).value.r >= 0.0
    ensures TotalMatches(
              a, b, cached.instance.cpu.GetOr(node.cpu) as real, InGB(node.memory), Quote(cached).value.r,
              ExportOf(CustomPricing(Fin(a), Fin(b)), node, Some(cached)).total)
  {
    hide HourlyCosts, Quote, TotalMatches, BreakdownCost, Rounded6, Export;
    var cfg, price := CustomPricing(Fin(a), Fin(b)), Quote(cached).value;
    var cpu, ramGB := cached.instance.cpu.GetOr(node.cpu) as real, InGB(node.memory);
    PricedFields(cfg, node, cached);
    var n := BreakdownCost(cfg, node, Some(cached));
    if b == 0.0 {
      TotalOnCores(a, cpu, ramGB, price.r, n);
    } else if cpu * a + ramGB * b != 0.0 {
      TotalOfSplit(a, b, cpu, ramGB, price.r, n);
    } else {
      FreeNode(a, b, cpu, ramGB, price.r, n);
    }
  }

  lemma PricedFields(cfg: CustomPricing, node: Node, cached: InstancePrice)
    requires !node.virtual && Quote(cached).Some?
    ensures var n := BreakdownCost(cfg, node, Some(cached));
            var cpu, ramGB := Fin(cached.instance.cpu.GetOr(node.cpu) as real), Fin(InGB(node.memory));
            && n.cpu == Some(cpu) && n.ram == Some(ramGB.Formatted())
            && (n.cpuHourlyCost, n.ramGBHourlyCost) == HourlyCosts(cfg, cpu, ramGB, Quote(cached).value)
  {
    hide HourlyCosts, Quote, Rounded6;
    assert Fin(node.memory as real).Over(Fin(GB)) == Fin(InGB(node.memory));
  }


  /** A node without a known price is exported at exactly the configured prices, with the cost the provider states. */
  lemma DefaultTotal(a: real, b: real, node: Node, cached: Option<InstancePrice>)
    requires !node.virtual && (cached.None? || Quote(cached.value).None?)
    ensures var cfg := CustomPricing(Fin(a), Fin(b));
            var cost := Fin(a * node.cpu as real + b * InGB(node.memory));
            ExportOf(cfg, node, cached) == Gauges(Fin(a), Fin(b), cost) && BreakdownCost(cfg, node, cached).cost == Some(cost)
  {
    hide Float.Times, Float.Plus, Float.Over, Quote, Gigabytes;
    assert !Billable(cached) by {
      UnquotedIsUnbilled(cached);
    }
    GaugesShowBill(a, b, node, cached);
    BreakdownShows(a, b, node, cached);
    GigabytesAreGB(node);
  }

  lemma UnquotedIsUnbilled(cached: Option<InstancePrice>)
    requires cached.None? || Quote(cached.value).None?
    ensures !Billable(cached)
  {
    if cached.Some? {
      QuoteIsTheBill(cached.value);
      assert cached == Some(cached.value);
    }
  }
}
