/** Pricing a node and breaking the price down into one for CPU and one for RAM
    (pkg/cloudproviders/qcloud/qcloud.go). */
module NodeCost {
  import opened Wrappers
  import opened ExtReal
  import opened ProviderID

  datatype CustomPricing = CustomPricing(cpuHourlyPrice: Float, ramGBHourlyPrice: Float)

  /** A Kubernetes node: capacity in cores and bytes, type and region from its labels. */
  datatype Node = Node(name: string, virtual: bool, cpu: nat, memory: nat, instanceType: string, region: string, providerID: string)

  /** An instance as the cloud describes it, memory in GB; the fields are pointers in the source. */
  datatype Instance = Instance(
    id: Option<string>, zone: Option<string>, instanceType: Option<string>, chargeType: Option<string>,
    cpu: Option<nat>, memory: Option<nat>)

  /** Monthly price of prepaid instances, hourly price of the others. */
  datatype ItemPrice = ItemPrice(originalPrice: Float, unitPrice: Float)

  datatype InstancePrice = InstancePrice(instance: Instance, price: ItemPrice)

  /** The priced node. A field with text holds the number that the text parses to; None is the empty text. */
  datatype PricedNode = PricedNode(
    cost: Option<Float>, cpu: Option<Float>, cpuHourlyCost: Option<Float>,
    ram: Option<Float>, ramBytes: Option<Float>, ramGBHourlyCost: Option<Float>,
    usageType: string, usesDefaultPrice: bool, instanceType: string, region: string, providerID: string)

  const GB: real := 1073741824.0

  const PREPAID := "PREPAID"
  const POSTPAID_BY_HOUR := "POSTPAID_BY_HOUR"
  const SPOTPAID := "SPOTPAID"

  function InGB(bytes: nat): real {
    bytes as real / GB
  }

  function DefaultNodePrice(cfg: CustomPricing, node: Node): PricedNode {
    var cpu, mem := Fin(node.cpu as real), Fin(node.memory as real);
    PricedNode(
      Some(cfg.cpuHourlyPrice.Times(cpu).Plus(cfg.ramGBHourlyPrice.Times(mem).Over(Fin(GB)))),
      Some(cpu), Some(cfg.cpuHourlyPrice), Some(mem.Over(Fin(GB))), Some(mem), Some(cfg.ramGBHourlyPrice),
      "Default", true, node.instanceType, node.region, node.providerID)
  }

  /** The hourly quote of an instance, if its charge type is a known one. */
  function Quote(p: InstancePrice): Option<Float> {
    var usage := p.instance.chargeType.GetOr("Default");
    if usage == PREPAID then Some(p.price.originalPrice.Over(Fin(720.0)))
    else if usage == POSTPAID_BY_HOUR || usage == SPOTPAID then Some(p.price.unitPrice)
    else None
  }

  function CloudInstancePrice(cfg: CustomPricing, node: Node, cached: Option<InstancePrice>): PricedNode {
    if cached.None? || Quote(cached.value).None? then DefaultNodePrice(cfg, node)
    else
      var instance := cached.value.instance;
      var mem := Fin(if instance.memory.Some? then instance.memory.value as real * GB else node.memory as real);
      PricedNode(
        Quote(cached.value), Some(Fin(instance.cpu.GetOr(node.cpu) as real)), None,
        Some(mem.Over(Fin(GB))), Some(mem), None,
        instance.chargeType.GetOr("Default"), false,
        instance.instanceType.GetOr(node.instanceType), node.region, node.providerID)
  }

  // ---- The breakdown ----

  datatype Unit = Unit(cpuPrice: Float, ramPrice: Float)

  /** Prices of one core and one GB, in the proportion of the configured prices. */
  function UnitPrices(cfg: CustomPricing, cpu: Float, ramGB: Float, price: Float): Unit {
    var cpuToRAMRatio := cfg.cpuHourlyPrice.OrZero().Over(cfg.ramGBHourlyPrice.OrZero()).OrZero();
    var ramMultiple := cpu.Times(cpuToRAMRatio).Plus(ramGB).OrZero();
    var ramPrice := price.OrZero().Over(ramMultiple).OrZero();
    Unit(ramPrice.Times(cpuToRAMRatio), ramPrice)
  }

  /** The hourly costs that are printed: without a default RAM price, everything is charged to the CPU. */
  function HourlyCosts(cfg: CustomPricing, cpu: Float, ramGB: Float, price: Float): (Option<Float>, Option<Float>) {
    if !cfg.ramGBHourlyPrice.OrZero().IsZero() then
      var u := UnitPrices(cfg, cpu, ramGB, price);
      (Some(u.cpuPrice.Formatted()), Some(u.ramPrice.Formatted()))
    else
      var p := price.OrZero();
      (Some((if cpu.IsZero() then p else p.Over(cpu)).Formatted()), None)
  }

  /** The breakdown takes the instance's cores but the node's own memory. */
  function BreakdownCost(cfg: CustomPricing, node: Node, cached: Option<InstancePrice>): PricedNode {
    var ram := Fin(node.memory as real);
    var ramGB := ram.Over(Fin(GB));
    if node.virtual then
      PricedNode(
        Some(Fin(0.0)), Some(Fin(node.cpu as real)), Some(Fin(0.0)), Some(ramGB.Formatted()), Some(ram), Some(Fin(0.0)),
        "", false, node.instanceType, node.region, node.providerID)
    else
      var base := CloudInstancePrice(cfg, node, cached);
      var named := if base.instanceType == "" then base.(instanceType := node.instanceType) else base;
      if named.usesDefaultPrice then named.(ramBytes := Some(ram))
      else
        var (cpuHourly, ramHourly) := HourlyCosts(cfg, named.cpu.GetOr(Fin(0.0)), ramGB, named.cost.GetOr(Fin(0.0)));
        named.(ramBytes := Some(ram), ram := Some(ramGB.Formatted()), cpuHourlyCost := cpuHourly, ramGBHourlyCost := ramHourly)
  }

  // ---- What a priced node has to show, in numbers ----

  ghost predicate Near(field: Option<Float>, y: real) {
    field.Some? && IsNear(field.value, y)
  }

  /** The printed costs of a core and of a GB, at a and b by default. The price is split in that proportion; when RAM has
      no default price it is charged to the cores; and where the default prices make the node free there is no split. */
  ghost predicate SplitsPrice(a: real, b: real, cpu: real, ramGB: real, price: real,
                              cpuHourly: Option<Float>, ramHourly: Option<Float>) {
    if b == 0.0 then
      ramHourly == None && Near(cpuHourly, if cpu == 0.0 then price else price / cpu)
    else if cpu * a + ramGB * b != 0.0 then
      && Near(cpuHourly, price * a / (cpu * a + ramGB * b))
      && Near(ramHourly, price * b / (cpu * a + ramGB * b))
    else if price == 0.0 then
      cpuHourly == Some(Fin(0.0)) && ramHourly == Some(Fin(0.0))
    else
      && ramHourly == Some(if price < 0.0 then NegInf else PosInf)
      && cpuHourly.Some? && !cpuHourly.value.Fin?
  }

  /** The instance has a price and a charge type that the provider knows. */
  ghost predicate Billable(cached: Option<InstancePrice>) {
    && cached.Some?
    && var charge := cached.value.instance.chargeType;
       charge == Some("PREPAID") || charge == Some("POSTPAID_BY_HOUR") || charge == Some("SPOTPAID")
  }

  /** The instance costs that much an hour: prepaid ones are priced for a month of 30 days. */
  ghost predicate BillsAt(p: InstancePrice, price: real) {
    if p.instance.chargeType == Some("PREPAID") then p.price.originalPrice == Fin(price * 24.0 * 30.0)
    else p.price.unitPrice == Fin(price)
  }

  ghost function Gigabytes(node: Node): real {
    node.memory as real / (1024.0 * 1024.0 * 1024.0)
  }

  /** The type of the node: that of its instance, if it is billed by it and the cloud knows the type. */
  ghost function TypeOf(node: Node, cached: Option<InstancePrice>): string {
    if !node.virtual && Billable(cached) && cached.value.instance.instanceType.GetOr("") != ""
    then cached.value.instance.instanceType.value
    else node.instanceType
  }

  ghost function CoresOf(node: Node, cached: Option<InstancePrice>): real {
    if Billable(cached) && cached.value.instance.cpu.Some? then cached.value.instance.cpu.value as real else node.cpu as real
  }

  ghost function AtDefaultPrices(a: real, b: real, cpu: real, ramGB: real): real {
    a * cpu + b * ramGB
  }

  /** The priced node names the node, its type and its region, and has its memory. */
  ghost predicate NamesNode(node: Node, cached: Option<InstancePrice>, r: PricedNode) {
    && r.providerID == node.providerID && r.region == node.region && r.instanceType == TypeOf(node, cached)
    && r.ramBytes == Some(Fin(node.memory as real))
  }

  /** With numbers a and b as the configured prices: a virtual node costs nothing, a node without a bill costs the
      configured prices, and any other what its instance is billed at, split. */
  ghost predicate ShowsPrice(a: real, b: real, node: Node, cached: Option<InstancePrice>, r: PricedNode) {
    if node.virtual then
      && r.cost == r.cpuHourlyCost == r.ramGBHourlyCost == Some(Fin(0.0))
      && r.cpu == Some(Fin(node.cpu as real)) && Near(r.ram, Gigabytes(node))
    else if !Billable(cached) then
      && r.usesDefaultPrice && r.cpuHourlyCost == Some(Fin(a)) && r.ramGBHourlyCost == Some(Fin(b))
      && r.cpu == Some(Fin(node.cpu as real)) && r.ram == Some(Fin(Gigabytes(node)))
      && r.cost == Some(Fin(AtDefaultPrices(a, b, node.cpu as real, Gigabytes(node))))
    else
      && !r.usesDefaultPrice && Some(r.usageType) == cached.value.instance.chargeType
      && r.cpu == Some(Fin(CoresOf(node, cached))) && Near(r.ram, Gigabytes(node))
      && forall price :: BillsAt(cached.value, price) ==>
           && r.cost == Some(Fin(price))
           && SplitsPrice(a, b, CoresOf(node, cached), Gigabytes(node), price, r.cpuHourlyCost, r.ramGBHourlyCost)
  }

  lemma HourlyCostsSplit(a: real, b: real, cpu: real, ramGB: real, price: real)
    ensures var (cpuHourly, ramHourly) := HourlyCosts(CustomPricing(Fin(a), Fin(b)), Fin(cpu), Fin(ramGB), Fin(price));
            SplitsPrice(a, b, cpu, ramGB, price, cpuHourly, ramHourly)
  {
    hide UnitPrices, Float.Formatted, Rounded6, IsNear;
    if b == 0.0 {
      assert cpu != 0.0 ==> Fin(price).Over(Fin(cpu)) == Fin(price / cpu);
      FormattedIsNear(if cpu == 0.0 then price else price / cpu);
    } else {
      UnitPricesOfNumbers(a, b, cpu, ramGB, price);
      MultipleInPrices(a, b, cpu, ramGB);
      if cpu * a + ramGB * b != 0.0 {
        SplitInProportion(a, b, cpu, ramGB, price);
      } else {
        NothingToSplit();
      }
    }
  }

  lemma NothingToSplit()
    ensures Fin(0.0).Formatted() == Fin(0.0) && forall x: Float :: !x.Fin? ==> x.Formatted() == x
  {
    Rounded6OfZero();
  }

  lemma SplitInProportion(a: real, b: real, cpu: real, ramGB: real, price: real)
    requires b != 0.0 && cpu * a + ramGB * b != 0.0
    ensures var u := UnitPrices(CustomPricing(Fin(a), Fin(b)), Fin(cpu), Fin(ramGB), Fin(price));
            && IsNear(u.cpuPrice.Formatted(), price * a / (cpu * a + ramGB * b))
            && IsNear(u.ramPrice.Formatted(), price * b / (cpu * a + ramGB * b))
  {
    hide UnitPrices, Float.Formatted, IsNear;
    BreakdownConserves(a, b, cpu, ramGB, price);
    var u := UnitPrices(CustomPricing(Fin(a), Fin(b)), Fin(cpu), Fin(ramGB), Fin(price));
    SolvedFor(a, b, cpu, ramGB, price, u.cpuPrice.r, u.ramPrice.r);
    FormattedIsNear(u.cpuPrice.r);
    FormattedIsNear(u.ramPrice.r);
  }

  lemma QuoteIsTheBill(p: InstancePrice)
    ensures Quote(p).Some? <==> Billable(Some(p))
    ensures Billable(Some(p)) ==> forall price: real :: BillsAt(p, price) ==> Quote(p) == Some(Fin(price))
  {
    assert "PREPAID"[1] == 'R' && "POSTPAID_BY_HOUR"[1] == 'O' && "SPOTPAID"[1] == 'P' && "Default"[1] == 'e';
    forall price: real | Billable(Some(p)) && BillsAt(p, price)
      ensures Quote(p) == Some(Fin(price))
    {
      assert price * 24.0 * 30.0 / 720.0 == price;
    }
  }

  lemma GigabytesAreGB(node: Node)
    ensures Fin(node.memory as real).Over(Fin(GB)) == Fin(Gigabytes(node)) && InGB(node.memory) == Gigabytes(node)
  {
  }

  lemma BreakdownNames(cfg: CustomPricing, node: Node, cached: Option<InstancePrice>)
    ensures NamesNode(node, cached, BreakdownCost(cfg, node, cached))
  {
    hide HourlyCosts, Quote, Float.Times, Float.Over, Float.Plus, Float.Formatted, Billable;
    if cached.Some? {
      QuoteIsTheBill(cached.value);
    }
    assert cached.None? ==> !Billable(cached) by {
      NoBill(cached);
    }
  }

  lemma NoBill(cached: Option<InstancePrice>)
    ensures cached.None? ==> !Billable(cached)
  {
  }

  lemma BreakdownShows(a: real, b: real, node: Node, cached: Option<InstancePrice>)
    ensures ShowsPrice(a, b, node, cached, BreakdownCost(CustomPricing(Fin(a), Fin(b)), node, cached))
  {
    if node.virtual {
      VirtualShows(a, b, node, cached);
    } else if !Billable(cached) {
      UnbilledShows(a, b, node, cached);
    } else {
      BilledShows(a, b, node, cached);
    }
  }

  lemma VirtualShows(a: real, b: real, node: Node, cached: Option<InstancePrice>)
    requires node.virtual
    ensures ShowsPrice(a, b, node, cached, BreakdownCost(CustomPricing(Fin(a), Fin(b)), node, cached))
  {
    hide IsNear, Float.Formatted, Float.Over;
    GigabytesAreGB(node);
    FormattedIsNear(Gigabytes(node));
  }

  lemma UnbilledShows(a: real, b: real, node: Node, cached: Option<InstancePrice>)
    requires !node.virtual && !Billable(cached)
    ensures ShowsPrice(a, b, node, cached, BreakdownCost(CustomPricing(Fin(a), Fin(b)), node, cached))
  {
    hide IsNear, Float.Formatted, Float.Over, Float.Times, Float.Plus, Quote, Billable, Gigabytes, AtDefaultPrices;
    if cached.Some? {
      QuoteIsTheBill(cached.value);
      assert cached == Some(cached.value);
    }
    GigabytesAreGB(node);
    DefaultCost(a, b, node.cpu as real, node);
  }

  lemma DefaultCost(a: real, b: real, cpu: real, node: Node)
    ensures Fin(a).Times(Fin(cpu)).Plus(Fin(b).Times(Fin(node.memory as real)).Over(Fin(GB))) ==
            Fin(AtDefaultPrices(a, b, cpu, Gigabytes(node)))
  {
    var mem := node.memory as real;
    assert b * mem / GB == b * Gigabytes(node);
    assert Fin(b).Times(Fin(mem)) == Fin(b * mem);
    assert Fin(b * mem).Over(Fin(GB)) == Fin(b * mem / GB);
  }

  lemma BilledShows(a: real, b: real, node: Node, cached: Option<InstancePrice>)
    requires !node.virtual && Billable(cached)
    ensures ShowsPrice(a, b, node, cached, BreakdownCost(CustomPricing(Fin(a), Fin(b)), node, cached))
  {
    hide IsNear, Float.Formatted, Float.Over, Float.Times, Float.Plus, Quote, HourlyCosts, BillsAt, SplitsPrice, Gigabytes;
    QuoteIsTheBill(cached.value);
    GigabytesAreGB(node);
    FormattedIsNear(Gigabytes(node));
    var cfg := CustomPricing(Fin(a), Fin(b));
    var r := BreakdownCost(cfg, node, cached);
    assert r.cpu == Some(Fin(CoresOf(node, cached))) && r.ram == Some(Fin(Gigabytes(node)).Formatted());
    forall price: real | BillsAt(cached.value, price)
      ensures r.cost == Some(Fin(price))
      ensures SplitsPrice(a, b, CoresOf(node, cached), Gigabytes(node), price, r.cpuHourlyCost, r.ramGBHourlyCost)
    {
      HourlyCostsSplit(a, b, CoresOf(node, cached), Gigabytes(node), price);
      assert (r.cpuHourlyCost, r.ramGBHourlyCost) ==
             HourlyCosts(cfg, Fin(CoresOf(node, cached)), Fin(Gigabytes(node)), Fin(price));
    }
  }

  /** A priced node as it has to be, for the configuration that was read. */
  ghost predicate Prices(cfg: CustomPricing, node: Node, cached: Option<InstancePrice>, r: PricedNode) {
    && NamesNode(node, cached, r)
    && (cfg.cpuHourlyPrice.Fin? && cfg.ramGBHourlyPrice.Fin? ==>
          ShowsPrice(cfg.cpuHourlyPrice.r, cfg.ramGBHourlyPrice.r, node, cached, r))
  }

  lemma BreakdownPrices(cfg: CustomPricing, node: Node, cached: Option<InstancePrice>)
    ensures Prices(cfg, node, cached, BreakdownCost(cfg, node, cached))
  {
    hide BreakdownCost, NamesNode, ShowsPrice;
    BreakdownNames(cfg, node, cached);
    if cfg.cpuHourlyPrice.Fin? && cfg.ramGBHourlyPrice.Fin? {
      BreakdownShows(cfg.cpuHourlyPrice.r, cfg.ramGBHourlyPrice.r, node, cached);
    }
  }

  // ---- The method ----

  lemma IntegersPrintExactly(n: nat)
    ensures Fin(n as real).Formatted() == Fin(n as real)
  {
    assert (n as real * 1000000.0) == (n * 1000000) as real;
  }

  method ComputeNodeBreakdownCost(cfg: CustomPricing, node: Node,
                                  cached: Option<InstancePrice>) returns (r: Result<PricedNode>)
    ensures r == Ok(BreakdownCost(cfg, node, cached))
    ensures Prices(cfg, node, cached, r.value)
  {
    BreakdownPrices(cfg, node, cached);
    hide Prices;
    hide HourlyCosts, Quote, Float.Times, Float.Over, Float.Formatted, Rounded6;
    IntegersPrintExactly(node.cpu);
    IntegersPrintExactly(node.memory);
    var cpu, ram := Fin(node.cpu as real), Fin(node.memory as real);
    if node.virtual {
      return Ok(PricedNode(
                  Some(Fin(0.0)), Some(cpu.Formatted()), Some(Fin(0.0)), Some(ram.Over(Fin(GB)).Formatted()),
                  Some(ram.Formatted()), Some(Fin(0.0)), "", false, node.instanceType, node.region, node.providerID));
    }
    var newNode := CloudInstancePrice(cfg, node, cached);
    if newNode.instanceType == "" {
      newNode := newNode.(instanceType := node.instanceType);
    }
    if newNode.region == "" {
      newNode := newNode.(region := node.region);
    }
    if newNode.providerID == "" {
      newNode := newNode.(providerID := node.providerID);
    }
    if newNode.cpu.None? {
      newNode := newNode.(cpu := Some(cpu));
    } else {
      cpu := newNode.cpu.value;
    }
    cpu := cpu.OrZero();
    if newNode.ram.None? {
      newNode := newNode.(ram := Some(ram));
    }
    newNode := newNode.(ramBytes := Some(ram.Formatted()));
    if !newNode.usesDefaultPrice {
      var ramGB := ram.Over(Fin(GB));
      newNode := newNode.(ram := Some(ramGB.Formatted()));
      var nodePrice := if newNode.cost.Some? then newNode.cost else newNode.cpuHourlyCost;
      if nodePrice.None? {
        return Err("could not parse total node cpu price");
      }
      var (cpuHourly, ramHourly) := HourlyCosts(cfg, cpu, ramGB, nodePrice.value);
      newNode := newNode.(cpuHourlyCost := cpuHourly);
      if ramHourly.Some? {
        newNode := newNode.(ramGBHourlyCost := ramHourly);
      }
    }
    return Ok(newNode);
  }

  // ---- All nodes ----

  function Cached(instances: map<string, InstancePrice>, node: Node): Option<InstancePrice> {
    Get(instances, ParseID(node.providerID))
  }

  /** The last node of that name that is not virtual. */
  function NodeNamed(nodes: seq<Node>, name: string): Option<Node> {
    if nodes == [] then None
    else
      var last := nodes[|nodes| - 1];
      if last.name == name && !last.virtual then Some(last) else NodeNamed(nodes[..|nodes| - 1], name)
  }

  /** The result holds every real node under its name, priced on its own; virtual nodes are ignored. */
  ghost predicate PricesNodes(cfg: CustomPricing, nodes: seq<Node>, instances: map<string, InstancePrice>,
                              prices: map<string, PricedNode>) {
    forall name: string ::
      && (name in prices <==> NodeNamed(nodes, name).Some?)
      && (name in prices ==>
            var node := NodeNamed(nodes, name).value;
            prices[name] == BreakdownCost(cfg, node, Cached(instances, node)))
  }

  /** The i-th node is the last one of that name that is not virtual. */
  ghost predicate IsLastNamed(nodes: seq<Node>, i: nat, name: string) {
    && i < |nodes| && nodes[i].name == name && !nodes[i].virtual
    && forall j :: i < j < |nodes| ==> nodes[j].name != name || nodes[j].virtual
  }

  lemma {:induction false} NodeNamedIsLast(nodes: seq<Node>, name: string)
    ensures NodeNamed(nodes, name).Some? <==> exists i: nat :: IsLastNamed(nodes, i, name)
    ensures forall i: nat :: IsLastNamed(nodes, i, name) ==> NodeNamed(nodes, name) == Some(nodes[i])
  {
    if nodes != [] {
      var n := |nodes| - 1;
      var front := nodes[..n];
      NodeNamedIsLast(front, name);
      assert forall i :: 0 <= i < n ==> front[i] == nodes[i];
      if nodes[n].name == name && !nodes[n].virtual {
        assert IsLastNamed(nodes, n, name);
      } else {
        assert forall i: nat :: IsLastNamed(nodes, i, name) <==> IsLastNamed(front, i, name);
      }
    }
  }

  /** Every real node is priced under its name, from what is cached for the instance its provider id names. */
  ghost predicate PricesAll(cfg: CustomPricing, nodes: seq<Node>, instances: map<string, InstancePrice>,
                            prices: map<string, PricedNode>) {
    && (forall name: string :: name in prices <==> exists i: nat :: IsLastNamed(nodes, i, name))
    && forall i: nat, name: string :: IsLastNamed(nodes, i, name) ==>
         i < |nodes| && name in prices && Prices(cfg, nodes[i], Get(instances, ParseID(nodes[i].providerID)), prices[name])
  }

  lemma PricesNodesPricesAll(cfg: CustomPricing, nodes: seq<Node>, instances: map<string, InstancePrice>,
                             prices: map<string, PricedNode>)
    requires PricesNodes(cfg, nodes, instances, prices)
    ensures PricesAll(cfg, nodes, instances, prices)
  {
    hide BreakdownCost, Prices, NodeNamed;
    forall name: string
      ensures name in prices <==> exists i: nat :: IsLastNamed(nodes, i, name)
    {
      NodeNamedIsLast(nodes, name);
    }
    forall i: nat, name: string | IsLastNamed(nodes, i, name)
      ensures i < |nodes| && name in prices && Prices(cfg, nodes[i], Get(instances, ParseID(nodes[i].providerID)), prices[name])
    {
      NodeNamedIsLast(nodes, name);
      BreakdownPrices(cfg, nodes[i], Cached(instances, nodes[i]));
    }
  }

  method GetNodesCost(cfg: Option<CustomPricing>, nodeList: seq<Node>, instances: map<string, InstancePrice>)
      returns (r: Result<map<string, PricedNode>>)
    ensures r.Err? <==> cfg.None?
    ensures r.Ok? ==> PricesNodes(cfg.value, nodeList, instances, r.value)
    ensures r.Ok? ==> PricesAll(cfg.value, nodeList, instances, r.value)
  {
    hide BreakdownCost, PricesNodes, Cached, PricesAll, Prices;
    if cfg.None? {
      return Err("provider config is null");
    }
    var nodes := map[];
    var i := 0;
    assert PricesNodes(cfg.value, [], instances, nodes) by {
      NothingToPrice(cfg.value, instances);
    }
    while i < |nodeList|
      invariant 0 <= i <= |nodeList|
      invariant PricesNodes(cfg.value, nodeList[..i], instances, nodes)
    {
      assert nodeList[..i + 1] == nodeList[..i] + [nodeList[i]];
      PricesNodesNext(cfg.value, nodeList[..i], nodeList[i], instances, nodes);
      if !nodeList[i].virtual {
        var priced := ComputeNodeBreakdownCost(cfg.value, nodeList[i], Cached(instances, nodeList[i]));
        if priced.Ok? {
          nodes := nodes[nodeList[i].name := priced.value];
        }
      }
      i := i + 1;
    }
    assert nodeList[..i] == nodeList;
    PricesNodesPricesAll(cfg.value, nodeList, instances, nodes);
    return Ok(nodes);
  }

  lemma NothingToPrice(cfg: CustomPricing, instances: map<string, InstancePrice>)
    ensures PricesNodes(cfg, [], instances, map[])
  {
  }

  lemma PricesNodesNext(cfg: CustomPricing, nodes: seq<Node>, node: Node, instances: map<string, InstancePrice>,
                        prices: map<string, PricedNode>)
    requires PricesNodes(cfg, nodes, instances, prices)
    ensures PricesNodes(cfg, nodes + [node], instances,
                        if node.virtual then prices
                        else prices[node.name := BreakdownCost(cfg, node, Cached(instances, node))])
  {
    hide BreakdownCost, Cached;
    assert (nodes + [node])[..|nodes|] == nodes;
  }

  // ---- Conservation ----

  lemma UnitPricesOfNumbers(a: real, b: real, cpu: real, ramGB: real, price: real)
    requires b != 0.0
    ensures var u := UnitPrices(CustomPricing(Fin(a), Fin(b)), Fin(cpu), Fin(ramGB), Fin(price));
            var multiple := cpu * (a / b) + ramGB;
            if multiple != 0.0 then u == Unit(Fin(price / multiple * (a / b)), Fin(price / multiple))
            else if price == 0.0 then u == Unit(Fin(0.0), Fin(0.0))
            else u == Unit(Infinity(price < 0.0).Times(Fin(a / b)), Infinity(price < 0.0)) && !u.cpuPrice.Fin?
  {
    var ratio := a / b;
    var multiple := cpu * ratio + ramGB;
    assert Fin(a).Over(Fin(b)) == Fin(ratio);
    assert Fin(cpu).Times(Fin(ratio)).Plus(Fin(ramGB)) == Fin(multiple);
    if multiple != 0.0 {
      var ramPrice := price / multiple;
      assert Fin(price).Over(Fin(multiple)) == Fin(ramPrice);
      assert Fin(ramPrice).Times(Fin(ratio)) == Fin(ramPrice * ratio);
    } else {
      assert Fin(price).Over(Fin(multiple)).OrZero() == if price == 0.0 then Fin(0.0) else Infinity(price < 0.0);
      assert Fin(0.0).Times(Fin(ratio)) == Fin(0.0);
    }
  }

  /** The unit prices are numbers that add up to the price and keep the configured proportion just when the node costs
      something at the configured prices, or nothing at all. */
  lemma BreakdownConserves(a: real, b: real, cpu: real, ramGB: real, price: real)
    requires b != 0.0
    ensures var u := UnitPrices(CustomPricing(Fin(a), Fin(b)), Fin(cpu), Fin(ramGB), Fin(price));
            (&& u.cpuPrice.Fin? && u.ramPrice.Fin?
             && cpu * u.cpuPrice.r + ramGB * u.ramPrice.r == price
             && u.cpuPrice.r * b == u.ramPrice.r * a) <==> cpu * a + ramGB * b != 0.0 || price == 0.0
  {
    hide UnitPrices;
    UnitPricesOfNumbers(a, b, cpu, ramGB, price);
    MultipleInPrices(a, b, cpu, ramGB);
    var ratio := a / b;
    var multiple := cpu * ratio + ramGB;
    if multiple != 0.0 {
      SharesOfThePrice(ratio, cpu, ramGB, price);
      assert price / multiple * ratio * b == price / multiple * (ratio * b);
    }
  }

  lemma MultipleInPrices(a: real, b: real, cpu: real, ramGB: real)
    requires b != 0.0
    ensures a / b * b == a
    ensures (cpu * (a / b) + ramGB) * b == cpu * a + ramGB * b
    ensures cpu * (a / b) + ramGB == 0.0 <==> cpu * a + ramGB * b == 0.0
  {
    var ratio := a / b;
    assert ratio * b == a;
    assert (cpu * ratio + ramGB) * b == cpu * (ratio * b) + ramGB * b;
  }

  lemma SharesOfThePrice(ratio: real, cpu: real, ramGB: real, price: real)
    requires cpu * ratio + ramGB != 0.0
    ensures var ramPrice := price / (cpu * ratio + ramGB);
            cpu * (ramPrice * ratio) + ramGB * ramPrice == price
  {
    var ramPrice := price / (cpu * ratio + ramGB);
    assert ramPrice * (cpu * ratio + ramGB) == price;
    assert cpu * (ramPrice * ratio) == ramPrice * (cpu * ratio);
  }

  /** No other prices do both. */
  lemma BreakdownIsTheOnlyOne(a: real, b: real, cpu: real, ramGB: real, price: real, x: real, y: real)
    requires b != 0.0 && cpu * a + ramGB * b != 0.0
    requires cpu * x + ramGB * y == price && x * b == y * a
    ensures UnitPrices(CustomPricing(Fin(a), Fin(b)), Fin(cpu), Fin(ramGB), Fin(price)) == Unit(Fin(x), Fin(y))
  {
    var u := UnitPrices(CustomPricing(Fin(a), Fin(b)), Fin(cpu), Fin(ramGB), Fin(price));
    BreakdownConserves(a, b, cpu, ramGB, price);
    var m := cpu * a + ramGB * b;
    SolvedFor(a, b, cpu, ramGB, price, x, y);
    SolvedFor(a, b, cpu, ramGB, price, u.cpuPrice.r, u.ramPrice.r);
  }

  lemma SolvedFor(a: real, b: real, cpu: real, ramGB: real, price: real, x: real, y: real)
    requires b != 0.0 && cpu * a + ramGB * b != 0.0
    requires cpu * x + ramGB * y == price && x * b == y * a
    ensures y == price * b / (cpu * a + ramGB * b)
    ensures x == price * a / (cpu * a + ramGB * b)
  {
    var m := cpu * a + ramGB * b;
    assert y * m == price * b by {
      assert price * b == cpu * (x * b) + ramGB * (y * b);
      assert y * m == cpu * (y * a) + ramGB * (y * b);
    }
    assert y == price * b / m;
    assert x * m == price * a by {
      assert price * a == cpu * (x * a) + ramGB * (y * a);
      assert x * m == cpu * (x * a) + ramGB * (x * b);
    }
  }
}
