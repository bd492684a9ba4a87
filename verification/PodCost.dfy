/** Pricing a serverless pod from the cloud's quote (ServerlessPodPrice, pkg/cloudproviders/qcloud/qcloud.go). */
module PodCost {
  import opened Wrappers
  import opened ExtReal
  import opened NodeCost

  /** What the cloud charges, in cents. */
  datatype PodQuote = PodQuote(cost: int, totalCost: int)

  datatype PricedPod = PricedPod(
    discountedCost: Float, cost: Float, cpu: Float, ram: Float, ramBytes: Float,
    cpuHourlyCost: Option<Float>, ramGBHourlyCost: Option<Float>)

  lemma WholeMillionths(units: int)
    ensures Fin(units as real / 1000000.0).Formatted() == Fin(units as real / 1000000.0)
  {
    assert units as real / 1000000.0 * 1000000.0 == units as real;
  }

  lemma CentsPrintExactly(cents: int)
    ensures Fin(cents as real / 100.0).Formatted() == Fin(cents as real / 100.0)
  {
    assert cents as real / 100.0 == (cents * 10000) as real / 1000000.0;
    WholeMillionths(cents * 10000);
  }

  lemma MilliCoresPrintExactly(milli: nat)
    ensures Fin(milli as real / 1000.0).Formatted() == Fin(milli as real / 1000.0)
  {
    assert milli as real / 1000.0 == (milli * 1000) as real / 1000000.0;
    WholeMillionths(milli * 1000);
  }

  /** Costs and cores are printed without loss, and the hourly costs that are printed split the quoted total. */
  method ServerlessPodPrice(config: Result<CustomPricing>, milliCPU: nat, memory: nat, quote: Result<Option<PodQuote>>)
      returns (r: Result<PricedPod>)
    ensures r.Err? <==> quote.Err? || config.Err?
    ensures r.Ok? ==>
              var q := quote.value.GetOr(PodQuote(0, 0));
              && r.value.cost == Fin(q.totalCost as real / 100.0)
              && r.value.discountedCost == Fin(q.cost as real / 100.0)
              && r.value.cpu == Fin(milliCPU as real / 1000.0)
              && r.value.ramBytes == Fin(memory as real)
              && r.value.ram == Fin(Rounded6(InGB(memory)))
              && (r.value.cpuHourlyCost, r.value.ramGBHourlyCost) ==
                 HourlyCosts(config.value, r.value.cpu, Fin(InGB(memory)), r.value.cost)
    ensures r.Ok? ==> IsNear(r.value.ram, memory as real / (1024.0 * 1024.0 * 1024.0))
    ensures r.Ok? ==> config.value.cpuHourlyPrice.Fin? && config.value.ramGBHourlyPrice.Fin? ==>
              SplitsPrice(
                config.value.cpuHourlyPrice.r, config.value.ramGBHourlyPrice.r, milliCPU as real / 1000.0,
                memory as real / (1024.0 * 1024.0 * 1024.0), quote.value.GetOr(PodQuote(0, 0)).totalCost as real / 100.0,
                r.value.cpuHourlyCost, r.value.ramGBHourlyCost)
  {
    hide HourlyCosts, Rounded6, SplitsPrice, IsNear;
    if quote.Err? {
      return Err(quote.error);
    }
    if config.Err? {
      return Err(config.error);
    }
    var cfg := config.value;
    var cpu, ram := Fin(milliCPU as real / 1000.0), Fin(memory as real);
    var ramGB := ram.Over(Fin(GB));
    var cost, discountCost := Fin(0.0), Fin(0.0);
    CentsPrintExactly(0);
    if quote.value.Some? {
      discountCost := Fin(quote.value.value.cost as real / 100.0);
      cost := Fin(quote.value.value.totalCost as real / 100.0);
      CentsPrintExactly(quote.value.value.cost);
      CentsPrintExactly(quote.value.value.totalCost);
    }
    MilliCoresPrintExactly(milliCPU);
    IntegersPrintExactly(memory);
    var pod := PricedPod(
      discountCost.Formatted(), cost.Formatted(), cpu.Formatted(), ramGB.Formatted(), ram.Formatted(), None, None);
    var (cpuHourly, ramHourly) := HourlyCosts(cfg, cpu, ramGB, pod.cost);
    FormattedIsNear(ramGB.r);
    if cfg.cpuHourlyPrice.Fin? && cfg.ramGBHourlyPrice.Fin? {
      HourlyCostsSplit(cfg.cpuHourlyPrice.r, cfg.ramGBHourlyPrice.r, cpu.r, ramGB.r, cost.r);
    }
    pod := pod.(cpuHourlyCost := cpuHourly, ramGBHourlyCost := ramHourly);
    return Ok(pod);
  }

  /** The hourly costs printed for a pod or a node add up to its price, but for what six decimals lose: over cores and
      memory, or over cores alone when RAM has no default price. Nothing can be split where the default prices make the
      pod free: a price of zero is printed as such, and any other as infinite. */
  lemma HourlyCostsAddUp(a: real, b: real, cpu: real, ramGB: real, price: real)
    requires cpu >= 0.0 && ramGB >= 0.0
    ensures var (cpuHourly, ramHourly) := HourlyCosts(CustomPricing(Fin(a), Fin(b)), Fin(cpu), Fin(ramGB), Fin(price));
            if b == 0.0 && cpu == 0.0 then
              cpuHourly == Some(Fin(Rounded6(price))) && ramHourly == None
            else if b == 0.0 then
              && cpuHourly.Some? && cpuHourly.value.Fin? && ramHourly == None
              && Abs(cpu * cpuHourly.value.r - price) <= E6 * cpu
            else if cpu * a + ramGB * b != 0.0 then
              && cpuHourly.Some? && cpuHourly.value.Fin? && ramHourly.Some? && ramHourly.value.Fin?
              && Abs(cpu * cpuHourly.value.r + ramGB * ramHourly.value.r - price) <= E6 * (cpu + ramGB)
            else if price == 0.0 then
              cpuHourly == Some(Fin(0.0)) && ramHourly == Some(Fin(0.0))
            else
              && ramHourly == Some(Infinity(price < 0.0))
              && cpuHourly == Some(if a == 0.0 then NaN else Infinity((price < 0.0) != (a / b < 0.0)))
  {
    if b == 0.0 {
      AllOnCores(a, cpu, ramGB, price);
    } else if cpu * a + ramGB * b != 0.0 {
      OverCoresAndMemory(a, b, cpu, ramGB, price);
    } else {
      FreePod(a, b, cpu, ramGB, price);
    }
  }

  lemma AllOnCores(a: real, cpu: real, ramGB: real, price: real)
    requires cpu >= 0.0
    ensures var (cpuHourly, ramHourly) := HourlyCosts(CustomPricing(Fin(a), Fin(0.0)), Fin(cpu), Fin(ramGB), Fin(price));
            && ramHourly == None && cpuHourly.Some? && cpuHourly.value.Fin?
            && if cpu == 0.0 then cpuHourly.value.r == Rounded6(price)
               else Abs(cpu * cpuHourly.value.r - price) <= E6 * cpu
  {
    hide Rounded6, UnitPrices;
    if cpu != 0.0 {
      var unit := price / cpu;
      assert Fin(price).Over(Fin(cpu)) == Fin(unit);
      Rounded6IsNear(unit);
      Product(cpu, Rounded6(unit) - unit, E6);
      assert cpu * unit == price;
      assert cpu * Rounded6(unit) == cpu * unit + Mul(cpu, Rounded6(unit) - unit);
    }
  }

  lemma OverCoresAndMemory(a: real, b: real, cpu: real, ramGB: real, price: real)
    requires cpu >= 0.0 && ramGB >= 0.0 && b != 0.0 && cpu * a + ramGB * b != 0.0
    ensures var (cpuHourly, ramHourly) := HourlyCosts(CustomPricing(Fin(a), Fin(b)), Fin(cpu), Fin(ramGB), Fin(price));
            && cpuHourly.Some? && cpuHourly.value.Fin? && ramHourly.Some? && ramHourly.value.Fin?
            && Abs(cpu * cpuHourly.value.r + ramGB * ramHourly.value.r - price) <= E6 * (cpu + ramGB)
  {
    hide Rounded6, UnitPrices;
    UnitPricesOfNumbers(a, b, cpu, ramGB, price);
    BreakdownConserves(a, b, cpu, ramGB, price);
    var u := UnitPrices(CustomPricing(Fin(a), Fin(b)), Fin(cpu), Fin(ramGB), Fin(price));
    Rounded6IsNear(u.cpuPrice.r);
    Rounded6IsNear(u.ramPrice.r);
    WeightedError(cpu, ramGB, u.cpuPrice.r, u.ramPrice.r, Rounded6(u.cpuPrice.r), Rounded6(u.ramPrice.r));
  }

  lemma FreePod(a: real, b: real, cpu: real, ramGB: real, price: real)
    requires b != 0.0 && cpu * a + ramGB * b == 0.0
    ensures HourlyCosts(CustomPricing(Fin(a), Fin(b)), Fin(cpu), Fin(ramGB), Fin(price)) ==
            if price == 0.0 then (Some(Fin(0.0)), Some(Fin(0.0)))
            else (Some(if a == 0.0 then NaN else Infinity((price < 0.0) != (a / b < 0.0))), Some(Infinity(price < 0.0)))
  {
    hide Rounded6, UnitPrices;
    UnitPricesOfNumbers(a, b, cpu, ramGB, price);
    MultipleInPrices(a, b, cpu, ramGB);
    Rounded6OfZero();
    assert a / b == 0.0 <==> a == 0.0;
  }

  lemma WeightedError(cpu: real, ramGB: real, x: real, y: real, x': real, y': real)
    requires cpu >= 0.0 && ramGB >= 0.0 && Abs(x' - x) <= E6 && Abs(y' - y) <= E6
    ensures Abs(cpu * x' + ramGB * y' - (cpu * x + ramGB * y)) <= E6 * (cpu + ramGB)
  {
    hide Abs, Mul;
    Product(cpu, x' - x, E6);
    Product(ramGB, y' - y, E6);
    ExpandTwo(cpu, ramGB, x, y, x', y');
    Between(cpu * x' + ramGB * y' - (cpu * x + ramGB * y), Mul(cpu, x' - x), Mul(ramGB, y' - y), Mul(cpu, E6), Mul(ramGB, E6));
  }

  lemma ExpandTwo(cpu: real, ramGB: real, x: real, y: real, x': real, y': real)
    ensures cpu * x' + ramGB * y' - (cpu * x + ramGB * y) == Mul(cpu, x' - x) + Mul(ramGB, y' - y)
    ensures E6 * (cpu + ramGB) == Mul(cpu, E6) + Mul(ramGB, E6)
  {
  }

  lemma Between(sum: real, a: real, b: real, a': real, b': real)
    requires Abs(a) <= a' && Abs(b) <= b' && sum == a + b
    ensures Abs(sum) <= a' + b'
  {
  }
}
