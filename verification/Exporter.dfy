/** The cost exporter as a whole: cached prices, node costs and gauges (pkg/cloudproviders/qcloud and
    pkg/cost-exporter/store/prometheus). */
module Exporter {
  import opened Wrappers
  import opened ProviderID
  import opened NodeCost
  import opened PriceCache
  import opened Exported
  import opened Emitter

  /** What the history of the price cache says that a node costs. */
  function PricedAfter(cfg: CustomPricing, node: Node, events: seq<Event>, limit: nat): PricedNode
    requires limit > 0
  {
    BreakdownCost(cfg, node, AfterAll(events, limit, NodeId(node)))
  }

  function ExportedAfter(cfg: CustomPricing, node: Node, events: seq<Event>, limit: nat): Gauges
    requires limit > 0
  {
    ExportOf(cfg, node, AfterAll(events, limit, NodeId(node)))
  }

  /** The round shows node under its name, priced from the history. */
  ghost predicate Shows(live: Exports, cfg: CustomPricing, name: string, node: Node, events: seq<Event>, limit: nat)
    requires limit > 0
  {
    var t := Labels(name, PricedAfter(cfg, node, events, limit));
    t in live && live[t] == ExportedAfter(cfg, node, events, limit)
  }

  /** Nothing else is in the round. */
  ghost predicate ShowsOnly(live: Exports, cfg: CustomPricing, nodes: seq<Node>, events: seq<Event>, limit: nat)
    requires limit > 0
  {
    forall t :: t in live ==>
      && |t| == 5 && NodeNamed(nodes, t[0]).Some?
      && t == Labels(t[0], PricedAfter(cfg, NodeNamed(nodes, t[0]).value, events, limit))
  }

  ghost predicate CacheHolds(instances: Prices, events: seq<Event>, limit: nat)
    requires limit > 0
  {
    forall id: string :: Get(instances, id) == AfterAll(events, limit, id)
  }

  lemma LiveShows(cfg: CustomPricing, nodes: seq<Node>, instances: Prices, priced: map<string, PricedNode>,
                  events: seq<Event>, limit: nat, name: string)
    requires limit > 0 && CacheHolds(instances, events, limit) && PricesNodes(cfg, nodes, instances, priced)
    requires NodeNamed(nodes, name).Some?
    ensures Shows(Live(cfg, priced), cfg, name, NodeNamed(nodes, name).value, events, limit)
  {
    hide BreakdownCost, Export, Live, Labels, NodeNamed, AfterAll, Get;
    var node := NodeNamed(nodes, name).value;
    assert Cached(instances, node) == AfterAll(events, limit, NodeId(node));
    LiveHas(cfg, priced, name);
  }

  lemma LiveHas(cfg: CustomPricing, priced: map<string, PricedNode>, name: string)
    requires name in priced
    ensures var t := Labels(name, priced[name]);
            t in Live(cfg, priced) && Live(cfg, priced)[t] == Export(cfg, priced[name])
  {
    hide Live, Export;
    LiveIs(cfg, priced, Labels(name, priced[name]));
  }

  lemma LiveShowsOnly(cfg: CustomPricing, nodes: seq<Node>, instances: Prices, priced: map<string, PricedNode>,
                      events: seq<Event>, limit: nat)
    requires limit > 0 && CacheHolds(instances, events, limit) && PricesNodes(cfg, nodes, instances, priced)
    ensures ShowsOnly(Live(cfg, priced), cfg, nodes, events, limit)
  {
    hide BreakdownCost, Export, Live, Labels, NodeNamed, AfterAll, Get;
    forall t | t in Live(cfg, priced)
      ensures |t| == 5 && NodeNamed(nodes, t[0]).Some?
      ensures t == Labels(t[0], PricedAfter(cfg, NodeNamed(nodes, t[0]).value, events, limit))
    {
      LiveIs(cfg, priced, t);
      var node := NodeNamed(nodes, t[0]).value;
      assert Cached(instances, node) == AfterAll(events, limit, NodeId(node));
    }
  }

  // ---- The same in terms of the node and its instance ----

  /** The name twice, the type of the instance or else of the node, the region and the provider id. */
  ghost predicate IsTupleOf(t: Tuple, name: string, node: Node, cached: Option<InstancePrice>) {
    t == [name, name, TypeOf(node, cached), node.region, node.providerID]
  }

  ghost predicate ShowsNode(e: Exports, cfg: CustomPricing, name: string, node: Node, cached: Option<InstancePrice>) {
    exists t ::
      && t in e && IsTupleOf(t, name, node, cached)
      && (cfg.cpuHourlyPrice.Fin? && cfg.ramGBHourlyPrice.Fin? ==>
            ShowsBill(cfg.cpuHourlyPrice.r, cfg.ramGBHourlyPrice.r, node, cached, e[t]))
  }

  /** What the history of the price cache has left for the instance that the provider id names. */
  ghost function InstanceOf(node: Node, events: seq<Event>, limit: nat): Option<InstancePrice>
    requires limit > 0
  {
    AfterAll(events, limit, ParseID(node.providerID))
  }

  /** The last real node of each name is shown. */
  ghost predicate ShowsAll(e: Exports, cfg: CustomPricing, nodes: seq<Node>, events: seq<Event>, limit: nat)
    requires limit > 0
  {
    forall i: nat, name :: IsLastNamed(nodes, i, name) ==>
      i < |nodes| && ShowsNode(e, cfg, name, nodes[i], InstanceOf(nodes[i], events, limit))
  }

  /** There is nothing else. */
  ghost predicate ShowsNoOther(e: Exports, nodes: seq<Node>, events: seq<Event>, limit: nat)
    requires limit > 0
  {
    forall t :: t in e ==> exists i: nat, name ::
      IsLastNamed(nodes, i, name) && IsTupleOf(t, name, nodes[i], InstanceOf(nodes[i], events, limit))
  }

  lemma LabelsAreTuple(cfg: CustomPricing, name: string, node: Node, events: seq<Event>, limit: nat)
    requires limit > 0
    ensures IsTupleOf(Labels(name, PricedAfter(cfg, node, events, limit)), name, node, InstanceOf(node, events, limit))
  {
    hide BreakdownCost, TypeOf, AfterAll;
    BreakdownNames(cfg, node, InstanceOf(node, events, limit));
  }

  lemma ShownNode(e: Exports, cfg: CustomPricing, name: string, node: Node, events: seq<Event>, limit: nat)
    requires limit > 0 && !node.virtual && Shows(e, cfg, name, node, events, limit)
    ensures ShowsNode(e, cfg, name, node, InstanceOf(node, events, limit))
  {
    hide BreakdownCost, ExportOf, Labels, AfterAll, IsTupleOf, ShowsBill;
    LabelsAreTuple(cfg, name, node, events, limit);
    if cfg.cpuHourlyPrice.Fin? && cfg.ramGBHourlyPrice.Fin? {
      GaugesShowBill(cfg.cpuHourlyPrice.r, cfg.ramGBHourlyPrice.r, node, InstanceOf(node, events, limit));
    }
  }

  lemma AllShown(e: Exports, cfg: CustomPricing, nodes: seq<Node>, events: seq<Event>, limit: nat)
    requires limit > 0
    requires forall name: string :: NodeNamed(nodes, name).Some? ==>
               Shows(e, cfg, name, NodeNamed(nodes, name).value, events, limit)
    ensures ShowsAll(e, cfg, nodes, events, limit)
  {
    hide Shows, ShowsNode, InstanceOf, NodeNamed;
    forall i: nat, name | IsLastNamed(nodes, i, name)
      ensures ShowsNode(e, cfg, name, nodes[i], InstanceOf(nodes[i], events, limit))
    {
      NodeNamedIsLast(nodes, name);
      ShownNode(e, cfg, name, nodes[i], events, limit);
    }
  }

  lemma NoOtherShown(live: Exports, cfg: CustomPricing, nodes: seq<Node>, events: seq<Event>, limit: nat)
    requires limit > 0 && ShowsOnly(live, cfg, nodes, events, limit)
    ensures ShowsNoOther(live, nodes, events, limit)
  {
    hide PricedAfter, Labels, InstanceOf, IsTupleOf, NodeNamed;
    forall t | t in live
      ensures exists i: nat, name ::
                IsLastNamed(nodes, i, name) && IsTupleOf(t, name, nodes[i], InstanceOf(nodes[i], events, limit))
    {
      NodeNamedIsLast(nodes, t[0]);
      var i: nat :| IsLastNamed(nodes, i, t[0]);
      LabelsAreTuple(cfg, t[0], nodes[i], events, limit);
      assert IsTupleOf(t, t[0], nodes[i], InstanceOf(nodes[i], events, limit));
    }
  }

  /** One round against the provider, after a run of events of the price cache and any earlier rounds: every listed real
      node is exported from the price that its instance's own history has left, and the round has nothing else. */
  method Round(provider: TencentCloud, emitter: CostMetricEmitter, cfg: CustomPricing, nodes: seq<Node>,
               ghost events: seq<Event>)
    requires provider.limit > 0 && provider.Holds(events) && emitter.InStep()
    modifies emitter
    ensures emitter.InStep() && emitter.rounds != [] && emitter.rounds[..|emitter.rounds| - 1] == old(emitter.rounds)
    ensures forall name: string :: NodeNamed(nodes, name).Some? ==>
              Shows(emitter.Exporting(), cfg, name, NodeNamed(nodes, name).value, events, provider.limit)
    ensures ShowsOnly(Last(emitter.rounds), cfg, nodes, events, provider.limit)
    ensures ShowsAll(emitter.Exporting(), cfg, nodes, events, provider.limit)
    ensures ShowsNoOther(Last(emitter.rounds), nodes, events, provider.limit)
  {
    hide PricesAll, ShowsNodes, OnlyNodes, ShowsAll, ShowsNoOther;
    hide PricesNodes, CacheHolds, NodeNamed, ShowsOnly, Shows, Live, Remaining, Unmarked, CostMetricEmitter.Exporting;
    ghost var rounds, instances := emitter.rounds, provider.instances;
    assert CacheHolds(instances, events, provider.limit) by {
      HoldsIsCacheHolds(provider, events);
    }
    var priced := GetNodesCost(Some(cfg), nodes, provider.instances);
    ghost var live := Live(cfg, priced.value);
    LiveShowsOnly(cfg, nodes, instances, priced.value, events, provider.limit);
    emitter.Round(Answer(Ok(cfg), Ok(priced.value)));
    forall name: string | NodeNamed(nodes, name).Some?
      ensures Shows(Remaining(rounds + [live]), cfg, name, NodeNamed(nodes, name).value, events, provider.limit)
    {
      LiveShows(cfg, nodes, instances, priced.value, events, provider.limit, name);
      StillShows(rounds, live, cfg, name, NodeNamed(nodes, name).value, events, provider.limit);
    }
    AllShown(emitter.Exporting(), cfg, nodes, events, provider.limit);
    NoOtherShown(live, cfg, nodes, events, provider.limit);
  }

  lemma HoldsIsCacheHolds(provider: TencentCloud, events: seq<Event>)
    requires provider.limit > 0 && provider.Holds(events)
    ensures CacheHolds(provider.instances, events, provider.limit)
  {
  }

  lemma StillShows(rounds: seq<Exports>, live: Exports, cfg: CustomPricing, name: string, node: Node,
                   events: seq<Event>, limit: nat)
    requires limit > 0 && Shows(live, cfg, name, node, events, limit)
    ensures Shows(Remaining(rounds + [live]), cfg, name, node, events, limit)
  {
    hide Remaining, PricedAfter, ExportedAfter;
    LiveRemains(rounds, live);
  }
}
