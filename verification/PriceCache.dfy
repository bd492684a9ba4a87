/** The cache of instance prices and what changes it (pkg/cloudproviders/qcloud/price_cache.go). */
module PriceCache {
  import opened Wrappers
  import opened ProviderID
  import opened NodeCost
  import opened Cvm

  type Prices = map<string, InstancePrice>

  // ---- The cache, one id at a time ----

  /** The last quote for the instance. */
  function LastQuote(quotes: seq<InstancePrice>, id: string): Option<InstancePrice> {
    if quotes == [] then None
    else
      var last := quotes[|quotes| - 1];
      if last.instance.id == Some(id) then Some(last) else LastQuote(quotes[..|quotes| - 1], id)
  }

  function NodeId(node: Node): string {
    ParseID(node.providerID)
  }

  /** Ids of the listed nodes; nodes without one are serverless. */
  function IdsOf(nodes: seq<Node>): seq<string> {
    if nodes == [] then []
    else
      var n := |nodes| - 1;
      IdsOf(nodes[..n]) + if NodeId(nodes[n]) == "" then [] else [NodeId(nodes[n])]
  }

  /** What changes the cache. A refresh first renews the standard prices, and does nothing more when that fails. */
  datatype Event =
    | Refresh(standardPricesFail: bool, nodes: seq<Node>, cloud: Cloud)
    | NodeAdd(node: Option<Node>, cloud: Cloud)
    | NodeDelete(node: Option<Node>)

  /** The quotes for the ids, or None when the cloud refuses. */
  function Quotes(cloud: Cloud, ids: seq<string>, limit: nat): Option<seq<InstancePrice>>
    requires limit > 0
  {
    var described := Described(cloud.describe, Chunks(ids, limit));
    if !cloud.connects || described.Err? then None else Some(Priced(cloud, described.value))
  }

  /** The effect of an event on what is cached for one id. */
  function After(e: Event, limit: nat, id: string, cached: Option<InstancePrice>): Option<InstancePrice>
    requires limit > 0
  {
    match e
    case Refresh(fails, nodes, cloud) =>
      var quotes := Quotes(cloud, IdsOf(nodes), limit);
      if fails || quotes.None? then cached
      else if id in IdsOf(nodes) then OrElse(LastQuote(quotes.value, id), cached)
      else None
    case NodeAdd(node, cloud) =>
      if node.None? || node.value.virtual || NodeId(node.value) != id then cached
      else
        var quotes := Quotes(cloud, [id], limit);
        if quotes.None? || quotes.value == [] then cached else Some(quotes.value[0])
    case NodeDelete(node) =>
      if node.Some? && NodeId(node.value) == id then None else cached
  }

  function AfterAll(events: seq<Event>, limit: nat, id: string): Option<InstancePrice>
    requires limit > 0
  {
    if events == [] then None
    else After(events[|events| - 1], limit, id, AfterAll(events[..|events| - 1], limit, id))
  }

  // ---- The cache itself ----

  class TencentCloud {
    const limit: nat
    var instances: Prices

    ghost predicate Holds(events: seq<Event>)
      requires limit > 0
      reads this
    {
      forall id: string :: Get(instances, id) == AfterAll(events, limit, id)
    }

    constructor (limit: nat)
      requires limit > 0
      ensures this.limit == limit && Holds([])
    {
      this.limit := limit;
      instances := map[];
    }

    /** Whatever run of events has led here, the price that the id's own history leaves. */
    method GetInstancePrice(id: string) returns (p: Option<InstancePrice>)
      ensures p == Get(instances, id)
      ensures limit > 0 ==> forall events :: Holds(events) ==> p == AfterAll(events, limit, id)
    {
      p := if id in instances then Some(instances[id]) else None;
    }

    method GetQuotes(cloud: Cloud, ids: seq<string>) returns (r: Result<seq<InstancePrice>>)
      requires limit > 0
      ensures r.Ok? <==> Quotes(cloud, ids, limit).Some?
      ensures r.Ok? ==> Quotes(cloud, ids, limit) == Some(r.value)
    {
      var described := GetCVMInstances(cloud, ids, limit);
      if described.Err? {
        return Err(described.error);
      }
      r := GetCVMInstancesPrice(cloud, described.value);
    }

    /** refreshInstancePricingCache. */
    method RefreshInstancePricingCache(nodeList: seq<Node>, cloud: Cloud) returns (r: Result<()>)
      requires limit > 0
      modifies this
      ensures forall id: string ::
                Get(instances, id) == After(Refresh(false, nodeList, cloud), limit, id, Get(old(instances), id))
      ensures r.Ok? <==> Quotes(cloud, IdsOf(nodeList), limit).Some?
      ensures r.Err? ==> instances == old(instances)
    {
      var inputInstances: seq<string> := [];
      var nodeIds: set<string> := {};
      var i := 0;
      while i < |nodeList|
        invariant 0 <= i <= |nodeList| && inputInstances == IdsOf(nodeList[..i])
        invariant forall id :: id in nodeIds <==> id in inputInstances
        invariant instances == old(instances)
      {
        var id := ParseID(nodeList[i].providerID);
        assert nodeList[..i + 1][..i] == nodeList[..i];
        i := i + 1;
        if id == "" {
          continue;
        }
        nodeIds := nodeIds + {id};
        inputInstances := inputInstances + [id];
      }
      assert nodeList[..i] == nodeList;
      hide Quotes, IdsOf;
      var insPrices := GetQuotes(cloud, inputInstances);
      if insPrices.Err? {
        return Err(insPrices.error);
      }
      Store(insPrices.value);
      Prune(nodeIds);
      return Ok(());
    }

    method Store(quotes: seq<InstancePrice>)
      modifies this
      ensures forall id: string :: Get(instances, id) == OrElse(LastQuote(quotes, id), Get(old(instances), id))
    {
      var i := 0;
      while i < |quotes|
        invariant 0 <= i <= |quotes|
        invariant forall id: string :: Get(instances, id) == OrElse(LastQuote(quotes[..i], id), Get(old(instances), id))
      {
        assert quotes[..i + 1][..i] == quotes[..i];
        var ins := quotes[i].instance;
        if ins.id.Some? {
          instances := instances[ins.id.value := InstancePrice(ins, quotes[i].price)];
        }
        i := i + 1;
      }
      assert quotes[..i] == quotes;
    }

    method Prune(nodeIds: set<string>)
      modifies this
      ensures instances == map id | id in old(instances) && id in nodeIds :: old(instances)[id]
    {
      var todo := instances.Keys;
      while todo != {}
        invariant todo <= old(instances).Keys
        invariant instances == map id | id in old(instances) && (id in nodeIds || id in todo) :: old(instances)[id]
        decreases todo
      {
        var insid :| insid in todo;
        if insid !in nodeIds {
          instances := instances - {insid};
        }
        todo := todo - {insid};
      }
    }

    method OnNodeAdd(node: Option<Node>, cloud: Cloud) returns (r: Result<()>)
      requires limit > 0
      modifies this
      ensures forall id: string ::
                Get(instances, id) == After(NodeAdd(node, cloud), limit, id, Get(old(instances), id))
      ensures r.Err? ==> instances == old(instances)
    {
      hide Quotes;
      if node.Some? && node.value.virtual {
        return Ok(());
      }
      if node.Some? {
        var id := ParseID(node.value.providerID);
        var prices := GetQuotes(cloud, [id]);
        if prices.Err? {
          return Err(prices.error);
        }
        if |prices.value| > 0 {
          instances := instances[id := prices.value[0]];
        }
      }
      return Ok(());
    }

    method OnNodeDelete(node: Option<Node>)
      modifies this
      ensures forall id: string, limit: nat ::
                limit > 0 ==> Get(instances, id) == After(NodeDelete(node), limit, id, Get(old(instances), id))
    {
      if node.Some? {
        var id := ParseID(node.value.providerID);
        instances := instances - {id};
      }
    }

    /** After any run of events, every id is cached as if it were the only one. */
    method Run(events: seq<Event>)
      requires limit > 0 && Holds([])
      modifies this
      ensures Holds(events)
    {
      hide Get, Quotes, IdsOf, LastQuote, NodeId;
      var i := 0;
      while i < |events|
        invariant 0 <= i <= |events| && Holds(events[..i])
      {
        ghost var before := instances;
        match events[i] {
          case Refresh(fails, nodes, cloud) =>
            if !fails {
              var r := RefreshInstancePricingCache(nodes, cloud);
            }
          case NodeAdd(node, cloud) =>
            var r := OnNodeAdd(node, cloud);
          case NodeDelete(node) =>
            OnNodeDelete(node);
        }
        assert forall id: string :: Get(instances, id) == After(events[i], limit, id, Get(before, id));
        AfterAllNext(events, i, limit);
        i := i + 1;
      }
      assert events[..i] == events;
    }
  }

  lemma AfterAllNext(events: seq<Event>, i: nat, limit: nat)
    requires i < |events| && limit > 0
    ensures forall id: string :: AfterAll(events[..i + 1], limit, id) == After(events[i], limit, id, AfterAll(events[..i], limit, id))
  {
    assert events[..i + 1][..i] == events[..i];
  }

  // ---- What a refresh does ----

  lemma {:induction false} LastQuoteExactlyWhen(quotes: seq<InstancePrice>, id: string)
    ensures LastQuote(quotes, id).Some? <==> (exists p :: p in quotes && p.instance.id == Some(id))
    ensures LastQuote(quotes, id).Some? ==> LastQuote(quotes, id).value in quotes && LastQuote(quotes, id).value.instance.id == Some(id)
  {
    if quotes != [] {
      var n := |quotes| - 1;
      LastQuoteExactlyWhen(quotes[..n], id);
      assert quotes == quotes[..n] + [quotes[n]];
    }
  }

  lemma {:induction false} IdsExactlyWhen(nodes: seq<Node>, id: string)
    ensures id in IdsOf(nodes) <==> id != "" && exists node :: node in nodes && NodeId(node) == id
  {
    if nodes != [] {
      var n := |nodes| - 1;
      IdsExactlyWhen(nodes[..n], id);
      assert nodes == nodes[..n] + [nodes[n]];
    }
  }

  /** The cloud has an instance with this id, and a price for it. */
  ghost predicate CanPrice(cloud: Cloud, instances: seq<Instance>, id: string) {
    exists ins :: ins in instances && ins.id == Some(id) && QuoteFor(cloud, ins).Some?
  }

  /** After a refresh that succeeds, exactly the ids of listed nodes are cached that were cached before or were priced
      now; a price that was got now replaces the one before. */
  lemma RefreshedDomain(nodes: seq<Node>, cloud: Cloud, limit: nat, id: string, cached: Option<InstancePrice>)
    requires limit > 0 && Quotes(cloud, IdsOf(nodes), limit).Some?
    ensures var described := Described(cloud.describe, Chunks(IdsOf(nodes), limit)).value;
            var after := After(Refresh(false, nodes, cloud), limit, id, cached);
            && (after.Some? <==>
                  && id != "" && (exists node :: node in nodes && NodeId(node) == id)
                  && (cached.Some? || CanPrice(cloud, described, id)))
            && (after.Some? && !CanPrice(cloud, described, id) ==> after == cached)
            && (after.Some? && CanPrice(cloud, described, id) ==>
                  && after.value.instance in described && after.value.instance.id == Some(id)
                  && QuoteFor(cloud, after.value.instance) == Some(after.value.price))
  {
    var described := Described(cloud.describe, Chunks(IdsOf(nodes), limit)).value;
    var quotes := Priced(cloud, described);
    IdsExactlyWhen(nodes, id);
    LastQuoteExactlyWhen(quotes, id);
    hide Priced, Described, Chunks, IdsOf, LastQuote, NodeId, QuoteFor;
    if LastQuote(quotes, id).Some? {
      PricedExactlyWhen(cloud, described, LastQuote(quotes, id).value);
    }
    if CanPrice(cloud, described, id) {
      var ins :| ins in described && ins.id == Some(id) && QuoteFor(cloud, ins).Some?;
      var p := InstancePrice(ins, QuoteFor(cloud, ins).value);
      PricedExactlyWhen(cloud, described, p);
    }
  }

  // ---- Runs ----

  /** The event takes the id out of the cache if it is there: a node deletion, or a refresh that succeeds without
      listing it. */
  ghost predicate Removes(e: Event, limit: nat, id: string)
    requires limit > 0
  {
    match e
    case Refresh(fails, nodes, cloud) => !fails && Quotes(cloud, IdsOf(nodes), limit).Some? && id !in IdsOf(nodes)
    case NodeAdd(_, _) => false
    case NodeDelete(node) => node.Some? && NodeId(node.value) == id
  }

  /** The event brings a price for the id. */
  ghost predicate Brings(e: Event, limit: nat, id: string, p: InstancePrice)
    requires limit > 0
  {
    match e
    case Refresh(fails, nodes, cloud) =>
      && !fails && id in IdsOf(nodes) && Quotes(cloud, IdsOf(nodes), limit).Some?
      && LastQuote(Quotes(cloud, IdsOf(nodes), limit).value, id) == Some(p)
    case NodeAdd(node, cloud) =>
      && node.Some? && !node.value.virtual && NodeId(node.value) == id && Quotes(cloud, [id], limit).Some?
      && Quotes(cloud, [id], limit).value != [] && Quotes(cloud, [id], limit).value[0] == p
    case NodeDelete(_) => false
  }

  ghost predicate Keeps(e: Event, limit: nat, id: string)
    requires limit > 0
  {
    !Removes(e, limit, id) && forall q :: !Brings(e, limit, id, q)
  }

  ghost predicate BroughtLast(events: seq<Event>, i: nat, limit: nat, id: string, p: InstancePrice)
    requires limit > 0
  {
    && i < |events| && Brings(events[i], limit, id, p)
    && forall j :: i < j < |events| ==> Keeps(events[j], limit, id)
  }

  lemma AfterExactlyWhen(e: Event, limit: nat, id: string, cached: Option<InstancePrice>, p: InstancePrice)
    requires limit > 0
    ensures After(e, limit, id, cached) == Some(p) <==>
            Brings(e, limit, id, p) || (cached == Some(p) && Keeps(e, limit, id))
  {
    hide Quotes, IdsOf, NodeId, LastQuote;
    match e
    case Refresh(fails, nodes, cloud) =>
      var quotes := Quotes(cloud, IdsOf(nodes), limit);
      if !fails && quotes.Some? && id in IdsOf(nodes) && LastQuote(quotes.value, id).Some? {
        assert Brings(e, limit, id, LastQuote(quotes.value, id).value);
      }
    case NodeAdd(node, cloud) =>
      var quotes := Quotes(cloud, [id], limit);
      if node.Some? && !node.value.virtual && NodeId(node.value) == id && quotes.Some? && quotes.value != [] {
        assert Brings(e, limit, id, quotes.value[0]);
      }
    case NodeDelete(_) =>
  }

  /** A price is cached just when some event brought it, and no event since has removed the id or brought another:
      failing calls and failing quotes lose nothing, and nothing that was removed comes back by itself. */
  lemma {:induction false} CachedExactlyWhen(events: seq<Event>, limit: nat, id: string, p: InstancePrice)
    requires limit > 0
    ensures AfterAll(events, limit, id) == Some(p) <==> (exists i: nat :: BroughtLast(events, i, limit, id, p))
  {
    hide After, Brings, Keeps;
    if events != [] {
      var n := |events| - 1;
      var front, cached := events[..n], AfterAll(events[..n], limit, id);
      CachedExactlyWhen(front, limit, id, p);
      AfterExactlyWhen(events[n], limit, id, cached, p);
      assert events == front + [events[n]];
      BroughtNext(front, events[n], limit, id, p);
    }
  }

  lemma BroughtNext(front: seq<Event>, e: Event, limit: nat, id: string, p: InstancePrice)
    requires limit > 0
    ensures (exists i: nat :: BroughtLast(front + [e], i, limit, id, p)) <==>
            Brings(e, limit, id, p) || (Keeps(e, limit, id) && exists i: nat :: BroughtLast(front, i, limit, id, p))
  {
    hide Brings, Keeps;
    var events, n := front + [e], |front|;
    if Brings(e, limit, id, p) {
      assert BroughtLast(events, n, limit, id, p);
    }
    if Keeps(e, limit, id) && exists i: nat :: BroughtLast(front, i, limit, id, p) {
      var i: nat :| BroughtLast(front, i, limit, id, p);
      forall j | i < j < |events|
        ensures Keeps(events[j], limit, id)
      {
        assert j < n ==> events[j] == front[j];
      }
      assert BroughtLast(events, i, limit, id, p);
    }
    if exists i: nat :: BroughtLast(events, i, limit, id, p) {
      var i: nat :| BroughtLast(events, i, limit, id, p);
      if i < n {
        assert Keeps(events[n], limit, id);
        assert forall j :: 0 <= j < n ==> events[j] == front[j];
        assert BroughtLast(front, i, limit, id, p);
      }
    }
  }
}
