/** The mark-and-sweep loop that keeps the exported gauges in step with the nodes
    (pkg/cost-exporter/store/prometheus/prom_emitter.go). */
module Emitter {
  import opened Wrappers
  import opened Text
  import opened ExtReal
  import opened NodeCost
  import opened Exported

  /** The label values of one time series of a gauge vector. */
  type Tuple = seq<string>

  /** Time series with their values. */
  type Exports = map<Tuple, Gauges>

  function Labels(name: string, node: PricedNode): (t: Tuple)
    ensures |t| == 5 && t[0] == name
  {
    [name, name, node.instanceType, node.region, node.providerID]
  }

  /** The comma-joined labels, under which a node is remembered. */
  function KeyOf(t: Tuple): string {
    Join(t, ',')
  }

  predicate HasComma(t: Tuple) {
    exists i :: 0 <= i < |t| && ',' in t[i]
  }

  /** What the nodes of one round are exported as. */
  function Live(cfg: CustomPricing, nodes: map<string, PricedNode>): Exports {
    map name | name in nodes :: Labels(name, nodes[name]) := Export(cfg, nodes[name])
  }

  lemma LiveIs(cfg: CustomPricing, nodes: map<string, PricedNode>, t: Tuple)
    ensures t in Live(cfg, nodes) <==> |t| == 5 && t[0] in nodes && t == Labels(t[0], nodes[t[0]])
    ensures t in Live(cfg, nodes) ==> Live(cfg, nodes)[t] == Export(cfg, nodes[t[0]])
  {
    hide Export;
  }

  /** Every node is exported under its name twice, its type, its region and its provider id, with its gauges. */
  ghost predicate ShowsNodes(e: Exports, cfg: CustomPricing, nodes: map<string, PricedNode>) {
    forall name :: name in nodes ==>
      var n := nodes[name];
      var t := [name, name, n.instanceType, n.region, n.providerID];
      t in e && ShowsFields(cfg, n, e[t])
  }

  /** Nothing but nodes is exported. */
  ghost predicate OnlyNodes(e: Exports, nodes: map<string, PricedNode>) {
    forall t :: t in e ==> exists name ::
      name in nodes && t == [name, name, nodes[name].instanceType, nodes[name].region, nodes[name].providerID]
  }

  lemma LiveShowsNodes(cfg: CustomPricing, nodes: map<string, PricedNode>)
    ensures ShowsNodes(Live(cfg, nodes), cfg, nodes) && OnlyNodes(Live(cfg, nodes), nodes)
  {
    hide Live, Export, ShowsFields;
    forall name | name in nodes
      ensures Labels(name, nodes[name]) in Live(cfg, nodes)
      ensures ShowsFields(cfg, nodes[name], Live(cfg, nodes)[Labels(name, nodes[name])])
    {
      LiveIs(cfg, nodes, Labels(name, nodes[name]));
      ExportShowsFields(cfg, nodes[name]);
    }
    forall t | t in Live(cfg, nodes)
      ensures exists name ::
                name in nodes && t == [name, name, nodes[name].instanceType, nodes[name].region, nodes[name].providerID]
    {
      LiveIs(cfg, nodes, t);
      assert t[0] in nodes;
    }
  }

  lemma LiveNext(cfg: CustomPricing, nodes: map<string, PricedNode>, name: string, node: PricedNode)
    requires name !in nodes
    ensures Live(cfg, nodes[name := node]) == Live(cfg, nodes)[Labels(name, node) := Export(cfg, node)]
  {
    hide Export, Live, Labels;
    forall t
      ensures t in Live(cfg, nodes[name := node]) <==> t in Live(cfg, nodes) || t == Labels(name, node)
      ensures t in Live(cfg, nodes[name := node]) ==>
                Live(cfg, nodes[name := node])[t] == Live(cfg, nodes)[Labels(name, node) := Export(cfg, node)][t]
    {
      LiveIs(cfg, nodes[name := node], t);
      LiveIs(cfg, nodes, t);
    }
  }

  lemma LiveAreTuples(cfg: CustomPricing, nodes: map<string, PricedNode>)
    ensures AreTuples(Live(cfg, nodes))
  {
    hide Live;
    forall t | t in Live(cfg, nodes)
      ensures |t| == 5
    {
      LiveIs(cfg, nodes, t);
    }
  }

  ghost predicate AreTuples(e: Exports) {
    forall t :: t in e ==> |t| == 5
  }

  ghost predicate AllAreTuples(rounds: seq<Exports>) {
    forall i :: 0 <= i < |rounds| ==> AreTuples(rounds[i])
  }

  // ---- What is exported after a number of rounds ----

  function Last(rounds: seq<Exports>): Exports {
    if rounds == [] then map[] else rounds[|rounds| - 1]
  }

  /** The nodes of the last round; and, of the rounds before, whatever has a comma in a label. */
  function Remaining(rounds: seq<Exports>): Exports {
    if rounds == [] then map[]
    else
      var before := Remaining(rounds[..|rounds| - 1]);
      (map t | t in before && HasComma(t) :: before[t]) + Last(rounds)
  }

  function Unmarked(live: Exports): map<string, bool> {
    map t | t in live :: KeyOf(t) := false
  }

  ghost predicate LastExportedAs(rounds: seq<Exports>, i: nat, t: Tuple, values: Gauges) {
    && i < |rounds| && t in rounds[i] && rounds[i][t] == values
    && forall j :: i < j < |rounds| ==> t !in rounds[j]
  }

  lemma RemainingNext(rounds: seq<Exports>, live: Exports)
    ensures Remaining(rounds + [live]) ==
            (map s | s in Remaining(rounds) && HasComma(s) :: Remaining(rounds)[s]) + live
  {
    assert (rounds + [live])[..|rounds|] == rounds;
  }

  /** A time series is exported just when its node was there in the last round, or was there in some round and has a
      comma in a label; its value is the one it was given last. */
  lemma {:induction false} RemainingExactlyWhen(rounds: seq<Exports>, t: Tuple)
    ensures t in Remaining(rounds) <==>
            t in Last(rounds) || (HasComma(t) && (exists i :: 0 <= i < |rounds| && t in rounds[i]))
    ensures t in Remaining(rounds) ==> exists i: nat :: LastExportedAs(rounds, i, t, Remaining(rounds)[t])
  {
    if rounds != [] {
      var n := |rounds| - 1;
      var front, live := rounds[..n], rounds[n];
      assert rounds == front + [live];
      RemainingExactlyWhen(front, t);
      RemainingNext(front, live);
      hide Remaining, HasComma;
      if t in live {
        assert LastExportedAs(rounds, n, t, live[t]);
      } else {
        assert (exists i :: 0 <= i < |rounds| && t in rounds[i]) <==> (exists i :: 0 <= i < |front| && t in front[i]) by {
          assert forall i :: 0 <= i < |front| ==> front[i] == rounds[i];
        }
        assert t in Last(front) ==> t in front[|front| - 1];
        if t in Remaining(rounds) {
          var i: nat :| LastExportedAs(front, i, t, Remaining(front)[t]);
          assert rounds[i] == front[i];
          assert LastExportedAs(rounds, i, t, Remaining(front)[t]);
        }
      }
    }
  }

  /** Exactly the nodes of the last round are exported just when every node that had a comma in a label is still
      there; so always, if labels have no commas. */
  lemma NothingLeaksExactlyWhen(rounds: seq<Exports>)
    ensures Remaining(rounds) == Last(rounds) <==>
            forall i, t :: 0 <= i < |rounds| && t in rounds[i] && HasComma(t) ==> t in Last(rounds)
  {
    hide HasComma;
    if Remaining(rounds) == Last(rounds) {
      forall i, t | 0 <= i < |rounds| && t in rounds[i] && HasComma(t)
        ensures t in Last(rounds)
      {
        RemainingExactlyWhen(rounds, t);
      }
    }
    if forall i, t :: 0 <= i < |rounds| && t in rounds[i] && HasComma(t) ==> t in Last(rounds) {
      forall t
        ensures t in Remaining(rounds) <==> t in Last(rounds)
      {
        RemainingExactlyWhen(rounds, t);
      }
    }
  }

  /** A node whose provider id has a comma: when it goes away, it is exported for ever. */
  lemma AProviderIDWithACommaLeaks(cfg: CustomPricing)
    ensures var node := Node("n", false, 1, 1, "S5", "ap", "qcloud:///1/a,b");
            var priced := BreakdownCost(cfg, node, None);
            var t := Labels("n", priced);
            && PricesNodes(cfg, [node], map[], map["n" := priced])
            && PricesNodes(cfg, [], map[], map[])
            && t in Remaining([Live(cfg, map["n" := priced]), Live(cfg, map[])])
            && t !in Last([Live(cfg, map["n" := priced]), Live(cfg, map[])])
  {
    hide BreakdownCost, PricesNodes, Export, HasComma, Remaining, Live, Labels;
    var node := Node("n", false, 1, 1, "S5", "ap", "qcloud:///1/a,b");
    var priced := BreakdownCost(cfg, node, None);
    var t := Labels("n", priced);
    OneNodePriced(cfg, node, priced);
    LabelWithAComma("n", priced, node);
    LiveIs(cfg, map["n" := priced], t);
    LiveIs(cfg, map[], t);
    CommasStay(Live(cfg, map["n" := priced]), Live(cfg, map[]), t);
  }

  lemma OneNodePriced(cfg: CustomPricing, node: Node, priced: PricedNode)
    requires !node.virtual && node.name == "n" && priced == BreakdownCost(cfg, node, None)
    ensures priced.providerID == node.providerID
    ensures PricesNodes(cfg, [node], map[], map["n" := priced]) && PricesNodes(cfg, [], map[], map[])
  {
    hide Float.Times, Float.Plus, Float.Over, HourlyCosts, PricesNodes;
    NothingToPrice(cfg, map[]);
    PricesNodesNext(cfg, [], node, map[], map[]);
    assert [] + [node] == [node] && Cached(map[], node) == None;
  }

  lemma LabelWithAComma(name: string, priced: PricedNode, node: Node)
    requires priced.providerID == node.providerID == "qcloud:///1/a,b"
    ensures HasComma(Labels(name, priced))
  {
    assert node.providerID[13] == ',';
    assert Labels(name, priced)[4] == node.providerID;
  }

  lemma CommasStay(live: Exports, next: Exports, t: Tuple)
    requires t in live && HasComma(t)
    ensures t in Remaining([live, next])
  {
    hide HasComma;
    assert [live, next][0] == live;
    RemainingExactlyWhen([live, next], t);
  }

  // ---- Keys ----

  lemma KeysTellApart(s: Tuple, t: Tuple)
    requires |s| == 5 && |t| == 5 && KeyOf(s) == KeyOf(t) && !HasComma(s)
    ensures s == t
  {
    JoinInjective(s, t, ',');
  }

  /** Splitting a key gives five labels just when none of them has a comma, and then they are the ones joined. */
  lemma KeySplits(t: Tuple)
    requires |t| == 5
    ensures |Split(KeyOf(t), ',')| == 5 <==> !HasComma(t)
    ensures !HasComma(t) ==> Split(KeyOf(t), ',') == t
  {
    SplitUndoesJoin(t, ',');
  }

  // ---- One round on values ----

  ghost predicate Marked(before: Exports, live: Exports, seen: map<string, bool>) {
    && (forall k :: k in seen <==> k in Unmarked(before) || k in Unmarked(live))
    && (forall k :: k in seen ==> (seen[k] <==> k in Unmarked(live)))
  }

  /** Whether the sweep, having still the keys todo to visit, has kept t. */
  ghost predicate Spared(seen: map<string, bool>, todo: set<string>, t: Tuple) {
    HasComma(t) || KeyOf(t) !in seen || seen[KeyOf(t)] || KeyOf(t) in todo
  }

  lemma SweepSparesTheLiving(rounds: seq<Exports>, live: Exports, seen: map<string, bool>, t: Tuple)
    requires Marked(Last(rounds), live, seen) && AreTuples(live) && AreTuples(Last(rounds))
    requires t in Remaining(rounds) + live
    ensures Spared(seen, {}, t) <==> t in Remaining(rounds + [live])
  {
    hide HasComma, KeyOf, Remaining;
    assert (rounds + [live])[..|rounds|] == rounds;
    assert Remaining(rounds + [live]) == (map s | s in Remaining(rounds) && HasComma(s) :: Remaining(rounds)[s]) + live by {
      RemainingNext(rounds, live);
    }
    if t in live {
      assert KeyOf(t) in Unmarked(live);
    } else if !HasComma(t) {
      RemainingExactlyWhen(rounds, t);
      assert KeyOf(t) in Unmarked(Last(rounds));
      if KeyOf(t) in Unmarked(live) {
        var s :| s in live && KeyOf(s) == KeyOf(t);
        KeysTellApart(t, s);
      }
    }
  }

  /** What the sweep has left of the exports, and of the keys, when it has yet to visit todo. */
  ghost function Kept(exports: Exports, seen: map<string, bool>, todo: set<string>): Exports {
    map t | t in exports && Spared(seen, todo, t) :: exports[t]
  }

  ghost function KeptKeys(seen: map<string, bool>, todo: set<string>): map<string, bool> {
    map k | k in seen && (k in todo || seen[k]) :: k in todo && seen[k]
  }

  lemma NothingSweptYet(exports: Exports, seen: map<string, bool>)
    ensures Kept(exports, seen, seen.Keys) == exports && KeptKeys(seen, seen.Keys) == seen
  {
  }

  lemma SweepNext(exports: Exports, seen: map<string, bool>, todo: set<string>, t: Tuple)
    requires KeyOf(t) in todo && todo <= seen.Keys && |t| == 5 && AreTuples(exports)
    ensures var next := Kept(exports, seen, todo - {KeyOf(t)});
            var labels := Split(KeyOf(t), ',');
            next == if !seen[KeyOf(t)] && |labels| == 5 then Kept(exports, seen, todo) - {labels} else Kept(exports, seen, todo)
  {
    KeySplits(t);
    hide KeyOf, HasComma, Split;
    var next, labels := Kept(exports, seen, todo - {KeyOf(t)}), Split(KeyOf(t), ',');
    forall s | s in exports
      ensures s in next <==> s in Kept(exports, seen, todo) && (seen[KeyOf(t)] || |labels| != 5 || s != labels)
    {
      if KeyOf(s) == KeyOf(t) {
        if !HasComma(s) {
          KeysTellApart(s, t);
        } else if !HasComma(t) {
          KeysTellApart(t, s);
        }
      }
    }
  }

  lemma KeysSweepNext(seen: map<string, bool>, todo: set<string>, k: string)
    requires k in todo && todo <= seen.Keys
    ensures k in KeptKeys(seen, todo) && KeptKeys(seen, todo)[k] == seen[k]
    ensures KeptKeys(seen, todo - {k}) == if seen[k] then KeptKeys(seen, todo)[k := false] else KeptKeys(seen, todo) - {k}
  {
  }

  lemma KeysAreJoined(before: Exports, live: Exports, seen: map<string, bool>)
    requires Marked(before, live, seen) && AreTuples(before) && AreTuples(live)
    ensures forall k :: k in seen ==> exists t: Tuple :: |t| == 5 && k == KeyOf(t)
  {
    hide KeyOf;
  }

  lemma SumAreTuples(a: Exports, b: Exports)
    requires AreTuples(a) && AreTuples(b)
    ensures AreTuples(a + b)
  {
  }

  lemma {:induction false} RemainingAreTuples(rounds: seq<Exports>)
    requires AllAreTuples(rounds)
    ensures AreTuples(Remaining(rounds)) && AreTuples(Last(rounds))
  {
    if rounds != [] {
      RemainingAreTuples(rounds[..|rounds| - 1]);
    }
  }

  lemma NothingNewRemains(rounds: seq<Exports>, live: Exports, t: Tuple)
    requires t in Remaining(rounds + [live])
    ensures t in Remaining(rounds) + live && Remaining(rounds + [live])[t] == (Remaining(rounds) + live)[t]
  {
    RemainingNext(rounds, live);
    hide HasComma, Remaining;
  }

  lemma RoundIsDone(rounds: seq<Exports>, live: Exports, seen: map<string, bool>)
    requires Marked(Last(rounds), live, seen) && AreTuples(live) && AreTuples(Last(rounds))
    ensures Kept(Remaining(rounds) + live, seen, {}) == Remaining(rounds + [live])
  {
    hide Remaining, Spared, Marked, AreTuples, HasComma, Last;
    var exports, next := Remaining(rounds) + live, Remaining(rounds + [live]);
    forall t
      ensures t in exports && Spared(seen, {}, t) <==> t in next
      ensures t in next ==> t in exports && next[t] == exports[t]
    {
      if t in exports {
        SweepSparesTheLiving(rounds, live, seen, t);
      }
      if t in next {
        NothingNewRemains(rounds, live, t);
      }
    }
  }

  lemma KeysAreUnmarked(before: Exports, live: Exports, seen: map<string, bool>)
    requires Marked(before, live, seen)
    ensures KeptKeys(seen, {}) == Unmarked(live)
  {
    hide KeyOf;
  }

  lemma NothingMarked(cfg: CustomPricing, before: Exports)
    ensures Live(cfg, map[]) == map[]
    ensures Marked(before, map[], Unmarked(before))
  {
  }

  lemma SetLast(a: Exports, b: Exports, t: Tuple, values: Gauges)
    ensures (a + b)[t := values] == a + b[t := values]
  {
  }

  lemma SumShowsNodes(a: Exports, b: Exports, cfg: CustomPricing, nodes: map<string, PricedNode>)
    requires ShowsNodes(b, cfg, nodes)
    ensures ShowsNodes(a + b, cfg, nodes)
  {
    hide ShowsFields;
  }

  lemma MarkNext(before: Exports, live: Exports, seen: map<string, bool>, t: Tuple, values: Gauges)
    requires Marked(before, live, seen)
    ensures Marked(before, live[t := values], seen[KeyOf(t) := true])
  {
    hide KeyOf;
    forall k
      ensures k in Unmarked(live[t := values]) <==> k in Unmarked(live) || k == KeyOf(t)
    {
      if k == KeyOf(t) {
        assert t in live[t := values];
      } else if k in Unmarked(live) {
        var s :| s in live && KeyOf(s) == k;
        assert s in live[t := values];
      }
    }
  }

  // ---- The emitter ----

  /** What the cost model answers in one round. */
  datatype Answer = Answer(config: Result<CustomPricing>, nodes: Result<map<string, PricedNode>>) {
    predicate Good() { config.Ok? && nodes.Ok? }
  }

  /** The rounds in which both answers were good. */
  function Successful(answers: seq<Answer>): seq<Exports> {
    if answers == [] then []
    else
      var last := answers[|answers| - 1];
      var before := Successful(answers[..|answers| - 1]);
      if last.Good() then before + [Live(last.config.value, last.nodes.value)] else before
  }

  lemma LiveRemains(rounds: seq<Exports>, live: Exports)
    ensures forall t :: t in live ==> t in Remaining(rounds + [live]) && Remaining(rounds + [live])[t] == live[t]
  {
    RemainingNext(rounds, live);
  }

  lemma StillShowsNodes(rounds: seq<Exports>, cfg: CustomPricing, nodes: map<string, PricedNode>)
    ensures ShowsNodes(Remaining(rounds + [Live(cfg, nodes)]), cfg, nodes)
  {
    LiveShowsNodes(cfg, nodes);
    hide Live, Remaining, ShowsFields;
    LiveRemains(rounds, Live(cfg, nodes));
  }

  lemma NextRound(rounds: seq<Exports>, cfg: CustomPricing, nodes: map<string, PricedNode>)
    requires AllAreTuples(rounds)
    ensures var next := rounds + [Live(cfg, nodes)];
            && AllAreTuples(next) && Last(next) == Live(cfg, nodes)
            && ShowsNodes(Remaining(next), cfg, nodes) && OnlyNodes(Last(next), nodes)
  {
    hide Live, Remaining, ShowsNodes, OnlyNodes, AreTuples;
    LiveShowsNodes(cfg, nodes);
    StillShowsNodes(rounds, cfg, nodes);
    LiveAreTuples(cfg, nodes);
  }

  /** The i-th answer is the last good one. */
  ghost predicate IsLastGood(answers: seq<Answer>, i: nat) {
    && i < |answers| && answers[i].Good()
    && forall j :: i < j < |answers| ==> !answers[j].Good()
  }

  /** The nodes of the last good answer are exported. */
  ghost predicate ShowsLastGood(e: Exports, answers: seq<Answer>) {
    forall i: nat :: IsLastGood(answers, i) ==>
      i < |answers| && answers[i].Good() && ShowsNodes(e, answers[i].config.value, answers[i].nodes.value)
  }

  lemma {:induction false} SuccessfulShowLastGood(answers: seq<Answer>)
    ensures ShowsLastGood(Remaining(Successful(answers)), answers)
  {
    hide Live, Remaining, ShowsNodes;
    if answers != [] {
      var n := |answers| - 1;
      var front := answers[..n];
      if answers[n].Good() {
        StillShowsNodes(Successful(front), answers[n].config.value, answers[n].nodes.value);
        assert forall i: nat :: IsLastGood(answers, i) ==> i == n;
      } else {
        SuccessfulShowLastGood(front);
        assert forall i: nat :: IsLastGood(answers, i) ==> IsLastGood(front, i) && front[i] == answers[i];
      }
    }
  }

  class CostMetricEmitter {
    var nodesLastSeen: map<string, bool>
    var nodeCpuCost: map<Tuple, Float>
    var nodeRamCost: map<Tuple, Float>
    var nodeTotalCost: map<Tuple, Float>
    ghost var rounds: seq<Exports>

    ghost predicate SameSeries()
      reads this`nodeCpuCost, this`nodeRamCost, this`nodeTotalCost
    {
      nodeCpuCost.Keys == nodeRamCost.Keys == nodeTotalCost.Keys
    }

    ghost function Exporting(): (e: Exports)
      reads this`nodeCpuCost, this`nodeRamCost, this`nodeTotalCost
      requires SameSeries()
    {
      map t | t in nodeCpuCost :: Gauges(nodeCpuCost[t], nodeRamCost[t], nodeTotalCost[t])
    }

    /** The vectors hold what the rounds so far have left, and the last round's keys are remembered, unmarked. */
    ghost predicate InStep()
      reads this
    {
      && SameSeries()
      && Exporting() == Remaining(rounds)
      && nodesLastSeen == Unmarked(Last(rounds))
      && AllAreTuples(rounds)
    }

    constructor ()
      ensures InStep() && rounds == []
    {
      nodesLastSeen, nodeCpuCost, nodeRamCost, nodeTotalCost, rounds := map[], map[], map[], map[], [];
    }

    method Set(labels: Tuple, values: Gauges)
      requires SameSeries()
      modifies this`nodeCpuCost, this`nodeRamCost, this`nodeTotalCost
      ensures SameSeries() && Exporting() == old(Exporting())[labels := values]
    {
      nodeCpuCost := nodeCpuCost[labels := values.cpuCost];
      nodeRamCost := nodeRamCost[labels := values.ramCost];
      nodeTotalCost := nodeTotalCost[labels := values.total];
    }

    /** DeleteLabelValues on the three vectors: with a wrong number of labels it fails and changes nothing. */
    method DeleteLabelValues(labels: seq<string>)
      requires SameSeries()
      modifies this`nodeCpuCost, this`nodeRamCost, this`nodeTotalCost
      ensures SameSeries()
      ensures Exporting() == if |labels| == 5 then old(Exporting()) - {labels} else old(Exporting())
    {
      if |labels| == 5 {
        nodeTotalCost := nodeTotalCost - {labels};
        nodeCpuCost := nodeCpuCost - {labels};
        nodeRamCost := nodeRamCost - {labels};
      }
    }

    method Mark(cfg: CustomPricing, nodes: map<string, PricedNode>)
      requires InStep()
      modifies this`nodesLastSeen, this`nodeCpuCost, this`nodeRamCost, this`nodeTotalCost
      ensures SameSeries() && Exporting() == old(Exporting()) + Live(cfg, nodes)
      ensures Marked(Last(rounds), Live(cfg, nodes), nodesLastSeen)
      ensures ShowsNodes(Exporting(), cfg, nodes)
    {
      LiveShowsNodes(cfg, nodes);
      hide KeyOf, Labels, Export, Remaining, Live, Marked, Unmarked, ShowsNodes;
      hide CostMetricEmitter.Exporting, CostMetricEmitter.SameSeries;
      assert Live(cfg, map[]) == map[] && Marked(Last(rounds), map[], nodesLastSeen) by {
        NothingMarked(cfg, Last(rounds));
      }
      var names := nodes.Keys;
      ghost var done: map<string, PricedNode> := map[];
      while names != {}
        invariant names <= nodes.Keys && done.Keys == nodes.Keys - names
        invariant forall n :: n in done ==> done[n] == nodes[n]
        invariant SameSeries() && Exporting() == old(Exporting()) + Live(cfg, done)
        invariant Marked(Last(rounds), Live(cfg, done), nodesLastSeen)
        decreases names
      {
        var name :| name in names;
        var labels := Labels(name, nodes[name]);
        MarkNext(Last(rounds), Live(cfg, done), nodesLastSeen, labels, Export(cfg, nodes[name]));
        Set(labels, Export(cfg, nodes[name]));
        nodesLastSeen := nodesLastSeen[KeyOf(labels) := true];
        names := names - {name};
        LiveNext(cfg, done, name, nodes[name]);
        SetLast(old(Exporting()), Live(cfg, done), labels, Export(cfg, nodes[name]));
        done := done[name := nodes[name]];
      }
      assert done == nodes;
      SumShowsNodes(old(Exporting()), Live(cfg, nodes), cfg, nodes);
    }

    method Sweep()
      requires SameSeries() && AreTuples(Exporting())
      requires forall k :: k in nodesLastSeen ==> exists t: Tuple :: |t| == 5 && k == KeyOf(t)
      modifies this`nodesLastSeen, this`nodeCpuCost, this`nodeRamCost, this`nodeTotalCost
      ensures SameSeries()
      ensures Exporting() == Kept(old(Exporting()), old(nodesLastSeen), {})
      ensures nodesLastSeen == KeptKeys(old(nodesLastSeen), {})
    {
      hide KeyOf, HasComma, Kept, KeptKeys;
      ghost var seen, exports := nodesLastSeen, Exporting();
      NothingSweptYet(exports, seen);
      var todo := nodesLastSeen.Keys;
      while todo != {}
        invariant todo <= seen.Keys && SameSeries()
        invariant Exporting() == Kept(exports, seen, todo)
        invariant nodesLastSeen == KeptKeys(seen, todo)
        decreases todo
      {
        var labelString :| labelString in todo;
        ghost var t: Tuple :| |t| == 5 && labelString == KeyOf(t);
        SweepNext(exports, seen, todo, t);
        KeysSweepNext(seen, todo, labelString);
        if !nodesLastSeen[labelString] {
          var labels := Split(labelString, ',');
          DeleteLabelValues(labels);
          nodesLastSeen := nodesLastSeen - {labelString};
        } else {
          nodesLastSeen := nodesLastSeen[labelString := false];
        }
        todo := todo - {labelString};
      }
    }

    /** One round: a failed answer changes nothing. */
    method Round(answer: Answer)
      requires InStep()
      modifies this
      ensures InStep()
      ensures rounds == if answer.Good() then old(rounds) + [Live(answer.config.value, answer.nodes.value)] else old(rounds)
      ensures answer.Good() ==> ShowsNodes(Exporting(), answer.config.value, answer.nodes.value)
      ensures answer.Good() ==> OnlyNodes(Last(rounds), answer.nodes.value)
    {
      if answer.config.Err? {
        return;
      }
      if answer.nodes.Err? {
        return;
      }
      hide Live, Remaining, Last, Unmarked, CostMetricEmitter.Exporting, CostMetricEmitter.SameSeries;
      hide AllAreTuples, ShowsNodes, OnlyNodes;
      NextRound(rounds, answer.config.value, answer.nodes.value);
      MarkAndSweep(answer.config.value, answer.nodes.value);
      rounds := rounds + [Live(answer.config.value, answer.nodes.value)];
    }

    /** The two loops of a round. */
    method MarkAndSweep(cfg: CustomPricing, nodes: map<string, PricedNode>)
      requires InStep()
      modifies this`nodesLastSeen, this`nodeCpuCost, this`nodeRamCost, this`nodeTotalCost
      ensures SameSeries() && Exporting() == Remaining(rounds + [Live(cfg, nodes)])
      ensures nodesLastSeen == Unmarked(Live(cfg, nodes))
    {
      hide Live, Remaining, KeyOf, Kept, KeptKeys, Unmarked, CostMetricEmitter.Exporting, Marked, AreTuples, ShowsNodes;
      LiveAreTuples(cfg, nodes);
      RemainingAreTuples(rounds);
      Mark(cfg, nodes);
      ghost var live := Live(cfg, nodes);
      RoundIsDone(rounds, live, nodesLastSeen);
      KeysAreUnmarked(Last(rounds), live, nodesLastSeen);
      KeysAreJoined(Last(rounds), live, nodesLastSeen);
      SumAreTuples(Remaining(rounds), live);
      Sweep();
    }

    /** Start, stopped after the given answers: whatever fails in between, the vectors hold what the successful rounds
        have left. */
    method Start(answers: seq<Answer>)
      requires InStep() && rounds == []
      modifies this
      ensures InStep() && rounds == Successful(answers)
      ensures ShowsLastGood(Exporting(), answers)
    {
      SuccessfulShowLastGood(answers);
      hide ShowsLastGood, ShowsNodes, OnlyNodes;
      var i := 0;
      while i < |answers|
        invariant 0 <= i <= |answers|
        invariant InStep() && rounds == Successful(answers[..i])
      {
        Round(answers[i]);
        assert answers[..i + 1][..i] == answers[..i];
        i := i + 1;
      }
      assert answers[..i] == answers;
    }
  }
}
