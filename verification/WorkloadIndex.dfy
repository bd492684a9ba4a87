/** The index of workloads, built from the pods (initWorkloadsSpec, pkg/cost-comparator/comparator.go). */
module WorkloadIndex {
  import opened Wrappers
  import opened Text
  import opened Owner

  /** What a workload costs depends on its pod template, on the number of pods and on the root that owns them. */
  datatype PodSpec = PodSpec(template: string, goodsNum: nat, workload: Option<Object>)

  datatype Pod = Pod(obj: Object, spec: PodSpec)

  datatype Key = Key(kind: string, namespace: string, name: string)

  type Workloads = map<Key, PodSpec>

  /** The answer to the replica lookup made for the pod with the given number and its root. */
  type Replicas = (nat, Object) -> Result<int>

  function KeyOf(root: Object): Key {
    Key(root.kind, root.namespace, root.name)
  }

  predicate IsPod(kind: string) { ToLower(kind) == "pod" }

  /** Jobs are run once, and cannot be estimated. */
  predicate IsJob(kind: string) { ToLower(kind) == "cronjob" || ToLower(kind) == "job" }

  /** uint64 of an int32. */
  function Unsigned64(n: int): nat {
    n % 0x1_0000_0000_0000_0000
  }

  /** The spec that the i-th pod contributes for its root: replicas gives the answer to the lookup made for it. */
  function Contribution(pod: Pod, i: nat, root: Object, replicas: Replicas): Option<PodSpec> {
    if IsPod(root.kind) then Some(pod.spec.(workload := Some(root)))
    else if IsJob(root.kind) then None
    else
      var desired := replicas(i, root);
      if desired.Err? then None else Some(pod.spec.(goodsNum := Unsigned64(desired.value), workload := Some(root)))
  }

  ghost predicate AllEnd(server: Server, pods: seq<Pod>) {
    forall p :: p in pods ==> exists n: nat :: Ends(server, p.obj, n)
  }

  /** The spec is the pod's own, for its root. The number of pods is its own when it is its own root. For other roots it
      is the replicas looked up, as an unsigned 64-bit number; and those that are jobs, or whose lookup fails, get none. */
  ghost predicate GivesSpec(pod: Pod, i: nat, root: Object, replicas: Replicas, spec: PodSpec) {
    && spec.template == pod.spec.template && spec.workload == Some(root)
    && if Spells(root.kind, "pod") then spec.goodsNum == pod.spec.goodsNum
       else
         && !Spells(root.kind, "job") && !Spells(root.kind, "cronjob")
         && replicas(i, root).Ok?
         && spec.goodsNum < 0x1_0000_0000_0000_0000
         && (spec.goodsNum - replicas(i, root).value) % 0x1_0000_0000_0000_0000 == 0
  }

  lemma SameRemainder(g: nat, n: int)
    ensures g == Unsigned64(n) <==> g < 0x1_0000_0000_0000_0000 && (g - n) % 0x1_0000_0000_0000_0000 == 0
  {
  }

  lemma ContributionIs(pod: Pod, i: nat, root: Object, replicas: Replicas, spec: PodSpec)
    ensures Contribution(pod, i, root, replicas) == Some(spec) <==> GivesSpec(pod, i, root, replicas, spec)
  {
    LowerExactlyWhen(root.kind, "pod");
    LowerExactlyWhen(root.kind, "job");
    LowerExactlyWhen(root.kind, "cronjob");
    hide Spells, ToLower, Unsigned64;
    if replicas(i, root).Ok? {
      SameRemainder(spec.goodsNum, replicas(i, root).value);
    }
  }

  /** The root is at the end of the pod's chain of owners, and the pod has a spec for it. */
  ghost predicate Contributes(server: Server, replicas: Replicas, pods: seq<Pod>, i: nat, key: Key, spec: PodSpec) {
    && i < |pods|
    && exists root: Object ::
         && root.owners == [] && OnChain(server, pods[i].obj, root)
         && key == Key(root.kind, root.namespace, root.name)
         && GivesSpec(pods[i], i, root, replicas, spec)
  }

  ghost predicate ContributesFirst(server: Server, replicas: Replicas, pods: seq<Pod>, i: nat, key: Key,
                                   spec: PodSpec) {
    && Contributes(server, replicas, pods, i, key, spec)
    && forall j, other :: 0 <= j < i ==> !Contributes(server, replicas, pods, j, key, other)
  }

  /** There is an entry when some pod has a spec for the key, and it is the spec of the first one that has. */
  ghost predicate IndexedAs(server: Server, replicas: Replicas, pods: seq<Pod>, key: Key, entry: Option<PodSpec>) {
    match entry
    case None => forall i: nat, spec :: !Contributes(server, replicas, pods, i, key, spec)
    case Some(spec) => exists i: nat :: ContributesFirst(server, replicas, pods, i, key, spec)
  }

  ghost predicate IsIndex(server: Server, replicas: Replicas, pods: seq<Pod>, workloads: Workloads) {
    forall key :: IndexedAs(server, replicas, pods, key, Get(workloads, key))
  }

  /** The index is determined by the pods and the answers of the servers. */
  lemma IndexIsUnique(server: Server, replicas: Replicas, pods: seq<Pod>, a: Workloads, b: Workloads)
    requires IsIndex(server, replicas, pods, a) && IsIndex(server, replicas, pods, b)
    requires AllEnd(server, pods)
    ensures a == b
  {
    hide IndexedAs, AllEnd;
    forall key
      ensures Get(a, key) == Get(b, key)
    {
      EntryIsUnique(server, replicas, pods, key, Get(a, key), Get(b, key));
    }
    SameEntries(a, b);
  }

  lemma SameEntries(a: Workloads, b: Workloads)
    requires forall key :: Get(a, key) == Get(b, key)
    ensures a == b
  {
    assert forall key :: key in a ==> Get(b, key) == Some(a[key]);
    assert forall key :: key in b ==> Get(a, key) == Some(b[key]);
  }

  lemma EntryIsUnique(server: Server, replicas: Replicas, pods: seq<Pod>, key: Key, a: Option<PodSpec>,
                      b: Option<PodSpec>)
    requires IndexedAs(server, replicas, pods, key, a) && IndexedAs(server, replicas, pods, key, b) && AllEnd(server, pods)
    ensures a == b
  {
    hide Contributes, AllEnd;
    if a.Some? && b.Some? {
      var i: nat :| ContributesFirst(server, replicas, pods, i, key, a.value);
      var j: nat :| ContributesFirst(server, replicas, pods, j, key, b.value);
      assert i == j;
      OneContribution(server, replicas, pods, i, key, a.value, b.value);
    }
  }

  lemma OneContribution(server: Server, replicas: Replicas, pods: seq<Pod>, i: nat, key: Key, a: PodSpec, b: PodSpec)
    requires AllEnd(server, pods)
    requires Contributes(server, replicas, pods, i, key, a) && Contributes(server, replicas, pods, i, key, b)
    ensures a == b
  {
    hide Contribution, KeyOf, Contributes;
    assert pods[i] in pods by {
      ContributesInRange(server, replicas, pods, i, key, a);
    }
    var n: nat :| Ends(server, pods[i].obj, n);
    ContributesAt(server, replicas, pods, i, n, key, a);
    ContributesAt(server, replicas, pods, i, n, key, b);
  }

  lemma ContributesInRange(server: Server, replicas: Replicas, pods: seq<Pod>, i: nat, key: Key, a: PodSpec)
    requires Contributes(server, replicas, pods, i, key, a)
    ensures i < |pods|
  {
  }

  /** Pods whose root cannot be found, jobs, and pods whose replica lookup fails contribute nothing. */
  method InitWorkloadsSpec(server: Server, replicas: Replicas, pods: seq<Pod>) returns (workloads: Workloads)
    requires AllEnd(server, pods)
    ensures IsIndex(server, replicas, pods, workloads)
  {
    hide IsIndex, Contribution, KeyOf, FindRootOwner;
    workloads := map[];
    EmptyIndex(server, replicas);
    var i := 0;
    while i < |pods|
      invariant 0 <= i <= |pods|
      invariant IsIndex(server, replicas, pods[..i], workloads)
    {
      var pod := pods[i];
      assert pods[..i + 1] == pods[..i] + [pod];
      ghost var n: nat :| Ends(server, pod.obj, n);
      var root := FindRootOwner(server, pod.obj, n);
      IndexNext(server, replicas, pods[..i], pod, workloads, n);
      i := i + 1;
      if root.Err? {
        continue;
      }
      var nn := KeyOf(root.value);
      if nn in workloads {
        continue;
      }
      var podSpec := pod.spec;
      if !IsPod(root.value.kind) {
        if IsJob(root.value.kind) {
          ContributionCases(pod, i - 1, root.value, replicas);
          continue;
        }
        var desiredReplicas := replicas(i - 1, root.value);
        ContributionCases(pod, i - 1, root.value, replicas);
        if desiredReplicas.Err? {
          continue;
        }
        podSpec := podSpec.(goodsNum := Unsigned64(desiredReplicas.value));
      }
      ContributionCases(pod, i - 1, root.value, replicas);
      podSpec := podSpec.(workload := Some(root.value));
      workloads := workloads[nn := podSpec];
    }
    assert pods[..i] == pods;
  }

  lemma ContributionCases(pod: Pod, i: nat, root: Object, replicas: Replicas)
    ensures Contribution(pod, i, root, replicas) ==
            if IsPod(root.kind) then Some(pod.spec.(workload := Some(root)))
            else if IsJob(root.kind) || replicas(i, root).Err? then None
            else Some(pod.spec.(goodsNum := Unsigned64(replicas(i, root).value), workload := Some(root)))
  {
  }

  lemma EmptyIndex(server: Server, replicas: Replicas)
    ensures IsIndex(server, replicas, [], map[])
  {
  }

  function SpecFor(server: Server, replicas: Replicas, pod: Pod, i: nat, ghost n: nat, key: Key): Option<PodSpec>
    requires Ends(server, pod.obj, n)
  {
    var root := FindRootOwner(server, pod.obj, n);
    if root.Ok? && KeyOf(root.value) == key then Contribution(pod, i, root.value, replicas) else None
  }

  lemma ContributesAt(server: Server, replicas: Replicas, pods: seq<Pod>, i: nat, n: nat, key: Key, spec: PodSpec)
    requires i < |pods| && Ends(server, pods[i].obj, n)
    ensures Contributes(server, replicas, pods, i, key, spec) <==> SpecFor(server, replicas, pods[i], i, n, key) == Some(spec)
  {
    hide Contribution, GivesSpec, OnChain;
    var found := FindRootOwner(server, pods[i].obj, n);
    forall root: Object
      ensures root.owners == [] && OnChain(server, pods[i].obj, root) <==> found == Ok(root)
      ensures Contribution(pods[i], i, root, replicas) == Some(spec) <==> GivesSpec(pods[i], i, root, replicas, spec)
    {
      RootExactlyWhen(server, pods[i].obj, n, root);
      ContributionIs(pods[i], i, root, replicas, spec);
    }
  }

  lemma IndexedNext(server: Server, replicas: Replicas, pods: seq<Pod>, pod: Pod, n: nat, key: Key,
                    entry: Option<PodSpec>)
    requires Ends(server, pod.obj, n) && IndexedAs(server, replicas, pods, key, entry)
    ensures IndexedAs(server, replicas, pods + [pod], key,
                      if entry.Some? then entry else SpecFor(server, replicas, pod, |pods|, n, key))
  {
    var more, last := pods + [pod], SpecFor(server, replicas, pod, |pods|, n, key);
    forall i: nat, spec
      ensures i < |pods| ==> (Contributes(server, replicas, more, i, key, spec) <==> Contributes(server, replicas, pods, i, key, spec))
      ensures i == |pods| ==> (Contributes(server, replicas, more, i, key, spec) <==> last == Some(spec))
    {
      if i < |pods| {
        assert more[i] == pods[i];
      } else if i == |pods| {
        ContributesAt(server, replicas, more, i, n, key, spec);
      }
    }
    assert forall i: nat, spec :: i > |pods| ==> !Contributes(server, replicas, more, i, key, spec);
    hide Contributes, SpecFor;
    if entry.Some? {
      var i: nat :| ContributesFirst(server, replicas, pods, i, key, entry.value);
      assert i < |pods|;
      assert ContributesFirst(server, replicas, more, i, key, entry.value);
    } else if last.Some? {
      assert ContributesFirst(server, replicas, more, |pods|, key, last.value);
    }
  }

  /** The index with one more pod. */
  lemma IndexNext(server: Server, replicas: Replicas, pods: seq<Pod>, pod: Pod, workloads: Workloads, n: nat)
    requires Ends(server, pod.obj, n) && IsIndex(server, replicas, pods, workloads)
    ensures var root := FindRootOwner(server, pod.obj, n);
            IsIndex(server, replicas, pods + [pod],
                    if root.Err? || KeyOf(root.value) in workloads then workloads
                    else
                      var spec := Contribution(pod, |pods|, root.value, replicas);
                      if spec.None? then workloads else workloads[KeyOf(root.value) := spec.value])
  {
    hide IndexedAs, KeyOf, Contribution, FindRootOwner;
    var root := FindRootOwner(server, pod.obj, n);
    var next := if root.Err? || KeyOf(root.value) in workloads then workloads
      else
        var spec := Contribution(pod, |pods|, root.value, replicas);
        if spec.None? then workloads else workloads[KeyOf(root.value) := spec.value];
    forall key
      ensures IndexedAs(server, replicas, pods + [pod], key, Get(next, key))
    {
      assert IndexedAs(server, replicas, pods, key, Get(workloads, key));
      IndexedNext(server, replicas, pods, pod, n, key, Get(workloads, key));
    }
  }
}
