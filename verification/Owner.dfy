/** Following first owners up to the root (pkg/util/owner/owner.go). */
module Owner {
  import opened Wrappers

  datatype OwnerRef = OwnerRef(apiVersion: string, kind: string, name: string)

  datatype Object = Object(apiVersion: string, kind: string, namespace: string, name: string, owners: seq<OwnerRef>)

  /** The API server. mappings parses the API version and asks for the resources of the kind; get fetches an object
      of a resource by namespace and name. */
  datatype Server = Server(
    mappings: (string, string) -> Result<seq<string>>,
    get: (string, string, string) -> Result<Object>)

  /** The object under the first resource that has it. */
  function GetFirst(server: Server, resources: seq<string>, namespace: string, name: string): Result<Object> {
    if resources == [] then Err("not found")
    else
      var ret := server.get(resources[0], namespace, name);
      if ret.Ok? then ret else GetFirst(server, resources[1..], namespace, name)
  }

  function FirstOwner(server: Server, obj: Object): Result<Object>
    requires obj.owners != []
  {
    var owner := obj.owners[0];
    var resources := server.mappings(owner.apiVersion, owner.kind);
    if resources.Err? then Err(resources.error) else GetFirst(server, resources.value, obj.namespace, owner.name)
  }

  /** The i-th resource is the first under which the server has an object of that name, and next is that object. */
  ghost predicate FoundAt(server: Server, resources: seq<string>, namespace: string, name: string, i: nat, next: Object) {
    && i < |resources| && server.get(resources[i], namespace, name) == Ok(next)
    && forall j :: 0 <= j < i ==> server.get(resources[j], namespace, name).Err?
  }

  /** next is the object that the first owner reference of obj names, looked for in the namespace of obj. */
  ghost predicate IsFirstOwner(server: Server, obj: Object, next: Object) {
    && obj.owners != []
    && server.mappings(obj.owners[0].apiVersion, obj.owners[0].kind).Ok?
    && exists i: nat ::
         FoundAt(server, server.mappings(obj.owners[0].apiVersion, obj.owners[0].kind).value,
                 obj.namespace, obj.owners[0].name, i, next)
  }

  lemma {:induction false} GetFirstFinds(server: Server, resources: seq<string>, namespace: string, name: string,
                                         next: Object)
    ensures GetFirst(server, resources, namespace, name) == Ok(next) <==>
            (exists i: nat :: FoundAt(server, resources, namespace, name, i, next))
  {
    if resources != [] && server.get(resources[0], namespace, name).Err? {
      var rest := resources[1..];
      GetFirstFinds(server, rest, namespace, name, next);
      if i: nat :| FoundAt(server, resources, namespace, name, i, next) {
        assert FoundAt(server, rest, namespace, name, i - 1, next);
      }
      if i: nat :| FoundAt(server, rest, namespace, name, i, next) {
        assert forall j :: 0 < j <= i ==> resources[j] == rest[j - 1];
        assert FoundAt(server, resources, namespace, name, i + 1, next);
      }
    } else if resources != [] && server.get(resources[0], namespace, name) == Ok(next) {
      assert FoundAt(server, resources, namespace, name, 0, next);
    }
  }

  lemma FirstOwnerExactlyWhen(server: Server, obj: Object, next: Object)
    requires obj.owners != []
    ensures FirstOwner(server, obj) == Ok(next) <==> IsFirstOwner(server, obj, next)
  {
    hide GetFirst, FoundAt;
    var resources := server.mappings(obj.owners[0].apiVersion, obj.owners[0].kind);
    if resources.Ok? {
      GetFirstFinds(server, resources.value, obj.namespace, obj.owners[0].name, next);
    }
  }

  /** A chain of first owners from obj to x. */
  ghost predicate Leads(server: Server, obj: Object, x: Object, chain: seq<Object>) {
    && chain != [] && chain[0] == obj && chain[|chain| - 1] == x
    && forall i :: 0 <= i < |chain| - 1 ==> IsFirstOwner(server, chain[i], chain[i + 1])
  }

  ghost predicate OnChain(server: Server, obj: Object, x: Object) {
    exists chain :: Leads(server, obj, x, chain)
  }

  lemma ChainIsOwnersChain(server: Server, obj: Object, x: Object)
    ensures OnChain(server, obj, x) <==>
            x == obj || (obj.owners != [] && FirstOwner(server, obj).Ok? && OnChain(server, FirstOwner(server, obj).value, x))
  {
    hide FirstOwner, IsFirstOwner;
    assert Leads(server, obj, obj, [obj]);
    if chain :| Leads(server, obj, x, chain) && x != obj {
      FirstOwnerIs(server, obj, chain[1]);
      assert Leads(server, chain[1], x, chain[1..]);
    }
    if obj.owners != [] && FirstOwner(server, obj).Ok? {
      var owner := FirstOwner(server, obj).value;
      FirstOwnerExactlyWhen(server, obj, owner);
      if chain :| Leads(server, owner, x, chain) {
        assert Leads(server, obj, x, [obj] + chain);
      }
    }
  }

  lemma FirstOwnerIs(server: Server, obj: Object, next: Object)
    requires IsFirstOwner(server, obj, next)
    ensures obj.owners != [] && FirstOwner(server, obj) == Ok(next)
  {
    FirstOwnerExactlyWhen(server, obj, next);
  }

  lemma RootsAbove(server: Server, obj: Object)
    ensures forall x :: OnChain(server, obj, x) <==>
              x == obj || (obj.owners != [] && FirstOwner(server, obj).Ok? && OnChain(server, FirstOwner(server, obj).value, x))
  {
    forall x
      ensures OnChain(server, obj, x) <==>
              x == obj || (obj.owners != [] && FirstOwner(server, obj).Ok? && OnChain(server, FirstOwner(server, obj).value, x))
    {
      ChainIsOwnersChain(server, obj, x);
    }
  }

  /** Whether the search ends after at most n steps up. */
  ghost predicate Ends(server: Server, obj: Object, n: nat)
    decreases n
  {
    obj.owners == [] || FirstOwner(server, obj).Err? || (n > 0 && Ends(server, FirstOwner(server, obj).value, n - 1))
  }

  function FindRootOwner(server: Server, obj: Object, ghost n: nat): (r: Result<Object>)
    requires Ends(server, obj, n)
    ensures forall root :: r == Ok(root) <==> root.owners == [] && OnChain(server, obj, root)
    decreases n
  {
    RootsAbove(server, obj);
    if obj.owners != [] then
      var owner := FirstOwner(server, obj);
      if owner.Err? then Err(owner.error) else FindRootOwner(server, owner.value, n - 1)
    else Ok(obj)
  }

  // ---- The chain of owners ----

  /** The object k steps up, if the chain goes that far. */
  ghost function Up(server: Server, obj: Object, k: nat): Option<Object>
    decreases k
  {
    if k == 0 then Some(obj)
    else if obj.owners == [] || FirstOwner(server, obj).Err? then None
    else Up(server, FirstOwner(server, obj).value, k - 1)
  }

  lemma {:induction false} UpUp(server: Server, obj: Object, j: nat, k: nat)
    ensures Up(server, obj, j + k) ==
            if Up(server, obj, j).None? then None else Up(server, Up(server, obj, j).value, k)
    decreases j
  {
    if j > 0 && obj.owners != [] && FirstOwner(server, obj).Ok? {
      UpUp(server, FirstOwner(server, obj).value, j - 1, k);
      assert j - 1 + k == j + k - 1;
    }
  }

  lemma {:induction false} EndsExactlyWhen(server: Server, obj: Object, n: nat)
    ensures Ends(server, obj, n) <==> Up(server, obj, n + 1).None?
    decreases n
  {
    if obj.owners != [] && FirstOwner(server, obj).Ok? {
      if n > 0 {
        EndsExactlyWhen(server, FirstOwner(server, obj).value, n - 1);
      } else {
        assert Up(server, obj, 1) == Up(server, FirstOwner(server, obj).value, 0);
      }
    }
  }

  /** Every object on the chain has the same root, or fails in the same way; a root is its own root. */
  lemma {:induction false} RootIsShared(server: Server, obj: Object, n: nat, k: nat)
    requires Ends(server, obj, n) && Up(server, obj, k).Some?
    ensures Ends(server, Up(server, obj, k).value, n)
    ensures FindRootOwner(server, Up(server, obj, k).value, n) == FindRootOwner(server, obj, n)
    decreases k
  {
    if k > 0 {
      var owner := FirstOwner(server, obj).value;
      assert n > 0 && Ends(server, owner, n - 1);
      RootIsShared(server, owner, n - 1, k - 1);
      MoreSteps(server, Up(server, obj, k).value, n - 1, n);
    }
  }

  lemma {:induction false} MoreSteps(server: Server, obj: Object, m: nat, n: nat)
    requires Ends(server, obj, m) && m <= n
    ensures Ends(server, obj, n) && FindRootOwner(server, obj, n) == FindRootOwner(server, obj, m)
    decreases m
  {
    if obj.owners != [] && FirstOwner(server, obj).Ok? {
      MoreSteps(server, FirstOwner(server, obj).value, m - 1, n - 1);
    }
  }

  /** The k-th object up is the end of the chain of k first owners, if there is one. */
  lemma {:induction false} UpExactlyWhen(server: Server, obj: Object, k: nat, x: Object)
    ensures Up(server, obj, k) == Some(x) <==> (exists chain :: Leads(server, obj, x, chain) && |chain| == k + 1)
    decreases k
  {
    hide FirstOwner, IsFirstOwner;
    if k == 0 {
      assert Leads(server, obj, obj, [obj]);
    } else {
      if chain :| Leads(server, obj, x, chain) && |chain| == k + 1 {
        FirstOwnerIs(server, obj, chain[1]);
        UpExactlyWhen(server, chain[1], k - 1, x);
        assert Leads(server, chain[1], x, chain[1..]);
      }
      if obj.owners != [] && FirstOwner(server, obj).Ok? {
        var owner := FirstOwner(server, obj).value;
        FirstOwnerExactlyWhen(server, obj, owner);
        UpExactlyWhen(server, owner, k - 1, x);
        if chain :| Leads(server, owner, x, chain) && |chain| == k {
          assert Leads(server, obj, x, [obj] + chain);
        }
      }
    }
  }

  /** The answer is the only object on the chain without owners, if there is one. */
  lemma RootExactlyWhen(server: Server, obj: Object, n: nat, root: Object)
    requires Ends(server, obj, n)
    ensures FindRootOwner(server, obj, n) == Ok(root) <==> root.owners == [] && OnChain(server, obj, root)
  {
  }

  // ---- Termination ----

  ghost predicate Repeats(server: Server, obj: Object, i: nat, j: nat) {
    i < j && Up(server, obj, i).Some? && Up(server, obj, i) == Up(server, obj, j)
  }

  lemma {:induction false} CycleNeverEnds(server: Server, obj: Object, i: nat, j: nat, n: nat)
    requires Repeats(server, obj, i, j)
    ensures Up(server, obj, n).Some?
    decreases n
  {
    if n >= j {
      var m := n - (j - i);
      CycleNeverEnds(server, obj, i, j, m);
      UpUp(server, obj, i, n - j);
      UpUp(server, obj, j, n - j);
      assert i + (n - j) == m && j + (n - j) == n;
    } else {
      UpUp(server, obj, n, j - n);
    }
  }

  /** The objects from the first step up to the n-th. */
  ghost function Passed(server: Server, obj: Object, n: nat): set<Object>
    requires forall k :: 0 <= k <= n ==> Up(server, obj, k).Some?
  {
    set k | 1 <= k <= n :: Up(server, obj, k).value
  }

  lemma {:induction false} PassedCounts(server: Server, obj: Object, n: nat)
    requires forall k :: 0 <= k <= n ==> Up(server, obj, k).Some?
    requires forall i, j :: !Repeats(server, obj, i, j)
    ensures |Passed(server, obj, n)| == n
  {
    hide Up;
    if n > 0 {
      PassedCounts(server, obj, n - 1);
      var last := Up(server, obj, n).value;
      forall k | 1 <= k <= n - 1
        ensures Up(server, obj, k).value != last
      {
        assert !Repeats(server, obj, k, n);
      }
      assert Passed(server, obj, n) == Passed(server, obj, n - 1) + {last};
    }
  }

  ghost predicate Stored(server: Server, objects: set<Object>) {
    forall resource, namespace, name ::
      server.get(resource, namespace, name).Ok? ==> server.get(resource, namespace, name).value in objects
  }

  lemma {:induction false} FirstIsStored(server: Server, objects: set<Object>, resources: seq<string>,
                                         namespace: string, name: string)
    requires Stored(server, objects) && GetFirst(server, resources, namespace, name).Ok?
    ensures GetFirst(server, resources, namespace, name).value in objects
  {
    if server.get(resources[0], namespace, name).Err? {
      FirstIsStored(server, objects, resources[1..], namespace, name);
    }
  }

  lemma {:induction false} PassedAreStored(server: Server, objects: set<Object>, obj: Object, k: nat)
    requires Stored(server, objects) && k > 0 && Up(server, obj, k).Some?
    ensures Up(server, obj, k).value in objects
    decreases k
  {
    var owner := FirstOwner(server, obj).value;
    var resources := server.mappings(obj.owners[0].apiVersion, obj.owners[0].kind).value;
    if k == 1 {
      FirstIsStored(server, objects, resources, obj.namespace, obj.owners[0].name);
      assert Up(server, owner, 0) == Some(owner);
    } else {
      PassedAreStored(server, objects, owner, k - 1);
    }
  }

  lemma {:induction false} UpStaysNone(server: Server, obj: Object, j: nat, k: nat)
    requires j <= k && Up(server, obj, j).None?
    ensures Up(server, obj, k).None?
  {
    UpUp(server, obj, j, k - j);
  }

  lemma Subset<T>(a: set<T>, b: set<T>)
    requires a <= b
    ensures |a| <= |b|
  {
    assert b == a + (b - a);
  }

  /** On a server with finitely many objects the search ends just when no object comes twice on the chain, and then
      after at most as many steps as there are objects. */
  lemma TerminatesExactlyWhen(server: Server, objects: set<Object>, obj: Object)
    requires Stored(server, objects)
    ensures (exists n: nat :: Ends(server, obj, n)) <==> (forall i, j :: !Repeats(server, obj, i, j))
    ensures (exists n: nat :: Ends(server, obj, n)) ==> Ends(server, obj, |objects|)
  {
    hide Up, Ends;
    if forall i, j :: !Repeats(server, obj, i, j) {
      var n := |objects| + 1;
      EndsExactlyWhen(server, obj, |objects|);
      if Up(server, obj, n).Some? {
        forall k | 0 <= k <= n
          ensures Up(server, obj, k).Some?
          ensures k > 0 ==> Up(server, obj, k).value in objects
        {
          if Up(server, obj, k).None? {
            UpStaysNone(server, obj, k, n);
          } else if k > 0 {
            PassedAreStored(server, objects, obj, k);
          }
        }
        PassedCounts(server, obj, n);
        Subset(Passed(server, obj, n), objects);
      }
    }
    if n: nat :| Ends(server, obj, n) {
      EndsExactlyWhen(server, obj, n);
      forall i, j
        ensures !Repeats(server, obj, i, j)
      {
        if Repeats(server, obj, i, j) {
          CycleNeverEnds(server, obj, i, j, n + 1);
        }
      }
    }
  }
}
