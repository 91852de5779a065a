/** The conductor configuration: reference consistency, start order by bridges, removal of an instance. */
module Config {

  import opened Wrappers
  import opened Toposort

  type Id = string

  /** Fields that no reference goes through (names, files, ports, storage) are left out. */
  datatype Instance = Instance(id: Id, dna: Id, agent: Id)
  datatype Interface = Interface(id: Id, instances: seq<Id>)
  datatype Bridge = Bridge(caller: Id, callee: Id, handle: string)
  datatype UiInterface = UiInterface(id: Id, bundle: Id, dnaInterface: Option<Id>)

  datatype Configuration = Configuration(
    agents: seq<Id>, dnas: seq<Id>, instances: seq<Instance>, interfaces: seq<Interface>, bridges: seq<Bridge>,
    uiBundles: seq<Id>, uiInterfaces: seq<UiInterface>, dpki: Option<Id>)

  function InstanceIds(instances: seq<Instance>): (r: seq<Id>)
    ensures |r| == |instances| && forall i | 0 <= i < |r| :: r[i] == instances[i].id
  {
    seq(|instances|, i requires 0 <= i < |instances| => instances[i].id)
  }

  function InterfaceIds(interfaces: seq<Interface>): (r: seq<Id>)
    ensures |r| == |interfaces| && forall i | 0 <= i < |r| :: r[i] == interfaces[i].id
  {
    seq(|interfaces|, i requires 0 <= i < |interfaces| => interfaces[i].id)
  }

  /** The bridge graph: an edge from every caller to its callee. */
  function BridgeEdges(bridges: seq<Bridge>): (r: seq<Edge<Id>>)
    ensures |r| == |bridges| && forall i | 0 <= i < |r| :: r[i] == Edge(bridges[i].caller, bridges[i].callee)
  {
    seq(|bridges|, i requires 0 <= i < |bridges| => Edge(bridges[i].caller, bridges[i].callee))
  }

  // ---------------------------------------------------------------- what consistency means

  ghost predicate InstanceOk(c: Configuration, i: Instance) {
    i.agent in c.agents && i.dna in c.dnas
  }

  ghost predicate InterfaceOk(c: Configuration, i: Interface) {
    forall id | id in i.instances :: id in InstanceIds(c.instances)
  }

  ghost predicate BridgeOk(c: Configuration, b: Bridge) {
    b.callee in InstanceIds(c.instances) && b.caller in InstanceIds(c.instances)
  }

  ghost predicate UiOk(c: Configuration, u: UiInterface) {
    && u.bundle in c.uiBundles
    && (u.dnaInterface.Some? ==> u.dnaInterface.value in InterfaceIds(c.interfaces))
  }

  ghost predicate UniqueIds(c: Configuration) {
    && Distinct(c.agents) && Distinct(c.dnas)
    && Distinct(InstanceIds(c.instances)) && Distinct(InterfaceIds(c.interfaces))
  }

  ghost predicate BridgesResolve(c: Configuration) {
    forall b | b in c.bridges :: BridgeOk(c, b)
  }

  ghost predicate ReferencesResolve(c: Configuration) {
    && (forall i | i in c.instances :: InstanceOk(c, i))
    && (forall i | i in c.interfaces :: InterfaceOk(c, i))
    && BridgesResolve(c)
    && (forall u | u in c.uiInterfaces :: UiOk(c, u))
    && (c.dpki.Some? ==> c.dpki.value in InstanceIds(c.instances))
  }

  ghost predicate Consistent(c: Configuration) {
    UniqueIds(c) && ReferencesResolve(c) && !Cyclic(BridgeEdges(c.bridges))
  }

  // ---------------------------------------------------------------- sorting by bridges

  datatype SortOutcome =
    | Sorted(ids: seq<Id>)
    | InstanceMissing(bridge: Bridge)
    | CyclicBridges
    | Panicked

  /** Every node's position in the graph, as collecting the pairs into a map gives it: the last one. */
  method IndexMap(instances: seq<Instance>) returns (m: map<Id, nat>)
    ensures forall id :: id in m <==> id in InstanceIds(instances)
    ensures forall id | id in m :: m[id] < |instances| && instances[m[id]].id == id
    ensures forall i | 0 <= i < |instances| :: i <= m[instances[i].id]
  {
    m := map[];
    for k := 0 to |instances|
      invariant forall id | id in m :: m[id] < k && instances[m[id]].id == id
      invariant forall i | 0 <= i < k :: instances[i].id in m && i <= m[instances[i].id]
    {
      m := m[instances[k].id := k];
    }
    var ids := InstanceIds(instances);
    assert forall i | 0 <= i < |ids| :: ids[i] in m;
  }

  method ReverseMap(instances: seq<Instance>, index: map<Id, nat>) returns (m: map<nat, Id>)
    requires forall i | 0 <= i < |instances| :: instances[i].id in index
    ensures forall n | n in m :: m[n] in index && index[m[n]] == n
    ensures forall i | 0 <= i < |instances| :: index[instances[i].id] in m
  {
    m := map[];
    for k := 0 to |instances|
      invariant forall n | n in m :: m[n] in index && index[m[n]] == n
      invariant forall i | 0 <= i < k :: index[instances[i].id] in m
    {
      m := m[index[instances[k].id] := instances[k].id];
    }
  }

  method IndexEdges(bridges: seq<Bridge>, index: map<Id, nat>) returns (edges: seq<Edge<nat>>, missing: Option<Bridge>)
    ensures missing.None? ==>
              && (forall e | e in BridgeEdges(bridges) :: e.source in index && e.target in index)
              && edges == Relabel(BridgeEdges(bridges), index)
    ensures missing.Some? ==>
              missing.value in bridges && (missing.value.caller !in index || missing.value.callee !in index)
  {
    edges, missing := [], None;
    for k := 0 to |bridges|
      invariant |edges| == k
      invariant forall i | 0 <= i < k :: bridges[i].caller in index && bridges[i].callee in index
      invariant forall i | 0 <= i < k :: edges[i] == Edge(index[bridges[i].caller], index[bridges[i].callee])
    {
      var b := bridges[k];
      if b.caller !in index || b.callee !in index {
        return edges, Some(b);
      }
      edges := edges + [Edge(index[b.caller], index[b.callee])];
    }
  }

  /** Walks the sorted nodes backwards; a node that the reverse map does not know is the `unwrap` on `None`. */
  method NamesReversed(order: seq<nat>, names: map<nat, Id>) returns (ids: seq<Id>, ok: bool)
    ensures ok <==> forall n | n in order :: n in names
    ensures ok ==>
              && |ids| == |order|
              && forall k | 0 <= k < |order| :: order[k] in names && ids[|order| - 1 - k] == names[order[k]]
  {
    ids, ok := [], true;
    var k := |order|;
    while k > 0
      invariant 0 <= k <= |order| && |ids| == |order| - k
      invariant forall i | k <= i < |order| :: order[i] in names && ids[|order| - 1 - i] == names[order[i]]
    {
      k := k - 1;
      if order[k] !in names {
        return [], false;
      }
      ids := ids + [names[order[k]]];
    }
  }

  /** Every callee comes before its caller. */
  ghost predicate CalleesFirst(bridges: seq<Bridge>, ids: seq<Id>) {
    forall b, j | b in bridges && 0 <= j < |ids| && ids[j] == b.caller :: b.callee in ids[..j]
  }

  ghost predicate StartOrder(c: Configuration, ids: seq<Id>) {
    multiset(ids) == multiset(InstanceIds(c.instances)) && Distinct(ids) && CalleesFirst(c.bridges, ids)
  }

  ghost predicate IsIndex(instances: seq<Instance>, index: map<Id, nat>) {
    && (forall id :: id in index <==> id in InstanceIds(instances))
    && (forall id | id in index :: index[id] < |instances| && instances[index[id]].id == id)
    && (forall i | 0 <= i < |instances| :: i <= index[instances[i].id])
  }

  ghost predicate IsReverse(instances: seq<Instance>, index: map<Id, nat>, names: map<nat, Id>)
    requires IsIndex(instances, index)
  {
    && (forall n | n in names :: names[n] in index && index[names[n]] == n)
    && (forall i | 0 <= i < |instances| :: index[instances[i].id] in names)
  }

  /** The graph over positions has a cycle exactly when the bridges do. */
  lemma SameCycles(c: Configuration, index: map<Id, nat>)
    requires IsIndex(c.instances, index)
    requires forall e | e in BridgeEdges(c.bridges) :: e.source in index && e.target in index
    ensures Cyclic(BridgeEdges(c.bridges)) <==> Cyclic(Relabel(BridgeEdges(c.bridges), index))
  {
    var edges := BridgeEdges(c.bridges);
    if Cyclic(edges) {
      RelabelKeepsCycle(edges, index);
    }
    if Cyclic(Relabel(edges, index)) {
      RelabelAddsNoCycle(edges, index);
    }
  }

  /** The reverse map knows every position exactly when no id is repeated. */
  lemma NamesComplete(instances: seq<Instance>, index: map<Id, nat>, names: map<nat, Id>)
    requires IsIndex(instances, index) && IsReverse(instances, index, names)
    ensures Distinct(InstanceIds(instances)) <==> forall i | 0 <= i < |instances| :: i in names
    ensures forall i | 0 <= i < |instances| && i in names :: names[i] == instances[i].id
  {
    var ids := InstanceIds(instances);
    if Distinct(ids) {
      forall i | 0 <= i < |instances|
        ensures i in names
      {
        assert ids[index[ids[i]]] == ids[i];
      }
    } else {
      var i, j :| 0 <= i < j < |ids| && ids[i] == ids[j];
      assert j <= index[ids[i]];
      assert i !in names;
    }
  }

  lemma {:induction false} DistinctCounts<T(!new)>(s: seq<T>, x: T)
    requires Distinct(s)
    ensures multiset(s)[x] == if x in s then 1 else 0
  {
    if s != [] {
      var front, last := s[..|s| - 1], s[|s| - 1];
      assert s == front + [last];
      DistinctCounts(front, x);
      assert last !in front;
    }
  }

  lemma SameElements<T(!new)>(s: seq<T>, t: seq<T>)
    requires Distinct(s) && Distinct(t) && forall x :: x in s <==> x in t
    ensures multiset(s) == multiset(t)
  {
    forall x
      ensures multiset(s)[x] == multiset(t)[x]
    {
      DistinctCounts(s, x);
      DistinctCounts(t, x);
    }
  }

  /** `ids` reads the nodes of `order` backwards. */
  ghost predicate Backwards(instances: seq<Instance>, order: seq<nat>, ids: seq<Id>)
    requires forall k | 0 <= k < |order| :: order[k] < |instances|
  {
    |ids| == |order| && forall k | 0 <= k < |order| :: ids[|order| - 1 - k] == instances[order[k]].id
  }

  lemma BackwardsIsPermutation(instances: seq<Instance>, order: seq<nat>, ids: seq<Id>)
    requires Distinct(InstanceIds(instances)) && Distinct(order)
    requires forall n: nat :: n in order <==> n < |instances|
    requires forall k | 0 <= k < |order| :: order[k] < |instances|
    requires Backwards(instances, order, ids)
    ensures Distinct(ids) && multiset(ids) == multiset(InstanceIds(instances))
  {
    var names, n := InstanceIds(instances), |order|;
    assert forall k | 0 <= k < n :: order[k] in order;
    forall i, j | 0 <= i < j < n
      ensures ids[i] != ids[j]
    {
      assert ids[i] == names[order[n - 1 - i]] && ids[j] == names[order[n - 1 - j]];
    }
    forall x
      ensures x in ids <==> x in names
    {
      if x in ids {
        var i :| 0 <= i < n && ids[i] == x;
        assert ids[i] == names[order[n - 1 - i]];
      }
      if x in names {
        var m: nat :| m < |names| && names[m] == x;
        assert m in order;
        var k :| 0 <= k < n && order[k] == m;
        assert ids[n - 1 - k] == x;
      }
    }
    SameElements(ids, names);
  }

  lemma CalleeIsEarlier(c: Configuration, index: map<Id, nat>, order: seq<nat>, ids: seq<Id>, b: Bridge, j: nat)
    requires IsIndex(c.instances, index) && Distinct(InstanceIds(c.instances)) && Distinct(order)
    requires forall n: nat :: n in order <==> n < |c.instances|
    requires forall e | e in BridgeEdges(c.bridges) :: e.source in index && e.target in index
    requires SourcesFirst(Relabel(BridgeEdges(c.bridges), index), order)
    requires forall k | 0 <= k < |order| :: order[k] < |c.instances|
    requires Backwards(c.instances, order, ids)
    requires b in c.bridges && j < |ids| && ids[j] == b.caller
    ensures b.callee in ids[..j]
  {
    var n, edges := |order|, BridgeEdges(c.bridges);
    var q := n - 1 - j;
    assert order[q] in order;
    assert ids[n - 1 - q] == c.instances[order[q]].id;
    var k :| 0 <= k < |c.bridges| && c.bridges[k] == b;
    assert edges[k] in edges;
    var e := Relabel(edges, index)[k];
    assert e in Relabel(edges, index);
    var ids' := InstanceIds(c.instances);
    assert ids'[index[b.caller]] == ids'[order[q]];
    assert e.source == order[q];
    assert e.target in order;
    var p :| 0 <= p < n && order[p] == e.target;
    assert e.source in order[..p];
    assert q < p;
    assert ids[n - 1 - p] == b.callee;
  }

  /** `instance_ids_sorted_by_bridge_dependencies`. */
  method SortInstances(c: Configuration) returns (r: SortOutcome)
    ensures r.InstanceMissing? <==> !BridgesResolve(c)
    ensures r.InstanceMissing? ==> r.bridge in c.bridges && !BridgeOk(c, r.bridge)
    ensures r.CyclicBridges? <==> BridgesResolve(c) && Cyclic(BridgeEdges(c.bridges))
    ensures r.Panicked? <==>
            BridgesResolve(c) && !Cyclic(BridgeEdges(c.bridges)) && !Distinct(InstanceIds(c.instances))
    ensures r.Sorted? ==> StartOrder(c, r.ids)
  {
    var index := IndexMap(c.instances);
    var names := ReverseMap(c.instances, index);
    var edges, missing := IndexEdges(c.bridges, index);
    if missing.Some? {
      return InstanceMissing(missing.value);
    }
    ResolvedEdges(c, index);
    SameCycles(c, index);
    var order := Sort(|c.instances|, edges);
    if order.None? {
      return CyclicBridges;
    }
    NodesNamed(c.instances, index, names, order.value);
    var ids, ok := NamesReversed(order.value, names);
    if !ok {
      return Panicked;
    }
    SortedIsStartOrder(c, index, names, order.value, ids);
    return Sorted(ids);
  }

  lemma NodesNamed(instances: seq<Instance>, index: map<Id, nat>, names: map<nat, Id>, order: seq<nat>)
    requires IsIndex(instances, index) && IsReverse(instances, index, names)
    requires forall n: nat :: n in order <==> n < |instances|
    ensures Distinct(InstanceIds(instances)) <==> forall n | n in order :: n in names
  {
    NamesComplete(instances, index, names);
  }

  lemma SortedIsStartOrder(c: Configuration, index: map<Id, nat>, names: map<nat, Id>, order: seq<nat>, ids: seq<Id>)
    requires IsIndex(c.instances, index) && IsReverse(c.instances, index, names) && Distinct(InstanceIds(c.instances))
    requires forall e | e in BridgeEdges(c.bridges) :: e.source in index && e.target in index
    requires TopologicalOrder(|c.instances|, Relabel(BridgeEdges(c.bridges), index), order)
    requires |ids| == |order|
    requires forall k | 0 <= k < |order| :: order[k] in names && ids[|order| - 1 - k] == names[order[k]]
    ensures StartOrder(c, ids)
  {
    NamesComplete(c.instances, index, names);
    assert forall k | 0 <= k < |order| :: order[k] in order;
    BackwardsIsPermutation(c.instances, order, ids);
    forall b, j | b in c.bridges && 0 <= j < |ids| && ids[j] == b.caller
      ensures b.callee in ids[..j]
    {
      CalleeIsEarlier(c, index, order, ids, b, j);
    }
  }

  lemma ResolvedEdges(c: Configuration, index: map<Id, nat>)
    requires IsIndex(c.instances, index)
    requires forall e | e in BridgeEdges(c.bridges) :: e.source in index && e.target in index
    ensures BridgesResolve(c)
    ensures forall e | e in Relabel(BridgeEdges(c.bridges), index) ::
              e.source < |c.instances| && e.target < |c.instances|
  {
    var edges := BridgeEdges(c.bridges);
    forall b | b in c.bridges
      ensures BridgeOk(c, b)
    {
      var k :| 0 <= k < |c.bridges| && c.bridges[k] == b;
      assert edges[k] in edges;
    }
    var es := Relabel(edges, index);
    forall k | 0 <= k < |es|
      ensures es[k].source < |c.instances| && es[k].target < |c.instances|
    {
      assert edges[k] in edges;
    }
  }

  /** `bridge_dependencies`: the bridges that an instance calls through. */
  function BridgeDependencies(bridges: seq<Bridge>, caller: Id): (r: seq<Bridge>)
    ensures forall b :: b in r <==> b in bridges && b.caller == caller
  {
    if bridges == [] then []
    else (if bridges[0].caller == caller then [bridges[0]] else []) + BridgeDependencies(bridges[1..], caller)
  }

  /** Instances can be started in order: whatever has been started, its callees have been started too. */
  lemma PrefixesClosed(c: Configuration, ids: seq<Id>, k: nat, id: Id, b: Bridge)
    requires StartOrder(c, ids) && k <= |ids| && id in ids[..k] && b in BridgeDependencies(c.bridges, id)
    ensures b.callee in ids[..k]
  {
    var j :| 0 <= j < k && ids[j] == id;
    assert b.callee in ids[..j];
  }
}
