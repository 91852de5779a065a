/** `check_consistency`, and when removing an instance keeps a configuration consistent. */
module ConfigCheck {

  import opened Wrappers
  import opened Toposort
  import opened Config

  datatype ConfigError =
    | DuplicateAgents(dupes: seq<Id>)
    | DuplicateDnas(dupes: seq<Id>)
    | DuplicateInstances(dupes: seq<Id>)
    | DuplicateInterfaces(dupes: seq<Id>)
    | AgentNotFound(instance: Instance)
    | DnaNotFound(instance: Instance)
    | InterfaceInstanceNotFound(id: Id)
    | BridgeInstanceNotFound(id: Id)
    | UiBundleNotFound(ui: UiInterface)
    | DnaInterfaceNotFound(ui: UiInterface)
    | DpkiInstanceNotFound(id: Id)
    | CyclicDependency

  /** The items that repeat an earlier one, each as often as it does. */
  ghost predicate AreDupes(items: seq<Id>, dupes: seq<Id>) {
    forall x :: multiset(dupes)[x] == if x in items then multiset(items)[x] - 1 else 0
  }

  lemma {:induction false} NoDupesMeansDistinct(items: seq<Id>)
    requires forall x | x in items :: multiset(items)[x] == 1
    ensures Distinct(items)
  {
    forall i, j | 0 <= i < j < |items|
      ensures items[i] != items[j]
    {
      assert items == items[..j] + items[j..];
      assert items[j..] == [items[j]] + items[j + 1..];
      assert items[i] in items[..j];
      assert items[j] in items;
    }
  }

  lemma DupesExactly(items: seq<Id>, dupes: seq<Id>)
    requires AreDupes(items, dupes)
    ensures dupes == [] <==> Distinct(items)
  {
    if dupes == [] {
      NoDupesMeansDistinct(items);
    } else {
      assert dupes[0] in multiset(dupes);
      assert multiset(items)[dupes[0]] > 1;
      if Distinct(items) {
        DistinctCounts(items, dupes[0]);
      }
    }
  }

  /** Exactly the repeated items are reported, so nothing is reported exactly when all items differ. */
  method DetectDupes(items: seq<Id>) returns (dupes: seq<Id>)
    ensures AreDupes(items, dupes)
    ensures dupes == [] <==> Distinct(items)
  {
    dupes := [];
    var seen: set<Id> := {};
    for i := 0 to |items|
      invariant forall x :: x in seen <==> x in items[..i]
      invariant AreDupes(items[..i], dupes)
    {
      assert items[..i + 1] == items[..i] + [items[i]];
      if items[i] in seen {
        dupes := dupes + [items[i]];
      }
      seen := seen + {items[i]};
    }
    assert items[..|items|] == items;
    DupesExactly(items, dupes);
  }

  method CheckInstances(c: Configuration) returns (e: Option<ConfigError>)
    ensures e.None? <==> forall i | i in c.instances :: InstanceOk(c, i)
    ensures e.Some? ==> Blames(c, e.value) && !e.value.CyclicDependency?
  {
    for k := 0 to |c.instances|
      invariant forall j | 0 <= j < k :: InstanceOk(c, c.instances[j])
    {
      var i := c.instances[k];
      if i.agent !in c.agents {
        assert !InstanceOk(c, c.instances[k]);
        return Some(AgentNotFound(i));
      }
      if i.dna !in c.dnas {
        assert !InstanceOk(c, c.instances[k]);
        return Some(DnaNotFound(i));
      }
    }
    return None;
  }

  method CheckInterfaces(c: Configuration) returns (e: Option<ConfigError>)
    ensures e.None? <==> forall i | i in c.interfaces :: InterfaceOk(c, i)
    ensures e.Some? ==> Blames(c, e.value) && !e.value.CyclicDependency?
  {
    for k := 0 to |c.interfaces|
      invariant forall j | 0 <= j < k :: InterfaceOk(c, c.interfaces[j])
    {
      var refs := c.interfaces[k].instances;
      for m := 0 to |refs|
        invariant forall j | 0 <= j < m :: refs[j] in InstanceIds(c.instances)
      {
        if refs[m] !in InstanceIds(c.instances) {
          assert !InterfaceOk(c, c.interfaces[k]);
          return Some(InterfaceInstanceNotFound(refs[m]));
        }
      }
    }
    return None;
  }

  method CheckBridges(c: Configuration) returns (e: Option<ConfigError>)
    ensures e.None? <==> BridgesResolve(c)
    ensures e.Some? ==> Blames(c, e.value) && !e.value.CyclicDependency?
  {
    for k := 0 to |c.bridges|
      invariant forall j | 0 <= j < k :: BridgeOk(c, c.bridges[j])
    {
      var b := c.bridges[k];
      if b.callee !in InstanceIds(c.instances) {
        assert !BridgeOk(c, c.bridges[k]);
        return Some(BridgeInstanceNotFound(b.callee));
      }
      if b.caller !in InstanceIds(c.instances) {
        assert !BridgeOk(c, c.bridges[k]);
        return Some(BridgeInstanceNotFound(b.caller));
      }
    }
    return None;
  }

  method CheckUi(c: Configuration) returns (e: Option<ConfigError>)
    ensures e.None? <==> forall u | u in c.uiInterfaces :: UiOk(c, u)
    ensures e.Some? ==> Blames(c, e.value) && !e.value.CyclicDependency?
  {
    for k := 0 to |c.uiInterfaces|
      invariant forall j | 0 <= j < k :: UiOk(c, c.uiInterfaces[j])
    {
      var u := c.uiInterfaces[k];
      if u.bundle !in c.uiBundles {
        assert !UiOk(c, c.uiInterfaces[k]);
        return Some(UiBundleNotFound(u));
      }
      if u.dnaInterface.Some? && u.dnaInterface.value !in InterfaceIds(c.interfaces) {
        assert !UiOk(c, c.uiInterfaces[k]);
        return Some(DnaInterfaceNotFound(u));
      }
    }
    return None;
  }

  /** The error names something that is really wrong. */
  ghost predicate Blames(c: Configuration, e: ConfigError) {
    match e
    case DuplicateAgents(dupes) => dupes != [] && AreDupes(c.agents, dupes)
    case DuplicateDnas(dupes) => dupes != [] && AreDupes(c.dnas, dupes)
    case DuplicateInstances(dupes) => dupes != [] && AreDupes(InstanceIds(c.instances), dupes)
    case DuplicateInterfaces(dupes) => dupes != [] && AreDupes(InterfaceIds(c.interfaces), dupes)
    case AgentNotFound(i) => i in c.instances && i.agent !in c.agents
    case DnaNotFound(i) => i in c.instances && i.agent in c.agents && i.dna !in c.dnas
    case InterfaceInstanceNotFound(id) =>
      id !in InstanceIds(c.instances) && exists i | i in c.interfaces :: id in i.instances
    case BridgeInstanceNotFound(id) =>
      id !in InstanceIds(c.instances) && exists b | b in c.bridges :: b.caller == id || b.callee == id
    case UiBundleNotFound(u) => u in c.uiInterfaces && u.bundle !in c.uiBundles
    case DnaInterfaceNotFound(u) =>
      u in c.uiInterfaces && u.dnaInterface.Some? && u.dnaInterface.value !in InterfaceIds(c.interfaces)
    case DpkiInstanceNotFound(id) => c.dpki == Some(id) && id !in InstanceIds(c.instances)
    case CyclicDependency => Cyclic(BridgeEdges(c.bridges))
  }

  /** What the checks before the one that gives `e` have established. */
  ghost predicate PassedBefore(c: Configuration, e: ConfigError) {
    && (!e.DuplicateAgents? ==> Distinct(c.agents))
    && (!e.DuplicateAgents? && !e.DuplicateDnas? ==> Distinct(c.dnas))
    && (!e.DuplicateAgents? && !e.DuplicateDnas? && !e.DuplicateInstances? ==> Distinct(InstanceIds(c.instances)))
    && (e.CyclicDependency? ==> UniqueIds(c) && ReferencesResolve(c))
  }

  method CheckIds(c: Configuration) returns (e: Option<ConfigError>)
    ensures e.None? <==> UniqueIds(c)
    ensures e.Some? ==> Blames(c, e.value) && PassedBefore(c, e.value)
  {
    var dupes := DetectDupes(c.agents);
    if dupes != [] { return Some(DuplicateAgents(dupes)); }
    dupes := DetectDupes(c.dnas);
    if dupes != [] { return Some(DuplicateDnas(dupes)); }
    dupes := DetectDupes(InstanceIds(c.instances));
    if dupes != [] { return Some(DuplicateInstances(dupes)); }
    dupes := DetectDupes(InterfaceIds(c.interfaces));
    if dupes != [] { return Some(DuplicateInterfaces(dupes)); }
    return None;
  }

  method CheckReferences(c: Configuration) returns (e: Option<ConfigError>)
    ensures e.None? <==> ReferencesResolve(c)
    ensures e.Some? ==> Blames(c, e.value) && !e.value.CyclicDependency?
  {
    e := CheckInstances(c);
    if e.Some? { return; }
    e := CheckInterfaces(c);
    if e.Some? { return; }
    e := CheckBridges(c);
    if e.Some? { return; }
    e := CheckUi(c);
    if e.Some? { return; }
    if c.dpki.Some? && c.dpki.value !in InstanceIds(c.instances) {
      return Some(DpkiInstanceNotFound(c.dpki.value));
    }
  }

  /**
    `check_consistency` accepts exactly the consistent configurations and blames something real
    otherwise. The sort it ends with cannot panic here: ids are known to be unique by then.
   */
  method CheckConsistency(c: Configuration) returns (e: Option<ConfigError>)
    ensures e.None? <==> Consistent(c)
    ensures e.Some? ==> Blames(c, e.value) && PassedBefore(c, e.value)
  {
    e := CheckIds(c);
    if e.Some? { return; }
    e := CheckReferences(c);
    if e.Some? { return; }
    var sorted := SortInstances(c);
    if sorted.CyclicBridges? {
      return Some(CyclicDependency);
    }
  }

  // ---------------------------------------------------------------- removing an instance

  function DropInstance(instances: seq<Instance>, id: Id): (r: seq<Instance>)
    ensures forall i :: i in r <==> i in instances && i.id != id
  {
    if instances == [] then []
    else (if instances[0].id != id then [instances[0]] else []) + DropInstance(instances[1..], id)
  }

  function DropReference(refs: seq<Id>, id: Id): (r: seq<Id>)
    ensures forall x :: x in r <==> x in refs && x != id
  {
    if refs == [] then []
    else (if refs[0] != id then [refs[0]] else []) + DropReference(refs[1..], id)
  }

  /** `save_remove_instance`: bridges and the dpki entry are left as they are. */
  function SaveRemoveInstance(c: Configuration, id: Id): Configuration {
    c.(instances := DropInstance(c.instances, id),
       interfaces := seq(|c.interfaces|, i requires 0 <= i < |c.interfaces| =>
                           c.interfaces[i].(instances := DropReference(c.interfaces[i].instances, id))))
  }

  ghost predicate Mentions(c: Configuration, id: Id) {
    (exists b | b in c.bridges :: b.caller == id || b.callee == id) || c.dpki == Some(id)
  }

  lemma IdKnown(instances: seq<Instance>, x: Id)
    ensures x in InstanceIds(instances) <==> exists i | i in instances :: i.id == x
  {
    var ids := InstanceIds(instances);
    if x in ids {
      var k :| 0 <= k < |ids| && ids[k] == x;
      assert instances[k] in instances;
    }
    if i :| i in instances && i.id == x {
      var k :| 0 <= k < |instances| && instances[k] == i;
      assert ids[k] == x;
    }
  }

  lemma IdsAfterDrop(instances: seq<Instance>, id: Id)
    ensures forall x :: x in InstanceIds(DropInstance(instances, id)) <==> x in InstanceIds(instances) && x != id
  {
    forall x
      ensures x in InstanceIds(DropInstance(instances, id)) <==> x in InstanceIds(instances) && x != id
    {
      IdKnown(instances, x);
      IdKnown(DropInstance(instances, id), x);
    }
  }

  lemma {:induction false} DropKeepsDistinct(instances: seq<Instance>, id: Id)
    requires Distinct(InstanceIds(instances))
    ensures Distinct(InstanceIds(DropInstance(instances, id)))
  {
    if instances != [] {
      var ids, rest := InstanceIds(instances), InstanceIds(instances[1..]);
      assert rest == ids[1..];
      assert ids[0] !in rest;
      DropKeepsDistinct(instances[1..], id);
      IdsAfterDrop(instances[1..], id);
      var r := DropInstance(instances[1..], id);
      assert instances[0].id !in InstanceIds(r);
      if instances[0].id != id {
        assert InstanceIds([instances[0]] + r) == [instances[0].id] + InstanceIds(r);
      }
    }
  }

  /** What of a consistent configuration survives the removal whatever is mentioned. */
  lemma RemovalKeepsTheRest(c: Configuration, id: Id)
    requires Consistent(c)
    ensures var r := SaveRemoveInstance(c, id);
            && UniqueIds(r) && !Cyclic(BridgeEdges(r.bridges))
            && (forall i | i in r.instances :: InstanceOk(r, i))
            && (forall i | i in r.interfaces :: InterfaceOk(r, i))
            && (forall u | u in r.uiInterfaces :: UiOk(r, u))
  {
    var r := SaveRemoveInstance(c, id);
    DropKeepsDistinct(c.instances, id);
    IdsAfterDrop(c.instances, id);
    assert InterfaceIds(r.interfaces) == InterfaceIds(c.interfaces);
    forall i | i in r.instances
      ensures InstanceOk(r, i)
    {
      assert InstanceOk(c, i);
    }
    forall k | 0 <= k < |r.interfaces|
      ensures InterfaceOk(r, r.interfaces[k])
    {
      assert InterfaceOk(c, c.interfaces[k]);
    }
    forall u | u in r.uiInterfaces
      ensures UiOk(r, u)
    {
      assert UiOk(c, u);
    }
  }

  /** Removal keeps a configuration consistent exactly when no bridge and no dpki entry mentions the instance. */
  lemma RemovalConsistent(c: Configuration, id: Id)
    requires Consistent(c)
    ensures Consistent(SaveRemoveInstance(c, id)) <==> !Mentions(c, id)
  {
    var r := SaveRemoveInstance(c, id);
    RemovalKeepsTheRest(c, id);
    IdsAfterDrop(c.instances, id);
    if Mentions(c, id) && c.dpki != Some(id) {
      var b :| b in c.bridges && (b.caller == id || b.callee == id);
      assert !BridgeOk(r, b);
    } else if !Mentions(c, id) {
      forall b | b in r.bridges
        ensures BridgeOk(r, b)
      {
        assert BridgeOk(c, b);
      }
    }
  }

  /** The removed id is gone from the instances and from every interface, and nothing else is. */
  lemma RemovalIsExact(c: Configuration, id: Id)
    ensures var r := SaveRemoveInstance(c, id);
            && id !in InstanceIds(r.instances)
            && (forall i | i in c.instances :: i in r.instances <==> i.id != id)
            && (forall k | 0 <= k < |c.interfaces| ::
                  && r.interfaces[k].id == c.interfaces[k].id
                  && forall x :: x in r.interfaces[k].instances <==> x in c.interfaces[k].instances && x != id)
  {
    IdsAfterDrop(c.instances, id);
  }

  /** A consistent configuration with one bridge: removing the callee leaves the bridge dangling. */
  lemma RemovalCanBreak()
    ensures exists c: Configuration, id: Id :: Consistent(c) && !Consistent(SaveRemoveInstance(c, id))
  {
    var app, lib := Instance("app", "dna", "agent"), Instance("lib", "dna", "agent");
    var b := Bridge("app", "lib", "handle");
    var c := Configuration(["agent"], ["dna"], [app, lib], [], [b], [], [], None);
    var ids := InstanceIds(c.instances);
    assert ids == ["app", "lib"];
    assert "app"[0] != "lib"[0];
    assert ids[0] in ids && ids[1] in ids;
    var edges := BridgeEdges(c.bridges);
    assert edges == [Edge("app", "lib")];
    var order := ["app", "lib"];
    assert order[1] in order;
    forall e, j | e in edges && 0 <= j < |order| && order[j] == e.target
      ensures e.source in order[..j]
    {
      assert j == 1;
      assert order[..1] == ["app"];
    }
    OrderExcludesCycles(edges, order);
    assert Consistent(c);
    assert b in c.bridges;
    RemovalConsistent(c, "lib");
  }
}
