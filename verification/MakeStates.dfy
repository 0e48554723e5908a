/** The shared state of the make phase: modules by identity, the graph, and what entries resolved to. */
module MakeStates {
  import opened Options
  import opened BuildingGraphs
  import opened MakePhases

  datatype Make = Make(
    graph: Storage, byIdentity: map<Identity, nat>, building: set<nat>, entries: map<nat, nat>, errors: nat)

  predicate OriginInGraph(s: Storage, origin: Option<nat>) {
    origin.Some? ==> origin.value < |s.modules|
  }

  function ConnectionFor(origin: Option<nat>, d: Queued, handle: nat): Connection {
    Connection(origin, d.block, d.index, d.dependency, handle)
  }

  function ConnectOne(m: Make, origin: Option<nat>, d: Queued, handle: nat): Make
    requires Sized(m.graph) && handle < |m.graph.modules| && OriginInGraph(m.graph, origin)
  {
    m.(graph := WithConnection(m.graph, ConnectionFor(origin, d, handle)),
       entries := if d.entryIndex.Some? then m.entries[d.entryIndex.value := handle] else m.entries)
  }

  /** One connection for each dependency, to the same module. */
  function ConnectAll(m: Make, origin: Option<nat>, dependencies: seq<Queued>, handle: nat): Make
    requires Sized(m.graph) && handle < |m.graph.modules| && OriginInGraph(m.graph, origin)
    decreases |dependencies|
  {
    if dependencies == [] then m
    else ConnectAll(ConnectOne(m, origin, dependencies[0], handle), origin, dependencies[1..], handle)
  }

  /** The module of an identity, added when it is new. */
  function Place(m: Make, identity: Identity): Make {
    if identity in m.byIdentity then m
    else
      var handle := |m.graph.modules|;
      m.(graph := WithModule(m.graph, identity), byIdentity := m.byIdentity[identity := handle],
         building := m.building + {handle})
  }

  ghost predicate IdentitiesAgree(m: Make) {
    && (forall h: nat | h < |m.graph.modules| ::
          m.graph.modules[h].identity in m.byIdentity && m.byIdentity[m.graph.modules[h].identity] == h)
    && (forall id | id in m.byIdentity ::
          m.byIdentity[id] < |m.graph.modules| && m.graph.modules[m.byIdentity[id]].identity == id)
  }

  ghost predicate BuildingAgrees(m: Make) {
    forall h: nat :: h in m.building <==> h < |m.graph.modules| && m.graph.modules[h].status == Building
  }

  ghost predicate WellFormed(m: Make) {
    Indexed(m.graph) && IdentitiesAgree(m) && BuildingAgrees(m)
  }

  function HandleOf(m: Make, identity: Identity): nat
    requires identity in m.byIdentity
  {
    m.byIdentity[identity]
  }

  function Added(m: Make, origin: Option<nat>, dependencies: seq<Queued>, identity: Identity): Make
    requires Sized(m.graph) && OriginInGraph(m.graph, origin)
    requires identity in m.byIdentity ==> m.byIdentity[identity] < |m.graph.modules|
  {
    var placed := Place(m, identity);
    ConnectAll(placed, origin, dependencies, HandleOf(placed, identity))
  }

  /** A build ends, with content or with an error; the module is no longer building either way. */
  function EndBuild(m: Make, handle: nat, status: Status): Make
    requires handle < |m.graph.modules|
  {
    m.(graph := SetStatus(m.graph, handle, status), building := m.building - {handle},
       errors := if status == Built then m.errors else m.errors + 1)
  }

  lemma PlaceWellFormed(m: Make, identity: Identity)
    requires WellFormed(m)
    ensures WellFormed(Place(m, identity))
    ensures var placed := Place(m, identity);
            identity in placed.byIdentity && HandleOf(placed, identity) < |placed.graph.modules|
  {
    AddModuleIndexed(m.graph, identity);
  }

  lemma EndBuildWellFormed(m: Make, handle: nat, status: Status)
    requires WellFormed(m) && handle < |m.graph.modules| && status != Building
    ensures WellFormed(EndBuild(m, handle, status))
  {
    SetStatusIndexed(m.graph, handle, status);
  }

  /** What connecting leaves alone, and what it adds. */
  lemma {:induction false} ConnectAllEffect(m: Make, origin: Option<nat>, dependencies: seq<Queued>, handle: nat)
    requires Indexed(m.graph) && handle < |m.graph.modules| && OriginInGraph(m.graph, origin)
    ensures var after := ConnectAll(m, origin, dependencies, handle);
            && Indexed(after.graph) && after.graph.modules == m.graph.modules
            && after == m.(graph := after.graph, entries := after.entries)
            && after.graph.connections == m.graph.connections + Made(origin, dependencies, handle)
    decreases |dependencies|
  {
    MadeCons(m.graph.connections, origin, dependencies, handle);
    if dependencies != [] {
      ConnectIndexed(m.graph, ConnectionFor(origin, dependencies[0], handle));
      ConnectAllEffect(ConnectOne(m, origin, dependencies[0], handle), origin, dependencies[1..], handle);
    }
  }

  lemma MadeCons(connections: seq<Connection>, origin: Option<nat>, dependencies: seq<Queued>, handle: nat)
    ensures connections + Made(origin, dependencies, handle) ==
            if dependencies == [] then connections
            else connections + [ConnectionFor(origin, dependencies[0], handle)] + Made(origin, dependencies[1..], handle)
  {
  }

  function Made(origin: Option<nat>, dependencies: seq<Queued>, handle: nat): seq<Connection> {
    seq(|dependencies|, i requires 0 <= i < |dependencies| => ConnectionFor(origin, dependencies[i], handle))
  }

  lemma {:induction false} ConnectAllEntries(m: Make, origin: Option<nat>, dependencies: seq<Queued>, handle: nat, e: nat)
    requires Sized(m.graph) && handle < |m.graph.modules| && OriginInGraph(m.graph, origin)
    ensures var after := ConnectAll(m, origin, dependencies, handle).entries;
            var named := exists d :: d in dependencies && d.entryIndex == Some(e);
            && (e in after <==> e in m.entries || named)
            && (e in after ==> after[e] == if named then handle else m.entries[e])
    decreases |dependencies|
  {
    if dependencies != [] {
      ConnectAllEntries(ConnectOne(m, origin, dependencies[0], handle), origin, dependencies[1..], handle, e);
      assert forall d :: d in dependencies <==> d == dependencies[0] || d in dependencies[1..];
    }
  }

  lemma AddOrConnectWellFormed(m: Make, origin: Option<nat>, dependencies: seq<Queued>, identity: Identity)
    requires WellFormed(m) && OriginInGraph(m.graph, origin)
    ensures WellFormed(Added(m, origin, dependencies, identity))
  {
    PlaceWellFormed(m, identity);
    var placed := Place(m, identity);
    ConnectAllEffect(placed, origin, dependencies, HandleOf(placed, identity));
  }

  // ---- the state, updated in place ----

  class MakeState {
    const moduleGraph: BuildingModuleGraph
    var modulesByIdentity: map<Identity, nat>
    var buildingModules: set<nat>
    var entries: map<nat, nat>
    var errors: nat

    ghost function State(): Make reads this, moduleGraph {
      Make(moduleGraph.State(), modulesByIdentity, buildingModules, entries, errors)
    }

    ghost predicate Valid() reads this, moduleGraph { WellFormed(State()) }

    constructor ()
      ensures Valid() && fresh(moduleGraph) && State() == Make(Storage([], [], [], [], []), map[], {}, map[], 0)
    {
      moduleGraph := new BuildingModuleGraph();
      modulesByIdentity, buildingModules, entries, errors := map[], {}, map[], 0;
    }

    method FindOrAdd(identity: Identity) returns (handle: nat, isNew: bool)
      requires Valid()
      modifies this, moduleGraph
      ensures Valid() && State() == Place(old(State()), identity)
      ensures isNew == (identity !in old(modulesByIdentity))
      ensures identity in modulesByIdentity && handle == modulesByIdentity[identity] < |State().graph.modules|
    {
      PlaceWellFormed(State(), identity);
      if identity in modulesByIdentity {
        handle, isNew := modulesByIdentity[identity], false;
      } else {
        isNew := true;
        handle := moduleGraph.AddModule(identity);
        modulesByIdentity := modulesByIdentity[identity := handle];
        buildingModules := buildingModules + {handle};
      }
    }

    method AddOrConnect(origin: Option<nat>, dependencies: seq<Queued>, identity: Identity)
      returns (handle: nat, isNew: bool)
      requires Valid() && OriginInGraph(State().graph, origin)
      modifies this, moduleGraph
      ensures Valid() && isNew == (identity !in old(modulesByIdentity))
      ensures State() == Added(old(State()), origin, dependencies, identity)
      ensures identity in modulesByIdentity && handle == modulesByIdentity[identity]
    {
      AddOrConnectWellFormed(State(), origin, dependencies, identity);
      handle, isNew := FindOrAdd(identity);
      ConnectEach(origin, dependencies, handle);
    }

    method ConnectEach(origin: Option<nat>, dependencies: seq<Queued>, handle: nat)
      requires Indexed(State().graph) && handle < |State().graph.modules| && OriginInGraph(State().graph, origin)
      modifies this, moduleGraph
      ensures State() == ConnectAll(old(State()), origin, dependencies, handle)
      ensures modulesByIdentity == old(modulesByIdentity)
    {
      var i := 0;
      while i < |dependencies|
        invariant i <= |dependencies| && Indexed(State().graph)
        invariant handle < |State().graph.modules| && OriginInGraph(State().graph, origin)
        invariant modulesByIdentity == old(modulesByIdentity)
        invariant ConnectAll(State(), origin, dependencies[i..], handle)
               == ConnectAll(old(State()), origin, dependencies, handle)
      {
        assert dependencies[i..][0] == dependencies[i] && dependencies[i..][1..] == dependencies[i + 1..];
        ConnectDependency(origin, dependencies[i], handle);
        i := i + 1;
      }
    }

    method ConnectDependency(origin: Option<nat>, d: Queued, handle: nat)
      requires Indexed(State().graph) && handle < |State().graph.modules| && OriginInGraph(State().graph, origin)
      modifies this, moduleGraph
      ensures Indexed(State().graph) && |State().graph.modules| == |old(State()).graph.modules|
      ensures State() == ConnectOne(old(State()), origin, d, handle)
      ensures modulesByIdentity == old(modulesByIdentity)
    {
      if d.entryIndex.Some? {
        entries := entries[d.entryIndex.value := handle];
      }
      moduleGraph.Connect(origin, d.block, d.index, d.dependency, handle);
    }

    method FinishBuild(handle: nat) returns (found: bool)
      requires Valid()
      modifies this, moduleGraph
      ensures Valid() && found == (handle < |old(State()).graph.modules|)
      ensures State() == if found then EndBuild(old(State()), handle, Built) else old(State())
    {
      if |moduleGraph.modules| > handle { EndBuildWellFormed(State(), handle, Built); }
      found := moduleGraph.FinishModule(handle, Built);
      if found { buildingModules := buildingModules - {handle}; }
    }

    method FailModule(handle: nat, status: Status) returns (found: bool)
      requires Valid() && (status == Broken || status == Missing)
      modifies this, moduleGraph
      ensures Valid() && found == (handle < |old(State()).graph.modules|)
      ensures State() == if found then EndBuild(old(State()), handle, status) else old(State())
    {
      if |moduleGraph.modules| > handle { EndBuildWellFormed(State(), handle, status); }
      found := moduleGraph.FinishModule(handle, status);
      if found {
        buildingModules := buildingModules - {handle};
        errors := errors + 1;
      }
    }
  }
}
