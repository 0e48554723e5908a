/** The module graph while modules are being built: connections and the three indexes over them. */
module BuildingGraphs {
  import opened Options
  import opened Sequences

  type Identity = nat

  /** A dependency with a request is a module dependency; `detail` is the rest of it. */
  datatype Dependency = Dependency(request: Option<string>, detail: string)

  datatype Status = Building | Built | Broken | Missing

  datatype Module = Module(identity: Identity, status: Status)

  /** Where in a module a dependency stands: in the module itself, or in one of its async blocks. */
  datatype Location = Location(block: Option<nat>, index: nat)

  datatype Connection = Connection(
    origin: Option<nat>, block: Option<nat>, index: Option<nat>, dependency: Dependency, target: nat)
  {
    predicate StandsAt(m: nat, location: Location) {
      origin == Some(m) && block == location.block && index == Some(location.index)
    }
  }

  datatype Storage = Storage(
    modules: seq<Module>,
    connections: seq<Connection>,
    outgoing: seq<seq<nat>>,
    incoming: seq<seq<nat>>,
    byLocation: seq<map<Location, nat>>)

  // ---- the indexes agree with the connections ----

  ghost predicate Sized(s: Storage) {
    |s.outgoing| == |s.modules| && |s.incoming| == |s.modules| && |s.byLocation| == |s.modules|
  }

  ghost predicate Targeted(s: Storage) {
    forall c: nat | c < |s.connections| ::
      && s.connections[c].target < |s.modules|
      && (s.connections[c].origin.Some? ==> s.connections[c].origin.value < |s.modules|)
  }

  ghost predicate OutgoingAgrees(s: Storage)
    requires Sized(s)
  {
    forall m: nat | m < |s.modules| ::
      && Distinct(s.outgoing[m])
      && forall c: nat :: c in s.outgoing[m] <==> c < |s.connections| && s.connections[c].origin == Some(m)
  }

  ghost predicate IncomingAgrees(s: Storage)
    requires Sized(s)
  {
    forall m: nat | m < |s.modules| ::
      && Distinct(s.incoming[m])
      && forall c: nat :: c in s.incoming[m] <==> c < |s.connections| && s.connections[c].target == m
  }

  /** The location index names a connection standing there, wherever there is one. */
  ghost predicate LocationsAgree(s: Storage)
    requires Sized(s)
  {
    && (forall m: nat, at | m < |s.modules| && at in s.byLocation[m] ::
          s.byLocation[m][at] < |s.connections| && s.connections[s.byLocation[m][at]].StandsAt(m, at))
    && (forall c: nat, m: nat, at | c < |s.connections| && m < |s.modules| && s.connections[c].StandsAt(m, at) ::
          at in s.byLocation[m])
  }

  ghost predicate Indexed(s: Storage) {
    Sized(s) && Targeted(s) && OutgoingAgrees(s) && IncomingAgrees(s) && LocationsAgree(s)
  }

  // ---- the updates ----

  function WithModule(s: Storage, identity: Identity): Storage {
    Storage(s.modules + [Module(identity, Building)], s.connections,
            s.outgoing + [[]], s.incoming + [[]], s.byLocation + [map[]])
  }

  function Placed(places: map<Location, nat>, at: Location, handle: nat): map<Location, nat> {
    places[at := handle]
  }

  function WithConnection(s: Storage, c: Connection): Storage
    requires |s.incoming| > c.target && (c.origin.Some? ==> c.origin.value < |s.outgoing| && c.origin.value < |s.byLocation|)
  {
    var handle: nat := |s.connections|;
    s.(connections := s.connections + [c],
       outgoing := if c.origin.None? then s.outgoing
                   else s.outgoing[c.origin.value := s.outgoing[c.origin.value] + [handle]],
       byLocation := if c.origin.None? || c.index.None? then s.byLocation
                     else s.byLocation[c.origin.value :=
                                         Placed(s.byLocation[c.origin.value], Location(c.block, c.index.value), handle)],
       incoming := s.incoming[c.target := s.incoming[c.target] + [handle]])
  }

  function SetStatus(s: Storage, handle: nat, status: Status): Storage
    requires handle < |s.modules|
  {
    s.(modules := s.modules[handle := s.modules[handle].(status := status)])
  }

  /** A connection is turned to another module, as optimizations do after the graph is built. */
  function Retarget(s: Storage, handle: nat, target: nat): Storage
    requires Sized(s) && Targeted(s) && handle < |s.connections| && target < |s.modules|
  {
    var was := s.connections[handle].target;
    if was == target then s
    else
      var left := s.incoming[was := Without(s.incoming[was], handle)];
      s.(connections := s.connections[handle := s.connections[handle].(target := target)],
         incoming := left[target := left[target] + [handle]])
  }

  lemma AddModuleIndexed(s: Storage, identity: Identity)
    requires Indexed(s)
    ensures Indexed(WithModule(s, identity))
  {
  }

  lemma ConnectIndexed(s: Storage, c: Connection)
    requires Indexed(s) && c.target < |s.modules| && (c.origin.Some? ==> c.origin.value < |s.modules|)
    ensures Indexed(WithConnection(s, c))
  {
    var after := WithConnection(s, c);
    assert OutgoingAgrees(after) by {
      if c.origin.Some? { DistinctSnoc(s.outgoing[c.origin.value], |s.connections|); }
    }
    assert IncomingAgrees(after) by { DistinctSnoc(s.incoming[c.target], |s.connections|); }
  }

  lemma SetStatusIndexed(s: Storage, handle: nat, status: Status)
    requires Indexed(s) && handle < |s.modules|
    ensures Indexed(SetStatus(s, handle, status))
  {
  }

  lemma RetargetIndexed(s: Storage, handle: nat, target: nat)
    requires Indexed(s) && handle < |s.connections| && target < |s.modules|
    ensures Indexed(Retarget(s, handle, target))
  {
    var was := s.connections[handle].target;
    if was != target {
      var after := Retarget(s, handle, target);
      WithoutKeepsOthers(s.incoming[was], handle);
      DistinctSnoc(s.incoming[target], handle);
      assert IncomingAgrees(after);
      assert forall c: nat | c < |s.connections| ::
          after.connections[c].origin == s.connections[c].origin
          && after.connections[c].block == s.connections[c].block && after.connections[c].index == s.connections[c].index;
      assert OutgoingAgrees(after) && LocationsAgree(after);
    }
  }

  /** The connection leads to the new module, is listed among what leads there and nowhere else, and no other moved. */
  lemma RetargetLeads(s: Storage, handle: nat, target: nat)
    requires Indexed(s) && handle < |s.connections| && target < |s.modules|
    ensures var after := Retarget(s, handle, target);
            && after.modules == s.modules && |after.connections| == |s.connections|
            && after.connections[handle] == s.connections[handle].(target := target)
            && (forall c: nat | c < |s.connections| && c != handle :: after.connections[c] == s.connections[c])
            && (forall m: nat | m < |s.modules| :: handle in after.incoming[m] <==> m == target)
            && (forall m: nat | m < |s.modules| :: after.outgoing[m] == s.outgoing[m] && after.byLocation[m] == s.byLocation[m])
  {
    RetargetIndexed(s, handle, target);
  }

  /** Where no two connections stand at one place, the location index is exact. */
  lemma LocationExact(s: Storage, c: nat, m: nat, at: Location)
    requires Indexed(s) && c < |s.connections| && m < |s.modules|
    requires forall i: nat, j: nat | i < j < |s.connections| :: !(s.connections[i].StandsAt(m, at) && s.connections[j].StandsAt(m, at))
    ensures s.connections[c].StandsAt(m, at) <==> at in s.byLocation[m] && s.byLocation[m][at] == c
  {
  }

  // ---- the graph, updated in place ----

  class BuildingModuleGraph {
    var modules: seq<Module>
    var connections: seq<Connection>
    var outgoing: seq<seq<nat>>
    var incoming: seq<seq<nat>>
    var byLocation: seq<map<Location, nat>>

    ghost function State(): Storage reads this {
      Storage(modules, connections, outgoing, incoming, byLocation)
    }

    ghost predicate Valid() reads this { Indexed(State()) }

    constructor ()
      ensures Valid() && State() == Storage([], [], [], [], [])
    {
      modules, connections, outgoing, incoming, byLocation := [], [], [], [], [];
    }

    method AddModule(identity: Identity) returns (handle: nat)
      requires Valid()
      modifies this
      ensures Valid() && handle == old(|modules|)
      ensures State() == WithModule(old(State()), identity)
    {
      handle := |modules|;
      AddModuleIndexed(State(), identity);
      modules := modules + [Module(identity, Building)];
      outgoing := outgoing + [[]];
      incoming := incoming + [[]];
      byLocation := byLocation + [map[]];
    }

    method Connect(origin: Option<nat>, block: Option<nat>, index: Option<nat>, dependency: Dependency, target: nat)
      requires Valid() && target < |modules| && (origin.Some? ==> origin.value < |modules|)
      modifies this
      ensures Valid()
      ensures State() == WithConnection(old(State()), Connection(origin, block, index, dependency, target))
    {
      var handle: nat := |connections|;
      ConnectIndexed(State(), Connection(origin, block, index, dependency, target));
      connections := connections + [Connection(origin, block, index, dependency, target)];
      if origin.Some? {
        outgoing := outgoing[origin.value := outgoing[origin.value] + [handle]];
        if index.Some? {
          byLocation := byLocation[origin.value := Placed(byLocation[origin.value], Location(block, index.value), handle)];
        }
      }
      incoming := incoming[target := incoming[target] + [handle]];
    }

    method FinishModule(handle: nat, status: Status) returns (found: bool)
      requires Valid()
      modifies this
      ensures Valid() && found == (handle < old(|modules|))
      ensures State() == if found then SetStatus(old(State()), handle, status) else old(State())
    {
      if |modules| <= handle { return false; }
      SetStatusIndexed(State(), handle, status);
      modules := modules[handle := modules[handle].(status := status)];
      return true;
    }

    method UpdateConnectionModule(handle: nat, target: nat)
      requires Valid() && handle < |connections| && target < |modules|
      modifies this
      ensures Valid() && State() == Retarget(old(State()), handle, target)
    {
      var was := connections[handle].target;
      if was == target { return; }
      RetargetIndexed(State(), handle, target);
      var left := Retain(incoming[was], handle);
      incoming := incoming[was := left];
      incoming := incoming[target := incoming[target] + [handle]];
      connections := connections[handle := connections[handle].(target := target)];
    }
  }
}
