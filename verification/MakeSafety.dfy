/** What holds in every state of the make phase, and what that says once nothing is left to do. */
module MakeSafety {
  import opened Options
  import opened BuildingGraphs
  import opened MakePhases
  import opened MakeStates
  import opened MakeSchedules

  // ---- the graph built so far ----

  function NodeOf(m: Module): Resolution {
    if m.status == Missing then Unresolved(m.identity) else Resolved(m.identity)
  }

  /** What a connection must lead to: what its request resolves to where the dependency stands. */
  ghost predicate LeadsRight(w: World, m: Make, c: Connection, target: Resolution) {
    match c.origin
    case None => exists i: nat :: i < |w.entries| && c.dependency.request == Some(w.entries[i]) && target == w.resolve(None, w.entries[i])
    case Some(h) =>
      && IsBuilt(w, m, h) && c.index.Some?
      && ContentOf(w, m, h).At(Location(c.block, c.index.value)) == Some(c.dependency)
      && c.dependency.request.Some?
      && target == w.resolve(Some(m.graph.modules[h].identity), c.dependency.request.value)
  }

  ghost predicate ConnectionOk(w: World, m: Make, c: Connection) {
    c.target < |m.graph.modules| && LeadsRight(w, m, c, NodeOf(m.graph.modules[c.target]))
  }

  ghost predicate ConnectionsOk(w: World, m: Make) {
    forall c | c in m.graph.connections :: ConnectionOk(w, m, c)
  }

  ghost predicate NodesNeeded(w: World, m: Make) {
    forall h: nat | h < |m.graph.modules| :: Needed(w, NodeOf(m.graph.modules[h]))
  }

  ghost predicate EntryOk(w: World, m: Make, i: nat)
    requires i in m.entries
  {
    i < |w.entries| && m.entries[i] < |m.graph.modules|
    && NodeOf(m.graph.modules[m.entries[i]]) == w.resolve(None, w.entries[i])
  }

  ghost predicate EntriesOk(w: World, m: Make) {
    forall i: nat | i in m.entries :: EntryOk(w, m, i)
  }

  /** A module was built exactly if its source parses. */
  predicate StatusOk(w: World, m: Module) {
    (m.status == Built ==> w.parse(m.identity).Some?) && (m.status == Broken ==> w.parse(m.identity).None?)
  }

  ghost predicate StatusesOk(w: World, m: Make) {
    forall h: nat | h < |m.graph.modules| :: StatusOk(w, m.graph.modules[h])
  }

  ghost predicate MakeOk(w: World, m: Make) {
    WellFormed(m) && ConnectionsOk(w, m) && NodesNeeded(w, m) && EntriesOk(w, m) && StatusesOk(w, m)
  }

  // ---- the tasks ----

  function ContextOf(m: Make, origin: Option<nat>): Option<Identity>
    requires OriginInGraph(m.graph, origin)
  {
    if origin.None? then None else Some(m.graph.modules[origin.value].identity)
  }

  /** A queued dependency is an entry of the compiler, or stands at its place in its module. */
  predicate StandsOk(w: World, m: Make, origin: Option<nat>, d: Queued) {
    match origin
    case None =>
      d.entryIndex.Some? && d.entryIndex.value < |w.entries| && d.dependency.request == Some(w.entries[d.entryIndex.value])
    case Some(h) =>
      d.entryIndex.None? && d.index.Some? && IsBuilt(w, m, h)
      && ContentOf(w, m, h).At(Location(d.block, d.index.value)) == Some(d.dependency)
  }

  predicate AllStand(w: World, m: Make, origin: Option<nat>, dependencies: seq<Queued>) {
    forall d | d in dependencies :: StandsOk(w, m, origin, d)
  }

  predicate OneRequest(dependencies: seq<Queued>, request: string) {
    dependencies != [] && forall d | d in dependencies :: d.dependency.request == Some(request)
  }

  predicate TaskOk(w: World, m: Make, t: Task) {
    match t
    case Factorize(origin, context, dependencies) =>
      && AllStand(w, m, origin, dependencies) && OriginInGraph(m.graph, origin) && context == ContextOf(m, origin)
      && dependencies != [] && dependencies[0].dependency.request.Some?
      && OneRequest(dependencies, dependencies[0].dependency.request.value)
    case Add(origin, dependencies, resolution) =>
      && AllStand(w, m, origin, dependencies) && OriginInGraph(m.graph, origin)
      && dependencies != [] && dependencies[0].dependency.request.Some?
      && OneRequest(dependencies, dependencies[0].dependency.request.value)
      && resolution == w.resolve(ContextOf(m, origin), dependencies[0].dependency.request.value)
    case Build(handle, identity) => handle < |m.graph.modules| && identity == m.graph.modules[handle].identity
    case Process(from, within, dependencies) =>
      AllStand(w, m, Some(from), dependencies) && IsBuilt(w, m, from) && within == m.graph.modules[from].identity
  }

  predicate AllOk(w: World, m: Make, tasks: seq<Task>) {
    forall t | t in tasks :: TaskOk(w, m, t)
  }

  // ---- later states ----

  /** Modules are only added; a module keeps its identity and what it stands for, and stays built. */
  predicate Extends(m: Make, after: Make) {
    && |m.graph.modules| <= |after.graph.modules|
    && forall h: nat | h < |m.graph.modules| ::
         && NodeOf(after.graph.modules[h]) == NodeOf(m.graph.modules[h])
         && (m.graph.modules[h].status == Built ==> after.graph.modules[h].status == Built)
  }

  lemma StandsStays(w: World, m: Make, after: Make, origin: Option<nat>, dependencies: seq<Queued>)
    requires Extends(m, after) && AllStand(w, m, origin, dependencies)
    ensures AllStand(w, after, origin, dependencies)
  {
  }

  lemma TaskStaysOk(w: World, m: Make, after: Make, t: Task)
    requires Extends(m, after) && TaskOk(w, m, t)
    ensures TaskOk(w, after, t)
  {
    match t
    case Factorize(origin, _, dependencies) => StandsStays(w, m, after, origin, dependencies);
    case Add(origin, dependencies, _) => StandsStays(w, m, after, origin, dependencies);
    case Build(_, _) =>
    case Process(from, _, dependencies) => StandsStays(w, m, after, Some(from), dependencies);
  }

  lemma ConnectionStaysOk(w: World, m: Make, after: Make, c: Connection)
    requires Extends(m, after) && ConnectionOk(w, m, c)
    ensures ConnectionOk(w, after, c)
  {
  }

  lemma EntryStaysOk(w: World, m: Make, after: Make, i: nat)
    requires Extends(m, after) && i in m.entries && EntryOk(w, m, i)
    requires i in after.entries && after.entries[i] == m.entries[i]
    ensures EntryOk(w, after, i)
  {
  }

  // ---- an added or found module ----

  /** What adding a resolved, or failed, module and connecting to it does. */
  ghost predicate Landed(m: Make, after: Make, origin: Option<nat>, dependencies: seq<Queued>,
                         resolution: Resolution, handle: nat)
  {
    && (after.graph.modules == m.graph.modules
        || (handle == |m.graph.modules|
            && after.graph.modules == m.graph.modules + [Module(resolution.identity, if resolution.Resolved? then Building else Missing)]))
    && handle < |after.graph.modules| && NodeOf(after.graph.modules[handle]) == resolution
    && after.graph.connections == m.graph.connections + Made(origin, dependencies, handle)
  }

  ghost predicate EntriesLanded(m: Make, after: Make, dependencies: seq<Queued>, handle: nat) {
    forall e: nat ::
      var named := exists d :: d in dependencies && d.entryIndex == Some(e);
      && (e in after.entries <==> e in m.entries || named)
      && (e in after.entries ==> after.entries[e] == if named then handle else m.entries[e])
  }

  function TargetOf(m: Make, identity: Identity): nat {
    if identity in m.byIdentity then m.byIdentity[identity] else |m.graph.modules|
  }

  /** An added module is what the request of its dependencies resolves to where they stand. */
  lemma AddNeeded(w: World, m: Make, origin: Option<nat>, dependencies: seq<Queued>, resolution: Resolution)
    requires NodesNeeded(w, m) && TaskOk(w, m, Add(origin, dependencies, resolution))
    ensures Needed(w, resolution)
  {
    var d := dependencies[0];
    assert d in dependencies && StandsOk(w, m, origin, d);
    match origin {
      case None => EntryNeeded(w, d.entryIndex.value);
      case Some(h) =>
        var node := NodeOf(m.graph.modules[h]);
        assert LeadsTo(w, node.identity, Location(d.block, d.index.value), resolution);
        EdgeNeeded(w, node, resolution);
    }
  }

  lemma AddLands(w: World, m: Make, origin: Option<nat>, dependencies: seq<Queued>, resolution: Resolution)
    requires Separate(w) && Needed(w, resolution)
    requires WellFormed(m) && NodesNeeded(w, m) && OriginInGraph(m.graph, origin)
    ensures WellFormed(RunAdd(m, origin, dependencies, resolution).make)
    ensures Landed(m, RunAdd(m, origin, dependencies, resolution).make, origin, dependencies, resolution,
                   TargetOf(m, resolution.identity))
  {
    var handle := TargetOf(m, resolution.identity);
    AddedLands(m, origin, dependencies, resolution.identity);
    if resolution.identity in m.byIdentity {
      assert Needed(w, NodeOf(m.graph.modules[handle]));
    }
    if resolution.Unresolved? {
      FailedLands(m, Added(m, origin, dependencies, resolution.identity), origin, dependencies, resolution, handle);
    }
  }

  /** Before a failure is recorded, the module found or added stands for a resolved identity. */
  lemma AddedLands(m: Make, origin: Option<nat>, dependencies: seq<Queued>, identity: Identity)
    requires WellFormed(m) && OriginInGraph(m.graph, origin)
    ensures var added := Added(m, origin, dependencies, identity);
            var handle := TargetOf(m, identity);
            && WellFormed(added) && handle < |added.graph.modules|
            && added.graph.modules == m.graph.modules + (if identity in m.byIdentity then [] else [Module(identity, Building)])
            && added.graph.connections == m.graph.connections + Made(origin, dependencies, handle)
  {
    AddOrConnectWellFormed(m, origin, dependencies, identity);
    PlaceWellFormed(m, identity);
    ConnectAllEffect(Place(m, identity), origin, dependencies, TargetOf(m, identity));
  }

  lemma FailedLands(m: Make, added: Make, origin: Option<nat>, dependencies: seq<Queued>,
                    resolution: Resolution, handle: nat)
    requires resolution.Unresolved? && WellFormed(added) && handle < |added.graph.modules|
    requires handle < |m.graph.modules| ==> NodeOf(m.graph.modules[handle]) == resolution
    requires added.graph.modules ==
             m.graph.modules + (if handle < |m.graph.modules| then [] else [Module(resolution.identity, Building)])
    requires added.graph.connections == m.graph.connections + Made(origin, dependencies, handle)
    ensures WellFormed(EndBuild(added, handle, Missing))
    ensures Landed(m, EndBuild(added, handle, Missing), origin, dependencies, resolution, handle)
  {
    EndBuildWellFormed(added, handle, Missing);
    if handle < |m.graph.modules| {
      assert m.graph.modules[handle := m.graph.modules[handle].(status := Missing)] == m.graph.modules;
    }
  }

  lemma AddEntries(m: Make, origin: Option<nat>, dependencies: seq<Queued>, resolution: Resolution)
    requires WellFormed(m) && OriginInGraph(m.graph, origin)
    ensures EntriesLanded(m, RunAdd(m, origin, dependencies, resolution).make, dependencies, TargetOf(m, resolution.identity))
  {
    PlaceWellFormed(m, resolution.identity);
    var placed := Place(m, resolution.identity);
    var handle := HandleOf(placed, resolution.identity);
    ConnectAllEffect(placed, origin, dependencies, handle);
    forall e: nat
      ensures var named := exists d :: d in dependencies && d.entryIndex == Some(e);
              var after := ConnectAll(placed, origin, dependencies, handle).entries;
              (e in after <==> e in m.entries || named) && (e in after ==> after[e] == if named then handle else m.entries[e])
    {
      ConnectAllEntries(placed, origin, dependencies, handle, e);
    }
  }

  /** A failed request marks its stand-in as missing, even a module built before: hence `Separate`. */
  lemma FailureMarksStandIn(m: Make, origin: Option<nat>, dependencies: seq<Queued>, identity: Identity, h: nat)
    requires WellFormed(m) && OriginInGraph(m.graph, origin) && h < |m.graph.modules|
    ensures var after := RunAdd(m, origin, dependencies, Unresolved(identity)).make.graph.modules;
            && h < |after|
            && after[h].status == if m.graph.modules[h].identity == identity then Missing else m.graph.modules[h].status
  {
    AddedLands(m, origin, dependencies, identity);
  }

  lemma LandedExtends(m: Make, after: Make, origin: Option<nat>, dependencies: seq<Queued>, resolution: Resolution, handle: nat)
    requires Landed(m, after, origin, dependencies, resolution, handle)
    ensures Extends(m, after)
  {
  }

  lemma LandedConnectionsOk(w: World, m: Make, after: Make, origin: Option<nat>, dependencies: seq<Queued>,
                            resolution: Resolution, handle: nat)
    requires ConnectionsOk(w, m) && Landed(m, after, origin, dependencies, resolution, handle)
    requires TaskOk(w, m, Add(origin, dependencies, resolution))
    ensures ConnectionsOk(w, after)
  {
    LandedExtends(m, after, origin, dependencies, resolution, handle);
    StandsStays(w, m, after, origin, dependencies);
    forall c | c in after.graph.connections ensures ConnectionOk(w, after, c) {
      if c in m.graph.connections {
        ConnectionStaysOk(w, m, after, c);
      } else {
        var k: nat :| k < |dependencies| && c == ConnectionFor(origin, dependencies[k], handle);
        assert dependencies[k] in dependencies && StandsOk(w, after, origin, dependencies[k]);
      }
    }
  }

  lemma LandedNodesNeeded(w: World, m: Make, after: Make, origin: Option<nat>, dependencies: seq<Queued>,
                          resolution: Resolution, handle: nat)
    requires NodesNeeded(w, m) && Landed(m, after, origin, dependencies, resolution, handle)
    requires TaskOk(w, m, Add(origin, dependencies, resolution))
    ensures NodesNeeded(w, after)
  {
    AddNeeded(w, m, origin, dependencies, resolution);
  }

  lemma LandedEntriesOk(w: World, m: Make, after: Make, origin: Option<nat>, dependencies: seq<Queued>,
                        resolution: Resolution, handle: nat)
    requires EntriesOk(w, m) && Landed(m, after, origin, dependencies, resolution, handle)
    requires EntriesLanded(m, after, dependencies, handle)
    requires TaskOk(w, m, Add(origin, dependencies, resolution))
    ensures EntriesOk(w, after)
  {
    LandedExtends(m, after, origin, dependencies, resolution, handle);
    forall i: nat | i in after.entries ensures EntryOk(w, after, i) {
      if d :| d in dependencies && d.entryIndex == Some(i) {
        assert StandsOk(w, m, origin, d);
      } else {
        EntryStaysOk(w, m, after, i);
      }
    }
  }

  lemma LandedStatusesOk(w: World, m: Make, after: Make, origin: Option<nat>, dependencies: seq<Queued>,
                         resolution: Resolution, handle: nat)
    requires StatusesOk(w, m) && Landed(m, after, origin, dependencies, resolution, handle)
    ensures StatusesOk(w, after)
  {
  }

  lemma AddKeeps(w: World, m: Make, t: Task)
    requires Separate(w) && MakeOk(w, m) && TaskOk(w, m, t) && t.Add?
    ensures Kept(w, m, RunAdd(m, t.origin, t.dependencies, t.resolution))
  {
    var e := RunAdd(m, t.origin, t.dependencies, t.resolution);
    var handle := TargetOf(m, t.resolution.identity);
    AddNeeded(w, m, t.origin, t.dependencies, t.resolution);
    AddLands(w, m, t.origin, t.dependencies, t.resolution);
    AddEntries(m, t.origin, t.dependencies, t.resolution);
    LandedExtends(m, e.make, t.origin, t.dependencies, t.resolution, handle);
    LandedConnectionsOk(w, m, e.make, t.origin, t.dependencies, t.resolution, handle);
    LandedNodesNeeded(w, m, e.make, t.origin, t.dependencies, t.resolution, handle);
    LandedEntriesOk(w, m, e.make, t.origin, t.dependencies, t.resolution, handle);
    LandedStatusesOk(w, m, e.make, t.origin, t.dependencies, t.resolution, handle);
    AddedChildOk(w, m, t);
  }

  lemma AddedChildOk(w: World, m: Make, t: Task)
    requires WellFormed(m) && t.Add? && OriginInGraph(m.graph, t.origin)
    ensures var e := RunAdd(m, t.origin, t.dependencies, t.resolution);
            AllOk(w, e.make, e.children)
  {
    AddedLands(m, t.origin, t.dependencies, t.resolution.identity);
  }

  /** The effect of a task keeps everything said of the graph and of tasks. */
  ghost predicate Kept(w: World, m: Make, e: Effect) {
    MakeOk(w, e.make) && Extends(m, e.make) && AllOk(w, e.make, e.children)
  }

  // ---- building a module ----

  predicate PlacedIn(content: Content, d: Queued) {
    d.entryIndex.None? && d.index.Some? && content.At(Location(d.block, d.index.value)) == Some(d.dependency)
  }

  lemma {:induction false} BlocksStand(blocks: seq<seq<Dependency>>, content: Content, d: Queued)
    requires |blocks| <= |content.blocks| && blocks == content.blocks[..|blocks|] && d in BlocksEnumerated(blocks)
    ensures PlacedIn(content, d)
    decreases |blocks|
  {
    if d in BlocksEnumerated(blocks[..|blocks| - 1]) {
      BlocksStand(blocks[..|blocks| - 1], content, d);
    }
  }

  lemma QueuedStands(content: Content)
    ensures forall d | d in QueuedOf(content) :: PlacedIn(content, d)
  {
    forall d | d in QueuedOf(content) ensures PlacedIn(content, d) {
      if d !in Enumerated(None, content.dependencies) {
        assert content.blocks[..|content.blocks|] == content.blocks;
        BlocksStand(content.blocks, content, d);
      }
    }
  }

  lemma EndBuildExtends(m: Make, handle: nat, status: Status)
    requires WellFormed(m) && handle < |m.graph.modules|
    requires m.graph.modules[handle].status == Building && (status == Built || status == Broken)
    ensures Extends(m, EndBuild(m, handle, status))
  {
  }

  lemma EndBuildKeeps(w: World, m: Make, handle: nat, status: Status)
    requires MakeOk(w, m) && handle < |m.graph.modules|
    requires m.graph.modules[handle].status == Building
    requires status == if w.parse(m.graph.modules[handle].identity).Some? then Built else Broken
    ensures MakeOk(w, EndBuild(m, handle, status)) && Extends(m, EndBuild(m, handle, status))
  {
    var after := EndBuild(m, handle, status);
    EndBuildWellFormed(m, handle, status);
    EndBuildExtends(m, handle, status);
    forall c | c in after.graph.connections ensures ConnectionOk(w, after, c) { ConnectionStaysOk(w, m, after, c); }
    forall i: nat | i in after.entries ensures EntryOk(w, after, i) { EntryStaysOk(w, m, after, i); }
  }

  lemma ProcessOk(w: World, m: Make, from: nat)
    requires IsBuilt(w, m, from)
    ensures TaskOk(w, m, Process(from, m.graph.modules[from].identity, QueuedOf(ContentOf(w, m, from))))
  {
    QueuedStands(ContentOf(w, m, from));
  }

  lemma BuildKeeps(w: World, m: Make, handle: nat)
    requires MakeOk(w, m) && handle < |m.graph.modules| && m.graph.modules[handle].status == Building
    ensures Kept(w, m, RunBuild(w, m, handle, m.graph.modules[handle].identity))
  {
    var identity := m.graph.modules[handle].identity;
    var status := if w.parse(identity).None? then Broken else Built;
    EndBuildKeeps(w, m, handle, status);
    if status == Built { ProcessOk(w, EndBuild(m, handle, Built), handle); }
  }

  // ---- processing the dependencies of a module ----

  predicate GroupOk(g: Group, dependencies: seq<Queued>) {
    && g.dependencies != []
    && forall d | d in g.dependencies :: d in dependencies && d.dependency.request == Some(g.request)
  }

  lemma {:induction false} InsertIntoOk(groups: seq<Group>, d: Queued, dependencies: seq<Queued>)
    requires d in dependencies && d.dependency.request.Some?
    requires forall g | g in groups :: GroupOk(g, dependencies)
    ensures forall g | g in InsertInto(groups, d.dependency.request.value, d) :: GroupOk(g, dependencies)
  {
    var request := d.dependency.request.value;
    if groups == [] {
      assert GroupOk(Group(request, [d]), dependencies);
    } else {
      assert GroupOk(groups[0], dependencies);
      if groups[0].request != request {
        InsertIntoOk(groups[1..], d, dependencies);
      } else {
        assert GroupOk(groups[0].(dependencies := groups[0].dependencies + [d]), dependencies);
      }
    }
  }

  lemma {:induction false} GroupsOk(dependencies: seq<Queued>)
    ensures forall g | g in Grouped(dependencies) :: GroupOk(g, dependencies)
    decreases |dependencies|
  {
    if dependencies != [] {
      var before := dependencies[..|dependencies| - 1];
      var d := dependencies[|dependencies| - 1];
      GroupsOk(before);
      assert forall e | e in before :: e in dependencies;
      if d.dependency.request.Some? { InsertIntoOk(Grouped(before), d, dependencies); }
    }
  }

  lemma {:induction false} FactorizeAllOk(w: World, m: Make, from: nat, dependencies: seq<Queued>, groups: seq<Group>)
    requires IsBuilt(w, m, from) && AllStand(w, m, Some(from), dependencies)
    requires forall g | g in groups :: GroupOk(g, dependencies)
    ensures AllOk(w, m, FactorizeAll(from, m.graph.modules[from].identity, groups))
  {
    if groups != [] {
      FactorizeAllOk(w, m, from, dependencies, groups[1..]);
      assert GroupOk(groups[0], dependencies);
      assert groups[0].dependencies[0] in groups[0].dependencies;
      assert TaskOk(w, m, Factorize(Some(from), Some(m.graph.modules[from].identity), groups[0].dependencies));
    }
  }

  lemma RunKeeps(w: World, m: Make, t: Task)
    requires Separate(w) && MakeOk(w, m) && TaskOk(w, m, t)
    requires t.Build? ==> m.graph.modules[t.handle].status == Building
    ensures Runnable(m, t) && Kept(w, m, RunTask(w, m, t))
  {
    match t
    case Factorize(_, _, _) =>
    case Add(_, _, _) => AddKeeps(w, m, t);
    case Build(handle, _) => BuildKeeps(w, m, handle);
    case Process(from, _, dependencies) =>
      GroupsOk(dependencies);
      FactorizeAllOk(w, m, from, dependencies, Grouped(dependencies));
  }

  // ---- every dependency is carried to exactly one connection ----

  lemma {:induction false} CountPositive(token: Token, origin: Option<nat>, dependencies: seq<Queued>)
    ensures Count(token, origin, dependencies) > 0 <==> exists d :: d in dependencies && Matches(token, origin, d)
    decreases |dependencies|
  {
    if dependencies != [] {
      var before := dependencies[..|dependencies| - 1];
      CountPositive(token, origin, before);
      assert forall d :: d in dependencies <==> d in before || d == dependencies[|dependencies| - 1];
    }
  }

  lemma {:induction false} CountMade(connections: seq<Connection>, origin: Option<nat>, dependencies: seq<Queued>,
                                     handle: nat, m: nat, at: Location)
    requires forall d | d in dependencies :: d.dependency.request.Some?
    ensures CountAt(connections + Made(origin, dependencies, handle), m, at)
         == CountAt(connections, m, at) + Count(Spot(m, at), origin, dependencies)
    decreases |dependencies|
  {
    var made := Made(origin, dependencies, handle);
    if dependencies == [] {
      assert connections + made == connections;
    } else {
      var before := dependencies[..|dependencies| - 1];
      CountMade(connections, origin, before, handle, m, at);
      assert (connections + made)[..|connections + made| - 1] == connections + Made(origin, before, handle);
    }
  }

  lemma SpotLanded(w: World, m: Make, after: Make, t: Task, handle: nat, h: nat, at: Location)
    requires t.Add? && TaskOk(w, m, t) && Landed(m, after, t.origin, t.dependencies, t.resolution, handle)
    ensures Done(after, Spot(h, at)) == Done(m, Spot(h, at)) + Weight(Spot(h, at), t)
    ensures Due(w, after, Spot(h, at)) == Due(w, m, Spot(h, at))
  {
    CountMade(m.graph.connections, t.origin, t.dependencies, handle, h, at);
  }

  lemma EntryLanded(m: Make, after: Make, t: Task, handle: nat, i: nat)
    requires t.Add? && EntriesLanded(m, after, t.dependencies, handle)
    requires forall d | d in t.dependencies :: d.dependency.request.Some?
    requires Done(m, EntryOf(i)) + Weight(EntryOf(i), t) <= 1
    ensures Done(after, EntryOf(i)) == Done(m, EntryOf(i)) + Weight(EntryOf(i), t)
  {
    CountPositive(EntryOf(i), t.origin, t.dependencies);
    assert forall d | d in t.dependencies :: Matches(EntryOf(i), t.origin, d) <==> d.entryIndex == Some(i);
  }

  lemma BuildLanded(w: World, m: Make, after: Make, t: Task, handle: nat, h: nat)
    requires t.Add? && Landed(m, after, t.origin, t.dependencies, t.resolution, handle)
    requires handle == TargetOf(m, t.resolution.identity)
    requires t.resolution.identity in m.byIdentity <==> after.graph.modules == m.graph.modules
    requires t.resolution.identity in m.byIdentity ==> handle < |m.graph.modules|
    ensures Due(w, after, BuildOf(h)) - Due(w, m, BuildOf(h)) ==
            if t.resolution.Resolved? && t.resolution.identity !in m.byIdentity && h == handle then 1 else 0
    ensures Weight(BuildOf(h), t) == 0
  {
    NoBuildWeight(BuildOf(h), t.origin, t.dependencies);
  }

  lemma AddChildren(m: Make, t: Task, token: Token)
    requires t.Add? && WellFormed(m) && OriginInGraph(m.graph, t.origin)
    ensures Total(token, RunAdd(m, t.origin, t.dependencies, t.resolution).children) ==
            if t.resolution.Resolved? && t.resolution.identity !in m.byIdentity
               && token == BuildOf(TargetOf(m, t.resolution.identity)) then 1 else 0
  {
    var children := RunAdd(m, t.origin, t.dependencies, t.resolution).children;
    if children != [] {
      assert children == [Build(TargetOf(m, t.resolution.identity), t.resolution.identity)];
      assert children[1..] == [];
    }
  }

  lemma AddBalanced(w: World, m: Make, t: Task, token: Token, left: nat)
    requires Separate(w) && MakeOk(w, m) && TaskOk(w, m, t) && t.Add?
    requires Balanced(w, m, token, Weight(token, t) + left)
    ensures var e := RunAdd(m, t.origin, t.dependencies, t.resolution);
            Balanced(w, e.make, token, Total(token, e.children) + left)
  {
    var after := RunAdd(m, t.origin, t.dependencies, t.resolution).make;
    var handle := TargetOf(m, t.resolution.identity);
    AddNeeded(w, m, t.origin, t.dependencies, t.resolution);
    AddLands(w, m, t.origin, t.dependencies, t.resolution);
    AddChildren(m, t, token);
    match token
    case Spot(h, at) => SpotLanded(w, m, after, t, handle, h, at);
    case BuildOf(h) =>
      AddedLands(m, t.origin, t.dependencies, t.resolution.identity);
      BuildLanded(w, m, after, t, handle, h);
    case EntryOf(i) =>
      AddEntries(m, t.origin, t.dependencies, t.resolution);
      EntryLanded(m, after, t, handle, i);
  }

  lemma {:induction false} NoBuildWeight(token: Token, origin: Option<nat>, dependencies: seq<Queued>)
    requires token.BuildOf?
    ensures Count(token, origin, dependencies) == 0
    decreases |dependencies|
  {
    if dependencies != [] { NoBuildWeight(token, origin, dependencies[..|dependencies| - 1]); }
  }

  lemma {:induction false} EnumeratedOnce(block: Option<nat>, dependencies: seq<Dependency>, m: nat, at: Location)
    ensures Count(Spot(m, at), Some(m), Enumerated(block, dependencies))
         == if at.block == block && at.index < |dependencies| && dependencies[at.index].request.Some? then 1 else 0
    decreases |dependencies|
  {
    if dependencies != [] {
      var n := |dependencies| - 1;
      assert Enumerated(block, dependencies)[..n] == Enumerated(block, dependencies[..n]);
      EnumeratedOnce(block, dependencies[..n], m, at);
    }
  }

  lemma {:induction false} BlocksOnce(blocks: seq<seq<Dependency>>, m: nat, at: Location)
    ensures Count(Spot(m, at), Some(m), BlocksEnumerated(blocks))
         == if at.block.Some? && at.block.value < |blocks| && at.index < |blocks[at.block.value]|
               && blocks[at.block.value][at.index].request.Some? then 1 else 0
    decreases |blocks|
  {
    if blocks != [] {
      var n := |blocks| - 1;
      BlocksOnce(blocks[..n], m, at);
      EnumeratedOnce(Some(n), blocks[n], m, at);
      CountConcat(Spot(m, at), Some(m), BlocksEnumerated(blocks[..n]), Enumerated(Some(n), blocks[n]));
    }
  }

  /** A module queues each of its module dependencies once, at its place. */
  lemma QueuedOnce(content: Content, m: nat, at: Location)
    ensures Count(Spot(m, at), Some(m), QueuedOf(content)) == if HasRequestAt(content, at) then 1 else 0
  {
    EnumeratedOnce(None, content.dependencies, m, at);
    BlocksOnce(content.blocks, m, at);
    CountConcat(Spot(m, at), Some(m), Enumerated(None, content.dependencies), BlocksEnumerated(content.blocks));
  }

  lemma {:induction false} NoMatchNoCount(token: Token, origin: Option<nat>, dependencies: seq<Queued>)
    requires forall d | d in dependencies :: !Matches(token, origin, d)
    ensures Count(token, origin, dependencies) == 0
  {
    CountPositive(token, origin, dependencies);
  }

  /** The module being built is the only one whose dependencies become due, and whose build is done. */
  lemma BuildDue(w: World, m: Make, handle: nat, status: Status, token: Token)
    requires handle < |m.graph.modules| && m.graph.modules[handle].status == Building
    requires status == if w.parse(m.graph.modules[handle].identity).Some? then Built else Broken
    ensures var after := EndBuild(m, handle, status);
            && Done(after, token) == Done(m, token)
            && (token == BuildOf(handle) ==> Due(w, m, token) == 1 && Due(w, after, token) == 0)
            && (token.Spot? && token.origin == handle ==>
                  Due(w, m, token) == 0 &&
                  (Due(w, after, token) == 1 <==> status == Built && HasRequestAt(ContentOf(w, after, handle), token.at)))
            && (token != BuildOf(handle) && !(token.Spot? && token.origin == handle) ==> Due(w, after, token) == Due(w, m, token))
  {
  }

  lemma ProcessWeight(content: Content, handle: nat, token: Token)
    ensures Count(token, Some(handle), QueuedOf(content)) ==
            if token.Spot? && token.origin == handle && HasRequestAt(content, token.at) then 1 else 0
  {
    QueuedStands(content);
    if token.Spot? && token.origin == handle {
      QueuedOnce(content, handle, token.at);
    } else {
      NoMatchNoCount(token, Some(handle), QueuedOf(content));
    }
  }

  lemma BuildChildren(w: World, m: Make, handle: nat, token: Token)
    requires handle < |m.graph.modules|
    ensures var identity := m.graph.modules[handle].identity;
            Total(token, RunBuild(w, m, handle, identity).children) ==
            if w.parse(identity).Some? then Count(token, Some(handle), QueuedOf(w.parse(identity).value)) else 0
  {
    var children := RunBuild(w, m, handle, m.graph.modules[handle].identity).children;
    if children != [] { assert children[1..] == []; }
  }

  lemma BuildBalanced(w: World, m: Make, handle: nat, token: Token, left: nat)
    requires handle < |m.graph.modules| && m.graph.modules[handle].status == Building
    requires Balanced(w, m, token, (if token == BuildOf(handle) then 1 else 0) + left)
    ensures var e := RunBuild(w, m, handle, m.graph.modules[handle].identity);
            Balanced(w, e.make, token, Total(token, e.children) + left)
  {
    var content := w.parse(m.graph.modules[handle].identity);
    BuildDue(w, m, handle, if content.Some? then Built else Broken, token);
    BuildChildren(w, m, handle, token);
    if content.Some? { ProcessWeight(content.value, handle, token); }
  }

  function GroupsCount(token: Token, origin: Option<nat>, groups: seq<Group>): nat {
    if groups == [] then 0 else Count(token, origin, groups[0].dependencies) + GroupsCount(token, origin, groups[1..])
  }

  lemma {:induction false} InsertIntoCount(token: Token, origin: Option<nat>, groups: seq<Group>, request: string, d: Queued)
    ensures GroupsCount(token, origin, InsertInto(groups, request, d))
         == GroupsCount(token, origin, groups) + if Matches(token, origin, d) then 1 else 0
  {
    CountConcat(token, origin, if groups == [] then [] else groups[0].dependencies, [d]);
    assert [d][..0] == [];
    if groups != [] && groups[0].request != request {
      InsertIntoCount(token, origin, groups[1..], request, d);
    }
  }

  lemma {:induction false} GroupedCount(token: Token, origin: Option<nat>, dependencies: seq<Queued>)
    ensures GroupsCount(token, origin, Grouped(dependencies)) == Count(token, origin, dependencies)
    decreases |dependencies|
  {
    if dependencies != [] {
      var before := dependencies[..|dependencies| - 1];
      var d := dependencies[|dependencies| - 1];
      GroupedCount(token, origin, before);
      if d.dependency.request.Some? {
        InsertIntoCount(token, origin, Grouped(before), d.dependency.request.value, d);
      }
    }
  }

  lemma {:induction false} FactorizeAllTotal(token: Token, from: nat, within: Identity, groups: seq<Group>)
    ensures Total(token, FactorizeAll(from, within, groups)) == GroupsCount(token, Some(from), groups)
  {
    if groups != [] {
      FactorizeAllTotal(token, from, within, groups[1..]);
      var first := Factorize(Some(from), Some(within), groups[0].dependencies);
      TotalConcat(token, [first], FactorizeAll(from, within, groups[1..]));
      assert [first][1..] == [];
    }
  }

  /** What a task owes passes to the connections it makes and to its children, and nowhere else. */
  lemma RunBalanced(w: World, m: Make, t: Task, token: Token, left: nat)
    requires Separate(w) && MakeOk(w, m) && TaskOk(w, m, t) && Runnable(m, t)
    requires t.Build? ==> m.graph.modules[t.handle].status == Building
    requires Balanced(w, m, token, Weight(token, t) + left)
    ensures Balanced(w, RunTask(w, m, t).make, token, Total(token, RunTask(w, m, t).children) + left)
  {
    match t
    case Factorize(_, _, _) =>
      var child := RunTask(w, m, t).children[0];
      assert RunTask(w, m, t).children[1..] == [];
      assert Total(token, [child]) == Weight(token, child);
    case Add(_, _, _) => AddBalanced(w, m, t, token, left);
    case Build(handle, _) => BuildBalanced(w, m, handle, token, left);
    case Process(from, within, dependencies) =>
      GroupedCount(token, Some(from), dependencies);
      FactorizeAllTotal(token, from, within, Grouped(dependencies));
  }
}
