/** The finished module graph as chunk planning reads it, and static reachability over it. */
module ModuleGraphs {
  import opened Options
  import opened Reachability
  import opened Sequences
  import opened ModuleMasks

  datatype Dependency =
    | Entry
    | HarmonyImportSideEffect
    | HarmonyImportSpecifier
    | HarmonyExportImportedSpecifier
    | Import
    | Loader
    | LoaderImport
    | Presentational
  {
    predicate IsStaticModuleDependency() {
      Entry? || HarmonyImportSideEffect? || HarmonyImportSpecifier? || HarmonyExportImportedSpecifier?
    }
  }

  datatype Connection = Connection(originBlock: Option<nat>, dependency: Dependency, active: bool, target: nat)
  {
    /** Followed when the static modules of a chunk are collected. */
    predicate IsStatic() {
      originBlock.None? && dependency.IsStaticModuleDependency() && active
    }
  }

  datatype Module = Module(blocks: seq<seq<Dependency>>, outgoing: seq<Connection>)

  type ModuleGraph = seq<Module>

  /** The dense handles 0 .. count - 1. */
  ghost function Handles(count: nat): (handles: set<nat>)
    ensures |handles| == count
    ensures forall m: nat :: m in handles <==> m < count
  {
    if count == 0 then {} else Handles(count - 1) + {count - 1}
  }

  /** How many handles a search has still to see. */
  ghost function Unseen(count: nat, seen: set<nat>): nat {
    |Handles(count) - seen|
  }

  lemma OneLessUnseen(count: nat, seen: set<nat>, handle: nat)
    requires handle < count && handle !in seen
    ensures Unseen(count, seen + {handle}) < Unseen(count, seen)
  {
    var fewer := Handles(count) - (seen + {handle});
    assert Handles(count) - seen == fewer + {handle};
  }

  ghost predicate WellFormed(graph: ModuleGraph) {
    forall m, c | 0 <= m < |graph| && c in graph[m].outgoing :: c.target < |graph|
  }

  ghost predicate StaticEdge(graph: ModuleGraph, from: nat, to: nat)
    requires from < |graph|
  {
    exists c :: c in graph[from].outgoing && c.IsStatic() && c.target == to
  }

  ghost function StaticEdges(graph: ModuleGraph): set<(nat, nat)> {
    set from: nat, to: nat | from < |graph| && to < |graph| && StaticEdge(graph, from, to) :: (from, to)
  }

  /** The static closure of a module: what must be installed before it can run. */
  ghost function StaticModules(graph: ModuleGraph, start: nat): set<nat> {
    set m: nat | m < |graph| && Reaches(StaticEdges(graph), start, m)
  }

  lemma StartIsStaticModule(graph: ModuleGraph, start: nat)
    requires start < |graph|
    ensures start in StaticModules(graph, start)
  {
    ReachesSelf(StaticEdges(graph), start);
  }

  lemma StaticModulesClosed(graph: ModuleGraph, start: nat, m: nat, next: nat)
    requires m in StaticModules(graph, start) && (m, next) in StaticEdges(graph)
    ensures next in StaticModules(graph, start)
  {
    ReachesStep(StaticEdges(graph), start, m, next);
  }

  /** Whatever set holds a module and is closed under static edges holds its closure. */
  lemma ClosedContainsStaticModules(graph: ModuleGraph, closed: set<nat>, start: nat)
    requires start in closed
    requires forall edge | edge in StaticEdges(graph) && edge.0 in closed :: edge.1 in closed
    ensures StaticModules(graph, start) <= closed
  {
    forall m | m in StaticModules(graph, start)
      ensures m in closed
    {
      ClosedContainsReachable(StaticEdges(graph), closed, start, m);
    }
  }

  // ---- what runs before a module, by the fields of its connections ----

  /** Its target runs first: made outside any block by an entry, an import or a re-export, and still active. */
  predicate RunsFirst(c: Connection) {
    && c.originBlock.None? && c.active
    && match c.dependency
       case Entry => true
       case HarmonyImportSideEffect => true
       case HarmonyImportSpecifier => true
       case HarmonyExportImportedSpecifier => true
       case Import => false
       case Loader => false
       case LoaderImport => false
       case Presentational => false
  }

  /** Whatever has to run before one of these modules is among them. */
  ghost predicate ImportsMet(graph: ModuleGraph, modules: set<nat>) {
    forall m: nat, c | m in modules && m < |graph| && c in graph[m].outgoing && RunsFirst(c) :: c.target in modules
  }

  /** The module and what has to run before it, and nothing else. */
  ghost predicate LeastMet(graph: ModuleGraph, start: nat, modules: set<nat>) {
    && start in modules && ImportsMet(graph, modules)
    && forall other: set<nat> | start in other && ImportsMet(graph, other) :: modules <= other
  }

  lemma EdgeIffRunsFirst(graph: ModuleGraph, m: nat, next: nat)
    requires WellFormed(graph) && m < |graph|
    ensures (m, next) in StaticEdges(graph) <==> exists c :: c in graph[m].outgoing && RunsFirst(c) && c.target == next
  {
    if c :| c in graph[m].outgoing && RunsFirst(c) && c.target == next { assert c.IsStatic(); }
    if (m, next) in StaticEdges(graph) {
      var c :| c in graph[m].outgoing && c.IsStatic() && c.target == next;
      assert RunsFirst(c);
    }
  }

  /** The static closure is the least set that holds a module and all that has to run first. */
  lemma StaticModulesLeast(graph: ModuleGraph, start: nat)
    requires WellFormed(graph) && start < |graph|
    ensures LeastMet(graph, start, StaticModules(graph, start))
  {
    StartIsStaticModule(graph, start);
    forall m: nat, c | m in StaticModules(graph, start) && c in graph[m].outgoing && RunsFirst(c)
      ensures c.target in StaticModules(graph, start)
    {
      EdgeIffRunsFirst(graph, m, c.target);
      StaticModulesClosed(graph, start, m, c.target);
    }
    forall other: set<nat> | start in other && ImportsMet(graph, other) ensures StaticModules(graph, start) <= other {
      forall edge | edge in StaticEdges(graph) && edge.0 in other ensures edge.1 in other {
        EdgeIffRunsFirst(graph, edge.0, edge.1);
      }
      ClosedContainsStaticModules(graph, other, start);
    }
  }

  /** Appends the static targets of one module to the queue, in connection order. */
  method PushStaticTargets(graph: ModuleGraph, m: nat, queue: seq<nat>) returns (longer: seq<nat>)
    requires WellFormed(graph) && m < |graph|
    ensures forall next :: next in longer <==> next in queue || (m, next) in StaticEdges(graph)
  {
    longer := queue;
    var outgoing := graph[m].outgoing;
    for i := 0 to |outgoing|
      invariant forall next :: next in longer <==>
        next in queue || exists k :: 0 <= k < i && outgoing[k].IsStatic() && outgoing[k].target == next
    {
      assert outgoing[i] in graph[m].outgoing;
      if outgoing[i].IsStatic() {
        longer := longer + [outgoing[i].target];
      }
    }
    forall next
      ensures (m, next) in StaticEdges(graph) <==>
        exists k :: 0 <= k < |outgoing| && outgoing[k].IsStatic() && outgoing[k].target == next
    {
      if k :| 0 <= k < |outgoing| && outgoing[k].IsStatic() && outgoing[k].target == next {
        assert outgoing[k] in graph[m].outgoing;
      }
    }
  }

  /** Where a breadth-first collection stands: everything listed or queued is reachable,
      and every static edge out of the list leads into the list or the queue. */
  ghost predicate Collecting(graph: ModuleGraph, start: nat, listed: set<nat>, queued: seq<nat>) {
    && (forall m: nat | m in listed :: m in StaticModules(graph, start))
    && (forall m: nat | m in queued :: m in StaticModules(graph, start))
    && (forall edge | edge in StaticEdges(graph) && edge.0 in listed :: edge.1 in listed || edge.1 in queued)
    && (start in listed || start in queued)
  }

  lemma CollectingStep(graph: ModuleGraph, start: nat, listed: set<nat>, m: nat, queued: seq<nat>, longer: seq<nat>)
    requires Collecting(graph, start, listed, [m] + queued)
    requires forall next :: next in longer <==> next in queued || (m, next) in StaticEdges(graph)
    ensures Collecting(graph, start, listed + {m}, longer)
  {
    assert m in [m] + queued;
    forall next: nat | next in longer
      ensures next in StaticModules(graph, start)
    {
      if next in queued {
        assert next in [m] + queued;
      } else {
        StaticModulesClosed(graph, start, m, next);
      }
    }
  }

  lemma Collected(graph: ModuleGraph, start: nat, listed: set<nat>)
    requires Collecting(graph, start, listed, [])
    ensures listed == StaticModules(graph, start)
  {
    ClosedContainsStaticModules(graph, listed, start);
  }

  /** What is listed so far: each module once, the start first. */
  ghost predicate Listing(graph: ModuleGraph, start: nat, modules: seq<nat>, queue: seq<nat>) {
    && Distinct(modules)
    && (if modules == [] then queue == [start] else modules[0] == start)
    && Collecting(graph, start, Members(modules), queue)
  }

  lemma ListingStep(graph: ModuleGraph, start: nat, modules: seq<nat>, queue: seq<nat>, longer: seq<nat>)
    requires Listing(graph, start, modules, queue) && queue != [] && queue[0] !in modules
    requires forall next :: next in longer <==> next in queue[1..] || (queue[0], next) in StaticEdges(graph)
    ensures Listing(graph, start, modules + [queue[0]], longer)
  {
    assert queue == [queue[0]] + queue[1..];
    CollectingStep(graph, start, Members(modules), queue[0], queue[1..], longer);
    assert Members(modules + [queue[0]]) == Members(modules) + {queue[0]};
  }

  lemma ListingSkips(graph: ModuleGraph, start: nat, modules: seq<nat>, queue: seq<nat>)
    requires Listing(graph, start, modules, queue) && queue != [] && queue[0] in modules
    ensures Listing(graph, start, modules, queue[1..])
  {
    assert queue == [queue[0]] + queue[1..];
  }

  /** The head of the queue is listed, and its targets queued, unless it was listed before. */
  method CollectNext(graph: ModuleGraph, start: nat, visited: ModuleMask, modules: seq<nat>, queue: seq<nat>)
    returns (more: seq<nat>, longer: seq<nat>)
    requires WellFormed(graph) && |graph| <= visited.words.Length * 64
    requires Listing(graph, start, modules, queue) && queue != [] && visited.Contents() == Members(modules)
    modifies visited.words
    ensures Listing(graph, start, more, longer) && visited.Contents() == Members(more)
    ensures (more == modules && |longer| < |queue|) || (|more| > |modules| && Members(modules) < Members(more))
  {
    assert queue[0] in queue && queue[0] in StaticModules(graph, start);
    var isNew := visited.Insert(queue[0]);
    more, longer := modules, queue[1..];
    if isNew {
      longer := PushStaticTargets(graph, queue[0], queue[1..]);
      ListingStep(graph, start, modules, queue, longer);
      more := modules + [queue[0]];
      assert Members(more) == Members(modules) + {queue[0]};
    } else {
      ListingSkips(graph, start, modules, queue);
      assert Members(modules) + {queue[0]} == Members(modules);
    }
  }

  /** Breadth-first collection of the static closure, each module once, the start first. */
  method CollectStaticReachable(graph: ModuleGraph, start: nat) returns (modules: seq<nat>)
    requires WellFormed(graph) && start < |graph|
    ensures Distinct(modules) && |modules| > 0 && modules[0] == start
    ensures Members(modules) == StaticModules(graph, start)
    ensures LeastMet(graph, start, Members(modules))
  {
    var visited := new ModuleMask(|graph|);
    var queue: seq<nat> := [start];
    modules := [];
    StartIsStaticModule(graph, start);
    while queue != []
      invariant fresh(visited.words) && |graph| <= visited.words.Length * 64
      invariant visited.Contents() == Members(modules) <= Handles(|graph|)
      invariant Listing(graph, start, modules, queue)
      decreases Handles(|graph|) - Members(modules), |queue|
    {
      modules, queue := CollectNext(graph, start, visited, modules, queue);
    }
    Collected(graph, start, Members(modules));
    StaticModulesLeast(graph, start);
  }
}
