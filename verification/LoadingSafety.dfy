/** What the plan is for: running the bundle never requires a module that was left out. */
module LoadingSafety {
  import opened Options
  import opened Reachability
  import opened ModuleGraphs
  import opened AsyncChunkPlanning

  /** A block has a chunk group exactly when some parent was recorded as loading from it. */
  ghost predicate HasChunkGroup(plan: Plan, origin: Origin, target: nat) {
    exists g :: Edge(g, origin, target) in plan.edges
  }

  /** The modules an `import()` of the block adds to those already installed. */
  ghost function Installs(input: Input, plan: Plan, origin: Origin, target: nat): set<nat> {
    if HasChunkGroup(plan, origin, target) then Own(input, plan, AsyncChunk(target)) else {}
  }

  /** Any installed module may run any of its import blocks. */
  ghost predicate Load(input: Input, plan: Plan, installed: set<nat>, origin: Origin, target: nat, after: set<nat>) {
    && origin.from in installed
    && BlockTarget(input.graph, origin) == Some(target)
    && after == installed + Installs(input, plan, origin, target)
  }

  ghost predicate LoadStep(input: Input, plan: Plan, installed: set<nat>, after: set<nat>) {
    exists origin: Origin, target: nat :: Load(input, plan, installed, origin, target, after)
  }

  /** One page: the entry's static modules, then loads in any order. */
  ghost predicate Session(input: Input, plan: Plan, entry: nat, installed: seq<set<nat>>) {
    && entry < |input.entries|
    && |installed| > 0
    && installed[0] == StaticModules(input.graph, input.entries[entry])
    && forall i | 0 <= i < |installed| - 1 :: LoadStep(input, plan, installed[i], installed[i + 1])
  }

  /** Every installed module came with a group all of whose assumptions are met. */
  ghost predicate Grounded(input: Input, plan: Plan, installed: set<nat>) {
    forall m: nat | m in installed :: exists g: Group :: Carries(input, plan, installed, g, m)
  }

  ghost predicate Carries(input: Input, plan: Plan, installed: set<nat>, g: Group, m: nat) {
    Planned(input, plan, g) && m in Own(input, plan, g) && Resulting(input, plan, g) <= installed
  }

  /** A walk that misses a static import misses every importer as well. */
  lemma AvoidsImporter(input: Input, plan: Plan, t: nat, m: nat, next: nat)
    requires (m, next) in StaticEdges(input.graph) && AvoidingWalkExists(input, plan, t, next)
    ensures AvoidingWalkExists(input, plan, t, m)
  {
    var walk: seq<Group> :| ParentWalk(plan, walk, t) && Avoids(input, walk, next);
    forall k | 0 <= k < |walk| - 1
      ensures m !in GroupModules(input, walk[k])
    {
      if m in GroupModules(input, walk[k]) {
        var start: nat := if walk[k].Entrypoint? then input.entries[walk[k].index] else walk[k].target;
        StaticModulesClosed(input.graph, start, m, next);
      }
    }
    assert Avoids(input, walk, m);
  }

  /** An assumed set is closed under static imports. */
  lemma AvailableStaticallyClosed(input: Input, plan: Plan, t: nat, m: nat, next: nat)
    requires Exact(input, plan) && t in plan.min && m in plan.min[t]
    requires (m, next) in StaticEdges(input.graph)
    ensures next in plan.min[t]
  {
    if AvoidingWalkExists(input, plan, t, next) {
      AvoidsImporter(input, plan, t, m, next);
    }
  }

  /** Whatever a loaded group has available, it has with its static closure. */
  lemma ResultingHoldsClosure(input: Input, plan: Plan, g: Group, t: nat)
    requires Exact(input, plan) && Planned(input, plan, g) && t in Resulting(input, plan, g)
    ensures StaticModules(input.graph, t) <= Resulting(input, plan, g)
  {
    forall edge | edge in StaticEdges(input.graph) && edge.0 in Resulting(input, plan, g)
      ensures edge.1 in Resulting(input, plan, g)
    {
      if edge.0 in Available(plan, g) {
        AvailableStaticallyClosed(input, plan, g.target, edge.0, edge.1);
      } else {
        var start: nat := if g.Entrypoint? then input.entries[g.index] else g.target;
        StaticModulesClosed(input.graph, start, edge.0, edge.1);
      }
    }
    ClosedContainsStaticModules(input.graph, Resulting(input, plan, g), t);
  }

  lemma EntryGrounded(input: Input, plan: Plan, entry: nat)
    requires entry < |input.entries|
    ensures Grounded(input, plan, StaticModules(input.graph, input.entries[entry]))
  {
    var installed := StaticModules(input.graph, input.entries[entry]);
    forall m: nat | m in installed
      ensures exists g: Group :: Carries(input, plan, installed, g, m)
    {
      assert Carries(input, plan, installed, Entrypoint(entry), m);
    }
  }

  /** A load that brings a group brings one whose assumptions hold, or nothing new. */
  lemma LoadGrounded(input: Input, plan: Plan, installed: set<nat>, origin: Origin, target: nat, after: set<nat>)
    requires Solved(input, plan) && Grounded(input, plan, installed)
    requires Load(input, plan, installed, origin, target, after)
    ensures Grounded(input, plan, after)
    ensures StaticModules(input.graph, target) <= after
    ensures !HasChunkGroup(plan, origin, target) ==> StaticModules(input.graph, target) <= installed
  {
    var g: Group :| Carries(input, plan, installed, g, origin.from);
    if target in Resulting(input, plan, g) {
      ResultingHoldsClosure(input, plan, g, target);
      assert after == installed;
    } else {
      assert Demands(input, plan, g, origin, target);
      var edge := Edge(g, origin, target);
      assert edge in plan.edges && HasChunkGroup(plan, origin, target);
      assert plan.min[edge.target] <= Resulting(input, plan, edge.parent);
      assert Resulting(input, plan, AsyncChunk(target)) <= after;
      forall m: nat | m in after
        ensures exists h: Group :: Carries(input, plan, after, h, m)
      {
        if m in installed {
          var h: Group :| Carries(input, plan, installed, h, m);
          assert Carries(input, plan, after, h, m);
        } else {
          assert Carries(input, plan, after, AsyncChunk(target), m);
        }
      }
    }
  }

  lemma {:induction false} SessionGrounded(input: Input, plan: Plan, entry: nat, installed: seq<set<nat>>)
    requires Solved(input, plan) && Session(input, plan, entry, installed)
    ensures Grounded(input, plan, installed[|installed| - 1])
    decreases |installed|
  {
    if |installed| == 1 {
      EntryGrounded(input, plan, entry);
    } else {
      var shorter := installed[..|installed| - 1];
      forall i | 0 <= i < |shorter| - 1
        ensures LoadStep(input, plan, shorter[i], shorter[i + 1])
      {
        assert LoadStep(input, plan, installed[i], installed[i + 1]);
      }
      SessionGrounded(input, plan, entry, shorter);
      var before, after := installed[|installed| - 2], installed[|installed| - 1];
      assert LoadStep(input, plan, before, after);
      var origin: Origin, target: nat :| Load(input, plan, before, origin, target, after);
      LoadGrounded(input, plan, before, origin, target, after);
    }
  }

  /** What every installed module imports and re-exports is installed. */
  lemma GroundedMeetsImports(input: Input, plan: Plan, installed: set<nat>)
    requires input.Valid() && Solved(input, plan) && Grounded(input, plan, installed)
    ensures ImportsMet(input.graph, installed)
  {
    forall m: nat, c | m in installed && m < |input.graph| && c in input.graph[m].outgoing && RunsFirst(c)
      ensures c.target in installed
    {
      var g: Group :| Carries(input, plan, installed, g, m);
      ResultingHoldsClosure(input, plan, g, m);
      StaticModulesLeast(input.graph, m);
    }
  }

  /** Whole-run loading safety: in any session, any import block of any installed module finds
      its target and the target's whole static closure installed; a block that was given no
      chunk group finds them installed already; and no installed module lacks one that it imports. */
  lemma LoadingNeverMisses(input: Input, plan: Plan, entry: nat, installed: seq<set<nat>>,
                           origin: Origin, target: nat, after: set<nat>)
    requires Solved(input, plan) && Session(input, plan, entry, installed)
    requires Load(input, plan, installed[|installed| - 1], origin, target, after)
    ensures input.Valid() ==> ImportsMet(input.graph, installed[|installed| - 1]) && ImportsMet(input.graph, after)
    ensures StaticModules(input.graph, target) <= after
    ensures target < |input.graph| ==> target in after
    ensures !HasChunkGroup(plan, origin, target) ==> StaticModules(input.graph, target) <= installed[|installed| - 1]
  {
    SessionGrounded(input, plan, entry, installed);
    LoadGrounded(input, plan, installed[|installed| - 1], origin, target, after);
    if input.Valid() {
      GroundedMeetsImports(input, plan, installed[|installed| - 1]);
      GroundedMeetsImports(input, plan, after);
    }
    if target < |input.graph| {
      StartIsStaticModule(input.graph, target);
    }
  }
}
