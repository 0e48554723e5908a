/** Loading safety on the chunk graph itself: block by block, group by group. */
module GraphLoading {
  import opened Options
  import opened ModuleGraphs
  import opened AsyncChunkPlanning
  import opened LoadingSafety
  import opened ChunkGraphs
  import opened ChunkGraphBuilding
  import opened ChunkGraphAssembly
  import opened SplitChunks
  import opened SplitApplication

  /** The modules that the chunks of a group carry. */
  ghost function ModulesOf(g: Graph, group: nat): set<nat> {
    set c: nat, m: nat | c < |g.chunkModules| && InGroup(g, c, group) && m in g.chunkModules[c] :: m
  }

  lemma ModulesOfHas(g: Graph, group: nat, m: nat)
    ensures m in ModulesOf(g, group) <==> GroupHas(g, group, m)
  {
    if GroupHas(g, group, m) {
      var c: nat :| InGroup(g, c, group) && HasModule(g, c, m);
    }
  }

  /** A graph whose blocks and groups are those of the plan, in whatever chunks the modules are. */
  ghost predicate Carrying(input: Input, plan: Plan, g: Graph, entries: seq<EntryGroup>, groups: seq<AsyncGroup>) {
    && (forall o: Origin :: o in g.blockGroups <==> exists p: Group, t: nat :: Edge(p, o, t) in plan.edges)
    && (forall e | e in plan.edges :: e.origin in g.blockGroups && g.blockGroups[e.origin] == Handle(entries, groups, AsyncChunk(e.target)))
    && (forall group: Group, m: nat | Planned(input, plan, group) ::
          GroupHas(g, Handle(entries, groups, group), m) <==> m in Own(input, plan, group))
  }

  lemma AssembledCarries(input: Input, plan: Plan, g: Graph, entries: seq<EntryGroup>, groups: seq<AsyncGroup>)
    requires Solved(input, plan) && Assembled(input, plan, g, entries, groups)
    ensures Carrying(input, plan, g, entries, groups)
  {
    forall o: Origin ensures o in g.blockGroups <==> exists p: Group, t: nat :: Edge(p, o, t) in plan.edges {
      BlockGroupIffPlanned(input, plan, g, entries, groups, o);
    }
    forall e | e in plan.edges
      ensures e.origin in g.blockGroups && g.blockGroups[e.origin] == Handle(entries, groups, AsyncChunk(e.target))
    {
      assert e == Edge(e.parent, e.origin, e.target);
      BlockGroupIffPlanned(input, plan, g, entries, groups, e.origin);
    }
    forall group: Group, m: nat | Planned(input, plan, group)
      ensures GroupHas(g, Handle(entries, groups, group), m) <==> m in Own(input, plan, group)
    {
      GroupInstallsOwn(input, plan, g, entries, groups, group, m);
    }
  }

  // ---- loading, as the runtime does it ----

  /** An `import()` installs the modules of its block's chunk group, if the block has one. */
  ghost predicate GraphLoad(input: Input, g: Graph, installed: set<nat>, origin: Origin, target: nat, after: set<nat>) {
    && origin.from in installed
    && BlockTarget(input.graph, origin) == Some(target)
    && after == installed + if origin in g.blockGroups then ModulesOf(g, g.blockGroups[origin]) else {}
  }

  ghost predicate GraphLoadStep(input: Input, g: Graph, installed: set<nat>, after: set<nat>) {
    exists origin: Origin, target: nat :: GraphLoad(input, g, installed, origin, target, after)
  }

  ghost predicate GraphSession(input: Input, g: Graph, entry: nat, installed: seq<set<nat>>) {
    && entry < |input.entries|
    && |installed| > 0
    && installed[0] == ModulesOf(g, entry)
    && forall i | 0 <= i < |installed| - 1 :: GraphLoadStep(input, g, installed[i], installed[i + 1])
  }

  /** A load along the graph is a load along the plan. */
  lemma GraphLoadIsLoad(input: Input, plan: Plan, g: Graph, entries: seq<EntryGroup>, groups: seq<AsyncGroup>,
                        installed: set<nat>, origin: Origin, target: nat, after: set<nat>)
    requires Solved(input, plan) && Carrying(input, plan, g, entries, groups)
    requires GraphLoad(input, g, installed, origin, target, after)
    ensures Load(input, plan, installed, origin, target, after)
    ensures origin in g.blockGroups <==> HasChunkGroup(plan, origin, target)
  {
    if HasChunkGroup(plan, origin, target) {
      var p: Group :| Edge(p, origin, target) in plan.edges;
      assert origin in g.blockGroups;
    }
    if origin in g.blockGroups {
      var p: Group, t: nat :| Edge(p, origin, t) in plan.edges;
      var e := Edge(p, origin, t);
      assert Demands(input, plan, e.parent, e.origin, e.target);
      assert HasChunkGroup(plan, origin, target);
      CarriedIsOwn(input, plan, g, entries, groups, AsyncChunk(target));
    }
  }

  lemma CarriedIsOwn(input: Input, plan: Plan, g: Graph, entries: seq<EntryGroup>, groups: seq<AsyncGroup>, group: Group)
    requires Carrying(input, plan, g, entries, groups) && Planned(input, plan, group)
    ensures ModulesOf(g, Handle(entries, groups, group)) == Own(input, plan, group)
  {
    forall m: nat ensures m in ModulesOf(g, Handle(entries, groups, group)) <==> m in Own(input, plan, group) {
      ModulesOfHas(g, Handle(entries, groups, group), m);
    }
  }

  lemma GraphSessionIsSession(input: Input, plan: Plan, g: Graph, entries: seq<EntryGroup>, groups: seq<AsyncGroup>,
                              entry: nat, installed: seq<set<nat>>)
    requires Solved(input, plan) && Carrying(input, plan, g, entries, groups)
    requires GraphSession(input, g, entry, installed)
    ensures Session(input, plan, entry, installed)
  {
    CarriedIsOwn(input, plan, g, entries, groups, Entrypoint(entry));
    assert Handle(entries, groups, Entrypoint(entry)) == entry;
    forall i | 0 <= i < |installed| - 1 ensures LoadStep(input, plan, installed[i], installed[i + 1]) {
      assert GraphLoadStep(input, g, installed[i], installed[i + 1]);
      var origin: Origin, target: nat :| GraphLoad(input, g, installed[i], origin, target, installed[i + 1]);
      GraphLoadIsLoad(input, plan, g, entries, groups, installed[i], origin, target, installed[i + 1]);
    }
  }

  /**
   * Running the bundle: whatever blocks have been loaded, in any order, any block of any installed
   * module finds its target and everything its target statically imports installed; a block without
   * a chunk group finds them installed before it runs.
   */
  lemma RunningNeverMisses(input: Input, plan: Plan, g: Graph, entries: seq<EntryGroup>, groups: seq<AsyncGroup>,
                           entry: nat, installed: seq<set<nat>>, origin: Origin, target: nat, after: set<nat>)
    requires Solved(input, plan) && Carrying(input, plan, g, entries, groups)
    requires GraphSession(input, g, entry, installed)
    requires GraphLoad(input, g, installed[|installed| - 1], origin, target, after)
    ensures input.Valid() ==> ImportsMet(input.graph, installed[|installed| - 1]) && ImportsMet(input.graph, after)
    ensures StaticModules(input.graph, target) <= after
    ensures target < |input.graph| ==> target in after
    ensures origin !in g.blockGroups ==> StaticModules(input.graph, target) <= installed[|installed| - 1]
  {
    GraphSessionIsSession(input, plan, g, entries, groups, entry, installed);
    GraphLoadIsLoad(input, plan, g, entries, groups, installed[|installed| - 1], origin, target, after);
    LoadingNeverMisses(input, plan, entry, installed, origin, target, after);
  }

  /** Splitting without a name changes no group, so running the bundle stays safe. */
  lemma SplitKeepsCarrying(input: Input, plan: Plan, g: Graph, after: Graph, entries: seq<EntryGroup>, groups: seq<AsyncGroup>,
                           minChunks: nat, candidates: seq<Candidate>, name: Option<string>)
    requires Mirrored(g) && Mirrored(after) && Candidates(g, minChunks, candidates) && Split(g, after, candidates, name)
    requires Carrying(input, plan, g, entries, groups)
    ensures Carrying(input, plan, after, entries, groups)
  {
    forall group: Group, m: nat | Planned(input, plan, group)
      ensures GroupHas(after, Handle(entries, groups, group), m) <==> m in Own(input, plan, group)
    {
      UnnamedKeepsGroups(g, after, minChunks, candidates, name, Handle(entries, groups, group), m);
    }
  }

  // ---- any split, with or without a name ----

  /** What is installed after an entrypoint has started and some blocks have been loaded. */
  ghost function InstalledBy(g: Graph, entry: nat, origins: seq<Origin>): set<nat> {
    if origins == [] then ModulesOf(g, entry)
    else
      var o := origins[|origins| - 1];
      InstalledBy(g, entry, origins[..|origins| - 1])
      + if o in g.blockGroups then ModulesOf(g, g.blockGroups[o]) else {}
  }

  /** Each block belongs to a module installed before, and loads something. */
  ghost predicate Runs(input: Input, g: Graph, entry: nat, origins: seq<Origin>) {
    && entry < |input.entries|
    && forall k: nat | k < |origins| ::
         origins[k].from in InstalledBy(g, entry, origins[..k]) && BlockTarget(input.graph, origins[k]).Some?
  }

  lemma {:induction false} SplitInstallsMore(g: Graph, after: Graph, candidates: seq<Candidate>, name: Option<string>, entry: nat, origins: seq<Origin>)
    requires Mirrored(g) && Split(g, after, candidates, name)
    ensures InstalledBy(g, entry, origins) <= InstalledBy(after, entry, origins)
    decreases |origins|
  {
    if origins == [] {
      GroupOnlyGrows(g, after, candidates, name, entry);
    } else {
      SplitInstallsMore(g, after, candidates, name, entry, origins[..|origins| - 1]);
      var o := origins[|origins| - 1];
      if o in g.blockGroups { GroupOnlyGrows(g, after, candidates, name, g.blockGroups[o]); }
    }
  }

  lemma GroupOnlyGrows(g: Graph, after: Graph, candidates: seq<Candidate>, name: Option<string>, group: nat)
    requires Mirrored(g) && Split(g, after, candidates, name)
    ensures ModulesOf(g, group) <= ModulesOf(after, group)
  {
    forall m: nat | m in ModulesOf(g, group) ensures m in ModulesOf(after, group) {
      ModulesOfHas(g, group, m);
      NoGroupLosesAModule(g, after, candidates, name, group, m);
      ModulesOfHas(after, group, m);
    }
  }

  lemma RunIsSession(input: Input, g: Graph, entry: nat, origins: seq<Origin>) returns (installed: seq<set<nat>>)
    requires Runs(input, g, entry, origins)
    ensures GraphSession(input, g, entry, installed)
    ensures installed[|installed| - 1] == InstalledBy(g, entry, origins)
  {
    installed := seq(|origins| + 1, k requires 0 <= k <= |origins| => InstalledBy(g, entry, origins[..k]));
    forall i | 0 <= i < |installed| - 1 ensures GraphLoadStep(input, g, installed[i], installed[i + 1]) {
      var o := origins[i];
      assert origins[..i + 1][..i] == origins[..i] && origins[..i + 1][i] == o;
      assert GraphLoad(input, g, installed[i], o, BlockTarget(input.graph, o).value, installed[i + 1]);
    }
    assert origins[..|origins|] == origins;
  }

  lemma RunsBefore(input: Input, g: Graph, entry: nat, origins: seq<Origin>, origin: Origin)
    requires Runs(input, g, entry, origins + [origin])
    ensures Runs(input, g, entry, origins) && origin.from in InstalledBy(g, entry, origins)
  {
    var loads := origins + [origin];
    assert loads[..|origins|] == origins && loads[|origins|] == origin;
    forall k: nat | k < |origins|
      ensures origins[k].from in InstalledBy(g, entry, origins[..k]) && BlockTarget(input.graph, origins[k]).Some?
    {
      assert loads[k] == origins[k] && loads[..k] == origins[..k];
    }
  }

  /**
   * However chunks are split, under a name or not: a bundle that makes the loads it would have made
   * without splitting finds every target and its static closure installed.
   */
  lemma SplitNeverMisses(input: Input, plan: Plan, g: Graph, after: Graph, entries: seq<EntryGroup>, groups: seq<AsyncGroup>,
                         candidates: seq<Candidate>, name: Option<string>, entry: nat, origins: seq<Origin>, origin: Origin, target: nat)
    requires Solved(input, plan) && Carrying(input, plan, g, entries, groups)
    requires Mirrored(g) && Split(g, after, candidates, name)
    requires Runs(input, g, entry, origins + [origin]) && BlockTarget(input.graph, origin) == Some(target)
    ensures StaticModules(input.graph, target) <= InstalledBy(after, entry, origins + [origin])
  {
    var loads := origins + [origin];
    assert loads[..|loads| - 1] == origins && loads[|loads| - 1] == origin;
    RunsBefore(input, g, entry, origins, origin);
    var installed := RunIsSession(input, g, entry, origins);
    RunningNeverMisses(input, plan, g, entries, groups, entry, installed, origin, target, InstalledBy(g, entry, loads));
    SplitInstallsMore(g, after, candidates, name, entry, loads);
  }
}
