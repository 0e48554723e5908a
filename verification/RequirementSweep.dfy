/** Runtime requirements gathered per chunk and per entrypoint. */
module RequirementSweep {
  import opened Options
  import opened Sequences
  import opened Reachability
  import opened ModuleGraphs
  import opened ChunkGraphs
  import opened RuntimeRequirementSets

  // ---- what is asked for ----

  ghost predicate ModuleAsks(asked: seq<Requirements>, m: nat, r: Requirement) {
    m < |asked| && r in asked[m].Elements()
  }

  ghost predicate ChunkAsks(g: Graph, asked: seq<Requirements>, c: nat, r: Requirement) {
    exists m: nat :: HasModule(g, c, m) && ModuleAsks(asked, m, r)
  }

  ghost predicate GroupAsks(g: Graph, asked: seq<Requirements>, h: nat, r: Requirement) {
    exists c: nat :: InGroup(g, c, h) && ChunkAsks(g, asked, c, r)
  }

  /** Some group loaded, directly or not, from the entrypoint asks for it. */
  ghost predicate TreeAsks(g: Graph, asked: seq<Requirements>, entry: nat, r: Requirement) {
    exists h: nat :: Reaches(RuntimeEdges(g), entry, h) && GroupAsks(g, asked, h, r)
  }

  ghost predicate ChunksGathered(g: Graph, asked: seq<Requirements>, chunks: seq<Requirements>) {
    |chunks| == |g.chunks| &&
    forall c: nat, r: Requirement | c < |chunks| :: r in chunks[c].Elements() <==> ChunkAsks(g, asked, c, r)
  }

  const STARTUP: set<Requirement> := {ModuleFactories, ModuleCache, Require, ReturnExportsFromRuntime}

  method EntryStartup() returns (q: Requirements)
    ensures q.Elements() == STARTUP
  {
    q := NoRequirements();
    NoElements();
    InsertedElements(q, ModuleFactories);
    q := q.Inserted(ModuleFactories);
    InsertedElements(q, ModuleCache);
    q := q.Inserted(ModuleCache);
    InsertedElements(q, Require);
    q := q.Inserted(Require);
    InsertedElements(q, ReturnExportsFromRuntime);
    q := q.Inserted(ReturnExportsFromRuntime);
  }

  // ---- chunk by chunk ----

  method GatherChunk(graph: ChunkGraph, asked: seq<Requirements>, c: nat) returns (q: Requirements)
    requires graph.Valid() && c < |graph.chunks|
    requires forall m: nat | m in graph.chunkModules[c] :: m < |asked|
    ensures forall r: Requirement :: r in q.Elements() <==> ChunkAsks(graph.State(), asked, c, r)
  {
    var modules := graph.chunkModules[c];
    q := NoRequirements();
    NoElements();
    var i := 0;
    while i < |modules|
      invariant i <= |modules|
      invariant forall r: Requirement :: r in q.Elements() <==> exists k: nat :: k < i && ModuleAsks(asked, modules[k], r)
    {
      assert modules[i] in modules;
      ExtendedElements(q, asked[modules[i]]);
      q := q.Extended(asked[modules[i]]);
      i := i + 1;
    }
    forall r: Requirement ensures r in q.Elements() <==> ChunkAsks(graph.State(), asked, c, r) {
      if k: nat :| k < |modules| && ModuleAsks(asked, modules[k], r) {
        assert HasModule(graph.State(), c, modules[k]);
      }
      if m: nat :| HasModule(graph.State(), c, m) && ModuleAsks(asked, m, r) {
        var k: nat :| k < |modules| && modules[k] == m;
      }
    }
  }

  method GatherGroup(graph: ChunkGraph, asked: seq<Requirements>, chunks: seq<Requirements>, h: nat, start: Requirements)
    returns (q: Requirements)
    requires graph.Valid() && h < |graph.chunkGroups| && ChunksGathered(graph.State(), asked, chunks)
    ensures forall r: Requirement :: r in q.Elements() <==> r in start.Elements() || GroupAsks(graph.State(), asked, h, r)
  {
    var g := graph.chunkGroups[h].chunks;
    q := start;
    forall k: nat | k < |g| ensures g[k] < |chunks| && InGroup(graph.State(), g[k], h) { assert g[k] in g; }
    var i := 0;
    while i < |g|
      invariant i <= |g|
      invariant forall r: Requirement :: r in q.Elements() <==>
                  r in start.Elements() || exists k: nat :: k < i && ChunkAsks(graph.State(), asked, g[k], r)
    {
      ExtendedElements(q, chunks[g[i]]);
      q := q.Extended(chunks[g[i]]);
      i := i + 1;
    }
    forall r: Requirement
      ensures (exists k: nat :: k < |g| && ChunkAsks(graph.State(), asked, g[k], r)) <==> GroupAsks(graph.State(), asked, h, r)
    {
      if c: nat :| InGroup(graph.State(), c, h) && ChunkAsks(graph.State(), asked, c, r) {
        assert c in g;
        var k: nat :| k < |g| && g[k] == c;
      }
    }
  }

  // ---- from an entrypoint over all runtime edges ----

  /** What is seen or waiting is reached; nothing seen leads elsewhere; what is seen was gathered. */
  ghost predicate Sweeping(g: Graph, asked: seq<Requirements>, entry: nat, seen: set<nat>, pending: seq<nat>, q: Requirements) {
    && seen <= Handles(|g.groups|)
    && (forall h: nat | h in seen || h in pending :: h < |g.groups| && Reaches(RuntimeEdges(g), entry, h))
    && (entry in seen || entry in pending)
    && (forall edge: (nat, nat) | edge in RuntimeEdges(g) && edge.0 in seen :: edge.1 in seen || edge.1 in pending)
    && (forall r: Requirement :: r in q.Elements() <==> exists h: nat :: h in seen && GroupAsks(g, asked, h, r))
  }

  lemma SweepStarts(g: Graph, asked: seq<Requirements>, entry: nat)
    requires entry < |g.groups|
    ensures Sweeping(g, asked, entry, {}, [entry], NoRequirements())
  {
    NoElements();
    ReachesSelf(RuntimeEdges(g), entry);
  }

  lemma LastOrEarlier(pending: seq<nat>)
    requires pending != []
    ensures forall h: nat :: h in pending <==> h == pending[|pending| - 1] || h in pending[..|pending| - 1]
  {
  }

  lemma SweepDrops(g: Graph, asked: seq<Requirements>, entry: nat, seen: set<nat>, pending: seq<nat>, q: Requirements)
    requires Sweeping(g, asked, entry, seen, pending, q) && pending != [] && pending[|pending| - 1] in seen
    ensures Sweeping(g, asked, entry, seen, pending[..|pending| - 1], q)
  {
    LastOrEarlier(pending);
  }

  lemma SweepVisits(g: Graph, asked: seq<Requirements>, entry: nat, seen: set<nat>, pending: seq<nat>, q: Requirements, more: Requirements)
    requires TreeMirrors(g) && Sized(g) && Sweeping(g, asked, entry, seen, pending, q) && pending != []
    requires pending[|pending| - 1] < |g.groups|
    requires forall r: Requirement :: r in more.Elements() <==> r in q.Elements() || GroupAsks(g, asked, pending[|pending| - 1], r)
    ensures var h := pending[|pending| - 1];
            Sweeping(g, asked, entry, seen + {h}, pending[..|pending| - 1] + g.runtimeChildren[h], more)
  {
    var h := pending[|pending| - 1];
    var rest := pending[..|pending| - 1] + g.runtimeChildren[h];
    LastOrEarlier(pending);
    forall k: nat | k in seen + {h} || k in rest ensures k < |g.groups| && Reaches(RuntimeEdges(g), entry, k) {
      if k in g.runtimeChildren[h] {
        assert IsRuntimeChild(g, h, k);
        assert h in pending;
        ReachesStep(RuntimeEdges(g), entry, h, k);
      }
    }
    forall edge: (nat, nat) | edge in RuntimeEdges(g) && edge.0 in seen + {h} ensures edge.1 in seen + {h} || edge.1 in rest {
    }
  }

  lemma SweepEnds(g: Graph, asked: seq<Requirements>, entry: nat, seen: set<nat>, q: Requirements)
    requires Sweeping(g, asked, entry, seen, [], q)
    ensures forall r: Requirement :: r in q.Elements() <==> TreeAsks(g, asked, entry, r)
  {
    forall h: nat | Reaches(RuntimeEdges(g), entry, h) ensures h in seen {
      ClosedContainsReachable(RuntimeEdges(g), seen, entry, h);
    }
  }

  lemma NextToSweep(g: Graph, asked: seq<Requirements>, entry: nat, seen: set<nat>, pending: seq<nat>, q: Requirements)
    requires Sweeping(g, asked, entry, seen, pending, q) && pending != []
    ensures pending[|pending| - 1] < |g.groups|
  {
    assert pending[|pending| - 1] in pending;
  }

  /** What every group loaded from the entrypoint asks for, depth first. */
  method SweepEntrypoint(graph: ChunkGraph, asked: seq<Requirements>, chunks: seq<Requirements>, entry: nat)
    returns (q: Requirements)
    requires graph.Valid() && entry < |graph.chunkGroups| && ChunksGathered(graph.State(), asked, chunks)
    ensures forall r: Requirement :: r in q.Elements() <==> TreeAsks(graph.State(), asked, entry, r)
  {
    ghost var g := graph.State();
    q := NoRequirements();
    var seen: set<nat> := {};
    var pending := [entry];
    SweepStarts(g, asked, entry);
    while pending != []
      invariant Sweeping(g, asked, entry, seen, pending, q)
      decreases Unseen(|g.groups|, seen), |pending|
    {
      var h := pending[|pending| - 1];
      NextToSweep(g, asked, entry, seen, pending, q);
      if h in seen {
        SweepDrops(g, asked, entry, seen, pending, q);
        pending := pending[..|pending| - 1];
      } else {
        var more := GatherGroup(graph, asked, chunks, h, q);
        SweepVisits(g, asked, entry, seen, pending, q, more);
        OneLessUnseen(|g.groups|, seen, h);
        q, seen := more, seen + {h};
        pending := pending[..|pending| - 1] + graph.runtimeChunkGroupChildren[h];
      }
    }
    SweepEnds(g, asked, entry, seen, q);
  }

  // ---- the tables ----

  ghost function TreeDirect(g: Graph, asked: seq<Requirements>, entry: nat): set<Requirement> {
    set r: Requirement | TreeAsks(g, asked, entry, r)
  }

  /** The chunk that carries the runtime of an entrypoint. */
  function RuntimeChunk(g: Graph, entry: nat): nat {
    if entry < |g.groups| && g.groups[entry].chunks != [] then g.groups[entry].chunks[0] else |g.chunks|
  }

  ghost predicate OwnRuntimeChunks(g: Graph) {
    forall i: nat, j: nat | i < j < |g.entrypoints| ::
      RuntimeChunk(g, g.entrypoints[i]) != RuntimeChunk(g, g.entrypoints[j])
  }

  /** The runtime chunk has exactly the runtime modules of what its entrypoint needs. */
  ghost predicate RuntimeInstalled(g: Graph, runtimeModules: seq<seq<RuntimeModule>>, tree: map<nat, Requirements>, entry: nat) {
    && entry in tree && RuntimeChunk(g, entry) < |runtimeModules|
    && forall m :: m in runtimeModules[RuntimeChunk(g, entry)] <==> m in Supplied(tree[entry])
  }

  class RuntimeRequirementTables {
    var modules: seq<Requirements>
    var chunks: seq<Requirements>
    var runtimeModules: seq<seq<RuntimeModule>>
    var tree: map<nat, Requirements>

    constructor ()
      ensures modules == [] && chunks == [] && runtimeModules == [] && tree == map[]
    {
      modules, chunks, runtimeModules, tree := [], [], [], map[];
    }

    /** Every module starts without requirements; the given ones are those of the modules processed. */
    method SetModules(count: nat, processed: seq<(nat, Requirements)>)
      requires forall i: nat | i < |processed| :: processed[i].0 < count
      modifies this`modules
      ensures |modules| == count
      ensures forall m: nat | m < count :: modules[m] == LastFor(processed, m)
    {
      modules := seq(count, _ => NoRequirements());
      var i := 0;
      while i < |processed|
        invariant i <= |processed| && |modules| == count
        invariant forall m: nat | m < count :: modules[m] == LastFor(processed[..i], m)
      {
        assert processed[..i + 1][..i] == processed[..i];
        modules := modules[processed[i].0 := processed[i].1];
        i := i + 1;
      }
      assert processed[..i] == processed;
    }

    method SetChunks(graph: ChunkGraph)
      requires graph.Valid() && |modules| == |graph.moduleChunks|
      modifies this`chunks
      ensures ChunksGathered(graph.State(), modules, chunks)
    {
      chunks := [];
      while |chunks| < |graph.chunks|
        invariant |chunks| <= |graph.chunks|
        invariant forall c: nat, r: Requirement | c < |chunks| :: r in chunks[c].Elements() <==> ChunkAsks(graph.State(), modules, c, r)
      {
        ModulesKnown(graph.State(), |chunks|);
        var q := GatherChunk(graph, modules, |chunks|);
        chunks := chunks + [q];
      }
    }

    /** For each entrypoint: what its tree asks for and what starting it needs, closed under prerequisites. */
    method SetModuleRuntimeRequirements(graph: ChunkGraph, processed: seq<(nat, Requirements)>)
      requires graph.Valid()
      requires forall i: nat | i < |processed| :: processed[i].0 < |graph.moduleChunks|
      requires forall e | e in graph.entrypoints :: e < |graph.chunkGroups| && graph.chunkGroups[e].chunks != []
      modifies this
      ensures |modules| == |graph.moduleChunks| && forall m: nat | m < |modules| :: modules[m] == LastFor(processed, m)
      ensures ChunksGathered(graph.State(), modules, chunks)
      ensures forall e: nat :: e in tree <==> e in graph.entrypoints
      ensures forall e | e in tree :: IsClosure(TreeDirect(graph.State(), modules, e) + STARTUP, tree[e].Elements())
      ensures OwnRuntimeChunks(graph.State()) ==>
                forall e | e in graph.entrypoints :: RuntimeInstalled(graph.State(), runtimeModules, tree, e)
    {
      SetModules(|graph.moduleChunks|, processed);
      SetChunks(graph);
      SetTrees(graph);
    }

    method SetTrees(graph: ChunkGraph)
      requires graph.Valid() && ChunksGathered(graph.State(), modules, chunks)
      requires forall e | e in graph.entrypoints :: e < |graph.chunkGroups| && graph.chunkGroups[e].chunks != []
      modifies this`tree, this`runtimeModules
      ensures forall e: nat :: e in tree <==> e in graph.entrypoints
      ensures forall e | e in tree :: IsClosure(TreeDirect(graph.State(), modules, e) + STARTUP, tree[e].Elements())
      ensures OwnRuntimeChunks(graph.State()) ==>
                forall e | e in graph.entrypoints :: RuntimeInstalled(graph.State(), runtimeModules, tree, e)
    {
      runtimeModules := seq(|graph.chunks|, _ => []);
      tree := map[];
      var i := 0;
      while i < |graph.entrypoints|
        invariant TreesUpTo(graph.State(), modules, runtimeModules, tree, i)
      {
        assert graph.entrypoints[i] in graph.entrypoints;
        SetTree(graph, i);
        i := i + 1;
      }
      assert graph.entrypoints[..i] == graph.entrypoints;
    }

    method SetTree(graph: ChunkGraph, i: nat)
      requires graph.Valid() && ChunksGathered(graph.State(), modules, chunks) && i < |graph.entrypoints|
      requires graph.entrypoints[i] < |graph.chunkGroups| && graph.chunkGroups[graph.entrypoints[i]].chunks != []
      requires TreesUpTo(graph.State(), modules, runtimeModules, tree, i)
      modifies this`tree, this`runtimeModules
      ensures TreesUpTo(graph.State(), modules, runtimeModules, tree, i + 1)
    {
      var entry := graph.entrypoints[i];
      var resolved, rendered := ResolveEntrypoint(graph, modules, chunks, entry);
      var first := graph.chunkGroups[entry].chunks[0];
      assert first in graph.chunkGroups[entry].chunks && InGroup(graph.State(), first, entry);
      TreesNext(graph.State(), modules, runtimeModules, tree, i, resolved, rendered);
      runtimeModules := runtimeModules[first := rendered];
      tree := tree[entry := resolved];
    }
  }

  /** The trees of the first `n` entrypoints. */
  ghost predicate TreesUpTo(g: Graph, asked: seq<Requirements>, runtimeModules: seq<seq<RuntimeModule>>,
                            tree: map<nat, Requirements>, n: nat)
  {
    && n <= |g.entrypoints| && |runtimeModules| == |g.chunks|
    && (forall e: nat :: e in tree <==> e in g.entrypoints[..n])
    && (forall e | e in tree :: IsClosure(TreeDirect(g, asked, e) + STARTUP, tree[e].Elements()))
    && (OwnRuntimeChunks(g) ==> forall k: nat | k < n :: RuntimeInstalled(g, runtimeModules, tree, g.entrypoints[k]))
  }

  lemma TreesNext(g: Graph, asked: seq<Requirements>, runtimeModules: seq<seq<RuntimeModule>>, tree: map<nat, Requirements>,
                  n: nat, resolved: Requirements, rendered: seq<RuntimeModule>)
    requires TreesUpTo(g, asked, runtimeModules, tree, n) && n < |g.entrypoints|
    requires RuntimeChunk(g, g.entrypoints[n]) < |g.chunks|
    requires IsClosure(TreeDirect(g, asked, g.entrypoints[n]) + STARTUP, resolved.Elements())
    requires forall m :: m in rendered <==> m in Supplied(resolved)
    ensures TreesUpTo(g, asked, runtimeModules[RuntimeChunk(g, g.entrypoints[n]) := rendered],
                      tree[g.entrypoints[n] := resolved], n + 1)
  {
    var entry := g.entrypoints[n];
    var first := RuntimeChunk(g, entry);
    var more, grown := runtimeModules[first := rendered], tree[entry := resolved];
    assert forall e: nat :: e in g.entrypoints[..n + 1] <==> e in g.entrypoints[..n] || e == entry;
    if OwnRuntimeChunks(g) {
      forall k: nat | k < n + 1 ensures RuntimeInstalled(g, more, grown, g.entrypoints[k]) {
        if k < n { InstalledStays(g, runtimeModules, tree, g.entrypoints[k], entry, resolved, rendered); }
      }
    }
  }

  lemma InstalledStays(g: Graph, runtimeModules: seq<seq<RuntimeModule>>, tree: map<nat, Requirements>, e: nat,
                       entry: nat, resolved: Requirements, rendered: seq<RuntimeModule>)
    requires RuntimeInstalled(g, runtimeModules, tree, e) && |runtimeModules| == |g.chunks|
    requires RuntimeChunk(g, e) != RuntimeChunk(g, entry) < |g.chunks|
    ensures RuntimeInstalled(g, runtimeModules[RuntimeChunk(g, entry) := rendered], tree[entry := resolved], e)
  {
  }

  /** The runtime of an entrypoint has a runtime module for everything its tree needs. */
  method ResolveEntrypoint(graph: ChunkGraph, asked: seq<Requirements>, chunks: seq<Requirements>, entry: nat)
    returns (resolved: Requirements, rendered: seq<RuntimeModule>)
    requires graph.Valid() && entry < |graph.chunkGroups| && ChunksGathered(graph.State(), asked, chunks)
    ensures IsClosure(TreeDirect(graph.State(), asked, entry) + STARTUP, resolved.Elements())
    ensures forall m :: m in rendered <==> m in Supplied(resolved)
  {
    var swept := SweepEntrypoint(graph, asked, chunks, entry);
    var startup := EntryStartup();
    ExtendedElements(swept, startup);
    assert swept.Elements() == TreeDirect(graph.State(), asked, entry);
    resolved, rendered := ResolveRuntimeModules(swept.Extended(startup));
  }

  /** The requirements last given for a module. */
  function LastFor(processed: seq<(nat, Requirements)>, m: nat): Requirements {
    if processed == [] then NoRequirements()
    else if processed[|processed| - 1].0 == m then processed[|processed| - 1].1
    else LastFor(processed[..|processed| - 1], m)
  }

  lemma ModulesKnown(g: Graph, c: nat)
    requires ModulesMirror(g) && c < |g.chunkModules|
    ensures forall m: nat | m in g.chunkModules[c] :: m < |g.moduleChunks|
  {
    forall m: nat | m in g.chunkModules[c] ensures m < |g.moduleChunks| { assert HasModule(g, c, m); }
  }
}
