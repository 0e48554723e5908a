/** Building the chunk graph: groups for entrypoints and plans first, then the links between them. */
module ChunkGraphBuilding {
  import opened Options
  import opened Sequences
  import opened Reachability
  import opened AsyncChunkPlanning
  import opened ChunkGraphs
  import opened ChunkMaterialization

  datatype EntryGroup = EntryGroup(name: string, entry: nat, modules: seq<nat>)

  datatype Parent = Parent(group: Group, origins: seq<Origin>)

  /** A plan in the form it is materialised from: the modules the chunk carries, and its parents in order. */
  datatype AsyncGroup = AsyncGroup(target: nat, origin: Origin, modules: seq<nat>, parents: seq<Parent>)

  // ---- groups, one chunk each ----

  datatype Laid = Laid(name: Option<string>, root: nat, kind: Kind, modules: set<nat>)

  ghost predicate LaidAt(g: Graph, laid: Laid, k: nat) {
    && k < |g.chunks| && k < |g.groups|
    && g.chunks[k].name == laid.name && g.chunks[k].roots == [laid.root] && g.groups[k].kind == laid.kind
  }

  /** Group k has chunk k alone, with the modules laid into it. */
  ghost predicate LaidOut(g: Graph, laid: seq<Laid>) {
    && |g.chunks| == |g.groups| == |laid|
    && (forall k: nat | k < |laid| :: LaidAt(g, laid[k], k))
    && (forall c: nat, m: nat :: HasModule(g, c, m) <==> c < |laid| && m in laid[c].modules)
    && (forall c: nat, h: nat :: InGroup(g, c, h) <==> c == h && c < |laid|)
  }

  ghost predicate Unlinked(g: Graph) {
    ChildEdges(g) == {} && RuntimeEdges(g) == {} && g.blockGroups == map[]
  }

  /** The graph before and after modules were put into its last chunk. */
  ghost predicate Filled(g: Graph, after: Graph, chunk: nat, modules: set<nat>) {
    && after == g.(chunkModules := after.chunkModules, moduleChunks := after.moduleChunks)
    && (forall c: nat, m: nat :: HasModule(after, c, m) <==> HasModule(g, c, m) || (c == chunk && m in modules))
  }

  method FillChunk(graph: ChunkGraph, chunk: nat, modules: seq<nat>)
    requires graph.Valid() && chunk < |graph.chunks|
    modifies graph
    ensures graph.Valid() && Filled(old(graph.State()), graph.State(), chunk, Members(modules))
  {
    ghost var start := graph.State();
    assert Members(modules[..0]) == {};
    var i := 0;
    while i < |modules|
      invariant i <= |modules| && graph.Valid() && |graph.chunks| == |start.chunks|
      invariant Filled(start, graph.State(), chunk, Members(modules[..i]))
    {
      JoinModuleMirrored(graph.State(), chunk, modules[i]);
      graph.ConnectChunkAndModule(chunk, modules[i]);
      MembersSnoc(modules, i);
      i := i + 1;
    }
    assert modules[..i] == modules;
  }

  lemma LaidOneMore(g: Graph, joined: Graph, after: Graph, laid: seq<Laid>, next: Laid, origin: Option<Origin>)
    requires Mirrored(g) && LaidOut(g, laid) && Unlinked(g)
    requires joined == JoinGroup(WithGroup(WithChunk(g, next.name, [next.root]), next.kind, origin), |laid|, |laid|)
    requires Filled(joined, after, |laid|, next.modules)
    ensures LaidOut(after, laid + [next]) && Unlinked(after) && after.entrypoints == g.entrypoints
  {
    var k := |laid|;
    forall c: nat, h: nat ensures InGroup(after, c, h) <==> c == h && c < k + 1 {
      assert InGroup(joined, c, h) <==> InGroup(g, c, h) || (c == k && h == k);
    }
    forall c: nat, m: nat ensures HasModule(joined, c, m) <==> HasModule(g, c, m) {
    }
    forall i: nat | i < k + 1 ensures LaidAt(after, (laid + [next])[i], i) {
      if i < k { assert LaidAt(g, laid[i], i); }
    }
    assert forall p: nat, c: nat :: IsChild(after, p, c) <==> IsChild(g, p, c);
    assert forall p: nat, c: nat :: IsRuntimeChild(after, p, c) <==> IsRuntimeChild(g, p, c);
    NoEdges(g, after);
  }

  lemma NoEdges(g: Graph, after: Graph)
    requires ChildEdges(g) == {} && RuntimeEdges(g) == {}
    requires forall p: nat, c: nat :: IsChild(after, p, c) <==> IsChild(g, p, c)
    requires forall p: nat, c: nat :: IsRuntimeChild(after, p, c) <==> IsRuntimeChild(g, p, c)
    ensures ChildEdges(after) == {} && RuntimeEdges(after) == {}
  {
    forall p: nat, c: nat ensures !IsChild(g, p, c) && !IsRuntimeChild(g, p, c) {
      assert (p, c) !in ChildEdges(g) && (p, c) !in RuntimeEdges(g);
    }
    forall edge: (nat, nat) ensures edge !in ChildEdges(after) && edge !in RuntimeEdges(after) {
      assert !IsChild(after, edge.0, edge.1) && !IsRuntimeChild(after, edge.0, edge.1);
    }
  }

  /** One chunk in one group of its own, with its modules. */
  method LayGroup(graph: ChunkGraph, name: Option<string>, root: nat, kind: Kind, origin: Option<Origin>,
                  modules: seq<nat>, ghost laid: seq<Laid>) returns (group: nat)
    requires graph.Valid() && LaidOut(graph.State(), laid) && Unlinked(graph.State())
    modifies graph
    ensures graph.Valid() && group == |laid| && graph.entrypoints == old(graph.entrypoints)
    ensures LaidOut(graph.State(), laid + [Laid(name, root, kind, Members(modules))]) && Unlinked(graph.State())
  {
    ghost var start := graph.State();
    var chunk := graph.AddChunk(name, [root]);
    group := graph.AddChunkGroup(kind, origin);
    graph.ConnectChunkAndGroup(chunk, group);
    ghost var joined := graph.State();
    FillChunk(graph, chunk, modules);
    LaidOneMore(start, joined, graph.State(), laid, Laid(name, root, kind, Members(modules)), origin);
  }

  // ---- handles ----

  function IndexOf(plans: seq<AsyncGroup>, target: nat): (k: nat)
    ensures k <= |plans|
  {
    if plans == [] || plans[0].target == target then 0 else 1 + IndexOf(plans[1..], target)
  }

  predicate HasTarget(plans: seq<AsyncGroup>, target: nat) {
    IndexOf(plans, target) < |plans|
  }

  lemma {:induction false} IndexOfTarget(plans: seq<AsyncGroup>, target: nat, k: nat)
    requires k < |plans| && plans[k].target == target && OneGroupEach(plans)
    ensures IndexOf(plans, target) == k
  {
    if k > 0 {
      assert plans[0].target != target;
      IndexOfTarget(plans[1..], target, k - 1);
    }
  }

  lemma {:induction false} IndexOfHas(plans: seq<AsyncGroup>, target: nat)
    requires HasTarget(plans, target)
    ensures plans[IndexOf(plans, target)].target == target
  {
    if plans[0].target != target { IndexOfHas(plans[1..], target); }
  }

  predicate OneGroupEach(plans: seq<AsyncGroup>) {
    forall i: nat, j: nat | i < j < |plans| :: plans[i].target != plans[j].target
  }

  /** Groups get their handles in order: entrypoints first, then plans. */
  function HandleOf(entries: nat, plans: seq<AsyncGroup>, group: Group): nat {
    match group
    case Entrypoint(index) => index
    case AsyncChunk(target) => entries + IndexOf(plans, target)
  }

  predicate IsLaid(entries: nat, plans: seq<AsyncGroup>, group: Group) {
    match group
    case Entrypoint(index) => index < entries
    case AsyncChunk(target) => HasTarget(plans, target)
  }

  predicate ParentsLaid(entries: nat, plans: seq<AsyncGroup>) {
    forall k: nat, j: nat | k < |plans| && j < |plans[k].parents| :: IsLaid(entries, plans, plans[k].parents[j].group)
  }

  // ---- what is planned, as edges and blocks ----

  function EdgesTo(entries: nat, plans: seq<AsyncGroup>, k: nat): seq<(nat, nat)>
    requires k < |plans|
  {
    seq(|plans[k].parents|, j requires 0 <= j < |plans[k].parents| =>
      (HandleOf(entries, plans, plans[k].parents[j].group), entries + k))
  }

  function EdgesBefore(entries: nat, plans: seq<AsyncGroup>, n: nat): seq<(nat, nat)>
    requires n <= |plans|
  {
    if n == 0 then [] else EdgesBefore(entries, plans, n - 1) + EdgesTo(entries, plans, n - 1)
  }

  predicate Loads(plan: AsyncGroup, o: Origin, n: nat) {
    exists j: nat :: j < n && j < |plan.parents| && o in plan.parents[j].origins
  }

  /** A block loads one target. */
  ghost predicate OneTargetEach(plans: seq<AsyncGroup>) {
    forall i: nat, j: nat, o | i < |plans| && j < |plans| && Loads(plans[i], o, |plans[i].parents|) && Loads(plans[j], o, |plans[j].parents|) :: i == j
  }

  /** Blocks of the first `k` plans, and of the first `j` parents of the next one, have their group. */
  ghost predicate BlocksLead(blocks: map<Origin, nat>, entries: nat, plans: seq<AsyncGroup>, k: nat, j: nat) {
    && (forall i: nat, o | i < k && i < |plans| && Loads(plans[i], o, |plans[i].parents|) :: o in blocks)
    && (forall o | k < |plans| && Loads(plans[k], o, j) :: o in blocks)
    && (forall o | o in blocks :: exists i: nat :: i < |plans| && Loads(plans[i], o, |plans[i].parents|) && blocks[o] == entries + i)
  }

  // ---- linking ----

  /** Only links and blocks may differ. */
  predicate OnlyLinks(g: Graph, after: Graph) {
    && after.chunks == g.chunks && SameModules(g, after) && after.entrypoints == g.entrypoints
    && |after.groups| == |g.groups|
    && forall h: nat | h < |g.groups| :: after.groups[h].kind == g.groups[h].kind
  }

  ghost predicate LinkedAs(g: Graph, edges: seq<(nat, nat)>) {
    ChildEdges(g) == Kept(edges) && RuntimeEdges(g) == Members(edges)
  }

  method LinkPlanned(graph: ChunkGraph, parent: nat, child: nat, ghost edges: seq<(nat, nat)>)
    requires graph.Valid() && parent < |graph.chunkGroups| && child < |graph.chunkGroups|
    requires LinkedAs(graph.State(), edges)
    modifies graph
    ensures graph.Valid() && OnlyLinks(old(graph.State()), graph.State())
    ensures LinkedAs(graph.State(), edges + [(parent, child)]) && graph.blockChunkGroups == old(graph.blockChunkGroups)
  {
    var reaches := ChunkGroupReaches(graph, child, parent);
    LinkedNext(graph.State(), parent, child, edges);
    if !reaches {
      graph.ConnectChunkGroups(parent, child);
    } else {
      graph.ConnectRuntimeChunkGroups(parent, child);
    }
  }

  lemma LinkedNext(g: Graph, parent: nat, child: nat, edges: seq<(nat, nat)>)
    requires Mirrored(g) && parent < |g.groups| && child < |g.groups| && LinkedAs(g, edges)
    ensures var after := if Reaches(ChildEdges(g), child, parent) then LinkRuntime(g, parent, child) else LinkGroups(g, parent, child);
            && OnlyLinks(g, after) && LinkedAs(after, edges + [(parent, child)]) && after.blockGroups == g.blockGroups
  {
    KeptSnoc(edges, (parent, child));
    LinkGroupsMirrored(g, parent, child);
    LinkRuntimeMirrored(g, parent, child);
  }

  lemma KeptSnoc(edges: seq<(nat, nat)>, edge: (nat, nat))
    ensures Kept(edges + [edge]) == Kept(edges) + if Reaches(Kept(edges), edge.1, edge.0) then {} else {edge}
    ensures Members(edges + [edge]) == Members(edges) + {edge}
  {
    assert (edges + [edge])[..|edges|] == edges;
  }

  method LinkBlocks(graph: ChunkGraph, origins: seq<Origin>, group: nat)
    requires graph.Valid()
    modifies graph
    ensures graph.Valid()
    ensures graph.State() == old(graph.State()).(blockGroups := graph.blockChunkGroups)
    ensures forall o :: o in graph.blockChunkGroups <==> o in old(graph.blockChunkGroups) || o in origins
    ensures forall o | o in graph.blockChunkGroups ::
              graph.blockChunkGroups[o] == if o in origins then group else old(graph.blockChunkGroups)[o]
  {
    ghost var start := graph.State();
    var i := 0;
    while i < |origins|
      invariant i <= |origins| && graph.Valid()
      invariant graph.State() == start.(blockGroups := graph.blockChunkGroups)
      invariant forall o :: o in graph.blockChunkGroups <==> o in start.blockGroups || o in origins[..i]
      invariant forall o | o in graph.blockChunkGroups ::
                  graph.blockChunkGroups[o] == if o in origins[..i] then group else start.blockGroups[o]
    {
      assert forall o :: o in origins[..i + 1] <==> o in origins[..i] || o == origins[i];
      graph.ConnectBlockAndChunkGroup(origins[i], group);
      i := i + 1;
    }
    assert origins[..i] == origins;
  }

  lemma BlocksNext(before: map<Origin, nat>, after: map<Origin, nat>, entries: nat, plans: seq<AsyncGroup>, k: nat, j: nat)
    requires k < |plans| && j < |plans[k].parents| && BlocksLead(before, entries, plans, k, j)
    requires forall o :: o in after <==> o in before || o in plans[k].parents[j].origins
    requires forall o | o in after :: after[o] == if o in plans[k].parents[j].origins then entries + k else before[o]
    ensures BlocksLead(after, entries, plans, k, j + 1)
  {
    forall o | o in after
      ensures exists i: nat :: i < |plans| && Loads(plans[i], o, |plans[i].parents|) && after[o] == entries + i
    {
      if o in plans[k].parents[j].origins { assert Loads(plans[k], o, |plans[k].parents|); }
    }
    forall o | Loads(plans[k], o, j + 1) ensures o in after {
      if !Loads(plans[k], o, j) { assert o in plans[k].parents[j].origins; }
    }
  }

  lemma BlocksNextPlan(blocks: map<Origin, nat>, entries: nat, plans: seq<AsyncGroup>, k: nat)
    requires k < |plans| && BlocksLead(blocks, entries, plans, k, |plans[k].parents|)
    ensures BlocksLead(blocks, entries, plans, k + 1, 0)
  {
  }

  /** What is linked after the first `k` plans and `j` parents of the next. */
  ghost predicate LinkedUpTo(g: Graph, start: Graph, entries: nat, plans: seq<AsyncGroup>, k: nat, j: nat) {
    && k <= |plans| && (if k < |plans| then j <= |plans[k].parents| else j == 0)
    && OnlyLinks(start, g)
    && LinkedAs(g, EdgesBefore(entries, plans, k) + if k < |plans| then EdgesTo(entries, plans, k)[..j] else [])
    && BlocksLead(g.blockGroups, entries, plans, k, j)
  }

  lemma LinkedNextPlan(g: Graph, start: Graph, entries: nat, plans: seq<AsyncGroup>, k: nat)
    requires k < |plans| && LinkedUpTo(g, start, entries, plans, k, |plans[k].parents|)
    ensures LinkedUpTo(g, start, entries, plans, k + 1, 0)
  {
    BlocksNextPlan(g.blockGroups, entries, plans, k);
    var edges := EdgesBefore(entries, plans, k + 1);
    assert EdgesTo(entries, plans, k)[..|plans[k].parents|] == EdgesTo(entries, plans, k);
    if k + 1 < |plans| { assert edges + EdgesTo(entries, plans, k + 1)[..0] == edges; } else { assert edges + [] == edges; }
  }

  lemma LinkedStarts(g: Graph, entries: nat, plans: seq<AsyncGroup>)
    requires Unlinked(g)
    ensures LinkedUpTo(g, g, entries, plans, 0, 0)
  {
    if |plans| > 0 { assert EdgesTo(entries, plans, 0)[..0] == []; }
  }

  lemma EdgesNext(entries: nat, plans: seq<AsyncGroup>, k: nat, j: nat)
    requires k < |plans| && j < |plans[k].parents|
    ensures EdgesBefore(entries, plans, k) + EdgesTo(entries, plans, k)[..j + 1] ==
            EdgesBefore(entries, plans, k) + EdgesTo(entries, plans, k)[..j]
            + [(HandleOf(entries, plans, plans[k].parents[j].group), entries + k)]
  {
    var edges := EdgesTo(entries, plans, k);
    assert edges[..j + 1] == edges[..j] + [edges[j]];
  }

  /** Everything laid, and linked so far. */
  ghost predicate Linking(graph: ChunkGraph, start: Graph, entries: nat, plans: seq<AsyncGroup>, k: nat, j: nat)
    reads graph
  {
    && graph.Valid() && |graph.chunkGroups| == entries + |plans| == |start.groups|
    && LinkedUpTo(graph.State(), start, entries, plans, k, j)
  }

  method LinkParent(graph: ChunkGraph, entries: nat, plans: seq<AsyncGroup>, k: nat, j: nat, ghost start: Graph)
    requires k < |plans| && j < |plans[k].parents| && ParentsLaid(entries, plans)
    requires Linking(graph, start, entries, plans, k, j)
    modifies graph
    ensures Linking(graph, start, entries, plans, k, j + 1)
  {
    var parent := plans[k].parents[j];
    ghost var edges := EdgesBefore(entries, plans, k) + EdgesTo(entries, plans, k)[..j];
    ghost var before := graph.State();
    LinkPlanned(graph, HandleOf(entries, plans, parent.group), entries + k, edges);
    ghost var linked := graph.State();
    LinkBlocks(graph, parent.origins, entries + k);
    BlocksNext(before.blockGroups, graph.blockChunkGroups, entries, plans, k, j);
    EdgesNext(entries, plans, k, j);
    assert ChildEdges(graph.State()) == ChildEdges(linked);
  }

  method LinkPlan(graph: ChunkGraph, entries: nat, plans: seq<AsyncGroup>, k: nat, ghost start: Graph)
    requires k < |plans| && ParentsLaid(entries, plans) && Linking(graph, start, entries, plans, k, 0)
    modifies graph
    ensures Linking(graph, start, entries, plans, k + 1, 0)
  {
    var j := 0;
    while j < |plans[k].parents|
      invariant j <= |plans[k].parents| && Linking(graph, start, entries, plans, k, j)
    {
      LinkParent(graph, entries, plans, k, j, start);
      j := j + 1;
    }
    LinkedNextPlan(graph.State(), start, entries, plans, k);
  }

  method LinkAll(graph: ChunkGraph, entries: nat, plans: seq<AsyncGroup>)
    requires graph.Valid() && |graph.chunkGroups| == entries + |plans|
    requires ParentsLaid(entries, plans) && Unlinked(graph.State())
    modifies graph
    ensures graph.Valid() && LinkedUpTo(graph.State(), old(graph.State()), entries, plans, |plans|, 0)
  {
    ghost var start := graph.State();
    LinkedStarts(start, entries, plans);
    var k := 0;
    while k < |plans|
      invariant k <= |plans| && Linking(graph, start, entries, plans, k, 0)
    {
      LinkPlan(graph, entries, plans, k, start);
      k := k + 1;
    }
  }

  // ---- the whole graph ----

  function LaidEntries(entries: seq<EntryGroup>): seq<Laid> {
    seq(|entries|, i requires 0 <= i < |entries| =>
      Laid(Some(entries[i].name), entries[i].entry, EntrypointKind(entries[i].name), Members(entries[i].modules)))
  }

  function LaidPlans(plans: seq<AsyncGroup>): seq<Laid> {
    seq(|plans|, k requires 0 <= k < |plans| => Laid(None, plans[k].target, AsyncKind, Members(plans[k].modules)))
  }

  /** The groups and their modules are as planned, runtime edges are the planned edges, and children
      are those of them that close no circle. */
  ghost predicate Materialized(g: Graph, entries: seq<EntryGroup>, plans: seq<AsyncGroup>) {
    && Mirrored(g)
    && LaidOut(g, LaidEntries(entries) + LaidPlans(plans))
    && (forall h: nat :: h in g.entrypoints <==> h < |entries|)
    && LinkedAs(g, EdgesBefore(|entries|, plans, |plans|))
    && BlocksLead(g.blockGroups, |entries|, plans, |plans|, 0)
  }

  method LayEntries(graph: ChunkGraph, entries: seq<EntryGroup>)
    requires graph.Valid() && graph.State() == EMPTY
    modifies graph
    ensures graph.Valid() && LaidOut(graph.State(), LaidEntries(entries)) && Unlinked(graph.State())
    ensures forall h: nat :: h in graph.entrypoints <==> h < |entries|
  {
    var i := 0;
    assert LaidEntries(entries)[..0] == [];
    while i < |entries|
      invariant i <= |entries| && graph.Valid()
      invariant LaidOut(graph.State(), LaidEntries(entries)[..i]) && Unlinked(graph.State())
      invariant forall h: nat :: h in graph.entrypoints <==> h < i
    {
      var e := entries[i];
      var group := LayGroup(graph, Some(e.name), e.entry, EntrypointKind(e.name), None, e.modules, LaidEntries(entries)[..i]);
      assert LaidEntries(entries)[..i + 1] == LaidEntries(entries)[..i] + [LaidEntries(entries)[i]];
      ghost var laid := graph.State();
      graph.AddEntrypoint(group);
      SameGraphLaid(laid, graph.State(), LaidEntries(entries)[..i + 1]);
      i := i + 1;
    }
    assert LaidEntries(entries)[..i] == LaidEntries(entries);
  }

  lemma SameGraphLaid(g: Graph, after: Graph, laid: seq<Laid>)
    requires LaidOut(g, laid) && Unlinked(g) && after == g.(entrypoints := after.entrypoints)
    ensures LaidOut(after, laid) && Unlinked(after)
  {
    assert forall c: nat, m: nat :: HasModule(after, c, m) <==> HasModule(g, c, m);
    assert forall c: nat, h: nat :: InGroup(after, c, h) <==> InGroup(g, c, h);
    forall k: nat | k < |laid| ensures LaidAt(after, laid[k], k) { assert LaidAt(g, laid[k], k); }
  }

  method LayPlans(graph: ChunkGraph, plans: seq<AsyncGroup>, ghost before: seq<Laid>)
    requires graph.Valid() && LaidOut(graph.State(), before) && Unlinked(graph.State())
    modifies graph
    ensures graph.Valid() && LaidOut(graph.State(), before + LaidPlans(plans)) && Unlinked(graph.State())
    ensures graph.entrypoints == old(graph.entrypoints)
  {
    var k := 0;
    assert before + LaidPlans(plans)[..0] == before;
    while k < |plans|
      invariant k <= |plans| && graph.Valid() && graph.entrypoints == old(graph.entrypoints)
      invariant LaidOut(graph.State(), before + LaidPlans(plans)[..k]) && Unlinked(graph.State())
    {
      var p := plans[k];
      var group := LayGroup(graph, None, p.target, AsyncKind, Some(p.origin), p.modules, before + LaidPlans(plans)[..k]);
      assert before + LaidPlans(plans)[..k + 1] == before + LaidPlans(plans)[..k] + [LaidPlans(plans)[k]];
      k := k + 1;
    }
    assert LaidPlans(plans)[..k] == LaidPlans(plans);
  }

  lemma LinksKeepLaid(g: Graph, after: Graph, laid: seq<Laid>)
    requires LaidOut(g, laid) && OnlyLinks(g, after)
    ensures LaidOut(after, laid)
  {
    assert forall c: nat, m: nat :: HasModule(after, c, m) <==> HasModule(g, c, m);
    assert forall c: nat, h: nat :: InGroup(after, c, h) <==> InGroup(g, c, h);
    forall k: nat | k < |laid| ensures LaidAt(after, laid[k], k) { assert LaidAt(g, laid[k], k); }
  }

  method Materialize(entries: seq<EntryGroup>, plans: seq<AsyncGroup>) returns (graph: ChunkGraph)
    requires ParentsLaid(|entries|, plans)
    ensures fresh(graph) && graph.Valid() && Materialized(graph.State(), entries, plans)
  {
    graph := new ChunkGraph();
    LayEntries(graph, entries);
    LayPlans(graph, plans, LaidEntries(entries));
    ghost var laid := graph.State();
    LinkAll(graph, |entries|, plans);
    LinksKeepLaid(laid, graph.State(), LaidEntries(entries) + LaidPlans(plans));
    MaterializedEdges(graph.State(), laid, |entries|, plans);
  }

  lemma MaterializedEdges(g: Graph, start: Graph, entries: nat, plans: seq<AsyncGroup>)
    requires LinkedUpTo(g, start, entries, plans, |plans|, 0)
    ensures LinkedAs(g, EdgesBefore(entries, plans, |plans|)) && BlocksLead(g.blockGroups, entries, plans, |plans|, 0)
  {
    assert EdgesBefore(entries, plans, |plans|) + [] == EdgesBefore(entries, plans, |plans|);
  }

  // ---- what the graph then satisfies ----

  /** Children are acyclic however circular the loads are, and no planned edge could be added to them. */
  lemma ChildrenAcyclicAndMaximal(g: Graph, entries: seq<EntryGroup>, plans: seq<AsyncGroup>, edge: (nat, nat))
    requires Materialized(g, entries, plans)
    ensures Acyclic(ChildEdges(g)) && ChildEdges(g) <= RuntimeEdges(g)
    ensures edge in RuntimeEdges(g) ==> (edge in ChildEdges(g) <==> !Reaches(ChildEdges(g), edge.1, edge.0))
  {
    var edges := EdgesBefore(|entries|, plans, |plans|);
    KeptAcyclic(edges);
    if edge in edges { KeptIsMaximal(edges, edge); }
  }

  lemma {:induction false} EdgesBeforeMembers(entries: nat, plans: seq<AsyncGroup>, n: nat, edge: (nat, nat))
    requires n <= |plans|
    ensures edge in EdgesBefore(entries, plans, n) <==>
            exists k: nat, j: nat :: k < n && j < |plans[k].parents| && edge == EdgesTo(entries, plans, k)[j]
  {
    if n > 0 {
      EdgesBeforeMembers(entries, plans, n - 1, edge);
      if edge in EdgesTo(entries, plans, n - 1) {
        var j: nat :| j < |plans[n - 1].parents| && EdgesTo(entries, plans, n - 1)[j] == edge;
      }
    }
  }

  predicate IsPlannedEdge(entries: nat, plans: seq<AsyncGroup>, k: nat, j: nat, parent: nat, child: nat) {
    && k < |plans| && j < |plans[k].parents|
    && child == entries + k && parent == HandleOf(entries, plans, plans[k].parents[j].group)
  }

  /** Runtime edges are the planned parent relation; each loading block has the group of what it loads. */
  lemma RuntimeEdgesAreParents(g: Graph, entries: seq<EntryGroup>, plans: seq<AsyncGroup>, parent: nat, child: nat, o: Origin)
    requires Materialized(g, entries, plans) && OneTargetEach(plans)
    ensures (parent, child) in RuntimeEdges(g) <==>
            exists k: nat, j: nat :: IsPlannedEdge(|entries|, plans, k, j, parent, child)
    ensures forall k: nat | k < |plans| && Loads(plans[k], o, |plans[k].parents|) ::
              o in g.blockGroups && g.blockGroups[o] == |entries| + k
    ensures o in g.blockGroups ==> exists k: nat :: k < |plans| && Loads(plans[k], o, |plans[k].parents|)
  {
    EdgesBeforeMembers(|entries|, plans, |plans|, (parent, child));
    if k: nat, j: nat :| IsPlannedEdge(|entries|, plans, k, j, parent, child) {
      assert EdgesTo(|entries|, plans, k)[j] == (parent, child);
    }
    if k: nat, j: nat :| k < |plans| && j < |plans[k].parents| && EdgesTo(|entries|, plans, k)[j] == (parent, child) {
      assert IsPlannedEdge(|entries|, plans, k, j, parent, child);
    }
  }

  // ---- which groups children keep reachable ----

  ghost function Between(first: nat, count: nat): (handles: set<nat>)
    ensures forall h: nat :: h in handles <==> first <= h < first + count
  {
    if count == 0 then {} else Between(first, count - 1) + {first + count - 1}
  }

  ghost function EntryHandles(entries: nat): set<nat> { Between(0, entries) }

  ghost function PlanHandles(entries: nat, count: nat): set<nat> { Between(entries, count) }

  lemma PlannedEdgesRooted(g: Graph, entries: seq<EntryGroup>, plans: seq<AsyncGroup>)
    requires Materialized(g, entries, plans) && ParentsLaid(|entries|, plans)
    ensures Rooted(RuntimeEdges(g), EntryHandles(|entries|), PlanHandles(|entries|, |plans|))
  {
    forall edge: (nat, nat) | edge in RuntimeEdges(g)
      ensures edge.0 in EntryHandles(|entries|) + PlanHandles(|entries|, |plans|)
      ensures edge.1 in PlanHandles(|entries|, |plans|)
    {
      EdgesBeforeMembers(|entries|, plans, |plans|, edge);
      var k: nat, j: nat :| k < |plans| && j < |plans[k].parents| && edge == EdgesTo(|entries|, plans, k)[j];
      assert IsLaid(|entries|, plans, plans[k].parents[j].group);
    }
  }

  /** The group is reachable from an entrypoint over materialised children. */
  ghost predicate Reached(g: Graph, entries: nat, h: nat) {
    ReachedFromRoot(ChildEdges(g), EntryHandles(entries), h)
  }

  /** Some group loads it that it does not itself reach over children. */
  ghost predicate LoadedFreely(g: Graph, h: nat) {
    exists p: nat :: (p, h) in RuntimeEdges(g) && !Reaches(ChildEdges(g), h, p)
  }

  /**
   * Every planned group is reachable from an entrypoint over children if and only if every planned
   * group is loaded from a group that it does not reach over children.
   */
  lemma AllGroupsReachedIff(g: Graph, entries: seq<EntryGroup>, plans: seq<AsyncGroup>)
    requires Materialized(g, entries, plans) && ParentsLaid(|entries|, plans)
    ensures (forall h: nat | h in PlanHandles(|entries|, |plans|) :: Reached(g, |entries|, h))
            <==> (forall h: nat | h in PlanHandles(|entries|, |plans|) :: LoadedFreely(g, h))
  {
    var edges := EdgesBefore(|entries|, plans, |plans|);
    PlannedEdgesRooted(g, entries, plans);
    AllReachedIffFreeParents(edges, EntryHandles(|entries|), PlanHandles(|entries|, |plans|));
    forall h: nat ensures LoadedFreely(g, h) <==> HasFreeParent(edges, h) {
      if p: nat :| (p, h) in RuntimeEdges(g) && !Reaches(ChildEdges(g), h, p) { assert (p, h) in edges; }
      if p: nat :| (p, h) in edges && !Reaches(Kept(edges), h, p) { assert (p, h) in RuntimeEdges(g); }
    }
  }

  /** Children are all the runtime edges exactly if loads go around in no circle; then every group is reached. */
  lemma AcyclicLoadsKeepAll(g: Graph, entries: seq<EntryGroup>, plans: seq<AsyncGroup>)
    requires Materialized(g, entries, plans) && ParentsLaid(|entries|, plans)
    requires forall k: nat | k < |plans| :: plans[k].parents != []
    ensures ChildEdges(g) == RuntimeEdges(g) <==> Acyclic(RuntimeEdges(g))
    ensures Acyclic(RuntimeEdges(g)) ==> forall h: nat | h in PlanHandles(|entries|, |plans|) :: Reached(g, |entries|, h)
  {
    var edges := EdgesBefore(|entries|, plans, |plans|);
    AllKeptIffAcyclic(edges);
    if Acyclic(RuntimeEdges(g)) {
      forall h: nat | h in PlanHandles(|entries|, |plans|) ensures LoadedFreely(g, h) {
        var k: nat := h - |entries|;
        var edge := EdgesTo(|entries|, plans, k)[0];
        EdgesBeforeMembers(|entries|, plans, |plans|, edge);
        assert edge in RuntimeEdges(g) && edge.1 == h;
        assert !Reaches(RuntimeEdges(g), edge.1, edge.0);
      }
      AllGroupsReachedIff(g, entries, plans);
    }
  }
}
