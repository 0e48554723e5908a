/** The chunk graph: chunks, chunk groups, and the indexes between them and modules. */
module ChunkGraphs {
  import opened Options
  import opened Sequences
  import opened AsyncChunkPlanning

  datatype Kind = EntrypointKind(name: string) | AsyncKind

  datatype Chunk = Chunk(name: Option<string>, roots: seq<nat>, groups: seq<nat>)

  datatype ChunkGroup =
    ChunkGroup(kind: Kind, origin: Option<Origin>, chunks: seq<nat>, parents: seq<nat>, children: seq<nat>)

  datatype Graph = Graph(
    chunks: seq<Chunk>, groups: seq<ChunkGroup>, entrypoints: seq<nat>,
    chunkModules: seq<seq<nat>>, moduleChunks: seq<seq<nat>>,
    blockGroups: map<Origin, nat>, runtimeChildren: seq<seq<nat>>)

  // ---- the indexes mirror each other ----

  predicate Sized(g: Graph) {
    |g.chunkModules| == |g.chunks| && |g.runtimeChildren| == |g.groups|
  }

  predicate HasModule(g: Graph, chunk: nat, m: nat) {
    chunk < |g.chunkModules| && m in g.chunkModules[chunk]
  }

  ghost predicate ModulesMirror(g: Graph) {
    && (forall c: nat | c < |g.chunkModules| :: Distinct(g.chunkModules[c]))
    && (forall m: nat | m < |g.moduleChunks| :: Distinct(g.moduleChunks[m]))
    && (forall c: nat, m: nat :: HasModule(g, c, m) <==> m < |g.moduleChunks| && c in g.moduleChunks[m])
  }

  ghost predicate GroupsMirror(g: Graph) {
    && (forall c: nat | c < |g.chunks| :: Distinct(g.chunks[c].groups))
    && (forall h: nat | h < |g.groups| :: Distinct(g.groups[h].chunks))
    && (forall c: nat, h: nat :: InGroup(g, c, h) <==> h < |g.groups| && c in g.groups[h].chunks)
  }

  predicate InGroup(g: Graph, chunk: nat, group: nat) {
    chunk < |g.chunks| && group in g.chunks[chunk].groups
  }

  predicate IsChild(g: Graph, parent: nat, child: nat) {
    parent < |g.groups| && child in g.groups[parent].children
  }

  predicate IsRuntimeChild(g: Graph, parent: nat, child: nat) {
    parent < |g.runtimeChildren| && child in g.runtimeChildren[parent]
  }

  /** Children and parents mirror each other, and every materialised edge is a runtime edge. */
  ghost predicate TreeMirrors(g: Graph) {
    && (forall p: nat, c: nat :: IsChild(g, p, c) <==> c < |g.groups| && p in g.groups[c].parents)
    && (forall p: nat, c: nat | IsChild(g, p, c) :: IsRuntimeChild(g, p, c))
    && (forall p: nat, c: nat | IsRuntimeChild(g, p, c) :: c < |g.groups|)
  }

  ghost predicate Mirrored(g: Graph) {
    Sized(g) && ModulesMirror(g) && GroupsMirror(g) && TreeMirrors(g)
  }

  ghost function ChildEdges(g: Graph): set<(nat, nat)> {
    set p: nat, c: nat | p < |g.groups| && c in g.groups[p].children :: (p, c)
  }

  ghost function RuntimeEdges(g: Graph): set<(nat, nat)> {
    set p: nat, c: nat | p < |g.runtimeChildren| && c in g.runtimeChildren[p] :: (p, c)
  }

  /** The modules a group installs. */
  ghost predicate GroupHas(g: Graph, group: nat, m: nat) {
    exists c: nat :: InGroup(g, c, group) && HasModule(g, c, m)
  }

  // ---- the updates ----

  const EMPTY: Graph := Graph([], [], [], [], [], map[], [])

  function WithChunk(g: Graph, name: Option<string>, roots: seq<nat>): Graph {
    g.(chunks := g.chunks + [Chunk(name, roots, [])], chunkModules := g.chunkModules + [[]])
  }

  function WithGroup(g: Graph, kind: Kind, origin: Option<Origin>): Graph {
    g.(groups := g.groups + [ChunkGroup(kind, origin, [], [], [])], runtimeChildren := g.runtimeChildren + [[]])
  }

  function JoinGroup(g: Graph, chunk: nat, group: nat): Graph
    requires chunk < |g.chunks| && group < |g.groups|
  {
    g.(chunks := g.chunks[chunk := g.chunks[chunk].(groups := AddOnce(g.chunks[chunk].groups, group))],
       groups := g.groups[group := g.groups[group].(chunks := AddOnce(g.groups[group].chunks, chunk))])
  }

  function LinkRuntime(g: Graph, parent: nat, child: nat): Graph
    requires parent < |g.runtimeChildren|
  {
    g.(runtimeChildren := g.runtimeChildren[parent := AddOnce(g.runtimeChildren[parent], child)])
  }

  function AddChild(groups: seq<ChunkGroup>, parent: nat, child: nat): seq<ChunkGroup>
    requires parent < |groups|
  {
    groups[parent := groups[parent].(children := AddOnce(groups[parent].children, child))]
  }

  function AddParent(groups: seq<ChunkGroup>, parent: nat, child: nat): seq<ChunkGroup>
    requires child < |groups|
  {
    groups[child := groups[child].(parents := AddOnce(groups[child].parents, parent))]
  }

  function LinkGroups(g: Graph, parent: nat, child: nat): Graph
    requires Sized(g) && parent < |g.groups| && child < |g.groups|
  {
    LinkTree(LinkRuntime(g, parent, child), parent, child)
  }

  function LinkTree(g: Graph, parent: nat, child: nat): Graph
    requires parent < |g.groups| && child < |g.groups|
  {
    g.(groups := AddParent(AddChild(g.groups, parent, child), parent, child))
  }

  /** Modules are dense handles; the index is lengthened up to the handle. */
  function Lengthened(lists: seq<seq<nat>>, m: nat): (longer: seq<seq<nat>>)
    ensures |longer| > m && |longer| >= |lists|
    ensures forall k: nat | k < |longer| :: longer[k] == if k < |lists| then lists[k] else []
  {
    if m < |lists| then lists else lists + seq(m + 1 - |lists|, _ => [])
  }

  function JoinModule(g: Graph, chunk: nat, m: nat): Graph
    requires chunk < |g.chunkModules|
  {
    var longer := Lengthened(g.moduleChunks, m);
    g.(chunkModules := g.chunkModules[chunk := AddOnce(g.chunkModules[chunk], m)],
       moduleChunks := longer[m := AddOnce(longer[m], chunk)])
  }

  function LeaveModule(g: Graph, chunk: nat, m: nat): Graph
    requires chunk < |g.chunkModules|
  {
    g.(chunkModules := g.chunkModules[chunk := Without(g.chunkModules[chunk], m)],
       moduleChunks := if m < |g.moduleChunks| then g.moduleChunks[m := Without(g.moduleChunks[m], chunk)]
                       else g.moduleChunks)
  }

  // ---- every update keeps the mirrors ----

  lemma EmptyMirrored()
    ensures Mirrored(EMPTY)
  {
  }

  lemma WithChunkMirrored(g: Graph, name: Option<string>, roots: seq<nat>)
    requires Mirrored(g)
    ensures Mirrored(WithChunk(g, name, roots))
    ensures forall c: nat, m: nat :: HasModule(WithChunk(g, name, roots), c, m) <==> HasModule(g, c, m)
  {
    var after := WithChunk(g, name, roots);
    assert forall c: nat, m: nat :: HasModule(after, c, m) <==> HasModule(g, c, m);
    assert forall c: nat, h: nat :: InGroup(after, c, h) <==> InGroup(g, c, h);
    assert forall p: nat, c: nat :: IsChild(after, p, c) <==> IsChild(g, p, c);
    assert forall p: nat, c: nat :: IsRuntimeChild(after, p, c) <==> IsRuntimeChild(g, p, c);
  }

  lemma WithGroupMirrored(g: Graph, kind: Kind, origin: Option<Origin>)
    requires Mirrored(g)
    ensures Mirrored(WithGroup(g, kind, origin))
  {
    var after := WithGroup(g, kind, origin);
    assert forall c: nat, m: nat :: HasModule(after, c, m) <==> HasModule(g, c, m);
    assert forall c: nat, h: nat :: InGroup(after, c, h) <==> InGroup(g, c, h);
    assert forall p: nat, c: nat :: IsChild(after, p, c) <==> IsChild(g, p, c);
    assert forall p: nat, c: nat :: IsRuntimeChild(after, p, c) <==> IsRuntimeChild(g, p, c);
  }

  /** Only one chunk joined groups, and those given. */
  ghost predicate Joined(g: Graph, after: Graph, chunk: nat, groups: set<nat>) {
    && SameModules(g, after) && SameShape(g, after)
    && forall c: nat, h: nat :: InGroup(after, c, h) <==> InGroup(g, c, h) || (c == chunk && h in groups)
  }

  /** The same modules in the same chunks. */
  predicate SameModules(g: Graph, after: Graph) {
    after.chunkModules == g.chunkModules && after.moduleChunks == g.moduleChunks
  }

  /** Nothing that chunks and groups are, or how groups are linked, has changed. */
  ghost predicate SameShape(g: Graph, after: Graph) {
    && |after.chunks| == |g.chunks| && |after.groups| == |g.groups|
    && (forall c: nat | c < |g.chunks| :: after.chunks[c] == g.chunks[c].(groups := after.chunks[c].groups))
    && (forall h: nat | h < |g.groups| :: after.groups[h] == g.groups[h].(chunks := after.groups[h].chunks))
    && after.entrypoints == g.entrypoints && after.blockGroups == g.blockGroups
    && after.runtimeChildren == g.runtimeChildren
  }

  lemma JoinGroupJoins(g: Graph, chunk: nat, group: nat)
    requires chunk < |g.chunks| && group < |g.groups|
    ensures Joined(g, JoinGroup(g, chunk, group), chunk, {group})
  {
  }

  lemma JoinedTwice(g: Graph, middle: Graph, after: Graph, chunk: nat, groups: set<nat>, more: set<nat>)
    requires Joined(g, middle, chunk, groups) && Joined(middle, after, chunk, more)
    ensures Joined(g, after, chunk, groups + more)
  {
  }

  lemma JoinGroupMirrored(g: Graph, chunk: nat, group: nat)
    requires Mirrored(g) && chunk < |g.chunks| && group < |g.groups|
    ensures Mirrored(JoinGroup(g, chunk, group))
  {
    var after := JoinGroup(g, chunk, group);
    assert forall c: nat, m: nat :: HasModule(after, c, m) <==> HasModule(g, c, m);
    assert forall p: nat, c: nat :: IsChild(after, p, c) <==> IsChild(g, p, c);
    assert forall p: nat, c: nat :: IsRuntimeChild(after, p, c) <==> IsRuntimeChild(g, p, c);
    assert forall c: nat, h: nat :: InGroup(after, c, h) <==> InGroup(g, c, h) || (c == chunk && h == group);
  }

  lemma LinkRuntimeMirrored(g: Graph, parent: nat, child: nat)
    requires Mirrored(g) && parent < |g.groups| && child < |g.groups|
    ensures Mirrored(LinkRuntime(g, parent, child))
    ensures ChildEdges(LinkRuntime(g, parent, child)) == ChildEdges(g)
    ensures RuntimeEdges(LinkRuntime(g, parent, child)) == RuntimeEdges(g) + {(parent, child)}
  {
    var after := LinkRuntime(g, parent, child);
    assert forall c: nat, m: nat :: HasModule(after, c, m) <==> HasModule(g, c, m);
    assert forall c: nat, h: nat :: InGroup(after, c, h) <==> InGroup(g, c, h);
    assert forall p: nat, c: nat :: IsChild(after, p, c) <==> IsChild(g, p, c);
    assert forall p: nat, c: nat :: IsRuntimeChild(after, p, c) <==> IsRuntimeChild(g, p, c) || (p == parent && c == child);
  }

  lemma LinkGroupsMirrored(g: Graph, parent: nat, child: nat)
    requires Mirrored(g) && parent < |g.groups| && child < |g.groups|
    ensures Mirrored(LinkGroups(g, parent, child))
    ensures ChildEdges(LinkGroups(g, parent, child)) == ChildEdges(g) + {(parent, child)}
    ensures RuntimeEdges(LinkGroups(g, parent, child)) == RuntimeEdges(g) + {(parent, child)}
  {
    LinkRuntimeMirrored(g, parent, child);
    LinkTreeMirrored(LinkRuntime(g, parent, child), parent, child);
    LinkTreeEdges(LinkRuntime(g, parent, child), parent, child);
  }

  lemma LinkTreeMirrored(g: Graph, parent: nat, child: nat)
    requires Mirrored(g) && parent < |g.groups| && child < |g.groups| && IsRuntimeChild(g, parent, child)
    ensures Mirrored(LinkTree(g, parent, child))
  {
    var after := LinkTree(g, parent, child);
    assert forall c: nat, m: nat :: HasModule(after, c, m) <==> HasModule(g, c, m);
    assert forall c: nat, h: nat :: InGroup(after, c, h) <==> InGroup(g, c, h);
    assert forall p: nat, c: nat :: IsChild(after, p, c) <==> IsChild(g, p, c) || (p == parent && c == child);
    assert forall p: nat, c: nat :: IsRuntimeChild(after, p, c) <==> IsRuntimeChild(g, p, c);
  }

  lemma LinkTreeEdges(g: Graph, parent: nat, child: nat)
    requires parent < |g.groups| && child < |g.groups|
    ensures ChildEdges(LinkTree(g, parent, child)) == ChildEdges(g) + {(parent, child)}
    ensures RuntimeEdges(LinkTree(g, parent, child)) == RuntimeEdges(g)
  {
    var after := LinkTree(g, parent, child);
    assert forall p: nat | p < |g.groups| ::
        after.groups[p].children == if p == parent then AddOnce(g.groups[p].children, child) else g.groups[p].children;
  }

  lemma JoinModuleMirrored(g: Graph, chunk: nat, m: nat)
    requires Mirrored(g) && chunk < |g.chunks|
    ensures Mirrored(JoinModule(g, chunk, m))
    ensures forall c: nat, n: nat :: HasModule(JoinModule(g, chunk, m), c, n) <==> HasModule(g, c, n) || (c == chunk && n == m)
  {
    var after := JoinModule(g, chunk, m);
    assert forall c: nat, n: nat :: HasModule(after, c, n) <==> HasModule(g, c, n) || (c == chunk && n == m);
    assert forall c: nat, h: nat :: InGroup(after, c, h) <==> InGroup(g, c, h);
    assert forall p: nat, c: nat :: IsChild(after, p, c) <==> IsChild(g, p, c);
    assert forall p: nat, c: nat :: IsRuntimeChild(after, p, c) <==> IsRuntimeChild(g, p, c);
  }

  lemma LeaveModuleMirrored(g: Graph, chunk: nat, m: nat)
    requires Mirrored(g) && chunk < |g.chunks|
    ensures Mirrored(LeaveModule(g, chunk, m))
    ensures forall c: nat, n: nat :: HasModule(LeaveModule(g, chunk, m), c, n) <==> HasModule(g, c, n) && !(c == chunk && n == m)
  {
    var after := LeaveModule(g, chunk, m);
    WithoutKeepsOthers(g.chunkModules[chunk], m);
    if m < |g.moduleChunks| { WithoutKeepsOthers(g.moduleChunks[m], chunk); }
    assert forall c: nat, n: nat :: HasModule(after, c, n) <==> HasModule(g, c, n) && !(c == chunk && n == m);
    assert forall c: nat, h: nat :: InGroup(after, c, h) <==> InGroup(g, c, h);
    assert forall p: nat, c: nat :: IsChild(after, p, c) <==> IsChild(g, p, c);
    assert forall p: nat, c: nat :: IsRuntimeChild(after, p, c) <==> IsRuntimeChild(g, p, c);
  }

  // ---- a chunk split off from others joins all their groups ----

  predicate GroupsIn(g: Graph, groups: seq<nat>) {
    forall i: nat | i < |groups| :: groups[i] < |g.groups|
  }

  predicate ChunksIn(g: Graph, chunks: seq<nat>) {
    forall i: nat | i < |chunks| :: chunks[i] < |g.chunks|
  }

  /** Every chunk names only groups that exist. */
  predicate Ranged(g: Graph) {
    forall c: nat | c < |g.chunks| :: GroupsIn(g, g.chunks[c].groups)
  }

  lemma MirroredRanged(g: Graph)
    requires Mirrored(g)
    ensures Ranged(g)
  {
    forall c: nat, i: nat | c < |g.chunks| && i < |g.chunks[c].groups| ensures g.chunks[c].groups[i] < |g.groups| {
      assert InGroup(g, c, g.chunks[c].groups[i]);
    }
  }

  /** The groups of some chunks. */
  ghost function GroupsOf(g: Graph, sources: seq<nat>): set<nat> {
    set i: nat, h: nat | i < |sources| && sources[i] < |g.chunks| && h in g.chunks[sources[i]].groups :: h
  }

  lemma SameGroupsElsewhere(g: Graph, after: Graph, chunk: nat, groups: set<nat>, other: nat)
    requires Joined(g, after, chunk, groups) && other < |g.chunks| && other != chunk
    ensures Members(after.chunks[other].groups) == Members(g.chunks[other].groups)
  {
    forall h: nat ensures h in after.chunks[other].groups <==> h in g.chunks[other].groups {
      assert InGroup(after, other, h) <==> InGroup(g, other, h);
    }
  }

  lemma OneMoreSource(g: Graph, sources: seq<nat>, n: nat)
    requires n < |sources| && sources[n] < |g.chunks|
    ensures GroupsOf(g, sources[..n + 1]) == GroupsOf(g, sources[..n]) + Members(g.chunks[sources[n]].groups)
  {
    var more, fewer := sources[..n + 1], sources[..n];
    forall h: nat ensures h in GroupsOf(g, more) <==> h in GroupsOf(g, fewer) || h in g.chunks[sources[n]].groups {
      if h in GroupsOf(g, more) {
        var i: nat :| i < |more| && more[i] < |g.chunks| && h in g.chunks[more[i]].groups;
        if i < n { assert fewer[i] == more[i]; }
      }
      if h in GroupsOf(g, fewer) {
        var i: nat :| i < |fewer| && fewer[i] < |g.chunks| && h in g.chunks[fewer[i]].groups;
        assert more[i] == fewer[i];
      }
      if h in g.chunks[sources[n]].groups { assert more[n] == sources[n]; }
    }
  }

  /** One more source's groups are joined. */
  lemma JoinedOneMore(g: Graph, before: Graph, after: Graph, chunk: nat, sources: seq<nat>, n: nat)
    requires n < |sources| && sources[n] < |g.chunks| == |before.chunks| && sources[n] != chunk
    requires Joined(g, before, chunk, GroupsOf(g, sources[..n]))
    requires Joined(before, after, chunk, Members(before.chunks[sources[n]].groups))
    ensures Joined(g, after, chunk, GroupsOf(g, sources[..n + 1]))
  {
    SameGroupsElsewhere(g, before, chunk, GroupsOf(g, sources[..n]), sources[n]);
    JoinedTwice(g, before, after, chunk, GroupsOf(g, sources[..n]), Members(before.chunks[sources[n]].groups));
    OneMoreSource(g, sources, n);
  }

  lemma MembersSnoc(s: seq<nat>, n: nat)
    requires n < |s|
    ensures Members(s[..n + 1]) == Members(s[..n]) + {s[n]}
  {
    assert s[..n + 1] == s[..n] + [s[n]];
  }

  // ---- the graph, updated in place ----

  class ChunkGraph {
    var chunks: seq<Chunk>
    var chunkGroups: seq<ChunkGroup>
    var entrypoints: seq<nat>
    var chunkModules: seq<seq<nat>>
    var moduleChunks: seq<seq<nat>>
    var blockChunkGroups: map<Origin, nat>
    var runtimeChunkGroupChildren: seq<seq<nat>>

    ghost function State(): Graph reads this {
      Graph(chunks, chunkGroups, entrypoints, chunkModules, moduleChunks, blockChunkGroups, runtimeChunkGroupChildren)
    }

    ghost predicate Valid() reads this { Mirrored(State()) }

    constructor ()
      ensures Valid() && State() == EMPTY
    {
      chunks, chunkGroups, entrypoints, chunkModules, moduleChunks := [], [], [], [], [];
      blockChunkGroups, runtimeChunkGroupChildren := map[], [];
      EmptyMirrored();
    }

    method AddChunk(name: Option<string>, roots: seq<nat>) returns (handle: nat)
      requires Valid()
      modifies this
      ensures Valid() && handle == old(|chunks|) && State() == WithChunk(old(State()), name, roots)
    {
      WithChunkMirrored(State(), name, roots);
      handle := |chunks|;
      chunks := chunks + [Chunk(name, roots, [])];
      chunkModules := chunkModules + [[]];
    }

    method AddChunkGroup(kind: Kind, origin: Option<Origin>) returns (handle: nat)
      requires Valid()
      modifies this
      ensures Valid() && handle == old(|chunkGroups|) && State() == WithGroup(old(State()), kind, origin)
    {
      WithGroupMirrored(State(), kind, origin);
      handle := |chunkGroups|;
      chunkGroups := chunkGroups + [ChunkGroup(kind, origin, [], [], [])];
      runtimeChunkGroupChildren := runtimeChunkGroupChildren + [[]];
    }

    method ConnectChunkAndGroup(chunk: nat, group: nat)
      requires Valid() && chunk < |chunks| && group < |chunkGroups|
      modifies this
      ensures Valid() && State() == JoinGroup(old(State()), chunk, group)
      ensures Joined(old(State()), State(), chunk, {group})
    {
      JoinGroupMirrored(State(), chunk, group);
      JoinGroupJoins(State(), chunk, group);
      chunks := chunks[chunk := chunks[chunk].(groups := AddOnce(chunks[chunk].groups, group))];
      chunkGroups := chunkGroups[group := chunkGroups[group].(chunks := AddOnce(chunkGroups[group].chunks, chunk))];
    }

    method ConnectRuntimeChunkGroups(parent: nat, child: nat)
      requires Valid() && parent < |chunkGroups| && child < |chunkGroups|
      modifies this
      ensures Valid() && State() == LinkRuntime(old(State()), parent, child)
    {
      LinkRuntimeMirrored(State(), parent, child);
      if child !in runtimeChunkGroupChildren[parent] {
        runtimeChunkGroupChildren :=
          runtimeChunkGroupChildren[parent := runtimeChunkGroupChildren[parent] + [child]];
      } else {
        assert runtimeChunkGroupChildren[parent := runtimeChunkGroupChildren[parent]] == runtimeChunkGroupChildren;
      }
    }

    method ConnectChunkGroups(parent: nat, child: nat)
      requires Valid() && parent < |chunkGroups| && child < |chunkGroups|
      modifies this
      ensures Valid() && State() == LinkGroups(old(State()), parent, child)
    {
      LinkGroupsMirrored(State(), parent, child);
      ConnectRuntimeChunkGroups(parent, child);
      chunkGroups := AddChild(chunkGroups, parent, child);
      chunkGroups := AddParent(chunkGroups, parent, child);
    }

    method AddEntrypoint(entrypoint: nat)
      requires Valid()
      modifies this`entrypoints
      ensures Valid() && State() == old(State()).(entrypoints := old(entrypoints) + [entrypoint])
    {
      entrypoints := entrypoints + [entrypoint];
      OtherFieldsMirrored(old(State()), State());
    }

    method ConnectBlockAndChunkGroup(origin: Origin, group: nat)
      requires Valid()
      modifies this`blockChunkGroups
      ensures Valid() && State() == old(State()).(blockGroups := old(blockChunkGroups)[origin := group])
    {
      blockChunkGroups := blockChunkGroups[origin := group];
      OtherFieldsMirrored(old(State()), State());
    }

    /** A new chunk, in exactly the groups that its sources are in. */
    method AddSplitChunk(sources: seq<nat>, name: Option<string>, roots: seq<nat>) returns (handle: nat)
      requires Valid() && ChunksIn(State(), sources)
      modifies this
      ensures Valid() && handle == old(|chunks|)
      ensures var added := WithChunk(old(State()), name, roots);
              Joined(added, State(), handle, GroupsOf(added, sources))
    {
      handle := AddChunk(name, roots);
      JoinSources(handle, sources);
    }

    method JoinSources(chunk: nat, sources: seq<nat>)
      requires Valid() && chunk < |chunks| && ChunksIn(State(), sources) && chunk !in sources
      modifies this
      ensures Valid() && Joined(old(State()), State(), chunk, GroupsOf(old(State()), sources))
    {
      ghost var start := State();
      assert GroupsOf(start, sources[..0]) == {};
      var i := 0;
      while i < |sources|
        invariant i <= |sources| && Valid() && |chunks| == |start.chunks|
        invariant Joined(start, State(), chunk, GroupsOf(start, sources[..i]))
      {
        ghost var before := State();
        JoinEachGroupOf(chunk, sources[i]);
        JoinedOneMore(start, before, State(), chunk, sources, i);
        i := i + 1;
      }
      assert sources[..i] == sources;
    }

    method JoinEachGroupOf(chunk: nat, source: nat)
      requires Valid() && chunk < |chunks| && source < |chunks|
      modifies this
      ensures Valid() && |chunks| == old(|chunks|)
      ensures Joined(old(State()), State(), chunk, Members(old(chunks[source].groups)))
    {
      ghost var start := State();
      var groups := chunks[source].groups;
      MirroredRanged(State());
      assert Members(groups[..0]) == {};
      var i := 0;
      while i < |groups|
        invariant i <= |groups| && Valid() && |chunks| == |start.chunks| && |chunkGroups| == |start.groups|
        invariant Joined(start, State(), chunk, Members(groups[..i]))
      {
        ghost var before := State();
        ConnectChunkAndGroup(chunk, groups[i]);
        JoinedTwice(start, before, State(), chunk, Members(groups[..i]), {groups[i]});
        MembersSnoc(groups, i);
        i := i + 1;
      }
      assert groups[..i] == groups;
    }

    method ConnectChunkAndModule(chunk: nat, m: nat)
      requires Valid() && chunk < |chunks|
      modifies this
      ensures Valid() && State() == JoinModule(old(State()), chunk, m)
    {
      JoinModuleMirrored(State(), chunk, m);
      moduleChunks := Lengthened(moduleChunks, m);
      chunkModules := chunkModules[chunk := AddOnce(chunkModules[chunk], m)];
      moduleChunks := moduleChunks[m := AddOnce(moduleChunks[m], chunk)];
    }

    method DisconnectChunkAndModule(chunk: nat, m: nat)
      requires Valid() && chunk < |chunks|
      modifies this
      ensures Valid() && State() == LeaveModule(old(State()), chunk, m)
    {
      LeaveModuleMirrored(State(), chunk, m);
      var kept := Retain(chunkModules[chunk], m);
      chunkModules := chunkModules[chunk := kept];
      if m < |moduleChunks| {
        var left := Retain(moduleChunks[m], chunk);
        moduleChunks := moduleChunks[m := left];
      }
    }
  }

  lemma OtherFieldsMirrored(g: Graph, after: Graph)
    requires Mirrored(g) && after == g.(entrypoints := after.entrypoints, blockGroups := after.blockGroups)
    ensures Mirrored(after)
  {
    assert forall c: nat, m: nat :: HasModule(after, c, m) <==> HasModule(g, c, m);
    assert forall c: nat, h: nat :: InGroup(after, c, h) <==> InGroup(g, c, h);
    assert forall p: nat, c: nat :: IsChild(after, p, c) <==> IsChild(g, p, c);
    assert forall p: nat, c: nat :: IsRuntimeChild(after, p, c) <==> IsRuntimeChild(g, p, c);
  }
}
