/** The chunk graph of the planned groups. */
module ChunkGraphAssembly {
  import opened Options
  import opened Sequences
  import opened Reachability
  import opened ModuleGraphs
  import opened AsyncChunkPlanning
  import opened AsyncChunkPlanner
  import opened ChunkGraphs
  import opened ChunkMaterialization
  import opened ChunkGraphBuilding
  import RenderIds

  // ---- the order of identities ----

  /** Entrypoints come before async chunks. */
  predicate GroupBefore(rank: nat -> nat, a: Group, b: Group) {
    match (a, b)
    case (Entrypoint(i), Entrypoint(j)) => i < j
    case (Entrypoint(_), AsyncChunk(_)) => true
    case (AsyncChunk(_), Entrypoint(_)) => false
    case (AsyncChunk(s), AsyncChunk(t)) => rank(s) < rank(t)
  }

  /** The first of some groups. */
  method FirstGroup(rank: nat -> nat, groups: set<Group>) returns (first: Group)
    requires IsOrder(rank) && groups != {}
    ensures first in groups && forall g | g in groups :: g == first || GroupBefore(rank, first, g)
  {
    var left := groups;
    first :| first in left;
    left := left - {first};
    while left != {}
      invariant left < groups && first in groups
      invariant forall g | g in groups && g !in left :: g == first || GroupBefore(rank, first, g)
      decreases |left|
    {
      var g :| g in left;
      if GroupBefore(rank, g, first) { first := g; }
      left := left - {g};
    }
  }

  /** The first of some modules. */
  method FirstModule(rank: nat -> nat, modules: set<nat>) returns (first: nat)
    requires IsOrder(rank) && modules != {}
    ensures first in modules && forall m: nat | m in modules :: m == first || rank(first) < rank(m)
  {
    var left := modules;
    first :| first in left;
    left := left - {first};
    while left != {}
      invariant left < modules && first in modules
      invariant forall m: nat | m in modules && m !in left :: m == first || rank(first) < rank(m)
      decreases |left|
    {
      var m :| m in left;
      if rank(m) < rank(first) { first := m; }
      left := left - {m};
    }
  }

  // ---- plans in that order ----

  ghost predicate Edged(group: AsyncGroup, p: Group, o: Origin) {
    exists j: nat :: j < |group.parents| && group.parents[j].group == p && o in group.parents[j].origins
  }

  /** The group is described by the first of the origins that load it. */
  ghost predicate FirstOrigin(rank: nat -> nat, group: AsyncGroup) {
    && (exists p: Group :: Edged(group, p, group.origin))
    && (forall p: Group, o: Origin | Edged(group, p, o) :: o == group.origin || OriginBefore(rank, group.origin, o))
  }

  predicate ParentsInOrder(rank: nat -> nat, parents: seq<Parent>) {
    forall i: nat, j: nat | i < j < |parents| :: GroupBefore(rank, parents[i].group, parents[j].group)
  }

  predicate TargetsInOrder(rank: nat -> nat, groups: seq<AsyncGroup>) {
    forall i: nat, j: nat | i < j < |groups| :: rank(groups[i].target) < rank(groups[j].target)
  }

  /** Plans by the identities of their targets, parents in order, and each group named by its first origin. */
  ghost predicate InIdentityOrder(rank: nat -> nat, groups: seq<AsyncGroup>) {
    && TargetsInOrder(rank, groups)
    && forall k: nat | k < |groups| :: OrderedOne(rank, groups[k])
  }

  ghost predicate OrderedOne(rank: nat -> nat, group: AsyncGroup) {
    FirstOrigin(rank, group) && ParentsInOrder(rank, group.parents)
  }

  ghost predicate DescribesOne(input: Input, plan: Plan, group: AsyncGroup) {
    && group.target in plan.min
    && Members(group.modules) == Own(input, plan, AsyncChunk(group.target))
    && (forall p: Group, o: Origin :: Edged(group, p, o) <==> Edge(p, o, group.target) in plan.edges)
    && (forall j: nat | j < |group.parents| :: group.parents[j].origins != [])
  }

  /** Every plan once, with its modules, parents and origins. */
  ghost predicate Describes(input: Input, plan: Plan, groups: seq<AsyncGroup>) {
    && OneGroupEach(groups)
    && (forall t: nat :: HasTarget(groups, t) <==> t in plan.min)
    && (forall k: nat | k < |groups| :: DescribesOne(input, plan, groups[k]))
  }

  /** The parents of a plan, in order; those left come after those listed. */
  ghost predicate ListedBut(rank: nat -> nat, parents: ParentMasks, listed: seq<Parent>, left: set<Group>) {
    && ParentsInOrder(rank, listed)
    && (forall j: nat | j < |listed| ::
          && listed[j].group in parents && listed[j].origins == parents[listed[j].group].origins
          && forall g | g in left :: GroupBefore(rank, listed[j].group, g))
    && (forall p | p in parents && p !in left :: exists j: nat :: j < |listed| && listed[j].group == p)
  }

  lemma ListedOneMore(rank: nat -> nat, parents: ParentMasks, listed: seq<Parent>, left: set<Group>, p: Group)
    requires ListedBut(rank, parents, listed, left) && p in left && p in parents
    requires forall g | g in left :: g == p || GroupBefore(rank, p, g)
    ensures ListedBut(rank, parents, listed + [Parent(p, parents[p].origins)], left - {p})
  {
    var more := listed + [Parent(p, parents[p].origins)];
    assert more[|listed|].group == p;
    forall q | q in parents && q !in left - {p} ensures exists j: nat :: j < |more| && more[j].group == q {
      if q != p {
        var j: nat :| j < |listed| && listed[j].group == q;
        assert more[j].group == q;
      }
    }
  }

  method ListParents(rank: nat -> nat, parents: ParentMasks) returns (listed: seq<Parent>)
    requires IsOrder(rank)
    ensures ListedBut(rank, parents, listed, {})
  {
    listed := [];
    var left := parents.Keys;
    while left != {}
      invariant left <= parents.Keys && ListedBut(rank, parents, listed, left)
      decreases |left|
    {
      var p := FirstGroup(rank, left);
      ListedOneMore(rank, parents, listed, left, p);
      listed := listed + [Parent(p, parents[p].origins)];
      left := left - {p};
    }
  }

  /** No origin of the first `n` parents comes before it. */
  ghost predicate LeastUpTo(rank: nat -> nat, parents: seq<Parent>, first: Origin, n: nat) {
    forall j: nat, o | j < n && j < |parents| && o in parents[j].origins :: o == first || OriginBefore(rank, first, o)
  }

  /** The first of all origins of some parents. */
  method LeastOrigin(rank: nat -> nat, parents: seq<Parent>) returns (first: Origin)
    requires IsOrder(rank) && parents != [] && parents[0].origins != []
    ensures exists j: nat :: j < |parents| && first in parents[j].origins
    ensures LeastUpTo(rank, parents, first, |parents|)
  {
    first := parents[0].origins[0];
    var j := 0;
    while j < |parents|
      invariant j <= |parents| && exists k: nat :: k < |parents| && first in parents[k].origins
      invariant LeastUpTo(rank, parents, first, j)
    {
      var best := LeastOf(rank, first, parents[j].origins);
      LeastNext(rank, parents, first, best, j);
      if best != first { assert best in parents[j].origins; }
      first := best;
      j := j + 1;
    }
  }

  lemma LeastNext(rank: nat -> nat, parents: seq<Parent>, first: Origin, best: Origin, j: nat)
    requires IsOrder(rank) && j < |parents| && LeastUpTo(rank, parents, first, j)
    requires best == first || OriginBefore(rank, best, first)
    requires forall o | o in parents[j].origins :: o == best || OriginBefore(rank, best, o)
    ensures LeastUpTo(rank, parents, best, j + 1)
  {
    forall k: nat, o | k < j + 1 && o in parents[k].origins ensures o == best || OriginBefore(rank, best, o) {
      if k < j { assert o == first || OriginBefore(rank, first, o); }
    }
  }

  method LeastOf(rank: nat -> nat, start: Origin, origins: seq<Origin>) returns (first: Origin)
    requires IsOrder(rank)
    ensures first == start || (first in origins && OriginBefore(rank, first, start))
    ensures forall o | o in origins :: o == first || OriginBefore(rank, first, o)
  {
    first := start;
    var i := 0;
    while i < |origins|
      invariant i <= |origins|
      invariant first == start || (first in origins && OriginBefore(rank, first, start))
      invariant forall k: nat | k < i :: origins[k] == first || OriginBefore(rank, first, origins[k])
    {
      if OriginBefore(rank, origins[i], first) { first := origins[i]; }
      i := i + 1;
    }
  }

  method DescribePlan(rank: nat -> nat, input: Input, plan: AsyncChunkPlan, ghost plans: Plans, ghost abstracted: Plan)
    returns (group: AsyncGroup)
    requires IsOrder(rank) && Realizes(input, plans, abstracted) && plan.target in plans && plans[plan.target] == plan
    ensures DescribesOne(input, abstracted, group) && group.target == plan.target
    ensures OrderedOne(rank, group)
  {
    var own := Carried(plan.staticModules, plan.minAvailable);
    var parents := ListParents(rank, plan.parents);
    SomeParent(rank, plan.parents, parents);
    var origin := LeastOrigin(rank, parents);
    group := AsyncGroup(plan.target, origin, own, parents);
    forall p: Group, o: Origin ensures Edged(group, p, o) <==> Edge(p, o, group.target) in abstracted.edges {
      EdgedInParents(rank, plan.parents, group, p, o);
    }
    var k: nat :| k < |parents| && origin in parents[k].origins;
    assert Edged(group, parents[k].group, origin);
  }

  lemma SomeParent(rank: nat -> nat, parents: ParentMasks, listed: seq<Parent>)
    requires ListedBut(rank, parents, listed, {}) && parents != map[]
    ensures listed != []
  {
    var p :| p in parents;
  }

  lemma EdgedInParents(rank: nat -> nat, parents: ParentMasks, group: AsyncGroup, p: Group, o: Origin)
    requires ListedBut(rank, parents, group.parents, {})
    ensures Edged(group, p, o) <==> p in parents && o in parents[p].origins
  {
    if p in parents {
      var j: nat :| j < |group.parents| && group.parents[j].group == p;
    }
  }

  lemma {:induction false} HasTargetSnoc(groups: seq<AsyncGroup>, group: AsyncGroup, t: nat)
    ensures HasTarget(groups + [group], t) <==> HasTarget(groups, t) || group.target == t
  {
    if groups == [] {
      assert groups + [group] == [group];
    } else {
      assert (groups + [group])[1..] == groups[1..] + [group];
      if groups[0].target != t { HasTargetSnoc(groups[1..], group, t); }
    }
  }

  /** All plans but those left are described. */
  ghost predicate DescribedBut(input: Input, plan: Plan, groups: seq<AsyncGroup>, left: set<nat>) {
    && OneGroupEach(groups)
    && (forall t: nat :: HasTarget(groups, t) <==> t in plan.min && t !in left)
    && (forall k: nat | k < |groups| :: DescribesOne(input, plan, groups[k]))
  }

  lemma DescribedOneMore(input: Input, plan: Plan, groups: seq<AsyncGroup>, left: set<nat>, group: AsyncGroup)
    requires DescribedBut(input, plan, groups, left) && left <= plan.min.Keys
    requires DescribesOne(input, plan, group) && group.target in left
    ensures DescribedBut(input, plan, groups + [group], left - {group.target})
  {
    forall t: nat ensures HasTarget(groups + [group], t) <==> t in plan.min && t !in left - {group.target} {
      HasTargetSnoc(groups, group, t);
    }
    forall k: nat | k < |groups| ensures groups[k].target != group.target { TargetListed(groups, k); }
  }

  lemma {:induction false} TargetListed(groups: seq<AsyncGroup>, k: nat)
    requires k < |groups|
    ensures HasTarget(groups, groups[k].target)
  {
    if k > 0 && groups[0].target != groups[k].target { TargetListed(groups[1..], k - 1); }
  }

  /** The targets listed so far come before those left. */
  ghost predicate OrderedBut(rank: nat -> nat, groups: seq<AsyncGroup>, left: set<nat>) {
    && InIdentityOrder(rank, groups)
    && forall k: nat, t: nat | k < |groups| && t in left :: rank(groups[k].target) < rank(t)
  }

  lemma OrderedOneMore(rank: nat -> nat, groups: seq<AsyncGroup>, left: set<nat>, group: AsyncGroup)
    requires OrderedBut(rank, groups, left) && OrderedOne(rank, group) && group.target in left
    requires forall t: nat | t in left :: t == group.target || rank(group.target) < rank(t)
    ensures OrderedBut(rank, groups + [group], left - {group.target})
  {
  }

  /** All plans, sorted by the identities of their targets. */
  method DescribePlans(rank: nat -> nat, input: Input, plans: Plans, ghost plan: Plan) returns (groups: seq<AsyncGroup>)
    requires IsOrder(rank) && Realizes(input, plans, plan)
    ensures Describes(input, plan, groups) && InIdentityOrder(rank, groups)
  {
    groups := [];
    var left := plans.Keys;
    while left != {}
      invariant left <= plans.Keys && DescribedBut(input, plan, groups, left) && OrderedBut(rank, groups, left)
      decreases |left|
    {
      var t := FirstModule(rank, left);
      var group := DescribePlan(rank, input, plans[t], plans, plan);
      DescribedOneMore(input, plan, groups, left, group);
      OrderedOneMore(rank, groups, left, group);
      groups, left := groups + [group], left - {t};
    }
  }

  // ---- entrypoints ----

  ghost predicate DescribesEntries(input: Input, entries: seq<EntryGroup>) {
    && |entries| == |input.entries|
    && forall i: nat | i < |entries| ::
         entries[i].entry == input.entries[i] && Members(entries[i].modules) == StaticModules(input.graph, input.entries[i])
  }

  /** An entry without a configured name is called by its position. */
  function EntryName(names: seq<string>, i: nat): string {
    if i < |names| then names[i] else "entry" + RenderIds.Decimal(i)
  }

  method DescribeEntrypoints(input: Input, names: seq<string>) returns (entries: seq<EntryGroup>)
    requires input.Valid()
    ensures DescribesEntries(input, entries)
    ensures forall i: nat | i < |entries| :: entries[i].name == EntryName(names, i)
  {
    entries := [];
    while |entries| < |input.entries|
      invariant |entries| <= |input.entries|
      invariant forall i: nat | i < |entries| ::
                  entries[i].entry == input.entries[i] && Members(entries[i].modules) == StaticModules(input.graph, input.entries[i])
      invariant forall i: nat | i < |entries| :: entries[i].name == EntryName(names, i)
    {
      var entry := input.entries[|entries|];
      var modules := CollectStaticReachable(input.graph, entry);
      entries := entries + [EntryGroup(EntryName(names, |entries|), entry, modules)];
    }
  }

  // ---- the graph of a plan ----

  lemma DescribedParentsLaid(input: Input, plan: Plan, entries: seq<EntryGroup>, groups: seq<AsyncGroup>)
    requires Closed(input, plan) && Describes(input, plan, groups) && DescribesEntries(input, entries)
    ensures ParentsLaid(|entries|, groups)
  {
    forall k: nat, j: nat | k < |groups| && j < |groups[k].parents|
      ensures IsLaid(|entries|, groups, groups[k].parents[j].group)
    {
      assert DescribesOne(input, plan, groups[k]);
      var parent := groups[k].parents[j];
      assert Edged(groups[k], parent.group, parent.origins[0]);
      assert Edge(parent.group, parent.origins[0], groups[k].target) in plan.edges;
    }
  }

  /** The groups of the graph are those of the plan; its runtime edges are the plan's edges. */
  ghost predicate Assembled(input: Input, plan: Plan, g: Graph, entries: seq<EntryGroup>, groups: seq<AsyncGroup>) {
    && DescribesEntries(input, entries) && Describes(input, plan, groups) && Materialized(g, entries, groups)
  }

  method BuildChunkGraph(rank: nat -> nat, input: Input, names: seq<string>)
    returns (graph: ChunkGraph, ghost plan: Plan, ghost entries: seq<EntryGroup>, ghost groups: seq<AsyncGroup>)
    requires IsOrder(rank) && input.Valid()
    ensures fresh(graph) && graph.Valid() && Solved(input, plan)
    ensures Assembled(input, plan, graph.State(), entries, groups) && InIdentityOrder(rank, groups)
    ensures forall i: nat | i < |input.entries| ::
              EntrypointNamed(graph.State(), i, if i < |names| then names[i] else "entry" + RenderIds.Decimal(i))
  {
    var plans;
    plans, plan := PlanAsyncChunks(rank, input);
    var described := DescribePlans(rank, input, plans, plan);
    var entrypoints := DescribeEntrypoints(input, names);
    entries, groups := entrypoints, described;
    DescribedParentsLaid(input, plan, entries, groups);
    graph := Materialize(entrypoints, described);
    forall i: nat | i < |input.entries|
      ensures EntrypointNamed(graph.State(), i, if i < |names| then names[i] else "entry" + RenderIds.Decimal(i))
    {
      LaidEntrypoint(graph.State(), entrypoints, described, i);
    }
  }

  /** The group and its one chunk both bear the name. */
  ghost predicate EntrypointNamed(g: Graph, i: nat, name: string) {
    && i < |g.groups| && i < |g.chunks|
    && g.groups[i].kind == EntrypointKind(name) && g.chunks[i].name == Some(name)
  }

  lemma LaidEntrypoint(g: Graph, entries: seq<EntryGroup>, groups: seq<AsyncGroup>, i: nat)
    requires Materialized(g, entries, groups) && i < |entries|
    ensures EntrypointNamed(g, i, entries[i].name)
  {
    assert (LaidEntries(entries) + LaidPlans(groups))[i] == LaidEntries(entries)[i];
  }

  // ---- what the assembled graph satisfies ----

  ghost function Handle(entries: seq<EntryGroup>, groups: seq<AsyncGroup>, group: Group): nat {
    HandleOf(|entries|, groups, group)
  }

  /** Distinct groups of the plan have distinct handles. */
  lemma HandlesDistinct(input: Input, plan: Plan, entries: seq<EntryGroup>, groups: seq<AsyncGroup>, a: Group, b: Group)
    requires DescribesEntries(input, entries) && Describes(input, plan, groups)
    requires Planned(input, plan, a) && Planned(input, plan, b)
    ensures Handle(entries, groups, a) == Handle(entries, groups, b) ==> a == b
  {
    if a.AsyncChunk? { IndexOfHas(groups, a.target); }
    if b.AsyncChunk? { IndexOfHas(groups, b.target); }
  }

  /** A group installs exactly the modules that the plan gives it: its own, without those available before it. */
  lemma GroupInstallsOwn(input: Input, plan: Plan, g: Graph, entries: seq<EntryGroup>, groups: seq<AsyncGroup>,
                         group: Group, m: nat)
    requires Assembled(input, plan, g, entries, groups) && Planned(input, plan, group)
    ensures GroupHas(g, Handle(entries, groups, group), m) <==> m in Own(input, plan, group)
  {
    var h := Handle(entries, groups, group);
    var laid := LaidEntries(entries) + LaidPlans(groups);
    if group.AsyncChunk? {
      var k := IndexOf(groups, group.target);
      IndexOfHas(groups, group.target);
      assert DescribesOne(input, plan, groups[k]);
      assert laid[h] == LaidPlans(groups)[k];
    } else {
      assert laid[h] == LaidEntries(entries)[group.index];
    }
    assert laid[h].modules == Own(input, plan, group);
    assert InGroup(g, h, h);
    assert GroupHas(g, h, m) <==> HasModule(g, h, m);
  }

  /** The edges the runtime loads along are exactly the planned ones. */
  lemma RuntimeEdgeIffPlanned(input: Input, plan: Plan, g: Graph, entries: seq<EntryGroup>, groups: seq<AsyncGroup>,
                              parent: Group, target: nat)
    requires Solved(input, plan) && Assembled(input, plan, g, entries, groups)
    requires Planned(input, plan, parent) && target in plan.min
    ensures (Handle(entries, groups, parent), Handle(entries, groups, AsyncChunk(target))) in RuntimeEdges(g)
            <==> exists o: Origin :: Edge(parent, o, target) in plan.edges
  {
    var p, c := Handle(entries, groups, parent), Handle(entries, groups, AsyncChunk(target));
    IndexOfHas(groups, target);
    var k := IndexOf(groups, target);
    assert DescribesOne(input, plan, groups[k]);
    OneTargets(input, plan, groups);
    RuntimeEdgesAreParents(g, entries, groups, p, c, Origin(0, 0));
    if i: nat, j: nat :| IsPlannedEdge(|entries|, groups, i, j, p, c) {
      ParentPlanned(input, plan, entries, groups, k, j, parent);
    }
    if o: Origin :| Edge(parent, o, target) in plan.edges {
      assert Edged(groups[k], parent, o);
      var j: nat :| j < |groups[k].parents| && groups[k].parents[j].group == parent && o in groups[k].parents[j].origins;
      assert IsPlannedEdge(|entries|, groups, k, j, p, c);
    }
  }

  lemma ParentPlanned(input: Input, plan: Plan, entries: seq<EntryGroup>, groups: seq<AsyncGroup>, k: nat, j: nat, parent: Group)
    requires Closed(input, plan) && DescribesEntries(input, entries) && Describes(input, plan, groups)
    requires k < |groups| && j < |groups[k].parents| && Planned(input, plan, parent)
    requires Handle(entries, groups, parent) == Handle(entries, groups, groups[k].parents[j].group)
    ensures exists o: Origin :: Edge(parent, o, groups[k].target) in plan.edges
  {
    var found := groups[k].parents[j];
    assert DescribesOne(input, plan, groups[k]) && Edged(groups[k], found.group, found.origins[0]);
    assert Edge(found.group, found.origins[0], groups[k].target) in plan.edges;
    HandlesDistinct(input, plan, entries, groups, parent, found.group);
  }

  lemma OneTargets(input: Input, plan: Plan, groups: seq<AsyncGroup>)
    requires Solved(input, plan) && Describes(input, plan, groups)
    ensures OneTargetEach(groups)
  {
    forall i: nat, j: nat, o: Origin | i < |groups| && j < |groups| && Loads(groups[i], o, |groups[i].parents|) && Loads(groups[j], o, |groups[j].parents|)
      ensures i == j
    {
      LoadTarget(input, plan, groups, i, o);
      LoadTarget(input, plan, groups, j, o);
    }
  }

  /** A block that a plan records loads that plan's target. */
  lemma LoadTarget(input: Input, plan: Plan, groups: seq<AsyncGroup>, k: nat, o: Origin)
    requires Solved(input, plan) && Describes(input, plan, groups)
    requires k < |groups| && Loads(groups[k], o, |groups[k].parents|)
    ensures BlockTarget(input.graph, o) == Some(groups[k].target)
  {
    var j: nat :| j < |groups[k].parents| && o in groups[k].parents[j].origins;
    assert DescribesOne(input, plan, groups[k]);
    assert Edged(groups[k], groups[k].parents[j].group, o);
    var e := Edge(groups[k].parents[j].group, o, groups[k].target);
    assert e in plan.edges;
  }

  /** A block has a chunk group exactly if the plan loads from it, and then the group of what it loads. */
  lemma BlockGroupIffPlanned(input: Input, plan: Plan, g: Graph, entries: seq<EntryGroup>, groups: seq<AsyncGroup>, o: Origin)
    requires Solved(input, plan) && Assembled(input, plan, g, entries, groups)
    ensures o in g.blockGroups <==> exists p: Group, t: nat :: Edge(p, o, t) in plan.edges
    ensures forall p: Group, t: nat | Edge(p, o, t) in plan.edges ::
              o in g.blockGroups && g.blockGroups[o] == Handle(entries, groups, AsyncChunk(t))
  {
    OneTargets(input, plan, groups);
    RuntimeEdgesAreParents(g, entries, groups, 0, 0, o);
    forall p: Group, t: nat | Edge(p, o, t) in plan.edges
      ensures o in g.blockGroups && g.blockGroups[o] == Handle(entries, groups, AsyncChunk(t))
    {
      EdgeTargetPlanned(input, plan, Edge(p, o, t));
      IndexOfHas(groups, t);
      var k := IndexOf(groups, t);
      assert DescribesOne(input, plan, groups[k]) && Edged(groups[k], p, o);
      assert Loads(groups[k], o, |groups[k].parents|);
    }
    if o in g.blockGroups {
      var k: nat :| k < |groups| && Loads(groups[k], o, |groups[k].parents|);
      var j: nat :| j < |groups[k].parents| && o in groups[k].parents[j].origins;
      assert DescribesOne(input, plan, groups[k]) && Edged(groups[k], groups[k].parents[j].group, o);
      assert Edge(groups[k].parents[j].group, o, groups[k].target) in plan.edges;
    }
  }

  lemma EdgeTargetPlanned(input: Input, plan: Plan, e: Edge)
    requires Closed(input, plan) && e in plan.edges
    ensures e.target in plan.min
  {
  }
}
