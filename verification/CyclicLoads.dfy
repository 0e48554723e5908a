/**
 * A module graph whose chunk graph loses a group: an entry loads two modules, both load a third, and
 * the third loads both. Followed from the graph through its plan to the links.
 */
module CyclicLoads {
  import opened Options
  import opened Sequences
  import opened Reachability
  import opened ModuleGraphs
  import opened AsyncChunkPlanning
  import opened ChunkGraphs
  import opened ChunkMaterialization
  import opened ChunkGraphBuilding
  import opened ChunkGraphAssembly

  function Loads1(a: nat): Module {
    Module([[Import]], [Connection(Some(0), Import, true, a)])
  }

  function Loads2(a: nat, b: nat): Module {
    Module([[Import], [Import]], [Connection(Some(0), Import, true, a), Connection(Some(1), Import, true, b)])
  }

  /** The entry is module 0, the two modules it loads are 1 and 2, the shared one is 3. */
  const GRAPH: ModuleGraph := [Loads2(1, 2), Loads1(3), Loads1(3), Loads2(1, 2)]

  const INPUT := Input(GRAPH, [0])

  const EDGES: set<Edge> := {
    Edge(Entrypoint(0), Origin(0, 0), 1), Edge(Entrypoint(0), Origin(0, 1), 2),
    Edge(AsyncChunk(1), Origin(1, 0), 3), Edge(AsyncChunk(2), Origin(2, 0), 3),
    Edge(AsyncChunk(3), Origin(3, 0), 1), Edge(AsyncChunk(3), Origin(3, 1), 2)}

  const PLAN := Plan(map[1 := {0}, 2 := {0}, 3 := {0}], EDGES)

  // ---- what the graph is ----

  lemma GraphValid()
    ensures INPUT.Valid()
  {
  }

  lemma NoStaticEdges()
    ensures StaticEdges(GRAPH) == {}
  {
    forall m: nat, c | m < 4 && c in GRAPH[m].outgoing ensures !c.IsStatic() {
      assert c.originBlock.Some?;
    }
  }

  lemma OnlyItself(m: nat)
    ensures StaticModules(GRAPH, m) == if m < 4 then {m} else {}
  {
    NoStaticEdges();
    ReachesSelf(StaticEdges(GRAPH), m);
    forall x: nat | x in StaticModules(GRAPH, m) ensures x == m {
      ClosedContainsReachable(StaticEdges(GRAPH), {m}, m, x);
    }
  }

  function Target(o: Origin): Option<nat> {
    if o == Origin(0, 0) || o == Origin(3, 0) then Some(1)
    else if o == Origin(0, 1) || o == Origin(3, 1) then Some(2)
    else if o == Origin(1, 0) || o == Origin(2, 0) then Some(3)
    else None
  }

  lemma TargetOfBlock(o: Origin)
    ensures BlockTarget(GRAPH, o) == Target(o)
  {
    if o.from < 4 && o.block < |GRAPH[o.from].blocks| {
      assert GRAPH[o.from].blocks[o.block] == [Import] && Import in [Import];
      var outgoing := GRAPH[o.from].outgoing;
      assert outgoing[1..] == [] || outgoing[1..] == [outgoing[1]];
      if o.block == 1 { assert FirstImport(outgoing[1..], 1) == Some(outgoing[1].target); }
    }
  }

  // ---- its plan ----

  lemma PlanClosed()
    ensures Closed(INPUT, PLAN)
  {
    forall g: Group, o: Origin, t: nat | Planned(INPUT, PLAN, g) && Demands(INPUT, PLAN, g, o, t)
      ensures Edge(g, o, t) in PLAN.edges
    {
      TargetOfBlock(o);
      OnlyItself(if g.Entrypoint? then 0 else g.target);
    }
    forall e | e in PLAN.edges ensures Planned(INPUT, PLAN, e.parent) && PLAN.min[e.target] <= Resulting(INPUT, PLAN, e.parent) {
      OnlyItself(if e.parent.Entrypoint? then 0 else e.parent.target);
    }
  }

  /** A block of a group's own module whose target is not available is an edge of any closed plan. */
  lemma Forced(other: Plan, g: Group, o: Origin, t: nat)
    requires Closed(INPUT, other) && Planned(INPUT, other, g) && Target(o) == Some(t)
    requires o.from in Own(INPUT, other, g) && t !in Resulting(INPUT, other, g)
    ensures Edge(g, o, t) in other.edges && t in other.min && other.min[t] <= Resulting(INPUT, other, g)
  {
    TargetOfBlock(o);
    assert Demands(INPUT, other, g, o, t);
    var e := Edge(g, o, t);
    assert e in other.edges;
    assert e.target in other.min && other.min[e.target] <= Resulting(INPUT, other, e.parent);
  }

  lemma PlanLeast(other: Plan)
    requires Closed(INPUT, other)
    ensures Below(PLAN, other)
  {
    OnlyItself(0);
    OnlyItself(1);
    OnlyItself(2);
    OnlyItself(3);
    Forced(other, Entrypoint(0), Origin(0, 0), 1);
    Forced(other, Entrypoint(0), Origin(0, 1), 2);
    Forced(other, AsyncChunk(1), Origin(1, 0), 3);
    Forced(other, AsyncChunk(2), Origin(2, 0), 3);
    assert other.min[3] <= {0};
    Forced(other, AsyncChunk(3), Origin(3, 0), 1);
    Forced(other, AsyncChunk(3), Origin(3, 1), 2);
  }

  /** The graph has this plan and no other. */
  lemma PlanIs(plan: Plan)
    requires Solved(INPUT, plan)
    ensures plan == PLAN
  {
    PlanClosed();
    forall other: Plan | Closed(INPUT, other) ensures Below(PLAN, other) { PlanLeast(other); }
    LeastClosedUnique(INPUT, plan, PLAN);
  }

  // ---- the plans, in the order of identities ----

  /** Identities in the order of handles. */
  function InOrder(m: nat): nat { m }

  lemma TargetsBetween(groups: seq<AsyncGroup>)
    requires Describes(INPUT, PLAN, groups)
    ensures forall k: nat | k < |groups| :: 1 <= groups[k].target <= 3
    ensures HasTarget(groups, 1) && HasTarget(groups, 2) && HasTarget(groups, 3)
  {
    forall k: nat | k < |groups| ensures 1 <= groups[k].target <= 3 {
      assert DescribesOne(INPUT, PLAN, groups[k]);
    }
  }

  lemma TargetsAre(groups: seq<AsyncGroup>)
    requires Describes(INPUT, PLAN, groups) && TargetsInOrder(InOrder, groups)
    ensures |groups| == 3 && groups[0].target == 1 && groups[1].target == 2 && groups[2].target == 3
  {
    TargetsBetween(groups);
    IndexOfHas(groups, 1);
    IndexOfHas(groups, 2);
    IndexOfHas(groups, 3);
    Ascends(groups, IndexOf(groups, 1), IndexOf(groups, 2), IndexOf(groups, 3));
  }

  /** Ascending targets are at least their places. */
  lemma {:induction false} PlaceBelow(groups: seq<AsyncGroup>, k: nat)
    requires TargetsInOrder(InOrder, groups) && k < |groups| && groups[0].target >= 1
    ensures k < groups[k].target
  {
    if k > 0 { PlaceBelow(groups, k - 1); }
  }

  lemma Earlier(groups: seq<AsyncGroup>, i: nat, j: nat)
    requires TargetsInOrder(InOrder, groups) && i < |groups| && j < |groups| && groups[i].target < groups[j].target
    ensures i < j
  {
  }

  /** Targets between 1 and 3 in ascending order, all three present. */
  lemma Ascends(groups: seq<AsyncGroup>, a: nat, b: nat, c: nat)
    requires TargetsInOrder(InOrder, groups) && forall k: nat | k < |groups| :: 1 <= groups[k].target <= 3
    requires a < |groups| && b < |groups| && c < |groups|
    requires groups[a].target == 1 && groups[b].target == 2 && groups[c].target == 3
    ensures |groups| == 3 && a == 0 && b == 1 && c == 2
  {
    Earlier(groups, a, b);
    Earlier(groups, b, c);
    PlaceBelow(groups, a);
    PlaceBelow(groups, b);
    PlaceBelow(groups, c);
    PlaceBelow(groups, |groups| - 1);
  }

  /** The groups that a list of parents names, in order. */
  function Named(parents: seq<Parent>): seq<Group> {
    seq(|parents|, j requires 0 <= j < |parents| => parents[j].group)
  }

  predicate IsPair<T(==)>(s: seq<T>, first: T, second: T) {
    |s| == 2 && s[0] == first && s[1] == second
  }

  /** Two parents in order, and no others. */
  lemma ParentsAre(group: AsyncGroup, first: Group, o: Origin, second: Group, q: Origin)
    requires DescribesOne(INPUT, PLAN, group) && ParentsInOrder(InOrder, group.parents)
    requires GroupBefore(InOrder, first, second)
    requires Edge(first, o, group.target) in EDGES && Edge(second, q, group.target) in EDGES
    requires forall e | e in EDGES && e.target == group.target :: e.parent == first || e.parent == second
    ensures IsPair(Named(group.parents), first, second)
  {
    var parents := group.parents;
    forall j: nat | j < |parents| ensures parents[j].group == first || parents[j].group == second {
      assert Edged(group, parents[j].group, parents[j].origins[0]);
      assert Edge(parents[j].group, parents[j].origins[0], group.target) in EDGES;
    }
    assert Edged(group, first, o) && Edged(group, second, q);
    var a: nat :| a < |parents| && parents[a].group == first && o in parents[a].origins;
    var b: nat :| b < |parents| && parents[b].group == second && q in parents[b].origins;
    TwoInOrder(parents, first, second, a, b);
  }

  lemma ParentsOf(groups: seq<AsyncGroup>)
    requires Describes(INPUT, PLAN, groups) && InIdentityOrder(InOrder, groups)
    requires |groups| == 3 && groups[0].target == 1 && groups[1].target == 2 && groups[2].target == 3
    ensures IsPair(Named(groups[0].parents), Entrypoint(0), AsyncChunk(3))
    ensures IsPair(Named(groups[1].parents), Entrypoint(0), AsyncChunk(3))
    ensures IsPair(Named(groups[2].parents), AsyncChunk(1), AsyncChunk(2))
  {
    assert OrderedOne(InOrder, groups[0]) && OrderedOne(InOrder, groups[1]) && OrderedOne(InOrder, groups[2]);
    assert DescribesOne(INPUT, PLAN, groups[0]) && DescribesOne(INPUT, PLAN, groups[1]) && DescribesOne(INPUT, PLAN, groups[2]);
    ParentsAre(groups[0], Entrypoint(0), Origin(0, 0), AsyncChunk(3), Origin(3, 0));
    ParentsAre(groups[1], Entrypoint(0), Origin(0, 1), AsyncChunk(3), Origin(3, 1));
    ParentsAre(groups[2], AsyncChunk(1), Origin(1, 0), AsyncChunk(2), Origin(2, 0));
  }

  lemma TwoInOrder(parents: seq<Parent>, first: Group, second: Group, a: nat, b: nat)
    requires ParentsInOrder(InOrder, parents) && GroupBefore(InOrder, first, second)
    requires forall j: nat | j < |parents| :: parents[j].group == first || parents[j].group == second
    requires a < |parents| && b < |parents| && parents[a].group == first && parents[b].group == second
    ensures IsPair(Named(parents), first, second)
  {
    assert a < b;
    InPlace(parents, first, second, 0, 1);
    if |parents| > 2 { InPlace(parents, first, second, 1, 2); }
  }

  lemma InPlace(parents: seq<Parent>, first: Group, second: Group, i: nat, j: nat)
    requires ParentsInOrder(InOrder, parents) && GroupBefore(InOrder, first, second) && i < j < |parents|
    requires forall k: nat | k < |parents| :: parents[k].group == first || parents[k].group == second
    ensures parents[i].group == first && parents[j].group == second
  {
    assert GroupBefore(InOrder, parents[i].group, parents[j].group);
  }

  lemma EdgesAre(groups: seq<AsyncGroup>)
    requires Describes(INPUT, PLAN, groups) && InIdentityOrder(InOrder, groups)
    ensures |groups| == 3 && GoAround(EdgesBefore(1, groups, 3))
  {
    TargetsAre(groups);
    ParentsOf(groups);
    IndexOfTarget(groups, 1, 0);
    IndexOfTarget(groups, 2, 1);
    IndexOfTarget(groups, 3, 2);
    EdgesListed(groups);
  }

  lemma EdgesListed(groups: seq<AsyncGroup>)
    requires |groups| == 3 && IndexOf(groups, 1) == 0 && IndexOf(groups, 2) == 1 && IndexOf(groups, 3) == 2
    requires IsPair(Named(groups[0].parents), Entrypoint(0), AsyncChunk(3))
    requires IsPair(Named(groups[1].parents), Entrypoint(0), AsyncChunk(3))
    requires IsPair(Named(groups[2].parents), AsyncChunk(1), AsyncChunk(2))
    ensures GoAround(EdgesBefore(1, groups, 3))
  {
    TwoEdges(groups, 0, Entrypoint(0), AsyncChunk(3));
    TwoEdges(groups, 1, Entrypoint(0), AsyncChunk(3));
    TwoEdges(groups, 2, AsyncChunk(1), AsyncChunk(2));
    EdgesJoin(groups);
    PairsGoAround(EdgesTo(1, groups, 0), EdgesTo(1, groups, 1), EdgesTo(1, groups, 2));
  }

  lemma EdgesJoin(groups: seq<AsyncGroup>)
    requires |groups| == 3
    ensures EdgesBefore(1, groups, 3) == EdgesTo(1, groups, 0) + EdgesTo(1, groups, 1) + EdgesTo(1, groups, 2)
  {
    assert EdgesBefore(1, groups, 1) == EdgesTo(1, groups, 0);
    assert EdgesBefore(1, groups, 2) == EdgesTo(1, groups, 0) + EdgesTo(1, groups, 1);
  }

  lemma PairsGoAround(a: seq<(nat, nat)>, b: seq<(nat, nat)>, c: seq<(nat, nat)>)
    requires IsPair(a, (0, 1), (3, 1)) && IsPair(b, (0, 2), (3, 2)) && IsPair(c, (1, 3), (2, 3))
    ensures GoAround(a + b + c)
  {
  }

  lemma TwoEdges(groups: seq<AsyncGroup>, k: nat, first: Group, second: Group)
    requires k < |groups| && IsPair(Named(groups[k].parents), first, second)
    ensures IsPair(EdgesTo(1, groups, k), (HandleOf(1, groups, first), 1 + k), (HandleOf(1, groups, second), 1 + k))
  {
    var parents := groups[k].parents;
    assert Named(parents)[0] == parents[0].group && Named(parents)[1] == parents[1].group;
  }

  // ---- its chunk graph ----

  /** The entrypoint loads the shared group, but over children it does not reach it. */
  ghost predicate LosesSharedGroup(g: Graph) {
    && Reaches(RuntimeEdges(g), 0, 3) && !Reaches(ChildEdges(g), 0, 3)
    && GroupHas(g, 3, 3)
  }

  lemma AssembledLoses(plan: Plan, g: Graph, entries: seq<EntryGroup>, groups: seq<AsyncGroup>)
    requires Solved(INPUT, plan) && Assembled(INPUT, plan, g, entries, groups) && InIdentityOrder(InOrder, groups)
    ensures LosesSharedGroup(g)
  {
    PlanIs(plan);
    EdgesAre(groups);
    ChildrenCanLoseAGroup(EdgesBefore(1, groups, 3));
    TargetsAre(groups);
    IndexOfTarget(groups, 3, 2);
    OnlyItself(3);
    GroupInstallsOwn(INPUT, plan, g, entries, groups, AsyncChunk(3), 3);
  }

  /** Built from the module graph, the chunk graph has the group and has lost every way to it over children. */
  method BuildLosingGraph() returns (graph: ChunkGraph)
    ensures graph.Valid() && LosesSharedGroup(graph.State())
  {
    GraphValid();
    ghost var plan: Plan;
    ghost var entries: seq<EntryGroup>;
    ghost var groups: seq<AsyncGroup>;
    graph, plan, entries, groups := BuildChunkGraph(InOrder, INPUT, ["main"]);
    AssembledLoses(plan, graph.State(), entries, groups);
  }
}
