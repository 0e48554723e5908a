/** From plans to chunk groups: every planned edge is a runtime edge, and those that close no circle
    are also children. */
module ChunkMaterialization {
  import opened Options
  import opened Sequences
  import opened Reachability
  import opened ModuleGraphs
  import opened AsyncChunkPlanning
  import opened ChunkGraphs

  // ---- edges kept as children ----

  /** The edges, in the order they are met, that do not close a circle with those kept before. */
  ghost function Kept(edges: seq<(nat, nat)>): set<(nat, nat)> {
    if edges == [] then {}
    else
      var before := Kept(edges[..|edges| - 1]);
      var edge := edges[|edges| - 1];
      if Reaches(before, edge.1, edge.0) then before else before + {edge}
  }

  lemma {:induction false} KeptAcyclic(edges: seq<(nat, nat)>)
    ensures Acyclic(Kept(edges)) && Kept(edges) <= Members(edges)
    decreases |edges|
  {
    if edges != [] {
      var before := edges[..|edges| - 1];
      var edge := edges[|edges| - 1];
      KeptAcyclic(before);
      AcyclicExtension(Kept(before), edge.0, edge.1);
      assert forall e | e in before :: e in edges;
    }
  }

  lemma {:induction false} KeptGrows(edges: seq<(nat, nat)>, n: nat)
    requires n <= |edges|
    ensures Kept(edges[..n]) <= Kept(edges)
    decreases |edges| - n
  {
    if n < |edges| {
      KeptGrows(edges, n + 1);
      assert edges[..n + 1][..n] == edges[..n];
    } else {
      assert edges[..n] == edges;
    }
  }

  /** No more edges could be kept: each one left out closes a circle with those kept. */
  lemma KeptIsMaximal(edges: seq<(nat, nat)>, edge: (nat, nat))
    requires edge in edges
    ensures edge in Kept(edges) <==> !Reaches(Kept(edges), edge.1, edge.0)
  {
    KeptAcyclic(edges);
    var n: nat :| n < |edges| && edges[n] == edge;
    KeptGrows(edges, n);
    KeptGrows(edges, n + 1);
    assert edges[..n + 1][..n] == edges[..n] && edges[..n + 1][n] == edge;
    if edge !in Kept(edges) {
      ReachesMonotone(Kept(edges[..n]), Kept(edges), edge.1, edge.0);
    }
  }

  /** Children keep every planned edge exactly if the planned edges are acyclic. */
  lemma AllKeptIffAcyclic(edges: seq<(nat, nat)>)
    ensures Kept(edges) == Members(edges) <==> Acyclic(Members(edges))
  {
    KeptAcyclic(edges);
    if Acyclic(Members(edges)) {
      forall edge | edge in Members(edges) ensures edge in Kept(edges) {
        KeptIsMaximal(edges, edge);
        if Reaches(Kept(edges), edge.1, edge.0) {
          ReachesMonotone(Kept(edges), Members(edges), edge.1, edge.0);
        }
      }
    }
  }

  // ---- which groups stay reachable over children ----

  /** Every edge leads to a target, from a root or a target. */
  ghost predicate Rooted(edges: set<(nat, nat)>, roots: set<nat>, targets: set<nat>) {
    roots !! targets && forall edge | edge in edges :: edge.0 in roots + targets && edge.1 in targets
  }

  ghost predicate ReachedFromRoot(edges: set<(nat, nat)>, roots: set<nat>, t: nat) {
    exists r: nat :: r in roots && Reaches(edges, r, t)
  }

  ghost predicate HasParentIn(edges: set<(nat, nat)>, t: nat) {
    exists p: nat :: (p, t) in edges
  }

  ghost function Ancestors(edges: set<(nat, nat)>, nodes: set<nat>, t: nat): set<nat> {
    set x | x in nodes && Reaches(edges, x, t)
  }

  /** In an acyclic relation a parent has fewer ancestors. */
  lemma FewerAncestors(edges: set<(nat, nat)>, nodes: set<nat>, p: nat, t: nat)
    requires Acyclic(edges) && (p, t) in edges && t in nodes
    ensures |Ancestors(edges, nodes, p)| < |Ancestors(edges, nodes, t)|
  {
    var above, here := Ancestors(edges, nodes, p), Ancestors(edges, nodes, t);
    forall x | x in above ensures x in here { ReachesStep(edges, x, p, t); }
    ReachesSelf(edges, t);
    assert t in here - above;
    assert here == above + (here - above);
  }

  lemma {:induction false} ParentsLeadToRoot(edges: set<(nat, nat)>, roots: set<nat>, targets: set<nat>, t: nat)
    requires Acyclic(edges) && Rooted(edges, roots, targets) && t in targets
    requires forall u: nat | u in targets :: HasParentIn(edges, u)
    ensures ReachedFromRoot(edges, roots, t)
    decreases |Ancestors(edges, roots + targets, t)|
  {
    var p: nat :| (p, t) in edges;
    if p in roots {
      ReachesSelf(edges, p);
      ReachesStep(edges, p, p, t);
    } else {
      FewerAncestors(edges, roots + targets, p, t);
      ParentsLeadToRoot(edges, roots, targets, p);
      var r: nat :| r in roots && Reaches(edges, r, p);
      ReachesStep(edges, r, p, t);
    }
  }

  lemma ReachedHasParent(edges: set<(nat, nat)>, roots: set<nat>, targets: set<nat>, t: nat)
    requires Rooted(edges, roots, targets) && t in targets && ReachedFromRoot(edges, roots, t)
    ensures HasParentIn(edges, t)
  {
    var r: nat :| r in roots && Reaches(edges, r, t);
    var path: seq<nat> :| PathBetween(edges, path, r, t);
    assert |path| > 1;
    assert (path[|path| - 2], path[|path| - 2 + 1]) in edges;
  }

  /** A planned parent that the target does not reach over the children. */
  ghost predicate HasFreeParent(edges: seq<(nat, nat)>, t: nat) {
    exists p: nat :: (p, t) in edges && !Reaches(Kept(edges), t, p)
  }

  /**
   * Every target is reachable from a root over children exactly if every target has a planned
   * parent that it does not reach over the children.
   */
  lemma AllReachedIffFreeParents(edges: seq<(nat, nat)>, roots: set<nat>, targets: set<nat>)
    requires Rooted(Members(edges), roots, targets)
    ensures (forall t: nat | t in targets :: ReachedFromRoot(Kept(edges), roots, t))
            <==> (forall t: nat | t in targets :: HasFreeParent(edges, t))
  {
    var kept := Kept(edges);
    KeptAcyclic(edges);
    forall t: nat ensures HasFreeParent(edges, t) <==> HasParentIn(kept, t) {
      if p: nat :| (p, t) in kept { KeptIsMaximal(edges, (p, t)); }
      if p: nat :| (p, t) in edges && !Reaches(kept, t, p) { KeptIsMaximal(edges, (p, t)); }
    }
    if forall t: nat | t in targets :: HasParentIn(kept, t) {
      forall t: nat | t in targets ensures ReachedFromRoot(kept, roots, t) { ParentsLeadToRoot(kept, roots, targets, t); }
    }
    forall t: nat | t in targets && ReachedFromRoot(kept, roots, t) ensures HasParentIn(kept, t) {
      ReachedHasParent(kept, roots, targets, t);
    }
  }

  /** The entry 0 loads 1 and 2, which load 3, which loads them. */
  predicate GoAround(edges: seq<(nat, nat)>) {
    && |edges| == 6
    && edges[0] == (0, 1) && edges[1] == (3, 1)
    && edges[2] == (0, 2) && edges[3] == (3, 2)
    && edges[4] == (1, 3) && edges[5] == (2, 3)
  }

  /**
   * Children alone do not keep every group reachable: an entry loads two chunks, both load a third,
   * and the third loads both. All the third chunk's parents may be left out.
   */
  lemma ChildrenCanLoseAGroup(edges: seq<(nat, nat)>)
    requires GoAround(edges)
    ensures Reaches(Members(edges), 0, 3) && !Reaches(Kept(edges), 0, 3)
  {
    assert edges[0] in edges && edges[4] in edges;
    assert PathBetween(Members(edges), [0, 1, 3], 0, 3);
    KeptAcyclic(edges);
    KeptGrows(edges, 2);
    KeptGrows(edges, 4);
    LoopEdgeKept(edges, 1);
    LoopEdgeKept(edges, 3);
    var kept := Kept(edges);
    assert (3, 1) in kept && (3, 2) in kept;
    assert (1, 3) !in kept by { ReachesSelf(kept, 1); if (1, 3) in kept { ReachesAfterEdge(kept, 3, 1, 1); } }
    assert (2, 3) !in kept by { ReachesSelf(kept, 2); if (2, 3) in kept { ReachesAfterEdge(kept, 3, 2, 2); } }
    if Reaches(kept, 0, 3) {
      var closed: set<nat> := {0, 1, 2};
      forall edge | edge in kept && edge.0 in closed ensures edge.1 in closed {
        assert edge in edges;
      }
      ClosedContainsReachable(kept, closed, 0, 3);
    }
  }

  /** The second and fourth edge of the example are met before anything leads back to the shared chunk. */
  lemma LoopEdgeKept(edges: seq<(nat, nat)>, n: nat)
    requires n < |edges| && edges[n].0 == 3 && edges[n].1 != 3
    requires forall k: nat | k < n :: edges[k].1 != 3
    ensures edges[n] in Kept(edges[..n + 1])
  {
    var before := Kept(edges[..n]);
    assert edges[..n + 1][..n] == edges[..n];
    KeptAcyclic(edges[..n]);
    forall edge | edge in before ensures edge.1 != 3 {
      var k: nat :| k < n && edges[..n][k] == edge;
    }
    if Reaches(before, edges[n].1, 3) {
      BackwardClosedContains(before, {3}, edges[n].1, 3);
    }
  }

  // ---- reachability over the materialised children ----

  /** What is seen or waiting is reached, the target is not seen, and nothing seen leads elsewhere. */
  ghost predicate Searching(g: Graph, start: nat, target: nat, seen: set<nat>, pending: seq<nat>) {
    && seen <= Handles(|g.groups|) && target !in seen
    && (forall h: nat | h in pending :: h < |g.groups| && Reaches(ChildEdges(g), start, h))
    && (start in seen || start in pending)
    && (forall edge: (nat, nat) | edge in ChildEdges(g) && edge.0 in seen :: edge.1 in seen || edge.1 in pending)
  }

  lemma SearchStarts(g: Graph, start: nat, target: nat)
    requires start < |g.groups|
    ensures Searching(g, start, target, {}, [start])
  {
    ReachesSelf(ChildEdges(g), start);
  }

  /** A group that was seen before can be dropped. */
  lemma SearchDrops(g: Graph, start: nat, target: nat, seen: set<nat>, pending: seq<nat>)
    requires Searching(g, start, target, seen, pending) && pending != [] && pending[0] in seen
    ensures Searching(g, start, target, seen, pending[1..])
  {
    assert pending == [pending[0]] + pending[1..];
  }

  /** A group that is new is seen from now on, and its children wait. */
  lemma SearchVisits(g: Graph, start: nat, target: nat, seen: set<nat>, pending: seq<nat>)
    requires TreeMirrors(g) && Searching(g, start, target, seen, pending)
    requires pending != [] && pending[0] != target && pending[0] < |g.groups|
    ensures Searching(g, start, target, seen + {pending[0]}, pending[1..] + g.groups[pending[0]].children)
  {
    var group := pending[0];
    var rest := pending[1..] + g.groups[group].children;
    assert pending == [group] + pending[1..];
    forall h: nat | h in rest ensures h < |g.groups| && Reaches(ChildEdges(g), start, h) {
      if h in g.groups[group].children {
        assert IsChild(g, group, h);
        assert group in pending;
        ReachesStep(ChildEdges(g), start, group, h);
      } else {
        assert h in pending;
      }
    }
    forall edge: (nat, nat) | edge in ChildEdges(g) && edge.0 in seen + {group}
      ensures edge.1 in seen + {group} || edge.1 in rest
    {
    }
  }

  lemma SearchFails(g: Graph, start: nat, target: nat, seen: set<nat>)
    requires Searching(g, start, target, seen, [])
    ensures !Reaches(ChildEdges(g), start, target)
  {
    if Reaches(ChildEdges(g), start, target) { ClosedContainsReachable(ChildEdges(g), seen, start, target); }
  }

  ghost predicate Marks(visited: array<bool>, count: nat, seen: set<nat>)
    reads visited
  {
    visited.Length == count && forall h: nat | h < count :: visited[h] <==> h in seen
  }

  lemma NextInRange(g: Graph, start: nat, target: nat, seen: set<nat>, pending: seq<nat>)
    requires Searching(g, start, target, seen, pending) && pending != []
    ensures pending[0] < |g.groups| && Reaches(ChildEdges(g), start, pending[0])
  {
    assert pending[0] in pending;
  }

  /** Breadth-first over children. */
  method ChunkGroupReaches(graph: ChunkGraph, start: nat, target: nat) returns (reaches: bool)
    requires TreeMirrors(graph.State()) && start < |graph.chunkGroups|
    ensures reaches <==> Reaches(ChildEdges(graph.State()), start, target)
  {
    ghost var g := graph.State();
    var visited := new bool[|graph.chunkGroups|](_ => false);
    ghost var seen: set<nat> := {};
    var pending := [start];
    SearchStarts(g, start, target);
    while pending != []
      invariant fresh(visited) && Marks(visited, |g.groups|, seen)
      invariant Searching(g, start, target, seen, pending)
      decreases Unseen(|g.groups|, seen), |pending|
    {
      var group := pending[0];
      NextInRange(g, start, target, seen, pending);
      if group == target { return true; }
      if visited[group] {
        SearchDrops(g, start, target, seen, pending);
        pending := pending[1..];
      } else {
        SearchVisits(g, start, target, seen, pending);
        OneLessUnseen(|g.groups|, seen, group);
        visited[group] := true;
        seen := seen + {group};
        pending := pending[1..] + graph.chunkGroups[group].children;
      }
    }
    SearchFails(g, start, target, seen);
    return false;
  }
}
