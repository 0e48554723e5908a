/** Which module's loader waits for which module's build, and the cycle check before a wait is recorded. */
module LoaderWaiting {
  import opened Reachability

  /** The recorded waits as edges; each module waits for at most one. */
  ghost function Edges(waits: map<nat, nat>): set<(nat, nat)> {
    set m | m in waits :: (m, waits[m])
  }

  /** The waits that stay when a module's wait is recorded anew. */
  ghost function Others(waits: map<nat, nat>, origin: nat): set<(nat, nat)> {
    set m | m in waits && m != origin :: (m, waits[m])
  }

  /** Following the waits from the target arrives at the origin. */
  ghost predicate Closes(waits: map<nat, nat>, origin: nat, target: nat) {
    Reaches(Others(waits, origin), target, origin)
  }

  lemma FewerEdgesAcyclic(fewer: set<(nat, nat)>, more: set<(nat, nat)>)
    requires fewer <= more && Acyclic(more)
    ensures Acyclic(fewer)
  {
    forall edge | edge in fewer ensures !Reaches(fewer, edge.1, edge.0) {
      if Reaches(fewer, edge.1, edge.0) { ReachesMonotone(fewer, more, edge.1, edge.0); }
    }
  }

  /** Recording a wait keeps the waits acyclic exactly when the check passes. */
  lemma RecordKeepsAcyclicIff(waits: map<nat, nat>, origin: nat, target: nat)
    requires Acyclic(Edges(waits))
    ensures Acyclic(Edges(waits[origin := target])) <==> !Closes(waits, origin, target)
  {
    var others := Others(waits, origin);
    FewerEdgesAcyclic(others, Edges(waits));
    AcyclicExtension(others, origin, target);
    var recorded := waits[origin := target];
    forall edge: (nat, nat) ensures edge in Edges(recorded) <==> edge in others + {(origin, target)} {
      assert edge.0 in recorded <==> edge.0 == origin || edge.0 in waits;
    }
    assert Edges(recorded) == others + {(origin, target)};
  }

  method LoaderWaitCreatesCycle(waits: map<nat, nat>, origin: nat, target: nat) returns (cycle: bool)
    ensures cycle <==> Closes(waits, origin, target)
  {
    var current := target;
    var visited: set<nat> := {};
    ghost var others := Others(waits, origin);
    ReachesSelf(others, target);
    while current !in visited
      invariant Reaches(others, target, current) && origin !in visited
      invariant visited <= waits.Keys && (target in visited || current == target)
      invariant forall m | m in visited :: waits[m] in visited || waits[m] == current
      decreases |waits.Keys - visited|
    {
      if current == origin { return true; }
      if current !in waits {
        NotReached(others, visited + {current}, target, origin);
        return false;
      }
      ReachesStep(others, target, current, waits[current]);
      assert waits.Keys - (visited + {current}) < waits.Keys - visited by {
        assert current in waits.Keys - visited;
      }
      ghost var before := waits.Keys - visited;
      visited := visited + {current};
      assert before == (waits.Keys - visited) + {current};
      current := waits[current];
    }
    NotReached(others, visited, target, origin);
    return false;
  }

  lemma NotReached(edges: set<(nat, nat)>, closed: set<nat>, start: nat, end: nat)
    requires start in closed && end !in closed
    requires forall edge | edge in edges && edge.0 in closed :: edge.1 in closed
    ensures !Reaches(edges, start, end)
  {
    if Reaches(edges, start, end) { ClosedContainsReachable(edges, closed, start, end); }
  }

  class LoaderWaits {
    var waits: map<nat, nat>

    ghost predicate Valid() reads this { Acyclic(Edges(waits)) }

    constructor ()
      ensures Valid() && waits == map[]
    {
      waits := map[];
    }

    /** A wait that would close a circle is refused, and nothing is recorded. */
    method Record(origin: nat, target: nat) returns (recorded: bool)
      requires Valid()
      modifies this
      ensures Valid() && recorded == !old(Closes(waits, origin, target))
      ensures waits == if recorded then old(waits)[origin := target] else old(waits)
    {
      var cycle := LoaderWaitCreatesCycle(waits, origin, target);
      RecordKeepsAcyclicIff(waits, origin, target);
      if !cycle { waits := waits[origin := target]; }
      return !cycle;
    }

    method Finish(origin: nat)
      requires Valid()
      modifies this
      ensures Valid() && waits == old(waits) - {origin}
    {
      FewerEdgesAcyclic(Edges(waits - {origin}), Edges(waits));
      waits := waits - {origin};
    }
  }
}
