/** Paths over a finite edge relation. */
module Reachability {

  ghost predicate IsPath<T>(edges: set<(T, T)>, path: seq<T>) {
    && |path| > 0
    && forall i | 0 <= i < |path| - 1 :: (path[i], path[i + 1]) in edges
  }

  ghost predicate PathBetween<T>(edges: set<(T, T)>, path: seq<T>, start: T, end: T) {
    IsPath(edges, path) && path[0] == start && path[|path| - 1] == end
  }

  ghost predicate Reaches<T(!new)>(edges: set<(T, T)>, start: T, end: T) {
    exists path: seq<T> :: PathBetween(edges, path, start, end)
  }

  /** No nonempty walk returns to its start. */
  ghost predicate Acyclic<T(!new)>(edges: set<(T, T)>) {
    forall edge | edge in edges :: !Reaches(edges, edge.1, edge.0)
  }

  lemma ReachesSelf<T(!new)>(edges: set<(T, T)>, start: T)
    ensures Reaches(edges, start, start)
  {
    assert PathBetween(edges, [start], start, start);
  }

  lemma ReachesStep<T(!new)>(edges: set<(T, T)>, start: T, middle: T, end: T)
    requires Reaches(edges, start, middle) && (middle, end) in edges
    ensures Reaches(edges, start, end)
  {
    var path :| PathBetween(edges, path, start, middle);
    assert PathBetween(edges, path + [end], start, end);
  }

  lemma ReachesTransitive<T(!new)>(edges: set<(T, T)>, start: T, middle: T, end: T)
    requires Reaches(edges, start, middle) && Reaches(edges, middle, end)
    ensures Reaches(edges, start, end)
  {
    var first :| PathBetween(edges, first, start, middle);
    var second :| PathBetween(edges, second, middle, end);
    var path := first + second[1..];
    forall i | 0 <= i < |path| - 1
      ensures (path[i], path[i + 1]) in edges
    {
      if i >= |first| - 1 {
        var k := i - (|first| - 1);
        assert path[i] == second[k] && path[i + 1] == second[k + 1];
      }
    }
    assert PathBetween(edges, path, start, end);
  }

  /** A set closed under the edges keeps every path that starts inside it. */
  lemma {:induction false} ClosedKeepsPath<T>(edges: set<(T, T)>, closed: set<T>, path: seq<T>)
    requires IsPath(edges, path) && path[0] in closed
    requires forall edge | edge in edges && edge.0 in closed :: edge.1 in closed
    ensures path[|path| - 1] in closed
    decreases |path|
  {
    if |path| > 1 {
      assert (path[0], path[1]) in edges;
      var rest := path[1..];
      forall i | 0 <= i < |rest| - 1
        ensures (rest[i], rest[i + 1]) in edges
      {
        assert (path[i + 1], path[i + 2]) in edges;
      }
      ClosedKeepsPath(edges, closed, rest);
    }
  }

  lemma ClosedContainsReachable<T(!new)>(edges: set<(T, T)>, closed: set<T>, start: T, end: T)
    requires Reaches(edges, start, end) && start in closed
    requires forall edge | edge in edges && edge.0 in closed :: edge.1 in closed
    ensures end in closed
  {
    var path :| PathBetween(edges, path, start, end);
    ClosedKeepsPath(edges, closed, path);
  }

  /** A set closed backwards under the edges holds everything that reaches into it. */
  lemma {:induction false} BackwardClosedPath<T>(edges: set<(T, T)>, closed: set<T>, path: seq<T>)
    requires IsPath(edges, path) && path[|path| - 1] in closed
    requires forall edge | edge in edges && edge.1 in closed :: edge.0 in closed
    ensures path[0] in closed
    decreases |path|
  {
    if |path| > 1 {
      var shorter := path[..|path| - 1];
      assert (path[|path| - 2], path[|path| - 1]) in edges;
      BackwardClosedPath(edges, closed, shorter);
    }
  }

  lemma BackwardClosedContains<T(!new)>(edges: set<(T, T)>, closed: set<T>, start: T, end: T)
    requires Reaches(edges, start, end) && end in closed
    requires forall edge | edge in edges && edge.1 in closed :: edge.0 in closed
    ensures start in closed
  {
    var path :| PathBetween(edges, path, start, end);
    BackwardClosedPath(edges, closed, path);
  }

  lemma ReachesAfterEdge<T(!new)>(edges: set<(T, T)>, start: T, next: T, end: T)
    requires (start, next) in edges && Reaches(edges, next, end)
    ensures Reaches(edges, start, end)
  {
    assert PathBetween(edges, [start, next], start, next);
    ReachesTransitive(edges, start, next, end);
  }

  lemma ReachesMonotone<T(!new)>(fewer: set<(T, T)>, more: set<(T, T)>, start: T, end: T)
    requires fewer <= more && Reaches(fewer, start, end)
    ensures Reaches(more, start, end)
  {
    var path :| PathBetween(fewer, path, start, end);
    assert PathBetween(more, path, start, end);
  }

  /** A path through a new edge, cut at the last use of that edge. */
  lemma {:induction false} ReachesWithNewEdge<T(!new)>(edges: set<(T, T)>, from: T, to: T, path: seq<T>)
    requires IsPath(edges + {(from, to)}, path)
    ensures var start, end := path[0], path[|path| - 1];
            Reaches(edges, start, end) || (Reaches(edges, start, from) && Reaches(edges, to, end))
    decreases |path|
  {
    var start, end := path[0], path[|path| - 1];
    if |path| == 1 {
      ReachesSelf(edges, start);
    } else {
      var shorter := path[..|path| - 1];
      ReachesWithNewEdge(edges, from, to, shorter);
      var middle := shorter[|shorter| - 1];
      assert (path[|path| - 2], path[|path| - 1]) in edges + {(from, to)};
      if (middle, end) in edges {
        if Reaches(edges, start, middle) {
          ReachesStep(edges, start, middle, end);
        } else {
          ReachesStep(edges, to, middle, end);
        }
      } else {
        ReachesSelf(edges, to);
      }
    }
  }

  /** Adding an edge keeps a relation acyclic exactly when the edge closes no loop. */
  lemma AcyclicExtension<T(!new)>(edges: set<(T, T)>, from: T, to: T)
    requires Acyclic(edges)
    ensures Acyclic(edges + {(from, to)}) <==> !Reaches(edges, to, from)
  {
    var more := edges + {(from, to)};
    if Reaches(edges, to, from) {
      ReachesMonotone(edges, more, to, from);
      assert (from, to) in more;
    } else {
      forall edge | edge in more
        ensures !Reaches(more, edge.1, edge.0)
      {
        if Reaches(more, edge.1, edge.0) {
          var path :| PathBetween(more, path, edge.1, edge.0);
          ReachesWithNewEdge(edges, from, to, path);
          if edge in edges {
            // to reaches edge.0, which steps to edge.1, which reaches from
            ReachesStep(edges, to, edge.0, edge.1);
            ReachesTransitive(edges, to, edge.1, from);
          }
        }
      }
    }
  }
}
