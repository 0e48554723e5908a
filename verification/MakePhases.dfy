/** Building the module graph from the entries: tasks, their effects, and what every schedule keeps. */
module MakePhases {
  import opened Options
  import opened Sequences
  import opened BuildingGraphs

  // ---- what is built: resolution and parsing are given functions ----

  datatype Resolution = Resolved(identity: Identity) | Unresolved(identity: Identity)

  datatype Content = Content(dependencies: seq<Dependency>, blocks: seq<seq<Dependency>>)
  {
    function At(location: Location): Option<Dependency> {
      match location.block
      case None => if location.index < |dependencies| then Some(dependencies[location.index]) else None
      case Some(b) =>
        if b < |blocks| && location.index < |blocks[b]| then Some(blocks[b][location.index]) else None
    }
  }

  /** Requests are resolved in the context of a module, or of the compiler for entries. */
  datatype World = World(
    entries: seq<string>,
    resolve: (Option<Identity>, string) -> Resolution,
    parse: Identity -> Option<Content>)

  /** A module dependency of one module leads to what its request resolves to there. */
  ghost predicate Edge(w: World, node: Resolution, next: Resolution) {
    && node.Resolved? && w.parse(node.identity).Some?
    && exists at: Location :: LeadsTo(w, node.identity, at, next)
  }

  predicate LeadsTo(w: World, identity: Identity, at: Location, next: Resolution)
    requires w.parse(identity).Some?
  {
    && var d := w.parse(identity).value.At(at);
       d.Some? && d.value.request.Some? && next == w.resolve(Some(identity), d.value.request.value)
  }

  ghost predicate IsWalk(w: World, walk: seq<Resolution>) {
    && walk != []
    && (exists i: nat | i < |w.entries| :: walk[0] == w.resolve(None, w.entries[i]))
    && forall k: nat | k + 1 < |walk| :: Edge(w, walk[k], walk[k + 1])
  }

  ghost predicate Needed(w: World, node: Resolution) {
    exists walk: seq<Resolution> :: IsWalk(w, walk) && walk[|walk| - 1] == node
  }

  lemma EntryNeeded(w: World, i: nat)
    requires i < |w.entries|
    ensures Needed(w, w.resolve(None, w.entries[i]))
  {
    var walk := [w.resolve(None, w.entries[i])];
    assert IsWalk(w, walk) && walk[|walk| - 1] == walk[0];
  }

  lemma EdgeNeeded(w: World, node: Resolution, next: Resolution)
    requires Needed(w, node) && Edge(w, node, next)
    ensures Needed(w, next)
  {
    var walk: seq<Resolution> :| IsWalk(w, walk) && walk[|walk| - 1] == node;
    var longer := walk + [next];
    forall k: nat | k + 1 < |longer| ensures Edge(w, longer[k], longer[k + 1]) {
      if k + 1 < |walk| { assert Edge(w, walk[k], walk[k + 1]); }
    }
    assert longer[0] == walk[0];
    assert IsWalk(w, longer) && longer[|longer| - 1] == next;
  }

  /** No identity is needed both as a module and as the stand-in for a request that failed. */
  ghost predicate Separate(w: World) {
    forall id: Identity :: !(Needed(w, Resolved(id)) && Needed(w, Unresolved(id)))
  }

  /** What holds the entries and is closed under edges holds every needed node. */
  lemma {:induction false} ClosedHoldsWalk(w: World, closed: iset<Resolution>, walk: seq<Resolution>)
    requires forall i: nat | i < |w.entries| :: w.resolve(None, w.entries[i]) in closed
    requires forall node, next | node in closed && Edge(w, node, next) :: next in closed
    requires IsWalk(w, walk)
    ensures walk[|walk| - 1] in closed
    decreases |walk|
  {
    if |walk| > 1 {
      var shorter := walk[..|walk| - 1];
      forall k: nat | k + 1 < |shorter| ensures Edge(w, shorter[k], shorter[k + 1]) {
        assert Edge(w, walk[k], walk[k + 1]);
      }
      assert shorter[0] == walk[0];
      ClosedHoldsWalk(w, closed, shorter);
      assert Edge(w, walk[|walk| - 2], walk[|walk| - 2 + 1]);
    }
  }

  // ---- tasks ----

  datatype Queued = Queued(entryIndex: Option<nat>, block: Option<nat>, index: Option<nat>, dependency: Dependency)

  datatype Group = Group(request: string, dependencies: seq<Queued>)

  datatype Task =
    | Factorize(origin: Option<nat>, context: Option<Identity>, dependencies: seq<Queued>)
    | Add(origin: Option<nat>, dependencies: seq<Queued>, resolution: Resolution)
    | Build(handle: nat, identity: Identity)
    | Process(from: nat, within: Identity, dependencies: seq<Queued>)
  {
    predicate IsBackground() { Factorize? || Build? }
  }

  /** Every dependency of a module, those of its blocks last, with its place. */
  function Enumerated(block: Option<nat>, dependencies: seq<Dependency>): seq<Queued> {
    seq(|dependencies|, i requires 0 <= i < |dependencies| => Queued(None, block, Some(i), dependencies[i]))
  }

  function BlocksEnumerated(blocks: seq<seq<Dependency>>): seq<Queued> {
    if blocks == [] then []
    else BlocksEnumerated(blocks[..|blocks| - 1]) + Enumerated(Some(|blocks| - 1), blocks[|blocks| - 1])
  }

  function QueuedOf(content: Content): seq<Queued> {
    Enumerated(None, content.dependencies) + BlocksEnumerated(content.blocks)
  }

  // ---- grouping by request ----

  function InsertInto(groups: seq<Group>, request: string, d: Queued): seq<Group> {
    if groups == [] then [Group(request, [d])]
    else if groups[0].request == request then
      [groups[0].(dependencies := groups[0].dependencies + [d])] + groups[1..]
    else [groups[0]] + InsertInto(groups[1..], request, d)
  }

  /** Dependencies on one request are resolved once; a dependency without a request is dropped. */
  function Grouped(dependencies: seq<Queued>): seq<Group> {
    if dependencies == [] then []
    else
      var before := Grouped(dependencies[..|dependencies| - 1]);
      var d := dependencies[|dependencies| - 1];
      if d.dependency.request.None? then before else InsertInto(before, d.dependency.request.value, d)
  }

  method GroupDependenciesForFactorization(dependencies: seq<Queued>) returns (groups: seq<Group>)
    ensures groups == Grouped(dependencies)
  {
    groups := [];
    var i := 0;
    while i < |dependencies|
      invariant i <= |dependencies| && groups == Grouped(dependencies[..i])
    {
      var d := dependencies[i];
      assert dependencies[..i + 1][..i] == dependencies[..i];
      if d.dependency.request.Some? {
        groups := FindAndPush(groups, d.dependency.request.value, d);
      }
      i := i + 1;
    }
    assert dependencies[..i] == dependencies;
  }

  method FindAndPush(groups: seq<Group>, request: string, d: Queued) returns (pushed: seq<Group>)
    ensures pushed == InsertInto(groups, request, d)
  {
    var k := 0;
    while k < |groups| && groups[k].request != request
      invariant k <= |groups|
      invariant forall j: nat | j < k :: groups[j].request != request
    {
      k := k + 1;
    }
    InsertIntoAt(groups, request, d, k);
    if k < |groups| {
      pushed := groups[k := groups[k].(dependencies := groups[k].dependencies + [d])];
    } else {
      pushed := groups + [Group(request, [d])];
    }
  }

  lemma {:induction false} InsertIntoAt(groups: seq<Group>, request: string, d: Queued, k: nat)
    requires k <= |groups| && (forall j: nat | j < k :: groups[j].request != request)
    requires k < |groups| ==> groups[k].request == request
    ensures InsertInto(groups, request, d) ==
            if k < |groups| then groups[k := groups[k].(dependencies := groups[k].dependencies + [d])]
            else groups + [Group(request, [d])]
  {
    if k > 0 {
      InsertIntoAt(groups[1..], request, d, k - 1);
    }
  }

  /** The dependencies on one request, in their order. */
  function OnRequest(dependencies: seq<Queued>, request: string): seq<Queued> {
    if dependencies == [] then []
    else
      var d := dependencies[|dependencies| - 1];
      OnRequest(dependencies[..|dependencies| - 1], request) + if d.dependency.request == Some(request) then [d] else []
  }

  /** What a list of groups holds for a request. */
  function HeldFor(groups: seq<Group>, request: string): seq<Queued> {
    if groups == [] then []
    else if groups[0].request == request then groups[0].dependencies
    else HeldFor(groups[1..], request)
  }

  predicate HasGroup(groups: seq<Group>, request: string) {
    groups != [] && (groups[0].request == request || HasGroup(groups[1..], request))
  }

  /** No request has two groups, and no group is empty. */
  predicate OneGroupEach(groups: seq<Group>) {
    groups != [] ==>
      && groups[0].dependencies != [] && !HasGroup(groups[1..], groups[0].request)
      && OneGroupEach(groups[1..])
  }

  lemma {:induction false} InsertIntoHeld(groups: seq<Group>, request: string, d: Queued, r: string)
    ensures HeldFor(InsertInto(groups, request, d), r) == HeldFor(groups, r) + if r == request then [d] else []
    ensures HasGroup(InsertInto(groups, request, d), r) <==> HasGroup(groups, r) || r == request
  {
    if groups != [] && groups[0].request != request {
      InsertIntoHeld(groups[1..], request, d, r);
    }
  }

  lemma {:induction false} InsertIntoOneEach(groups: seq<Group>, request: string, d: Queued)
    requires OneGroupEach(groups)
    ensures OneGroupEach(InsertInto(groups, request, d))
  {
    if groups != [] && groups[0].request != request {
      InsertIntoOneEach(groups[1..], request, d);
      InsertIntoHeld(groups[1..], request, d, groups[0].request);
    }
  }

  /** Grouping keeps each request's dependencies, in order and in one group; nothing else is kept. */
  lemma {:induction false} GroupedExact(dependencies: seq<Queued>, r: string)
    ensures OneGroupEach(Grouped(dependencies))
    ensures HeldFor(Grouped(dependencies), r) == OnRequest(dependencies, r)
    ensures HasGroup(Grouped(dependencies), r) <==> exists d :: d in dependencies && d.dependency.request == Some(r)
    decreases |dependencies|
  {
    if dependencies != [] {
      var before := dependencies[..|dependencies| - 1];
      var d := dependencies[|dependencies| - 1];
      GroupedExact(before, r);
      assert forall e :: e in dependencies <==> e in before || e == d;
      if d.dependency.request.Some? {
        InsertIntoHeld(Grouped(before), d.dependency.request.value, d, r);
        InsertIntoOneEach(Grouped(before), d.dependency.request.value, d);
      }
    }
  }
}
