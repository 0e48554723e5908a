/** Async chunk planning: which modules a lazily loaded chunk may leave out because every
    way of reaching it has installed them already. The edges grow as the masks shrink. */
module AsyncChunkPlanning {
  import opened Options
  import opened Sequences
  import opened Reachability
  import opened ModuleGraphs

  datatype Origin = Origin(from: nat, block: nat)

  datatype Group = Entrypoint(index: nat) | AsyncChunk(target: nat)

  /** What one parent had available when it was last visited, and the blocks it loads from. */
  datatype ParentPlan = ParentPlan(resulting: set<nat>, origins: seq<Origin>)

  type Parents = map<Group, ParentPlan>

  datatype Input = Input(graph: ModuleGraph, entries: seq<nat>)
  {
    ghost predicate Valid() {
      WellFormed(graph) && forall i | 0 <= i < |entries| :: entries[i] < |graph|
    }
  }

  // ---- import blocks ----

  function FirstImport(outgoing: seq<Connection>, block: nat): Option<nat> {
    if outgoing == [] then None
    else if outgoing[0].originBlock == Some(block) && outgoing[0].dependency.Import? then Some(outgoing[0].target)
    else FirstImport(outgoing[1..], block)
  }

  /** The module an import block loads, if the block holds an import that was connected. */
  function BlockTarget(graph: ModuleGraph, origin: Origin): Option<nat> {
    if origin.from < |graph| && origin.block < |graph[origin.from].blocks|
       && Dependency.Import in graph[origin.from].blocks[origin.block]
    then FirstImport(graph[origin.from].outgoing, origin.block)
    else None
  }

  /** The first import() among the connections of a block, active or not. */
  predicate IsFirstImport(outgoing: seq<Connection>, block: nat, k: nat) {
    && k < |outgoing| && MadeIn(outgoing[k], block)
    && forall j: nat | j < k :: !MadeIn(outgoing[j], block)
  }

  predicate MadeIn(c: Connection, block: nat) {
    c.originBlock == Some(block) && c.dependency == Dependency.Import
  }

  lemma {:induction false} FirstImportIs(outgoing: seq<Connection>, block: nat)
    ensures var found := FirstImport(outgoing, block);
            && (found.Some? <==> exists k: nat :: IsFirstImport(outgoing, block, k))
            && (forall k: nat | IsFirstImport(outgoing, block, k) :: found == Some(outgoing[k].target))
  {
    if outgoing != [] {
      FirstImportIs(outgoing[1..], block);
      forall k: nat ensures IsFirstImport(outgoing, block, k) <==>
          if MadeIn(outgoing[0], block) then k == 0 else k > 0 && IsFirstImport(outgoing[1..], block, k - 1)
      {
        if k > 0 && IsFirstImport(outgoing, block, k) { assert !MadeIn(outgoing[0], block); }
        if 0 < k < |outgoing| && !MadeIn(outgoing[0], block) {
          assert forall j: nat | 0 < j < k :: outgoing[j] == outgoing[1..][j - 1];
        }
      }
      if !MadeIn(outgoing[0], block) {
        if j: nat :| IsFirstImport(outgoing[1..], block, j) { assert IsFirstImport(outgoing, block, j + 1); }
      } else {
        assert IsFirstImport(outgoing, block, 0);
      }
    }
  }

  /** A block loads a module exactly if it holds an import() that was connected, and then its first one's. */
  lemma BlockTargetIs(graph: ModuleGraph, origin: Origin, target: nat)
    ensures BlockTarget(graph, origin) == Some(target) <==>
              && origin.from < |graph| && origin.block < |graph[origin.from].blocks|
              && (exists d :: d in graph[origin.from].blocks[origin.block] && d == Dependency.Import)
              && exists k: nat :: IsFirstImport(graph[origin.from].outgoing, origin.block, k)
                                  && graph[origin.from].outgoing[k].target == target
  {
    if origin.from < |graph| { FirstImportIs(graph[origin.from].outgoing, origin.block); }
  }

  lemma BlockTargetInRange(graph: ModuleGraph, origin: Origin)
    requires WellFormed(graph)
    ensures BlockTarget(graph, origin).Some? ==> BlockTarget(graph, origin).value < |graph|
  {
    if BlockTarget(graph, origin).Some? {
      FirstImportIs(graph[origin.from].outgoing, origin.block);
      var k: nat :| IsFirstImport(graph[origin.from].outgoing, origin.block, k);
      assert graph[origin.from].outgoing[k] in graph[origin.from].outgoing;
    }
  }

  // ---- plans, abstractly ----

  datatype Edge = Edge(parent: Group, origin: Origin, target: nat)

  /** The masks and loading edges of a planning state. */
  datatype Plan = Plan(min: map<nat, set<nat>>, edges: set<Edge>)

  ghost predicate Planned(input: Input, plan: Plan, group: Group) {
    match group
    case Entrypoint(index) => index < |input.entries|
    case AsyncChunk(target) => target in plan.min
  }

  ghost function GroupModules(input: Input, group: Group): set<nat> {
    match group
    case Entrypoint(index) => if index < |input.entries| then StaticModules(input.graph, input.entries[index]) else {}
    case AsyncChunk(target) => StaticModules(input.graph, target)
  }

  ghost function Available(plan: Plan, group: Group): set<nat> {
    if group.AsyncChunk? && group.target in plan.min then plan.min[group.target] else {}
  }

  ghost function Resulting(input: Input, plan: Plan, group: Group): set<nat> {
    Available(plan, group) + GroupModules(input, group)
  }

  /** The modules the group itself carries. */
  ghost function Own(input: Input, plan: Plan, group: Group): set<nat> {
    GroupModules(input, group) - Available(plan, group)
  }

  /** A carried module has a block whose target is not available once the group is loaded. */
  ghost predicate Demands(input: Input, plan: Plan, group: Group, origin: Origin, target: nat) {
    && origin.from in Own(input, plan, group)
    && BlockTarget(input.graph, origin) == Some(target)
    && target !in Resulting(input, plan, group)
  }

  /** Every demand is an edge, and no chunk assumes more than each of its parents offers. */
  ghost predicate Closed(input: Input, plan: Plan) {
    && (forall g: Group, o: Origin, t: nat | Planned(input, plan, g) && Demands(input, plan, g, o, t) ::
          Edge(g, o, t) in plan.edges)
    && (forall e | e in plan.edges ::
          && Planned(input, plan, e.parent)
          && e.target in plan.min
          && plan.min[e.target] <= Resulting(input, plan, e.parent))
  }

  /** Fewer edges and larger masks. */
  ghost predicate Below(plan: Plan, other: Plan) {
    && plan.edges <= other.edges
    && (forall t | t in plan.min :: t in other.min && other.min[t] <= plan.min[t])
  }

  ghost predicate Least(input: Input, plan: Plan) {
    forall other: Plan | Closed(input, other) :: Below(plan, other)
  }

  // ---- parent walks ----

  ghost function WalkEdges(plan: Plan): set<(Group, Group)> {
    set e | e in plan.edges :: (e.parent, AsyncChunk(e.target))
  }

  /** A chain of loads from an entrypoint to the chunk of `target`. */
  ghost predicate ParentWalk(plan: Plan, walk: seq<Group>, target: nat) {
    && |walk| >= 2
    && IsPath(WalkEdges(plan), walk)
    && walk[0].Entrypoint?
    && walk[|walk| - 1] == AsyncChunk(target)
  }

  ghost predicate Avoids(input: Input, walk: seq<Group>, m: nat) {
    forall k | 0 <= k < |walk| - 1 :: m !in GroupModules(input, walk[k])
  }

  ghost predicate AvoidingWalkExists(input: Input, plan: Plan, target: nat, m: nat) {
    exists walk :: ParentWalk(plan, walk, target) && Avoids(input, walk, m)
  }

  /** Availability is the meet over all parent walks. */
  ghost predicate Exact(input: Input, plan: Plan) {
    forall t, m: nat | t in plan.min :: m !in plan.min[t] <==> AvoidingWalkExists(input, plan, t, m)
  }

  // ---- the planner's state ----

  /** `parents` is what the planner keeps per target; `plan` is the view of it. */
  datatype State = State(
    plan: Plan, parents: map<nat, Parents>,
    pending: seq<Group>, busy: Option<Group>, todo: set<(Origin, nat)>)

  ghost predicate IsMeet(meet: set<nat>, parents: Parents) {
    && parents != map[]
    && (forall m, g | m in meet && g in parents :: m in parents[g].resulting)
    && (forall m: nat | m !in meet :: exists g :: g in parents && m !in parents[g].resulting)
  }

  ghost predicate ParentSound(input: Input, plan: Plan, t: nat, g: Group, parent: ParentPlan) {
    && Planned(input, plan, g)
    && Resulting(input, plan, g) <= parent.resulting <= Handles(|input.graph|)
    && parent.origins != []
    && (forall o | o in parent.origins :: Demands(input, plan, g, o, t))
  }

  ghost predicate IsRecordedEdge(parents: map<nat, Parents>, e: Edge) {
    e.target in parents && e.parent in parents[e.target] && e.origin in parents[e.target][e.parent].origins
  }

  ghost predicate MeetsSound(input: Input, plan: Plan, parents: map<nat, Parents>) {
    && plan.min.Keys == parents.Keys
    && forall t | t in parents :: t < |input.graph| && IsMeet(plan.min[t], parents[t])
  }

  ghost predicate ParentsSound(input: Input, plan: Plan, parents: map<nat, Parents>) {
    forall t, g | t in parents && g in parents[t] :: ParentSound(input, plan, t, g, parents[t][g])
  }

  ghost predicate EdgesRecorded(plan: Plan, parents: map<nat, Parents>) {
    forall e: Edge :: e in plan.edges <==> IsRecordedEdge(parents, e)
  }

  /** No parent lists an origin twice. */
  ghost predicate RecordedOnce(parents: map<nat, Parents>) {
    forall t, g | t in parents && g in parents[t] :: Distinct(parents[t][g].origins)
  }

  ghost predicate PlansSound(input: Input, plan: Plan, parents: map<nat, Parents>) {
    && MeetsSound(input, plan, parents) && ParentsSound(input, plan, parents)
    && EdgesRecorded(plan, parents) && RecordedOnce(parents)
  }

  /** No longer anything to do for this demand. */
  ghost predicate Recorded(input: Input, plan: Plan, parents: map<nat, Parents>, g: Group, o: Origin, t: nat) {
    && t in parents
    && g in parents[t]
    && parents[t][g].resulting == Resulting(input, plan, g)
    && o in parents[t][g].origins
  }

  ghost predicate Settled(input: Input, s: State, g: Group) {
    forall o: Origin, t: nat | Demands(input, s.plan, g, o, t) && !(s.busy == Some(g) && (o, t) in s.todo) ::
      Recorded(input, s.plan, s.parents, g, o, t)
  }

  ghost predicate TodoSound(input: Input, s: State) {
    match s.busy
    case None => s.todo == {}
    case Some(g) =>
      && Planned(input, s.plan, g)
      && forall item | item in s.todo ::
           item.0.from in Own(input, s.plan, g) && BlockTarget(input.graph, item.0) == Some(item.1)
  }

  ghost predicate WalksExist(input: Input, plan: Plan) {
    forall t, m: nat | t in plan.min && m !in plan.min[t] :: AvoidingWalkExists(input, plan, t, m)
  }

  ghost predicate PendingPlanned(input: Input, s: State) {
    forall g | g in s.pending :: Planned(input, s.plan, g)
  }

  ghost predicate AllSettled(input: Input, s: State) {
    forall g | Planned(input, s.plan, g) && g !in s.pending :: Settled(input, s, g)
  }

  ghost predicate Inv(input: Input, s: State) {
    && PlansSound(input, s.plan, s.parents)
    && TodoSound(input, s)
    && PendingPlanned(input, s)
    && AllSettled(input, s)
    && Least(input, s.plan)
    && WalksExist(input, s.plan)
  }

  // ---- the planner's steps ----

  /** The parents of a target after one more visit from `g`. */
  function WithParent(parents: Parents, g: Group, resulting: set<nat>, o: Origin): Parents {
    parents[g := ParentPlan(resulting, AddOnce(if g in parents then parents[g].origins else [], o))]
  }

  function ParentsOf(parents: map<nat, Parents>, t: nat): Parents {
    if t in parents then parents[t] else map[]
  }

  /** The plan after `g`, with `resulting` available, was found to load `t` from `o`. */
  ghost predicate Visits(s: State, s': State, g: Group, resulting: set<nat>, o: Origin, t: nat) {
    && var now := WithParent(ParentsOf(s.parents, t), g, resulting, o);
    && s'.parents == s.parents[t := now]
    && t in s'.plan.min
    && IsMeet(s'.plan.min[t], now)
    && s'.plan == Plan(s.plan.min[t := s'.plan.min[t]], s.plan.edges + {Edge(g, o, t)})
  }

  ghost predicate MaskChanged(before: Plan, after: Plan, t: nat)
    requires t in after.min
  {
    t !in before.min || before.min[t] != after.min[t]
  }

  /** Takes any pending group; its import blocks become the work of this visit. */
  ghost predicate Take(input: Input, s: State, i: nat, s': State) {
    && s.busy == None
    && i < |s.pending|
    && s'.plan == s.plan
    && s'.parents == s.parents
    && s'.pending == s.pending[..i] + s.pending[i + 1..]
    && s'.busy == Some(s.pending[i])
    && (forall item :: item in s'.todo <==>
          item.0.from in Own(input, s.plan, s.pending[i]) && BlockTarget(input.graph, item.0) == Some(item.1))
  }

  /** Handles any import block of the group in hand. */
  ghost predicate Visit(input: Input, s: State, item: (Origin, nat), s': State) {
    && s.busy.Some?
    && item in s.todo
    && s'.busy == s.busy
    && s'.todo == s.todo - {item}
    && var g, t := s.busy.value, item.1;
       if t in Resulting(input, s.plan, g) then
         s'.plan == s.plan && s'.parents == s.parents && s'.pending == s.pending
       else
         && Visits(s, s', g, Resulting(input, s.plan, g), item.0, t)
         && s'.pending == if MaskChanged(s.plan, s'.plan, t) then s.pending + [AsyncChunk(t)] else s.pending
  }

  ghost predicate Drop(s: State, s': State) {
    s.busy.Some? && s.todo == {} && s' == s.(busy := None)
  }

  ghost predicate Step(input: Input, s: State, s': State) {
    || (exists i :: Take(input, s, i, s'))
    || (exists item :: Visit(input, s, item, s'))
    || Drop(s, s')
  }

  ghost function Start(input: Input): State {
    State(Plan(map[], {}), map[], seq(|input.entries|, i requires 0 <= i => Entrypoint(i)), None, {})
  }

  lemma StartInv(input: Input)
    ensures Inv(input, Start(input))
  {
    var s := Start(input);
    forall g | Planned(input, s.plan, g)
      ensures g in s.pending
    {
      assert s.pending[g.index] == g;
    }
  }

  // ---- one visit, piece by piece ----

  lemma DemandIsNotSelf(input: Input, plan: Plan, g: Group, o: Origin, t: nat)
    requires input.Valid() && Demands(input, plan, g, o, t)
    ensures t < |input.graph| && g != AsyncChunk(t)
  {
    BlockTargetInRange(input.graph, o);
    StartIsStaticModule(input.graph, t);
  }

  /** A visit from `g` at a moment when it demands `t`. */
  ghost predicate DemandedVisit(input: Input, s: State, s': State, g: Group, o: Origin, t: nat) {
    && input.Valid()
    && PlansSound(input, s.plan, s.parents)
    && Planned(input, s.plan, g)
    && Demands(input, s.plan, g, o, t)
    && Visits(s, s', g, Resulting(input, s.plan, g), o, t)
  }

  /** A revisit can only remove modules from the mask of the visited target. */
  lemma MeetShrinks(parents: Parents, meet: set<nat>, after: set<nat>, g: Group, resulting: set<nat>, o: Origin)
    requires IsMeet(meet, parents) && IsMeet(after, WithParent(parents, g, resulting, o))
    requires g in parents ==> resulting <= parents[g].resulting
    ensures after <= meet
  {
    var now := WithParent(parents, g, resulting, o);
    forall m: nat | m !in meet
      ensures m !in after
    {
      var h :| h in parents && m !in parents[h].resulting;
      assert h in now && m !in now[h].resulting;
    }
  }

  lemma MaskShrinks(input: Input, s: State, s': State, g: Group, o: Origin, t: nat)
    requires DemandedVisit(input, s, s', g, o, t) && t in s.plan.min
    ensures s'.plan.min[t] <= s.plan.min[t]
  {
    if g in s.parents[t] {
      assert ParentSound(input, s.plan, t, g, s.parents[t][g]);
    }
    MeetShrinks(s.parents[t], s.plan.min[t], s'.plan.min[t], g, Resulting(input, s.plan, g), o);
  }

  /** What a smaller mask at one target does to the groups. */
  ghost predicate Grown(input: Input, plan: Plan, after: Plan, t: nat) {
    && plan.min.Keys <= after.min.Keys
    && plan.edges <= after.edges
    && (forall h | h != AsyncChunk(t) :: Available(after, h) == Available(plan, h))
    && (forall h | Planned(input, plan, h) :: Planned(input, after, h) && Available(after, h) <= Available(plan, h))
  }

  lemma VisitGrows(input: Input, s: State, s': State, g: Group, o: Origin, t: nat)
    requires DemandedVisit(input, s, s', g, o, t)
    ensures Grown(input, s.plan, s'.plan, t)
  {
    if t in s.plan.min {
      MaskShrinks(input, s, s', g, o, t);
    }
    GrownByUpdate(input, s.plan, t, s'.plan.min[t], s'.plan.edges);
  }

  lemma GrownByUpdate(input: Input, plan: Plan, t: nat, mask: set<nat>, edges: set<Edge>)
    requires t in plan.min ==> mask <= plan.min[t]
    requires plan.edges <= edges
    ensures Grown(input, plan, Plan(plan.min[t := mask], edges), t)
  {
  }

  lemma DemandsGrow(input: Input, plan: Plan, after: Plan, t: nat, h: Group, o: Origin, u: nat)
    requires Grown(input, plan, after, t) && Planned(input, plan, h) && Demands(input, plan, h, o, u)
    ensures Demands(input, after, h, o, u)
  {
  }

  lemma ParentStaysSound(input: Input, plan: Plan, after: Plan, t: nat, u: nat, h: Group, parent: ParentPlan)
    requires Grown(input, plan, after, t) && ParentSound(input, plan, u, h, parent)
    ensures ParentSound(input, after, u, h, parent)
  {
    forall p | p in parent.origins
      ensures Demands(input, after, h, p, u)
    {
      DemandsGrow(input, plan, after, t, h, p, u);
    }
  }

  lemma ResultingInRange(input: Input, s: State, g: Group)
    requires PlansSound(input, s.plan, s.parents)
    ensures Resulting(input, s.plan, g) <= Handles(|input.graph|)
  {
    if g.AsyncChunk? && g.target in s.parents {
      var h :| h in s.parents[g.target];
      assert ParentSound(input, s.plan, g.target, h, s.parents[g.target][h]);
    }
  }

  lemma AddingOriginSound(input: Input, plan: Plan, t: nat, g: Group, resulting: set<nat>, origins: seq<Origin>, o: Origin)
    requires Planned(input, plan, g)
    requires Resulting(input, plan, g) <= resulting <= Handles(|input.graph|)
    requires Demands(input, plan, g, o, t) && forall p | p in origins :: Demands(input, plan, g, p, t)
    ensures ParentSound(input, plan, t, g, ParentPlan(resulting, AddOnce(origins, o)))
  {
  }

  lemma VisitingParentSound(input: Input, s: State, s': State, g: Group, o: Origin, t: nat)
    requires DemandedVisit(input, s, s', g, o, t)
    ensures ParentSound(input, s'.plan, t, g, s'.parents[t][g])
  {
    VisitGrows(input, s, s', g, o, t);
    DemandIsNotSelf(input, s.plan, g, o, t);
    ResultingInRange(input, s, g);
    DemandsGrow(input, s.plan, s'.plan, t, g, o, t);
    var origins := if g in ParentsOf(s.parents, t) then s.parents[t][g].origins else [];
    if origins != [] {
      ParentStaysSound(input, s.plan, s'.plan, t, t, g, s.parents[t][g]);
    }
    AddingOriginSound(input, s'.plan, t, g, Resulting(input, s.plan, g), origins, o);
  }

  lemma VisitKeepsEdges(s: State, s': State, g: Group, resulting: set<nat>, o: Origin, t: nat)
    requires Visits(s, s', g, resulting, o, t)
    requires EdgesRecorded(s.plan, s.parents)
    ensures EdgesRecorded(s'.plan, s'.parents)
  {
    forall e: Edge
      ensures e in s'.plan.edges <==> IsRecordedEdge(s'.parents, e)
    {
      assert e in s.plan.edges <==> IsRecordedEdge(s.parents, e);
      if e.target == t && e.parent == g {
        var before := if g in ParentsOf(s.parents, t) then ParentsOf(s.parents, t)[g].origins else [];
          }
    }
  }

  lemma VisitKeepsParents(input: Input, s: State, s': State, g: Group, o: Origin, t: nat, u: nat, h: Group)
    requires DemandedVisit(input, s, s', g, o, t)
    requires u in s'.parents && h in s'.parents[u]
    ensures ParentSound(input, s'.plan, u, h, s'.parents[u][h])
  {
    if u == t && h == g {
      VisitingParentSound(input, s, s', g, o, t);
    } else {
      VisitGrows(input, s, s', g, o, t);
      ParentStaysSound(input, s.plan, s'.plan, t, u, h, s.parents[u][h]);
    }
  }

  lemma VisitKeepsMeets(input: Input, s: State, s': State, g: Group, resulting: set<nat>, o: Origin, t: nat)
    requires Visits(s, s', g, resulting, o, t) && t < |input.graph|
    requires MeetsSound(input, s.plan, s.parents)
    ensures MeetsSound(input, s'.plan, s'.parents)
  {
  }

  lemma VisitKeepsRecordedOnce(s: State, s': State, g: Group, resulting: set<nat>, o: Origin, t: nat)
    requires Visits(s, s', g, resulting, o, t) && RecordedOnce(s.parents)
    ensures RecordedOnce(s'.parents)
  {
  }

  lemma VisitKeepsPlansSound(input: Input, s: State, s': State, g: Group, o: Origin, t: nat)
    requires DemandedVisit(input, s, s', g, o, t)
    ensures PlansSound(input, s'.plan, s'.parents)
  {
    DemandIsNotSelf(input, s.plan, g, o, t);
    VisitKeepsMeets(input, s, s', g, Resulting(input, s.plan, g), o, t);
    VisitKeepsEdges(s, s', g, Resulting(input, s.plan, g), o, t);
    VisitKeepsRecordedOnce(s, s', g, Resulting(input, s.plan, g), o, t);
    assert ParentsSound(input, s'.plan, s'.parents) by {
      forall u, h | u in s'.parents && h in s'.parents[u]
        ensures ParentSound(input, s'.plan, u, h, s'.parents[u][h])
      {
        VisitKeepsParents(input, s, s', g, o, t, u, h);
      }
    }
  }

  lemma BelowResulting(input: Input, plan: Plan, other: Plan, g: Group)
    requires Below(plan, other) && Planned(input, plan, g)
    ensures Planned(input, other, g) && Resulting(input, other, g) <= Resulting(input, plan, g)
    ensures Own(input, plan, g) <= Own(input, other, g)
  {
  }

  lemma BelowDemand(input: Input, plan: Plan, other: Plan, g: Group, o: Origin, t: nat)
    requires Below(plan, other) && Closed(input, other) && Planned(input, plan, g) && Demands(input, plan, g, o, t)
    ensures Edge(g, o, t) in other.edges && t in other.min && other.min[t] <= Resulting(input, plan, g)
  {
    BelowResulting(input, plan, other, g);
    assert Demands(input, other, g, o, t);
  }

  lemma BelowUpdate(plan: Plan, other: Plan, edge: Edge, mask: set<nat>, parents: Parents)
    requires Below(plan, other) && edge in other.edges && edge.target in other.min
    requires IsMeet(mask, parents)
    requires forall h | h in parents :: other.min[edge.target] <= parents[h].resulting
    ensures Below(Plan(plan.min[edge.target := mask], plan.edges + {edge}), other)
  {
    forall m: nat | m !in mask
      ensures m !in other.min[edge.target]
    {
      var h :| h in parents && m !in parents[h].resulting;
    }
  }

  lemma BelowParent(input: Input, plan: Plan, other: Plan, t: nat, h: Group, parent: ParentPlan)
    requires Closed(input, other) && Below(plan, other) && ParentSound(input, plan, t, h, parent)
    ensures t in other.min && other.min[t] <= parent.resulting
  {
    BelowDemand(input, plan, other, h, parent.origins[0], t);
  }

  /** No visit goes beyond any closed plan. */
  lemma VisitStaysBelow(input: Input, s: State, s': State, g: Group, o: Origin, t: nat, other: Plan)
    requires DemandedVisit(input, s, s', g, o, t)
    requires Closed(input, other) && Below(s.plan, other)
    ensures Below(s'.plan, other)
  {
    BelowDemand(input, s.plan, other, g, o, t);
    var now := s'.parents[t];
    forall h | h in now
      ensures other.min[t] <= now[h].resulting
    {
      if h != g {
        BelowParent(input, s.plan, other, t, h, s.parents[t][h]);
      }
    }
    BelowUpdate(s.plan, other, Edge(g, o, t), s'.plan.min[t], now);
  }

  /** A walk to the parent that misses `m` extends to the target. */
  lemma ExtendWalk(input: Input, plan: Plan, g: Group, t: nat, m: nat)
    requires m !in GroupModules(input, g)
    requires g.AsyncChunk? ==> AvoidingWalkExists(input, plan, g.target, m)
    requires (g, AsyncChunk(t)) in WalkEdges(plan)
    ensures AvoidingWalkExists(input, plan, t, m)
  {
    if g.Entrypoint? {
      var walk := [g, AsyncChunk(t)];
      assert ParentWalk(plan, walk, t) && Avoids(input, walk, m);
    } else {
      var walk :| ParentWalk(plan, walk, g.target) && Avoids(input, walk, m);
      var longer := walk + [AsyncChunk(t)];
      assert forall k | 0 <= k < |walk| :: longer[k] == walk[k];
      assert IsPath(WalkEdges(plan), longer);
      assert ParentWalk(plan, longer, t) && Avoids(input, longer, m);
    }
  }

  lemma WalkSurvives(input: Input, plan: Plan, after: Plan, t: nat, m: nat)
    requires plan.edges <= after.edges && AvoidingWalkExists(input, plan, t, m)
    ensures AvoidingWalkExists(input, after, t, m)
  {
    var walk :| ParentWalk(plan, walk, t) && Avoids(input, walk, m);
    assert WalkEdges(plan) <= WalkEdges(after);
    assert ParentWalk(after, walk, t);
  }

  /** Why the visited target lacks `m`: some parent lacks it, and that parent has a walk. */
  lemma MissHasWalk(input: Input, s: State, s': State, g: Group, o: Origin, t: nat, m: nat)
    requires DemandedVisit(input, s, s', g, o, t) && WalksExist(input, s.plan)
    requires m !in s'.plan.min[t]
    ensures AvoidingWalkExists(input, s'.plan, t, m)
  {
    var h :| h in s'.parents[t] && m !in s'.parents[t][h].resulting;
    if h != g {
      assert ParentSound(input, s.plan, t, h, s.parents[t][h]);
      var p := s.parents[t][h].origins[0];
      assert IsRecordedEdge(s.parents, Edge(h, p, t));
      MissFromParent(input, s.plan, s'.plan, h, p, t, m);
    } else {
      MissFromParent(input, s.plan, s'.plan, g, o, t, m);
    }
  }

  lemma MissFromParent(input: Input, plan: Plan, after: Plan, h: Group, p: Origin, t: nat, m: nat)
    requires Planned(input, plan, h) && m !in Resulting(input, plan, h) && WalksExist(input, plan)
    requires plan.edges <= after.edges && Edge(h, p, t) in after.edges
    ensures AvoidingWalkExists(input, after, t, m)
  {
    if h.AsyncChunk? {
      WalkSurvives(input, plan, after, h.target, m);
    }
    ExtendWalk(input, after, h, t, m);
  }

  lemma VisitKeepsWalks(input: Input, s: State, s': State, g: Group, o: Origin, t: nat)
    requires DemandedVisit(input, s, s', g, o, t) && WalksExist(input, s.plan)
    ensures WalksExist(input, s'.plan)
  {
    forall u, m: nat | u in s'.plan.min && m !in s'.plan.min[u]
      ensures AvoidingWalkExists(input, s'.plan, u, m)
    {
      if u == t {
        MissHasWalk(input, s, s', g, o, t, m);
      } else {
        WalkSurvives(input, s.plan, s'.plan, u, m);
      }
    }
  }

  lemma RecordedStays(input: Input, s: State, s': State, g: Group, o: Origin, t: nat, h: Group, p: Origin, u: nat)
    requires Visits(s, s', g, Resulting(input, s.plan, g), o, t)
    requires Available(s'.plan, h) == Available(s.plan, h)
    requires Recorded(input, s.plan, s.parents, h, p, u)
    ensures Recorded(input, s'.plan, s'.parents, h, p, u)
  {
    if u == t && h == g {
      }
  }

  lemma DemandedVisitSettles(input: Input, s: State, s': State, g: Group, o: Origin, t: nat, h: Group)
    requires Visits(s, s', g, Resulting(input, s.plan, g), o, t) && Settled(input, s, h)
    requires s'.busy == s.busy == Some(g) && s'.todo == s.todo - {(o, t)}
    requires Available(s'.plan, h) == Available(s.plan, h)
    ensures Settled(input, s', h)
  {
    forall p: Origin, u: nat | Demands(input, s'.plan, h, p, u) && !(s'.busy == Some(h) && (p, u) in s'.todo)
      ensures Recorded(input, s'.plan, s'.parents, h, p, u)
    {
      assert Demands(input, s.plan, h, p, u);
      if h == g && (p, u) == (o, t) {
          } else {
        RecordedStays(input, s, s', g, o, t, h, p, u);
      }
    }
  }

  lemma VisitKeepsSettled(input: Input, s: State, item: (Origin, nat), s': State)
    requires input.Valid() && s.busy.Some? && AllSettled(input, s) && Visit(input, s, item, s')
    requires DemandedVisit(input, s, s', s.busy.value, item.0, item.1)
    ensures AllSettled(input, s')
  {
    var g, o, t := s.busy.value, item.0, item.1;
    VisitGrows(input, s, s', g, o, t);
    forall h | Planned(input, s'.plan, h) && h !in s'.pending
      ensures Settled(input, s', h)
    {
      assert h == AsyncChunk(t) ==> !MaskChanged(s.plan, s'.plan, t);
      assert h !in s.pending;
      DemandedVisitSettles(input, s, s', g, o, t, h);
    }
  }

  lemma VisitKeepsLeast(input: Input, s: State, s': State, g: Group, o: Origin, t: nat)
    requires DemandedVisit(input, s, s', g, o, t) && Least(input, s.plan)
    ensures Least(input, s'.plan)
  {
    forall other: Plan | Closed(input, other)
      ensures Below(s'.plan, other)
    {
      VisitStaysBelow(input, s, s', g, o, t, other);
    }
  }

  lemma VisitKeepsTodo(input: Input, s: State, item: (Origin, nat), s': State)
    requires Visit(input, s, item, s') && TodoSound(input, s) && PendingPlanned(input, s)
    requires DemandedVisit(input, s, s', s.busy.value, item.0, item.1)
    ensures TodoSound(input, s') && PendingPlanned(input, s')
  {
    var g, o, t := s.busy.value, item.0, item.1;
    DemandIsNotSelf(input, s.plan, g, o, t);
    VisitGrows(input, s, s', g, o, t);
  }

  lemma DemandedVisitInv(input: Input, s: State, item: (Origin, nat), s': State)
    requires input.Valid() && Inv(input, s) && Visit(input, s, item, s')
    requires item.1 !in Resulting(input, s.plan, s.busy.value)
    ensures Inv(input, s')
  {
    var g, o, t := s.busy.value, item.0, item.1;
    assert DemandedVisit(input, s, s', g, o, t);
    VisitKeepsPlansSound(input, s, s', g, o, t);
    VisitKeepsTodo(input, s, item, s');
    VisitKeepsSettled(input, s, item, s');
    VisitKeepsLeast(input, s, s', g, o, t);
    VisitKeepsWalks(input, s, s', g, o, t);
  }

  lemma VisitInv(input: Input, s: State, item: (Origin, nat), s': State)
    requires input.Valid() && Inv(input, s) && Visit(input, s, item, s')
    ensures Inv(input, s')
  {
    if item.1 !in Resulting(input, s.plan, s.busy.value) {
      DemandedVisitInv(input, s, item, s');
    } else {
      forall h | Planned(input, s'.plan, h) && h !in s'.pending
        ensures Settled(input, s', h)
      {
        assert Settled(input, s, h);
      }
    }
  }

  lemma TakeInv(input: Input, s: State, i: nat, s': State)
    requires Inv(input, s) && Take(input, s, i, s')
    ensures Inv(input, s')
  {
    forall h | Planned(input, s'.plan, h) && h !in s'.pending
      ensures Settled(input, s', h)
    {
      if h != s.pending[i] {
        assert h !in s.pending;
      }
    }
  }

  /** Whatever is pending may be taken next, and its blocks handled in any order. */
  lemma StepInv(input: Input, s: State, s': State)
    requires input.Valid() && Inv(input, s) && Step(input, s, s')
    ensures Inv(input, s')
  {
    if i :| Take(input, s, i, s') {
      TakeInv(input, s, i, s');
    } else if item :| Visit(input, s, item, s') {
      VisitInv(input, s, item, s');
    }
  }

  // ---- finished plans ----

  ghost predicate Finished(s: State) {
    s.pending == [] && s.busy == None
  }

  /** The edges are exactly the demands. */
  ghost predicate EdgesAreDemands(input: Input, plan: Plan) {
    forall g: Group, o: Origin, t: nat ::
      Edge(g, o, t) in plan.edges <==> Planned(input, plan, g) && Demands(input, plan, g, o, t)
  }

  ghost predicate Solved(input: Input, plan: Plan) {
    Closed(input, plan) && Least(input, plan) && Exact(input, plan) && EdgesAreDemands(input, plan)
  }

  lemma FinishedEdges(input: Input, s: State)
    requires Inv(input, s) && Finished(s)
    ensures EdgesAreDemands(input, s.plan)
  {
    forall g: Group, o: Origin, t: nat
      ensures Edge(g, o, t) in s.plan.edges <==> Planned(input, s.plan, g) && Demands(input, s.plan, g, o, t)
    {
      if Planned(input, s.plan, g) && Demands(input, s.plan, g, o, t) {
        assert Settled(input, s, g);
        assert IsRecordedEdge(s.parents, Edge(g, o, t));
      }
    }
  }

  /** Once nothing is pending, every recorded parent mask is the parent's current mask. */
  lemma FinishedMasks(input: Input, s: State, t: nat, g: Group)
    requires Inv(input, s) && Finished(s) && t in s.parents && g in s.parents[t]
    ensures s.parents[t][g].resulting == Resulting(input, s.plan, g)
  {
    assert ParentSound(input, s.plan, t, g, s.parents[t][g]);
    var o := s.parents[t][g].origins[0];
    assert Settled(input, s, g) && Demands(input, s.plan, g, o, t);
    assert Recorded(input, s.plan, s.parents, g, o, t);
  }

  lemma FinishedClosed(input: Input, s: State)
    requires Inv(input, s) && Finished(s)
    ensures Closed(input, s.plan)
  {
    FinishedEdges(input, s);
    forall e | e in s.plan.edges
      ensures e.target in s.plan.min && s.plan.min[e.target] <= Resulting(input, s.plan, e.parent)
    {
      assert IsRecordedEdge(s.parents, e);
      FinishedMasks(input, s, e.target, e.parent);
    }
  }

  /** A module assumed at the target is carried by some group on every walk there. */
  lemma {:induction false} WalkMeets(input: Input, plan: Plan, walk: seq<Group>, t: nat, m: nat)
    requires Closed(input, plan) && ParentWalk(plan, walk, t)
    requires t in plan.min && m in plan.min[t]
    ensures !Avoids(input, walk, m)
    decreases |walk|
  {
    var last := walk[|walk| - 2];
    assert (walk[|walk| - 2], walk[|walk| - 1]) in WalkEdges(plan);
    var e :| e in plan.edges && e.parent == last && AsyncChunk(e.target) == AsyncChunk(t);
    assert m in Resulting(input, plan, last);
    if m in GroupModules(input, last) {
    } else {
      var shorter := walk[..|walk| - 1];
      assert forall i | 0 <= i < |shorter| - 1 :: shorter[i] == walk[i] && (walk[i], walk[i + 1]) in WalkEdges(plan);
      WalkMeets(input, plan, shorter, last.target, m);
      var k :| 0 <= k < |shorter| - 1 && m in GroupModules(input, shorter[k]);
      assert walk[k] == shorter[k];
    }
  }

  /** A finished run has found the least closed plan, and its masks are the meet over walks. */
  lemma FinishedSolved(input: Input, s: State)
    requires Inv(input, s) && Finished(s)
    ensures Solved(input, s.plan)
  {
    FinishedClosed(input, s);
    FinishedEdges(input, s);
    forall t, m: nat | t in s.plan.min && m in s.plan.min[t]
      ensures !AvoidingWalkExists(input, s.plan, t, m)
    {
      forall walk | ParentWalk(s.plan, walk, t)
        ensures !Avoids(input, walk, m)
      {
        WalkMeets(input, s.plan, walk, t, m);
      }
    }
  }

  lemma LeastClosedUnique(input: Input, a: Plan, b: Plan)
    requires Closed(input, a) && Least(input, a) && Closed(input, b) && Least(input, b)
    ensures a == b
  {
    assert Below(a, b) && Below(b, a);
    assert a.min.Keys == b.min.Keys && forall t | t in a.min :: a.min[t] == b.min[t];
    assert a.min == b.min && a.edges == b.edges;
  }

  ghost predicate Run(input: Input, run: seq<State>) {
    && |run| > 0
    && run[0] == Start(input)
    && forall i | 0 <= i < |run| - 1 :: Step(input, run[i], run[i + 1])
  }

  lemma {:induction false} RunInv(input: Input, run: seq<State>)
    requires input.Valid() && Run(input, run)
    ensures Inv(input, run[|run| - 1])
    decreases |run|
  {
    if |run| == 1 {
      StartInv(input);
    } else {
      var shorter := run[..|run| - 1];
      forall i | 0 <= i < |shorter| - 1
        ensures Step(input, shorter[i], shorter[i + 1])
      {
        assert Step(input, run[i], run[i + 1]);
      }
      RunInv(input, shorter);
      assert Step(input, run[|run| - 2], run[|run| - 1]);
      StepInv(input, run[|run| - 2], run[|run| - 1]);
    }
  }

  /** Draining the queue in any order, and each group's blocks in any order, gives one plan. */
  lemma OrderIndependent(input: Input, run: seq<State>, other: seq<State>)
    requires input.Valid() && Run(input, run) && Run(input, other)
    requires Finished(run[|run| - 1]) && Finished(other[|other| - 1])
    ensures run[|run| - 1].plan == other[|other| - 1].plan
    ensures Solved(input, run[|run| - 1].plan)
  {
    RunInv(input, run);
    RunInv(input, other);
    FinishedSolved(input, run[|run| - 1]);
    FinishedSolved(input, other[|other| - 1]);
    LeastClosedUnique(input, run[|run| - 1].plan, other[|other| - 1].plan);
  }

  // ---- termination ----

  /** Size of the mask of each planned target, and one more than any mask for an unplanned one. */
  ghost function Weight(count: nat, min: map<nat, set<nat>>, targets: nat): nat {
    if targets == 0 then 0
    else Weight(count, min, targets - 1) + if targets - 1 in min then |min[targets - 1]| else count + 1
  }

  lemma {:induction false} WeightOfUpdate(count: nat, min: map<nat, set<nat>>, t: nat, mask: set<nat>, targets: nat)
    ensures Weight(count, min[t := mask], targets) ==
            if t < targets
            then Weight(count, min, targets) + |mask| - (if t in min then |min[t]| else count + 1)
            else Weight(count, min, targets)
    decreases targets
  {
    if targets > 0 {
      WeightOfUpdate(count, min, t, mask, targets - 1);
    }
  }

  ghost function PlanWeight(input: Input, plan: Plan): nat {
    Weight(|input.graph|, plan.min, |input.graph|)
  }

  lemma SubsetSize<T>(small: set<T>, large: set<T>)
    requires small <= large
    ensures |small| <= |large| && (small != large ==> |small| < |large|)
  {
    assert large == small + (large - small);
  }

  lemma MaskInRange(input: Input, s: State, t: nat)
    requires PlansSound(input, s.plan, s.parents) && t in s.plan.min
    ensures s.plan.min[t] <= Handles(|input.graph|)
  {
    ResultingInRange(input, s, AsyncChunk(t));
  }

  /** Queueing a target again costs weight; otherwise the weight stays. */
  lemma VisitLowersWeight(input: Input, s: State, s': State, g: Group, o: Origin, t: nat)
    requires DemandedVisit(input, s, s', g, o, t)
    ensures MaskChanged(s.plan, s'.plan, t) ==> PlanWeight(input, s'.plan) < PlanWeight(input, s.plan)
    ensures !MaskChanged(s.plan, s'.plan, t) ==> PlanWeight(input, s'.plan) == PlanWeight(input, s.plan)
  {
    DemandIsNotSelf(input, s.plan, g, o, t);
    VisitKeepsPlansSound(input, s, s', g, o, t);
    MaskInRange(input, s', t);
    SubsetSize(s'.plan.min[t], Handles(|input.graph|));
    if t in s.plan.min {
      MaskShrinks(input, s, s', g, o, t);
      SubsetSize(s'.plan.min[t], s.plan.min[t]);
    }
    WeightOfUpdate(|input.graph|, s.plan.min, t, s'.plan.min[t], |input.graph|);
  }

  ghost function BusyRank(s: State): nat {
    if s.busy.Some? then 1 + |s.todo| else 0
  }

  /** Every step of every run descends: first the weight, then the queue, then the work in hand. */
  lemma StepDescends(input: Input, s: State, s': State)
    requires input.Valid() && Inv(input, s) && Step(input, s, s')
    ensures var before, after := PlanWeight(input, s.plan), PlanWeight(input, s'.plan);
            || after < before
            || (after == before && |s'.pending| < |s.pending|)
            || (after == before && |s'.pending| == |s.pending| && BusyRank(s') < BusyRank(s))
  {
    if i :| Take(input, s, i, s') {
    } else if item :| Visit(input, s, item, s') {
      SubsetSize(s'.todo, s.todo);
      var g := s.busy.value;
      if item.1 !in Resulting(input, s.plan, g) {
        assert DemandedVisit(input, s, s', g, item.0, item.1);
        VisitLowersWeight(input, s, s', g, item.0, item.1);
      }
    }
  }

  /** What every visit keeps for the group it works for: its masks stay, and queueing is paid for. */
  ghost predicate VisitAccount(input: Input, s: State, s': State) {
    && s.busy.Some?
    && Resulting(input, s'.plan, s.busy.value) == Resulting(input, s.plan, s.busy.value)
    && PlanWeight(input, s'.plan) <= PlanWeight(input, s.plan)
    && (s'.pending == s.pending || PlanWeight(input, s'.plan) < PlanWeight(input, s.plan))
  }

  lemma VisitPays(input: Input, s: State, item: (Origin, nat), s': State)
    requires input.Valid() && Inv(input, s) && Visit(input, s, item, s')
    ensures VisitAccount(input, s, s')
  {
    var g := s.busy.value;
    if item.1 !in Resulting(input, s.plan, g) {
      assert DemandedVisit(input, s, s', g, item.0, item.1);
      DemandIsNotSelf(input, s.plan, g, item.0, item.1);
      VisitGrows(input, s, s', g, item.0, item.1);
      VisitLowersWeight(input, s, s', g, item.0, item.1);
    }
  }
}
