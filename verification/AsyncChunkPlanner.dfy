/** The worklist planner itself: plan objects updated in place, a FIFO queue of groups. */
module AsyncChunkPlanner {
  import opened Options
  import opened Sequences
  import opened Words64
  import opened ModuleMasks
  import opened ModuleGraphs
  import opened AsyncChunkPlanning

  // ---- plans, with their masks in words ----

  datatype ParentMask = ParentMask(resulting: seq<Word>, origins: seq<Origin>)

  type ParentMasks = map<Group, ParentMask>

  /** The parents that the words stand for. */
  ghost function Abstracted(parents: ParentMasks): Parents {
    map g | g in parents :: ParentPlan(Elements(parents[g].resulting), parents[g].origins)
  }

  ghost predicate Sized(parents: ParentMasks, size: nat) {
    forall g | g in parents :: |parents[g].resulting| == size
  }

  /** The modules in `meet` are in all these masks, and each other module is missing from one of them. */
  ghost predicate MeetOver(meet: set<nat>, parents: ParentMasks, groups: set<Group>) {
    && groups <= parents.Keys
    && (forall m, g | m in meet && g in groups :: m in Elements(parents[g].resulting))
    && (forall m: nat | m !in meet :: exists g :: g in groups && m !in Elements(parents[g].resulting))
  }

  lemma MeetOverOneMore(meet: set<nat>, parents: ParentMasks, groups: set<Group>, g: Group)
    requires MeetOver(meet, parents, groups) && g in parents
    ensures MeetOver(meet * Elements(parents[g].resulting), parents, groups + {g})
  {
    var smaller := meet * Elements(parents[g].resulting);
    forall m: nat | m !in smaller ensures exists h :: h in groups + {g} && m !in Elements(parents[h].resulting) {
      if m in meet {
        assert g in groups + {g} && m !in Elements(parents[g].resulting);
      } else {
        var h :| h in groups && m !in Elements(parents[h].resulting);
        assert h in groups + {g};
      }
    }
  }

  lemma MeetOverAll(meet: set<nat>, parents: ParentMasks)
    requires MeetOver(meet, parents, parents.Keys) && parents != map[]
    ensures IsMeet(meet, Abstracted(parents))
  {
    forall m: nat | m !in meet ensures exists g :: g in Abstracted(parents) && m !in Abstracted(parents)[g].resulting {
      var g :| g in parents.Keys && m !in Elements(parents[g].resulting);
      assert g in Abstracted(parents);
    }
    var g :| g in parents;
    assert g in Abstracted(parents);
  }

  /** Intersection over the recorded masks of all parents, word by word. */
  method IntersectParents(parents: ParentMasks, ghost size: nat) returns (meet: seq<Word>)
    requires parents != map[] && Sized(parents, size)
    ensures |meet| == size && IsMeet(Elements(meet), Abstracted(parents))
  {
    var rest := parents.Keys;
    var first: Group :| first in rest;
    meet := parents[first].resulting;
    rest := rest - {first};
    assert parents.Keys - rest == {first};
    while rest != {}
      invariant rest <= parents.Keys && |meet| == size
      invariant MeetOver(Elements(meet), parents, parents.Keys - rest)
      decreases rest
    {
      var g: Group :| g in rest;
      MeetOverOneMore(Elements(meet), parents, parents.Keys - rest, g);
      assert parents.Keys - rest + {g} == parents.Keys - (rest - {g});
      meet := Intersected(meet, parents[g].resulting);
      rest := rest - {g};
    }
    assert parents.Keys - rest == parents.Keys;
    MeetOverAll(Elements(meet), parents);
  }

  /** A clone of one mask, intersected with another. */
  method Intersected(words: seq<Word>, other: seq<Word>) returns (meet: seq<Word>)
    requires |words| == |other|
    ensures |meet| == |words| && Elements(meet) == Elements(words) * Elements(other)
  {
    var mask := new ModuleMask.Of(words);
    var with := new ModuleMask.Of(other);
    mask.IntersectWith(with);
    meet := mask.words[..];
  }

  /** A clone of a mask, with some modules inserted. */
  method WithModules(words: seq<Word>, modules: seq<nat>) returns (more: seq<Word>)
    requires forall m | m in modules :: m / 64 < |words|
    ensures |more| == |words| && Elements(more) == Elements(words) + Members(modules)
  {
    var mask := new ModuleMask.Of(words);
    for i := 0 to |modules|
      invariant mask.Contents() == Elements(words) + Members(modules[..i])
    {
      assert modules[i] in modules;
      var _ := mask.Insert(modules[i]);
      assert modules[..i + 1] == modules[..i] + [modules[i]];
    }
    assert modules[..|modules|] == modules;
    more := mask.words[..];
  }

  /** `available` and `recorded` are the mask and the parents that the words stand for. */
  class AsyncChunkPlan {
    const target: nat
    const staticModules: seq<nat>
    var minAvailable: seq<Word>
    var resulting: seq<Word>
    var parents: ParentMasks
    ghost var available: set<nat>
    ghost var recorded: Parents

    ghost predicate Valid()
      reads this
    {
      IsMeet(available, recorded)
    }

    ghost predicate InWords(size: nat)
      reads this
    {
      && |minAvailable| == |resulting| == size && Sized(parents, size)
      && (forall m | m in staticModules :: m / 64 < size)
      && Elements(minAvailable) == available && Elements(resulting) == available + Members(staticModules)
      && Abstracted(parents) == recorded
    }

    constructor (target: nat, staticModules: seq<nat>, parent: Group, parentResulting: seq<Word>, origin: Origin)
      requires forall m | m in staticModules :: m / 64 < |parentResulting|
      ensures Valid() && InWords(|parentResulting|) && this.target == target && this.staticModules == staticModules
      ensures recorded == WithParent(map[], parent, Elements(parentResulting), origin)
      ensures available == Elements(parentResulting)
    {
      var result := WithModules(parentResulting, staticModules);
      this.target := target;
      this.staticModules := staticModules;
      minAvailable := parentResulting;
      resulting := result;
      parents := map[parent := ParentMask(parentResulting, [origin])];
      available := Elements(parentResulting);
      recorded := WithParent(map[], parent, Elements(parentResulting), origin);
      new;
      assert AddOnce([], origin) == [origin];
      assert parent in recorded && recorded[parent].resulting == available;
    }

    /** Records one more visit; the result says whether the masks moved. */
    method AddParent(parent: Group, parentResulting: seq<Word>, origin: Origin) returns (changed: bool)
      requires InWords(|parentResulting|)
      modifies this
      ensures Valid() && InWords(|parentResulting|)
      ensures recorded == WithParent(old(recorded), parent, Elements(parentResulting), origin)
      ensures changed <==> available != old(available)
    {
      ghost var before := parents;
      var origins := if parent in parents then parents[parent].origins else [];
      if origin !in origins {
        origins := origins + [origin];
      }
      parents := parents[parent := ParentMask(parentResulting, origins)];
      RecordedAbstracts(before, parent, parentResulting, origin, parents);
      recorded := WithParent(recorded, parent, Elements(parentResulting), origin);
      assert parent in parents;
      var meet := IntersectParents(parents, |parentResulting|);
      var result := WithModules(meet, staticModules);
      changed := minAvailable != meet || resulting != result;
      ElementsInjective(minAvailable, meet);
      ElementsInjective(resulting, result);
      minAvailable := meet;
      resulting := result;
      available := Elements(meet);
    }
  }

  lemma RecordedAbstracts(before: ParentMasks, parent: Group, parentResulting: seq<Word>, origin: Origin, after: ParentMasks)
    requires after == before[parent := ParentMask(parentResulting,
                                                  AddOnce(if parent in before then before[parent].origins else [], origin))]
    ensures Abstracted(after) == WithParent(Abstracted(before), parent, Elements(parentResulting), origin)
  {
  }

  type Plans = map<nat, AsyncChunkPlan>

  ghost predicate HoldsOne(input: Input, plan: AsyncChunkPlan, target: nat, mask: set<nat>, parents: Parents)
    reads plan
  {
    && plan.target == target
    && plan.Valid()
    && plan.available == mask
    && plan.recorded == parents
    && Distinct(plan.staticModules)
    && Members(plan.staticModules) == StaticModules(input.graph, target)
  }

  /** The words of every plan agree with what they stand for, all in the size of the graph. */
  ghost predicate AllInWords(input: Input, plans: Plans)
    reads plans.Values
  {
    forall t {:trigger plans[t].InWords(WordCount(|input.graph|))} | t in plans :: plans[t].InWords(WordCount(|input.graph|))
  }

  /** The mask of a group in words. */
  ghost predicate IsMask(input: Input, words: seq<Word>, modules: set<nat>) {
    |words| == WordCount(|input.graph|) && Elements(words) == modules
  }

  /** The plan objects hold exactly what the abstract state holds. */
  ghost predicate Holds(input: Input, plans: Plans, s: State)
    reads plans.Values
  {
    && plans.Keys == s.plan.min.Keys == s.parents.Keys
    && forall t | t in plans :: HoldsOne(input, plans[t], t, s.plan.min[t], s.parents[t])
  }

  // ---- import blocks, in the order of identities ----

  /** Modules are ordered by their identities, which are distinct: `rank` gives the place of each. */
  ghost predicate IsOrder(rank: nat -> nat) {
    forall a: nat, b: nat :: rank(a) == rank(b) ==> a == b
  }

  predicate OriginBefore(rank: nat -> nat, a: Origin, b: Origin) {
    rank(a.from) < rank(b.from) || (a.from == b.from && a.block < b.block)
  }

  ghost predicate InOriginOrder(rank: nat -> nat, items: seq<(Origin, nat)>) {
    forall i: nat, j: nat | i < j < |items| :: OriginBefore(rank, items[i].0, items[j].0)
  }

  function InsertOrigin(rank: nat -> nat, items: seq<(Origin, nat)>, item: (Origin, nat)): seq<(Origin, nat)> {
    if items == [] || OriginBefore(rank, item.0, items[0].0) then [item] + items
    else [items[0]] + InsertOrigin(rank, items[1..], item)
  }

  lemma {:induction false} InsertOriginOrdered(rank: nat -> nat, items: seq<(Origin, nat)>, item: (Origin, nat))
    requires IsOrder(rank) && InOriginOrder(rank, items) && forall k: nat | k < |items| :: items[k].0 != item.0
    ensures InOriginOrder(rank, InsertOrigin(rank, items, item))
    ensures forall x :: x in InsertOrigin(rank, items, item) <==> x in items || x == item
  {
    if items != [] && !OriginBefore(rank, item.0, items[0].0) {
      assert OriginBefore(rank, items[0].0, item.0);
      InsertOriginOrdered(rank, items[1..], item);
      var rest := InsertOrigin(rank, items[1..], item);
      forall j: nat | j < |rest| ensures OriginBefore(rank, items[0].0, rest[j].0) {
        assert rest[j] in rest;
        if rest[j] != item {
          var k: nat :| k < |items[1..]| && items[1..][k] == rest[j];
          assert OriginBefore(rank, items[0].0, items[k + 1].0);
        }
      }
      assert forall x :: x in items <==> x == items[0] || x in items[1..];
    }
  }

  /** The import blocks of some modules with the modules they load, sorted. */
  method DynamicImportOrigins(rank: nat -> nat, graph: ModuleGraph, modules: seq<nat>) returns (origins: seq<(Origin, nat)>)
    requires IsOrder(rank) && forall m | m in modules :: m < |graph|
    ensures InOriginOrder(rank, origins) && Distinct(origins)
    ensures forall item :: item in origins <==>
              item.0.from in modules && BlockTarget(graph, item.0) == Some(item.1)
  {
    var found: seq<(Origin, nat)> := [];
    for i := 0 to |modules|
      invariant forall item :: item in found <==>
        item.0.from in modules[..i] && BlockTarget(graph, item.0) == Some(item.1)
    {
      assert modules[i] in modules;
      var block := BlockOrigins(graph, modules[i]);
      found := found + block;
      assert modules[..i + 1] == modules[..i] + [modules[i]];
    }
    assert modules[..|modules|] == modules;
    origins := SortOrigins(rank, graph, found);
  }

  /** Sorts, and drops what is there twice. */
  method SortOrigins(rank: nat -> nat, graph: ModuleGraph, items: seq<(Origin, nat)>) returns (sorted: seq<(Origin, nat)>)
    requires IsOrder(rank) && forall item | item in items :: BlockTarget(graph, item.0) == Some(item.1)
    ensures InOriginOrder(rank, sorted) && Distinct(sorted)
    ensures forall item :: item in sorted <==> item in items
  {
    sorted := [];
    for i := 0 to |items|
      invariant InOriginOrder(rank, sorted)
      invariant forall item :: item in sorted <==> item in items[..i]
    {
      assert items[i] in items;
      if items[i] !in sorted {
        forall k: nat | k < |sorted| ensures sorted[k].0 != items[i].0 {
          assert sorted[k] in sorted && sorted[k] in items;
        }
        InsertOriginOrdered(rank, sorted, items[i]);
        sorted := InsertOrigin(rank, sorted, items[i]);
      }
      assert items[..i + 1] == items[..i] + [items[i]];
    }
    assert items[..|items|] == items;
    forall i, j | 0 <= i < j < |sorted| ensures sorted[i] != sorted[j] {
      assert OriginBefore(rank, sorted[i].0, sorted[j].0);
    }
  }

  method BlockOrigins(graph: ModuleGraph, m: nat) returns (origins: seq<(Origin, nat)>)
    requires m < |graph|
    ensures Distinct(origins)
    ensures forall item :: item in origins <==> item.0.from == m && BlockTarget(graph, item.0) == Some(item.1)
  {
    origins := [];
    for block := 0 to |graph[m].blocks|
      invariant Distinct(origins)
      invariant forall item :: item in origins <==>
        item.0.from == m && item.0.block < block && BlockTarget(graph, item.0) == Some(item.1)
    {
      if Dependency.Import in graph[m].blocks[block] {
        var origin := Origin(m, block);
        match FirstImport(graph[m].outgoing, block) {
          case None =>
          case Some(target) => origins := origins + [(origin, target)];
        }
      }
    }
  }

  /** The state after `target` got a new mask and new parents. */
  ghost function Updated(s: State, parent: Group, item: (Origin, nat), mask: set<nat>, parents: Parents): State {
    var plan := Plan(s.plan.min[item.1 := mask], s.plan.edges + {Edge(parent, item.0, item.1)});
    State(plan, s.parents[item.1 := parents],
          if MaskChanged(s.plan, plan, item.1) then s.pending + [AsyncChunk(item.1)] else s.pending,
          s.busy, s.todo - {item})
  }

  lemma UpdatedIsVisit(input: Input, s: State, parent: Group, item: (Origin, nat), mask: set<nat>)
    requires s.busy == Some(parent) && item in s.todo
    requires item.1 !in Resulting(input, s.plan, parent)
    requires IsMeet(mask, WithParent(ParentsOf(s.parents, item.1), parent, Resulting(input, s.plan, parent), item.0))
    ensures Visit(input, s, item,
                  Updated(s, parent, item, mask,
                          WithParent(ParentsOf(s.parents, item.1), parent, Resulting(input, s.plan, parent), item.0)))
  {
    var now := WithParent(ParentsOf(s.parents, item.1), parent, Resulting(input, s.plan, parent), item.0);
    var s' := Updated(s, parent, item, mask, now);
    assert s'.plan.min[item.1] == mask;
    assert Visits(s, s', parent, Resulting(input, s.plan, parent), item.0, item.1);
  }

  lemma AddedHolds(input: Input, plans: Plans, plan: AsyncChunkPlan, s: State, parent: Group, item: (Origin, nat),
                   mask: set<nat>, parents: Parents)
    requires Holds(input, plans, s) && item.1 !in plans && HoldsOne(input, plan, item.1, mask, parents)
    ensures Holds(input, plans[item.1 := plan], Updated(s, parent, item, mask, parents))
  {
    var more := plans[item.1 := plan];
    assert more[item.1] == plan;
    forall t | t in more && t != item.1 ensures HoldsOne(input, more[t], t, s.plan.min[t], s.parents[t]) {
      assert t in plans && more[t] == plans[t];
    }
    UpdatedHolds(input, more, s.(plan := s.plan.(min := s.plan.min[item.1 := mask]), parents := s.parents[item.1 := parents]),
                 parent, item, mask, parents);
  }

  /** A block whose target is available already is passed over. */
  lemma SkipIsVisit(input: Input, plans: Plans, s: State, parent: Group, item: (Origin, nat))
    requires Holds(input, plans, s) && s.busy == Some(parent) && item in s.todo && item.1 in Resulting(input, s.plan, parent)
    ensures Visit(input, s, item, s.(todo := s.todo - {item})) && Holds(input, plans, s.(todo := s.todo - {item}))
  {
  }

  lemma UpdatedHolds(input: Input, plans: Plans, s: State, parent: Group, item: (Origin, nat), mask: set<nat>, parents: Parents)
    requires plans.Keys == s.plan.min.Keys == s.parents.Keys && item.1 in plans
    requires HoldsOne(input, plans[item.1], item.1, mask, parents)
    requires forall t | t in plans && t != item.1 :: HoldsOne(input, plans[t], t, s.plan.min[t], s.parents[t])
    ensures Holds(input, plans, Updated(s, parent, item, mask, parents))
  {
  }

  method RecordVisit(input: Input, plan: AsyncChunkPlan, parent: Group, parentResulting: seq<Word>, origin: Origin,
                     ghost mask: set<nat>, ghost parents: Parents)
    returns (changed: bool)
    requires HoldsOne(input, plan, plan.target, mask, parents)
    requires plan.InWords(|parentResulting|)
    modifies plan
    ensures HoldsOne(input, plan, plan.target, plan.available,
                     WithParent(parents, parent, Elements(parentResulting), origin))
    ensures plan.InWords(|parentResulting|)
    ensures changed <==> plan.available != mask
  {
    changed := plan.AddParent(parent, parentResulting, origin);
  }

  method Revisit(input: Input, plans: Plans, parent: Group, parentResulting: seq<Word>, item: (Origin, nat), ghost s: State)
    returns (changed: bool, ghost s': State)
    requires Holds(input, plans, s) && AllInWords(input, plans) && item.1 in plans
    requires s.busy == Some(parent) && item in s.todo
    requires IsMask(input, parentResulting, Resulting(input, s.plan, parent)) && item.1 !in Elements(parentResulting)
    modifies plans[item.1]
    ensures Holds(input, plans, s') && AllInWords(input, plans) && Visit(input, s, item, s')
    ensures s'.pending == if changed then s.pending + [AsyncChunk(item.1)] else s.pending
  {
    var plan := plans[item.1];
    changed := RecordVisit(input, plan, parent, parentResulting, item.0, s.plan.min[item.1], s.parents[item.1]);
    ghost var now := WithParent(s.parents[item.1], parent, Elements(parentResulting), item.0);
    ghost var mask := plan.available;
    s' := Updated(s, parent, item, mask, now);
    UpdatedIsVisit(input, s, parent, item, mask);
    UpdatedHolds(input, plans, s, parent, item, mask, now);
  }

  method NewPlan(input: Input, parent: Group, parentResulting: seq<Word>, origin: Origin, target: nat)
    returns (plan: AsyncChunkPlan)
    requires WellFormed(input.graph) && target < |input.graph| && |parentResulting| == WordCount(|input.graph|)
    ensures fresh(plan) && plan.InWords(|parentResulting|)
    ensures HoldsOne(input, plan, target, Elements(parentResulting),
                     WithParent(map[], parent, Elements(parentResulting), origin))
  {
    var staticModules := CollectStaticReachable(input.graph, target);
    forall m | m in staticModules ensures m / 64 < |parentResulting| {
      assert m in Members(staticModules) && m < |input.graph|;
    }
    plan := new AsyncChunkPlan(target, staticModules, parent, parentResulting, origin);
  }

  method FirstVisit(input: Input, plans: Plans, parent: Group, parentResulting: seq<Word>, item: (Origin, nat), ghost s: State)
    returns (plans': Plans, ghost s': State)
    requires Holds(input, plans, s) && AllInWords(input, plans) && item.1 !in plans && WellFormed(input.graph) && item.1 < |input.graph|
    requires s.busy == Some(parent) && item in s.todo
    requires IsMask(input, parentResulting, Resulting(input, s.plan, parent)) && item.1 !in Elements(parentResulting)
    ensures Holds(input, plans', s') && AllInWords(input, plans')
    ensures Visit(input, s, item, s') && s'.pending == s.pending + [AsyncChunk(item.1)]
    ensures item.1 in plans' && fresh(plans'[item.1]) && plans' == plans[item.1 := plans'[item.1]]
  {
    var plan := NewPlan(input, parent, parentResulting, item.0, item.1);
    plans' := plans[item.1 := plan];
    ghost var mask := Elements(parentResulting);
    UpdatedIsVisit(input, s, parent, item, mask);
    s' := Updated(s, parent, item, mask, WithParent(map[], parent, mask, item.0));
    AddedHolds(input, plans, plan, s, parent, item, mask, WithParent(map[], parent, mask, item.0));
  }

  /** Handles one import block of the group in hand. */
  method LoadFrom(input: Input, plans: Plans, pending: seq<Group>, parent: Group, parentResulting: seq<Word>,
                  item: (Origin, nat), ghost s: State)
    returns (plans': Plans, pending': seq<Group>, ghost s': State)
    requires input.Valid() && Holds(input, plans, s) && AllInWords(input, plans)
    requires s.pending == pending && s.busy == Some(parent) && item in s.todo
    requires BlockTarget(input.graph, item.0) == Some(item.1)
    requires IsMask(input, parentResulting, Resulting(input, s.plan, parent))
    modifies plans.Values
    ensures Holds(input, plans', s') && AllInWords(input, plans') && Visit(input, s, item, s') && s'.pending == pending'
    ensures forall p | p in plans'.Values :: p in plans.Values || fresh(p)
  {
    var origin, target := item.0, item.1;
    plans', pending' := plans, pending;
    if Has(parentResulting, target) {
      SkipIsVisit(input, plans, s, parent, item);
      s' := s.(todo := s.todo - {item});
      return;
    }
    if target in plans {
      var changed;
      changed, s' := Revisit(input, plans, parent, parentResulting, item, s);
      if changed {
        pending' := pending + [AsyncChunk(target)];
      }
    } else {
      BlockTargetInRange(input.graph, origin);
      plans', s' := FirstVisit(input, plans, parent, parentResulting, item, s);
      pending' := pending + [AsyncChunk(target)];
    }
  }

  /** An entrypoint's modules and their mask. */
  datatype EntrypointPlan = EntrypointPlan(modules: seq<nat>, resulting: seq<Word>)

  /** What one visit of a group reads: the modules it carries and what it leaves available. */
  method ReadGroup(input: Input, entrypoints: seq<EntrypointPlan>, plans: Plans, group: Group, ghost s: State)
    returns (own: seq<nat>, resulting: seq<Word>)
    requires Holds(input, plans, s) && AllInWords(input, plans) && Planned(input, s.plan, group)
    requires EntrypointModules(input, entrypoints)
    ensures Distinct(own) && Members(own) == Own(input, s.plan, group)
    ensures IsMask(input, resulting, Resulting(input, s.plan, group))
  {
    match group {
      case Entrypoint(index) =>
        own := entrypoints[index].modules;
        resulting := entrypoints[index].resulting;
        assert EntrypointHolds(input, entrypoints[index], input.entries[index]);
      case AsyncChunk(target) =>
        var plan := plans[target];
        assert plan.InWords(WordCount(|input.graph|));
        own := Carried(plan.staticModules, plan.minAvailable);
        resulting := plan.resulting;
        assert HoldsOne(input, plan, target, s.plan.min[target], s.parents[target]);
    }
  }

  /** What the chunk of a plan carries: its static modules without those available. */
  method Carried(modules: seq<nat>, available: seq<Word>) returns (own: seq<nat>)
    ensures Members(own) == Members(modules) - Elements(available)
    ensures Distinct(modules) ==> Distinct(own)
  {
    own := [];
    for i := 0 to |modules|
      invariant Distinct(modules) ==> Distinct(own)
      invariant forall m: nat :: m in own <==> m in modules[..i] && m !in Elements(available)
    {
      assert Distinct(modules) ==> modules[i] !in modules[..i];
      if !Has(available, modules[i]) { own := own + [modules[i]]; }
      assert modules[..i + 1] == modules[..i] + [modules[i]];
    }
    assert modules[..|modules|] == modules;
  }

  ghost predicate EntrypointHolds(input: Input, plan: EntrypointPlan, entry: nat) {
    && Distinct(plan.modules) && Members(plan.modules) == StaticModules(input.graph, entry)
    && IsMask(input, plan.resulting, Members(plan.modules))
  }

  ghost predicate EntrypointModules(input: Input, entrypoints: seq<EntrypointPlan>) {
    && |entrypoints| == |input.entries|
    && forall i: nat | i < |entrypoints| :: EntrypointHolds(input, entrypoints[i], input.entries[i])
  }

  method CollectEntrypoints(input: Input) returns (entrypoints: seq<EntrypointPlan>)
    requires input.Valid()
    ensures EntrypointModules(input, entrypoints)
  {
    entrypoints := [];
    for i := 0 to |input.entries|
      invariant |entrypoints| == i
      invariant forall k: nat | k < i :: EntrypointHolds(input, entrypoints[k], input.entries[k])
    {
      var plan := CollectEntrypoint(input, input.entries[i]);
      entrypoints := entrypoints + [plan];
    }
  }

  method CollectEntrypoint(input: Input, entry: nat) returns (plan: EntrypointPlan)
    requires WellFormed(input.graph) && entry < |input.graph|
    ensures EntrypointHolds(input, plan, entry)
  {
    var modules := CollectStaticReachable(input.graph, entry);
    forall i | 0 <= i < |modules| ensures modules[i] < |input.graph| {
      assert modules[i] in Members(modules);
    }
    var mask := FromModules(|input.graph|, modules);
    plan := EntrypointPlan(modules, mask.words[..]);
  }

  lemma OwnInRange(input: Input, plan: Plan, group: Group)
    ensures forall m | m in Own(input, plan, group) :: m < |input.graph|
  {
  }

  ghost function Last(run: seq<State>): State
    requires run != []
  {
    run[|run| - 1]
  }

  lemma ExtendRun(input: Input, run: seq<State>, s: State)
    requires Run(input, run) && Step(input, Last(run), s)
    ensures Run(input, run + [s])
  {
    var longer := run + [s];
    forall i | 0 <= i < |longer| - 1
      ensures Step(input, longer[i], longer[i + 1])
    {
      if i < |run| - 1 {
        assert longer[i] == run[i] && longer[i + 1] == run[i + 1];
      }
    }
  }

  lemma VisitAccountInRun(input: Input, run: seq<State>, item: (Origin, nat), s': State)
    requires input.Valid() && Run(input, run) && Visit(input, Last(run), item, s')
    ensures VisitAccount(input, Last(run), s')
  {
    RunInv(input, run);
    VisitPays(input, Last(run), item, s');
  }

  lemma HeadIsPlanned(input: Input, run: seq<State>)
    requires input.Valid() && Run(input, run) && Last(run).pending != []
    ensures Planned(input, Last(run).plan, Last(run).pending[0])
  {
    RunInv(input, run);
    assert Last(run).pending[0] in Last(run).pending;
  }

  ghost function Taken(s: State, todo: set<(Origin, nat)>): State
    requires s.pending != []
  {
    State(s.plan, s.parents, s.pending[1..], Some(s.pending[0]), todo)
  }

  lemma TakenIsStep(input: Input, s: State, origins: seq<(Origin, nat)>)
    requires s.pending != [] && s.busy == None
    requires forall item :: item in origins <==>
               item.0.from in Own(input, s.plan, s.pending[0]) && BlockTarget(input.graph, item.0) == Some(item.1)
    ensures Step(input, s, Taken(s, Members(origins)))
  {
    assert s.pending[..0] + s.pending[1..] == s.pending[1..];
    assert Take(input, s, 0, Taken(s, Members(origins)));
  }

  /** Handles one import block and lengthens the run by that step. */
  method LoadNext(input: Input, plans: Plans, pending: seq<Group>, parent: Group, parentResulting: seq<Word>,
                  item: (Origin, nat), ghost run: seq<State>)
    returns (plans': Plans, pending': seq<Group>, ghost run': seq<State>)
    requires input.Valid() && Run(input, run) && Holds(input, plans, Last(run)) && AllInWords(input, plans)
    requires Last(run).pending == pending && Last(run).busy == Some(parent) && item in Last(run).todo
    requires BlockTarget(input.graph, item.0) == Some(item.1)
    requires IsMask(input, parentResulting, Resulting(input, Last(run).plan, parent))
    modifies plans.Values
    ensures Run(input, run') && Holds(input, plans', Last(run')) && AllInWords(input, plans')
    ensures Last(run').pending == pending' && Last(run').busy == Some(parent)
    ensures Last(run').todo == Last(run).todo - {item}
    ensures VisitAccount(input, Last(run), Last(run'))
    ensures forall p | p in plans'.Values :: p in plans.Values || fresh(p)
  {
    ghost var next;
    plans', pending', next := LoadFrom(input, plans, pending, parent, parentResulting, item, Last(run));
    VisitAccountInRun(input, run, item, next);
    assert Step(input, Last(run), next);
    ExtendRun(input, run, next);
    run' := run + [next];
  }

  lemma AccountTransitive(input: Input, a: State, b: State, c: State)
    requires VisitAccount(input, a, b) && VisitAccount(input, b, c) && a.busy == b.busy
    ensures VisitAccount(input, a, c)
  {
  }

  lemma TodoHead(origins: seq<(Origin, nat)>, k: nat)
    requires Distinct(origins) && k < |origins|
    ensures origins[k] in Members(origins[k..]) && origins[k] in origins
    ensures Members(origins[k..]) - {origins[k]} == Members(origins[k + 1..])
  {
    assert origins[k..] == [origins[k]] + origins[k + 1..];
  }

  /** Handles all import blocks of the group in hand. */
  method LoadAll(input: Input, plans: Plans, pending: seq<Group>, parent: Group, parentResulting: seq<Word>,
                 origins: seq<(Origin, nat)>, ghost run: seq<State>)
    returns (plans': Plans, pending': seq<Group>, ghost run': seq<State>)
    requires input.Valid() && Run(input, run) && Holds(input, plans, Last(run)) && AllInWords(input, plans)
    requires Last(run).pending == pending && Last(run).busy == Some(parent)
    requires Distinct(origins) && Last(run).todo == Members(origins)
    requires forall item | item in origins :: BlockTarget(input.graph, item.0) == Some(item.1)
    requires IsMask(input, parentResulting, Resulting(input, Last(run).plan, parent))
    modifies plans.Values
    ensures Run(input, run') && Holds(input, plans', Last(run')) && AllInWords(input, plans')
    ensures Last(run').pending == pending' && Last(run').busy == Some(parent) && Last(run').todo == {}
    ensures VisitAccount(input, Last(run), Last(run'))
    ensures forall p | p in plans'.Values :: p in plans.Values || fresh(p)
  {
    plans', pending', run' := plans, pending, run;
    for k := 0 to |origins|
      invariant Run(input, run') && Holds(input, plans', Last(run')) && AllInWords(input, plans')
      invariant Last(run').pending == pending' && Last(run').busy == Some(parent)
      invariant Last(run').todo == Members(origins[k..])
      invariant VisitAccount(input, Last(run), Last(run'))
      invariant forall p | p in plans'.Values :: p in plans.Values || fresh(p)
    {
      TodoHead(origins, k);
      ghost var before := Last(run');
      plans', pending', run' := LoadNext(input, plans', pending', parent, parentResulting, origins[k], run');
      AccountTransitive(input, Last(run), before, Last(run'));
    }
  }

  /** One turn of the worklist: everything the head of the queue loads is recorded. */
  method VisitGroup(rank: nat -> nat, input: Input, entrypoints: seq<EntrypointPlan>, plans: Plans, pending: seq<Group>, ghost run: seq<State>)
    returns (plans': Plans, pending': seq<Group>, ghost run': seq<State>)
    requires IsOrder(rank) && input.Valid() && EntrypointModules(input, entrypoints)
    requires Run(input, run) && Holds(input, plans, Last(run)) && AllInWords(input, plans)
    requires Last(run).pending == pending != [] && Last(run).busy == None
    modifies plans.Values
    ensures Run(input, run') && Holds(input, plans', Last(run')) && AllInWords(input, plans')
    ensures Last(run').pending == pending' && Last(run').busy == None
    ensures forall p | p in plans'.Values :: p in plans.Values || fresh(p)
    ensures PlanWeight(input, Last(run').plan) <= PlanWeight(input, Last(run).plan)
    ensures PlanWeight(input, Last(run').plan) < PlanWeight(input, Last(run).plan) || pending' == pending[1..]
  {
    var parent := pending[0];
    HeadIsPlanned(input, run);
    var own, parentResulting := ReadGroup(input, entrypoints, plans, parent, Last(run));
    OwnInRange(input, Last(run).plan, parent);
    var origins := DynamicImportOrigins(rank, input.graph, own);
    ghost var taken := Taken(Last(run), Members(origins));
    TakenIsStep(input, Last(run), origins);
    ExtendRun(input, run, taken);
    plans', pending', run' := LoadAll(input, plans, pending[1..], parent, parentResulting, origins, run + [taken]);
    ghost var done := Last(run').(busy := None);
    assert Drop(Last(run'), done);
    ExtendRun(input, run', done);
    run' := run' + [done];
  }

  /** The mask and modules of a plan object. */
  ghost predicate ShowsMask(input: Input, plan: AsyncChunkPlan, target: nat, mask: set<nat>)
    reads plan
  {
    && plan.target == target && IsMask(input, plan.minAvailable, mask)
    && Members(plan.staticModules) == StaticModules(input.graph, target)
  }

  /** The parents of a plan object and their origins. */
  ghost predicate ShowsParents(plan: AsyncChunkPlan, parents: Parents)
    reads plan
  {
    && plan.parents.Keys == parents.Keys
    && (forall g | g in parents :: plan.parents[g].origins == parents[g].origins)
  }

  ghost predicate RealizesEdges(plans: Plans, edges: set<Edge>)
    reads plans.Values
  {
    && (forall t | t in plans :: plans[t].parents != map[])
    && (forall t, g | t in plans && g in plans[t].parents :: plans[t].parents[g].origins != [])
    && (forall e: Edge :: e in edges <==>
          && e.target in plans && e.parent in plans[e.target].parents
          && e.origin in plans[e.target].parents[e.parent].origins)
  }

  /** No parent of a plan object lists an origin twice. */
  ghost predicate ListsOnce(plans: Plans)
    reads plans.Values
  {
    forall t, g | t in plans && g in plans[t].parents :: Distinct(plans[t].parents[g].origins)
  }

  /** The plan objects hold the masks, parents and origins of a plan. */
  ghost predicate Realizes(input: Input, plans: Plans, plan: Plan)
    reads plans.Values
  {
    && plans.Keys == plan.min.Keys
    && (forall t | t in plans :: ShowsMask(input, plans[t], t, plan.min[t]))
    && RealizesEdges(plans, plan.edges)
  }

  /** Plans every async chunk. The masks, parents and origins of the result are those of the
      least closed plan, whose masks are also the meet over all parent walks. */
  method PlanAsyncChunks(rank: nat -> nat, input: Input) returns (plans: Plans, ghost plan: Plan)
    requires IsOrder(rank) && input.Valid()
    ensures Solved(input, plan) && Realizes(input, plans, plan) && ListsOnce(plans)
    ensures forall p | p in plans.Values :: fresh(p)
  {
    var entrypoints := CollectEntrypoints(input);
    plans := map[];
    var pending := seq(|input.entries|, i requires 0 <= i => Entrypoint(i));
    ghost var run := [Start(input)];
    while pending != []
      invariant Run(input, run) && Holds(input, plans, Last(run)) && AllInWords(input, plans)
      invariant Last(run).pending == pending && Last(run).busy == None
      invariant forall p | p in plans.Values :: fresh(p)
      decreases PlanWeight(input, Last(run).plan), |pending|
    {
      plans, pending, run := VisitGroup(rank, input, entrypoints, plans, pending, run);
    }
    plan := Last(run).plan;
    FinishedRun(input, run);
    RunRealized(input, plans, run);
  }

  lemma FinishedRun(input: Input, run: seq<State>)
    requires input.Valid() && Run(input, run) && Finished(Last(run))
    ensures Solved(input, Last(run).plan)
  {
    RunInv(input, run);
    FinishedSolved(input, Last(run));
  }

  lemma RunRealized(input: Input, plans: Plans, run: seq<State>)
    requires input.Valid() && Run(input, run) && Holds(input, plans, Last(run)) && AllInWords(input, plans)
    ensures Realizes(input, plans, Last(run).plan) && ListsOnce(plans)
  {
    RunInv(input, run);
    var s := Last(run);
    forall t | t in plans ensures ShowsMask(input, plans[t], t, s.plan.min[t]) && ShowsParents(plans[t], s.parents[t]) {
      HeldShows(input, plans[t], t, s.plan.min[t], s.parents[t]);
    }
    ShownRealizes(input, plans, s);
  }

  lemma HeldShows(input: Input, plan: AsyncChunkPlan, target: nat, mask: set<nat>, parents: Parents)
    requires HoldsOne(input, plan, target, mask, parents) && plan.InWords(WordCount(|input.graph|))
    ensures ShowsMask(input, plan, target, mask) && ShowsParents(plan, parents)
  {
  }

  lemma ShownRealizes(input: Input, plans: Plans, s: State)
    requires plans.Keys == s.parents.Keys && forall t | t in plans :: ShowsParents(plans[t], s.parents[t])
    requires PlansSound(input, s.plan, s.parents)
    ensures RealizesEdges(plans, s.plan.edges) && ListsOnce(plans)
  {
    forall t | t in plans ensures plans[t].parents != map[] {
      var g :| g in s.parents[t];
      assert g in plans[t].parents;
    }
    forall t, g | t in plans && g in plans[t].parents ensures plans[t].parents[g].origins != [] {
      assert ParentSound(input, s.plan, t, g, s.parents[t][g]);
    }
    assert RecordedOnce(s.parents);
    forall e: Edge ensures e in s.plan.edges <==> IsRecordedEdge(s.parents, e) {
    }
  }
}
