/** What a request that fails at the place of a module does to the graph: exactly when it is right. */
module MakeCollisions {
  import opened Options
  import opened BuildingGraphs
  import opened MakePhases
  import opened MakeStates
  import opened MakeSchedules
  import opened MakeSafety
  import opened MakeQuiescence

  // ---- one module for an identity, whatever the world ----

  lemma RunStaysWellFormed(w: World, m: Make, t: Task)
    requires Runnable(m, t)
    ensures WellFormed(RunTask(w, m, t).make)
  {
    match t
    case Factorize(_, _, _) =>
    case Add(origin, dependencies, resolution) =>
      AddedLands(m, origin, dependencies, resolution.identity);
      var added := Added(m, origin, dependencies, resolution.identity);
      if resolution.Unresolved? { EndBuildWellFormed(added, TargetOf(m, resolution.identity), Missing); }
    case Build(handle, identity) => EndBuildWellFormed(m, handle, if w.parse(identity).None? then Broken else Built);
    case Process(_, _, _) =>
  }

  lemma {:induction false} ScheduleKeepsMake(s: System, children: seq<Task>)
    ensures Schedule(s, children).make == s.make
    decreases |children|
  {
    if children != [] {
      ScheduleKeepsMake(if children[0].IsBackground() then s.(background := s.background + [InFlight(children[0])])
                        else s.(main := s.main + [children[0]]), children[1..]);
    }
  }

  lemma StepStaysWellFormed(w: World, s: System, act: Act)
    requires WellFormed(s.make) && Apply(w, s, act).Some?
    ensures WellFormed(Apply(w, s, act).value.make)
  {
    match act
    case RunMain =>
      RunStaysWellFormed(w, s.make, s.main[0]);
      var e := RunTask(w, s.make, s.main[0]);
      ScheduleKeepsMake(s.(make := e.make, main := s.main[1..]), e.children);
    case RunBackground(i) => RunStaysWellFormed(w, s.make, s.background[i].task);
    case Collect(i) =>
      ScheduleKeepsMake(s.(background := s.background[..i] + s.background[i + 1..]), s.background[i].children);
  }

  lemma {:induction false} PlayStaysWellFormed(w: World, s: System, acts: seq<Act>)
    requires WellFormed(s.make) && Play(w, s, acts).Some?
    ensures WellFormed(Play(w, s, acts).value.make)
    decreases |acts|
  {
    if acts != [] {
      StepStaysWellFormed(w, s, acts[0]);
      PlayStaysWellFormed(w, Apply(w, s, acts[0]).value, acts[1..]);
    }
  }

  lemma ReachableWellFormed(w: World, s: System)
    requires Reachable(w, s)
    ensures WellFormed(s.make)
  {
    var acts :| Play(w, Start(w), acts) == Some(s);
    StartInv(w);
    PlayStaysWellFormed(w, Start(w), acts);
  }

  // ---- when the graph is right ----

  /** In one graph an identity stands for a module or for a failure, never for both. */
  lemma OneNodeEach(w: World, s: System, id: Identity)
    requires Reachable(w, s)
    ensures !(HasNode(s.make, Resolved(id)) && HasNode(s.make, Unresolved(id)))
  {
    ReachableWellFormed(w, s);
    forall h: nat, k: nat | h < |s.make.graph.modules| && k < |s.make.graph.modules|
                            && s.make.graph.modules[h].identity == id && s.make.graph.modules[k].identity == id
      ensures h == k
    {
      assert s.make.byIdentity[id] == h && s.make.byIdentity[id] == k;
    }
  }

  /**
   * A finished graph holds exactly the needed modules, and satisfies all that is proved of finished
   * graphs, if and only if no identity is needed both as a module and as a failed request's stand-in.
   */
  lemma ReachableModulesIff(w: World, s: System)
    requires Reachable(w, s) && Quiescent(s)
    ensures (forall node :: Needed(w, node) <==> HasNode(s.make, node)) <==> Separate(w)
    ensures Inv(w, s) <==> Separate(w)
  {
    if Separate(w) {
      forall node ensures Needed(w, node) <==> HasNode(s.make, node) { ModulesAreReachable(w, s, node); }
      ReachableInv(w, s);
    } else {
      var id: Identity :| Needed(w, Resolved(id)) && Needed(w, Unresolved(id));
      OneNodeEach(w, s, id);
      if Inv(w, s) {
        NeededHasNode(w, s, Resolved(id));
        NeededHasNode(w, s, Unresolved(id));
      }
    }
  }

  // ---- a file `x` asked for as "./x", and as a package "x" that does not exist ----

  function ResolveX(context: Option<Identity>, request: string): Resolution {
    if request == "./x" then Resolved(1) else Unresolved(1)
  }

  function ParseX(id: Identity): Option<Content> {
    Some(Content([], []))
  }

  const COLLIDING := World(["./x", "x"], ResolveX, ParseX)

  lemma CollidingNotSeparate()
    ensures !Separate(COLLIDING)
  {
    EntryNeeded(COLLIDING, 0);
    EntryNeeded(COLLIDING, 1);
  }

  function AddEntry(i: nat): Task
    requires i < 2
  {
    Add(None, EntryTask(COLLIDING, i).dependencies, if i == 0 then Resolved(1) else Unresolved(1))
  }

  const BUILD_X := Build(0, 1)

  /** Where a run has got: its queues and its modules. */
  ghost predicate Stands(s: System, main: seq<Task>, background: seq<Running>, modules: seq<Module>) {
    Reachable(COLLIDING, s) && s.main == main && s.background == background && s.make.graph.modules == modules
  }

  lemma {:induction false} PlayAppend(w: World, s: System, acts: seq<Act>, act: Act, middle: System, s': System)
    requires Play(w, s, acts) == Some(middle) && Apply(w, middle, act) == Some(s')
    ensures Play(w, s, acts + [act]) == Some(s')
    decreases |acts|
  {
    var longer := acts + [act];
    if acts == [] {
      assert longer[1..] == [];
    } else {
      assert longer[0] == acts[0] && longer[1..] == acts[1..] + [act];
      PlayAppend(w, Apply(w, s, acts[0]).value, acts[1..], act, middle, s');
    }
  }

  lemma Then(s: System, act: Act) returns (s': System)
    requires Reachable(COLLIDING, s) && Apply(COLLIDING, s, act).Some?
    ensures Apply(COLLIDING, s, act) == Some(s') && Reachable(COLLIDING, s')
  {
    s' := Apply(COLLIDING, s, act).value;
    var acts :| Play(COLLIDING, Start(COLLIDING), acts) == Some(s);
    PlayAppend(COLLIDING, Start(COLLIDING), acts, act, s, s');
  }

  lemma Started() returns (s: System)
    ensures Stands(s, [], [InFlight(EntryTask(COLLIDING, 0)), InFlight(EntryTask(COLLIDING, 1))], [])
  {
    s := Start(COLLIDING);
    assert Play(COLLIDING, s, []) == Some(s);
    var first, second := EntryTask(COLLIDING, 0), EntryTask(COLLIDING, 1);
    assert EntryTasks(COLLIDING, 1) == [first];
    assert EntryTasks(COLLIDING, 2) == [first, second];
    var empty := System(Make(Storage([], [], [], [], []), map[], {}, map[], 0), [], []);
    var one := System(empty.make, [], [InFlight(first)]);
    ScheduleBackground(empty, first, [second]);
    ScheduleBackground(one, second, []);
    assert empty.background + [InFlight(first)] == one.background;
  }

  lemma ScheduleBackground(s: System, first: Task, rest: seq<Task>)
    requires first.IsBackground()
    ensures Schedule(s, [first] + rest) == Schedule(s.(background := s.background + [InFlight(first)]), rest)
  {
    assert ([first] + rest)[1..] == rest;
  }

  /** The background task at a place has run. */
  lemma Ran(s: System, before: seq<Running>, t: Task, behind: seq<Running>) returns (s': System)
    requires Reachable(COLLIDING, s) && s.background == before + [InFlight(t)] + behind && Runnable(s.make, t)
    ensures var e := RunTask(COLLIDING, s.make, t);
            Reachable(COLLIDING, s') && s' == System(e.make, s.main, before + [Finished(e.children)] + behind)
  {
    var i := |before|;
    assert s.background[i] == InFlight(t);
    s' := Then(s, RunBackground(i));
    assert s'.background == before + [s'.background[i]] + behind;
  }

  /** The children of a finished task are scheduled. */
  lemma Collected(s: System, before: seq<Running>, children: seq<Task>, behind: seq<Running>) returns (s': System)
    requires Reachable(COLLIDING, s) && s.main == [] && s.background == before + [Finished(children)] + behind
    ensures Reachable(COLLIDING, s') && s' == Schedule(System(s.make, [], before + behind), children)
  {
    var i := |before|;
    assert s.background[i] == Finished(children);
    s' := Then(s, Collect(i));
    assert s.background[..i] + s.background[i + 1..] == before + behind;
  }

  /** The first task in flight factorizes an entry: its add goes to the main queue. */
  lemma Factorized(s: System, e: nat, background: seq<Running>, modules: seq<Module>) returns (s': System)
    requires e < 2 && Stands(s, [], [InFlight(EntryTask(COLLIDING, e))] + background, modules)
    ensures Stands(s', [AddEntry(e)], background, modules)
  {
    ReachableWellFormed(COLLIDING, s);
    var t := EntryTask(COLLIDING, e);
    assert s.background == [] + [InFlight(t)] + background;
    var ran := Ran(s, [], t, background);
    assert RunTask(COLLIDING, s.make, t).children == [AddEntry(e)];
    s' := Collected(ran, [], [AddEntry(e)], background);
    assert [] + background == background;
    ScheduleMain(System(s.make, [], background), AddEntry(e));
  }

  lemma ScheduleMain(s: System, child: Task)
    requires !child.IsBackground()
    ensures Schedule(s, [child]) == s.(main := s.main + [child])
  {
    assert [child][1..] == [];
  }

  /** The module of "./x" is added, and its build is in flight. */
  lemma FirstAdded() returns (s: System)
    ensures Stands(s, [], [InFlight(EntryTask(COLLIDING, 1)), InFlight(BUILD_X)], [Module(1, Building)])
  {
    var start := Started();
    assert start.background == [InFlight(EntryTask(COLLIDING, 0))] + [InFlight(EntryTask(COLLIDING, 1))];
    var ready := Factorized(start, 0, [InFlight(EntryTask(COLLIDING, 1))], []);
    ReachableWellFormed(COLLIDING, ready);
    AddsFirst(ready.make);
    s := Then(ready, RunMain);
    var rest := System(RunTask(COLLIDING, ready.make, AddEntry(0)).make, [], ready.background);
    ScheduleBackground(rest, BUILD_X, []);
    assert ready.main[1..] == [] && [BUILD_X] + [] == [BUILD_X];
  }

  lemma AddsFirst(m: Make)
    requires WellFormed(m) && m.graph.modules == []
    ensures RunTask(COLLIDING, m, AddEntry(0)).make.graph.modules == [Module(1, Building)]
    ensures RunTask(COLLIDING, m, AddEntry(0)).children == [BUILD_X]
  {
    AddedLands(m, None, AddEntry(0).dependencies, 1);
  }

  /** "x" fails at the place of the module. */
  lemma SecondAdded(s: System, background: seq<Running>, status: Status) returns (s': System)
    requires Stands(s, [], [InFlight(EntryTask(COLLIDING, 1))] + background, [Module(1, status)])
    ensures Stands(s', [], background, [Module(1, Missing)])
  {
    var ready := Factorized(s, 1, background, [Module(1, status)]);
    ReachableWellFormed(COLLIDING, ready);
    FailureMarksStandIn(ready.make, None, AddEntry(1).dependencies, 1, 0);
    AddedLands(ready.make, None, AddEntry(1).dependencies, 1);
    s' := Then(ready, RunMain);
  }

  /** The build, last in flight, ends and is collected. */
  lemma BuildEnds(s: System, before: seq<Running>, status: Status) returns (s': System)
    requires Stands(s, [], before + [InFlight(BUILD_X)], [Module(1, status)])
    ensures Stands(s', [], before, [Module(1, Built)])
  {
    ReachableWellFormed(COLLIDING, s);
    assert s.background == before + [InFlight(BUILD_X)] + [];
    var ran := Ran(s, before, BUILD_X, []);
    s' := Collected(ran, before, [], []);
    assert before + [] == before;
  }

  /** Two schedules of one world end with different modules: neither holds what is needed. */
  lemma CollisionDependsOnSchedule() returns (s: System, other: System)
    ensures Reachable(COLLIDING, s) && Quiescent(s) && Reachable(COLLIDING, other) && Quiescent(other)
    ensures HasNode(s.make, Resolved(1)) && !HasNode(s.make, Unresolved(1))
    ensures HasNode(other.make, Unresolved(1)) && !HasNode(other.make, Resolved(1))
  {
    var added := FirstAdded();
    assert added.background == [InFlight(EntryTask(COLLIDING, 1))] + [InFlight(BUILD_X)];
    s := SecondAdded(added, [InFlight(BUILD_X)], Building);
    s := BuildEnds(s, [], Missing);
    assert NodeOf(s.make.graph.modules[0]) == Resolved(1);
    other := BuildEnds(added, [InFlight(EntryTask(COLLIDING, 1))], Building);
    other := SecondAdded(other, [], Built);
    assert NodeOf(other.make.graph.modules[0]) == Unresolved(1);
  }
}
