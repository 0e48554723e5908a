/** Over every schedule, and at its end: the graph is the reachable one, built once, connected exactly. */
module MakeQuiescence {
  import opened Options
  import opened BuildingGraphs
  import opened MakePhases
  import opened MakeStates
  import opened MakeSchedules
  import opened MakeSafety

  // ---- the invariant of the system ----

  function Left(s: System, token: Token): nat {
    Total(token, s.main) + Total(token, Flat(s.background))
  }

  ghost predicate TasksOk(w: World, m: Make, s: System) {
    AllOk(w, m, s.main) && AllOk(w, m, Flat(s.background))
  }

  ghost predicate AllBalanced(w: World, s: System) {
    forall token :: Balanced(w, s.make, token, Left(s, token))
  }

  ghost predicate Inv(w: World, s: System) {
    MakeOk(w, s.make) && TasksOk(w, s.make, s) && AllBalanced(w, s)
  }

  lemma {:induction false} ScheduleKeeps(w: World, s: System, children: seq<Task>, token: Token)
    requires TasksOk(w, s.make, s) && AllOk(w, s.make, children)
    ensures var after := Schedule(s, children);
            && after.make == s.make && TasksOk(w, s.make, after)
            && Left(after, token) == Left(s, token) + Total(token, children)
    decreases |children|
  {
    if children != [] {
      var one := if children[0].IsBackground() then s.(background := s.background + [InFlight(children[0])])
                 else s.(main := s.main + [children[0]]);
      ScheduleOne(w, s, children[0], one, token);
      ScheduleKeeps(w, one, children[1..], token);
    }
  }

  lemma ScheduleOne(w: World, s: System, child: Task, one: System, token: Token)
    requires TasksOk(w, s.make, s) && TaskOk(w, s.make, child)
    requires one == if child.IsBackground() then s.(background := s.background + [InFlight(child)])
                    else s.(main := s.main + [child])
    ensures TasksOk(w, s.make, one) && Left(one, token) == Left(s, token) + Weight(token, child)
  {
    assert [child][1..] == [] && Total(token, [child]) == Weight(token, child);
    if child.IsBackground() {
      FlatConcat(s.background, [InFlight(child)]);
      assert [InFlight(child)][1..] == [] && Flat([InFlight(child)]) == [child];
      TotalConcat(token, Flat(s.background), [child]);
    } else {
      TotalConcat(token, s.main, [child]);
    }
  }

  /** The outstanding tasks split at one background task. */
  lemma SplitBackground(background: seq<Running>, i: nat, r: Running)
    requires i < |background|
    ensures Flat(background) == Flat(background[..i]) + Outstanding(background[i]) + Flat(background[i + 1..])
    ensures Flat(background[i := r]) == Flat(background[..i]) + Outstanding(r) + Flat(background[i + 1..])
    ensures Flat(background[..i] + background[i + 1..]) == Flat(background[..i]) + Flat(background[i + 1..])
  {
    SplitAt(background, i);
    SplitAt(background[i := r], i);
    assert background[i := r][..i] == background[..i] && background[i := r][i + 1..] == background[i + 1..];
    FlatConcat(background[..i], background[i + 1..]);
  }

  lemma SplitAt(background: seq<Running>, i: nat)
    requires i < |background|
    ensures Flat(background) == Flat(background[..i]) + Outstanding(background[i]) + Flat(background[i + 1..])
  {
    assert background == background[..i] + background[i..];
    FlatConcat(background[..i], background[i..]);
    assert background[i..][1..] == background[i + 1..];
  }

  lemma TotalOfThree(token: Token, a: seq<Task>, b: seq<Task>, c: seq<Task>)
    ensures Total(token, a + b + c) == Total(token, a) + Total(token, b) + Total(token, c)
  {
    TotalConcat(token, a + b, c);
    TotalConcat(token, a, b);
  }

  /** A build task is outstanding only while its module is building. */
  lemma BuildIsDue(w: World, s: System, t: Task, rest: nat)
    requires t.Build? && Balanced(w, s.make, BuildOf(t.handle), 1 + rest)
    ensures t.handle < |s.make.graph.modules| && s.make.graph.modules[t.handle].status == Building
  {
  }

  lemma TasksStayOk(w: World, m: Make, after: Make, tasks: seq<Task>)
    requires AllOk(w, m, tasks) && Extends(m, after)
    ensures AllOk(w, after, tasks)
  {
    forall t | t in tasks ensures TaskOk(w, after, t) { TaskStaysOk(w, m, after, t); }
  }

  /** One task of an invariant state runs: its effect, and the balance of what is left beside it. */
  lemma RunOne(w: World, s: System, t: Task, token: Token, rest: nat, buildRest: nat)
    requires Separate(w) && Inv(w, s) && TaskOk(w, s.make, t)
    requires Left(s, token) == Weight(token, t) + rest
    requires t.Build? ==> Left(s, BuildOf(t.handle)) == 1 + buildRest
    ensures Runnable(s.make, t) && Kept(w, s.make, RunTask(w, s.make, t))
    ensures Balanced(w, RunTask(w, s.make, t).make, token, Total(token, RunTask(w, s.make, t).children) + rest)
  {
    assert Balanced(w, s.make, token, Left(s, token));
    if t.Build? {
      assert Balanced(w, s.make, BuildOf(t.handle), Left(s, BuildOf(t.handle)));
      BuildIsDue(w, s, t, buildRest);
    }
    RunKeeps(w, s.make, t);
    RunBalanced(w, s.make, t, token, rest);
  }

  lemma RunMainBalanced(w: World, s: System, token: Token)
    requires Separate(w) && Inv(w, s) && s.main != []
    ensures Runnable(s.make, s.main[0]) && Kept(w, s.make, RunTask(w, s.make, s.main[0]))
    ensures var e := RunTask(w, s.make, s.main[0]);
            Balanced(w, e.make, token, Total(token, e.children) + Left(s.(main := s.main[1..]), token))
  {
    var t := s.main[0];
    var rest := s.(main := s.main[1..]);
    RunOne(w, s, t, token, Left(rest, token), Left(rest, if t.Build? then BuildOf(t.handle) else token));
  }

  lemma RunMainInv(w: World, s: System)
    requires Separate(w) && Inv(w, s) && s.main != []
    ensures Apply(w, s, RunMain).Some? && Inv(w, Apply(w, s, RunMain).value)
  {
    RunMainBalanced(w, s, BuildOf(0));
    var e := RunTask(w, s.make, s.main[0]);
    var rest := s.(main := s.main[1..], make := e.make);
    TasksStayOk(w, s.make, e.make, rest.main);
    TasksStayOk(w, s.make, e.make, Flat(rest.background));
    forall token ensures Balanced(w, e.make, token, Left(Schedule(rest, e.children), token)) {
      RunMainBalanced(w, s, token);
      ScheduleKeeps(w, rest, e.children, token);
    }
    ScheduleKeeps(w, rest, e.children, BuildOf(0));
  }

  lemma LeftAround(s: System, i: nat, token: Token)
    requires i < |s.background|
    ensures Left(s, token) == Total(token, Outstanding(s.background[i])) + LeftBeside(s, i, token)
  {
    SplitBackground(s.background, i, s.background[i]);
    TotalOfThree(token, Flat(s.background[..i]), Outstanding(s.background[i]), Flat(s.background[i + 1..]));
  }

  /** What is outstanding beside one background task. */
  function LeftBeside(s: System, i: nat, token: Token): nat
    requires i < |s.background|
  {
    Total(token, s.main) + Total(token, Flat(s.background[..i])) + Total(token, Flat(s.background[i + 1..]))
  }

  lemma RunBackgroundBalanced(w: World, s: System, i: nat, token: Token)
    requires Separate(w) && Inv(w, s) && i < |s.background| && s.background[i].InFlight?
    ensures var t := s.background[i].task;
            && Runnable(s.make, t) && Kept(w, s.make, RunTask(w, s.make, t))
            && var e := RunTask(w, s.make, t);
               Balanced(w, e.make, token, Total(token, e.children) + LeftBeside(s, i, token))
  {
    var t := s.background[i].task;
    var other := if t.Build? then BuildOf(t.handle) else token;
    assert Outstanding(s.background[i]) == [t] && [t][1..] == [];
    LeftAround(s, i, token);
    LeftAround(s, i, other);
    SplitBackground(s.background, i, s.background[i]);
    assert t in Flat(s.background);
    RunOne(w, s, t, token, LeftBeside(s, i, token), LeftBeside(s, i, other));
  }

  lemma ReplacedOk(w: World, m: Make, s: System, i: nat, r: Running)
    requires TasksOk(w, m, s) && i < |s.background| && AllOk(w, m, Outstanding(r))
    ensures TasksOk(w, m, s.(background := s.background[i := r]))
  {
    SplitBackground(s.background, i, r);
  }

  lemma RunBackgroundInv(w: World, s: System, i: nat)
    requires Separate(w) && Inv(w, s) && i < |s.background| && s.background[i].InFlight?
    ensures Apply(w, s, RunBackground(i)).Some? && Inv(w, Apply(w, s, RunBackground(i)).value)
  {
    RunBackgroundBalanced(w, s, i, BuildOf(0));
    var e := RunTask(w, s.make, s.background[i].task);
    var after := s.(make := e.make, background := s.background[i := Finished(e.children)]);
    forall token ensures Balanced(w, e.make, token, Left(after, token)) {
      RunBackgroundBalanced(w, s, i, token);
      LeftAround(after, i, token);
      assert after.background[..i] == s.background[..i] && after.background[i + 1..] == s.background[i + 1..];
    }
    TasksStayOk(w, s.make, e.make, s.main);
    TasksStayOk(w, s.make, e.make, Flat(s.background));
    ReplacedOk(w, e.make, s, i, Finished(e.children));
  }

  lemma CollectOk(w: World, s: System, i: nat, token: Token)
    requires TasksOk(w, s.make, s) && i < |s.background| && s.background[i].Finished?
    ensures var rest := s.(background := s.background[..i] + s.background[i + 1..]);
            && TasksOk(w, s.make, rest) && AllOk(w, s.make, s.background[i].children)
            && Left(s, token) == Left(rest, token) + Total(token, s.background[i].children)
  {
    LeftAround(s, i, token);
    SplitBackground(s.background, i, s.background[i]);
    TotalConcat(token, Flat(s.background[..i]), Flat(s.background[i + 1..]));
  }

  lemma CollectInv(w: World, s: System, i: nat)
    requires Inv(w, s) && s.main == [] && i < |s.background| && s.background[i].Finished?
    ensures Apply(w, s, Collect(i)).Some? && Inv(w, Apply(w, s, Collect(i)).value)
  {
    var children := s.background[i].children;
    var rest := s.(background := s.background[..i] + s.background[i + 1..]);
    forall token ensures Balanced(w, s.make, token, Left(Schedule(rest, children), token)) {
      CollectOk(w, s, i, token);
      ScheduleKeeps(w, rest, children, token);
      assert Balanced(w, s.make, token, Left(s, token));
    }
    CollectOk(w, s, i, BuildOf(0));
    ScheduleKeeps(w, rest, children, BuildOf(0));
  }

  lemma StepInv(w: World, s: System, act: Act)
    requires Separate(w) && Inv(w, s) && Apply(w, s, act).Some?
    ensures Inv(w, Apply(w, s, act).value)
  {
    match act
    case RunMain => RunMainInv(w, s);
    case RunBackground(i) => RunBackgroundInv(w, s, i);
    case Collect(i) => CollectInv(w, s, i);
  }

  // ---- the start ----

  lemma {:induction false} EntryTasksOk(w: World, m: Make, n: nat, token: Token)
    requires n <= |w.entries|
    ensures AllOk(w, m, EntryTasks(w, n))
    ensures Total(token, EntryTasks(w, n)) == if token.EntryOf? && token.index < n then 1 else 0
  {
    if n > 0 {
      EntryTasksOk(w, m, n - 1, token);
      var t := EntryTask(w, n - 1);
      TotalConcat(token, EntryTasks(w, n - 1), [t]);
      assert [t][1..] == [] && t.dependencies[..0] == [];
      assert Count(token, None, t.dependencies) == if Matches(token, None, t.dependencies[0]) then 1 else 0;
    }
  }

  lemma StartInv(w: World)
    ensures Inv(w, Start(w))
  {
    var empty := System(Make(Storage([], [], [], [], []), map[], {}, map[], 0), [], []);
    forall token ensures Balanced(w, empty.make, token, Left(Start(w), token)) {
      EntryTasksOk(w, empty.make, |w.entries|, token);
      ScheduleKeeps(w, empty, EntryTasks(w, |w.entries|), token);
    }
    EntryTasksOk(w, empty.make, |w.entries|, BuildOf(0));
    ScheduleKeeps(w, empty, EntryTasks(w, |w.entries|), BuildOf(0));
  }

  lemma {:induction false} PlayInv(w: World, s: System, acts: seq<Act>)
    requires Separate(w) && Inv(w, s) && Play(w, s, acts).Some?
    ensures Inv(w, Play(w, s, acts).value)
    decreases |acts|
  {
    if acts != [] {
      StepInv(w, s, acts[0]);
      PlayInv(w, Apply(w, s, acts[0]).value, acts[1..]);
    }
  }

  ghost predicate Reachable(w: World, s: System) {
    exists acts :: Play(w, Start(w), acts) == Some(s)
  }

  lemma ReachableInv(w: World, s: System)
    requires Separate(w) && Reachable(w, s)
    ensures Inv(w, s)
  {
    var acts :| Play(w, Start(w), acts) == Some(s);
    StartInv(w);
    PlayInv(w, Start(w), acts);
  }

  // ---- at every moment ----

  /** A schedule never gets stuck: unless everything is done, some step can be taken. */
  lemma NeverStuck(w: World, s: System)
    requires Separate(w) && Reachable(w, s)
    ensures Quiescent(s) || exists act :: Apply(w, s, act).Some?
  {
    ReachableInv(w, s);
    if s.main != [] {
      RunMainInv(w, s);
    } else if s.background != [] {
      if s.background[0].InFlight? { RunBackgroundInv(w, s, 0); } else { CollectInv(w, s, 0); }
    }
  }

  /** No module has two handles, two outstanding builds, or a build after it was built. */
  lemma BuiltOnce(w: World, s: System, h: nat)
    requires Separate(w) && Reachable(w, s) && h < |s.make.graph.modules|
    ensures forall k: nat | k < |s.make.graph.modules| && k != h ::
              s.make.graph.modules[k].identity != s.make.graph.modules[h].identity
    ensures Left(s, BuildOf(h)) == if s.make.graph.modules[h].status == Building then 1 else 0
  {
    ReachableInv(w, s);
    assert Balanced(w, s.make, BuildOf(h), Left(s, BuildOf(h)));
    forall k: nat | k < |s.make.graph.modules| && k != h
      ensures s.make.graph.modules[k].identity != s.make.graph.modules[h].identity
    {
      assert s.make.byIdentity[s.make.graph.modules[k].identity] == k;
      assert s.make.byIdentity[s.make.graph.modules[h].identity] == h;
    }
  }

  /** Whatever was added is needed, and whatever is connected is connected to the right module. */
  lemma AlwaysSound(w: World, s: System)
    requires Separate(w) && Reachable(w, s)
    ensures Indexed(s.make.graph) && NodesNeeded(w, s.make) && ConnectionsOk(w, s.make)
  {
    ReachableInv(w, s);
  }

  // ---- at quiescence ----

  ghost predicate HasNode(m: Make, node: Resolution) {
    exists h: nat :: h < |m.graph.modules| && NodeOf(m.graph.modules[h]) == node
  }

  lemma {:induction false} CountAtPositive(connections: seq<Connection>, m: nat, at: Location)
    ensures CountAt(connections, m, at) > 0 <==> exists c: nat :: c < |connections| && connections[c].StandsAt(m, at)
    ensures CountAt(connections, m, at) <= 1 ==>
              forall i: nat, j: nat | i < j < |connections| :: !(connections[i].StandsAt(m, at) && connections[j].StandsAt(m, at))
    decreases |connections|
  {
    if connections != [] {
      var n := |connections| - 1;
      CountAtPositive(connections[..n], m, at);
      if CountAt(connections[..n], m, at) > 0 {
        var c: nat :| c < n && connections[..n][c].StandsAt(m, at);
        assert connections[c].StandsAt(m, at);
      }
      forall i: nat | i < n && connections[i].StandsAt(m, at) ensures CountAt(connections[..n], m, at) > 0 {
        assert connections[..n][i].StandsAt(m, at);
      }
      assert forall i: nat | i < n :: connections[..n][i] == connections[i];
    }
  }

  lemma QuiescentBalance(w: World, s: System, token: Token)
    requires Inv(w, s) && Quiescent(s)
    ensures Done(s.make, token) == Due(w, s.make, token)
  {
    assert Balanced(w, s.make, token, Left(s, token));
  }

  /** At quiescence a module is built exactly when its identity resolved and its source parses. */
  lemma QuiescentBuilt(w: World, s: System, h: nat)
    requires Inv(w, s) && Quiescent(s) && h < |s.make.graph.modules|
    ensures NodeOf(s.make.graph.modules[h]).Resolved? && w.parse(s.make.graph.modules[h].identity).Some?
            ==> IsBuilt(w, s.make, h)
    ensures s.make.graph.modules[h].status != Building
  {
    QuiescentBalance(w, s, BuildOf(h));
    assert StatusOk(w, s.make.graph.modules[h]);
  }

  /** Where a module dependency stands, the location index leads to the module its request resolves to. */
  lemma SpotConnected(w: World, s: System, h: nat, at: Location)
    requires Inv(w, s) && Quiescent(s) && IsBuilt(w, s.make, h) && HasRequestAt(ContentOf(w, s.make, h), at)
    ensures CountAt(s.make.graph.connections, h, at) == 1
    ensures var g := s.make.graph;
            var request := ContentOf(w, s.make, h).At(at).value.request.value;
            && at in g.byLocation[h] && g.byLocation[h][at] < |g.connections|
            && var c := g.connections[g.byLocation[h][at]];
               && c.StandsAt(h, at) && c.target < |g.modules|
               && NodeOf(g.modules[c.target]) == w.resolve(Some(g.modules[h].identity), request)
  {
    var g := s.make.graph;
    QuiescentBalance(w, s, Spot(h, at));
    CountAtPositive(g.connections, h, at);
    var c: nat :| c < |g.connections| && g.connections[c].StandsAt(h, at);
    assert at in g.byLocation[h];
    var found := g.connections[g.byLocation[h][at]];
    assert found in g.connections && ConnectionOk(w, s.make, found);
  }

  lemma QuiescentClosed(w: World, s: System, node: Resolution, next: Resolution)
    requires Inv(w, s) && Quiescent(s) && HasNode(s.make, node) && Edge(w, node, next)
    ensures HasNode(s.make, next)
  {
    var h: nat :| h < |s.make.graph.modules| && NodeOf(s.make.graph.modules[h]) == node;
    QuiescentBuilt(w, s, h);
    var at: Location :| LeadsTo(w, node.identity, at, next);
    SpotConnected(w, s, h, at);
  }

  /** The modules are exactly the ones reachable from the entries, none of them still building. */
  lemma ModulesAreReachable(w: World, s: System, node: Resolution)
    requires Separate(w) && Reachable(w, s) && Quiescent(s)
    ensures Needed(w, node) <==> HasNode(s.make, node)
    ensures s.make.building == {}
  {
    ReachableInv(w, s);
    forall h: nat ensures h !in s.make.building {
      if h < |s.make.graph.modules| { QuiescentBuilt(w, s, h); }
    }
    if Needed(w, node) { NeededHasNode(w, s, node); }
  }

  lemma NeededHasNode(w: World, s: System, node: Resolution)
    requires Inv(w, s) && Quiescent(s) && Needed(w, node)
    ensures HasNode(s.make, node)
  {
    var walk: seq<Resolution> :| IsWalk(w, walk) && walk[|walk| - 1] == node;
    var closed := iset n | HasNode(s.make, n);
    forall i: nat | i < |w.entries| ensures w.resolve(None, w.entries[i]) in closed {
      EntriesResolved(w, s, i);
    }
    forall n, next | n in closed && Edge(w, n, next) ensures next in closed {
      QuiescentClosed(w, s, n, next);
    }
    ClosedHoldsWalk(w, closed, walk);
  }

  /** Every entry has its module. */
  lemma EntriesResolved(w: World, s: System, i: nat)
    requires Inv(w, s) && Quiescent(s) && i < |w.entries|
    ensures i in s.make.entries && s.make.entries[i] < |s.make.graph.modules|
    ensures NodeOf(s.make.graph.modules[s.make.entries[i]]) == w.resolve(None, w.entries[i])
  {
    QuiescentBalance(w, s, EntryOf(i));
    assert EntryOk(w, s.make, i);
  }

  /**
   * Every module dependency of every built module has exactly one connection, nothing else in a
   * module has one, and all three indexes agree with the connections.
   */
  lemma ConnectionsAreExact(w: World, s: System, h: nat, at: Location)
    requires Separate(w) && Reachable(w, s) && Quiescent(s)
    ensures Indexed(s.make.graph) && ConnectionsOk(w, s.make)
    ensures CountAt(s.make.graph.connections, h, at) ==
            if IsBuilt(w, s.make, h) && HasRequestAt(ContentOf(w, s.make, h), at) then 1 else 0
    ensures h < |s.make.graph.modules| ==>
              (at in s.make.graph.byLocation[h] <==> IsBuilt(w, s.make, h) && HasRequestAt(ContentOf(w, s.make, h), at))
  {
    ReachableInv(w, s);
    QuiescentBalance(w, s, Spot(h, at));
    CountAtPositive(s.make.graph.connections, h, at);
  }

  /** The module that a dependency standing at a place is connected to, by the location index. */
  function ConnectedAt(g: Storage, h: nat, at: Location): Option<Resolution> {
    if h < |g.byLocation| && at in g.byLocation[h] && g.byLocation[h][at] < |g.connections|
       && g.connections[g.byLocation[h][at]].target < |g.modules|
    then Some(NodeOf(g.modules[g.connections[g.byLocation[h][at]].target]))
    else None
  }

  /** Looking a dependency up gives what its request resolves to in the context of its module. */
  lemma LookupIsResolution(w: World, s: System, h: nat, at: Location)
    requires Separate(w) && Reachable(w, s) && Quiescent(s)
    ensures ConnectedAt(s.make.graph, h, at) ==
            if IsBuilt(w, s.make, h) && HasRequestAt(ContentOf(w, s.make, h), at)
            then Some(w.resolve(Some(s.make.graph.modules[h].identity), ContentOf(w, s.make, h).At(at).value.request.value))
            else None
  {
    ReachableInv(w, s);
    if IsBuilt(w, s.make, h) && HasRequestAt(ContentOf(w, s.make, h), at) {
      SpotConnected(w, s, h, at);
    } else if h < |s.make.graph.modules| {
      ConnectionsAreExact(w, s, h, at);
    }
  }

  /** Two schedules end with the same modules. */
  lemma SchedulesBuildTheSame(w: World, s: System, other: System)
    requires Separate(w) && Reachable(w, s) && Quiescent(s) && Reachable(w, other) && Quiescent(other)
    ensures forall node :: HasNode(s.make, node) <==> HasNode(other.make, node)
  {
    forall node ensures HasNode(s.make, node) <==> HasNode(other.make, node) {
      ModulesAreReachable(w, s, node);
      ModulesAreReachable(w, other, node);
    }
  }

  /** Two schedules connect each dependency of a module to the same module, whatever the handles. */
  lemma SchedulesConnectTheSame(w: World, s: System, other: System, h: nat, k: nat, at: Location)
    requires Separate(w) && Reachable(w, s) && Quiescent(s) && Reachable(w, other) && Quiescent(other)
    requires h < |s.make.graph.modules| && k < |other.make.graph.modules|
    requires s.make.graph.modules[h].identity == other.make.graph.modules[k].identity
    ensures ConnectedAt(s.make.graph, h, at) == ConnectedAt(other.make.graph, k, at)
  {
    SameModuleBuilt(w, s, other, h, k);
    LookupIsResolution(w, s, h, at);
    LookupIsResolution(w, other, k, at);
  }

  lemma SameModuleBuilt(w: World, s: System, other: System, h: nat, k: nat)
    requires Separate(w) && Reachable(w, s) && Quiescent(s) && Reachable(w, other) && Quiescent(other)
    requires h < |s.make.graph.modules| && k < |other.make.graph.modules|
    requires s.make.graph.modules[h].identity == other.make.graph.modules[k].identity
    ensures IsBuilt(w, s.make, h) <==> IsBuilt(w, other.make, k)
  {
    ReachableInv(w, s);
    ReachableInv(w, other);
    assert Needed(w, NodeOf(s.make.graph.modules[h])) && Needed(w, NodeOf(other.make.graph.modules[k]));
    QuiescentBuilt(w, s, h);
    QuiescentBuilt(w, other, k);
  }
}
