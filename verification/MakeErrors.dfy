/** The errors that the make phase reports: exactly the failures of what is needed, on any schedule. */
module MakeErrors {
  import opened Options
  import opened Sequences
  import opened BuildingGraphs
  import opened MakePhases
  import opened MakeStates
  import opened MakeSchedules
  import opened MakeSafety
  import opened MakeQuiescence

  // ---- what there is to report ----

  function One(fails: bool): nat {
    if fails then 1 else 0
  }

  /** One error for each request that does not resolve. */
  function Failing(w: World, context: Option<Identity>, groups: seq<Group>): nat {
    if groups == [] then 0
    else One(w.resolve(context, groups[0].request).Unresolved?) + Failing(w, context, groups[1..])
  }

  /** A source that does not parse is one error; in one that does, each request is reported once. */
  function NodeErrors(w: World, node: Resolution): nat {
    match node
    case Unresolved(_) => 0
    case Resolved(identity) =>
      match w.parse(identity)
      case None => 1
      case Some(content) => Failing(w, Some(identity), Grouped(QueuedOf(content)))
  }

  function EntryErrors(w: World, n: nat): nat
    requires n <= |w.entries|
  {
    if n == 0 then 0 else EntryErrors(w, n - 1) + One(w.resolve(None, w.entries[n - 1]).Unresolved?)
  }

  // ---- what the tasks still owe ----

  function Owed(w: World, t: Task): nat {
    match t
    case Factorize(_, context, dependencies) =>
      if dependencies == [] || dependencies[0].dependency.request.None? then 0
      else One(w.resolve(context, dependencies[0].dependency.request.value).Unresolved?)
    case Add(_, _, resolution) => One(resolution.Unresolved?)
    case Build(_, _) => 0
    case Process(_, within, dependencies) => Failing(w, Some(within), Grouped(dependencies))
  }

  function OwedBy(w: World, tasks: seq<Task>): nat {
    if tasks == [] then 0 else Owed(w, tasks[0]) + OwedBy(w, tasks[1..])
  }

  lemma {:induction false} OwedConcat(w: World, a: seq<Task>, b: seq<Task>)
    ensures OwedBy(w, a + b) == OwedBy(w, a) + OwedBy(w, b)
  {
    if a == [] {
      assert a + b == b;
    } else {
      assert (a + b)[1..] == a[1..] + b;
      OwedConcat(w, a[1..], b);
    }
  }

  lemma OwedOne(w: World, t: Task)
    ensures OwedBy(w, [t]) == Owed(w, t)
  {
    assert [t][1..] == [];
  }

  function OwedLeft(w: World, s: System): nat {
    OwedBy(w, s.main) + OwedBy(w, Flat(s.background))
  }

  lemma {:induction false} ScheduleOwes(w: World, s: System, children: seq<Task>)
    ensures var after := Schedule(s, children);
            after.make == s.make && OwedLeft(w, after) == OwedLeft(w, s) + OwedBy(w, children)
    decreases |children|
  {
    if children != [] {
      var child := children[0];
      OwedOne(w, child);
      if child.IsBackground() {
        FlatConcat(s.background, [InFlight(child)]);
        assert [InFlight(child)][1..] == [] && Flat([InFlight(child)]) == [child];
        OwedConcat(w, Flat(s.background), [child]);
        ScheduleOwes(w, s.(background := s.background + [InFlight(child)]), children[1..]);
      } else {
        OwedConcat(w, s.main, [child]);
        ScheduleOwes(w, s.(main := s.main + [child]), children[1..]);
      }
    }
  }

  lemma OwedAround(w: World, background: seq<Running>, i: nat, r: Running)
    requires i < |background|
    ensures var beside := OwedBy(w, Flat(background[..i] + background[i + 1..]));
            && OwedBy(w, Flat(background)) == beside + OwedBy(w, Outstanding(background[i]))
            && OwedBy(w, Flat(background[i := r])) == beside + OwedBy(w, Outstanding(r))
  {
    SplitBackground(background, i, r);
    var before, behind := Flat(background[..i]), Flat(background[i + 1..]);
    OwedConcat(w, before, behind);
    OwedConcat(w, before + Outstanding(background[i]), behind);
    OwedConcat(w, before, Outstanding(background[i]));
    OwedConcat(w, before + Outstanding(r), behind);
    OwedConcat(w, before, Outstanding(r));
  }

  // ---- what the modules so far account for ----

  function ModuleErrors(w: World, m: Module): nat {
    if m.status == Built || m.status == Broken then NodeErrors(w, Resolved(m.identity)) else 0
  }

  function ErrorsIn(w: World, modules: seq<Module>): nat {
    if modules == [] then 0
    else ErrorsIn(w, modules[..|modules| - 1]) + ModuleErrors(w, modules[|modules| - 1])
  }

  lemma ErrorsInSnoc(w: World, modules: seq<Module>, m: Module)
    ensures ErrorsIn(w, modules + [m]) == ErrorsIn(w, modules) + ModuleErrors(w, m)
  {
    assert (modules + [m])[..|modules|] == modules;
  }

  lemma {:induction false} ErrorsInUpdate(w: World, modules: seq<Module>, h: nat, m: Module)
    requires h < |modules|
    ensures ErrorsIn(w, modules[h := m]) + ModuleErrors(w, modules[h]) == ErrorsIn(w, modules) + ModuleErrors(w, m)
    decreases |modules|
  {
    var n := |modules| - 1;
    if h < n {
      ErrorsInUpdate(w, modules[..n], h, m);
      assert modules[h := m][..n] == modules[..n][h := m];
    } else {
      assert modules[h := m][..n] == modules[..n];
    }
  }

  /** Every error there is to report has been reported, or is owed by an outstanding task. */
  ghost predicate Accounted(w: World, s: System) {
    s.make.errors + OwedLeft(w, s) == ErrorsIn(w, s.make.graph.modules) + EntryErrors(w, |w.entries|)
  }

  // ---- one task ----

  lemma {:induction false} ProcessOwes(w: World, from: nat, within: Identity, groups: seq<Group>, dependencies: seq<Queued>)
    requires forall g | g in groups :: GroupOk(g, dependencies)
    ensures OwedBy(w, FactorizeAll(from, within, groups)) == Failing(w, Some(within), groups)
  {
    if groups != [] {
      assert GroupOk(groups[0], dependencies);
      assert groups[0].dependencies[0] in groups[0].dependencies;
      ProcessOwes(w, from, within, groups[1..], dependencies);
    }
  }

  lemma AddReports(w: World, m: Make, t: Task)
    requires WellFormed(m) && t.Add? && OriginInGraph(m.graph, t.origin)
    ensures var e := RunAdd(m, t.origin, t.dependencies, t.resolution);
            e.make.errors == m.errors + Owed(w, t) && OwedBy(w, e.children) == 0
  {
    var identity := t.resolution.identity;
    var placed := Place(m, identity);
    PlaceWellFormed(m, identity);
    ConnectAllEffect(placed, t.origin, t.dependencies, HandleOf(placed, identity));
    assert placed.errors == m.errors;
    OwedOne(w, Build(HandleOf(placed, identity), identity));
  }

  lemma LandedAccounts(w: World, m: Make, after: Make, t: Task, handle: nat)
    requires t.Add? && Landed(m, after, t.origin, t.dependencies, t.resolution, handle)
    ensures ErrorsIn(w, after.graph.modules) == ErrorsIn(w, m.graph.modules)
  {
    ErrorsInSnoc(w, m.graph.modules, Module(t.resolution.identity, if t.resolution.Resolved? then Building else Missing));
  }

  lemma AddErrors(w: World, m: Make, t: Task)
    requires Separate(w) && MakeOk(w, m) && TaskOk(w, m, t) && t.Add?
    ensures var e := RunAdd(m, t.origin, t.dependencies, t.resolution);
            && e.make.errors == m.errors + Owed(w, t) && OwedBy(w, e.children) == 0
            && ErrorsIn(w, e.make.graph.modules) == ErrorsIn(w, m.graph.modules)
  {
    AddNeeded(w, m, t.origin, t.dependencies, t.resolution);
    AddLands(w, m, t.origin, t.dependencies, t.resolution);
    AddReports(w, m, t);
    LandedAccounts(w, m, RunAdd(m, t.origin, t.dependencies, t.resolution).make, t, TargetOf(m, t.resolution.identity));
  }

  lemma EndAccounts(w: World, m: Make, handle: nat, status: Status)
    requires handle < |m.graph.modules| && m.graph.modules[handle].status == Building
    requires status == Built || status == Broken
    ensures ErrorsIn(w, EndBuild(m, handle, status).graph.modules)
         == ErrorsIn(w, m.graph.modules) + NodeErrors(w, Resolved(m.graph.modules[handle].identity))
  {
    ErrorsInUpdate(w, m.graph.modules, handle, m.graph.modules[handle].(status := status));
  }

  lemma BuildErrors(w: World, m: Make, handle: nat)
    requires handle < |m.graph.modules| && m.graph.modules[handle].status == Building
    ensures var e := RunBuild(w, m, handle, m.graph.modules[handle].identity);
            e.make.errors + OwedBy(w, e.children) + ErrorsIn(w, m.graph.modules)
            == m.errors + ErrorsIn(w, e.make.graph.modules)
  {
    var identity := m.graph.modules[handle].identity;
    var content := w.parse(identity);
    EndAccounts(w, m, handle, if content.None? then Broken else Built);
    if content.Some? { OwedOne(w, Process(handle, identity, QueuedOf(content.value))); }
  }

  /** What a task owes is reported by it, or passes to the modules it ends and to its children. */
  lemma TaskErrors(w: World, m: Make, t: Task)
    requires Separate(w) && MakeOk(w, m) && TaskOk(w, m, t) && Runnable(m, t)
    requires t.Build? ==> m.graph.modules[t.handle].status == Building
    ensures var e := RunTask(w, m, t);
            e.make.errors + OwedBy(w, e.children) + ErrorsIn(w, m.graph.modules)
            == m.errors + Owed(w, t) + ErrorsIn(w, e.make.graph.modules)
  {
    match t
    case Factorize(origin, context, dependencies) =>
      OwedOne(w, Add(origin, dependencies, w.resolve(context, dependencies[0].dependency.request.value)));
    case Add(_, _, _) => AddErrors(w, m, t);
    case Build(handle, _) => BuildErrors(w, m, handle);
    case Process(from, within, dependencies) =>
      GroupsOk(dependencies);
      ProcessOwes(w, from, within, Grouped(dependencies), dependencies);
  }

  // ---- every step ----

  /** The next task of the main queue is right, and builds only what is building. */
  lemma MainOk(w: World, s: System)
    requires Inv(w, s) && s.main != []
    ensures var t := s.main[0];
            TaskOk(w, s.make, t) && (t.Build? ==> s.make.graph.modules[t.handle].status == Building)
  {
    var t := s.main[0];
    if t.Build? {
      assert Balanced(w, s.make, BuildOf(t.handle), Left(s, BuildOf(t.handle)));
      BuildIsDue(w, s, t, Left(s.(main := s.main[1..]), BuildOf(t.handle)));
    }
  }

  lemma RunMainAccounted(w: World, s: System)
    requires Separate(w) && Inv(w, s) && Accounted(w, s) && Apply(w, s, RunMain).Some?
    ensures Accounted(w, Apply(w, s, RunMain).value)
  {
    MainOk(w, s);
    TaskErrors(w, s.make, s.main[0]);
    var e := RunTask(w, s.make, s.main[0]);
    ScheduleOwes(w, s.(make := e.make, main := s.main[1..]), e.children);
  }

  lemma RunBackgroundAccounted(w: World, s: System, i: nat)
    requires Separate(w) && Inv(w, s) && Accounted(w, s) && Apply(w, s, RunBackground(i)).Some?
    ensures Accounted(w, Apply(w, s, RunBackground(i)).value)
  {
    var t := s.background[i].task;
    OutstandingOk(w, s, i);
    TaskErrors(w, s.make, t);
    OwedOne(w, t);
    OwedAround(w, s.background, i, Finished(RunTask(w, s.make, t).children));
  }

  /** A background task is right, and builds only what is building. */
  lemma OutstandingOk(w: World, s: System, i: nat)
    requires Inv(w, s) && i < |s.background| && s.background[i].InFlight?
    ensures var t := s.background[i].task;
            TaskOk(w, s.make, t) && (t.Build? ==> s.make.graph.modules[t.handle].status == Building)
  {
    var t := s.background[i].task;
    assert Outstanding(s.background[i]) == [t] && [t][1..] == [];
    SplitBackground(s.background, i, s.background[i]);
    assert t in Flat(s.background);
    if t.Build? {
      LeftAround(s, i, BuildOf(t.handle));
      assert Balanced(w, s.make, BuildOf(t.handle), Left(s, BuildOf(t.handle)));
      BuildIsDue(w, s, t, LeftBeside(s, i, BuildOf(t.handle)));
    }
  }

  lemma CollectAccounted(w: World, s: System, i: nat)
    requires Accounted(w, s) && Apply(w, s, Collect(i)).Some?
    ensures Accounted(w, Apply(w, s, Collect(i)).value)
  {
    OwedAround(w, s.background, i, s.background[i]);
    ScheduleOwes(w, s.(background := s.background[..i] + s.background[i + 1..]), s.background[i].children);
  }

  lemma {:induction false} EntriesOwe(w: World, n: nat)
    requires n <= |w.entries|
    ensures OwedBy(w, EntryTasks(w, n)) == EntryErrors(w, n)
  {
    if n > 0 {
      EntriesOwe(w, n - 1);
      OwedConcat(w, EntryTasks(w, n - 1), [EntryTask(w, n - 1)]);
      OwedOne(w, EntryTask(w, n - 1));
    }
  }

  lemma StartAccounted(w: World)
    ensures Accounted(w, Start(w))
  {
    EntriesOwe(w, |w.entries|);
    ScheduleOwes(w, System(Make(Storage([], [], [], [], []), map[], {}, map[], 0), [], []), EntryTasks(w, |w.entries|));
  }

  lemma {:induction false} PlayAccounted(w: World, s: System, acts: seq<Act>)
    requires Separate(w) && Inv(w, s) && Accounted(w, s) && Play(w, s, acts).Some?
    ensures Accounted(w, Play(w, s, acts).value)
    decreases |acts|
  {
    if acts != [] {
      match acts[0] {
        case RunMain => RunMainAccounted(w, s);
        case RunBackground(i) => RunBackgroundAccounted(w, s, i);
        case Collect(i) => CollectAccounted(w, s, i);
      }
      StepInv(w, s, acts[0]);
      PlayAccounted(w, Apply(w, s, acts[0]).value, acts[1..]);
    }
  }

  lemma ReachableAccounted(w: World, s: System)
    requires Separate(w) && Reachable(w, s)
    ensures Inv(w, s) && Accounted(w, s)
  {
    var acts :| Play(w, Start(w), acts) == Some(s);
    StartInv(w);
    StartAccounted(w);
    PlayAccounted(w, Start(w), acts);
    ReachableInv(w, s);
  }

  // ---- what is reported in the end ----

  function Nodes(modules: seq<Module>): seq<Resolution> {
    seq(|modules|, h requires 0 <= h < |modules| => NodeOf(modules[h]))
  }

  /** The errors of several nodes together. */
  function NodesErrors(w: World, nodes: seq<Resolution>): nat {
    if nodes == [] then 0
    else NodesErrors(w, nodes[..|nodes| - 1]) + NodeErrors(w, nodes[|nodes| - 1])
  }

  lemma {:induction false} EndedErrors(w: World, modules: seq<Module>)
    requires forall m | m in modules :: ModuleErrors(w, m) == NodeErrors(w, NodeOf(m))
    ensures ErrorsIn(w, modules) == NodesErrors(w, Nodes(modules))
    decreases |modules|
  {
    if modules != [] {
      var n := |modules| - 1;
      EndedErrors(w, modules[..n]);
      assert Nodes(modules)[..n] == Nodes(modules[..n]);
    }
  }

  /** Once nothing is left to do: the errors of each module, and one for each entry that does not resolve. */
  lemma ErrorsAreExact(w: World, s: System)
    requires Separate(w) && Reachable(w, s) && Quiescent(s)
    ensures s.make.errors == NodesErrors(w, Nodes(s.make.graph.modules)) + EntryErrors(w, |w.entries|)
  {
    ReachableAccounted(w, s);
    forall m | m in s.make.graph.modules ensures ModuleErrors(w, m) == NodeErrors(w, NodeOf(m)) {
      var h: nat :| h < |s.make.graph.modules| && s.make.graph.modules[h] == m;
      QuiescentBuilt(w, s, h);
    }
    EndedErrors(w, s.make.graph.modules);
  }

  // ---- whatever the schedule ----

  lemma {:induction false} OneNodeOut(w: World, nodes: seq<Resolution>, k: nat)
    requires k < |nodes|
    ensures NodesErrors(w, nodes) == NodesErrors(w, nodes[..k] + nodes[k + 1..]) + NodeErrors(w, nodes[k])
    decreases |nodes|
  {
    var n := |nodes| - 1;
    if k == n {
      assert nodes[..k] + nodes[k + 1..] == nodes[..n];
    } else {
      OneNodeOut(w, nodes[..n], k);
      var rest := nodes[..k] + nodes[k + 1..];
      assert nodes[..n][k + 1..] == nodes[k + 1..n] && nodes[k + 1..] == nodes[k + 1..n] + [nodes[n]];
      assert rest == nodes[..k] + nodes[k + 1..n] + [nodes[n]];
      assert rest[..|rest| - 1] == nodes[..n][..k] + nodes[..n][k + 1..] && rest[|rest| - 1] == nodes[n];
    }
  }

  lemma {:induction false} SameNodesSameErrors(w: World, a: seq<Resolution>, b: seq<Resolution>)
    requires Distinct(a) && Distinct(b) && forall node :: node in a <==> node in b
    ensures NodesErrors(w, a) == NodesErrors(w, b)
    decreases |a|
  {
    if a == [] {
      if b != [] { HasSome(b); }
    } else {
      var n := |a| - 1;
      assert a[n] in b;
      var k: nat :| k < |b| && b[k] == a[n];
      var rest := b[..k] + b[k + 1..];
      forall node ensures node in a[..n] <==> node in rest { OthersIn(a, n, node); OthersIn(b, k, node); }
      SameNodesSameErrors(w, a[..n], rest);
      OneNodeOut(w, b, k);
    }
  }

  lemma HasSome(nodes: seq<Resolution>)
    requires nodes != []
    ensures exists node :: node in nodes
  {
    assert nodes[0] in nodes;
  }

  lemma OthersIn(nodes: seq<Resolution>, k: nat, node: Resolution)
    requires Distinct(nodes) && k < |nodes|
    ensures node in nodes[..k] + nodes[k + 1..] <==> node in nodes && node != nodes[k]
  {
    if node in nodes && node != nodes[k] {
      var i: nat :| i < |nodes| && nodes[i] == node;
      assert if i < k then node in nodes[..k] else node == nodes[k + 1..][i - k - 1];
    }
  }

  lemma NodesDistinct(m: Make)
    requires WellFormed(m)
    ensures Distinct(Nodes(m.graph.modules))
  {
    forall i: nat, j: nat | i < j < |m.graph.modules| ensures Nodes(m.graph.modules)[i] != Nodes(m.graph.modules)[j] {
      assert m.byIdentity[m.graph.modules[i].identity] == i && m.byIdentity[m.graph.modules[j].identity] == j;
    }
  }

  lemma NodesAre(m: Make, node: Resolution)
    ensures node in Nodes(m.graph.modules) <==> HasNode(m, node)
  {
    if HasNode(m, node) {
      var h: nat :| h < |m.graph.modules| && NodeOf(m.graph.modules[h]) == node;
      assert Nodes(m.graph.modules)[h] == node;
    }
  }

  /** Two schedules report the same number of errors. */
  lemma SchedulesReportTheSame(w: World, s: System, other: System)
    requires Separate(w) && Reachable(w, s) && Quiescent(s) && Reachable(w, other) && Quiescent(other)
    ensures s.make.errors == other.make.errors
  {
    ErrorsAreExact(w, s);
    ErrorsAreExact(w, other);
    SchedulesBuildTheSame(w, s, other);
    ReachableInv(w, s);
    ReachableInv(w, other);
    NodesDistinct(s.make);
    NodesDistinct(other.make);
    forall node ensures node in Nodes(s.make.graph.modules) <==> node in Nodes(other.make.graph.modules) {
      NodesAre(s.make, node);
      NodesAre(other.make, node);
    }
    SameNodesSameErrors(w, Nodes(s.make.graph.modules), Nodes(other.make.graph.modules));
  }

  // ---- nothing fails silently ----

  lemma {:induction false} FailingIff(w: World, context: Option<Identity>, groups: seq<Group>)
    ensures Failing(w, context, groups) > 0 <==> exists r :: HasGroup(groups, r) && w.resolve(context, r).Unresolved?
  {
    if groups != [] {
      FailingIff(w, context, groups[1..]);
      assert HasGroup(groups, groups[0].request);
      assert forall r :: HasGroup(groups, r) <==> r == groups[0].request || HasGroup(groups[1..], r);
    }
  }

  /** A module that parses has errors exactly if a request in it does not resolve. */
  lemma NodeErrorsIff(w: World, identity: Identity)
    requires w.parse(identity).Some?
    ensures NodeErrors(w, Resolved(identity)) > 0
            <==> exists next: Resolution :: next.Unresolved? && Edge(w, Resolved(identity), next)
  {
    var content := w.parse(identity).value;
    var queued := QueuedOf(content);
    FailingIff(w, Some(identity), Grouped(queued));
    if r :| HasGroup(Grouped(queued), r) && w.resolve(Some(identity), r).Unresolved? {
      GroupedExact(queued, r);
      QueuedStands(content);
      var d :| d in queued && d.dependency.request == Some(r);
      assert LeadsTo(w, identity, Location(d.block, d.index.value), w.resolve(Some(identity), r));
      assert Edge(w, Resolved(identity), w.resolve(Some(identity), r));
    }
    if next: Resolution :| next.Unresolved? && Edge(w, Resolved(identity), next) {
      var at: Location :| LeadsTo(w, identity, at, next);
      var r := PlaceQueued(content, at);
      GroupedExact(queued, r);
    }
  }

  /** A dependency that stands in a module is among those it queues. */
  lemma PlaceQueued(content: Content, at: Location) returns (r: string)
    requires HasRequestAt(content, at)
    ensures content.At(at).value.request == Some(r)
    ensures exists d :: d in QueuedOf(content) && d.dependency.request == Some(r)
  {
    r := content.At(at).value.request.value;
    QueuedOnce(content, 0, at);
    CountPositive(Spot(0, at), Some(0), QueuedOf(content));
    var d :| d in QueuedOf(content) && Matches(Spot(0, at), Some(0), d);
    QueuedStands(content);
  }

  lemma {:induction false} EntryErrorsIff(w: World, n: nat)
    requires n <= |w.entries|
    ensures EntryErrors(w, n) == 0 <==> forall i: nat | i < n :: w.resolve(None, w.entries[i]).Resolved?
  {
    if n > 0 { EntryErrorsIff(w, n - 1); }
  }

  lemma {:induction false} NodesErrorsIff(w: World, nodes: seq<Resolution>)
    ensures NodesErrors(w, nodes) == 0 <==> forall node | node in nodes :: NodeErrors(w, node) == 0
    decreases |nodes|
  {
    if nodes != [] {
      NodesErrorsIff(w, nodes[..|nodes| - 1]);
      assert forall node :: node in nodes <==> node in nodes[..|nodes| - 1] || node == nodes[|nodes| - 1];
    }
  }

  /** Resolved, and its source parses. */
  predicate Fine(w: World, node: Resolution) {
    node.Resolved? && w.parse(node.identity).Some?
  }

  /** No error is reported if and only if everything needed resolves and parses, on any schedule. */
  lemma SilentIff(w: World, s: System)
    requires Separate(w) && Reachable(w, s) && Quiescent(s)
    ensures s.make.errors == 0 <==> forall node | Needed(w, node) :: Fine(w, node)
  {
    ErrorsAreExact(w, s);
    EntryErrorsIff(w, |w.entries|);
    NodesErrorsIff(w, Nodes(s.make.graph.modules));
    if forall node | Needed(w, node) :: Fine(w, node) { FineIsSilent(w, s); }
    if s.make.errors == 0 {
      forall node | Needed(w, node) ensures Fine(w, node) { SilentIsFine(w, s, node); }
    }
  }

  lemma FineIsSilent(w: World, s: System)
    requires Separate(w) && Reachable(w, s) && Quiescent(s) && forall node | Needed(w, node) :: Fine(w, node)
    ensures forall i: nat | i < |w.entries| :: w.resolve(None, w.entries[i]).Resolved?
    ensures forall node | node in Nodes(s.make.graph.modules) :: NodeErrors(w, node) == 0
  {
    forall i: nat | i < |w.entries| ensures w.resolve(None, w.entries[i]).Resolved? { EntryNeeded(w, i); }
    forall node | node in Nodes(s.make.graph.modules) ensures NodeErrors(w, node) == 0 {
      NodesAre(s.make, node);
      ModulesAreReachable(w, s, node);
      NodeErrorsIff(w, node.identity);
      if next: Resolution :| next.Unresolved? && Edge(w, node, next) { EdgeNeeded(w, node, next); }
    }
  }

  lemma SilentIsFine(w: World, s: System, node: Resolution)
    requires Separate(w) && Reachable(w, s) && Quiescent(s) && Needed(w, node)
    requires forall i: nat | i < |w.entries| :: w.resolve(None, w.entries[i]).Resolved?
    requires forall n | n in Nodes(s.make.graph.modules) :: NodeErrors(w, n) == 0
    ensures Fine(w, node)
  {
    var walk: seq<Resolution> :| IsWalk(w, walk) && walk[|walk| - 1] == node;
    var closed := iset n | Needed(w, n) && Fine(w, n);
    forall i: nat | i < |w.entries| ensures w.resolve(None, w.entries[i]) in closed {
      EntryNeeded(w, i);
      ResolvedIsFine(w, s, w.resolve(None, w.entries[i]));
    }
    forall n, next | n in closed && Edge(w, n, next) ensures next in closed {
      EdgeNeeded(w, n, next);
      NodesAre(s.make, n);
      ModulesAreReachable(w, s, n);
      NodeErrorsIff(w, n.identity);
      ResolvedIsFine(w, s, next);
    }
    ClosedHoldsWalk(w, closed, walk);
  }

  lemma ResolvedIsFine(w: World, s: System, node: Resolution)
    requires Separate(w) && Reachable(w, s) && Quiescent(s) && Needed(w, node) && node.Resolved?
    requires forall n | n in Nodes(s.make.graph.modules) :: NodeErrors(w, n) == 0
    ensures Fine(w, node)
  {
    ModulesAreReachable(w, s, node);
    NodesAre(s.make, node);
  }
}
