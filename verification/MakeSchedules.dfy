/** The make phase under any schedule of its background tasks. */
module MakeSchedules {
  import opened Options
  import opened BuildingGraphs
  import opened MakePhases
  import opened MakeStates

  // ---- what a task does ----

  datatype Effect = Effect(make: Make, children: seq<Task>)

  function FactorizeAll(origin: nat, context: Identity, groups: seq<Group>): seq<Task> {
    if groups == [] then []
    else [Factorize(Some(origin), Some(context), groups[0].dependencies)] + FactorizeAll(origin, context, groups[1..])
  }

  ghost predicate Runnable(m: Make, t: Task) {
    && WellFormed(m)
    && match t
       case Factorize(_, _, dependencies) => dependencies != [] && dependencies[0].dependency.request.Some?
       case Add(origin, _, _) => OriginInGraph(m.graph, origin)
       case Build(handle, _) => handle < |m.graph.modules|
       case Process(_, _, _) => true
  }

  function RunAdd(m: Make, origin: Option<nat>, dependencies: seq<Queued>, resolution: Resolution): Effect
    requires WellFormed(m) && OriginInGraph(m.graph, origin)
  {
    AddOrConnectWellFormed(m, origin, dependencies, resolution.identity);
    PlaceWellFormed(m, resolution.identity);
    var placed := Place(m, resolution.identity);
    var handle := HandleOf(placed, resolution.identity);
    ConnectAllEffect(placed, origin, dependencies, handle);
    var added := Added(m, origin, dependencies, resolution.identity);
    match resolution
    case Resolved(identity) => Effect(added, if identity in m.byIdentity then [] else [Build(handle, identity)])
    case Unresolved(_) => Effect(EndBuild(added, handle, Missing), [])
  }

  function RunBuild(w: World, m: Make, handle: nat, identity: Identity): Effect
    requires handle < |m.graph.modules|
  {
    var content := w.parse(identity);
    if content.None? then Effect(EndBuild(m, handle, Broken), [])
    else
      var dependencies := QueuedOf(content.value);
      Effect(EndBuild(m, handle, Built), if dependencies == [] then [] else [Process(handle, identity, dependencies)])
  }

  function RunTask(w: World, m: Make, t: Task): Effect
    requires Runnable(m, t)
  {
    match t
    case Factorize(origin, context, dependencies) =>
      Effect(m, [Add(origin, dependencies, w.resolve(context, dependencies[0].dependency.request.value))])
    case Add(origin, dependencies, resolution) => RunAdd(m, origin, dependencies, resolution)
    case Build(handle, identity) => RunBuild(w, m, handle, identity)
    case Process(from, within, dependencies) => Effect(m, FactorizeAll(from, within, Grouped(dependencies)))
  }

  // ---- the scheduler ----

  /** A background task is in flight until it has run; its children wait until it is collected. */
  datatype Running = InFlight(task: Task) | Finished(children: seq<Task>)

  datatype System = System(make: Make, main: seq<Task>, background: seq<Running>)

  function Schedule(s: System, children: seq<Task>): System
    decreases |children|
  {
    if children == [] then s
    else if children[0].IsBackground()
    then Schedule(s.(background := s.background + [InFlight(children[0])]), children[1..])
    else Schedule(s.(main := s.main + [children[0]]), children[1..])
  }

  function EntryTask(w: World, i: nat): Task
    requires i < |w.entries|
  {
    Factorize(None, None, [Queued(Some(i), None, None, Dependency(Some(w.entries[i]), "entry"))])
  }

  function EntryTasks(w: World, n: nat): seq<Task>
    requires n <= |w.entries|
  {
    if n == 0 then [] else EntryTasks(w, n - 1) + [EntryTask(w, n - 1)]
  }

  function Start(w: World): System {
    Schedule(System(Make(Storage([], [], [], [], []), map[], {}, map[], 0), [], []), EntryTasks(w, |w.entries|))
  }

  datatype Act = RunMain | RunBackground(i: nat) | Collect(i: nat)

  /** The main queue runs in order and before anything is collected; background tasks run whenever. */
  ghost function Apply(w: World, s: System, act: Act): Option<System> {
    match act
    case RunMain =>
      if s.main == [] || !Runnable(s.make, s.main[0]) then None
      else
        var e := RunTask(w, s.make, s.main[0]);
        Some(Schedule(s.(make := e.make, main := s.main[1..]), e.children))
    case RunBackground(i) =>
      if !(i < |s.background| && s.background[i].InFlight? && Runnable(s.make, s.background[i].task)) then None
      else
        var e := RunTask(w, s.make, s.background[i].task);
        Some(s.(make := e.make, background := s.background[i := Finished(e.children)]))
    case Collect(i) =>
      if !(s.main == [] && i < |s.background| && s.background[i].Finished?) then None
      else Some(Schedule(s.(background := s.background[..i] + s.background[i + 1..]), s.background[i].children))
  }

  ghost function Play(w: World, s: System, acts: seq<Act>): Option<System>
    decreases |acts|
  {
    if acts == [] then Some(s)
    else
      var next := Apply(w, s, acts[0]);
      if next.None? then None else Play(w, next.value, acts[1..])
  }

  predicate Quiescent(s: System) {
    s.main == [] && s.background == []
  }

  // ---- outstanding tasks, whatever queue they are in ----

  function Outstanding(r: Running): seq<Task> {
    match r
    case InFlight(task) => [task]
    case Finished(children) => children
  }

  function Flat(background: seq<Running>): seq<Task> {
    if background == [] then [] else Outstanding(background[0]) + Flat(background[1..])
  }

  lemma {:induction false} FlatConcat(a: seq<Running>, b: seq<Running>)
    ensures Flat(a + b) == Flat(a) + Flat(b)
  {
    if a == [] {
      assert a + b == b;
    } else {
      assert (a + b)[1..] == a[1..] + b;
      FlatConcat(a[1..], b);
    }
  }

  /** One thing that must be done exactly once. */
  datatype Token = Spot(origin: nat, at: Location) | BuildOf(handle: nat) | EntryOf(index: nat)

  predicate Matches(token: Token, origin: Option<nat>, d: Queued) {
    match token
    case Spot(m, at) => origin == Some(m) && d.block == at.block && d.index == Some(at.index) && d.dependency.request.Some?
    case BuildOf(_) => false
    case EntryOf(i) => d.entryIndex == Some(i) && d.dependency.request.Some?
  }

  function Count(token: Token, origin: Option<nat>, dependencies: seq<Queued>): nat {
    if dependencies == [] then 0
    else Count(token, origin, dependencies[..|dependencies| - 1])
         + if Matches(token, origin, dependencies[|dependencies| - 1]) then 1 else 0
  }

  function Weight(token: Token, t: Task): nat {
    match t
    case Factorize(origin, _, dependencies) => Count(token, origin, dependencies)
    case Add(origin, dependencies, _) => Count(token, origin, dependencies)
    case Build(handle, _) => if token == BuildOf(handle) then 1 else 0
    case Process(from, _, dependencies) => Count(token, Some(from), dependencies)
  }

  function Total(token: Token, tasks: seq<Task>): nat {
    if tasks == [] then 0 else Weight(token, tasks[0]) + Total(token, tasks[1..])
  }

  lemma {:induction false} TotalConcat(token: Token, a: seq<Task>, b: seq<Task>)
    ensures Total(token, a + b) == Total(token, a) + Total(token, b)
  {
    if a == [] {
      assert a + b == b;
    } else {
      assert (a + b)[1..] == a[1..] + b;
      TotalConcat(token, a[1..], b);
    }
  }

  lemma {:induction false} CountConcat(token: Token, origin: Option<nat>, a: seq<Queued>, b: seq<Queued>)
    ensures Count(token, origin, a + b) == Count(token, origin, a) + Count(token, origin, b)
    decreases |b|
  {
    if b == [] {
      assert a + b == a;
    } else {
      assert (a + b)[..|a + b| - 1] == a + b[..|b| - 1];
      CountConcat(token, origin, a, b[..|b| - 1]);
    }
  }

  // ---- done, due, and conserved ----

  function CountAt(connections: seq<Connection>, m: nat, at: Location): nat {
    if connections == [] then 0
    else CountAt(connections[..|connections| - 1], m, at)
         + if connections[|connections| - 1].StandsAt(m, at) then 1 else 0
  }

  function Done(m: Make, token: Token): nat {
    match token
    case Spot(h, at) => CountAt(m.graph.connections, h, at)
    case BuildOf(_) => 0
    case EntryOf(i) => if i in m.entries then 1 else 0
  }

  predicate IsBuilt(w: World, m: Make, h: nat) {
    h < |m.graph.modules| && m.graph.modules[h].status == Built && w.parse(m.graph.modules[h].identity).Some?
  }

  function ContentOf(w: World, m: Make, h: nat): Content
    requires IsBuilt(w, m, h)
  {
    w.parse(m.graph.modules[h].identity).value
  }

  predicate HasRequestAt(content: Content, at: Location) {
    content.At(at).Some? && content.At(at).value.request.Some?
  }

  /** One connection for every module dependency of a built module, one build, one module for an entry. */
  predicate IsDue(w: World, m: Make, token: Token) {
    match token
    case Spot(h, at) => IsBuilt(w, m, h) && HasRequestAt(ContentOf(w, m, h), at)
    case BuildOf(h) => h < |m.graph.modules| && m.graph.modules[h].status == Building
    case EntryOf(i) => i < |w.entries|
  }

  function Due(w: World, m: Make, token: Token): nat {
    if IsDue(w, m, token) then 1 else 0
  }

  /** `left` is the weight of the tasks still outstanding. */
  predicate Balanced(w: World, m: Make, token: Token, left: nat) {
    Done(m, token) + left == Due(w, m, token)
  }
}
