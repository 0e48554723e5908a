/** Every interleaving of runs, idle timers, publications, `settle` and `shutdown` calls over one
    cache lifecycle. Each critical section is one step; work between two locks is a process. */
module CacheProtocol {
  import opened Options
  import opened CacheLifecycles

  /** Where a publication or a scheduling attempt returns to. */
  datatype Caller = Timed | FromSettle | FromShutdown

  /** What `pending_generation` told a process that dropped the lock to ask. */
  datatype Seen = Unread | Pending(target: nat) | NothingPending

  datatype Process =
    | Running(runId: nat, largeChange: bool)
    | Scheduling(caller: Caller)
    | Timer(plan: TimerPlan)
    | Firing(target: nat, seen: Seen)
    | Publishing(target: nat, caller: Caller)
    | Published(target: nat, error: Option<string>, caller: Caller)
    | Settling
    | SettleGap(seen: Seen)
    | Shutting
    | ShutdownGap(taken: Option<string>, seen: Seen)
  {
    predicate Flushes() {
      Publishing? || Published?
    }
  }

  datatype System = System(life: Lifecycle, dirty: nat, published: nat, now: nat, processes: map<nat, Process>)

  datatype Act =
    | Tick(later: nat)
    | StartRun(p: nat, largeChange: bool)
    | Store(p: nat)
    | FinishRun(p: nat, pending: Option<nat>, initialStore: bool)
    | Schedule(p: nat, timer: nat, pending: Option<nat>, initialStore: bool)
    | Fire(p: nat)
    | FireRead(p: nat, pending: Option<nat>)
    | FireCommit(p: nat)
    | Publish(p: nat, failure: Option<string>)
    | Finish(p: nat, pending: Option<nat>)
    | CallSettle(p: nat)
    | EnterSettle(p: nat)
    | ReadSettle(p: nat, pending: Option<nat>)
    | CommitSettle(p: nat)
    | CallShutdown(p: nat)
    | EnterShutdown(p: nat)
    | ReadShutdown(p: nat, pending: Option<nat>)
    | CommitShutdown(p: nat)
    | FlushCache(target: nat)

  function Actor(act: Act): nat {
    if act.Tick? || act.FlushCache? then 0 else act.p
  }

  function Max(a: nat, b: nat): nat {
    if a < b then b else a
  }

  /** A read of the two generations, published first: None only when nothing is pending,
      while a publication between the two loads can make the answer redundantly Some. */
  predicate PendingRead(s: System, pending: Option<nat>) {
    if pending.None? then s.published == s.dirty else pending.value == s.dirty
  }

  function Resume(caller: Caller): Option<Process> {
    match caller
    case Timed => None
    case FromSettle => Some(Settling)
    case FromShutdown => Some(Shutting)
  }

  function Put(processes: map<nat, Process>, p: nat, next: Option<Process>): map<nat, Process> {
    if next.None? then processes - {p} else processes[p := next.value]
  }

  function Goes(s: System, p: nat, life: Lifecycle, next: Option<Process>): Option<System> {
    Some(s.(life := life, processes := Put(s.processes, p, next)))
  }

  function See(pending: Option<nat>): Seen {
    if pending.None? then NothingPending else Pending(pending.value)
  }

  function Target(seen: Seen): Option<nat> {
    if seen.Pending? then Some(seen.target) else None
  }

  /** The next system, or None when the step cannot be taken now. */
  function Apply(timeouts: Timeouts, s: System, act: Act): Option<System> {
    match act
    case Tick(later) => if later < s.now then None else Some(s.(now := later))
    case StartRun(p, largeChange) =>
      if p in s.processes || !(s.life.activity.Ready? || s.life.activity.Idle?) then None
      else Goes(s, p, EndIdle(s.life), Some(Running(s.life.nextRunId, largeChange)))
    case Store(p) =>
      if p in s.processes && s.processes[p].Running? then Some(s.(dirty := s.dirty + 1)) else None
    case FinishRun(p, pending, initialStore) =>
      if !(p in s.processes && s.processes[p].Running? && PendingRead(s, pending)) then None
      else
        var run := s.processes[p];
        var begun := BeginIdle(s.life, timeouts, s.now, run.runId, run.largeChange, pending, initialStore);
        Goes(s, p, begun.life, if begun.shouldSchedule then Some(Scheduling(Timed)) else None)
    case Schedule(p, timer, pending, initialStore) =>
      if !(p in s.processes && s.processes[p].Scheduling? && timer !in s.processes && PendingRead(s, pending)) then None
      else
        var planned := ScheduleIdleTimer(s.life, timeouts, s.now, pending, initialStore);
        var rest := Put(s.processes, p, Resume(s.processes[p].caller));
        Some(s.(life := planned.life,
                processes := if planned.timer.Some? then rest[timer := Timer(planned.timer.value)] else rest))
    case Fire(p) =>
      if !(p in s.processes && s.processes[p].Timer? && s.processes[p].plan.deadline <= s.now) then None
      else
        var plan := s.processes[p].plan;
        var fired := FireTimer(s.life, s.now, plan.token);
        if fired.None? then Goes(s, p, s.life, None) else Goes(s, p, fired.value, Some(Firing(plan.target, Unread)))
    case FireRead(p, pending) =>
      if !(p in s.processes && s.processes[p].Firing? && s.processes[p].seen.Unread? && PendingRead(s, pending)) then None
      else
        var target := s.processes[p].target;
        Goes(s, p, s.life, if pending.None? then None else Some(Firing(target, Pending(Max(pending.value, target)))))
    case FireCommit(p) =>
      if !(p in s.processes && s.processes[p].Firing? && s.processes[p].seen.Pending?) then None
      else
        var target := s.processes[p].seen.target;
        var started := StartTimedFlush(s.life, target);
        if started.None? then Goes(s, p, s.life, None) else Goes(s, p, started.value, Some(Publishing(target, Timed)))
    case Publish(p, failure) =>
      if !(p in s.processes && s.processes[p].Publishing?) then None
      else
        var publishing := s.processes[p];
        if publishing.target <= s.published then
          Goes(s, p, s.life, Some(Published(publishing.target, None, publishing.caller)))
        else
          Some(s.(published := if failure.Some? then s.published else publishing.target,
                  processes := s.processes[p := Published(publishing.target, failure, publishing.caller)]))
    case Finish(p, pending) =>
      if !(p in s.processes && s.processes[p].Published? && PendingRead(s, pending)) then None
      else
        var flush := s.processes[p];
        var begun := FinishFlush(s.life, flush.target, flush.error, pending);
        Goes(s, p, begun.life, if begun.shouldSchedule then Some(Scheduling(flush.caller)) else Resume(flush.caller))
    case CallSettle(p) => if p in s.processes then None else Goes(s, p, s.life, Some(Settling))
    case EnterSettle(p) =>
      if !(p in s.processes && s.processes[p].Settling?) then None
      else
        var acted := SettleEnter(s.life);
        Goes(s, p, acted.life, match acted.action
                               case Done(_) => None
                               case Read(_) => Some(SettleGap(Unread))
                               case _ => Some(Settling))
    case ReadSettle(p, pending) =>
      if !(p in s.processes && s.processes[p].SettleGap? && s.processes[p].seen.Unread? && PendingRead(s, pending)) then None
      else Goes(s, p, s.life, Some(SettleGap(See(pending))))
    case CommitSettle(p) =>
      if !(p in s.processes && s.processes[p].SettleGap? && !s.processes[p].seen.Unread?) then None
      else
        var acted := SettleCommit(s.life, Target(s.processes[p].seen));
        Goes(s, p, acted.life, match acted.action
                               case Done(_) => None
                               case Start(target) => Some(Publishing(target, FromSettle))
                               case _ => Some(Settling))
    case CallShutdown(p) => if p in s.processes then None else Goes(s, p, s.life, Some(Shutting))
    case EnterShutdown(p) =>
      if !(p in s.processes && s.processes[p].Shutting?) then None
      else
        var acted := ShutdownEnter(s.life);
        Goes(s, p, acted.life, match acted.action
                               case Done(_) => None
                               case Read(taken) => Some(ShutdownGap(taken, Unread))
                               case _ => Some(Shutting))
    case ReadShutdown(p, pending) =>
      if !(p in s.processes && s.processes[p].ShutdownGap? && s.processes[p].seen.Unread? && PendingRead(s, pending)) then None
      else Goes(s, p, s.life, Some(ShutdownGap(s.processes[p].taken, See(pending))))
    case CommitShutdown(p) =>
      if !(p in s.processes && s.processes[p].ShutdownGap? && !s.processes[p].seen.Unread?) then None
      else
        var acted := ShutdownCommit(s.life, s.processes[p].taken, Target(s.processes[p].seen));
        Goes(s, p, acted.life, match acted.action
                               case Done(_) => None
                               case Start(target) => Some(Publishing(target, FromShutdown))
                               case _ => Some(Shutting))
    case FlushCache(target) =>
      if target > s.dirty then None else Some(s.(published := Max(s.published, target)))
  }

  const START := System(INITIAL, 0, 0, 0, map[])

  ghost predicate Next(timeouts: Timeouts, s: System, act: Act, s': System) {
    Apply(timeouts, s, act) == Some(s')
  }

  /** The system after a list of steps, or None when one of them could not be taken. */
  function Play(timeouts: Timeouts, s: System, acts: seq<Act>): Option<System>
    decreases |acts|
  {
    if acts == [] then Some(s)
    else
      var next := Apply(timeouts, s, acts[0]);
      if next.None? then None else Play(timeouts, next.value, acts[1..])
  }

  ghost predicate Reachable(timeouts: Timeouts, s: System) {
    exists acts :: Play(timeouts, START, acts) == Some(s)
  }

  // ---- what every step keeps ----

  ghost predicate ProcessBounded(process: Process, dirty: nat) {
    match process
    case Timer(plan) => plan.target <= dirty
    case Firing(target, seen) => target <= dirty && (seen.Pending? ==> seen.target <= dirty)
    case Publishing(target, _) => target <= dirty
    case Published(target, _, _) => target <= dirty
    case SettleGap(seen) => seen.Pending? ==> seen.target <= dirty
    case ShutdownGap(_, seen) => seen.Pending? ==> seen.target <= dirty
    case _ => true
  }

  ghost predicate Bounded(s: System) {
    s.published <= s.dirty && forall p | p in s.processes :: ProcessBounded(s.processes[p], s.dirty)
  }

  predicate InRun(life: Lifecycle, runId: nat) {
    life.activity == Active(runId) || (life.activity == ShuttingDown && life.shutdownRun == Some(runId))
  }

  ghost predicate RunsActive(s: System) {
    forall p | p in s.processes && s.processes[p].Running? :: InRun(s.life, s.processes[p].runId)
  }

  ghost predicate OneRun(s: System) {
    forall p, q | p in s.processes && q in s.processes && s.processes[p].Running? && s.processes[q].Running? :: p == q
  }

  /** A run's guard matches the activity, and there is at most one. */
  ghost predicate RunsMatch(s: System) {
    RunsActive(s) && OneRun(s)
  }

  ghost predicate FlushesNamed(s: System) {
    forall p | p in s.processes && s.processes[p].Flushes() :: s.life.flush == Some(s.processes[p].target)
  }

  ghost predicate OneFlush(s: System) {
    forall p, q | p in s.processes && q in s.processes && s.processes[p].Flushes() && s.processes[q].Flushes() :: p == q
  }

  ghost predicate FlushLive(s: System) {
    s.life.flush.Some? ==> exists p :: p in s.processes && s.processes[p].Flushes()
  }

  /** At most one lifecycle publication, and it is the one the lifecycle names. */
  ghost predicate FlushesMatch(s: System) {
    FlushesNamed(s) && OneFlush(s) && FlushLive(s)
  }

  ghost predicate LiveTimer(s: System, p: nat, scheduled: ScheduledFlush) {
    && p in s.processes
    && s.processes[p].Timer?
    && s.processes[p].plan.token == scheduled.token
    && s.processes[p].plan.deadline == scheduled.deadline
  }

  ghost predicate TokensUsed(s: System) {
    && (forall p | p in s.processes && s.processes[p].Timer? :: s.processes[p].plan.token < s.life.nextToken)
    && (s.life.scheduled.Some? ==> s.life.scheduled.value.token < s.life.nextToken)
  }

  ghost predicate TokensUnique(s: System) {
    forall p, q | p in s.processes && q in s.processes && s.processes[p].Timer? && s.processes[q].Timer?
                  && s.processes[p].plan.token == s.processes[q].plan.token :: p == q
  }

  ghost predicate ScheduledLive(s: System) {
    && (s.life.activity.Idle? && s.life.scheduled.Some? ==> exists p :: LiveTimer(s, p, s.life.scheduled.value))
    && (s.life.activity.Active? ==> s.life.scheduled.None?)
  }

  ghost predicate TimersMatch(s: System) {
    TokensUsed(s) && TokensUnique(s) && ScheduledLive(s)
  }

  /** A process that will look again whether something is pending. */
  predicate Attends(process: Process) {
    process.Scheduling? || process.Firing? || process.SettleGap?
  }

  ghost predicate Forgotten(s: System) {
    && s.life.activity.Idle?
    && s.dirty > s.published
    && s.life.flush.None?
    && s.life.diagnostic.None?
    && s.life.scheduled.None?
    && (forall p | p in s.processes :: !Attends(s.processes[p]))
  }

  ghost predicate GapsMatch(s: System) {
    forall p | p in s.processes && s.processes[p].ShutdownGap? ::
      && (s.life.activity.ShuttingDown? || s.life.activity.Closed?)
      && s.life.shutdownRun.None?
      && (s.processes[p].seen.NothingPending? ==> s.published == s.dirty)
  }

  ghost predicate ClosedMatch(s: System) {
    s.life.activity.Closed? ==>
      && s.life.shutdownRun.None?
      && s.life.shutdownOutcome.Some?
      && (s.life.shutdownOutcome.value.diagnostic.None? ==> s.published == s.dirty)
  }

  ghost predicate ShutdownsMatch(s: System) {
    GapsMatch(s) && ClosedMatch(s)
  }

  ghost predicate Inv(s: System) {
    Bounded(s) && RunsMatch(s) && FlushesMatch(s) && TimersMatch(s) && !Forgotten(s) && ShutdownsMatch(s)
  }

  lemma BoundedStep(timeouts: Timeouts, s: System, act: Act, s': System)
    requires Bounded(s) && Next(timeouts, s, act, s')
    ensures Bounded(s') && s.published <= s'.published && s.dirty <= s'.dirty
  {
  }

  /** A step moves only its own process. */
  lemma OthersStay(timeouts: Timeouts, s: System, act: Act, s': System, q: nat)
    requires Next(timeouts, s, act, s') && q in s.processes && q != Actor(act)
    ensures q in s'.processes && s'.processes[q] == s.processes[q]
  {
  }

  lemma RunsActiveStep(timeouts: Timeouts, s: System, act: Act, s': System)
    requires RunsMatch(s) && ShutdownsMatch(s) && Next(timeouts, s, act, s')
    ensures RunsActive(s')
  {
  }

  lemma OneRunStep(timeouts: Timeouts, s: System, act: Act, s': System)
    requires RunsMatch(s) && Next(timeouts, s, act, s')
    ensures OneRun(s')
  {
  }

  lemma FlushesNamedStep(timeouts: Timeouts, s: System, act: Act, s': System)
    requires FlushesNamed(s) && OneFlush(s) && Next(timeouts, s, act, s')
    ensures FlushesNamed(s')
  {
  }

  lemma OneFlushStep(timeouts: Timeouts, s: System, act: Act, s': System)
    requires FlushesNamed(s) && OneFlush(s) && Next(timeouts, s, act, s')
    ensures OneFlush(s')
  {
  }

  lemma FlushLiveStep(timeouts: Timeouts, s: System, act: Act, s': System)
    requires FlushesMatch(s) && Next(timeouts, s, act, s')
    ensures FlushLive(s')
  {
    if s.life.flush.Some? && s'.life.flush.Some? {
      var p :| p in s.processes && s.processes[p].Flushes();
      if p != Actor(act) {
        OthersStay(timeouts, s, act, s', p);
      }
      assert p in s'.processes && s'.processes[p].Flushes();
    } else if s'.life.flush.Some? {
      assert Actor(act) in s'.processes && s'.processes[Actor(act)].Flushes();
    }
  }

  lemma TokensUsedStep(timeouts: Timeouts, s: System, act: Act, s': System)
    requires TokensUsed(s) && Next(timeouts, s, act, s')
    ensures TokensUsed(s')
  {
  }

  lemma TokensUniqueStep(timeouts: Timeouts, s: System, act: Act, s': System)
    requires TokensUsed(s) && TokensUnique(s) && Next(timeouts, s, act, s')
    ensures TokensUnique(s')
  {
    forall p, q | p in s'.processes && q in s'.processes && s'.processes[p].Timer? && s'.processes[q].Timer?
                  && s'.processes[p].plan.token == s'.processes[q].plan.token
      ensures p == q
    {
      TimerOrigin(timeouts, s, act, s', p);
      TimerOrigin(timeouts, s, act, s', q);
    }
  }

  /** A timer is an old one or the one just set, under a token not used before. */
  lemma TimerOrigin(timeouts: Timeouts, s: System, act: Act, s': System, p: nat)
    requires Next(timeouts, s, act, s') && p in s'.processes && s'.processes[p].Timer?
    ensures (p in s.processes && s.processes[p] == s'.processes[p])
            || (act.Schedule? && act.timer == p && s'.processes[p].plan.token == s.life.nextToken)
  {
  }

  lemma ScheduledLiveStep(timeouts: Timeouts, s: System, act: Act, s': System)
    requires TimersMatch(s) && Next(timeouts, s, act, s')
    ensures ScheduledLive(s')
  {
    if s'.life.activity.Idle? && s'.life.scheduled.Some? {
      if s.life.activity.Idle? && s.life.scheduled == s'.life.scheduled {
        var p :| LiveTimer(s, p, s.life.scheduled.value);
        assert LiveTimer(s', p, s'.life.scheduled.value);
      } else {
        assert act.Schedule? && LiveTimer(s', act.timer, s'.life.scheduled.value);
      }
    }
  }

  lemma GapsMatchStep(timeouts: Timeouts, s: System, act: Act, s': System)
    requires Bounded(s) && RunsActive(s) && ShutdownsMatch(s) && Next(timeouts, s, act, s')
    ensures GapsMatch(s')
  {
  }

  lemma ClosedMatchStep(timeouts: Timeouts, s: System, act: Act, s': System)
    requires Bounded(s) && RunsActive(s) && ShutdownsMatch(s) && Next(timeouts, s, act, s')
    ensures ClosedMatch(s')
  {
  }

  /** The steps that take a pending generation off the timer leave a process that attends to it. */
  lemma NotForgottenStep(timeouts: Timeouts, s: System, act: Act, s': System)
    requires Inv(s) && Next(timeouts, s, act, s')
    ensures !Forgotten(s')
  {
    if q :| q in s.processes && Attends(s.processes[q]) && q != Actor(act) {
      OthersStay(timeouts, s, act, s', q);
    } else if !(Actor(act) in s'.processes && Attends(s'.processes[Actor(act)])) {
      UnattendedStep(timeouts, s, act, s');
    }
  }

  /** A step after which nobody attends leaves nothing that had to be attended to. */
  lemma UnattendedStep(timeouts: Timeouts, s: System, act: Act, s': System)
    requires Inv(s) && Next(timeouts, s, act, s')
    requires forall q | q in s.processes && Attends(s.processes[q]) :: q == Actor(act)
    requires !(Actor(act) in s'.processes && Attends(s'.processes[Actor(act)]))
    ensures !Forgotten(s')
  {
    assert !Forgotten(s);
  }

  lemma StepInv(timeouts: Timeouts, s: System, act: Act, s': System)
    requires Inv(s) && Next(timeouts, s, act, s')
    ensures Inv(s')
  {
    BoundedStep(timeouts, s, act, s');
    RunsActiveStep(timeouts, s, act, s');
    OneRunStep(timeouts, s, act, s');
    FlushesNamedStep(timeouts, s, act, s');
    OneFlushStep(timeouts, s, act, s');
    FlushLiveStep(timeouts, s, act, s');
    TokensUsedStep(timeouts, s, act, s');
    TokensUniqueStep(timeouts, s, act, s');
    ScheduledLiveStep(timeouts, s, act, s');
    NotForgottenStep(timeouts, s, act, s');
    GapsMatchStep(timeouts, s, act, s');
    ClosedMatchStep(timeouts, s, act, s');
  }

  lemma {:induction false} PlayInv(timeouts: Timeouts, s: System, acts: seq<Act>, s': System)
    requires Inv(s) && Play(timeouts, s, acts) == Some(s')
    ensures Inv(s')
    decreases |acts|
  {
    if acts != [] {
      var next := Apply(timeouts, s, acts[0]).value;
      StepInv(timeouts, s, acts[0], next);
      PlayInv(timeouts, next, acts[1..], s');
    }
  }

  lemma ReachableInv(timeouts: Timeouts, s: System)
    requires Reachable(timeouts, s)
    ensures Inv(s)
  {
    var acts :| Play(timeouts, START, acts) == Some(s);
    PlayInv(timeouts, START, acts, s);
  }

  // ---- results ----

  /** No lost publication: an idle lifecycle with something pending, no publication running and
      no diagnostic has a live timer with the scheduled token and deadline, or a process that
      is about to schedule, between the two locks of a firing timer, or inside `settle`. */
  lemma NoLostPublication(timeouts: Timeouts, s: System)
    requires Reachable(timeouts, s)
    requires s.life.activity.Idle? && s.dirty > s.published && s.life.flush.None? && s.life.diagnostic.None?
    ensures
      || (s.life.scheduled.Some? && exists p :: LiveTimer(s, p, s.life.scheduled.value))
      || (exists p :: p in s.processes && Attends(s.processes[p]))
  {
    ReachableInv(timeouts, s);
    assert !Forgotten(s);
  }

  /** A timer that has been replaced or cancelled changes nothing when it fires, and the timer
      that holds the scheduled token is never turned away by the deadline check. */
  lemma OnlyScheduledTimerFires(timeouts: Timeouts, s: System, p: nat, s': System)
    requires Reachable(timeouts, s) && Next(timeouts, s, Fire(p), s')
    requires s.life.activity.Idle?
    ensures (p in s'.processes && s'.processes[p].Firing?) <==>
              s.life.scheduled.Some? && s.life.scheduled.value.token == s.processes[p].plan.token
    ensures p !in s'.processes ==> s'.life == s.life
  {
    ReachableInv(timeouts, s);
    if s.life.scheduled.Some? {
      var q :| LiveTimer(s, q, s.life.scheduled.value);
    }
  }

  /** At most one lifecycle publication runs, and it publishes the generation the lifecycle names. */
  lemma OnePublication(timeouts: Timeouts, s: System, p: nat, q: nat)
    requires Reachable(timeouts, s)
    requires p in s.processes && q in s.processes && s.processes[p].Flushes() && s.processes[q].Flushes()
    ensures p == q && s.life.flush == Some(s.processes[p].target)
  {
    ReachableInv(timeouts, s);
  }

  predicate Ending(activity: Activity) {
    activity.ShuttingDown? || activity.Closed?
  }

  /** Once shutdown has begun no run starts, and Closed is final. */
  lemma {:induction false} ShutdownIsFinal(timeouts: Timeouts, s: System, acts: seq<Act>, s': System)
    requires Play(timeouts, s, acts) == Some(s') && Ending(s.life.activity)
    ensures Ending(s'.life.activity) && s'.life.nextRunId == s.life.nextRunId
    ensures s.life.activity.Closed? ==> s'.life.activity.Closed?
    decreases |acts|
  {
    if acts != [] {
      var next := Apply(timeouts, s, acts[0]).value;
      EndingStep(timeouts, s, acts[0], next);
      ShutdownIsFinal(timeouts, next, acts[1..], s');
    }
  }

  lemma EndingStep(timeouts: Timeouts, s: System, act: Act, s': System)
    requires Next(timeouts, s, act, s') && Ending(s.life.activity)
    ensures Ending(s'.life.activity) && s'.life.nextRunId == s.life.nextRunId
    ensures s.life.activity.Closed? ==> s'.life.activity.Closed?
  {
  }

  /** A shutdown that reports no diagnostic has published everything, and stays that way. */
  lemma ShutdownDrains(timeouts: Timeouts, s: System)
    requires Reachable(timeouts, s) && s.life.activity.Closed?
    ensures s.life.shutdownOutcome.Some?
    ensures s.life.shutdownOutcome.value.diagnostic.None? ==> s.published == s.dirty
    ensures forall p | p in s.processes :: !s.processes[p].Running?
  {
    ReachableInv(timeouts, s);
  }

  /** A publication succeeds without writing if its generation was published before; else it reaches it, or fails. */
  lemma PublicationReaches(timeouts: Timeouts, s: System, p: nat, failure: Option<string>, s': System)
    requires Next(timeouts, s, Publish(p, failure), s')
    ensures var target := s.processes[p].target;
            && p in s'.processes && s'.processes[p].Published? && s'.processes[p].target == target
            && s'.processes[p].caller == s.processes[p].caller
            && s'.processes[p].error == (if target <= s.published then None else failure)
            && s'.published == (if target <= s.published || failure.Some? then s.published else target)
            && s'.life == s.life && s'.dirty == s.dirty
  {
  }

  // ---- the closed outcome ----

  /** The calls of `shutdown` that are still going on. */
  predicate InShutdown(process: Process) {
    || process.Shutting? || process.ShutdownGap?
    || (process.Scheduling? && process.caller.FromShutdown?)
    || (process.Flushes() && process.caller.FromShutdown?)
  }

  ghost predicate OneShutdown(s: System) {
    forall p, q | p in s.processes && q in s.processes && InShutdown(s.processes[p]) && InShutdown(s.processes[q]) :: p == q
  }

  ghost predicate ClosedWithoutGap(s: System) {
    s.life.activity.Closed? ==> forall p | p in s.processes :: !s.processes[p].ShutdownGap?
  }

  lemma ClosedWithoutGapStep(timeouts: Timeouts, s: System, act: Act, s': System)
    requires Next(timeouts, s, act, s') && OneShutdown(s) && ClosedWithoutGap(s)
    ensures ClosedWithoutGap(s')
    ensures s.life.activity.Closed? ==> s'.life.shutdownOutcome == s.life.shutdownOutcome
  {
  }

  /** Every state of the run has at most one shutdown call going on. */
  ghost predicate AlwaysOneShutdown(timeouts: Timeouts, s: System, acts: seq<Act>)
    decreases |acts|
  {
    && OneShutdown(s)
    && (acts != [] && Apply(timeouts, s, acts[0]).Some? ==>
          AlwaysOneShutdown(timeouts, Apply(timeouts, s, acts[0]).value, acts[1..]))
  }

  /** With one shutdown call at a time the outcome never changes once Closed. */
  lemma {:induction false} OneShutdownFixesOutcome(timeouts: Timeouts, s: System, acts: seq<Act>, s': System)
    requires Play(timeouts, s, acts) == Some(s') && AlwaysOneShutdown(timeouts, s, acts)
    requires ClosedWithoutGap(s)
    ensures ClosedWithoutGap(s')
    ensures s.life.activity.Closed? ==> s'.life.shutdownOutcome == s.life.shutdownOutcome
    decreases |acts|
  {
    if acts != [] {
      var next := Apply(timeouts, s, acts[0]).value;
      ClosedWithoutGapStep(timeouts, s, acts[0], next);
      if s.life.activity.Closed? {
        EndingStep(timeouts, s, acts[0], next);
      }
      OneShutdownFixesOutcome(timeouts, next, acts[1..], s');
    }
  }

  // ---- runs that fall short ----

  lemma {:induction false} PlayAppend(timeouts: Timeouts, s: System, acts: seq<Act>, act: Act, middle: System, s': System)
    requires Play(timeouts, s, acts) == Some(middle) && Next(timeouts, middle, act, s')
    ensures Play(timeouts, s, acts + [act]) == Some(s')
    decreases |acts|
  {
    var longer := acts + [act];
    if acts == [] {
      assert longer[1..] == [];
    } else {
      assert longer[0] == acts[0] && longer[1..] == acts[1..] + [act];
      PlayAppend(timeouts, Apply(timeouts, s, acts[0]).value, acts[1..], act, middle, s');
    }
  }

  lemma Then(timeouts: Timeouts, s: System, act: Act) returns (s': System)
    requires Reachable(timeouts, s) && Apply(timeouts, s, act).Some?
    ensures Next(timeouts, s, act, s') && Reachable(timeouts, s')
  {
    s' := Apply(timeouts, s, act).value;
    var acts :| Play(timeouts, START, acts) == Some(s);
    PlayAppend(timeouts, START, acts, act, s, s');
  }

  lemma SettleReads(timeouts: Timeouts) returns (s: System)
    ensures Reachable(timeouts, s)
    ensures s == System(INITIAL, 0, 0, 0, map[1 := SettleGap(NothingPending)])
  {
    assert Play(timeouts, START, []) == Some(START);
    s := Then(timeouts, START, CallSettle(1));
    s := Then(timeouts, s, EnterSettle(1));
    s := Then(timeouts, s, ReadSettle(1, None));
  }

  lemma SettleOverlooksRun(timeouts: Timeouts) returns (s: System)
    ensures Reachable(timeouts, s)
    ensures s == System(INITIAL.(activity := Idle, ordinaryDeadline := Some(timeouts.ordinary), nextRunId := 2),
                        1, 0, 0, map[1 := SettleGap(NothingPending), 2 := Scheduling(Timed)])
  {
    s := SettleReads(timeouts);
    s := Then(timeouts, s, StartRun(2, false));
    s := Then(timeouts, s, Store(2));
    s := Then(timeouts, s, FinishRun(2, Some(1), false));
  }

  /** `settle` may report success and leave a generation pending with nobody to publish it: a run
      that starts and ends between its two locks is overlooked, and its timer finds Ready. */
  lemma SettleCanStrand(timeouts: Timeouts) returns (s: System, s': System)
    ensures Reachable(timeouts, s) && Reachable(timeouts, s')
    ensures s.life.activity.Ready? && s.dirty > s.published && s.life.flush.None? && s.life.diagnostic.None?
    ensures Next(timeouts, s, Fire(3), s') && s'.processes == map[] && s'.life == s.life
  {
    s := SettleOverlooksRun(timeouts);
    s := Then(timeouts, s, Schedule(2, 3, Some(1), false));
    s := Then(timeouts, s, CommitSettle(1));
    assert s.processes == map[3 := Timer(TimerPlan(1, timeouts.ordinary, 1))];
    s := Then(timeouts, s, Tick(timeouts.ordinary));
    s' := Then(timeouts, s, Fire(3));
    assert s'.processes == map[];
  }

  /** Two overlapping shutdown calls: one returns success, and the other then replaces the closed
      outcome by the diagnostic it had taken before. */
  lemma ClosedOutcomeCanChange(timeouts: Timeouts) returns (s: System, s': System)
    ensures Reachable(timeouts, s) && s.life.activity.Closed? && s.life.shutdownOutcome == Some(Outcome(None))
    ensures Next(timeouts, s, CommitShutdown(3), s')
    ensures s'.life.activity.Closed? && s'.life.shutdownOutcome == Some(Outcome(Some("disk full")))
  {
    s := SecondShutdownPublishes(timeouts);
    s := Then(timeouts, s, EnterShutdown(4));
    s := Then(timeouts, s, ReadShutdown(4, None));
    s := Then(timeouts, s, CommitShutdown(4));
    assert s.processes == map[3 := ShutdownGap(Some("disk full"), Pending(1))];
    s' := Then(timeouts, s, CommitShutdown(3));
  }

  ghost function FirstTook(timeouts: Timeouts): Lifecycle {
    AfterRun(timeouts).(activity := ShuttingDown, ordinaryDeadline := None, nextToken := 2)
  }

  const TOOK := ShutdownGap(Some("disk full"), Pending(1))

  lemma SecondShutdownStarts(timeouts: Timeouts) returns (s: System)
    ensures Reachable(timeouts, s)
    ensures s == System(FirstTook(timeouts).(flush := Some(1)), 1, 0, timeouts.ordinary,
                        map[3 := TOOK, 4 := Publishing(1, FromShutdown)])
  {
    s := SecondShutdownEnters(timeouts);
    s := Then(timeouts, s, ReadShutdown(4, Some(1)));
    s := Then(timeouts, s, CommitShutdown(4));
  }

  lemma SecondShutdownEnters(timeouts: Timeouts) returns (s: System)
    ensures Reachable(timeouts, s)
    ensures s == System(FirstTook(timeouts), 1, 0, timeouts.ordinary, map[3 := TOOK, 4 := ShutdownGap(None, Unread)])
  {
    s := DiagnosticTaken(timeouts);
    s := Then(timeouts, s, CallShutdown(4));
    s := Then(timeouts, s, EnterShutdown(4));
  }

  lemma SecondShutdownPublishes(timeouts: Timeouts) returns (s: System)
    ensures Reachable(timeouts, s)
    ensures s == System(FirstTook(timeouts), 1, 1, timeouts.ordinary, map[3 := TOOK, 4 := Shutting])
  {
    s := SecondShutdownStarts(timeouts);
    s := Then(timeouts, s, Publish(4, None));
    s := Then(timeouts, s, Finish(4, None));
  }

  ghost function AfterRun(timeouts: Timeouts): Lifecycle {
    INITIAL.(activity := Idle, ordinaryDeadline := Some(timeouts.ordinary), nextRunId := 2)
  }

  lemma OneRunEnds(timeouts: Timeouts) returns (s: System)
    ensures Reachable(timeouts, s)
    ensures s == System(AfterRun(timeouts), 1, 0, 0, map[1 := Scheduling(Timed)])
  {
    assert Play(timeouts, START, []) == Some(START);
    s := Then(timeouts, START, StartRun(1, false));
    s := Then(timeouts, s, Store(1));
    s := Then(timeouts, s, FinishRun(1, Some(1), false));
  }

  lemma TimerFires(timeouts: Timeouts) returns (s: System)
    ensures Reachable(timeouts, s)
    ensures s == System(AfterRun(timeouts).(ordinaryDeadline := None, nextToken := 2),
                        1, 0, timeouts.ordinary, map[2 := Firing(1, Unread)])
  {
    s := OneRunEnds(timeouts);
    s := Then(timeouts, s, Schedule(1, 2, Some(1), false));
    assert s.processes == map[2 := Timer(TimerPlan(1, timeouts.ordinary, 1))];
    s := Then(timeouts, s, Tick(timeouts.ordinary));
    s := Then(timeouts, s, Fire(2));
  }

  lemma FailedPublication(timeouts: Timeouts) returns (s: System)
    ensures Reachable(timeouts, s)
    ensures s == System(AfterRun(timeouts).(ordinaryDeadline := None, nextToken := 2, diagnostic := Some("disk full")),
                        1, 0, timeouts.ordinary, map[])
  {
    s := TimerFires(timeouts);
    s := Then(timeouts, s, FireRead(2, Some(1)));
    s := Then(timeouts, s, FireCommit(2));
    assert s.processes == map[2 := Publishing(1, Timed)];
    s := Then(timeouts, s, Publish(2, Some("disk full")));
    s := Then(timeouts, s, Finish(2, Some(1)));
    assert s.processes == map[];
  }

  lemma DiagnosticTaken(timeouts: Timeouts) returns (s: System)
    ensures Reachable(timeouts, s)
    ensures s == System(FirstTook(timeouts), 1, 0, timeouts.ordinary, map[3 := TOOK])
  {
    s := FailedPublication(timeouts);
    s := Then(timeouts, s, CallShutdown(3));
    s := Then(timeouts, s, EnterShutdown(3));
    s := Then(timeouts, s, EnterShutdown(3));
    s := Then(timeouts, s, ReadShutdown(3, Some(1)));
  }
}
