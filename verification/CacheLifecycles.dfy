/** The cache lifecycle object: each method is one critical section of its mutex, and each is
    proved equal to a function on the lifecycle's fields that the protocol proofs use. */
module CacheLifecycles {
  import opened Options

  datatype Activity = Ready | Active(runId: nat) | Idle | ShuttingDown | Closed

  datatype FlushReason = InitialStore | Ordinary | LargeChange

  datatype ScheduledFlush = ScheduledFlush(token: nat, deadline: nat, reason: FlushReason)

  datatype Outcome = Outcome(diagnostic: Option<string>)

  datatype Timeouts = Timeouts(ordinary: nat, initialStore: nat, afterLargeChange: nat)

  /** What a timer task carries: its token, when it wakes, and the generation it was set for. */
  datatype TimerPlan = TimerPlan(token: nat, deadline: nat, target: nat)

  datatype Lifecycle = Lifecycle(
    activity: Activity,
    shutdownRun: Option<nat>,
    scheduled: Option<ScheduledFlush>,
    flush: Option<nat>,
    diagnostic: Option<string>,
    shutdownOutcome: Option<Outcome>,
    initialStoreDeadline: Option<nat>,
    ordinaryDeadline: Option<nat>,
    largeChangeDeadline: Option<nat>,
    nextRunId: nat,
    nextToken: nat)
  {
    function WithoutDeadlines(): Lifecycle {
      this.(initialStoreDeadline := None, ordinaryDeadline := None, largeChangeDeadline := None)
    }
  }

  const INITIAL := Lifecycle(Ready, None, None, None, None, None, None, None, None, 1, 1)

  // ---- runs ----

  function EndIdle(l: Lifecycle): Lifecycle
    requires l.activity.Ready? || l.activity.Idle?
  {
    l.(scheduled := None, ordinaryDeadline := None, largeChangeDeadline := None,
       nextRunId := l.nextRunId + 1, activity := Active(l.nextRunId))
  }

  datatype Begun = Begun(life: Lifecycle, shouldSchedule: bool)

  function BeginIdle(l: Lifecycle, timeouts: Timeouts, now: nat, runId: nat, largeChange: bool,
                     pending: Option<nat>, initialStore: bool): Begun {
    if l.activity.ShuttingDown? && l.shutdownRun == Some(runId) then
      Begun(l.(shutdownRun := None), false)
    else if l.activity != Active(runId) then
      Begun(l, false)
    else if pending.Some? then
      Begun(l.(activity := Idle,
               ordinaryDeadline := Some(now + timeouts.ordinary),
               initialStoreDeadline := if initialStore && l.initialStoreDeadline.None?
                                       then Some(now + timeouts.initialStore) else l.initialStoreDeadline,
               largeChangeDeadline := if largeChange
                                      then Some(now + timeouts.afterLargeChange) else l.largeChangeDeadline),
            l.flush.None?)
    else
      Begun(l.(activity := Idle).WithoutDeadlines(), false)
  }

  // ---- timers ----

  /** The earliest of the deadlines present; ties go to the reason listed first. */
  function Earliest(l: Lifecycle): (first: (FlushReason, nat))
    requires l.ordinaryDeadline.Some?
    ensures var (reason, deadline) := first;
            && (l.initialStoreDeadline.Some? ==> deadline <= l.initialStoreDeadline.value)
            && (l.largeChangeDeadline.Some? ==> deadline <= l.largeChangeDeadline.value)
            && deadline <= l.ordinaryDeadline.value
            && (l.initialStoreDeadline == Some(deadline) ==> reason == InitialStore)
            && (l.largeChangeDeadline == Some(deadline) ==> reason != Ordinary)
            && Some(deadline) == match reason
                                 case InitialStore => l.initialStoreDeadline
                                 case LargeChange => l.largeChangeDeadline
                                 case Ordinary => l.ordinaryDeadline
  {
    var late := if l.largeChangeDeadline.Some? && l.largeChangeDeadline.value <= l.ordinaryDeadline.value
                then (LargeChange, l.largeChangeDeadline.value) else (Ordinary, l.ordinaryDeadline.value);
    if l.initialStoreDeadline.Some? && l.initialStoreDeadline.value <= late.1
    then (InitialStore, l.initialStoreDeadline.value) else late
  }

  datatype Planned = Planned(life: Lifecycle, timer: Option<TimerPlan>)

  function ScheduleIdleTimer(l: Lifecycle, timeouts: Timeouts, now: nat, pending: Option<nat>, initialStore: bool): Planned {
    if !l.activity.Idle? || l.flush.Some? || l.scheduled.Some? then
      Planned(l, None)
    else if pending.None? then
      Planned(l.WithoutDeadlines(), None)
    else
      var dated := l.(
        ordinaryDeadline := if l.ordinaryDeadline.None? then Some(now + timeouts.ordinary) else l.ordinaryDeadline,
        initialStoreDeadline := if initialStore && l.initialStoreDeadline.None?
                                then Some(now + timeouts.initialStore) else l.initialStoreDeadline);
      var (reason, deadline) := Earliest(dated);
      Planned(dated.(nextToken := l.nextToken + 1, scheduled := Some(ScheduledFlush(l.nextToken, deadline, reason))),
              Some(TimerPlan(l.nextToken, deadline, pending.value)))
  }

  /** The first section of a firing timer: None means the timer gives up. */
  function FireTimer(l: Lifecycle, now: nat, token: nat): Option<Lifecycle> {
    if !l.activity.Idle? || l.scheduled.None? || l.scheduled.value.token != token || now < l.scheduled.value.deadline then
      None
    else
      Some(match l.scheduled.value.reason
           case InitialStore => l.(scheduled := None, initialStoreDeadline := None)
           case Ordinary => l.(scheduled := None, ordinaryDeadline := None)
           case LargeChange => l.(scheduled := None, largeChangeDeadline := None))
  }

  /** The second section of a firing timer. */
  function StartTimedFlush(l: Lifecycle, target: nat): Option<Lifecycle> {
    if !l.activity.Idle? || l.flush.Some? then None else Some(l.(flush := Some(target)))
  }

  /** The section that ends every publication. */
  function FinishFlush(l: Lifecycle, target: nat, error: Option<string>, pending: Option<nat>): Begun {
    var done := if l.flush == Some(target) then l.(flush := None) else l;
    if error.Some? then Begun(done.(diagnostic := error), false)
    else if pending.None? then Begun(done.WithoutDeadlines(), false)
    else Begun(done, done.activity.Idle? && done.scheduled.None?)
  }

  // ---- settle and shutdown ----

  datatype Action = Start(target: nat) | Wait | Retry | Read(taken: Option<string>) | Done(outcome: Outcome)

  datatype Acted = Acted(life: Lifecycle, action: Action)

  /** `settle` under its first lock; `Read` means it drops the lock to read the generations. */
  function SettleEnter(l: Lifecycle): Acted {
    var quiet := l.(scheduled := None, ordinaryDeadline := None, largeChangeDeadline := None);
    if quiet.diagnostic.Some? then
      Acted(quiet.(diagnostic := None, activity := if quiet.activity.Idle? then Ready else quiet.activity),
            Done(Outcome(quiet.diagnostic)))
    else if quiet.activity.Active? || quiet.flush.Some? then
      Acted(quiet, Wait)
    else
      Acted(quiet, Read(None))
  }

  function SettleCommit(l: Lifecycle, target: Option<nat>): Acted {
    if l.activity.Active? || l.flush.Some? then Acted(l, Wait)
    else if target.Some? then Acted(l.(flush := target), Start(target.value))
    else Acted(l.(activity := if l.activity.Idle? then Ready else l.activity), Done(Outcome(None)))
  }

  function ShutdownEnter(l: Lifecycle): Acted {
    match l.activity
    case Closed => Acted(l, Done(if l.shutdownOutcome.Some? then l.shutdownOutcome.value else Outcome(None)))
    case Ready => Acted(l.(activity := ShuttingDown, scheduled := None).WithoutDeadlines(), Retry)
    case Idle => Acted(l.(activity := ShuttingDown, scheduled := None).WithoutDeadlines(), Retry)
    case Active(runId) =>
      Acted(l.(activity := ShuttingDown, shutdownRun := Some(runId), scheduled := None).WithoutDeadlines(), Retry)
    case ShuttingDown =>
      if l.shutdownRun.Some? || l.flush.Some? then Acted(l, Wait)
      else Acted(l.(diagnostic := None), Read(l.diagnostic))
  }

  function ShutdownCommit(l: Lifecycle, taken: Option<string>, target: Option<nat>): Acted {
    if l.shutdownRun.Some? || l.flush.Some? then Acted(l, Wait)
    else if taken.Some? then
      Acted(l.(activity := Closed, shutdownOutcome := Some(Outcome(taken))), Done(Outcome(taken)))
    else if target.Some? then Acted(l.(flush := target), Start(target.value))
    else Acted(l.(activity := Closed, shutdownOutcome := Some(Outcome(None))), Done(Outcome(None)))
  }

  // ---- the object ----

  class CacheLifecycle {
    const timeouts: Timeouts
    var activity: Activity
    var shutdownRun: Option<nat>
    var scheduled: Option<ScheduledFlush>
    var flush: Option<nat>
    var diagnostic: Option<string>
    var shutdownOutcome: Option<Outcome>
    var initialStoreDeadline: Option<nat>
    var ordinaryDeadline: Option<nat>
    var largeChangeDeadline: Option<nat>
    var nextRunId: nat
    var nextToken: nat

    ghost function State(): Lifecycle
      reads this
    {
      Lifecycle(activity, shutdownRun, scheduled, flush, diagnostic, shutdownOutcome,
                initialStoreDeadline, ordinaryDeadline, largeChangeDeadline, nextRunId, nextToken)
    }

    constructor (timeouts: Timeouts)
      ensures this.timeouts == timeouts && State() == INITIAL
    {
      this.timeouts := timeouts;
      activity, shutdownRun, scheduled, flush := Ready, None, None, None;
      diagnostic, shutdownOutcome := None, None;
      initialStoreDeadline, ordinaryDeadline, largeChangeDeadline := None, None, None;
      nextRunId, nextToken := 1, 1;
    }

    method ClearDeadlines()
      modifies this
      ensures State() == old(State()).WithoutDeadlines()
    {
      initialStoreDeadline := None;
      ordinaryDeadline := None;
      largeChangeDeadline := None;
    }

    /** Starts a run; refused while one is active and once shutdown has begun. */
    method EndIdleSection() returns (run: Option<nat>)
      modifies this
      ensures run.Some? <==> old(activity).Ready? || old(activity).Idle?
      ensures State() == if run.Some? then EndIdle(old(State())) else old(State())
      ensures run.Some? ==> run.value == old(nextRunId)
    {
      match activity {
        case Ready =>
        case Idle =>
        case Active(_) => return None;
        case ShuttingDown => return None;
        case Closed => return None;
      }
      scheduled := None;
      ordinaryDeadline := None;
      largeChangeDeadline := None;
      var runId := nextRunId;
      nextRunId := nextRunId + 1;
      activity := Active(runId);
      return Some(runId);
    }

    method BeginIdleSection(now: nat, runId: nat, largeChange: bool, pending: Option<nat>, initialStore: bool)
      returns (shouldSchedule: bool)
      modifies this
      ensures Begun(State(), shouldSchedule) ==
              BeginIdle(old(State()), timeouts, now, runId, largeChange, pending, initialStore)
    {
      if activity == ShuttingDown && shutdownRun == Some(runId) {
        shutdownRun := None;
        return false;
      }
      if activity != Active(runId) {
        return false;
      }
      activity := Idle;
      if pending.None? {
        ClearDeadlines();
        return false;
      }
      ordinaryDeadline := Some(now + timeouts.ordinary);
      if initialStore && initialStoreDeadline.None? {
        initialStoreDeadline := Some(now + timeouts.initialStore);
      }
      if largeChange {
        largeChangeDeadline := Some(now + timeouts.afterLargeChange);
      }
      return flush.None?;
    }

    method ScheduleSection(now: nat, pending: Option<nat>, initialStore: bool) returns (timer: Option<TimerPlan>)
      modifies this
      ensures Planned(State(), timer) == ScheduleIdleTimer(old(State()), timeouts, now, pending, initialStore)
    {
      if activity != Idle || flush.Some? || scheduled.Some? {
        return None;
      }
      if pending.None? {
        ClearDeadlines();
        return None;
      }
      if ordinaryDeadline.None? {
        ordinaryDeadline := Some(now + timeouts.ordinary);
      }
      if initialStore && initialStoreDeadline.None? {
        initialStoreDeadline := Some(now + timeouts.initialStore);
      }
      var reason, deadline := Ordinary, ordinaryDeadline.value;
      if largeChangeDeadline.Some? && largeChangeDeadline.value <= deadline {
        reason, deadline := LargeChange, largeChangeDeadline.value;
      }
      if initialStoreDeadline.Some? && initialStoreDeadline.value <= deadline {
        reason, deadline := InitialStore, initialStoreDeadline.value;
      }
      var token := nextToken;
      nextToken := nextToken + 1;
      scheduled := Some(ScheduledFlush(token, deadline, reason));
      return Some(TimerPlan(token, deadline, pending.value));
    }

    method FireSection(now: nat, token: nat) returns (fired: bool)
      modifies this
      ensures fired <==> FireTimer(old(State()), now, token).Some?
      ensures State() == if fired then FireTimer(old(State()), now, token).value else old(State())
    {
      if activity != Idle || scheduled.None? || scheduled.value.token != token || now < scheduled.value.deadline {
        return false;
      }
      var reason := scheduled.value.reason;
      scheduled := None;
      match reason {
        case InitialStore => initialStoreDeadline := None;
        case Ordinary => ordinaryDeadline := None;
        case LargeChange => largeChangeDeadline := None;
      }
      return true;
    }

    method StartTimedFlushSection(target: nat) returns (started: bool)
      modifies this
      ensures started <==> StartTimedFlush(old(State()), target).Some?
      ensures State() == if started then StartTimedFlush(old(State()), target).value else old(State())
    {
      if activity != Idle || flush.Some? {
        return false;
      }
      flush := Some(target);
      return true;
    }

    method FinishFlushSection(target: nat, error: Option<string>, pending: Option<nat>) returns (shouldSchedule: bool)
      modifies this
      ensures Begun(State(), shouldSchedule) == FinishFlush(old(State()), target, error, pending)
    {
      if flush == Some(target) {
        flush := None;
      }
      if error.Some? {
        diagnostic := error;
        return false;
      }
      if pending.None? {
        ClearDeadlines();
        return false;
      }
      return activity == Idle && scheduled.None?;
    }

    method SettleEnterSection() returns (action: Action)
      modifies this
      ensures Acted(State(), action) == SettleEnter(old(State()))
    {
      scheduled := None;
      ordinaryDeadline := None;
      largeChangeDeadline := None;
      if diagnostic.Some? {
        var taken := diagnostic;
        diagnostic := None;
        if activity == Idle {
          activity := Ready;
        }
        return Done(Outcome(taken));
      }
      if activity.Active? || flush.Some? {
        return Wait;
      }
      return Read(None);
    }

    method SettleCommitSection(target: Option<nat>) returns (action: Action)
      modifies this
      ensures Acted(State(), action) == SettleCommit(old(State()), target)
    {
      if activity.Active? || flush.Some? {
        return Wait;
      }
      if target.Some? {
        flush := target;
        return Start(target.value);
      }
      if activity == Idle {
        activity := Ready;
      }
      return Done(Outcome(None));
    }

    method ShutdownEnterSection() returns (action: Action)
      modifies this
      ensures Acted(State(), action) == ShutdownEnter(old(State()))
    {
      match activity {
        case Closed =>
          return Done(if shutdownOutcome.Some? then shutdownOutcome.value else Outcome(None));
        case Ready =>
        case Idle =>
        case Active(runId) =>
          shutdownRun := Some(runId);
        case ShuttingDown =>
          if shutdownRun.Some? || flush.Some? {
            return Wait;
          }
          var taken := diagnostic;
          diagnostic := None;
          return Read(taken);
      }
      activity := ShuttingDown;
      scheduled := None;
      ClearDeadlines();
      return Retry;
    }

    method ShutdownCommitSection(taken: Option<string>, target: Option<nat>) returns (action: Action)
      modifies this
      ensures Acted(State(), action) == ShutdownCommit(old(State()), taken, target)
    {
      if shutdownRun.Some? || flush.Some? {
        return Wait;
      }
      if taken.Some? {
        activity := Closed;
        shutdownOutcome := Some(Outcome(taken));
        return Done(Outcome(taken));
      }
      if target.Some? {
        flush := target;
        return Start(target.value);
      }
      activity := Closed;
      shutdownOutcome := Some(Outcome(None));
      return Done(Outcome(None));
    }
  }
}
