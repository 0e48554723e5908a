/** When idle publications are due: each deadline told by itself, over every run. */
module CacheTimers {
  import opened Options
  import opened CacheLifecycles
  import opened CacheProtocol
  import CacheAnswers

  function DeadlineOf(l: Lifecycle, reason: FlushReason): Option<nat> {
    match reason
    case InitialStore => l.initialStoreDeadline
    case Ordinary => l.ordinaryDeadline
    case LargeChange => l.largeChangeDeadline
  }

  function Timeout(timeouts: Timeouts, reason: FlushReason): nat {
    match reason
    case InitialStore => timeouts.initialStore
    case Ordinary => timeouts.ordinary
    case LargeChange => timeouts.afterLargeChange
  }

  /** The active run ends: its guard is the one the lifecycle waits for, and shutdown has not begun. */
  predicate EndsRun(s: System, act: Act) {
    act.FinishRun? && act.p in s.processes && s.processes[act.p].Running? && s.life.activity == Active(s.processes[act.p].runId)
  }

  /** A timer may be scheduled: idle, without a publication or a timer. */
  predicate MaySchedule(s: System, act: Act) {
    act.Schedule? && s.life.activity.Idle? && s.life.flush.None? && s.life.scheduled.None?
  }

  /** The step finds something pending that is to be published for this reason. */
  predicate Asks(s: System, act: Act, reason: FlushReason) {
    match reason
    case Ordinary => (EndsRun(s, act) || MaySchedule(s, act)) && act.pending.Some?
    case InitialStore => (EndsRun(s, act) || MaySchedule(s, act)) && act.pending.Some? && act.initialStore
    case LargeChange => EndsRun(s, act) && act.pending.Some? && s.processes[act.p].largeChange
  }

  /** The end of a run counts the ordinary time and that after a large change anew, but not that of the initial store. */
  predicate Renews(s: System, act: Act, reason: FlushReason) {
    Asks(s, act, reason) && act.FinishRun? && reason != InitialStore
  }

  /** The step ends the wait: nothing is pending any more, its timer has fired, shutdown begins;
      a run and a settle call end it too, but not that of the initial store. */
  predicate Over(s: System, act: Act, reason: FlushReason) {
    match act
    case StartRun(_, _) => reason != InitialStore
    case EnterSettle(_) => reason != InitialStore
    case EnterShutdown(_) => !s.life.activity.ShuttingDown? && !s.life.activity.Closed?
    case FinishRun(_, pending, _) => EndsRun(s, act) && pending.None?
    case Schedule(_, _, pending, _) => MaySchedule(s, act) && pending.None?
    case Finish(p, pending) => p in s.processes && s.processes[p].Published? && s.processes[p].error.None? && pending.None?
    case Fire(p) => IsDue(s, p) && s.life.scheduled.value.reason == reason
    case _ => false
  }

  /** The timer is the one scheduled, and it is due. */
  predicate IsDue(s: System, p: nat) {
    && p in s.processes && s.processes[p].Timer?
    && s.life.activity.Idle? && s.life.scheduled.Some?
    && s.life.scheduled.value.token == s.processes[p].plan.token
    && s.life.scheduled.value.deadline <= s.now
  }

  /** A deadline is set when first asked for, renewed by the end of a run, and gone when the wait is over. */
  lemma DeadlineStep(timeouts: Timeouts, s: System, act: Act, s': System, reason: FlushReason)
    requires Next(timeouts, s, act, s')
    ensures DeadlineOf(s'.life, reason) ==
            if Over(s, act, reason) then None
            else if Renews(s, act, reason) || (Asks(s, act, reason) && DeadlineOf(s.life, reason).None?)
            then Some(s.now + Timeout(timeouts, reason))
            else DeadlineOf(s.life, reason)
  {
  }

  // ---- deadlines over runs ----

  /** The system in which a step of a run is taken. */
  ghost predicate TakenIn(timeouts: Timeouts, acts: seq<Act>, i: nat, s: System) {
    i < |acts| && Play(timeouts, START, acts[..i]) == Some(s)
  }

  ghost predicate AskedAt(timeouts: Timeouts, acts: seq<Act>, reason: FlushReason, i: nat) {
    exists s :: TakenIn(timeouts, acts, i, s) && Asks(s, acts[i], reason)
  }

  ghost predicate RenewedAt(timeouts: Timeouts, acts: seq<Act>, reason: FlushReason, i: nat) {
    exists s :: TakenIn(timeouts, acts, i, s) && Renews(s, acts[i], reason)
  }

  ghost predicate OverAt(timeouts: Timeouts, acts: seq<Act>, reason: FlushReason, i: nat) {
    exists s :: TakenIn(timeouts, acts, i, s) && Over(s, acts[i], reason)
  }

  /** The deadline, if the publication was asked for at this step. */
  ghost predicate DatedAt(timeouts: Timeouts, acts: seq<Act>, reason: FlushReason, i: nat, deadline: nat) {
    exists s :: TakenIn(timeouts, acts, i, s) && deadline == s.now + Timeout(timeouts, reason)
  }

  /** Whatever asked before this step was over by then. */
  ghost predicate AllOver(timeouts: Timeouts, acts: seq<Act>, reason: FlushReason, before: nat) {
    forall k: nat | k < before && AskedAt(timeouts, acts, reason, k) ::
      exists j: nat :: k < j < before && OverAt(timeouts, acts, reason, j)
  }

  /** The wait counts from this step: nothing has ended or renewed it since, and it is a renewal or the first to ask. */
  ghost predicate CountsFrom(timeouts: Timeouts, acts: seq<Act>, reason: FlushReason, i: nat) {
    && AskedAt(timeouts, acts, reason, i)
    && (forall j: nat | i < j < |acts| :: !OverAt(timeouts, acts, reason, j) && !RenewedAt(timeouts, acts, reason, j))
    && (RenewedAt(timeouts, acts, reason, i) || AllOver(timeouts, acts, reason, i))
  }

  ghost predicate DueFrom(timeouts: Timeouts, acts: seq<Act>, reason: FlushReason, i: nat, deadline: nat) {
    CountsFrom(timeouts, acts, reason, i) && DatedAt(timeouts, acts, reason, i, deadline)
  }

  /** The deadline that the run so far gives, told from its steps alone. */
  ghost predicate Due(timeouts: Timeouts, acts: seq<Act>, reason: FlushReason, deadline: nat) {
    exists i: nat :: DueFrom(timeouts, acts, reason, i, deadline)
  }

  lemma PrefixSame(timeouts: Timeouts, acts: seq<Act>, reason: FlushReason, i: nat)
    requires acts != [] && i < |acts| - 1
    ensures var shorter := acts[..|acts| - 1];
            && (AskedAt(timeouts, shorter, reason, i) <==> AskedAt(timeouts, acts, reason, i))
            && (RenewedAt(timeouts, shorter, reason, i) <==> RenewedAt(timeouts, acts, reason, i))
            && (OverAt(timeouts, shorter, reason, i) <==> OverAt(timeouts, acts, reason, i))
            && (forall d: nat :: DatedAt(timeouts, shorter, reason, i, d) <==> DatedAt(timeouts, acts, reason, i, d))
  {
    var shorter := acts[..|acts| - 1];
    assert shorter[..i] == acts[..i];
    assert forall s :: TakenIn(timeouts, shorter, i, s) <==> TakenIn(timeouts, acts, i, s);
  }

  lemma LastTakenIn(timeouts: Timeouts, acts: seq<Act>, reason: FlushReason, s: System)
    requires acts != [] && TakenIn(timeouts, acts, |acts| - 1, s)
    ensures var n := |acts| - 1;
            && (AskedAt(timeouts, acts, reason, n) <==> Asks(s, acts[n], reason))
            && (RenewedAt(timeouts, acts, reason, n) <==> Renews(s, acts[n], reason))
            && (OverAt(timeouts, acts, reason, n) <==> Over(s, acts[n], reason))
            && DatedAt(timeouts, acts, reason, n, s.now + Timeout(timeouts, reason))
  {
  }

  lemma AllOverOn(timeouts: Timeouts, acts: seq<Act>, reason: FlushReason)
    requires acts != [] && AllOver(timeouts, acts[..|acts| - 1], reason, |acts| - 1)
    ensures AllOver(timeouts, acts, reason, |acts| - 1)
  {
    var n := |acts| - 1;
    forall k: nat | k < n && AskedAt(timeouts, acts, reason, k)
      ensures exists j: nat :: k < j < n && OverAt(timeouts, acts, reason, j)
    {
      PrefixSame(timeouts, acts, reason, k);
      var j: nat :| k < j < n && OverAt(timeouts, acts[..n], reason, j);
      PrefixSame(timeouts, acts, reason, j);
    }
  }

  lemma DueOn(timeouts: Timeouts, acts: seq<Act>, reason: FlushReason, i: nat, deadline: nat)
    requires acts != [] && DueFrom(timeouts, acts[..|acts| - 1], reason, i, deadline)
    requires !OverAt(timeouts, acts, reason, |acts| - 1) && !RenewedAt(timeouts, acts, reason, |acts| - 1)
    ensures DueFrom(timeouts, acts, reason, i, deadline)
  {
    var n := |acts| - 1;
    assert i < n;
    forall j: nat | j < n ensures OverAt(timeouts, acts[..n], reason, j) <==> OverAt(timeouts, acts, reason, j) {
      PrefixSame(timeouts, acts, reason, j);
    }
    forall j: nat | j < n
      ensures RenewedAt(timeouts, acts[..n], reason, j) <==> RenewedAt(timeouts, acts, reason, j)
      ensures AskedAt(timeouts, acts[..n], reason, j) <==> AskedAt(timeouts, acts, reason, j)
    {
      PrefixSame(timeouts, acts, reason, j);
    }
    PrefixSame(timeouts, acts, reason, i);
    if !RenewedAt(timeouts, acts, reason, i) {
      assert AllOver(timeouts, acts[..n], reason, i);
    }
  }

  lemma DueNow(timeouts: Timeouts, acts: seq<Act>, reason: FlushReason, s: System)
    requires acts != [] && TakenIn(timeouts, acts, |acts| - 1, s) && Asks(s, acts[|acts| - 1], reason)
    requires Renews(s, acts[|acts| - 1], reason) || AllOver(timeouts, acts, reason, |acts| - 1)
    ensures Due(timeouts, acts, reason, s.now + Timeout(timeouts, reason))
  {
    LastTakenIn(timeouts, acts, reason, s);
    assert DueFrom(timeouts, acts, reason, |acts| - 1, s.now + Timeout(timeouts, reason));
  }

  /** After any run a deadline stands exactly as the run asked for it. */
  lemma {:induction false} StandsAsAsked(timeouts: Timeouts, acts: seq<Act>, s: System, reason: FlushReason)
    requires Play(timeouts, START, acts) == Some(s)
    ensures var stands := DeadlineOf(s.life, reason);
            if stands.Some? then Due(timeouts, acts, reason, stands.value) else AllOver(timeouts, acts, reason, |acts|)
    decreases |acts|
  {
    if acts == [] { return; }
    var n := |acts| - 1;
    var before := CacheAnswers.PlayLast(timeouts, START, acts, s);
    StandsAsAsked(timeouts, acts[..n], before, reason);
    DeadlineStep(timeouts, before, acts[n], s, reason);
    LastTakenIn(timeouts, acts, reason, before);
    var stood := DeadlineOf(before.life, reason);
    if Over(before, acts[n], reason) {
      assert OverAt(timeouts, acts, reason, n);
    } else if Renews(before, acts[n], reason) {
      DueNow(timeouts, acts, reason, before);
    } else if stood.Some? {
      var i: nat :| DueFrom(timeouts, acts[..n], reason, i, stood.value);
      DueOn(timeouts, acts, reason, i, stood.value);
    } else {
      AllOverOn(timeouts, acts, reason);
      if Asks(before, acts[n], reason) { DueNow(timeouts, acts, reason, before); }
    }
  }

  lemma CountsOnce(timeouts: Timeouts, acts: seq<Act>, reason: FlushReason, i: nat, j: nat)
    requires CountsFrom(timeouts, acts, reason, i) && i < j < |acts|
    ensures !CountsFrom(timeouts, acts, reason, j)
  {
    assert !AllOver(timeouts, acts, reason, j);
  }

  lemma DueOnce(timeouts: Timeouts, acts: seq<Act>, reason: FlushReason, d: nat, e: nat)
    requires Due(timeouts, acts, reason, d) && Due(timeouts, acts, reason, e)
    ensures d == e
  {
    var i: nat :| DueFrom(timeouts, acts, reason, i, d);
    var j: nat :| DueFrom(timeouts, acts, reason, j, e);
    assert i < |acts| && j < |acts|;
    if i < j { CountsOnce(timeouts, acts, reason, i, j); }
    if j < i { CountsOnce(timeouts, acts, reason, j, i); }
  }

  /** A deadline stands after a run if and only if the steps of the run give it: it counts from the
      renewal or the first request since the last end of the wait. */
  lemma DeadlineIff(timeouts: Timeouts, acts: seq<Act>, s: System, reason: FlushReason, deadline: nat)
    requires Play(timeouts, START, acts) == Some(s)
    ensures DeadlineOf(s.life, reason) == Some(deadline) <==> Due(timeouts, acts, reason, deadline)
  {
    StandsAsAsked(timeouts, acts, s, reason);
    if Due(timeouts, acts, reason, deadline) {
      var i: nat :| DueFrom(timeouts, acts, reason, i, deadline);
      assert !AllOver(timeouts, acts, reason, |acts|);
      DueOnce(timeouts, acts, reason, deadline, DeadlineOf(s.life, reason).value);
    }
  }

  // ---- the timer ----

  predicate NoDeadline(l: Lifecycle) {
    l.initialStoreDeadline.None? && l.ordinaryDeadline.None? && l.largeChangeDeadline.None?
  }

  predicate NotAfter(deadline: nat, other: Option<nat>) {
    other.Some? ==> deadline <= other.value
  }

  /** While any deadline stands, a timer is set for the first of those that stand. */
  predicate TimerFirst(l: Lifecycle) {
    l.scheduled.Some? && !NoDeadline(l) ==>
      && DeadlineOf(l, l.scheduled.value.reason) == Some(l.scheduled.value.deadline)
      && NotAfter(l.scheduled.value.deadline, l.initialStoreDeadline)
      && NotAfter(l.scheduled.value.deadline, l.ordinaryDeadline)
      && NotAfter(l.scheduled.value.deadline, l.largeChangeDeadline)
  }

  predicate NotLater(timeouts: Timeouts, s: System) {
    && (s.life.ordinaryDeadline.Some? ==> s.life.ordinaryDeadline.value <= s.now + timeouts.ordinary)
    && (s.life.scheduled.Some? ==> s.life.scheduled.value.deadline <= s.now + timeouts.ordinary)
  }

  lemma ScheduleTimerFirst(timeouts: Timeouts, s: System, act: Act, s': System)
    requires Next(timeouts, s, act, s') && act.Schedule? && TimerFirst(s.life)
    ensures TimerFirst(s'.life)
  {
  }

  lemma TimerFirstStep(timeouts: Timeouts, s: System, act: Act, s': System)
    requires Next(timeouts, s, act, s') && !act.Schedule? && TimerFirst(s.life)
    requires s.life.activity.Active? ==> s.life.scheduled.None?
    ensures TimerFirst(s'.life)
  {
  }

  lemma NotLaterStep(timeouts: Timeouts, s: System, act: Act, s': System)
    requires Next(timeouts, s, act, s') && NotLater(timeouts, s)
    ensures NotLater(timeouts, s')
  {
  }

  lemma {:induction false} TimerHolds(timeouts: Timeouts, acts: seq<Act>, s: System)
    requires Play(timeouts, START, acts) == Some(s)
    ensures TimerFirst(s.life) && NotLater(timeouts, s)
    decreases |acts|
  {
    if acts == [] { return; }
    var n := |acts| - 1;
    var before := CacheAnswers.PlayLast(timeouts, START, acts, s);
    TimerHolds(timeouts, acts[..n], before);
    ReachableInv(timeouts, before);
    if acts[n].Schedule? {
      ScheduleTimerFirst(timeouts, before, acts[n], s);
    } else {
      TimerFirstStep(timeouts, before, acts[n], s);
    }
    NotLaterStep(timeouts, before, acts[n], s);
  }

  /** In every reachable system an idle lifecycle with something pending, no publication running, no
      diagnostic and nobody about to look again has a timer that is due within the ordinary time
      from now, and not after any deadline that stands. */
  lemma PublicationIsPrompt(timeouts: Timeouts, s: System)
    requires Reachable(timeouts, s)
    requires s.life.activity.Idle? && s.dirty > s.published && s.life.flush.None? && s.life.diagnostic.None?
    requires forall p | p in s.processes :: !Attends(s.processes[p])
    ensures exists p :: p in s.processes && s.processes[p].Timer? && IsDue(s.(now := s.processes[p].plan.deadline), p)
                        && s.processes[p].plan.deadline <= s.now + timeouts.ordinary
                        && forall reason | DeadlineOf(s.life, reason).Some? ::
                             s.processes[p].plan.deadline <= DeadlineOf(s.life, reason).value
  {
    NoLostPublication(timeouts, s);
    var acts :| Play(timeouts, START, acts) == Some(s);
    TimerHolds(timeouts, acts, s);
    var p :| LiveTimer(s, p, s.life.scheduled.value);
    assert IsDue(s.(now := s.processes[p].plan.deadline), p);
  }

  /** A step of the run asked for this publication, and it is due no earlier than its time from there. */
  ghost predicate AskedFor(timeouts: Timeouts, acts: seq<Act>, reason: FlushReason, deadline: nat) {
    exists i: nat :: AskedAt(timeouts, acts, reason, i) && DatedAt(timeouts, acts, reason, i, deadline)
  }

  lemma AskedForOn(timeouts: Timeouts, acts: seq<Act>, reason: FlushReason, deadline: nat)
    requires acts != [] && AskedFor(timeouts, acts[..|acts| - 1], reason, deadline)
    ensures AskedFor(timeouts, acts, reason, deadline)
  {
    var shorter := acts[..|acts| - 1];
    var i: nat :| AskedAt(timeouts, shorter, reason, i) && DatedAt(timeouts, shorter, reason, i, deadline);
    PrefixSame(timeouts, acts, reason, i);
  }

  /** A new timer stands for one of the deadlines. */
  lemma TimerSet(timeouts: Timeouts, s: System, act: Act, s': System)
    requires Next(timeouts, s, act, s') && s'.life.scheduled.Some? && s'.life.scheduled != s.life.scheduled
    ensures DeadlineOf(s'.life, s'.life.scheduled.value.reason) == Some(s'.life.scheduled.value.deadline)
  {
  }

  /** A timed publication is never early: the time of its reason has gone by since a step that asked for it. */
  lemma {:induction false} TimerIsNotEarly(timeouts: Timeouts, acts: seq<Act>, s: System)
    requires Play(timeouts, START, acts) == Some(s) && s.life.scheduled.Some?
    ensures AskedFor(timeouts, acts, s.life.scheduled.value.reason, s.life.scheduled.value.deadline)
    decreases |acts|
  {
    var n := |acts| - 1;
    var before := CacheAnswers.PlayLast(timeouts, START, acts, s);
    var reason, deadline := s.life.scheduled.value.reason, s.life.scheduled.value.deadline;
    if s.life.scheduled == before.life.scheduled {
      TimerIsNotEarly(timeouts, acts[..n], before);
      AskedForOn(timeouts, acts, reason, deadline);
    } else {
      TimerSet(timeouts, before, acts[n], s);
      DeadlineIff(timeouts, acts, s, reason, deadline);
    }
  }
}
