/** What calls of `settle` and `shutdown` answer, and what becomes of the error of a failed publication. */
module CacheAnswers {
  import opened Options
  import opened CacheLifecycles
  import opened CacheProtocol
  import opened CacheCalls

  // ---- answers ----

  function Returned(action: Action): Option<Outcome> {
    if action.Done? then Some(action.outcome) else None
  }

  /** What the call that takes this step returns, if it ends with it. */
  function AnswerOf(s: System, act: Act): Option<Outcome> {
    match act
    case EnterSettle(p) => Returned(SettleEnter(s.life).action)
    case CommitSettle(p) =>
      if p in s.processes && s.processes[p].SettleGap?
      then Returned(SettleCommit(s.life, Target(s.processes[p].seen)).action) else None
    case EnterShutdown(p) => Returned(ShutdownEnter(s.life).action)
    case CommitShutdown(p) =>
      if p in s.processes && s.processes[p].ShutdownGap?
      then Returned(ShutdownCommit(s.life, s.processes[p].taken, Target(s.processes[p].seen)).action) else None
    case _ => None
  }

  /** A call ends with a step exactly if it answers. */
  lemma AnswersIffEnds(timeouts: Timeouts, s: System, act: Act, s': System)
    requires Next(timeouts, s, act, s')
    requires act.EnterSettle? || act.CommitSettle? || act.EnterShutdown? || act.CommitShutdown?
    ensures AnswerOf(s, act).Some? <==> act.p !in s'.processes
  {
  }

  // ---- settle ----

  /** At its first lock a settle call ends exactly if a diagnostic stands there, answers it, and takes it away. */
  lemma SettleAnswersDiagnostic(timeouts: Timeouts, s: System, p: nat, s': System)
    requires Next(timeouts, s, EnterSettle(p), s')
    ensures AnswerOf(s, EnterSettle(p)) == if s.life.diagnostic.Some? then Some(Outcome(s.life.diagnostic)) else None
    ensures p !in s'.processes <==> s.life.diagnostic.Some?
    ensures s'.life.diagnostic == None
  {
  }

  lemma {:induction false} PlayLast(timeouts: Timeouts, s: System, acts: seq<Act>, s': System) returns (before: System)
    requires acts != [] && Play(timeouts, s, acts) == Some(s')
    ensures Play(timeouts, s, acts[..|acts| - 1]) == Some(before) && Next(timeouts, before, acts[|acts| - 1], s')
    decreases |acts|
  {
    if |acts| == 1 {
      assert acts[1..] == [] && acts[..0] == [];
      before := s;
    } else {
      before := PlayLast(timeouts, Apply(timeouts, s, acts[0]).value, acts[1..], s');
      assert acts[1..][..|acts| - 2] == acts[..|acts| - 1][1..];
    }
  }

  /** The last time a call went through its first lock, with no diagnostic standing there. */
  ghost predicate EnteredClean(timeouts: Timeouts, acts: seq<Act>, p: nat, i: nat) {
    && i < |acts| && acts[i] == EnterSettle(p)
    && (forall k: nat | i < k < |acts| :: acts[k] != EnterSettle(p))
    && Play(timeouts, START, acts[..i]).Some? && Play(timeouts, START, acts[..i]).value.life.diagnostic.None?
  }

  lemma {:induction false} GapWasEntered(timeouts: Timeouts, acts: seq<Act>, s: System, p: nat)
    requires Play(timeouts, START, acts) == Some(s) && p in s.processes && s.processes[p].SettleGap?
    ensures exists i: nat :: EnteredClean(timeouts, acts, p, i)
    decreases |acts|
  {
    assert acts != [];
    var n := |acts| - 1;
    var before := PlayLast(timeouts, START, acts, s);
    if acts[n] == EnterSettle(p) {
      SettleAnswersDiagnostic(timeouts, before, p, s);
      assert EnteredClean(timeouts, acts, p, n);
    } else {
      GapStays(timeouts, before, acts[n], s, p);
      GapWasEntered(timeouts, acts[..n], before, p);
      var i: nat :| EnteredClean(timeouts, acts[..n], p, i);
      assert acts[..n][..i] == acts[..i];
      assert EnteredClean(timeouts, acts, p, i);
    }
  }

  /** A call gets between its locks only through the first. */
  lemma GapStays(timeouts: Timeouts, s: System, act: Act, s': System, p: nat)
    requires Next(timeouts, s, act, s') && act != EnterSettle(p) && p in s'.processes && s'.processes[p].SettleGap?
    ensures p in s.processes && s.processes[p].SettleGap?
  {
  }

  /** A settle call that ends at its second lock reports success, and went through its first with no diagnostic there. */
  lemma SuccessMeansNoneStood(timeouts: Timeouts, acts: seq<Act>, s: System, p: nat, s': System)
    requires Play(timeouts, START, acts) == Some(s) && SettleReturns(timeouts, s, p, s')
    ensures AnswerOf(s, CommitSettle(p)) == Some(Outcome(None))
    ensures exists i: nat :: EnteredClean(timeouts, acts, p, i)
  {
    GapWasEntered(timeouts, acts, s, p);
  }

  // ---- what becomes of an error ----

  /** Held by the lifecycle, or by a shutdown call that took it and has not ended. */
  ghost predicate Held(s: System, error: string) {
    s.life.diagnostic == Some(error) || exists p :: Carries(s, p, error)
  }

  predicate Carries(s: System, p: nat, error: string) {
    p in s.processes && s.processes[p].ShutdownGap? && s.processes[p].taken == Some(error)
  }

  datatype Fate = Answered | Replaced | Dropped

  /** Reported by a call; replaced by a later failure; or dropped by a shutdown call that has to wait again. */
  predicate Ends(s: System, act: Act, error: string, fate: Fate) {
    match fate
    case Answered => AnswerOf(s, act) == Some(Outcome(Some(error)))
    case Replaced =>
      && act.Finish? && act.p in s.processes && s.processes[act.p].Published? && s.processes[act.p].error.Some?
      && s.life.diagnostic == Some(error)
    case Dropped => act.CommitShutdown? && Carries(s, act.p, error) && s.life.flush.Some?
  }

  /** Somewhere along a run. */
  ghost predicate Meets(timeouts: Timeouts, s: System, acts: seq<Act>, error: string, fate: Fate)
    decreases |acts|
  {
    && acts != [] && Apply(timeouts, s, acts[0]).Some?
    && (Ends(s, acts[0], error, fate) || Meets(timeouts, Apply(timeouts, s, acts[0]).value, acts[1..], error, fate))
  }

  ghost predicate MeetsAnEnd(timeouts: Timeouts, s: System, acts: seq<Act>, error: string) {
    exists fate :: Meets(timeouts, s, acts, error, fate)
  }

  lemma MeetsNext(timeouts: Timeouts, s: System, acts: seq<Act>, next: System, error: string, fate: Fate)
    requires acts != [] && Next(timeouts, s, acts[0], next)
    ensures Meets(timeouts, s, acts, error, fate) <==> Ends(s, acts[0], error, fate) || Meets(timeouts, next, acts[1..], error, fate)
  {
  }

  /** A failed publication leaves its error with the lifecycle. */
  lemma FailureIsHeld(timeouts: Timeouts, s: System, p: nat, pending: Option<nat>, s': System)
    requires Next(timeouts, s, Finish(p, pending), s') && s.processes[p].error.Some?
    ensures s'.life.diagnostic == s.processes[p].error && Held(s', s.processes[p].error.value)
  {
  }

  lemma StandingErrorStep(timeouts: Timeouts, s: System, act: Act, s': System, error: string)
    requires Next(timeouts, s, act, s') && s.life.diagnostic == Some(error)
    ensures Held(s', error) || Ends(s, act, error, Answered) || Ends(s, act, error, Replaced)
  {
    if act.EnterShutdown? && s'.life.diagnostic.None? { assert Carries(s', act.p, error); }
  }

  lemma CarriedErrorStep(timeouts: Timeouts, s: System, act: Act, s': System, p: nat, error: string)
    requires GapsMatch(s) && Next(timeouts, s, act, s') && Carries(s, p, error)
    ensures Carries(s', p, error) || Ends(s, act, error, Answered) || Ends(s, act, error, Dropped)
  {
  }

  /**
   * Over any run the error of a failed publication is still held, or was answered by a settle or
   * shutdown call, or replaced by a later failure, or dropped by a shutdown call that found a
   * publication in flight at its second lock.
   */
  lemma {:induction false} ErrorAccounted(timeouts: Timeouts, s: System, acts: seq<Act>, s': System, error: string)
    requires Inv(s) && Play(timeouts, s, acts) == Some(s') && Held(s, error)
    ensures Held(s', error) || MeetsAnEnd(timeouts, s, acts, error)
    decreases |acts|
  {
    if acts != [] {
      var next := Apply(timeouts, s, acts[0]).value;
      StepInv(timeouts, s, acts[0], next);
      if s.life.diagnostic == Some(error) {
        StandingErrorStep(timeouts, s, acts[0], next, error);
      } else {
        var p :| Carries(s, p, error);
        CarriedErrorStep(timeouts, s, acts[0], next, p, error);
      }
      if fate :| Ends(s, acts[0], error, fate) {
        MeetsNext(timeouts, s, acts, next, error, fate);
      } else {
        ErrorAccounted(timeouts, next, acts[1..], s', error);
        if fate :| Meets(timeouts, next, acts[1..], error, fate) {
          MeetsNext(timeouts, s, acts, next, error, fate);
        }
      }
    }
  }

  /** From the failure on, in every run. */
  lemma FailureAccounted(timeouts: Timeouts, s: System, p: nat, pending: Option<nat>, next: System, acts: seq<Act>, s': System)
    requires Reachable(timeouts, s) && Next(timeouts, s, Finish(p, pending), next) && s.processes[p].error.Some?
    requires Play(timeouts, next, acts) == Some(s')
    ensures Held(s', s.processes[p].error.value) || MeetsAnEnd(timeouts, next, acts, s.processes[p].error.value)
  {
    ReachableInv(timeouts, s);
    StepInv(timeouts, s, Finish(p, pending), next);
    ErrorAccounted(timeouts, next, acts, s', s.processes[p].error.value);
  }

  // ---- the error that is dropped ----

  /** A shutdown call that took an error answers it exactly if no publication is in flight at its second lock. */
  lemma TakenIsAnsweredIff(timeouts: Timeouts, s: System, p: nat, error: string, s': System)
    requires Reachable(timeouts, s) && Next(timeouts, s, CommitShutdown(p), s') && Carries(s, p, error)
    ensures AnswerOf(s, CommitShutdown(p)) == if s.life.flush.None? then Some(Outcome(Some(error))) else None
    ensures !Carries(s', p, error) && s'.life.diagnostic == s.life.diagnostic
  {
    ReachableInv(timeouts, s);
  }

  /** No other call of settle or shutdown is going on, and no publication. */
  ghost predicate Alone(s: System, p: nat) {
    && s.life.flush.None?
    && forall q | q in s.processes && q != p :: !CallsOn(s.processes[q])
  }

  /** Part of a call of settle or shutdown. */
  predicate CallsOn(process: Process) {
    || process.Settling? || process.SettleGap? || process.Shutting? || process.ShutdownGap?
    || (process.Scheduling? && !process.caller.Timed?)
  }

  ghost predicate NoCallStarts(acts: seq<Act>) {
    forall act | act in acts :: !act.CallSettle? && !act.CallShutdown?
  }

  lemma AloneStep(timeouts: Timeouts, s: System, act: Act, s': System, p: nat, error: string)
    requires Inv(s) && Alone(s, p) && Carries(s, p, error) && Next(timeouts, s, act, s')
    requires !act.CallSettle? && !act.CallShutdown? && act != CommitShutdown(p)
    ensures Alone(s', p) && Carries(s', p, error)
  {
    NoneFlushes(s);
    if p != Actor(act) { OthersStay(timeouts, s, act, s', p); }
  }

  lemma NoneFlushes(s: System)
    requires FlushesNamed(s) && s.life.flush.None?
    ensures forall q | q in s.processes :: !s.processes[q].Flushes()
  {
  }

  /** The guard of a caller: one call at a time, and shutdown answers the error it took, whatever else goes on. */
  lemma {:induction false} LoneShutdownAnswers(timeouts: Timeouts, s: System, p: nat, error: string,
                                               acts: seq<Act>, last: System, s': System)
    requires Inv(s) && Alone(s, p) && Carries(s, p, error)
    requires NoCallStarts(acts) && CommitShutdown(p) !in acts
    requires Play(timeouts, s, acts) == Some(last) && Next(timeouts, last, CommitShutdown(p), s')
    ensures AnswerOf(last, CommitShutdown(p)) == Some(Outcome(Some(error)))
    decreases |acts|
  {
    if acts != [] {
      var next := Apply(timeouts, s, acts[0]).value;
      AloneStep(timeouts, s, acts[0], next, p, error);
      StepInv(timeouts, s, acts[0], next);
      LoneShutdownAnswers(timeouts, next, p, error, acts[1..], last, s');
    }
  }

  /** A shutdown call takes "disk full", finds another publication in flight, waits, and in the end reports success. */
  lemma ErrorCanBeLost(timeouts: Timeouts) returns (s: System, acts: seq<Act>, s': System)
    ensures Reachable(timeouts, s) && Carries(s, 3, "disk full")
    ensures Play(timeouts, s, acts) == Some(s') && AnswerOf(s', CommitShutdown(3)) == Some(Outcome(None))
    ensures !Held(s', "disk full")
    ensures !Meets(timeouts, s, acts, "disk full", Answered) && !Meets(timeouts, s, acts, "disk full", Replaced)
  {
    s := SecondShutdownStarts(timeouts);
    var s1 := Apply(timeouts, s, CommitShutdown(3)).value;
    assert s1.processes == map[3 := Shutting, 4 := Publishing(1, FromShutdown)];
    var s2 := Apply(timeouts, s1, Publish(4, None)).value;
    var s3 := Apply(timeouts, s2, Finish(4, None)).value;
    assert s3.processes == map[3 := Shutting, 4 := Shutting];
    var s4 := Apply(timeouts, s3, EnterShutdown(3)).value;
    s' := Apply(timeouts, s4, ReadShutdown(3, None)).value;
    assert s'.processes == map[3 := ShutdownGap(None, NothingPending), 4 := Shutting];
    acts := [CommitShutdown(3), Publish(4, None), Finish(4, None), EnterShutdown(3), ReadShutdown(3, None)];
    LosingRun(timeouts, s, s1, s2, s3, s4, s', acts, Answered);
    LosingRun(timeouts, s, s1, s2, s3, s4, s', acts, Replaced);
  }

  lemma LosingRun(timeouts: Timeouts, s: System, s1: System, s2: System, s3: System, s4: System, s': System,
                  acts: seq<Act>, fate: Fate)
    requires acts == [CommitShutdown(3), Publish(4, None), Finish(4, None), EnterShutdown(3), ReadShutdown(3, None)]
    requires Next(timeouts, s, acts[0], s1) && Next(timeouts, s1, acts[1], s2) && Next(timeouts, s2, acts[2], s3)
    requires Next(timeouts, s3, acts[3], s4) && Next(timeouts, s4, acts[4], s')
    requires !Ends(s, acts[0], "disk full", fate) && !Ends(s1, acts[1], "disk full", fate) && !Ends(s2, acts[2], "disk full", fate)
    requires !Ends(s3, acts[3], "disk full", fate) && !Ends(s4, acts[4], "disk full", fate)
    ensures Play(timeouts, s, acts) == Some(s') && !Meets(timeouts, s, acts, "disk full", fate)
  {
    var a1, a2, a3, a4 := acts[1..], acts[2..], acts[3..], acts[4..];
    assert acts[1..] == a1 && a1[1..] == a2 && a2[1..] == a3 && a3[1..] == a4 && a4[1..] == [];
    assert Play(timeouts, s3, a3) == Some(s') by { assert Play(timeouts, s4, a4) == Some(s'); }
    assert Play(timeouts, s1, a1) == Some(s') by { assert Play(timeouts, s2, a2) == Some(s'); }
    MeetsNext(timeouts, s4, a4, s', "disk full", fate);
    MeetsNext(timeouts, s3, a3, s4, "disk full", fate);
    MeetsNext(timeouts, s2, a2, s3, "disk full", fate);
    MeetsNext(timeouts, s1, a1, s2, "disk full", fate);
    MeetsNext(timeouts, s, acts, s1, "disk full", fate);
  }

  // ---- shutdown ----

  /** Once Closed, every further call answers at once, with the outcome that is recorded. */
  lemma ClosedAnswersOutcome(timeouts: Timeouts, s: System, p: nat, s': System)
    requires Reachable(timeouts, s) && s.life.activity.Closed? && Next(timeouts, s, EnterShutdown(p), s')
    ensures s.life.shutdownOutcome.Some? && AnswerOf(s, EnterShutdown(p)) == s.life.shutdownOutcome
    ensures p !in s'.processes && s'.life == s.life
  {
    ReachableInv(timeouts, s);
  }

  /** A call answers an outcome somewhere along a run. */
  ghost predicate AnswersIn(timeouts: Timeouts, s: System, acts: seq<Act>, outcome: Outcome)
    decreases |acts|
  {
    && acts != [] && Apply(timeouts, s, acts[0]).Some?
    && ((acts[0].CommitShutdown? && AnswerOf(s, acts[0]) == Some(outcome))
        || AnswersIn(timeouts, Apply(timeouts, s, acts[0]).value, acts[1..], outcome))
  }

  lemma OutcomeIsAnswered(timeouts: Timeouts, s: System, act: Act, s': System)
    requires Next(timeouts, s, act, s') && s'.life.activity.Closed? && s'.life.shutdownOutcome.Some?
    requires !s.life.activity.Closed? || s'.life.shutdownOutcome != s.life.shutdownOutcome
    ensures act.CommitShutdown? && AnswerOf(s, act) == s'.life.shutdownOutcome
  {
  }

  lemma {:induction false} OutcomeAnsweredOrStood(timeouts: Timeouts, s: System, acts: seq<Act>, s': System)
    requires Inv(s) && Play(timeouts, s, acts) == Some(s') && s'.life.activity.Closed?
    ensures s'.life.shutdownOutcome.Some?
    ensures (s.life.activity.Closed? && s.life.shutdownOutcome == s'.life.shutdownOutcome)
            || AnswersIn(timeouts, s, acts, s'.life.shutdownOutcome.value)
    decreases |acts|
  {
    if acts != [] {
      var next := Apply(timeouts, s, acts[0]).value;
      StepInv(timeouts, s, acts[0], next);
      OutcomeAnsweredOrStood(timeouts, next, acts[1..], s');
      if next.life.activity.Closed? && next.life.shutdownOutcome == s'.life.shutdownOutcome
         && !(s.life.activity.Closed? && s.life.shutdownOutcome == s'.life.shutdownOutcome) {
        OutcomeIsAnswered(timeouts, s, acts[0], next);
      }
    }
  }

  /** The outcome recorded is one that a shutdown call has answered. */
  lemma RecordedWasAnswered(timeouts: Timeouts, acts: seq<Act>, s: System)
    requires Play(timeouts, START, acts) == Some(s) && s.life.activity.Closed?
    ensures s.life.shutdownOutcome.Some? && AnswersIn(timeouts, START, acts, s.life.shutdownOutcome.value)
  {
    OutcomeAnsweredOrStood(timeouts, START, acts, s);
  }

  // ---- when a call waits, publishes or ends ----

  /** A run or a publication that `settle` has to wait for. */
  predicate Busy(s: System) {
    s.life.activity.Active? || s.life.flush.Some?
  }

  /** A run or a publication that `shutdown` has to wait for. */
  predicate Draining(s: System) {
    s.life.shutdownRun.Some? || s.life.flush.Some?
  }

  /** At both its locks a settle call waits exactly while a run or a publication is going on; between them
      it reads the generations, and publishes exactly what it read. */
  lemma SettleWaitsIff(timeouts: Timeouts, s: System, p: nat, act: Act, s': System)
    requires Next(timeouts, s, act, s') && (act == EnterSettle(p) || act == CommitSettle(p))
    requires act.EnterSettle? ==> s.life.diagnostic.None?
    ensures p in s'.processes && s'.processes[p].Settling? <==> Busy(s)
    ensures act.EnterSettle? && !Busy(s) ==> p in s'.processes && s'.processes[p] == SettleGap(Unread)
    ensures act.CommitSettle? && !Busy(s) ==>
              match s.processes[p].seen
              case Pending(target) =>
                p in s'.processes && s'.processes[p] == Publishing(target, FromSettle) && s'.life.flush == Some(target)
              case _ => p !in s'.processes && s'.life == s.life.(activity := if s.life.activity.Idle? then Ready else s.life.activity)
    ensures act.EnterSettle? ==> s'.life.scheduled.None? && s'.life.activity == s.life.activity && s'.life.flush == s.life.flush
  {
  }

  /** The first shutdown call ends the cache's working life at once, whatever it was doing: no timer is left,
      and exactly the run that is active is waited for. */
  lemma ShutdownBegins(timeouts: Timeouts, s: System, p: nat, s': System)
    requires Next(timeouts, s, EnterShutdown(p), s') && !Ending(s.life.activity)
    ensures s'.life.activity.ShuttingDown? && s'.life.scheduled.None?
    ensures s'.life.initialStoreDeadline.None? && s'.life.ordinaryDeadline.None? && s'.life.largeChangeDeadline.None?
    ensures s.life.activity.Active? ==> s'.life.shutdownRun == Some(s.life.activity.runId)
    ensures !s.life.activity.Active? ==> s'.life.shutdownRun == s.life.shutdownRun
    ensures s'.life.flush == s.life.flush && s'.life.diagnostic == s.life.diagnostic
    ensures p in s'.processes && s'.processes[p].Shutting?
  {
  }

  /** From then on, at both its locks, a shutdown call waits exactly while that run or a publication is going on;
      between them it takes the diagnostic and reads the generations, and publishes what it read only without one. */
  lemma ShutdownWaitsIff(timeouts: Timeouts, s: System, p: nat, act: Act, s': System)
    requires Next(timeouts, s, act, s') && (act == EnterShutdown(p) || act == CommitShutdown(p))
    requires act.EnterShutdown? ==> s.life.activity.ShuttingDown?
    ensures p in s'.processes && s'.processes[p].Shutting? <==> Draining(s)
    ensures act.EnterShutdown? && !Draining(s) ==>
              p in s'.processes && s'.processes[p] == ShutdownGap(s.life.diagnostic, Unread) && s'.life.diagnostic.None?
    ensures act.CommitShutdown? && !Draining(s) ==>
              match (s.processes[p].taken, s.processes[p].seen)
              case (None, Pending(target)) =>
                p in s'.processes && s'.processes[p] == Publishing(target, FromShutdown) && s'.life.flush == Some(target)
              case (taken, _) => p !in s'.processes && AnswerOf(s, act) == Some(Outcome(taken))
  {
  }

  /** Whenever a shutdown call answers, the lifecycle is closed with what it answers. */
  lemma AnsweredIsClosed(timeouts: Timeouts, s: System, act: Act, s': System)
    requires Reachable(timeouts, s) && Next(timeouts, s, act, s')
    requires (act.EnterShutdown? || act.CommitShutdown?) && AnswerOf(s, act).Some?
    ensures s'.life.activity.Closed? && s'.life.shutdownOutcome == AnswerOf(s, act)
  {
    ReachableInv(timeouts, s);
  }
}
