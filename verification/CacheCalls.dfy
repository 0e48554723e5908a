/** What `settle` and `shutdown` promise over a whole call, while other processes go on between its locks. */
module CacheCalls {
  import opened Options
  import opened CacheLifecycles
  import opened CacheProtocol

  // ---- runs put together ----

  lemma {:induction false} PlayConcat(timeouts: Timeouts, s: System, acts: seq<Act>, middle: System, more: seq<Act>, s': System)
    requires Play(timeouts, s, acts) == Some(middle) && Play(timeouts, middle, more) == Some(s')
    ensures Play(timeouts, s, acts + more) == Some(s')
    decreases |acts|
  {
    var longer := acts + more;
    if acts == [] {
      assert longer == more;
    } else {
      assert longer[0] == acts[0] && longer[1..] == acts[1..] + more;
      PlayConcat(timeouts, Apply(timeouts, s, acts[0]).value, acts[1..], middle, more, s');
    }
  }

  lemma {:induction false} PlayBounded(timeouts: Timeouts, s: System, acts: seq<Act>, s': System)
    requires Bounded(s) && Play(timeouts, s, acts) == Some(s')
    ensures Bounded(s') && s.published <= s'.published && s.dirty <= s'.dirty
    decreases |acts|
  {
    if acts != [] {
      var next := Apply(timeouts, s, acts[0]).value;
      BoundedStep(timeouts, s, acts[0], next);
      PlayBounded(timeouts, next, acts[1..], s');
    }
  }

  // ---- an active run has a process ----

  ghost predicate RunLive(s: System) {
    s.life.activity.Active? || s.life.shutdownRun.Some? ==> exists p :: p in s.processes && s.processes[p].Running?
  }

  /** A run that shutdown waits for is named only while shutting down. */
  ghost predicate ShutdownRunNamed(s: System) {
    s.life.shutdownRun.Some? ==> s.life.activity.ShuttingDown?
  }

  lemma ShutdownRunNamedStep(timeouts: Timeouts, s: System, act: Act, s': System)
    requires ShutdownRunNamed(s) && Next(timeouts, s, act, s')
    ensures ShutdownRunNamed(s')
  {
  }

  /** The run that ends was the active one. */
  lemma RunEnds(timeouts: Timeouts, s: System, p: nat, pending: Option<nat>, initialStore: bool, s': System)
    requires RunsActive(s) && ShutdownRunNamed(s) && Next(timeouts, s, FinishRun(p, pending, initialStore), s')
    ensures !s'.life.activity.Active? && s'.life.shutdownRun.None?
  {
  }

  lemma RunLiveStep(timeouts: Timeouts, s: System, act: Act, s': System)
    requires RunsActive(s) && RunLive(s) && ShutdownRunNamed(s) && Next(timeouts, s, act, s')
    ensures RunLive(s')
  {
    if act.StartRun? {
      assert act.p in s'.processes && s'.processes[act.p].Running?;
    } else if act.FinishRun? {
      RunEnds(timeouts, s, act.p, act.pending, act.initialStore, s');
    } else if s'.life.activity.Active? || s'.life.shutdownRun.Some? {
      var p :| p in s.processes && s.processes[p].Running?;
      if p != Actor(act) { OthersStay(timeouts, s, act, s', p); }
      assert p in s'.processes && s'.processes[p].Running?;
    }
  }

  lemma {:induction false} PlayRunLive(timeouts: Timeouts, s: System, acts: seq<Act>, s': System)
    requires Inv(s) && RunLive(s) && ShutdownRunNamed(s) && Play(timeouts, s, acts) == Some(s')
    ensures RunLive(s')
    decreases |acts|
  {
    if acts != [] {
      var next := Apply(timeouts, s, acts[0]).value;
      StepInv(timeouts, s, acts[0], next);
      RunLiveStep(timeouts, s, acts[0], next);
      ShutdownRunNamedStep(timeouts, s, acts[0], next);
      PlayRunLive(timeouts, next, acts[1..], s');
    }
  }

  // ---- settle: when nothing can be overlooked ----

  ghost predicate NoneRuns(s: System) {
    forall p | p in s.processes :: !s.processes[p].Running?
  }

  /** A settle call between its locks, and what it has read still holds. */
  ghost predicate SettleKnows(s: System, p: nat) {
    p in s.processes && s.processes[p].SettleGap?
    && (s.processes[p].seen.NothingPending? ==> s.published == s.dirty)
  }

  ghost predicate NoRunStarts(acts: seq<Act>) {
    forall act | act in acts :: !act.StartRun?
  }

  lemma KnowsStep(timeouts: Timeouts, s: System, act: Act, s': System, p: nat)
    requires Bounded(s) && NoneRuns(s) && SettleKnows(s, p) && Next(timeouts, s, act, s')
    requires !act.StartRun? && act != CommitSettle(p)
    ensures NoneRuns(s') && SettleKnows(s', p)
  {
    BoundedStep(timeouts, s, act, s');
    if p != Actor(act) { OthersStay(timeouts, s, act, s', p); }
  }

  lemma {:induction false} PlayKnows(timeouts: Timeouts, s: System, acts: seq<Act>, s': System, p: nat)
    requires Bounded(s) && NoneRuns(s) && SettleKnows(s, p) && Play(timeouts, s, acts) == Some(s')
    requires NoRunStarts(acts) && CommitSettle(p) !in acts
    ensures SettleKnows(s', p)
    decreases |acts|
  {
    if acts != [] {
      var next := Apply(timeouts, s, acts[0]).value;
      KnowsStep(timeouts, s, acts[0], next, p);
      BoundedStep(timeouts, s, acts[0], next);
      PlayKnows(timeouts, next, acts[1..], s', p);
    }
  }

  /** The call reports success: nothing was seen pending, and it returns. */
  ghost predicate SettleReturns(timeouts: Timeouts, last: System, p: nat, s': System) {
    Next(timeouts, last, CommitSettle(p), s') && p !in s'.processes
  }

  /**
   * The guard of a caller: if no run is active when `settle` drops its lock, and none starts before
   * it takes the lock again, then success means that nothing is pending, whatever else goes on.
   */
  lemma GuardedSettleStrandsNothing(timeouts: Timeouts, s: System, p: nat, acts: seq<Act>, last: System, s': System)
    requires Reachable(timeouts, s) && p in s.processes && s.processes[p] == SettleGap(Unread)
    requires NoneRuns(s) && NoRunStarts(acts) && CommitSettle(p) !in acts
    requires Play(timeouts, s, acts) == Some(last) && SettleReturns(timeouts, last, p, s')
    ensures s'.dirty == s'.published
  {
    ReachableInv(timeouts, s);
    PlayKnows(timeouts, s, acts, last, p);
  }

  // ---- settle: what it overlooks ----

  /** The generations given to the stores of a run. */
  function StoredIn(timeouts: Timeouts, s: System, acts: seq<Act>): set<nat>
    requires Play(timeouts, s, acts).Some?
    decreases |acts|
  {
    if acts == [] then {}
    else
      var next := Apply(timeouts, s, acts[0]).value;
      (if acts[0].Store? then {next.dirty} else {}) + StoredIn(timeouts, next, acts[1..])
  }

  lemma {:induction false} StoredAre(timeouts: Timeouts, s: System, acts: seq<Act>, s': System)
    requires Bounded(s) && Play(timeouts, s, acts) == Some(s')
    ensures forall g: nat :: g in StoredIn(timeouts, s, acts) <==> s.dirty < g <= s'.dirty
    decreases |acts|
  {
    if acts != [] {
      var next := Apply(timeouts, s, acts[0]).value;
      BoundedStep(timeouts, s, acts[0], next);
      StoredAre(timeouts, next, acts[1..], s');
      PlayBounded(timeouts, next, acts[1..], s');
    }
  }

  /**
   * A call that read that nothing is pending and then reports success leaves something pending
   * exactly if a store made after its read has not been published.
   */
  lemma SettleStrandsIff(timeouts: Timeouts, before: System, p: nat, s: System, acts: seq<Act>, last: System, s': System)
    requires Reachable(timeouts, before) && Next(timeouts, before, ReadSettle(p, None), s)
    requires CommitSettle(p) !in acts && Play(timeouts, s, acts) == Some(last) && SettleReturns(timeouts, last, p, s')
    ensures s'.dirty > s'.published <==> exists g :: g in StoredIn(timeouts, s, acts) && g > s'.published
  {
    ReachableInv(timeouts, before);
    BoundedStep(timeouts, before, ReadSettle(p, None), s);
    StoredAre(timeouts, s, acts, last);
    PlayBounded(timeouts, s, acts, last);
    if s'.dirty > s'.published { assert s'.dirty in StoredIn(timeouts, s, acts); }
  }

  // ---- settle: exactly when a call can be made to overlook something ----

  ghost predicate CanStrand(timeouts: Timeouts, s: System, p: nat) {
    exists acts: seq<Act>, last: System, s': System ::
      Strands(timeouts, s, p, acts, last, s')
  }

  ghost predicate Strands(timeouts: Timeouts, s: System, p: nat, acts: seq<Act>, last: System, s': System) {
    && CommitSettle(p) !in acts && Play(timeouts, s, acts) == Some(last)
    && SettleReturns(timeouts, last, p, s') && s'.dirty > s'.published
  }

  /** Runs may still store: the cache is not shutting down, or shutdown waits for a run. */
  predicate RunsMayStore(life: Lifecycle) {
    !Ending(life.activity) || life.shutdownRun.Some?
  }

  lemma {:induction false} EndingStartsNone(timeouts: Timeouts, s: System, acts: seq<Act>)
    requires Ending(s.life.activity) && Play(timeouts, s, acts).Some?
    ensures NoRunStarts(acts)
    decreases |acts|
  {
    if acts != [] {
      var next := Apply(timeouts, s, acts[0]).value;
      EndingStep(timeouts, s, acts[0], next);
      EndingStartsNone(timeouts, next, acts[1..]);
      assert forall act | act in acts :: act == acts[0] || act in acts[1..];
    }
  }

  /** Acts that leave a call alone, and what they lead to. */
  ghost predicate Leads(timeouts: Timeouts, s: System, acts: seq<Act>, s': System, p: nat) {
    && Play(timeouts, s, acts) == Some(s') && CommitSettle(p) !in acts
    && p in s.processes && p in s'.processes
  }

  lemma LeadsOn(timeouts: Timeouts, s: System, acts: seq<Act>, middle: System, act: Act, s': System, p: nat)
    requires Leads(timeouts, s, acts, middle, p) && Next(timeouts, middle, act, s') && act != CommitSettle(p) && p in s'.processes
    ensures Leads(timeouts, s, acts + [act], s', p)
  {
    PlayAppend(timeouts, s, acts, act, middle, s');
  }

  /** Nothing moved but the publication, and it is over. */
  ghost predicate Quieted(s: System, s': System) {
    && s'.life.flush.None? && s'.life.activity == s.life.activity
    && s'.life.shutdownRun == s.life.shutdownRun && s'.life.shutdownOutcome == s.life.shutdownOutcome
    && forall q | q in s.processes && !s.processes[q].Flushes() :: q in s'.processes && s'.processes[q] == s.processes[q]
  }

  lemma FlushFinishes(timeouts: Timeouts, s: System, q: nat) returns (s': System)
    requires Inv(s) && q in s.processes && s.processes[q].Published?
    ensures Next(timeouts, s, Finish(q, Some(s.dirty)), s') && Inv(s') && Quieted(s, s')
  {
    s' := Apply(timeouts, s, Finish(q, Some(s.dirty))).value;
    StepInv(timeouts, s, Finish(q, Some(s.dirty)), s');
  }

  lemma FlushPublishes(timeouts: Timeouts, s: System, q: nat) returns (s': System)
    requires Inv(s) && q in s.processes && s.processes[q].Publishing?
    ensures Next(timeouts, s, Publish(q, None), s') && Inv(s') && s'.life == s.life
    ensures q in s'.processes && s'.processes[q].Published?
    ensures forall o | o in s.processes && o != q :: o in s'.processes && s'.processes[o] == s.processes[o]
  {
    s' := Apply(timeouts, s, Publish(q, None)).value;
    StepInv(timeouts, s, Publish(q, None), s');
  }

  /** The publication going on, if any, can be brought to its end; no other process moves. */
  lemma FlushEnds(timeouts: Timeouts, s: System, p: nat) returns (acts: seq<Act>, s': System)
    requires Inv(s) && p in s.processes && !s.processes[p].Flushes()
    ensures Leads(timeouts, s, acts, s', p) && Inv(s') && Quieted(s, s')
  {
    acts, s' := [], s;
    if s.life.flush.Some? {
      var q :| q in s.processes && s.processes[q].Flushes();
      if s.processes[q].Publishing? {
        s' := FlushPublishes(timeouts, s, q);
        LeadsOn(timeouts, s, [], s, Publish(q, None), s', p);
        acts := [] + [Publish(q, None)];
      }
      var last := FlushFinishes(timeouts, s', q);
      LeadsOn(timeouts, s, acts, s', Finish(q, Some(s'.dirty)), last, p);
      acts, s' := acts + [Finish(q, Some(s'.dirty))], last;
    }
  }

  lemma {:induction false} Above(keys: set<nat>) returns (n: nat)
    ensures forall k: nat | k in keys :: k < n
    decreases |keys|
  {
    n := 0;
    if k: nat :| k in keys {
      n := Above(keys - {k});
      n := if n <= k then k + 1 else n;
      forall j: nat | j in keys ensures j < n { assert j == k || j in keys - {k}; }
    }
  }

  /** A run is going on, or one starts now. */
  lemma SomeRun(timeouts: Timeouts, s: System, p: nat) returns (acts: seq<Act>, s': System, r: nat)
    requires Inv(s) && RunLive(s) && RunsMayStore(s.life) && s.life.flush.None?
    requires p in s.processes && s.processes[p] == SettleGap(Unread)
    ensures Leads(timeouts, s, acts, s', p) && Inv(s') && s'.life.flush.None?
    ensures s'.processes[p] == SettleGap(Unread) && r in s'.processes && s'.processes[r].Running?
  {
    acts, s' := [], s;
    if q :| q in s.processes && s.processes[q].Running? {
      r := q;
    } else {
      r := Above(s.processes.Keys);
      assert r !in s.processes;
      var next := Apply(timeouts, s, StartRun(r, false)).value;
      StepInv(timeouts, s, StartRun(r, false), next);
      LeadsOn(timeouts, s, acts, s, StartRun(r, false), next, p);
      acts, s' := [StartRun(r, false)], next;
    }
  }

  lemma CanStrandBefore(timeouts: Timeouts, s: System, act: Act, next: System, p: nat)
    requires Next(timeouts, s, act, next) && act != CommitSettle(p) && CanStrand(timeouts, next, p)
    ensures CanStrand(timeouts, s, p)
  {
    var acts: seq<Act>, last: System, s': System :| Strands(timeouts, next, p, acts, last, s');
    var longer := [act] + acts;
    assert longer[0] == act && longer[1..] == acts;
    assert Strands(timeouts, s, p, longer, last, s');
  }

  /** A call that has seen nothing pending commits while something is. */
  lemma StrandsNow(timeouts: Timeouts, s: System, p: nat)
    requires p in s.processes && s.processes[p] == SettleGap(NothingPending)
    requires !s.life.activity.Active? && s.life.flush.None? && s.dirty > s.published
    ensures CanStrand(timeouts, s, p)
  {
    var s' := Apply(timeouts, s, CommitSettle(p)).value;
    assert Strands(timeouts, s, p, [], s, s');
  }

  /** While a run is going on, a call that has seen nothing pending overlooks what the run stores. */
  lemma StoreOverlooked(timeouts: Timeouts, s: System, p: nat, r: nat)
    requires Inv(s) && s.life.flush.None? && p in s.processes && s.processes[p] == SettleGap(NothingPending)
    requires r in s.processes && s.processes[r].Running?
    ensures CanStrand(timeouts, s, p)
  {
    var stored := s.(dirty := s.dirty + 1);
    var finish := FinishRun(r, Some(stored.dirty), false);
    var last := Apply(timeouts, stored, finish).value;
    StrandsNow(timeouts, last, p);
    CanStrandBefore(timeouts, stored, finish, last, p);
    CanStrandBefore(timeouts, s, Store(r), stored, p);
  }

  /** While a run is going on, a call that has not read yet overlooks a store made after its read. */
  lemma RunOverlooked(timeouts: Timeouts, s: System, p: nat, r: nat)
    requires Inv(s) && s.life.flush.None? && p in s.processes && s.processes[p] == SettleGap(Unread)
    requires r in s.processes && s.processes[r].Running?
    ensures CanStrand(timeouts, s, p)
  {
    var flushed := s.(published := Max(s.published, s.dirty));
    StepInv(timeouts, s, FlushCache(s.dirty), flushed);
    var read := flushed.(processes := flushed.processes[p := SettleGap(NothingPending)]);
    StepInv(timeouts, flushed, ReadSettle(p, None), read);
    StoreOverlooked(timeouts, read, p, r);
    CanStrandBefore(timeouts, flushed, ReadSettle(p, None), read, p);
    CanStrandBefore(timeouts, s, FlushCache(s.dirty), flushed, p);
  }

  lemma CanStrandLater(timeouts: Timeouts, s: System, acts: seq<Act>, middle: System, p: nat)
    requires Leads(timeouts, s, acts, middle, p) && CanStrand(timeouts, middle, p)
    ensures CanStrand(timeouts, s, p)
  {
    var more: seq<Act>, last: System, s': System :| Strands(timeouts, middle, p, more, last, s');
    PlayConcat(timeouts, s, acts, middle, more, last);
    assert Strands(timeouts, s, p, acts + more, last, s');
  }

  /**
   * Whether a `settle` call that has dropped its lock can still report success and leave something
   * pending: exactly if a run may still store, which holds unless shutdown has begun and waits for none.
   */
  lemma SettleCanStrandIff(timeouts: Timeouts, s: System, p: nat)
    requires Reachable(timeouts, s) && p in s.processes && s.processes[p] == SettleGap(Unread)
    ensures CanStrand(timeouts, s, p) <==> RunsMayStore(s.life)
  {
    ReachableInv(timeouts, s);
    if RunsMayStore(s.life) {
      var from :| Play(timeouts, START, from) == Some(s);
      PlayRunLive(timeouts, START, from, s);
      var acts, quiet := FlushEnds(timeouts, s, p);
      QuietedRunLive(s, quiet);
      var more, running, r := SomeRun(timeouts, quiet, p);
      RunOverlooked(timeouts, running, p, r);
      CanStrandLater(timeouts, quiet, more, running, p);
      CanStrandLater(timeouts, s, acts, quiet, p);
    } else if CanStrand(timeouts, s, p) {
      var acts: seq<Act>, last: System, s': System :| Strands(timeouts, s, p, acts, last, s');
      EndingStartsNone(timeouts, s, acts);
      GuardedSettleStrandsNothing(timeouts, s, p, acts, last, s');
    }
  }

  lemma QuietedRunLive(s: System, quiet: System)
    requires RunLive(s) && Quieted(s, quiet)
    ensures RunLive(quiet)
  {
    if q :| q in s.processes && s.processes[q].Running? {
      assert q in quiet.processes && quiet.processes[q].Running?;
    }
  }

  // ---- shutdown: exactly when the closed outcome can change ----

  /** A shutdown call between its locks that may still write an outcome. */
  predicate MayWrite(process: Process) {
    process.ShutdownGap? && (process.taken.Some? || !process.seen.Pending?)
  }

  /** Nothing still going on writes an outcome other than the one there is. */
  ghost predicate OutcomeSafe(s: System) {
    && s.life.activity.Closed?
    && forall p | p in s.processes && MayWrite(s.processes[p]) :: Some(Outcome(s.processes[p].taken)) == s.life.shutdownOutcome
  }

  lemma OutcomeSafeStep(timeouts: Timeouts, s: System, act: Act, s': System)
    requires OutcomeSafe(s) && Next(timeouts, s, act, s')
    ensures OutcomeSafe(s') && s'.life.shutdownOutcome == s.life.shutdownOutcome
  {
    EndingStep(timeouts, s, act, s');
  }

  lemma {:induction false} OutcomeSafeStays(timeouts: Timeouts, s: System, acts: seq<Act>, s': System)
    requires OutcomeSafe(s) && Play(timeouts, s, acts) == Some(s')
    ensures s'.life.shutdownOutcome == s.life.shutdownOutcome
    decreases |acts|
  {
    if acts != [] {
      var next := Apply(timeouts, s, acts[0]).value;
      OutcomeSafeStep(timeouts, s, acts[0], next);
      OutcomeSafeStays(timeouts, next, acts[1..], s');
    }
  }

  ghost predicate OutcomeCanChange(timeouts: Timeouts, s: System) {
    exists acts: seq<Act>, s': System :: ChangesOutcome(timeouts, s, acts, s')
  }

  ghost predicate ChangesOutcome(timeouts: Timeouts, s: System, acts: seq<Act>, s': System) {
    Play(timeouts, s, acts) == Some(s') && s'.life.shutdownOutcome != s.life.shutdownOutcome
  }

  lemma CanChangeBefore(timeouts: Timeouts, s: System, act: Act, next: System)
    requires Next(timeouts, s, act, next) && OutcomeCanChange(timeouts, next)
    requires next.life.shutdownOutcome == s.life.shutdownOutcome
    ensures OutcomeCanChange(timeouts, s)
  {
    var acts: seq<Act>, s': System :| ChangesOutcome(timeouts, next, acts, s');
    var longer := [act] + acts;
    assert longer[0] == act && longer[1..] == acts;
    assert ChangesOutcome(timeouts, s, longer, s');
  }

  /** A call that has read commits. */
  lemma CommitsNow(timeouts: Timeouts, s: System, p: nat)
    requires s.life.shutdownRun.None? && s.life.flush.None?
    requires p in s.processes && MayWrite(s.processes[p]) && !s.processes[p].seen.Unread?
    requires Some(Outcome(s.processes[p].taken)) != s.life.shutdownOutcome
    ensures OutcomeCanChange(timeouts, s)
  {
    var s' := Apply(timeouts, s, CommitShutdown(p)).value;
    var acts := [CommitShutdown(p)];
    assert acts[1..] == [];
    assert ChangesOutcome(timeouts, s, acts, s');
  }

  /** With no publication going on, a call that may write does so. */
  lemma WritesNow(timeouts: Timeouts, s: System, p: nat)
    requires Inv(s) && s.life.activity.Closed? && s.life.flush.None?
    requires p in s.processes && MayWrite(s.processes[p]) && Some(Outcome(s.processes[p].taken)) != s.life.shutdownOutcome
    ensures OutcomeCanChange(timeouts, s)
  {
    if s.processes[p].seen.Unread? {
      var flushed := s.(published := Max(s.published, s.dirty));
      var read := flushed.(processes := flushed.processes[p := ShutdownGap(s.processes[p].taken, NothingPending)]);
      CommitsNow(timeouts, read, p);
      CanChangeBefore(timeouts, flushed, ReadShutdown(p, None), read);
      CanChangeBefore(timeouts, s, FlushCache(s.dirty), flushed);
    } else {
      CommitsNow(timeouts, s, p);
    }
  }

  /**
   * Once Closed, the outcome can still change exactly if a shutdown call between its locks, one that
   * has taken a diagnostic or not yet seen anything pending, would report another outcome.
   */
  lemma OutcomeChangesIff(timeouts: Timeouts, s: System)
    requires Reachable(timeouts, s) && s.life.activity.Closed?
    ensures OutcomeCanChange(timeouts, s) <==>
            exists p :: p in s.processes && MayWrite(s.processes[p]) && Some(Outcome(s.processes[p].taken)) != s.life.shutdownOutcome
  {
    ReachableInv(timeouts, s);
    if p :| p in s.processes && MayWrite(s.processes[p]) && Some(Outcome(s.processes[p].taken)) != s.life.shutdownOutcome {
      var acts, quiet := FlushEnds(timeouts, s, p);
      WritesNow(timeouts, quiet, p);
      var more: seq<Act>, s': System :| ChangesOutcome(timeouts, quiet, more, s');
      PlayConcat(timeouts, s, acts, quiet, more, s');
      assert ChangesOutcome(timeouts, s, acts + more, s');
    } else if OutcomeCanChange(timeouts, s) {
      var acts: seq<Act>, s': System :| ChangesOutcome(timeouts, s, acts, s');
      OutcomeSafeStays(timeouts, s, acts, s');
    }
  }
}
