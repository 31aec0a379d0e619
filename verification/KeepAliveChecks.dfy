/** What `Check` and the refresh thread do accomplish (src/KeepAlive.cpp:161-258), in every interleaving. */
module KeepAliveChecks {
  import opened Ranges
  import opened KeepAlive

  // ----- errors

  /** A call that is on its way to an exception, or has thrown it. */
  predicate Fails(pc: CallerPc) {
    match pc
    case Exchange(failed) => failed
    case Notify(failed) => failed
    case Join(failed) => failed
    case CancelLock(failed) => failed
    case Cancelling(failed) => failed
    case Returned(_, error) => error
    case _ => false
  }

  /** A failed refresh is kept, at the latest when the call that made it comes back; and nothing else is an error. */
  ghost predicate ErrorsKept(s: State) {
    && (Refresher in s.history.failed ==> s.error)
    && (forall t :: Thread(t) in s.history.failed ==> t in s.callers && Fails(s.callers[t]))
    && (forall t :: t in s.callers && s.callers[t].Returned? && s.callers[t].error ==> s.error)
    && (forall t :: t in s.callers && Fails(s.callers[t]) && !s.callers[t].Returned? ==> Thread(t) in s.history.failed)
    && (s.error ==> s.history.failed != {})
  }

  lemma StepKeepsErrorsKept(s: State, e: Step)
    requires ErrorsKept(s) && Enabled(s, e)
    ensures ErrorsKept(Next(s, e))
  {
    if e.Go? {
      GoKeepsErrorsKept(s, e.t, e.good);
    }
  }

  /** A call starts to fail with its refresh, or at a kept error, and keeps the error when it comes back. */
  lemma FailureMoves(s: State, t: nat, good: bool)
    requires Enabled(s, Go(t, good))
    ensures var s' := CallerStep(s, t, good);
            && t in s'.callers && s'.callers == s.callers[t := s'.callers[t]]
            && var (pc, pc') := (s.callers[t], s'.callers[t]);
            && !pc.Returned? && (Fails(pc) ==> Fails(pc')) && (s.error ==> s'.error)
            && (s'.error && !s.error ==> Fails(pc))
            && (Fails(pc') && pc'.Returned? ==> s'.error)
            && (if pc.CheckCalling? && !good then s'.history.failed == s.history.failed + {Thread(t)} && Fails(pc')
                else s'.history.failed == s.history.failed && (Fails(pc') && !pc'.Returned? ==> Fails(pc)))
  {
  }

  lemma GoKeepsErrorsKept(s: State, t: nat, good: bool)
    requires ErrorsKept(s) && Enabled(s, Go(t, good))
    ensures ErrorsKept(CallerStep(s, t, good))
  {
    FailureMoves(s, t, good);
    hide CallerStep, Enabled, Fails;
    FailsWithError(s.callers[t]);
  }

  lemma FailsWithError(pc: CallerPc)
    ensures pc.Returned? ==> (Fails(pc) <==> pc.error)
  {
  }

  // ----- refreshes of a check

  /** In front of its refresh. */
  predicate BeforeRefresh(pc: CallerPc) {
    pc.CheckStart? || pc.CheckLock? || pc.CheckLoading? || pc.CheckLoaded?
  }

  /** Behind the place of its refresh, without an exception so far. */
  predicate BehindRefresh(pc: CallerPc) {
    pc.CheckCalling? || pc.CheckEnd? || (pc.Returned? && !pc.error)
  }

  /** What is known of a call, given whether it is a check, has started a refresh, and whether the flag is set. */
  predicate Account(pc: CallerPc, check: bool, started: bool, flag: bool) {
    if check then
      && (BeforeRefresh(pc) ==> !started)
      && (BehindRefresh(pc) && flag ==> started)
      && (pc.CheckCalling? ==> started)
      && (Winner(pc) || pc.Exchange? ==> Fails(pc))
    else !started && !BeforeRefresh(pc) && !pc.CheckCalling? && !pc.CheckEnd? && !Fails(pc)
  }

  ghost predicate ChecksCounted(s: State) {
    && s.history.started <= s.history.checks <= s.callers.Keys
    && (forall t :: t in s.callers ==>
          Account(s.callers[t], t in s.history.checks, t in s.history.started, s.continueNext))
    && s.calls == s.history.threadCalls + |s.history.started|
  }

  lemma NewcomerKeepsChecksCounted(s: State, e: Step)
    requires ChecksCounted(s) && Enabled(s, e) && (e.Check? || e.Cancel?)
    ensures ChecksCounted(Next(s, e))
  {
    assert e.t !in s.history.checks && e.t !in s.history.started;
    assert Account(CheckStart, true, false, s.continueNext) && Account(Exchange(false), false, false, s.continueNext);
    hide Account;
  }

  lemma RefreshKeepsChecksCounted(s: State, good: bool)
    requires ChecksCounted(s) && Enabled(s, Refresh(good))
    ensures ChecksCounted(RefreshStep(s, good))
  {
    hide Account;
  }

  lemma FlagDown(pc: CallerPc, check: bool, started: bool, flag: bool)
    requires Account(pc, check, started, flag)
    ensures Account(pc, check, started, false)
  {
  }

  lemma GoKeepsAccount(s: State, t: nat, good: bool)
    requires Enabled(s, Go(t, good))
    requires Account(s.callers[t], t in s.history.checks, t in s.history.started, s.continueNext)
    ensures var s' := CallerStep(s, t, good);
            && Account(s'.callers[t], t in s'.history.checks, t in s'.history.started, s'.continueNext)
            && (s.callers[t].CheckLoaded? ==> t in s.history.checks && t !in s.history.started)
  {
  }

  lemma GoMoves(s: State, t: nat, good: bool)
    requires Enabled(s, Go(t, good))
    ensures var s' := CallerStep(s, t, good);
            && t in s'.callers && s'.callers == s.callers[t := s'.callers[t]]
            && s'.history.checks == s.history.checks && s'.history.threadCalls == s.history.threadCalls
            && (s'.continueNext ==> s.continueNext)
            && (if s.callers[t].CheckLoaded?
                then s'.history.started == s.history.started + {t} && s'.calls == s.calls + 1
                else s'.history.started == s.history.started && s'.calls == s.calls)
  {
  }

  lemma GoKeepsChecksCounted(s: State, t: nat, good: bool)
    requires ChecksCounted(s) && Enabled(s, Go(t, good))
    ensures ChecksCounted(CallerStep(s, t, good))
  {
    GoKeepsAccount(s, t, good);
    GoMoves(s, t, good);
    var s' := CallerStep(s, t, good);
    hide CallerStep, Enabled, Account;
    forall u | u in s'.callers
      ensures Account(s'.callers[u], u in s'.history.checks, u in s'.history.started, s'.continueNext)
    {
      if u != t {
        FlagDown(s.callers[u], u in s.history.checks, u in s.history.started, s.continueNext);
      }
    }
    if s.callers[t].CheckLoaded? {
      assert |s.history.started + {t}| == |s.history.started| + 1;
    }
  }

  lemma StepKeepsChecksCounted(s: State, e: Step)
    requires ChecksCounted(s) && Enabled(s, e)
    ensures ChecksCounted(Next(s, e))
  {
    hide ChecksCounted, RefreshStep, CallerStep;
    match e {
      case Refresh(good) => RefreshKeepsChecksCounted(s, good);
      case Go(t, good) => GoKeepsChecksCounted(s, t, good);
      case _ => NewcomerKeepsChecksCounted(s, e);
    }
  }

  // ----- refreshes of the thread

  /** Behind a timed wait and in front of the refresh that follows it. */
  predicate Due(pc: RefreshPc) {
    pc in {Waiting, Notified, WokenUp, BeforeOnce, Loading, Loaded}
  }

  /** Each wait is followed by one refresh, unless the flag has been cleared meanwhile. */
  ghost predicate WaitsCounted(s: State) {
    && (s.continueNext ==> s.history.waits == s.history.threadCalls + if Due(s.refresher) then 1 else 0)
    && s.history.threadCalls + (if Due(s.refresher) then 1 else 0) <= s.history.waits
    && (s.refresher.Exited? && s.continueNext ==> Refresher in s.history.failed)
  }

  lemma StepKeepsWaitsCounted(s: State, e: Step)
    requires WaitsCounted(s) && Enabled(s, e)
    ensures WaitsCounted(Next(s, e))
  {
  }

  // ----- whole runs

  ghost predicate Accounts(s: State) {
    ErrorsKept(s) && ChecksCounted(s) && WaitsCounted(s)
  }

  lemma {:induction false} RunKeepsAccounts(s: State, steps: seq<Step>)
    requires Accounts(s) && CanRun(s, steps)
    ensures Accounts(Run(s, steps))
    decreases |steps|
  {
    hide Next, Enabled, ErrorsKept, ChecksCounted, WaitsCounted;
    if steps != [] {
      StepKeepsErrorsKept(s, steps[0]);
      StepKeepsChecksCounted(s, steps[0]);
      StepKeepsWaitsCounted(s, steps[0]);
      RunKeepsAccounts(Next(s, steps[0]), steps[1..]);
    }
  }

  lemma BeginAccounts()
    ensures Accounts(BEGIN)
  {
  }

  /**
   * A `Check` that comes back without an exception has started a refresh of its own, exactly one, unless
   * the flag has been cleared. One whose refresh failed comes back with an exception; and it does so only
   * for a refresh that failed, its own or another. `Cancel` starts none and throws none.
   */
  lemma CheckRefreshes(steps: seq<Step>, t: nat)
    requires CanRun(BEGIN, steps) && t in Run(BEGIN, steps).callers && Run(BEGIN, steps).callers[t].Returned?
    ensures var s := Run(BEGIN, steps);
            var (h, error) := (s.history, s.callers[t].error);
            && (t in h.checks && !error ==> t in h.started || !s.continueNext)
            && (Thread(t) in h.failed ==> error)
            && (error ==> s.error && h.failed != {})
            && (t !in h.checks ==> t !in h.started && !error)
  {
    hide Next, Enabled;
    BeginAccounts();
    RunKeepsAccounts(BEGIN, steps);
  }

  /** All refreshes are accounted for: those of the thread, and one of each check that has started one. */
  lemma RefreshesAddUp(steps: seq<Step>)
    requires CanRun(BEGIN, steps)
    ensures var s := Run(BEGIN, steps);
            s.calls == s.history.threadCalls + |s.history.started| && s.history.started <= s.history.checks
  {
    hide Next, Enabled;
    BeginAccounts();
    RunKeepsAccounts(BEGIN, steps);
  }

  /** A failed refresh is kept as soon as the call that made it is back, and nothing else is kept. */
  lemma FailureIsKept(steps: seq<Step>)
    requires CanRun(BEGIN, steps)
    ensures var s := Run(BEGIN, steps);
            && (Refresher in s.history.failed ==> s.error)
            && (forall t :: Thread(t) in s.history.failed ==> t in s.callers && (s.callers[t].Returned? ==> s.error))
            && (s.error ==> s.history.failed != {})
  {
    hide Next, Enabled, ChecksCounted, WaitsCounted;
    BeginAccounts();
    RunKeepsAccounts(BEGIN, steps);
  }

  /** A check that comes later than a kept error stops at it. */
  ghost predicate Stopped(s: State, t: nat) {
    && s.error && t !in s.history.started
    && (t in s.history.checks ==> t in s.callers && s.callers[t] in {CheckStart, Returned(false, true)})
    && (t !in s.callers ==> t !in s.history.checks)
    && (t in s.callers && t !in s.history.checks ==>
          !BeforeRefresh(s.callers[t]) && !s.callers[t].CheckCalling?)
  }

  lemma StepKeepsStopped(s: State, e: Step, t: nat)
    requires Stopped(s, t) && Enabled(s, e)
    ensures Stopped(Next(s, e), t)
  {
  }

  lemma {:induction false} RunKeepsStopped(s: State, steps: seq<Step>, t: nat)
    requires Stopped(s, t) && CanRun(s, steps)
    ensures Stopped(Run(s, steps), t)
    decreases |steps|
  {
    hide Next, Enabled, Stopped;
    if steps != [] {
      StepKeepsStopped(s, steps[0], t);
      RunKeepsStopped(Next(s, steps[0]), steps[1..], t);
    }
  }

  /** An error is kept, and thread t has not come back from a check without an exception. */
  ghost predicate Unmissed(s: State, t: nat) {
    s.error && (t in s.callers && t in s.history.checks && s.callers[t].Returned? ==> s.callers[t].error)
  }

  lemma StepKeepsUnmissed(s: State, e: Step, t: nat)
    requires Unmissed(s, t) && ChecksCounted(s) && Enabled(s, e)
    ensures Unmissed(Next(s, e), t)
  {
    if e.Go? && e.t == t {
      assert Account(s.callers[t], t in s.history.checks, t in s.history.started, s.continueNext);
    }
    hide ChecksCounted;
  }

  lemma {:induction false} RunKeepsUnmissed(s: State, steps: seq<Step>, t: nat)
    requires Unmissed(s, t) && ChecksCounted(s) && CanRun(s, steps)
    ensures Unmissed(Run(s, steps), t)
    decreases |steps|
  {
    hide Next, Enabled, Unmissed, ChecksCounted;
    if steps != [] {
      StepKeepsUnmissed(s, steps[0], t);
      StepKeepsChecksCounted(s, steps[0]);
      RunKeepsUnmissed(Next(s, steps[0]), steps[1..], t);
    }
  }

  /**
   * Once an error is kept, every `Check` that has not come back yet, wherever it is, will throw an exception
   * when it does; and one that is called later starts no refresh.
   */
  lemma ErrorIsSeen(steps: seq<Step>, more: seq<Step>, t: nat)
    requires CanRun(BEGIN, steps) && CanRun(Run(BEGIN, steps), more) && Run(BEGIN, steps).error
    requires t in Run(BEGIN, steps).callers ==> !Run(BEGIN, steps).callers[t].Returned?
    ensures var s := Run(Run(BEGIN, steps), more);
            && s.error
            && (t in s.callers && t in s.history.checks && s.callers[t].Returned? ==> s.callers[t].error)
            && (t !in Run(BEGIN, steps).callers ==> t !in s.history.started)
  {
    hide Next, Enabled;
    BeginAccounts();
    RunKeepsAccounts(BEGIN, steps);
    RunKeepsUnmissed(Run(BEGIN, steps), more, t);
    if t !in Run(BEGIN, steps).callers {
      RunKeepsStopped(Run(BEGIN, steps), more, t);
    }
  }

  /**
   * While the flag is set, the refresh thread starts exactly one refresh between one timed wait and the
   * next: when it comes to a wait there are as many refreshes as waits, and from the wait to the refresh
   * one less. It leaves with the flag set only after a refresh that failed. Later there are no more
   * refreshes than waits.
   */
  lemma OneRefreshPerWait(steps: seq<Step>)
    requires CanRun(BEGIN, steps)
    ensures var s := Run(BEGIN, steps);
            var h := s.history;
            && (s.continueNext && s.refresher in {Top, BeforeWait, Calling} ==> h.threadCalls == h.waits)
            && (s.continueNext && s.refresher in {Waiting, Notified, WokenUp, BeforeOnce, Loading, Loaded} ==>
                  h.threadCalls + 1 == h.waits)
            && (s.continueNext && s.refresher.Exited? ==> Refresher in h.failed && s.error)
            && h.threadCalls <= h.waits
  {
    hide Next, Enabled;
    BeginAccounts();
    RunKeepsAccounts(BEGIN, steps);
  }
}
