/**
 * The keep-alive object (src/KeepAlive.cpp:143-258): a refresh thread, and any number of other threads
 * that call `Check` and `Cancel`. Every step is one atomic access, one lock or unlock, or the start or end
 * of a call on the stream.
 */
module KeepAlive {
  import opened Ranges

  datatype Who = Refresher | Thread(t: nat)

  /** The refresh thread, in `refresh()` and `refresh_once()`. */
  datatype RefreshPc =
    | Top              // about to load continue_next
    | BeforeWait       // about to lock and wait
    | Waiting          // in wait_for, the mutex released
    | Notified         // woken without a timeout, holding the mutex, about to load
    | WokenUp          // out of the wait, about to release the mutex
    | BeforeOnce       // about to lock in refresh_once
    | Loading          // holding the mutex, about to load
    | Loaded           // holding the mutex, about to call Refresh
    | Calling          // holding the mutex, in Refresh
    | Exited

  /** Any other thread, in `Check` and in `Cancel`. */
  datatype CallerPc =
    | CheckStart       // about to look at eptr_
    | CheckLock | CheckLoading | CheckLoaded | CheckCalling   // refresh_once
    | CheckEnd         // about to look at eptr_ again
    | Exchange(failed: bool)      // about to exchange continue_next; after a failed check or not
    | Notify(failed: bool)
    | Join(failed: bool)
    | CancelLock(failed: bool)
    | Cancelling(failed: bool)    // holding the mutex, in CancelKeepAlive
    | Returned(won: bool, error: bool)   // with an exception or without

  /**
   * What has happened so far: the callers of `Check`, those of them that have started a refresh, the
   * refreshes and the timed waits that the refresh thread has started, and who had a refresh that failed.
   */
  datatype History = History(checks: set<nat>, started: set<nat>, threadCalls: nat, waits: nat, failed: set<Who>)

  /**
   * `calls` counts refreshes started; `waitsAfter` counts timed waits begun after the flag was cleared,
   * `cancels` the calls of CancelKeepAlive, `joins` the completed joins.
   */
  datatype State = State(continueNext: bool, holder: Option<Who>, error: bool, refresher: RefreshPc,
                         callers: map<nat, CallerPc>, calls: nat, waitsAfter: nat, cancels: nat, joins: nat,
                         history: History)

  const BEGIN := State(true, None, false, Top, map[], 0, 0, 0, 0, History({}, {}, 0, 0, {}))

  datatype Step =
    | Check(t: nat)               // a new caller of Check()
    | Cancel(t: nat)              // a new caller of Cancel()
    | Refresh(good: bool)         // a step of the refresh thread; `good` is how a wait or a call ends
    | Go(t: nat, good: bool)      // a step of another thread

  predicate Enabled(s: State, e: Step) {
    match e
    case Check(t) => t !in s.callers
    case Cancel(t) => t !in s.callers
    case Refresh(_) =>
      (match s.refresher
       case BeforeWait => s.holder.None?
       case Waiting => s.holder.None?       // waking up takes the mutex back
       case BeforeOnce => s.holder.None?
       case Exited => false
       case _ => true)
    case Go(t, _) =>
      t in s.callers &&
      (match s.callers[t]
       case CheckLock => s.holder.None?
       case CancelLock(_) => s.holder.None?
       case Join(_) => s.refresher.Exited?
       case Returned(_, _) => false
       case _ => true)
  }

  function Next(s: State, e: Step): State
    requires Enabled(s, e)
  {
    match e
    case Check(t) =>
      s.(callers := s.callers[t := CheckStart], history := s.history.(checks := s.history.checks + {t}))
    case Cancel(t) => s.(callers := s.callers[t := Exchange(false)])
    case Refresh(good) => RefreshStep(s, good)
    case Go(t, good) => CallerStep(s, t, good)
  }

  function RefreshStep(s: State, good: bool): State
    requires Enabled(s, Refresh(good))
  {
    match s.refresher
    case Top => s.(refresher := if s.continueNext then BeforeWait else Exited)
    case BeforeWait =>
      // lock, and begin to wait, which releases the mutex
      s.(refresher := Waiting, waitsAfter := if s.continueNext then s.waitsAfter else s.waitsAfter + 1,
         history := s.history.(waits := s.history.waits + 1))
    case Waiting =>
      // a timeout is good; a notification or a spurious wake-up is not
      s.(holder := Some(Refresher), refresher := if good then WokenUp else Notified)
    case Notified =>
      if s.continueNext then s.(refresher := WokenUp) else s.(holder := None, refresher := Exited)
    case WokenUp => s.(holder := None, refresher := BeforeOnce)
    case BeforeOnce => s.(holder := Some(Refresher), refresher := Loading)
    case Loading =>
      if s.continueNext then s.(refresher := Loaded) else s.(holder := None, refresher := Top)
    case Loaded =>
      s.(refresher := Calling, calls := s.calls + 1, history := s.history.(threadCalls := s.history.threadCalls + 1))
    case Calling =>
      // an error ends the thread and is kept for Check
      if good then s.(holder := None, refresher := Top)
      else s.(holder := None, refresher := Exited, error := true,
              history := s.history.(failed := s.history.failed + {Refresher}))
  }

  function CallerStep(s: State, t: nat, good: bool): State
    requires Enabled(s, Go(t, good))
  {
    match s.callers[t]
    case CheckStart => s.(callers := s.callers[t := if s.error then Returned(false, true) else CheckLock])
    case CheckLock => s.(holder := Some(Thread(t)), callers := s.callers[t := CheckLoading])
    case CheckLoading =>
      if s.continueNext then s.(callers := s.callers[t := CheckLoaded])
      else s.(holder := None, callers := s.callers[t := CheckEnd])
    case CheckLoaded =>
      s.(callers := s.callers[t := CheckCalling], calls := s.calls + 1,
         history := s.history.(started := s.history.started + {t}))
    case CheckCalling =>
      if good then s.(holder := None, callers := s.callers[t := CheckEnd])
      else s.(holder := None, callers := s.callers[t := Exchange(true)],
              history := s.history.(failed := s.history.failed + {Thread(t)}))
    case CheckEnd => s.(callers := s.callers[t := Returned(false, s.error)])
    case Exchange(failed) =>
      if s.continueNext then s.(continueNext := false, callers := s.callers[t := Notify(failed)])
      else s.(error := s.error || failed, callers := s.callers[t := Returned(false, failed)])
    case Notify(failed) => s.(callers := s.callers[t := Join(failed)])
    case Join(failed) => s.(joins := s.joins + 1, callers := s.callers[t := CancelLock(failed)])
    case CancelLock(failed) =>
      s.(holder := Some(Thread(t)), cancels := s.cancels + 1, callers := s.callers[t := Cancelling(failed)])
    case Cancelling(failed) =>
      s.(holder := None, error := s.error || failed, callers := s.callers[t := Returned(true, failed)])
  }

  predicate CanRun(s: State, steps: seq<Step>)
    decreases |steps|
  {
    steps == [] || (Enabled(s, steps[0]) && CanRun(Next(s, steps[0]), steps[1..]))
  }

  function Run(s: State, steps: seq<Step>): State
    requires CanRun(s, steps)
    decreases |steps|
  {
    if steps == [] then s else Run(Next(s, steps[0]), steps[1..])
  }

  // ----- the code, one atomic step at a time

  class KeepAliveObject {
    var continueNext: bool
    var mutexForRefresh: Option<Who>
    var eptr: bool
    var refreshTask: RefreshPc
    var callers: map<nat, CallerPc>
    ghost var calls: nat
    ghost var waitsAfter: nat
    ghost var cancels: nat
    ghost var joins: nat
    ghost var history: History

    ghost function View(): State
      reads this
    {
      State(continueNext, mutexForRefresh, eptr, refreshTask, callers, calls, waitsAfter, cancels, joins, history)
    }

    constructor ()
      ensures View() == BEGIN
    {
      continueNext, mutexForRefresh, eptr, refreshTask, callers := true, None, false, Top, map[];
      calls, waitsAfter, cancels, joins := 0, 0, 0, 0;
      history := History({}, {}, 0, 0, {});
    }

    /** The threads in any interleaving. */
    method Interleave(steps: seq<Step>)
      requires CanRun(View(), steps)
      modifies this
      ensures View() == Run(old(View()), steps)
    {
      hide Next;
      assert steps[0..] == steps;
      for i := 0 to |steps|
        invariant CanRun(View(), steps[i..]) && Run(View(), steps[i..]) == Run(old(View()), steps)
      {
        assert steps[i..][0] == steps[i] && steps[i..][1..] == steps[i + 1..];
        match steps[i] {
          case Check(t) => Enter(t, CheckStart);
          case Cancel(t) => Enter(t, Exchange(false));
          case Refresh(good) => StepRefreshTask(good);
          case Go(t, good) => StepCaller(t, good);
        }
      }
    }

    method Enter(t: nat, pc: CallerPc)
      requires t !in callers && pc in {CheckStart, Exchange(false)}
      modifies this`callers, this`history
      ensures View() == Next(old(View()), if pc.CheckStart? then Check(t) else Cancel(t))
    {
      if pc.CheckStart? {
        history := history.(checks := history.checks + {t});
      }
      callers := callers[t := pc];
    }

    method StepRefreshTask(good: bool)
      requires Enabled(View(), Refresh(good))
      modifies this
      ensures View() == Next(old(View()), Refresh(good))
    {
      match refreshTask {
        case Top =>
          refreshTask := if continueNext then BeforeWait else Exited;
        case BeforeWait =>
          if !continueNext {
            waitsAfter := waitsAfter + 1;
          }
          history := history.(waits := history.waits + 1);
          refreshTask := Waiting;
        case Waiting =>
          mutexForRefresh := Some(Refresher);
          refreshTask := if good then WokenUp else Notified;
        case Notified =>
          if continueNext {
            refreshTask := WokenUp;
          } else {
            mutexForRefresh := None;
            refreshTask := Exited;
          }
        case WokenUp =>
          mutexForRefresh := None;
          refreshTask := BeforeOnce;
        case BeforeOnce =>
          mutexForRefresh := Some(Refresher);
          refreshTask := Loading;
        case Loading =>
          if continueNext {
            refreshTask := Loaded;
          } else {
            mutexForRefresh := None;
            refreshTask := Top;
          }
        case Loaded =>
          calls := calls + 1;
          history := history.(threadCalls := history.threadCalls + 1);
          refreshTask := Calling;
        case Calling =>
          mutexForRefresh := None;
          if good {
            refreshTask := Top;
          } else {
            eptr := true;
            history := history.(failed := history.failed + {Refresher});
            refreshTask := Exited;
          }
      }
    }

    method StepCaller(t: nat, good: bool)
      requires Enabled(View(), Go(t, good))
      modifies this
      ensures View() == Next(old(View()), Go(t, good))
    {
      var pc := callers[t];
      match callers[t] {
        case CheckStart =>
          pc := if eptr then Returned(false, true) else CheckLock;
        case CheckLock =>
          mutexForRefresh := Some(Thread(t));
          pc := CheckLoading;
        case CheckLoading =>
          if continueNext {
            pc := CheckLoaded;
          } else {
            mutexForRefresh := None;
            pc := CheckEnd;
          }
        case CheckLoaded =>
          calls := calls + 1;
          history := history.(started := history.started + {t});
          pc := CheckCalling;
        case CheckCalling =>
          mutexForRefresh := None;
          if good {
            pc := CheckEnd;
          } else {
            history := history.(failed := history.failed + {Thread(t)});
            pc := Exchange(true);
          }
        case CheckEnd =>
          pc := Returned(false, eptr);
        case Exchange(failed) =>
          pc := if continueNext then Notify(failed) else Returned(false, failed);
          if !continueNext && failed {
            eptr := true;
          }
          continueNext := false;
        case Notify(failed) =>
          pc := Join(failed);
        case Join(failed) =>
          joins := joins + 1;
          pc := CancelLock(failed);
        case CancelLock(failed) =>
          mutexForRefresh := Some(Thread(t));
          cancels := cancels + 1;
          pc := Cancelling(failed);
        case Cancelling(failed) =>
          mutexForRefresh := None;
          if failed {
            eptr := true;
          }
          pc := Returned(true, failed);
      }
      callers := callers[t := pc];
    }
  }

  // ----- the invariant

  predicate RefresherHolds(pc: RefreshPc) {
    pc in {Notified, WokenUp, Loading, Loaded, Calling}
  }

  predicate CallerHolds(pc: CallerPc) {
    pc.CheckLoading? || pc.CheckLoaded? || pc.CheckCalling? || pc.Cancelling?
  }

  /** The thread that won the exchange, from then on. */
  predicate Winner(pc: CallerPc) {
    pc.Notify? || pc.Join? || pc.CancelLock? || Through(pc)
  }

  predicate Joined(pc: CallerPc) {
    pc.CancelLock? || Through(pc)
  }

  ghost predicate MutexInv(s: State) {
    && (s.holder == Some(Refresher) <==> RefresherHolds(s.refresher))
    && (forall t :: s.holder == Some(Thread(t)) <==> t in s.callers && CallerHolds(s.callers[t]))
  }

  ghost predicate OneWinner(s: State) {
    forall t, u :: t in s.callers && u in s.callers && Winner(s.callers[t]) && Winner(s.callers[u]) ==> t == u
  }

  /** The flag is cleared exactly when a thread has won. */
  ghost predicate WinnerClears(s: State) {
    && (s.continueNext <==> forall t :: t in s.callers ==> !Winner(s.callers[t]))
    && (s.continueNext ==> s.cancels == 0 && s.joins == 0 && s.waitsAfter == 0)
  }

  /** The winner has entered `CancelKeepAlive`. */
  predicate Through(pc: CallerPc) {
    pc.Cancelling? || (pc.Returned? && pc.won)
  }

  /** A check that has decided to refresh and has not come back. */
  predicate InRefresh(pc: CallerPc) {
    pc.CheckLoaded? || pc.CheckCalling?
  }

  ghost predicate WinnerProgress(s: State) {
    forall t :: t in s.callers && Winner(s.callers[t]) ==>
      && s.joins == (if Joined(s.callers[t]) then 1 else 0)
      && s.cancels == (if Through(s.callers[t]) then 1 else 0)
      && (Joined(s.callers[t]) ==> s.refresher.Exited?)
  }

  ghost predicate NoRefreshLeft(s: State) {
    forall t, u :: t in s.callers && u in s.callers && Through(s.callers[t]) ==> !InRefresh(s.callers[u])
  }

  ghost predicate OneMoreWait(s: State) {
    s.waitsAfter > 0 ==> s.waitsAfter == 1 && !s.refresher.BeforeWait?
  }

  ghost predicate Inv(s: State) {
    && MutexInv(s) && OneWinner(s) && WinnerClears(s)
    && WinnerProgress(s) && NoRefreshLeft(s) && OneMoreWait(s)
  }

  lemma RefreshKeepsMutexInv(s: State, good: bool)
    requires MutexInv(s) && Enabled(s, Refresh(good))
    ensures MutexInv(RefreshStep(s, good))
  {
  }

  lemma RefreshKeepsCallers(s: State, good: bool)
    requires OneWinner(s) && WinnerClears(s) && NoRefreshLeft(s) && Enabled(s, Refresh(good))
    ensures var s' := RefreshStep(s, good); OneWinner(s') && WinnerClears(s') && NoRefreshLeft(s')
  {
  }

  lemma RefreshKeepsProgress(s: State, good: bool)
    requires WinnerClears(s) && WinnerProgress(s) && OneMoreWait(s) && Enabled(s, Refresh(good))
    ensures var s' := RefreshStep(s, good); WinnerProgress(s') && OneMoreWait(s')
  {
  }

  lemma CallerKeepsMutexInv(s: State, t: nat, good: bool)
    requires MutexInv(s) && Enabled(s, Go(t, good))
    ensures MutexInv(CallerStep(s, t, good))
  {
  }

  lemma CallerKeepsOneWinner(s: State, t: nat, good: bool)
    requires OneWinner(s) && WinnerClears(s) && Enabled(s, Go(t, good))
    ensures OneWinner(CallerStep(s, t, good))
  {
  }

  lemma CallerKeepsWinnerClears(s: State, t: nat, good: bool)
    requires WinnerClears(s) && Enabled(s, Go(t, good))
    ensures WinnerClears(CallerStep(s, t, good))
  {
    var s' := CallerStep(s, t, good);
    if !s.continueNext {
      var u :| u in s.callers && Winner(s.callers[u]);
      assert u in s'.callers && Winner(s'.callers[u]);
    } else if !s'.continueNext {
      assert t in s'.callers && Winner(s'.callers[t]);
    }
  }

  /** Only the winner joins and cancels, and only with the flag set can a thread become it. */
  lemma WinnerMoves(s: State, t: nat, good: bool)
    requires Enabled(s, Go(t, good))
    ensures var s' := CallerStep(s, t, good);
            && t in s'.callers && s'.callers == s.callers[t := s'.callers[t]] && s'.refresher == s.refresher
            && var (pc, pc') := (s.callers[t], s'.callers[t]);
            && (Winner(pc) ==> Winner(pc')) && (!Winner(pc) && Winner(pc') ==> s.continueNext && pc'.Notify?)
            && s'.joins == s.joins + (if Joined(pc') && !Joined(pc) then 1 else 0)
            && s'.cancels == s.cancels + (if Through(pc') && !Through(pc) then 1 else 0)
            && (Joined(pc) ==> Joined(pc')) && (Through(pc) ==> Through(pc'))
            && (Joined(pc') && !Joined(pc) ==> s.refresher.Exited?)
            && (Joined(pc') || Through(pc') ==> Winner(pc))
  {
  }

  lemma CallerKeepsWinnerProgress(s: State, t: nat, good: bool)
    requires OneWinner(s) && WinnerClears(s) && WinnerProgress(s) && Enabled(s, Go(t, good))
    ensures WinnerProgress(CallerStep(s, t, good))
  {
    WinnerMoves(s, t, good);
    hide CallerStep, Enabled, Winner;
  }

  lemma CallerKeepsNoRefreshLeft(s: State, t: nat, good: bool)
    requires MutexInv(s) && WinnerClears(s) && NoRefreshLeft(s) && Enabled(s, Go(t, good))
    ensures NoRefreshLeft(CallerStep(s, t, good))
  {
    if s.continueNext {
      assert forall u :: u in s.callers ==> !Through(s.callers[u]);
    }
  }

  lemma CallerKeepsOneMoreWait(s: State, t: nat, good: bool)
    requires OneMoreWait(s) && Enabled(s, Go(t, good))
    ensures OneMoreWait(CallerStep(s, t, good))
  {
  }

  lemma StepKeepsInv(s: State, e: Step)
    requires Inv(s) && Enabled(s, e)
    ensures Inv(Next(s, e))
  {
    hide RefreshStep, CallerStep, MutexInv, OneWinner, WinnerClears, WinnerProgress, NoRefreshLeft, OneMoreWait;
    match e {
      case Check(t) => NewcomerKeepsInv(s, t, CheckStart, s.history.(checks := s.history.checks + {t}));
      case Cancel(t) => NewcomerKeepsInv(s, t, Exchange(false), s.history);
      case Refresh(good) =>
        RefreshKeepsMutexInv(s, good);
        RefreshKeepsCallers(s, good);
        RefreshKeepsProgress(s, good);
      case Go(t, good) =>
        CallerKeepsMutexInv(s, t, good);
        CallerKeepsOneWinner(s, t, good);
        CallerKeepsWinnerClears(s, t, good);
        CallerKeepsWinnerProgress(s, t, good);
        CallerKeepsNoRefreshLeft(s, t, good);
        CallerKeepsOneMoreWait(s, t, good);
    }
  }

  lemma NewcomerKeepsInv(s: State, t: nat, pc: CallerPc, history: History)
    requires Inv(s) && t !in s.callers && (pc.CheckStart? || pc.Exchange?)
    ensures Inv(s.(callers := s.callers[t := pc], history := history))
  {
  }

  lemma {:induction false} RunKeepsInv(s: State, steps: seq<Step>)
    requires Inv(s) && CanRun(s, steps)
    ensures Inv(Run(s, steps))
    decreases |steps|
  {
    hide Inv, Next, Enabled;
    if steps != [] {
      StepKeepsInv(s, steps[0]);
      RunKeepsInv(Next(s, steps[0]), steps[1..]);
    }
  }

  lemma BeginInv()
    ensures Inv(BEGIN)
  {
  }

  // ----- the main results

  /** The flag stays down, the refresh thread gone and no check in a refresh: nothing is left that could refresh. */
  ghost predicate Quiet(s: State) {
    !s.continueNext && s.refresher.Exited? && forall t :: t in s.callers ==> !InRefresh(s.callers[t])
  }

  lemma StepKeepsQuiet(s: State, e: Step)
    requires Quiet(s) && Enabled(s, e)
    ensures Quiet(Next(s, e)) && Next(s, e).calls == s.calls
  {
  }

  lemma {:induction false} RunKeepsQuiet(s: State, steps: seq<Step>)
    requires Quiet(s) && CanRun(s, steps)
    ensures Quiet(Run(s, steps)) && Run(s, steps).calls == s.calls
    decreases |steps|
  {
    hide Quiet, Next, Enabled;
    if steps != [] {
      StepKeepsQuiet(s, steps[0]);
      RunKeepsQuiet(Next(s, steps[0]), steps[1..]);
    }
  }

  /** The winning cancel is inside `CancelKeepAlive`, or back from it. */
  ghost predicate CancelledBy(s: State, t: nat) {
    t in s.callers && Through(s.callers[t])
  }

  lemma CancelledIsQuiet(s: State, t: nat)
    requires Inv(s) && CancelledBy(s, t)
    ensures Quiet(s)
  {
  }

  /**
   * Once the winning `Cancel` has got to `CancelKeepAlive`, let alone returned, no refresh is ever started
   * again, by the refresh thread or by a check, however the threads interleave.
   */
  lemma NoRefreshAfterCancel(steps: seq<Step>, more: seq<Step>, t: nat)
    requires CanRun(BEGIN, steps) && CanRun(Run(BEGIN, steps), more)
    requires CancelledBy(Run(BEGIN, steps), t)
    ensures var s := Run(BEGIN, steps);
            Run(s, more).calls == s.calls && Quiet(Run(s, more))
  {
    hide Inv, Next, Enabled, Quiet;
    BeginInv();
    RunKeepsInv(BEGIN, steps);
    CancelledIsQuiet(Run(BEGIN, steps), t);
    RunKeepsQuiet(Run(BEGIN, steps), more);
  }

  /** A thread is in a call on the stream. */
  ghost predicate OnStream(s: State, w: Who) {
    match w
    case Refresher => s.refresher.Calling?
    case Thread(t) => t in s.callers && (s.callers[t].CheckCalling? || s.callers[t].Cancelling?)
  }

  /**
   * In every reachable state: no two threads are in a call on the stream, so `CancelKeepAlive` overlaps
   * no refresh; it is called at most once, the refresh thread is joined at most once and only when it is
   * gone, and the winner does not come back before both; and after the flag is cleared at most one more
   * timed wait is begun.
   */
  lemma CancelIsOrderly(steps: seq<Step>)
    requires CanRun(BEGIN, steps)
    ensures var s := Run(BEGIN, steps);
            && (forall v, w :: OnStream(s, v) && OnStream(s, w) ==> v == w)
            && s.cancels <= s.joins <= 1 && (s.joins == 1 ==> s.refresher.Exited?)
            && (s.cancels == 1 ==> !s.continueNext)
            && (forall t :: t in s.callers && s.callers[t].Returned? && s.callers[t].won ==> s.cancels == s.joins == 1)
            && s.waitsAfter <= 1
  {
    hide Next, Enabled;
    BeginInv();
    RunKeepsInv(BEGIN, steps);
    var s := Run(BEGIN, steps);
    forall v, w | OnStream(s, v) && OnStream(s, w) ensures v == w {
      OnStreamHolds(s, v);
      OnStreamHolds(s, w);
    }
  }

  lemma OnStreamHolds(s: State, w: Who)
    requires MutexInv(s) && OnStream(s, w)
    ensures s.holder == Some(w)
  {
  }

  /** A step of the refresh thread, or of a thread that is already in `Check` or `Cancel`. */
  ghost predicate CanProceed(s: State) {
    Enabled(s, Refresh(true)) || exists t :: Enabled(s, Go(t, true))
  }

  lemma HolderProceeds(s: State, t: nat)
    requires MutexInv(s) && t in s.callers && !s.callers[t].Returned?
    ensures CanProceed(s)
  {
    match s.holder {
      case Some(Refresher) => assert Enabled(s, Refresh(true));
      case Some(Thread(u)) => assert Enabled(s, Go(u, true));
      case None =>
        if s.callers[t].Join? {
          assert Enabled(s, if s.refresher.Exited? then Go(t, true) else Refresh(true));
        } else {
          assert Enabled(s, Go(t, true));
        }
    }
  }

  /** No deadlock: while some call has not returned, a thread that is already there can take a step. */
  lemma NoDeadlock(steps: seq<Step>, t: nat)
    requires CanRun(BEGIN, steps) && t in Run(BEGIN, steps).callers && !Run(BEGIN, steps).callers[t].Returned?
    ensures CanProceed(Run(BEGIN, steps))
  {
    hide Next, Enabled;
    BeginInv();
    RunKeepsInv(BEGIN, steps);
    HolderProceeds(Run(BEGIN, steps), t);
  }

  // ----- the refresh thread does not outlive the flag for long

  /** How many steps the refresh thread has left at most, once the flag is cleared. */
  function Rank(pc: RefreshPc): nat {
    match pc
    case BeforeWait => 6
    case Waiting => 5
    case WokenUp => 4
    case BeforeOnce => 3
    case Loaded => 3
    case Loading => 2
    case Calling => 2
    case Notified => 1
    case Top => 1
    case Exited => 0
  }

  function RefreshSteps(steps: seq<Step>): nat {
    if steps == [] then 0 else (if steps[0].Refresh? then 1 else 0) + RefreshSteps(steps[1..])
  }

  lemma StepLowersRank(s: State, e: Step)
    requires Enabled(s, e) && !s.continueNext
    ensures !Next(s, e).continueNext
    ensures Rank(Next(s, e).refresher) <= Rank(s.refresher) - if e.Refresh? then 1 else 0
  {
  }

  /**
   * Once the flag is cleared the refresh thread takes at most six further steps, in every interleaving,
   * so the join does not wait for a thread that goes on and on.
   */
  lemma {:induction false} RefreshThreadStopsSoon(s: State, steps: seq<Step>)
    requires CanRun(s, steps) && !s.continueNext
    ensures RefreshSteps(steps) + Rank(Run(s, steps).refresher) <= Rank(s.refresher) <= 6
    decreases |steps|
  {
    hide Next, Enabled;
    if steps != [] {
      StepLowersRank(s, steps[0]);
      RefreshThreadStopsSoon(Next(s, steps[0]), steps[1..]);
    }
  }

  // ----- every call can come back

  /** Steps of threads that are already there, whose waits and refreshes all end well. */
  predicate Good(e: Step) {
    (e.Refresh? || e.Go?) && e.good
  }

  /** How far a call is from its return. */
  function Distance(pc: CallerPc): nat {
    match pc
    case CheckStart => 6
    case CheckLock => 5
    case CheckLoading => 4
    case CheckLoaded => 3
    case CheckCalling => 2
    case CheckEnd => 1
    case Exchange(_) => 5
    case Notify(_) => 4
    case Join(_) => 3
    case CancelLock(_) => 2
    case Cancelling(_) => 1
    case Returned(_, _) => 0
  }

  /** How far the holder of the mutex is from its release. */
  function Hold(s: State): nat {
    match s.holder
    case None => 0
    case Some(Refresher) =>
      (match s.refresher case Loading => 3 case Loaded => 2 case Notified => 2 case _ => 1)
    case Some(Thread(u)) =>
      if u !in s.callers then 1
      else (match s.callers[u] case CheckLoading => 3 case CheckLoaded => 2 case _ => 1)
  }

  /** The call first, then the refresh thread if the call waits for it, then the holder of the mutex. */
  function Remaining(s: State, t: nat): nat
    requires t in s.callers
  {
    100 * Distance(s.callers[t]) + (if s.callers[t].Join? then 10 * Rank(s.refresher) else 0) + Hold(s)
  }

  /** The step that helps call t: its own, or else the holder's, or the refresh thread's. */
  function Helpful(s: State, t: nat): Step
    requires t in s.callers
  {
    if Enabled(s, Go(t, true)) then Go(t, true)
    else match s.holder
      case Some(Thread(u)) => Go(u, true)
      case _ => Refresh(true)
  }

  lemma OwnStepHelps(s: State, t: nat)
    requires MutexInv(s) && Enabled(s, Go(t, true))
    ensures t in Next(s, Go(t, true)).callers && Remaining(Next(s, Go(t, true)), t) < Remaining(s, t)
  {
    var s' := Next(s, Go(t, true));
    assert Distance(s'.callers[t]) < Distance(s.callers[t]);
    assert Hold(s') <= 3 && Rank(s'.refresher) <= 6;
  }

  lemma HolderStepHelps(s: State, t: nat, u: nat)
    requires MutexInv(s) && s.holder == Some(Thread(u)) && u != t && t in s.callers
    ensures Enabled(s, Go(u, true)) && t in Next(s, Go(u, true)).callers
    ensures Remaining(Next(s, Go(u, true)), t) < Remaining(s, t)
  {
  }

  lemma RefreshStepHelps(s: State, t: nat)
    requires MutexInv(s) && WinnerClears(s) && t in s.callers && !s.callers[t].Returned?
    requires !Enabled(s, Go(t, true)) && !(s.holder.Some? && s.holder.value.Thread?)
    ensures Enabled(s, Refresh(true)) && t in Next(s, Refresh(true)).callers
    ensures Remaining(Next(s, Refresh(true)), t) < Remaining(s, t)
  {
    if s.callers[t].Join? {
      assert Winner(s.callers[t]);
      StepLowersRank(s, Refresh(true));
      assert Hold(Next(s, Refresh(true))) <= 3;
    }
  }

  lemma HelpfulHelps(s: State, t: nat)
    requires Inv(s) && t in s.callers && !s.callers[t].Returned?
    ensures var e := Helpful(s, t);
            && Enabled(s, e) && Good(e) && t in Next(s, e).callers && Remaining(Next(s, e), t) < Remaining(s, t)
  {
    hide Next, Remaining, OneWinner, WinnerProgress, NoRefreshLeft, OneMoreWait;
    if Enabled(s, Go(t, true)) {
      OwnStepHelps(s, t);
    } else if s.holder.Some? && s.holder.value.Thread? {
      assert !CallerHolds(s.callers[t]);
      HolderStepHelps(s, t, s.holder.value.t);
    } else {
      RefreshStepHelps(s, t);
    }
  }

  lemma {:induction false} CallComesBack(s: State, t: nat) returns (steps: seq<Step>)
    requires Inv(s) && t in s.callers
    ensures CanRun(s, steps) && (forall e <- steps :: Good(e))
    ensures t in Run(s, steps).callers && Run(s, steps).callers[t].Returned?
    decreases Remaining(s, t)
  {
    hide Inv, Next, Enabled, Remaining, Good, Helpful;
    if s.callers[t].Returned? {
      steps := [];
    } else {
      HelpfulHelps(s, t);
      var e := Helpful(s, t);
      StepKeepsInv(s, e);
      var rest := CallComesBack(Next(s, e), t);
      steps := [e] + rest;
      assert steps[0] == e && steps[1..] == rest;
    }
  }

  /** From here call t can come back, by steps of the threads that are there, none of which fails. */
  ghost predicate CanComeBack(s: State, t: nat) {
    exists more :: CanRun(s, more) && (forall e <- more :: Good(e))
                   && t in Run(s, more).callers && Run(s, more).callers[t].Returned?
  }

  /**
   * In every reachable state, each call of `Check` and of `Cancel` that is under way can come back, without
   * any newcomer and without any wait or refresh that fails: neither the mutex nor the join blocks for good.
   */
  lemma EveryCallCanComeBack(steps: seq<Step>, t: nat)
    requires CanRun(BEGIN, steps) && t in Run(BEGIN, steps).callers
    ensures CanComeBack(Run(BEGIN, steps), t)
  {
    hide Inv, Next, Enabled, Good;
    BeginInv();
    RunKeepsInv(BEGIN, steps);
    var more := CallComesBack(Run(BEGIN, steps), t);
  }
}
