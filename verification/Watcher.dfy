/**
 * The watcher (src/Watcher.cpp:223-287): a thread that runs the callback loop, and any number of other
 * threads that call `Cancel` and `Wait`.
 */
module Watcher {
  import opened Ranges
  import opened Actions
  import W = Watch
  import WatchProperties
  import WatchTheorems

  /** Where a thread is: in `CancelWatch`, before the exchange in `Wait`, in `join`, or back, having joined or not. */
  datatype Caller = Cancelling | Waiting | Joining | Returned(joined: bool)

  /**
   * `exited` says that the watch thread is through; `joins` counts completed joins; `notified` lists the
   * calls of the wait callback with the flag they were given.
   */
  datatype State = State(call: W.State, cancelled: bool, joinable: bool, exited: bool, joins: nat,
                         waitCallback: Option<nat>, notified: seq<(nat, bool)>, callers: map<nat, Caller>)

  datatype Step =
    | Cancel(t: nat)            // thread t calls Cancel()
    | Wait(t: nat)              // thread t calls Wait()
    | Call(step: W.Step)        // a step inside the action: of the loop, or of a thread in CancelWatch
    | Leave(t: nat)             // thread t comes back from CancelWatch
    | Exchange(t: nat)          // thread t exchanges `cancelled` in Wait()
    | Join(t: nat)              // the join of thread t returns
    | SetCallback(callback: nat)
    | Exit                      // the watch thread leaves waitForResponse

  /** `doWatch` on a created stream or on one that could not be created. */
  function Begin(startRevision: int, replies: seq<W.Reply>, connect: W.Connect): State {
    State(W.Begin(W.Callback, startRevision, replies, connect), false, true, false, 0, None, [], map[])
  }

  predicate Enabled(s: State, e: Step) {
    match e
    case Cancel(t) => t !in s.callers && W.Enabled(s.call, W.Enter(t))
    case Wait(t) => t !in s.callers
    case Call(step) => !step.Enter? && W.Enabled(s.call, step)
    case Leave(t) => t in s.callers && s.callers[t].Cancelling? && t in s.call.callers && s.call.callers[t].Left?
    case Exchange(t) => t in s.callers && s.callers[t].Waiting?
    case Join(t) => t in s.callers && s.callers[t].Joining? && s.exited
    case SetCallback(_) => true
    case Exit => !s.call.loop.running && !s.exited
  }

  function Next(s: State, e: Step): State
    requires Enabled(s, e)
  {
    match e
    case Cancel(t) => s.(call := W.Next(s.call, W.Enter(t)), callers := s.callers[t := Cancelling])
    case Wait(t) => s.(callers := s.callers[t := Waiting])
    case Call(step) => s.(call := W.Next(s.call, step))
    case Leave(t) => s.(callers := s.callers[t := Waiting])
    case Exchange(t) =>
      if !s.cancelled && s.joinable then s.(cancelled := true, callers := s.callers[t := Joining])
      else s.(cancelled := true, callers := s.callers[t := Returned(false)])
    case Join(t) => s.(joinable := false, joins := s.joins + 1, callers := s.callers[t := Returned(true)])
    case SetCallback(callback) => if s.waitCallback.None? then s.(waitCallback := Some(callback)) else s
    case Exit =>
      s.(exited := true,
         notified := match s.waitCallback
                     case None => s.notified
                     case Some(callback) => s.notified + [(callback, s.call.isCancelled)])
  }

  predicate CanRun(s: State, steps: seq<Step>)
    decreases |steps|
  {
    steps == [] || (Enabled(s, steps[0]) && CanRun(Next(s, steps[0]), steps[1..]))
  }

  function Run(s: State, steps: seq<Step>): State
    requires CanRun(s, steps)
    decreases |steps|
  {
    if steps == [] then s else Run(Next(s, steps[0]), steps[1..])
  }

  // ----- the code; `call` is the watch action, whose own steps are in module Watch

  class WatcherObject {
    const call: W.AsyncWatchAction
    var cancelled: bool
    var joinable: bool
    var exited: bool
    var joins: nat
    var waitCallback: Option<nat>
    var notified: seq<(nat, bool)>
    var callers: map<nat, Caller>

    function View(): State
      reads this, call
    {
      State(call.View(), cancelled, joinable, exited, joins, waitCallback, notified, callers)
    }

    /** `doWatch`: creates the action and starts the thread. */
    constructor (startRevision: int, replies: seq<W.Reply>, connect: W.Connect)
      ensures View() == Begin(startRevision, replies, connect) && fresh(call)
    {
      call := new W.AsyncWatchAction(W.Callback, startRevision, replies, connect);
      cancelled, joinable, exited, joins := false, true, false, 0;
      waitCallback, notified, callers := None, [], map[];
    }

    /** `Cancel`, up to its call of `CancelWatch`. */
    method Cancel(t: nat)
      requires Enabled(View(), Step.Cancel(t))
      modifies this`callers, call
      ensures View() == Next(old(View()), Step.Cancel(t))
    {
      call.Interleave(W.Enter(t));
      callers := callers[t := Cancelling];
    }

    /** `Wait()` behind its entry: the exchange, and the join if this thread is to do it. */
    method StepWait(t: nat)
      requires Enabled(View(), Exchange(t)) || Enabled(View(), Join(t))
      modifies this
      ensures View() == Next(old(View()), if old(callers[t]).Waiting? then Exchange(t) else Join(t))
    {
      if callers[t].Waiting? {
        var mine := !cancelled && joinable;
        cancelled := true;
        callers := callers[t := if mine then Joining else Returned(false)];
      } else {
        joinable := false;
        joins := joins + 1;
        callers := callers[t := Returned(true)];
      }
    }

    /** `Wait(callback)`. */
    method SetWaitCallback(callback: nat) returns (accepted: bool)
      modifies this`waitCallback
      ensures View() == Next(old(View()), SetCallback(callback))
      ensures accepted <==> old(waitCallback).None?
    {
      accepted := waitCallback.None?;
      if accepted {
        waitCallback := Some(callback);
      }
    }

    /** The end of the watch thread, behind `waitForResponse`. */
    method LeaveThread()
      requires Enabled(View(), Exit)
      modifies this
      ensures View() == Next(old(View()), Exit)
    {
      exited := true;
      if waitCallback.Some? {
        notified := notified + [(waitCallback.value, call.isCancelled)];
      }
    }
  }

  // ----- every run of the watcher is a run of its loop

  function Inner(steps: seq<Step>): seq<W.Step> {
    if steps == [] then []
    else (match steps[0] case Cancel(t) => [W.Enter(t)] case Call(step) => [step] case _ => []) + Inner(steps[1..])
  }

  lemma StepIsInner(s: State, e: Step)
    requires Enabled(s, e)
    ensures match e
            case Cancel(t) => W.Enabled(s.call, W.Enter(t)) && Next(s, e).call == W.Next(s.call, W.Enter(t))
            case Call(step) => W.Enabled(s.call, step) && Next(s, e).call == W.Next(s.call, step)
            case _ => Next(s, e).call == s.call
  {
  }

  lemma {:induction false} RunIsInnerRun(s: State, steps: seq<Step>)
    requires CanRun(s, steps)
    ensures W.CanRun(s.call, Inner(steps)) && W.Run(s.call, Inner(steps)) == Run(s, steps).call
    decreases |steps|
  {
    hide Next, Enabled, W.Next, W.Enabled;
    if steps != [] {
      StepIsInner(s, steps[0]);
      RunIsInnerRun(Next(s, steps[0]), steps[1..]);
      var rest := Inner(steps[1..]);
      match steps[0] {
        case Cancel(t) => WatchTheorems.RunCons(s.call, W.Enter(t), rest);
        case Call(step) => WatchTheorems.RunCons(s.call, step, rest);
        case _ => assert [] + rest == rest;
      }
    }
  }

  /** The watcher inherits the stream discipline of its loop, with any number of threads cancelling. */
  lemma WatcherKeepsDiscipline(startRevision: int, replies: seq<W.Reply>, steps: seq<Step>)
    requires CanRun(Begin(startRevision, replies, W.Connected), steps)
    ensures WatchProperties.Discipline(Run(Begin(startRevision, replies, W.Connected), steps).call)
  {
    hide Next, Enabled, W.Next, W.Enabled, W.Begin, WatchProperties.Discipline;
    RunIsInnerRun(Begin(startRevision, replies, W.Connected), steps);
    WatchTheorems.StreamDiscipline(W.Callback, startRevision, replies, Inner(steps));
  }

  // ----- joining

  predicate MayJoin(c: Caller) {
    c.Joining? || c == Returned(true)
  }

  ghost predicate Inv(s: State) {
    && (forall t, u | t in s.callers && u in s.callers :: MayJoin(s.callers[t]) && MayJoin(s.callers[u]) ==> t == u)
    && (!s.cancelled ==> s.joinable && s.joins == 0 && forall t | t in s.callers :: !MayJoin(s.callers[t]))
    && (s.joins > 0 ==> !s.joinable && s.exited && forall t | t in s.callers :: !s.callers[t].Joining?)
    && s.joins <= 1
    && ((exists t :: t in s.callers && s.callers[t] == Returned(true)) ==> s.exited && s.joins == 1)
    && (s.exited ==> !s.call.loop.running)
    && |s.notified| <= (if s.exited then 1 else 0)
    && (s.notified != [] ==> s.waitCallback == Some(s.notified[0].0))
  }

  lemma StepKeepsInv(s: State, e: Step)
    requires Inv(s) && Enabled(s, e)
    ensures Inv(Next(s, e))
  {
    hide W.Next;
    if !s.call.loop.running {
      if e.Call? {
        StillStopped(s.call, e.step);
      } else if e.Cancel? {
        StillStopped(s.call, W.Enter(e.t));
      }
    }
  }

  lemma StillStopped(s: W.State, e: W.Step)
    requires W.Enabled(s, e) && !s.loop.running
    ensures W.Next(s, e).loop == s.loop
  {
    WatchTheorems.StepGrows(s, e);
  }

  lemma {:induction false} RunKeepsInv(s: State, steps: seq<Step>)
    requires Inv(s) && CanRun(s, steps)
    ensures Inv(Run(s, steps))
    ensures s.exited ==> Run(s, steps).exited && Run(s, steps).call.loop == s.call.loop
                         && Run(s, steps).notified == s.notified
    decreases |steps|
  {
    hide Next, Enabled, Inv;
    if steps != [] {
      StepKeepsInv(s, steps[0]);
      AfterExit(s, steps[0]);
      RunKeepsInv(Next(s, steps[0]), steps[1..]);
    }
  }

  lemma AfterExit(s: State, e: Step)
    requires Inv(s) && Enabled(s, e)
    ensures s.exited ==> Next(s, e).exited && Next(s, e).call.loop == s.call.loop && Next(s, e).notified == s.notified
  {
    hide W.Next;
    if s.exited {
      if e.Call? {
        StillStopped(s.call, e.step);
      } else if e.Cancel? {
        StillStopped(s.call, W.Enter(e.t));
      }
    }
  }

  /**
   * However many threads call `Cancel` and `Wait`, the watch thread is joined at most once. Once a call
   * has come back from the join, the watch is over: no callback is made any more. The wait callback is
   * invoked at most once, it is the first one that was set, and only after the loop has ended.
   */
  lemma JoinedAtMostOnce(startRevision: int, replies: seq<W.Reply>, connect: W.Connect,
                         steps: seq<Step>, more: seq<Step>)
    requires CanRun(Begin(startRevision, replies, connect), steps)
    requires CanRun(Run(Begin(startRevision, replies, connect), steps), more)
    ensures var s := Run(Begin(startRevision, replies, connect), steps);
            var s' := Run(s, more);
            && s.joins <= 1
            && (forall t | t in s.callers && s.callers[t] == Returned(true) ::
                  s.joins == 1 && !s.call.loop.running && s'.call.loop.callbacks == s.call.loop.callbacks)
            && |s.notified| <= 1
            && (s.notified != [] ==> && !s.call.loop.running && s.waitCallback == Some(s.notified[0].0)
                                     && s'.notified == s.notified)
  {
    hide Next, Enabled, W.Next, W.Enabled, W.Begin;
    var b := Begin(startRevision, replies, connect);
    RunKeepsInv(b, steps);
    RunKeepsInv(Run(b, steps), more);
  }

  /**
   * A watcher whose stream could not be created is never joined: its loop waits for a completion that
   * cannot come, and so does the one call that has won the exchange in `Wait`.
   */
  lemma FailedWatcherIsNeverJoined(startRevision: int, replies: seq<W.Reply>, connect: W.Connect, steps: seq<Step>)
    requires !connect.Connected? && CanRun(Begin(startRevision, replies, connect), steps)
    ensures var s := Run(Begin(startRevision, replies, connect), steps);
            s.joins == 0 && !s.exited && forall t | t in s.callers :: s.callers[t] != Returned(true)
  {
    hide Next, Enabled, W.Next, W.Enabled;
    var b := Begin(startRevision, replies, connect);
    RunKeepsInv(b, steps);
    RunIsInnerRun(b, steps);
    WatchTheorems.FailedCreationOnlyWaits(startRevision, replies, connect, Inner(steps));
  }
  // ----- the wait callback, and what the calls return

  /** A thread makes the exchange in `CancelWatch`. */
  predicate IsCancel(e: Step) {
    e.Call? && e.step.Exchange?
  }

  /** Step i is the first call of `Wait(callback)`. */
  ghost predicate SetsFirst(steps: seq<Step>, i: nat) {
    i < |steps| && steps[i].SetCallback? && forall j: nat | j < i :: !steps[j].SetCallback?
  }

  lemma CompletionKeepsFlag(s: W.State, op: W.Op, ok: bool, code: Status)
    requires W.Enabled(s, W.Complete(op, ok, code)) && s.mode.Callback?
    ensures W.Next(s, W.Complete(op, ok, code)).mode.Callback?
    ensures W.Next(s, W.Complete(op, ok, code)).isCancelled == s.isCancelled
  {
    hide W.Parsed, W.Completed, W.Issued, W.TagOf;
  }

  lemma InnerFlagStep(s: W.State, e: W.Step)
    requires W.Enabled(s, e) && s.mode.Callback?
    ensures W.Next(s, e).mode.Callback?
    ensures W.Next(s, e).isCancelled <==> s.isCancelled || e.Exchange?
  {
    hide W.Parsed, W.Deliver, W.Dispatch;
    if e.Complete? {
      CompletionKeepsFlag(s, e.op, e.ok, e.code);
    }
  }

  lemma FlagStep(s: State, e: Step)
    requires Enabled(s, e) && s.call.mode.Callback?
    ensures Next(s, e).call.mode.Callback?
    ensures Next(s, e).call.isCancelled <==> s.call.isCancelled || IsCancel(e)
  {
    hide W.Next, W.Enabled;
    if e.Call? {
      InnerFlagStep(s.call, e.step);
    } else if e.Cancel? {
      InnerFlagStep(s.call, W.Enter(e.t));
    }
  }

  lemma {:induction false} FlagIsHistory(s: State, steps: seq<Step>)
    requires CanRun(s, steps) && s.call.mode.Callback?
    ensures Run(s, steps).call.isCancelled <==> s.call.isCancelled || exists e <- steps :: IsCancel(e)
    decreases |steps|
  {
    hide Next, Enabled, IsCancel;
    if steps != [] {
      FlagStep(s, steps[0]);
      FlagIsHistory(Next(s, steps[0]), steps[1..]);
      assert steps == [steps[0]] + steps[1..];
    }
  }

  lemma {:induction false} FirstCallbackIsKept(s: State, steps: seq<Step>)
    requires CanRun(s, steps)
    ensures s.waitCallback.Some? ==> Run(s, steps).waitCallback == s.waitCallback
    ensures forall i: nat | SetsFirst(steps, i) && s.waitCallback.None? ::
              Run(s, steps).waitCallback == Some(steps[i].callback)
    ensures s.waitCallback.None? && (forall e <- steps :: !e.SetCallback?) ==> Run(s, steps).waitCallback.None?
    decreases |steps|
  {
    hide W.Next, W.Enabled;
    if steps != [] {
      var n := Next(s, steps[0]);
      FirstCallbackIsKept(n, steps[1..]);
      forall i: nat | SetsFirst(steps, i) && s.waitCallback.None?
        ensures Run(s, steps).waitCallback == Some(steps[i].callback)
      {
        if i > 0 {
          assert forall j: nat | j < i - 1 :: steps[1..][j] == steps[j + 1];
          assert SetsFirst(steps[1..], i - 1);
        }
      }
    }
  }

  /**
   * However the loop comes to its end, the callback given to the first `Wait(callback)` before that is
   * invoked once, with true exactly if some thread had called `Cancel` and made the exchange by then. It
   * is false when the server ended the watch or an operation failed. Without such a callback nothing is
   * invoked, even if one is set later.
   */
  lemma WaitCallbackIsExact(startRevision: int, replies: seq<W.Reply>, steps: seq<Step>, more: seq<Step>)
    requires CanRun(Begin(startRevision, replies, W.Connected), steps)
    requires Enabled(Run(Begin(startRevision, replies, W.Connected), steps), Exit)
    requires CanRun(Next(Run(Begin(startRevision, replies, W.Connected), steps), Exit), more)
    ensures var s := Run(Next(Run(Begin(startRevision, replies, W.Connected), steps), Exit), more);
            && (forall i: nat | SetsFirst(steps, i) ::
                  s.notified == [(steps[i].callback, exists e <- steps :: IsCancel(e))])
            && ((forall e <- steps :: !e.SetCallback?) ==> s.notified == [])
  {
    hide W.Next, W.Enabled, W.Parsed, IsCancel, SetsFirst;
    var b := Begin(startRevision, replies, W.Connected);
    var s := Run(b, steps);
    RunKeepsInv(b, steps);
    FlagIsHistory(b, steps);
    FirstCallbackIsKept(b, steps);
    StepKeepsInv(s, Exit);
    RunKeepsInv(Next(s, Exit), more);
  }

  lemma PassedMeansCancelled(s: State, e: Step)
    requires Enabled(s, e) && s.call.mode.Callback?
    requires forall t | t in s.call.callers :: s.call.callers[t].Entered? || s.call.isCancelled
    ensures forall t | t in Next(s, e).call.callers :: Next(s, e).call.callers[t].Entered? || Next(s, e).call.isCancelled
  {
    hide W.Parsed, W.Effective;
  }

  lemma {:induction false} RunPassedMeansCancelled(s: State, steps: seq<Step>)
    requires CanRun(s, steps) && s.call.mode.Callback?
    requires forall t | t in s.call.callers :: s.call.callers[t].Entered? || s.call.isCancelled
    ensures Run(s, steps).call.mode.Callback?
    ensures forall t | t in Run(s, steps).call.callers ::
              Run(s, steps).call.callers[t].Entered? || Run(s, steps).call.isCancelled
    decreases |steps|
  {
    hide Next, Enabled;
    if steps != [] {
      FlagStep(s, steps[0]);
      PassedMeansCancelled(s, steps[0]);
      RunPassedMeansCancelled(Next(s, steps[0]), steps[1..]);
    }
  }

  /** `Cancel` returns true: the flag it reads at its end is set from its own way through `CancelWatch` on. */
  lemma CancelReturnsTrue(startRevision: int, replies: seq<W.Reply>, connect: W.Connect,
                          steps: seq<Step>, t: nat, more: seq<Step>)
    requires CanRun(Begin(startRevision, replies, connect), steps)
    requires Enabled(Run(Begin(startRevision, replies, connect), steps), Leave(t))
    requires CanRun(Run(Begin(startRevision, replies, connect), steps), more)
    ensures Run(Run(Begin(startRevision, replies, connect), steps), more).call.isCancelled
  {
    hide Next, W.Next, W.Enabled, W.Parsed, IsCancel;
    var b := Begin(startRevision, replies, connect);
    RunPassedMeansCancelled(b, steps);
    FlagIsHistory(Run(b, steps), more);
  }
}
