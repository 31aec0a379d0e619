/** Who comes back from `Wait` and `Cancel` (src/Watcher.cpp:223-250), in every interleaving. */
module WatcherTheorems {
  import Threads
  import W = Watch
  import WatchProperties
  import WatchTheorems
  import opened Watcher

  // ----- composing runs

  lemma {:induction false} RunConcat(s: State, a: seq<Step>, b: seq<Step>)
    requires CanRun(s, a) && CanRun(Run(s, a), b)
    ensures CanRun(s, a + b) && Run(s, a + b) == Run(Run(s, a), b)
    decreases |a|
  {
    hide Next, Enabled;
    if a == [] {
      assert a + b == b;
    } else {
      assert (a + b)[0] == a[0] && (a + b)[1..] == a[1..] + b;
      RunConcat(Next(s, a[0]), a[1..], b);
    }
  }

  lemma RunOne(s: State, e: Step)
    requires Enabled(s, e)
    ensures CanRun(s, [e]) && Run(s, [e]) == Next(s, e)
  {
    hide Enabled, Next;
    assert CanRun(Next(s, e), []);
    assert [e][1..] == [];
  }

  lemma RunTwo(s: State, e: Step, f: Step)
    requires Enabled(s, e) && Enabled(Next(s, e), f)
    ensures CanRun(s, [e] + [f]) && Run(s, [e] + [f]) == Next(Next(s, e), f)
  {
    hide Enabled, Next;
    RunOne(s, e);
    RunOne(Next(s, e), f);
    RunConcat(s, [e], [f]);
  }

  /** Steps inside the action, as steps of the watcher. */
  function Inside(steps: seq<W.Step>): seq<Step> {
    if steps == [] then [] else [Call(steps[0])] + Inside(steps[1..])
  }

  lemma {:induction false} InsideRun(s: State, steps: seq<W.Step>)
    requires W.CanRun(s.call, steps) && forall e <- steps :: !e.Enter?
    ensures CanRun(s, Inside(steps)) && Run(s, Inside(steps)) == s.(call := W.Run(s.call, steps))
    decreases |steps|
  {
    hide W.Next, W.Enabled;
    if steps != [] {
      var s1 := Next(s, Call(steps[0]));
      InsideRun(s1, steps[1..]);
      RunOne(s, Call(steps[0]));
      RunConcat(s, [Call(steps[0])], Inside(steps[1..]));
    }
  }

  // ----- the callers

  /** A thread in `CancelWatch` is known there, and once `cancelled` is set somebody is to join, or has. */
  ghost predicate CallersKnown(s: State) {
    && (forall t :: t in s.callers && s.callers[t].Cancelling? ==> t in s.call.callers)
    && (s.cancelled ==> exists t :: t in s.callers && MayJoin(s.callers[t]))
  }

  lemma CallersStay(s: W.State, e: W.Step)
    requires W.Enabled(s, e)
    ensures s.callers.Keys <= W.Next(s, e).callers.Keys
    ensures e.Enter? ==> e.t in W.Next(s, e).callers
  {
    hide W.Parsed, W.Effective;
  }

  lemma StepKeepsMayJoin(s: State, e: Step, t: nat)
    requires Inv(s) && Enabled(s, e) && t in s.callers && MayJoin(s.callers[t])
    ensures t in Next(s, e).callers && MayJoin(Next(s, e).callers[t])
  {
    hide W.Next, Inv;
  }

  lemma StepKeepsCallersKnown(s: State, e: Step)
    requires Inv(s) && CallersKnown(s) && Enabled(s, e)
    ensures CallersKnown(Next(s, e))
  {
    hide W.Next;
    var s' := Next(s, e);
    if e.Call? {
      CallersStay(s.call, e.step);
    } else if e.Cancel? {
      CallersStay(s.call, W.Enter(e.t));
    }
    if s.cancelled {
      var t :| t in s.callers && MayJoin(s.callers[t]);
      StepKeepsMayJoin(s, e, t);
    } else if s'.cancelled {
      assert e.Exchange? && MayJoin(s'.callers[e.t]);
    }
  }

  lemma {:induction false} RunKeepsCallers(s: State, steps: seq<Step>)
    requires Inv(s) && CallersKnown(s) && CanRun(s, steps)
    ensures Inv(Run(s, steps)) && CallersKnown(Run(s, steps))
    ensures forall t :: t in s.callers && MayJoin(s.callers[t]) ==>
              t in Run(s, steps).callers && MayJoin(Run(s, steps).callers[t])
    decreases |steps|
  {
    hide Next, Enabled, Inv, CallersKnown;
    if steps != [] {
      StepKeepsInv(s, steps[0]);
      StepKeepsCallersKnown(s, steps[0]);
      forall t | t in s.callers && MayJoin(s.callers[t])
        ensures t in Next(s, steps[0]).callers && MayJoin(Next(s, steps[0]).callers[t])
      {
        StepKeepsMayJoin(s, steps[0], t);
      }
      RunKeepsCallers(Next(s, steps[0]), steps[1..]);
    }
  }

  lemma BeginKnown(startRevision: int, replies: seq<W.Reply>, connect: W.Connect)
    ensures Inv(Begin(startRevision, replies, connect)) && CallersKnown(Begin(startRevision, replies, connect))
  {
    hide W.Parsed;
  }

  // ----- the watch on a created stream

  /** The action is in good order: its loop can be ended. */
  ghost predicate Sound(s: State) {
    && Inv(s) && CallersKnown(s)
    && WatchProperties.Good(s.call) && WatchTheorems.Ending(s.call) && s.call.mode.Callback?
  }

  lemma RunKeepsSound(s: State, steps: seq<Step>)
    requires Sound(s) && CanRun(s, steps)
    ensures Sound(Run(s, steps))
  {
    hide Next, Enabled, W.Next, W.Enabled, Inv, CallersKnown, WatchProperties.Good, WatchTheorems.Ending;
    RunKeepsCallers(s, steps);
    RunIsInnerRun(s, steps);
    WatchTheorems.RunKeepsEnding(s.call, Inner(steps));
  }

  lemma BeginSound(startRevision: int, replies: seq<W.Reply>)
    ensures Sound(Begin(startRevision, replies, W.Connected))
  {
    hide WatchProperties.Told, WatchProperties.Bounded, WatchProperties.Good, Inv, CallersKnown, W.Parsed;
    BeginKnown(startRevision, replies, W.Connected);
    WatchTheorems.BeginInv(W.Callback, startRevision, replies);
  }

  /** The cancel request gets out, through the thread that has won the exchange or through a new one. */
  lemma GetCancelOut(s: State) returns (steps: seq<Step>)
    requires Sound(s) && s.call.loop.running
    ensures CanRun(s, steps) && Run(s, steps).call.loop.running
    ensures Run(s, steps).call.queue.issued[W.WriteCancel] == 1
    ensures forall e <- steps :: e.Call? ==> !e.step.Complete?
  {
    hide Inv, CallersKnown, WatchProperties.Support;
    if s.call.queue.issued[W.WriteCancel] == 1 {
      steps := [];
    } else if s.call.isCancelled {
      var t :| t in s.call.callers && s.call.callers[t].Won?;
      RunOne(s, Call(W.IssueCancel(t)));
      steps := [Call(W.IssueCancel(t))];
    } else {
      var t := Threads.Newcomer(s.callers.Keys + s.call.callers.Keys);
      RunTwo(s, Cancel(t), Call(W.Exchange(t)));
      var s2 := Next(Next(s, Cancel(t)), Call(W.Exchange(t)));
      RunOne(s2, Call(W.IssueCancel(t)));
      RunConcat(s, [Cancel(t)] + [Call(W.Exchange(t))], [Call(W.IssueCancel(t))]);
      steps := [Cancel(t)] + [Call(W.Exchange(t))] + [Call(W.IssueCancel(t))];
    }
  }

  /** Nothing in these steps has failed. */
  predicate AllWell(steps: seq<Step>) {
    forall e <- steps :: e.Call? && e.step.Complete? ==> e.step.ok
  }

  lemma {:induction false} InsideIsWell(steps: seq<W.Step>)
    requires forall e <- steps :: e.Complete? ==> e.ok
    ensures AllWell(Inside(steps))
  {
    if steps != [] {
      InsideIsWell(steps[1..]);
    }
  }

  lemma LetLoopEnd(s: State) returns (steps: seq<Step>)
    requires Sound(s)
    ensures CanRun(s, steps) && !Run(s, steps).call.loop.running && AllWell(steps)
  {
    hide Sound, Inv, Next, Enabled, CallersKnown, W.Next, W.Enabled, WatchProperties.Good, WatchTheorems.Ending;
    steps := [];
    if s.call.loop.running {
      var out := GetCancelOut(s);
      RunKeepsSound(s, out);
      var s1 := Run(s, out);
      var end := FinishLoop(s1);
      RunConcat(s, out, end);
      steps := out + end;
    }
  }

  lemma FinishLoop(s: State) returns (steps: seq<Step>)
    requires Sound(s) && s.call.loop.running && s.call.queue.issued[W.WriteCancel] == 1
    ensures CanRun(s, steps) && !Run(s, steps).call.loop.running && AllWell(steps)
  {
    hide Inv, Next, Enabled, CallersKnown, W.Next, W.Enabled, WatchProperties.Good, WatchTheorems.Ending;
    var inner := WatchTheorems.EndTheLoop(s.call);
    InsideRun(s, inner);
    InsideIsWell(inner);
    steps := Inside(inner);
  }

  lemma LetThreadExit(s: State) returns (steps: seq<Step>)
    requires Sound(s)
    ensures CanRun(s, steps) && Run(s, steps).exited && AllWell(steps)
  {
    hide Sound, Inv, CallersKnown, W.Next, W.Enabled;
    steps := LetLoopEnd(s);
    var s1 := Run(s, steps);
    if !s1.exited {
      RunOne(s1, Exit);
      RunConcat(s, steps, [Exit]);
      steps := steps + [Exit];
    }
  }

  lemma LetJoin(s: State) returns (steps: seq<Step>)
    requires Inv(s) && CallersKnown(s) && s.exited
    ensures CanRun(s, steps) && Run(s, steps).joins == 1 && AllWell(steps)
  {
    hide W.Next, W.Enabled;
    if s.cancelled {
      var t :| t in s.callers && MayJoin(s.callers[t]);
      if s.callers[t].Joining? {
        RunOne(s, Join(t));
        steps := [Join(t)];
      } else {
        steps := [];
      }
    } else {
      var t := Threads.Newcomer(s.callers.Keys);
      RunTwo(s, Wait(t), Exchange(t));
      var s2 := Next(Next(s, Wait(t)), Exchange(t));
      RunOne(s2, Join(t));
      RunConcat(s, [Wait(t)] + [Exchange(t)], [Join(t)]);
      steps := [Wait(t)] + [Exchange(t)] + [Join(t)];
    }
  }

  lemma LetThreadBeJoined(s: State) returns (steps: seq<Step>)
    requires Sound(s)
    ensures CanRun(s, steps) && Run(s, steps).joins == 1 && AllWell(steps)
  {
    hide Next, Enabled, Inv, CallersKnown, WatchProperties.Good, WatchTheorems.Ending;
    steps := LetThreadExit(s);
    RunKeepsSound(s, steps);
    var join := LetJoin(Run(s, steps));
    RunConcat(s, steps, join);
    steps := steps + join;
  }

  // ----- the main results

  /** From here the thread can still come to be joined, and without any completion failing. */
  ghost predicate Joinable(s: State) {
    exists more :: CanRun(s, more) && Run(s, more).joins == 1 && AllWell(more)
  }

  /**
   * In every reachable state of a watcher, whatever has been cancelled, completed or failed so far, the
   * watch thread can be joined, if and only if the stream was created.
   */
  lemma JoinableExactly(startRevision: int, replies: seq<W.Reply>, connect: W.Connect, steps: seq<Step>)
    requires CanRun(Begin(startRevision, replies, connect), steps)
    ensures Joinable(Run(Begin(startRevision, replies, connect), steps)) <==> connect.Connected?
  {
    hide Next, Enabled, Begin, Sound, AllWell;
    var b := Begin(startRevision, replies, connect);
    var s := Run(b, steps);
    if connect.Connected? {
      BeginSound(startRevision, replies);
      RunKeepsSound(b, steps);
      var more := LetThreadBeJoined(s);
    } else {
      forall more | CanRun(s, more) ensures Run(s, more).joins == 0 {
        RunConcat(b, steps, more);
        FailedWatcherIsNeverJoined(startRevision, replies, connect, steps + more);
      }
    }
  }

  ghost predicate Back(s: State, t: nat) {
    t in s.callers && s.callers[t].Returned?
  }

  /** From here the call of thread t can still come back. */
  ghost predicate CanComeBack(s: State, t: nat) {
    exists more :: CanRun(s, more) && Back(Run(s, more), t)
  }

  /** Through `CancelWatch`: it never waits for anything. */
  lemma {:induction false} LeaveCancelWatch(s: State, t: nat) returns (steps: seq<Step>)
    requires t in s.callers && s.callers[t].Cancelling? && t in s.call.callers
    ensures CanRun(s, steps) && t in Run(s, steps).callers && Run(s, steps).callers[t].Waiting?
    decreases match s.call.callers[t] case Entered => 2 case Won => 1 case Left => 0
  {
    match s.call.callers[t] {
      case Left =>
        RunOne(s, Leave(t));
        steps := [Leave(t)];
      case _ =>
        var e := Call(if s.call.callers[t].Won? then W.IssueCancel(t) else W.Exchange(t));
        RunOne(s, e);
        var rest := LeaveCancelWatch(Next(s, e), t);
        RunConcat(s, [e], rest);
        steps := [e] + rest;
    }
  }

  /** A thread that comes too late for the exchange in `Wait` comes back at once. */
  lemma LoseExchange(s: State, t: nat) returns (steps: seq<Step>)
    requires t in s.callers && s.callers[t].Waiting?
    requires s.cancelled || s.joinable
    ensures CanRun(s, steps) && Back(Run(s, steps), t)
  {
    hide W.Next, W.Enabled;
    if s.cancelled {
      RunOne(s, Exchange(t));
      steps := [Exchange(t)];
    } else {
      var u := Threads.Newcomer(s.callers.Keys);
      RunTwo(s, Wait(u), Exchange(u));
      var s2 := Next(Next(s, Wait(u)), Exchange(u));
      RunOne(s2, Exchange(t));
      RunConcat(s, [Wait(u)] + [Exchange(u)], [Exchange(t)]);
      steps := [Wait(u)] + [Exchange(u)] + [Exchange(t)];
    }
  }

  lemma OthersComeBack(s: State, t: nat)
    requires Inv(s) && CallersKnown(s) && t in s.callers && !s.callers[t].Joining?
    ensures CanComeBack(s, t)
  {
    hide Next, Enabled, W.Next, W.Enabled;
    var steps: seq<Step> := [];
    if s.callers[t].Cancelling? {
      steps := LeaveCancelWatch(s, t);
    }
    RunKeepsCallers(s, steps);
    var s1 := Run(s, steps);
    if s1.callers[t].Waiting? {
      var rest := LoseExchange(s1, t);
      RunConcat(s, steps, rest);
      steps := steps + rest;
    }
    assert CanRun(s, steps) && Back(Run(s, steps), t);
  }

  lemma JoinerIsBack(s: State, t: nat)
    requires Inv(s) && s.joins == 1 && t in s.callers && MayJoin(s.callers[t])
    ensures Back(s, t)
  {
  }

  /**
   * In every reachable state, a call of `Cancel` or `Wait` that is under way can come back if and only if
   * the stream was created or it is not the one that has won the exchange and is to join the thread.
   */
  lemma CallComesBackExactly(startRevision: int, replies: seq<W.Reply>, connect: W.Connect, steps: seq<Step>, t: nat)
    requires CanRun(Begin(startRevision, replies, connect), steps)
    requires t in Run(Begin(startRevision, replies, connect), steps).callers
    ensures var s := Run(Begin(startRevision, replies, connect), steps);
            CanComeBack(s, t) <==> connect.Connected? || !s.callers[t].Joining?
  {
    hide Next, Enabled, Begin, Sound, AllWell, Inv, CallersKnown, Back;
    var b := Begin(startRevision, replies, connect);
    var s := Run(b, steps);
    BeginKnown(startRevision, replies, connect);
    RunKeepsCallers(b, steps);
    if !s.callers[t].Joining? {
      OthersComeBack(s, t);
    } else if connect.Connected? {
      BeginSound(startRevision, replies);
      RunKeepsSound(b, steps);
      var more := LetThreadBeJoined(s);
      RunKeepsCallers(s, more);
      JoinerIsBack(Run(s, more), t);
    } else {
      forall more | CanRun(s, more) ensures !Back(Run(s, more), t) {
        RunConcat(b, steps, more);
        FailedWatcherIsNeverJoined(startRevision, replies, connect, steps + more);
        RunKeepsCallers(s, more);
        StillJoining(Run(s, more), t);
      }
    }
  }

  lemma StillJoining(s: State, t: nat)
    requires t in s.callers && MayJoin(s.callers[t]) && s.callers[t] != Returned(true)
    ensures !Back(s, t)
  {
  }

  /** Without a stream the first call of `Wait` is such a winner, and hangs. */
  lemma WinnerHangs(startRevision: int, replies: seq<W.Reply>, connect: W.Connect)
    requires !connect.Connected?
    ensures var b := Begin(startRevision, replies, connect);
            var steps := [Wait(0)] + [Exchange(0)];
            CanRun(b, steps) && 0 in Run(b, steps).callers && !CanComeBack(Run(b, steps), 0)
  {
    hide W.Parsed, CanComeBack;
    var b := Begin(startRevision, replies, connect);
    RunTwo(b, Wait(0), Exchange(0));
    CallComesBackExactly(startRevision, replies, connect, [Wait(0)] + [Exchange(0)], 0);
  }
}
