/** Every call of `lock` and `unlock` can come to its end (src/SyncClient.cpp:1084-1178 with src/KeepAlive.cpp). */
module LockProgress {
  import opened Ranges
  import Threads
  import L = Locks
  import K = KeepAlive
  import opened LockLifetimes
  import T = LockTheorems

  /** `unlock` calls inside their critical section are in the destructor or about to revoke. */
  ghost predicate MutexInUnlock(s: State) {
    s.mutex.Some? ==> s.mutex.value in s.calls && (s.calls[s.mutex.value].Erasing? || s.calls[s.mutex.value].Revoking?)
  }

  /** What the progress of calls rests on. */
  ghost predicate Steady(s: State) {
    Inv(s) && MutexInUnlock(s)
  }

  lemma StepKeepsMutexInUnlock(s: State, e: Step)
    requires MutexInUnlock(s) && Enabled(s, e)
    ensures MutexInUnlock(Next(s, e))
  {
    hide L.Next, L.Enabled, K.Next, K.Enabled, LocalRef;
  }

  lemma {:induction false} RunKeepsSteady(s: State, steps: seq<Step>)
    requires Steady(s) && CanRun(s, steps)
    ensures Steady(Run(s, steps))
    decreases |steps|
  {
    hide Inv, MutexInUnlock, Next, Enabled;
    if steps != [] {
      StepKeepsInv(s, steps[0]);
      StepKeepsMutexInUnlock(s, steps[0]);
      RunKeepsSteady(Next(s, steps[0]), steps[1..]);
    }
  }

  // ----- through the destructor

  /** Steps inside one keep-alive, as steps of the whole. */
  function Within(lease: int, steps: seq<K.Step>): seq<Step> {
    if steps == [] then [] else [KeepAlive(lease, steps[0])] + Within(lease, steps[1..])
  }

  lemma {:induction false} WithinRun(s: State, lease: int, steps: seq<K.Step>)
    requires lease in s.alive && K.CanRun(s.alive[lease], steps) && forall e <- steps :: K.Good(e)
    ensures CanRun(s, Within(lease, steps))
    ensures Run(s, Within(lease, steps)) == s.(alive := s.alive[lease := K.Run(s.alive[lease], steps)])
    decreases |steps|
  {
    hide K.Next, K.Enabled;
    if steps == [] {
      assert s.alive[lease := s.alive[lease]] == s.alive;
    } else {
      var e := KeepAlive(lease, steps[0]);
      assert K.Good(steps[0]);
      var s1 := Next(s, e);
      WithinRun(s1, lease, steps[1..]);
      T.RunOne(s, e);
      T.RunConcat(s, [e], Within(lease, steps[1..]));
      assert s1.alive[lease := K.Run(s1.alive[lease], steps[1..])] == s.alive[lease := K.Run(s.alive[lease], steps)];
    }
  }

  /** The destructor comes to its end: the winner of `Cancel` joins and closes the stream. */
  lemma LeaveDestructor(s: State, t: nat) returns (steps: seq<Step>)
    requires Steady(s) && t in s.calls && (s.calls[t].Dropping? || s.calls[t].Erasing?)
    ensures CanRun(s, steps)
    ensures var s', lease := Run(s, steps), s.calls[t].lease;
            && s'.mutex == s.mutex
            && s'.calls == s.calls[t := if s.calls[t].Dropping? then LockDone(lease) else Revoking(lease)]
  {
    hide K.Inv, BooksAgree, K.Next, K.Enabled;
    var lease := s.calls[t].lease;
    var inner := K.CallComesBack(s.alive[lease], t);
    WithinRun(s, lease, inner);
    steps := Within(lease, inner);
    T.RunSnoc(s, steps, Destroyed(t));
    steps := steps + [Destroyed(t)];
  }

  /** The `unlock` call inside the critical section leaves it; no other call is touched. */
  lemma FreeTheMaps(s: State) returns (steps: seq<Step>)
    requires Steady(s)
    ensures CanRun(s, steps) && Run(s, steps).mutex.None?
    ensures forall t :: t in s.calls && Some(t) != s.mutex ==>
              t in Run(s, steps).calls && Run(s, steps).calls[t] == s.calls[t]
    ensures s.mutex.Some? ==> s.mutex.value in Run(s, steps).calls && Run(s, steps).calls[s.mutex.value].UnlockDone?
  {
    hide Inv, K.Next, K.Enabled;
    steps := [];
    if s.mutex.Some? {
      var u := s.mutex.value;
      if s.calls[u].Erasing? {
        steps := LeaveDestructor(s, u);
      }
      var s1 := Run(s, steps);
      assert s1.calls == s.calls[u := Revoking(s.calls[u].lease)];
      T.RunSnoc(s, steps, Revoke(u));
      steps := steps + [Revoke(u)];
    }
  }

  // ----- every call comes to its end

  predicate Done(c: Call) {
    c.LockDone? || c.UnlockDone?
  }

  ghost predicate CanFinish(s: State, t: nat) {
    exists more :: CanRun(s, more) && t in Run(s, more).calls && Done(Run(s, more).calls[t])
  }

  /** How many stages a call has before it. */
  function Stages(c: Call): nat {
    match c
    case Created(_) => 4
    case Registered(_) => 3
    case Settled(_) => 2
    case Dropping(_) => 1
    case Erasing(_) => 2
    case Revoking(_) => 1
    case LockDone(_) => 0
    case UnlockDone => 0
  }

  /** The server grants a lock under a key it has not used before. */
  lemma NewKey(used: set<string>) returns (key: string)
    ensures key !in used
  {
    var n := Threads.Newcomer(set k | k in used :: |k|);
    key := seq(n, _ => 'k');
    assert |key| !in (set k | k in used :: |k|);
  }

  /** The next step of a call that is not in a destructor, once the maps are free. */
  lemma OwnStep(s: State, t: nat) returns (e: Step)
    requires Steady(s) && t in s.calls && s.mutex.None?
    requires s.calls[t].Created? || s.calls[t].Registered? || s.calls[t].Settled? || s.calls[t].Revoking?
    ensures Enabled(s, e) && t in Next(s, e).calls && Stages(Next(s, e).calls[t]) < Stages(s.calls[t])
  {
    hide MutexInUnlock, Inv, L.Next, K.Next;
    T.InvFreesGuards(s, t, "");
    match s.calls[t] {
      case Created(_) => e := Register(t);
      case Registered(_) =>
        var key := NewKey(s.locks.usedKeys);
        e := Grant(t, key);
      case Settled(_) => e := Return(t);
      case _ => e := Revoke(t);
    }
  }

  /** One stage of call t. */
  lemma NextStage(s: State, t: nat) returns (steps: seq<Step>)
    requires Steady(s) && t in s.calls && !Done(s.calls[t])
    ensures CanRun(s, steps) && t in Run(s, steps).calls
    ensures Stages(Run(s, steps).calls[t]) < Stages(s.calls[t])
  {
    hide Steady, Enabled, Next;
    if s.calls[t].Dropping? || s.calls[t].Erasing? {
      steps := LeaveDestructor(s, t);
    } else {
      steps := FreeTheMaps(s);
      var s1 := Run(s, steps);
      RunKeepsSteady(s, steps);
      if Some(t) != s.mutex {
        assert s1.calls[t] == s.calls[t];
        var e := OwnStep(s1, t);
        T.RunSnoc(s, steps, e);
        steps := steps + [e];
      }
    }
  }

  lemma {:induction false} ComeToTheEnd(s: State, t: nat) returns (steps: seq<Step>)
    requires Steady(s) && t in s.calls
    ensures CanRun(s, steps) && t in Run(s, steps).calls && Done(Run(s, steps).calls[t])
    decreases Stages(s.calls[t])
  {
    hide Steady, Enabled, Next;
    steps := [];
    if !Done(s.calls[t]) {
      steps := NextStage(s, t);
      RunKeepsSteady(s, steps);
      var rest := ComeToTheEnd(Run(s, steps), t);
      T.RunConcat(s, steps, rest);
      steps := steps + rest;
    }
  }

  /**
   * In every reachable state, each call of `lock` and `unlock` that is under way can come to its end, although
   * `unlock` holds the mutex of the maps while it waits for the refresh thread.
   */
  lemma EveryCallCanFinish(steps: seq<Step>, t: nat)
    requires CanRun(BEGIN, steps) && t in Run(BEGIN, steps).calls
    ensures CanFinish(Run(BEGIN, steps), t)
  {
    hide Inv, Next, Enabled;
    BeginInv();
    RunKeepsSteady(BEGIN, steps);
    var more := ComeToTheEnd(Run(BEGIN, steps), t);
  }
}
