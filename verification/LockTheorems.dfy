/** The main results on locks and their keep-alives, for every interleaving of calls and threads. */
module LockTheorems {
  import opened Ranges
  import L = Locks
  import K = KeepAlive
  import opened LockLifetimes

  // ----- from the end of `lock` to the end of the refreshes

  lemma InsideKeepsCancelling(k: K.State, step: K.Step, t: nat)
    requires K.Inv(k) && k.callers.Keys == {t} && InCancel(k.callers[t])
    requires K.Enabled(k, step) && (step.Refresh? || step.Go?)
    ensures K.Next(k, step).callers.Keys == {t} && InCancel(K.Next(k, step).callers[t])
  {
    assert t in k.callers;
    assert forall u :: u in k.callers ==> u == t;
  }

  lemma NoNewRef(s: State, e: Step, lease: int)
    requires Enabled(s, e) && lease in s.alive && !LocalRef(s, lease)
    ensures !LocalRef(Next(s, e), lease) && lease in Next(s, e).alive
  {
    hide L.Next, L.Enabled, K.Next, K.Enabled;
    var s' := Next(s, e);
    forall t | t in s'.calls ensures !Holds(s'.calls[t], lease) {
      assert t in s.calls ==> !Holds(s.calls[t], lease);
    }
  }

  lemma StepKeepsSilent(s: State, e: Step, lease: int)
    requires Enabled(s, e) && Silent(s, lease)
    ensures var s' := Next(s, e); Silent(s', lease) && s'.alive[lease].calls == s.alive[lease].calls
  {
    hide L.Next, L.Enabled, K.Next, K.Quiet;
    var k := s.alive[lease];
    match e {
      case KeepAlive(l, step) =>
        if l == lease {
          K.StepKeepsQuiet(k, step);
        }
      case Return(t) =>
        if s.calls[t].lease == lease {
          K.StepKeepsQuiet(k, K.Cancel(t));
        }
      case Unlock(t, key) =>
        if key in s.locks.book.leases && s.locks.book.leases[key] == lease && t !in k.callers {
          K.StepKeepsQuiet(k, K.Cancel(t));
        }
      case _ =>
    }
  }

  predicate Unlocks(s: State, e: Step, lease: int) {
    e.Unlock? && e.key in s.locks.book.leases && s.locks.book.leases[e.key] == lease
  }

  lemma OthersLeaveUntouched(s: State, e: Step, lease: int)
    requires Enabled(s, e) && Untouched(s, lease) && !LocalRef(s, lease) && !Unlocks(s, e, lease)
    ensures Untouched(Next(s, e), lease)
  {
    hide L.Next, L.Enabled, K.Next, K.Enabled;
    assert forall t :: t in s.calls ==> !Holds(s.calls[t], lease);
    match e {
      case KeepAlive(l, step) =>
        if l == lease {
          InsideFacts(s.alive[lease], step);
          assert K.Next(s.alive[lease], step).callers == map[];
        }
      case Unlock(t, key) => hide LocalRef;
      case _ =>
    }
  }

  lemma OthersLeaveFiled(s: State, e: Step, lease: int)
    requires BooksAgree(s) && Enabled(s, e) && !LocalRef(s, lease) && !Unlocks(s, e, lease)
    requires lease in s.locks.book.keeps
    ensures lease in Next(s, e).locks.book.keeps
  {
    hide L.Inv, K.Next, K.Enabled, Untouched;
    assert forall t :: t in s.calls ==> !Holds(s.calls[t], lease);
    match e {
      case Refuse(t) =>
        assert L.IsWaiting(s.locks, t, s.locks.waiting[t]);
      case _ =>
    }
  }

  /** A lease on file loses its entry only to the unlock that erases it. */
  lemma FiledStep(s: State, e: Step, lease: int)
    requires Inv(s) && Enabled(s, e) && Given(s, lease) && Untouched(s, lease) && lease in s.locks.book.keeps
    ensures var s' := Next(s, e);
            (Untouched(s', lease) && lease in s'.locks.book.keeps) || exists t :: BeingErased(s', lease, t)
  {
    hide Next, Enabled, OneCallEach, BooksAgree, OnlyDestructors, Silent, BeingErased, Untouched, LocalRef;
    if Unlocks(s, e, lease) {
      FiledIsErased(s, e.t, e.key);
    } else {
      OthersLeaveUntouched(s, e, lease);
      OthersLeaveFiled(s, e, lease);
    }
  }

  lemma FiledIsErased(s: State, t: nat, key: string)
    requires Inv(s) && Enabled(s, Unlock(t, key)) && key in s.locks.book.leases
    requires s.locks.book.leases[key] != 0 && !LocalRef(s, s.locks.book.leases[key])
    ensures BeingErased(Next(s, Unlock(t, key)), s.locks.book.leases[key], t)
  {
    hide L.Inv, K.Inv, OnlyDestructors, Silent, LocalRef;
    var lease := s.locks.book.leases[key];
    L.HeldIsFiled(s.locks, key);
    assert Untouched(s, lease);
    CancelFacts(s.alive[lease], t);
  }

  /** The books are clear of a lease, and a step that does not concern it leaves them so. */
  lemma LocksStayClear(k: L.State, e: L.Step, lease: int)
    requires L.Enabled(k, e) && lease !in k.book.keeps && forall key :: key in k.book.leases ==> k.book.leases[key] != lease
    requires e.Begin? ==> e.lease != lease
    requires e.Succeed? ==> k.waiting[e.t] != lease
    ensures lease !in L.Next(k, e).book.keeps
    ensures forall key :: key in L.Next(k, e).book.leases ==> L.Next(k, e).book.leases[key] != lease
  {
  }

  lemma BooksStayClear(s: State, e: Step, lease: int)
    requires BooksAgree(s) && Enabled(s, e) && !LocalRef(s, lease)
    requires lease !in s.locks.book.keeps && lease !in s.locks.book.leases.Values
    ensures lease !in Next(s, e).locks.book.keeps && lease !in Next(s, e).locks.book.leases.Values
  {
    hide L.Inv, L.Next, K.Next, K.Enabled, Untouched;
    assert forall t :: t in s.calls ==> !Holds(s.calls[t], lease);
    forall t | t in s.locks.waiting ensures s.locks.waiting[t] != lease {
      assert L.IsWaiting(s.locks, t, s.locks.waiting[t]);
    }
    hide BooksAgree, LocalRef, L.IsWaiting;
    match e {
      case Register(t) => LocksStayClear(s.locks, L.Begin(t, s.calls[t].lease), lease);
      case Grant(t, key) => LocksStayClear(s.locks, L.Succeed(t, key), lease);
      case Refuse(t) => LocksStayClear(s.locks, L.Fail(t), lease);
      case Unlock(_, key) => LocksStayClear(s.locks, L.Unlock(key), lease);
      case _ =>
    }
  }

  lemma ErasingStep(s: State, e: Step, lease: int, t: nat)
    requires Inv(s) && Enabled(s, e) && !LocalRef(s, lease) && BeingErased(s, lease, t)
    ensures BeingErased(Next(s, e), lease, t) || Silent(Next(s, e), lease)
  {
    hide L.Inv, K.Inv, L.Next, L.Enabled, OnlyDestructors;
    BooksStayClear(s, e, lease);
    hide BooksAgree, LocalRef;
    match e {
      case Destroyed(u) =>
        if u == t {
          K.CancelledIsQuiet(s.alive[lease], t);
        }
      case KeepAlive(l, step) =>
        if l == lease {
          InsideKeepsCancelling(s.alive[lease], step, t);
        }
      case Unlock(u, key) =>
        assert key in s.locks.book.leases ==> s.locks.book.leases[key] in s.locks.book.leases.Values;
      case _ =>
    }
  }

  lemma StepKeepsGiven(s: State, e: Step, lease: int)
    requires Inv(s) && Enabled(s, e) && Given(s, lease)
    ensures Given(Next(s, e), lease)
  {
    hide Inv, Next, Enabled, LocalRef, Untouched, BeingErased;
    NoNewRef(s, e, lease);
    if Silent(s, lease) {
      StepKeepsSilent(s, e, lease);
    } else if Untouched(s, lease) && lease in s.locks.book.keeps {
      FiledStep(s, e, lease);
    } else {
      var t :| BeingErased(s, lease, t);
      ErasingStep(s, e, lease, t);
    }
  }

  lemma {:induction false} RunKeepsGiven(s: State, steps: seq<Step>, lease: int)
    requires Inv(s) && CanRun(s, steps) && Given(s, lease)
    ensures Given(Run(s, steps), lease)
    decreases |steps|
  {
    hide Inv, Next, Enabled, Given;
    if steps != [] {
      StepKeepsInv(s, steps[0]);
      StepKeepsGiven(s, steps[0], lease);
      RunKeepsGiven(Next(s, steps[0]), steps[1..], lease);
    }
  }

  lemma {:induction false} RunKeepsSilent(s: State, steps: seq<Step>, lease: int)
    requires CanRun(s, steps) && Silent(s, lease)
    ensures var s' := Run(s, steps); Silent(s', lease) && s'.alive[lease].calls == s.alive[lease].calls
    decreases |steps|
  {
    hide Next, Enabled, K.Quiet;
    if steps != [] {
      StepKeepsSilent(s, steps[0], lease);
      RunKeepsSilent(Next(s, steps[0]), steps[1..], lease);
    }
  }

  /** The revoke of a lease has been sent, or is the next thing its unlock call does. */
  ghost predicate RevokeDue(s: State, lease: int) {
    lease in s.revoked || exists t :: t in s.calls && s.calls[t] == Revoking(lease)
  }

  lemma GivenAndDueIsSilent(s: State, lease: int)
    requires Given(s, lease) && RevokeDue(s, lease)
    ensures Silent(s, lease)
  {
  }

  lemma ReturnedIsGiven(s: State, t: nat, lease: int)
    requires Inv(s) && t in s.calls && s.calls[t] == LockDone(lease) && lease in s.locks.book.keeps
    ensures Given(s, lease)
  {
    hide K.Inv, L.Inv;
    assert IsLockCall(s.calls[t], lease);
    forall u | u in s.calls ensures !Holds(s.calls[u], lease) {
      var among := IsLockCall(s.calls[u], lease);
    }
  }

  // ----- the main results

  /**
   * `lock` has returned and its lock is still held (`steps`). In every run from there, once the revoke of
   * the lease is on its way (`more`), the refresh thread is gone and no refresh of the lease is ever
   * started again (`rest`): erasing the last reference has completed `Cancel` before.
   */
  lemma NoRefreshAfterRevoke(steps: seq<Step>, t: nat, lease: int, more: seq<Step>, rest: seq<Step>)
    requires CanRun(BEGIN, steps) && CanRun(Run(BEGIN, steps), more)
    requires CanRun(Run(Run(BEGIN, steps), more), rest)
    requires var s := Run(BEGIN, steps); t in s.calls && s.calls[t] == LockDone(lease) && lease in s.locks.book.keeps
    requires RevokeDue(Run(Run(BEGIN, steps), more), lease)
    ensures var s := Run(Run(BEGIN, steps), more);
            && Silent(s, lease) && Silent(Run(s, rest), lease)
            && Run(s, rest).alive[lease].calls == s.alive[lease].calls
  {
    hide Inv, Next, Enabled, Given, K.Quiet;
    BeginInv();
    RunKeepsInv(BEGIN, steps);
    ReturnedIsGiven(Run(BEGIN, steps), t, lease);
    RunKeepsGiven(Run(BEGIN, steps), more, lease);
    GivenAndDueIsSilent(Run(Run(BEGIN, steps), more), lease);
    RunKeepsSilent(Run(Run(BEGIN, steps), more), rest, lease);
  }

  ghost predicate SilentOnceRevoked(s: State, lease: int) {
    forall more :: CanRun(s, more) && lease in Run(s, more).revoked ==> Silent(Run(s, more), lease)
  }

  lemma EarlyRevokeIsNotSilent(s: State, t: nat, key: string)
    requires Inv(s) && Enabled(s, Unlock(t, key)) && key in s.locks.book.leases
    requires s.locks.book.leases[key] != 0 && LocalRef(s, s.locks.book.leases[key])
    ensures var s' := Next(s, Unlock(t, key));
            && Enabled(s', Revoke(t)) && s.locks.book.leases[key] in Next(s', Revoke(t)).revoked
            && !Silent(Next(s', Revoke(t)), s.locks.book.leases[key])
  {
    hide L.Inv, OnlyDestructors;
    var lease := s.locks.book.leases[key];
    L.HeldIsFiled(s.locks, key);
    assert Untouched(s, lease) && K.WinnerClears(s.alive[lease]);
    assert s.alive[lease].continueNext;
  }

  /**
   * When unlocking a held lock in any reachable state, cancelling is over before the revoke, in every
   * run, if and only if no lock call still has a reference of its own: an unlock from elsewhere, before
   * `lock` has returned, revokes a lease that is still being refreshed.
   */
  lemma CancelComesFirstExactly(steps: seq<Step>, t: nat, key: string)
    requires CanRun(BEGIN, steps) && Enabled(Run(BEGIN, steps), Unlock(t, key))
    requires var b := Run(BEGIN, steps).locks.book; key in b.leases && b.leases[key] != 0
    ensures var s := Run(BEGIN, steps);
            var lease := s.locks.book.leases[key];
            SilentOnceRevoked(Next(s, Unlock(t, key)), lease) <==> !LocalRef(s, lease)
  {
    hide Inv, Next, Enabled, Silent, LocalRef, BeingErased, Untouched;
    BeginInv();
    RunKeepsInv(BEGIN, steps);
    var s := Run(BEGIN, steps);
    var s', lease := Next(s, Unlock(t, key)), s.locks.book.leases[key];
    if LocalRef(s, lease) {
      EarlyRevokeIsNotSilent(s, t, key);
      RunOne(s', Revoke(t));
    } else {
      FiledIsErased(s, t, key);
      StepKeepsInv(s, Unlock(t, key));
      HeldIsAlive(s, key);
      NoNewRef(s, Unlock(t, key), lease);
      assert Given(s', lease);
      forall more | CanRun(s', more) && lease in Run(s', more).revoked ensures Silent(Run(s', more), lease) {
        RunKeepsGiven(s', more, lease);
        GivenAndDueIsSilent(Run(s', more), lease);
      }
    }
  }

  lemma RunOne(s: State, e: Step)
    requires Enabled(s, e)
    ensures CanRun(s, [e]) && Run(s, [e]) == Next(s, e)
  {
    hide Enabled, Next;
    assert CanRun(Next(s, e), []);
    assert [e][1..] == [];
  }

  lemma {:induction false} RunSnoc(s: State, steps: seq<Step>, e: Step)
    requires CanRun(s, steps) && Enabled(Run(s, steps), e)
    ensures CanRun(s, steps + [e]) && Run(s, steps + [e]) == Next(Run(s, steps), e)
    decreases |steps|
  {
    hide Next, Enabled;
    if steps == [] {
      assert steps + [e] == [e];
      RunOne(s, e);
    } else {
      assert (steps + [e])[0] == steps[0] && (steps + [e])[1..] == steps[1..] + [e];
      RunSnoc(Next(s, steps[0]), steps[1..], e);
    }
  }

  /** A keep-alive whose refresh thread is at work, and the lease still on the way to a refresh. */
  ghost predicate Revoked(s: State, lease: int, at: K.RefreshPc) {
    && lease in s.revoked && lease in s.alive && s.alive[lease].refresher == at && s.alive[lease].continueNext
    && s.alive[lease].calls == 0 && s.alive[lease].holder == (if K.RefresherHolds(at) then Some(K.Refresher) else None)
  }

  lemma Advance(s: State, steps: seq<Step>, lease: int, from: K.RefreshPc, to: K.RefreshPc) returns (longer: seq<Step>)
    requires CanRun(s, steps) && Revoked(Run(s, steps), lease, from)
    requires (from, to) in {(K.Top, K.BeforeWait), (K.BeforeWait, K.Waiting), (K.Waiting, K.WokenUp),
                            (K.WokenUp, K.BeforeOnce), (K.BeforeOnce, K.Loading), (K.Loading, K.Loaded)}
    ensures CanRun(s, longer) && Revoked(Run(s, longer), lease, to)
  {
    var e := KeepAlive(lease, K.Refresh(true));
    RunSnoc(s, steps, e);
    longer := steps + [e];
  }

  /**
   * The case shut out above does happen: another thread unlocks the key before `lock` has returned it, the
   * lease is revoked, and a refresh of it starts afterwards.
   */
  lemma EarlyUnlockIsRefreshed() returns (steps: seq<Step>, more: seq<Step>)
    ensures CanRun(BEGIN, steps) && CanRun(Run(BEGIN, steps), more)
    ensures var s := Run(BEGIN, steps);
            7 in s.revoked && 7 in s.alive && 7 in Run(s, more).alive
            && Run(s, more).alive[7].calls == s.alive[7].calls + 1
  {
    steps := EarlyUnlock();
    var s := Run(BEGIN, steps);
    hide Enabled, Next, CanRun;
    assert CanRun(s, []);
    more := Advance(s, [], 7, K.Top, K.BeforeWait);
    more := Advance(s, more, 7, K.BeforeWait, K.Waiting);
    more := Advance(s, more, 7, K.Waiting, K.WokenUp);
    more := Advance(s, more, 7, K.WokenUp, K.BeforeOnce);
    more := Advance(s, more, 7, K.BeforeOnce, K.Loading);
    more := Advance(s, more, 7, K.Loading, K.Loaded);
    more := Refreshed(s, more, 7);
  }

  lemma Refreshed(s: State, steps: seq<Step>, lease: int) returns (longer: seq<Step>)
    requires CanRun(s, steps) && Revoked(Run(s, steps), lease, K.Loaded)
    ensures CanRun(s, longer) && lease in Run(s, longer).alive && Run(s, longer).alive[lease].calls == 1
  {
    var e := KeepAlive(lease, K.Refresh(true));
    RunSnoc(s, steps, e);
    longer := steps + [e];
  }

  lemma EarlyUnlock() returns (steps: seq<Step>)
    ensures CanRun(BEGIN, steps) && Revoked(Run(BEGIN, steps), 7, K.Top)
  {
    steps := LockGranted();
    RunSnoc(BEGIN, steps, Unlock(1, "k"));
    assert Run(BEGIN, steps + [Unlock(1, "k")]).calls[1] == Revoking(7);
    steps := steps + [Unlock(1, "k")];
    RunSnoc(BEGIN, steps, Revoke(1));
    steps := steps + [Revoke(1)];
  }

  /** The lock call 0 has its key on file, but has not returned. */
  lemma LockGranted() returns (steps: seq<Step>)
    ensures CanRun(BEGIN, steps)
    ensures var s := Run(BEGIN, steps);
            && s.calls == map[0 := Settled(7)] && s.alive == map[7 := K.BEGIN] && s.mutex == None
            && s.locks.book == L.Book(map["k" := 7], map[7 := 0]) && LocalRef(s, 7)
  {
    hide LocalRef;
    RunOne(BEGIN, Create(0, 7));
    RunSnoc(BEGIN, [Create(0, 7)], Register(0));
    steps := [Create(0, 7)] + [Register(0)];
    RunSnoc(BEGIN, steps, Grant(0, "k"));
    steps := steps + [Grant(0, "k")];
    assert Run(BEGIN, steps).locks.book == L.Book(map["k" := 7], map[7 := 0]);
    HeldInCall(Run(BEGIN, steps), 0, 7);
  }

  lemma HeldInCall(s: State, t: nat, lease: int)
    requires t in s.calls && Holds(s.calls[t], lease)
    ensures LocalRef(s, lease)
  {
  }

  // ----- an orderly unlock goes through

  /** Call 0 has returned with its lock; call 1 unlocks it. */
  ghost predicate Unlocking(s: State, k: K.State) {
    && s.calls == map[0 := LockDone(7), 1 := Erasing(7)] && s.alive == map[7 := k] && s.mutex == Some(1)
  }

  lemma Inside(s: State, steps: seq<Step>, k: K.State, step: K.Step) returns (longer: seq<Step>)
    requires CanRun(s, steps) && Unlocking(Run(s, steps), k) && K.Enabled(k, step) && (step.Refresh? || step.Go?)
    ensures CanRun(s, longer) && Unlocking(Run(s, longer), K.Next(k, step))
  {
    hide K.Next, K.Enabled;
    RunSnoc(s, steps, KeepAlive(7, step));
    longer := steps + [KeepAlive(7, step)];
  }

  /** From the entry of the destructor to its end. */
  lemma Cancelling(s: State) returns (steps: seq<Step>)
    requires Unlocking(s, K.Next(K.BEGIN, K.Cancel(1)))
    ensures CanRun(s, steps) && Run(s, steps).calls == s.calls && Run(s, steps).mutex == Some(1)
    ensures 7 in Run(s, steps).alive && 1 in Run(s, steps).alive[7].callers
    ensures Run(s, steps).alive[7].callers[1] == K.Returned(true, false)
  {
    hide Next, Enabled;
    var k0 := K.Next(K.BEGIN, K.Cancel(1));
    var go := K.Go(1, true);
    assert CanRun(s, []);
    steps := Inside(s, [], k0, go);                  // the exchange
    var k1 := K.Next(k0, go);
    steps := Inside(s, steps, k1, go);               // the notification
    var k2 := K.Next(k1, go);
    steps := Inside(s, steps, k2, K.Refresh(true));  // the refresh thread leaves
    var k3 := K.Next(k2, K.Refresh(true));
    steps := Inside(s, steps, k3, go);               // the join
    var k4 := K.Next(k3, go);
    steps := Inside(s, steps, k4, go);               // the mutex
    var k5 := K.Next(k4, go);
    steps := Inside(s, steps, k5, go);               // CancelKeepAlive
  }

  lemma {:induction false} RunConcat(s: State, a: seq<Step>, b: seq<Step>)
    requires CanRun(s, a) && CanRun(Run(s, a), b)
    ensures CanRun(s, a + b) && Run(s, a + b) == Run(Run(s, a), b)
    decreases |a|
  {
    hide Next, Enabled;
    if a == [] {
      assert a + b == b;
    } else {
      assert (a + b)[0] == a[0] && (a + b)[1..] == a[1..] + b;
      RunConcat(Next(s, a[0]), a[1..], b);
    }
  }

  /** The premises of `NoRefreshAfterRevoke` can be met: a lock is taken, returned, unlocked and revoked. */
  lemma UnlockGoesThrough() returns (steps: seq<Step>, more: seq<Step>)
    ensures CanRun(BEGIN, steps) && CanRun(Run(BEGIN, steps), more)
    ensures var s := Run(BEGIN, steps);
            0 in s.calls && s.calls[0] == LockDone(7) && 7 in s.locks.book.keeps && 7 in Run(s, more).revoked
  {
    steps := LockReturned();
    more := UnlockBegun(Run(BEGIN, steps));
    hide LocalRef;
    var u := Run(Run(BEGIN, steps), more);
    var inner := Cancelling(u);
    RunConcat(Run(BEGIN, steps), more, inner);
    more := UnlockEnded(Run(BEGIN, steps), more + inner);
  }

  lemma LockReturned() returns (steps: seq<Step>)
    ensures CanRun(BEGIN, steps)
    ensures var s := Run(BEGIN, steps);
            && s.calls == map[0 := LockDone(7)] && s.alive == map[7 := K.BEGIN] && s.mutex == None
            && s.locks.book == L.Book(map["k" := 7], map[7 := 0])
  {
    hide LocalRef;
    var granted := LockGranted();
    RunSnoc(BEGIN, granted, Return(0));
    steps := granted + [Return(0)];
  }

  lemma UnlockBegun(s: State) returns (steps: seq<Step>)
    requires s.calls == map[0 := LockDone(7)] && s.alive == map[7 := K.BEGIN] && s.mutex == None
    requires s.locks.book == L.Book(map["k" := 7], map[7 := 0])
    ensures CanRun(s, steps) && Unlocking(Run(s, steps), K.Next(K.BEGIN, K.Cancel(1)))
  {
    hide K.Next;
    assert !LocalRef(s, 7);
    hide LocalRef;
    RunOne(s, Unlock(1, "k"));
    steps := [Unlock(1, "k")];
  }

  lemma UnlockEnded(s: State, steps: seq<Step>) returns (longer: seq<Step>)
    requires CanRun(s, steps)
    requires var u := Run(s, steps);
             && 1 in u.calls && u.calls[1] == Erasing(7) && 7 in u.alive && 1 in u.alive[7].callers
             && u.alive[7].callers[1] == K.Returned(true, false)
    ensures CanRun(s, longer) && 7 in Run(s, longer).revoked
  {
    hide L.Next, K.Next;
    RunSnoc(s, steps, Destroyed(1));
    longer := steps + [Destroyed(1)];
    RunSnoc(s, longer, Revoke(1));
    longer := longer + [Revoke(1)];
  }

  /** What the steps ask for besides the order of the code and its mutex always holds. */
  lemma GuardsAreFree(steps: seq<Step>, t: nat, key: string)
    requires CanRun(BEGIN, steps)
    ensures var s := Run(BEGIN, steps);
            && (t in s.calls && s.calls[t].Created? && s.mutex.None? ==> Enabled(s, Register(t)))
            && (t in s.calls && s.calls[t].Registered? && s.mutex.None? ==> Enabled(s, Refuse(t)))
            && (t in s.calls && s.calls[t].Settled? ==> Enabled(s, Return(t)))
            && (t !in s.calls && s.mutex.None? ==> Enabled(s, Unlock(t, key)))
            && (t in s.calls && InDestructor(s, t) && s.alive[s.calls[t].lease].callers[t].Returned? ==>
                  Enabled(s, Destroyed(t)))
            && (t in s.calls && (s.calls[t].Dropping? || s.calls[t].Erasing?) ==> InDestructor(s, t))
  {
    hide Inv, Enabled, Next;
    BeginInv();
    RunKeepsInv(BEGIN, steps);
    InvFreesGuards(Run(BEGIN, steps), t, key);
  }

  ghost predicate InDestructor(s: State, t: nat)
    requires t in s.calls
  {
    && (s.calls[t].Dropping? || s.calls[t].Erasing?)
    && s.calls[t].lease in s.alive && t in s.alive[s.calls[t].lease].callers
  }

  lemma InvFreesGuards(s: State, t: nat, key: string)
    requires Inv(s)
    ensures t in s.calls && s.calls[t].Created? && s.mutex.None? ==> Enabled(s, Register(t))
    ensures t in s.calls && s.calls[t].Registered? && s.mutex.None? ==> Enabled(s, Refuse(t))
    ensures t in s.calls && s.calls[t].Settled? ==> Enabled(s, Return(t))
    ensures t !in s.calls && s.mutex.None? ==> Enabled(s, Unlock(t, key))
    ensures t in s.calls && InDestructor(s, t) && s.alive[s.calls[t].lease].callers[t].Returned? ==> Enabled(s, Destroyed(t))
    ensures t in s.calls && (s.calls[t].Dropping? || s.calls[t].Erasing?) ==> InDestructor(s, t)
  {
    hide L.Inv, K.Inv, L.Next, K.Next, Untouched;
    if t in s.calls && s.calls[t].Registered? {
      assert L.IsWaiting(s.locks, t, s.calls[t].lease);
    }
    if t !in s.calls && key in s.locks.book.leases && s.locks.book.leases[key] in s.alive {
      NobodyNewInside(s, s.locks.book.leases[key], t);
    }
  }

  lemma NobodyNewInside(s: State, lease: int, t: nat)
    requires OnlyDestructors(s) && lease in s.alive && t !in s.calls
    ensures t !in s.alive[lease].callers
  {
  }
}
