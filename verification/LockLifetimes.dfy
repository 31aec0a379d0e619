/**
 * Locks and their keep-alives together: shared references, the destructor that cancels, and the revoke
 * that `unlock` sends (src/SyncClient.cpp:1084-1178 with src/KeepAlive.cpp:143-159).
 */
module LockLifetimes {
  import opened Ranges
  import L = Locks
  import K = KeepAlive

  /** Where a call of `lock` or `unlock` is. */
  datatype Call =
    | Created(lease: int)       // lock: the keep-alive runs; one reference, in this call
    | Registered(lease: int)    // lock: between the critical sections
    | Settled(lease: int)       // lock: behind them, still holding its reference
    | Dropping(lease: int)      // lock: it held the last reference and runs the destructor
    | LockDone(lease: int)      // lock has returned
    | Erasing(lease: int)       // unlock, in its critical section: it erased the last reference
    | Revoking(lease: int)      // unlock, in its critical section: about to revoke
    | UnlockDone

  /** `mutex` is the unlock call inside its critical section; `revoked` the leases whose revoke was sent. */
  datatype State = State(locks: L.State, alive: map<int, K.State>, calls: map<nat, Call>, mutex: Option<nat>,
                         revoked: set<int>)

  const BEGIN := State(L.BEGIN, map[], map[], None, {})

  datatype Step =
    | Create(t: nat, lease: int)
    | Register(t: nat)
    | Grant(t: nat, key: string)
    | Refuse(t: nat)
    | Return(t: nat)
    | Unlock(t: nat, key: string)
    | Destroyed(t: nat)
    | Revoke(t: nat)
    | KeepAlive(lease: int, step: K.Step)   // a step of a refresh thread, or of a destructor

  /** The lock call holds a reference of its own. */
  predicate Holds(c: Call, lease: int) {
    c == Created(lease) || c == Registered(lease) || c == Settled(lease)
  }

  ghost predicate LocalRef(s: State, lease: int) {
    exists t :: t in s.calls && Holds(s.calls[t], lease)
  }

  ghost predicate Enabled(s: State, e: Step) {
    match e
    case Create(t, lease) => t !in s.calls && lease != 0 && lease !in s.alive
    case Register(t) =>
      t in s.calls && s.calls[t].Created? && s.mutex.None? && L.Enabled(s.locks, L.Begin(t, s.calls[t].lease))
    case Grant(t, key) =>
      t in s.calls && s.calls[t].Registered? && s.mutex.None? && L.Enabled(s.locks, L.Succeed(t, key))
    case Refuse(t) => t in s.calls && s.calls[t].Registered? && s.mutex.None? && L.Enabled(s.locks, L.Fail(t))
    case Return(t) =>
      t in s.calls && s.calls[t].Settled? && s.calls[t].lease in s.alive
      && t !in s.alive[s.calls[t].lease].callers
    case Unlock(t, key) =>
      t !in s.calls && s.mutex.None?
      && (key in s.locks.book.leases && s.locks.book.leases[key] in s.alive ==>
            t !in s.alive[s.locks.book.leases[key]].callers)
    case Destroyed(t) =>
      t in s.calls && (s.calls[t].Dropping? || s.calls[t].Erasing?) && s.calls[t].lease in s.alive
      && t in s.alive[s.calls[t].lease].callers && s.alive[s.calls[t].lease].callers[t].Returned?
    case Revoke(t) => t in s.calls && s.calls[t].Revoking?
    case KeepAlive(lease, step) =>
      lease in s.alive && (step.Refresh? || step.Go?) && K.Enabled(s.alive[lease], step)
  }

  ghost function Next(s: State, e: Step): State
    requires Enabled(s, e)
  {
    match e
    case Create(t, lease) => s.(alive := s.alive[lease := K.BEGIN], calls := s.calls[t := Created(lease)])
    case Register(t) =>
      s.(locks := L.Next(s.locks, L.Begin(t, s.calls[t].lease)), calls := s.calls[t := Registered(s.calls[t].lease)])
    case Grant(t, key) =>
      s.(locks := L.Next(s.locks, L.Succeed(t, key)), calls := s.calls[t := Settled(s.calls[t].lease)])
    case Refuse(t) => s.(locks := L.Next(s.locks, L.Fail(t)), calls := s.calls[t := Settled(s.calls[t].lease)])
    case Return(t) =>
      var lease := s.calls[t].lease;
      if lease in s.locks.book.keeps then s.(calls := s.calls[t := LockDone(lease)])
      else Destroy(s, t, lease, Dropping(lease))
    case Unlock(t, key) => UnlockStep(s, t, key)
    case Destroyed(t) =>
      var lease := s.calls[t].lease;
      s.(calls := s.calls[t := if s.calls[t].Dropping? then LockDone(lease) else Revoking(lease)])
    case Revoke(t) =>
      s.(revoked := s.revoked + {s.calls[t].lease}, calls := s.calls[t := UnlockDone], mutex := None)
    case KeepAlive(lease, step) => s.(alive := s.alive[lease := K.Next(s.alive[lease], step)])
  }

  /** Dropping the last reference runs the destructor, which calls `Cancel`. */
  ghost function Destroy(s: State, t: nat, lease: int, c: Call): State
    requires lease in s.alive && t !in s.alive[lease].callers
  {
    s.(alive := s.alive[lease := K.Next(s.alive[lease], K.Cancel(t))], calls := s.calls[t := c])
  }

  ghost function UnlockStep(s: State, t: nat, key: string): State
    requires Enabled(s, Unlock(t, key))
  {
    var locks' := L.Next(s.locks, L.Unlock(key));
    if key !in s.locks.book.leases || s.locks.book.leases[key] == 0 then
      s.(locks := locks', calls := s.calls[t := UnlockDone])
    else
      var lease := s.locks.book.leases[key];
      var inside := s.(locks := locks', mutex := Some(t));
      if lease in s.locks.book.keeps && lease in s.alive && !LocalRef(s, lease) then
        Destroy(inside, t, lease, Erasing(lease))
      else inside.(calls := s.calls[t := Revoking(lease)])
  }

  ghost predicate CanRun(s: State, steps: seq<Step>)
    decreases |steps|
  {
    steps == [] || (Enabled(s, steps[0]) && CanRun(Next(s, steps[0]), steps[1..]))
  }

  ghost function Run(s: State, steps: seq<Step>): State
    requires CanRun(s, steps)
    decreases |steps|
  {
    if steps == [] then s else Run(Next(s, steps[0]), steps[1..])
  }

  // ----- the life of one lease

  /** Nobody has begun to destroy the keep-alive or to revoke the lease. */
  ghost predicate Untouched(s: State, lease: int) {
    && lease in s.alive && s.alive[lease].callers == map[]
    && lease !in s.revoked
    && (forall t :: t in s.calls ==> s.calls[t] != Erasing(lease) && s.calls[t] != Dropping(lease)
                                     && s.calls[t] != Revoking(lease))
  }

  /** An unlock call is in the destructor; nothing has been revoked yet. */
  ghost predicate BeingErased(s: State, lease: int, t: nat) {
    && lease in s.alive && t in s.calls && s.calls[t] == Erasing(lease)
    && s.alive[lease].callers.Keys == {t} && InCancel(s.alive[lease].callers[t])
    && lease !in s.revoked && lease !in s.locks.book.keeps && lease !in s.locks.book.leases.Values
    && (forall u :: u in s.calls && u != t ==> s.calls[u] != Erasing(lease) && s.calls[u] != Dropping(lease))
    && (forall u :: u in s.calls ==> s.calls[u] != Revoking(lease))
  }

  /** A thread in `Cancel`, called by nobody else: it wins. */
  predicate InCancel(pc: K.CallerPc) {
    pc == K.Exchange(false) || K.Winner(pc)
  }

  /** The keep-alive is cancelled for good. */
  ghost predicate Silent(s: State, lease: int) {
    lease in s.alive && K.Quiet(s.alive[lease])
  }

  /** The lock of this lease has been returned to its caller: no lock call has a reference any more. */
  ghost predicate Given(s: State, lease: int) {
    && lease != 0 && !LocalRef(s, lease) && lease in s.alive
    && (|| (Untouched(s, lease) && lease in s.locks.book.keeps)
        || (exists t :: BeingErased(s, lease, t))
        || Silent(s, lease))
  }

  // ----- what holds in every reachable state

  predicate IsLockCall(c: Call, lease: int) {
    Holds(c, lease) || c == Dropping(lease) || c == LockDone(lease)
  }

  /** A lease has one lock call, and a keep-alive of its own. */
  ghost predicate OneCallEach(s: State) {
    && (forall t, u, l :: t in s.calls && u in s.calls && IsLockCall(s.calls[t], l) && IsLockCall(s.calls[u], l) ==>
          t == u)
    && (forall t :: t in s.calls && !s.calls[t].UnlockDone? ==> s.calls[t].lease in s.alive && s.calls[t].lease != 0)
    && (forall l :: l in s.alive ==> K.Inv(s.alive[l]))
    && (forall l :: l in s.revoked ==> l in s.alive)
  }

  /** The books agree with the calls, and a keep-alive on file is untouched. */
  ghost predicate BooksAgree(s: State) {
    && L.Inv(s.locks)
    && (forall t, l :: L.IsWaiting(s.locks, t, l) <==> t in s.calls && s.calls[t] == Registered(l))
    && (forall t, l :: t in s.calls && s.calls[t] == Created(l) ==>
          l !in s.locks.usedLeases && t !in s.locks.usedCalls && Untouched(s, l))
    && (forall l :: l in s.locks.book.keeps ==> Untouched(s, l))
    && (forall t :: t in s.locks.usedCalls ==> t in s.calls)
    && (forall l :: l in s.locks.usedLeases ==> l in s.alive)
  }

  predicate HoldsAny(c: Call) {
    c.Created? || c.Registered? || c.Settled?
  }

  /** Inside a keep-alive are the calls that run its destructor, and none that still holds a reference. */
  ghost predicate OnlyDestructors(s: State) {
    && (forall l, t :: l in s.alive && t in s.alive[l].callers ==> t in s.calls && !HoldsAny(s.calls[t]))
    && (forall t :: t in s.calls && (s.calls[t].Dropping? || s.calls[t].Erasing?) ==>
          s.calls[t].lease in s.alive && t in s.alive[s.calls[t].lease].callers)
  }

  lemma OnlyCallOf(s: State, t: nat, lease: int)
    requires OneCallEach(s) && t in s.calls && Holds(s.calls[t], lease)
    ensures forall u :: u in s.calls && IsLockCall(s.calls[u], lease) ==> u == t
    ensures forall u :: u in s.calls && s.calls[u] == Created(lease) ==> u == t
  {
    assert IsLockCall(s.calls[t], lease);
    forall u | u in s.calls && s.calls[u] == Created(lease) ensures u == t {
      assert IsLockCall(s.calls[u], lease);
    }
  }

  ghost predicate Inv(s: State) {
    OneCallEach(s) && BooksAgree(s) && OnlyDestructors(s)
  }

  /** Call t has moved on; besides, only what concerns one lease, if any, may have changed. */
  ghost predicate Moved(s: State, s': State, t: nat, only: Option<int>) {
    && t in s'.calls && s'.calls == s.calls[t := s'.calls[t]]
    && (forall l :: Some(l) != only && l in s.alive ==> l in s'.alive && s'.alive[l] == s.alive[l])
    && (forall l :: Some(l) != only && l in s'.revoked ==> l in s.revoked)
    && (forall l :: Some(l) != only ==>
          s'.calls[t] != Erasing(l) && s'.calls[t] != Dropping(l) && s'.calls[t] != Revoking(l))
  }

  lemma StayUntouched(s: State, s': State, t: nat, only: Option<int>)
    requires Moved(s, s', t, only)
    ensures forall l :: Some(l) != only && Untouched(s, l) ==> Untouched(s', l)
  {
  }

  lemma OneCallKept(s: State, s': State, t: nat)
    requires OneCallEach(s) && t in s'.calls && s'.calls == s.calls[t := s'.calls[t]] && s.alive.Keys <= s'.alive.Keys
    requires forall l :: IsLockCall(s'.calls[t], l) ==> (t in s.calls && IsLockCall(s.calls[t], l)) || l !in s.alive
    requires !s'.calls[t].UnlockDone? ==> s'.calls[t].lease in s'.alive && s'.calls[t].lease != 0
    requires forall l :: l in s'.revoked ==> l in s'.alive
    requires forall l :: l in s'.alive ==> K.Inv(s'.alive[l])
    ensures OneCallEach(s')
  {
    hide K.Inv;
  }

  lemma BooksKept(s: State, s': State, t: nat, only: Option<int>)
    requires BooksAgree(s) && L.Inv(s'.locks) && Moved(s, s', t, only) && !s'.calls[t].Created?
    requires forall u, l :: L.IsWaiting(s'.locks, u, l) <==>
               if u == t then s'.calls[t] == Registered(l) else L.IsWaiting(s.locks, u, l)
    requires forall u, l :: u != t && u in s.calls && s.calls[u] == Created(l) ==>
               Some(l) != only && l !in s'.locks.usedLeases
    requires forall l :: l in s'.locks.book.keeps ==>
               Some(l) != only && (l in s.locks.book.keeps || (t in s.calls && s.calls[t] == Created(l)))
    requires s'.locks.usedCalls <= s.locks.usedCalls + {t} && s.alive.Keys <= s'.alive.Keys
    requires forall l :: l in s'.locks.usedLeases ==> l in s'.alive
    ensures BooksAgree(s')
  {
    hide L.Inv, L.IsWaiting;
    StayUntouched(s, s', t, only);
    hide Untouched;
  }

  lemma CreatedBooks(s: State, s': State, t: nat, lease: int)
    requires BooksAgree(s) && t !in s.calls && lease !in s.alive
    requires s' == s.(alive := s.alive[lease := K.BEGIN], calls := s.calls[t := Created(lease)])
    requires lease !in s.revoked
    requires forall u :: u in s.calls ==>
               s.calls[u] != Erasing(lease) && s.calls[u] != Dropping(lease) && s.calls[u] != Revoking(lease)
    ensures BooksAgree(s')
  {
    hide L.Inv, L.IsWaiting;
    assert Untouched(s', lease);
    StayUntouched(s, s', t, Some(lease));
    hide Untouched;
  }

  lemma CreateKeeps(s: State, t: nat, lease: int)
    requires Inv(s) && Enabled(s, Create(t, lease))
    ensures Inv(Next(s, Create(t, lease)))
  {
    hide K.Inv, BooksAgree;
    K.BeginInv();
    var s' := Next(s, Create(t, lease));
    CreatedBooks(s, s', t, lease);
    assert OneCallEach(s') by {
      hide OnlyDestructors;
      OneCallKept(s, s', t);
    }
    hide OneCallEach;
  }

  lemma RegisteredBooks(s: State, s': State, t: nat, lease: int)
    requires BooksAgree(s) && t in s.calls && s.calls[t] == Created(lease) && L.Enabled(s.locks, L.Begin(t, lease))
    requires s' == s.(locks := L.Next(s.locks, L.Begin(t, lease)), calls := s.calls[t := Registered(lease)])
    requires forall u :: u in s.calls && s.calls[u] == Created(lease) ==> u == t
    requires lease in s.alive
    ensures BooksAgree(s')
  {
    hide L.Inv, L.IsWaiting, Untouched, L.Next, L.Enabled;
    L.StepKeepsInv(s.locks, L.Begin(t, lease));
    BeginFacts(s.locks, t, lease);
    assert Moved(s, s', t, None) by {
      hide BooksAgree;
    }
    hide Moved;
    BooksKept(s, s', t, None);
  }

  lemma RegisterKeeps(s: State, t: nat)
    requires Inv(s) && Enabled(s, Register(t))
    ensures Inv(Next(s, Register(t)))
  {
    hide K.Inv, LocalRef, L.Next, BooksAgree;
    var s', lease := Next(s, Register(t)), s.calls[t].lease;
    OnlyCallOf(s, t, lease);
    RegisteredBooks(s, s', t, lease);
    assert OneCallEach(s') by {
      hide OnlyDestructors;
      OneCallKept(s, s', t);
    }
    hide OneCallEach;
  }

  lemma BeginFacts(s: L.State, t: nat, lease: int)
    requires L.Enabled(s, L.Begin(t, lease))
    ensures var s' := L.Next(s, L.Begin(t, lease));
            && (forall u, l :: L.IsWaiting(s', u, l) <==> if u == t then l == lease else L.IsWaiting(s, u, l))
            && s'.book.keeps.Keys == s.book.keeps.Keys + {lease} && s'.book.leases == s.book.leases
            && s'.usedLeases == s.usedLeases + {lease} && s'.usedCalls == s.usedCalls + {t}
  {
  }

  lemma SucceedFacts(s: L.State, t: nat, key: string)
    requires L.Enabled(s, L.Succeed(t, key))
    ensures var s' := L.Next(s, L.Succeed(t, key));
            && (forall u, l :: L.IsWaiting(s', u, l) <==> u != t && L.IsWaiting(s, u, l))
            && s'.book.keeps == s.book.keeps
            && s'.usedLeases == s.usedLeases && s'.usedCalls == s.usedCalls
  {
  }

  lemma FailFacts(s: L.State, t: nat)
    requires L.Enabled(s, L.Fail(t))
    ensures var s' := L.Next(s, L.Fail(t));
            && (forall u, l :: L.IsWaiting(s', u, l) <==> u != t && L.IsWaiting(s, u, l))
            && s'.book.keeps.Keys == s.book.keeps.Keys - {s.waiting[t]}
            && s'.usedLeases == s.usedLeases && s'.usedCalls == s.usedCalls
  {
  }

  lemma ReleaseFacts(s: L.State, key: string)
    ensures var s' := L.Next(s, L.Unlock(key));
            && (forall u, l :: L.IsWaiting(s', u, l) <==> L.IsWaiting(s, u, l))
            && s'.book.keeps.Keys == s.book.keeps.Keys - (if key in s.book.leases then {s.book.leases[key]} else {})
            && s'.book.leases.Values <= s.book.leases.Values
            && s'.usedLeases == s.usedLeases && s'.usedCalls == s.usedCalls
  {
  }

  /** A call has moved on and no keep-alive is concerned. */
  lemma CallsMoved(s: State, s': State, t: nat)
    requires OneCallEach(s) && OnlyDestructors(s) && t in s'.calls && s'.calls == s.calls[t := s'.calls[t]]
    requires s'.alive == s.alive && s'.revoked == s.revoked
    requires if t in s.calls then HoldsAny(s.calls[t]) && !s'.calls[t].UnlockDone? && s'.calls[t].lease == s.calls[t].lease
                                  && IsLockCall(s'.calls[t], s'.calls[t].lease) && !s'.calls[t].Dropping?
             else s'.calls[t].UnlockDone?
    ensures OneCallEach(s') && OnlyDestructors(s')
  {
    hide K.Inv;
    assert OneCallEach(s') by {
      hide OnlyDestructors;
      OneCallKept(s, s', t);
    }
    hide OneCallEach, IsLockCall;
  }

  lemma GrantedBooks(s: State, s': State, t: nat, lease: int, key: string)
    requires BooksAgree(s) && t in s.calls && s.calls[t] == Registered(lease) && L.Enabled(s.locks, L.Succeed(t, key))
    requires s' == s.(locks := L.Next(s.locks, L.Succeed(t, key)), calls := s.calls[t := Settled(lease)])
    ensures BooksAgree(s')
  {
    hide L.IsWaiting, L.Inv, Untouched, L.Next, L.Enabled;
    L.StepKeepsInv(s.locks, L.Succeed(t, key));
    SucceedFacts(s.locks, t, key);
    BooksKept(s, s', t, None);
  }

  lemma GrantKeeps(s: State, t: nat, key: string)
    requires Inv(s) && Enabled(s, Grant(t, key))
    ensures Inv(Next(s, Grant(t, key)))
  {
    hide K.Inv, L.Next, BooksAgree, OneCallEach, OnlyDestructors;
    var s' := Next(s, Grant(t, key));
    GrantedBooks(s, s', t, s.calls[t].lease, key);
    CallsMoved(s, s', t);
  }

  lemma RefusedBooks(s: State, s': State, t: nat, lease: int)
    requires BooksAgree(s) && t in s.calls && s.calls[t] == Registered(lease) && L.Enabled(s.locks, L.Fail(t))
    requires s' == s.(locks := L.Next(s.locks, L.Fail(t)), calls := s.calls[t := Settled(lease)])
    ensures BooksAgree(s')
  {
    hide L.Inv, Untouched, L.Next;
    L.StepKeepsInv(s.locks, L.Fail(t));
    FailFacts(s.locks, t);
    hide L.IsWaiting, L.Enabled;
    BooksKept(s, s', t, None);
  }

  lemma RefuseKeeps(s: State, t: nat)
    requires Inv(s) && Enabled(s, Refuse(t))
    ensures Inv(Next(s, Refuse(t)))
  {
    hide K.Inv, L.Next, BooksAgree, OneCallEach, OnlyDestructors;
    var s' := Next(s, Refuse(t));
    RefusedBooks(s, s', t, s.calls[t].lease);
    CallsMoved(s, s', t);
  }

  lemma ReturnedBooks(s: State, s': State, t: nat, lease: int)
    requires BooksAgree(s) && t in s.calls && s.calls[t] == Settled(lease)
    requires s' == s.(calls := s.calls[t := LockDone(lease)])
    ensures BooksAgree(s')
  {
    hide L.IsWaiting, L.Inv, Untouched;
    BooksKept(s, s', t, None);
  }

  /** The file keeps the other reference. */
  lemma ReturnFiledKeeps(s: State, t: nat)
    requires Inv(s) && Enabled(s, Return(t)) && s.calls[t].lease in s.locks.book.keeps
    ensures Inv(Next(s, Return(t)))
  {
    hide K.Inv, K.Next, BooksAgree, OneCallEach, OnlyDestructors;
    var s' := Next(s, Return(t));
    ReturnedBooks(s, s', t, s.calls[t].lease);
    CallsMoved(s, s', t);
  }

  lemma DroppingBooks(s: State, s': State, t: nat, lease: int)
    requires BooksAgree(s) && t in s.calls && s.calls[t] == Settled(lease) && lease !in s.locks.book.keeps
    requires forall u :: u in s.calls ==> s.calls[u] != Created(lease)
    requires s'.calls == s.calls[t := Dropping(lease)] && s'.locks == s.locks && s'.revoked == s.revoked
    requires lease in s'.alive && s'.alive == s.alive[lease := s'.alive[lease]]
    ensures BooksAgree(s')
  {
    hide L.IsWaiting, L.Inv, Untouched;
    BooksKept(s, s', t, Some(lease));
  }

  /** The lock call drops the last reference. */
  lemma ReturnDroppingKeeps(s: State, t: nat)
    requires Inv(s) && Enabled(s, Return(t)) && s.calls[t].lease !in s.locks.book.keeps
    ensures Inv(Next(s, Return(t)))
  {
    hide K.Inv, K.Next, BooksAgree;
    var s', lease := Next(s, Return(t)), s.calls[t].lease;
    OnlyCallOf(s, t, lease);
    K.StepKeepsInv(s.alive[lease], K.Cancel(t));
    CancelFacts(s.alive[lease], t);
    DroppingBooks(s, s', t, lease);
    assert OneCallEach(s') by {
      hide OnlyDestructors;
      OneCallKept(s, s', t);
    }
    hide OneCallEach;
  }

  lemma CancelFacts(k: K.State, t: nat)
    requires K.Enabled(k, K.Cancel(t))
    ensures K.Next(k, K.Cancel(t)).callers == k.callers[t := K.Exchange(false)]
  {
  }

  lemma UnlockedBooks(s: State, s': State, t: nat, key: string)
    requires BooksAgree(s) && t !in s.calls
    requires s' == s.(locks := L.Next(s.locks, L.Unlock(key)), calls := s.calls[t := UnlockDone])
    ensures BooksAgree(s')
  {
    hide L.IsWaiting, L.Inv, Untouched, L.Next;
    L.StepKeepsInv(s.locks, L.Unlock(key));
    ReleaseFacts(s.locks, key);
    BooksKept(s, s', t, None);
  }

  lemma UnlockFreeKeeps(s: State, t: nat, key: string)
    requires Inv(s) && Enabled(s, Unlock(t, key))
    requires key !in s.locks.book.leases || s.locks.book.leases[key] == 0
    ensures Inv(Next(s, Unlock(t, key)))
  {
    hide K.Inv, K.Next, L.Next, LocalRef, BooksAgree, OneCallEach, OnlyDestructors;
    var s' := Next(s, Unlock(t, key));
    UnlockedBooks(s, s', t, key);
    CallsMoved(s, s', t);
  }

  /** The books after a lock has been released, whether or not the keep-alive went with its entry. */
  lemma ReleasedBooks(s: State, s': State, t: nat, key: string)
    requires BooksAgree(s) && t !in s.calls && key in s.locks.book.leases && s.locks.book.leases[key] != 0
    requires var lease := s.locks.book.leases[key];
             && s'.locks == L.Next(s.locks, L.Unlock(key)) && s'.revoked == s.revoked
             && (s'.calls == s.calls[t := Erasing(lease)] || s'.calls == s.calls[t := Revoking(lease)])
             && lease in s'.alive && s'.alive == s.alive[lease := s'.alive[lease]]
    ensures BooksAgree(s')
  {
    hide L.IsWaiting, L.Inv, L.Next, Untouched;
    L.StepKeepsInv(s.locks, L.Unlock(key));
    ReleaseFacts(s.locks, key);
    L.HeldIsFiled(s.locks, key);
    assert Moved(s, s', t, Some(s.locks.book.leases[key])) by {
      hide BooksAgree;
    }
    hide Moved;
    BooksKept(s, s', t, Some(s.locks.book.leases[key]));
  }

  lemma ReleasedCalls(s: State, s': State, t: nat, lease: int)
    requires OneCallEach(s) && OnlyDestructors(s) && t !in s.calls && lease != 0
    requires s'.revoked == s.revoked && lease in s'.alive && K.Inv(s'.alive[lease])
    requires s'.calls == s.calls[t := Erasing(lease)] || s'.calls == s.calls[t := Revoking(lease)]
    requires s'.alive == s.alive[lease := s'.alive[lease]] && lease in s.alive
    requires s.alive[lease].callers.Keys <= s'.alive[lease].callers.Keys <= s.alive[lease].callers.Keys + {t}
    requires s'.calls[t].Erasing? ==> t in s'.alive[lease].callers
    ensures OneCallEach(s') && OnlyDestructors(s')
  {
    hide K.Inv;
    assert OneCallEach(s') by {
      hide OnlyDestructors;
      OneCallKept(s, s', t);
    }
    hide OneCallEach;
    DestructorJoins(s, s', t, lease);
    hide OnlyDestructors;
  }

  lemma DestructorJoins(s: State, s': State, t: nat, lease: int)
    requires OnlyDestructors(s) && t !in s.calls && lease in s.alive && lease in s'.alive
    requires s'.calls == s.calls[t := Erasing(lease)] || s'.calls == s.calls[t := Revoking(lease)]
    requires forall l :: l in s'.alive ==> l in s.alive && (l != lease ==> s'.alive[l] == s.alive[l])
    requires forall l :: l in s.alive ==> l in s'.alive
    requires forall u :: u in s'.alive[lease].callers ==> u in s.alive[lease].callers || u == t
    requires forall u :: u in s.alive[lease].callers ==> u in s'.alive[lease].callers
    requires s'.calls[t].Erasing? ==> t in s'.alive[lease].callers
    ensures OnlyDestructors(s')
  {
  }

  lemma HeldIsAlive(s: State, key: string)
    requires Inv(s) && key in s.locks.book.leases && s.locks.book.leases[key] != 0
    ensures s.locks.book.leases[key] in s.alive && s.locks.book.leases[key] in s.locks.book.keeps
    ensures K.Inv(s.alive[s.locks.book.leases[key]])
  {
    hide L.Inv, K.Inv, Untouched;
    L.HeldIsFiled(s.locks, key);
  }

  /** The unlock call erases the last reference: the destructor begins. */
  lemma UnlockErasingKeeps(s: State, t: nat, key: string)
    requires Inv(s) && Enabled(s, Unlock(t, key))
    requires key in s.locks.book.leases && s.locks.book.leases[key] != 0 && !LocalRef(s, s.locks.book.leases[key])
    ensures Inv(Next(s, Unlock(t, key)))
  {
    hide K.Next, OneCallEach, BooksAgree, OnlyDestructors, L.Next, LocalRef;
    var s', lease := Next(s, Unlock(t, key)), s.locks.book.leases[key];
    HeldIsAlive(s, key);
    K.StepKeepsInv(s.alive[lease], K.Cancel(t));
    CancelFacts(s.alive[lease], t);
    ReleasedCalls(s, s', t, lease);
    ReleasedBooks(s, s', t, key);
  }

  /** The lock call still has a reference: only the entry goes. */
  lemma UnlockEarlyKeeps(s: State, t: nat, key: string)
    requires Inv(s) && Enabled(s, Unlock(t, key))
    requires key in s.locks.book.leases && s.locks.book.leases[key] != 0 && LocalRef(s, s.locks.book.leases[key])
    ensures Inv(Next(s, Unlock(t, key)))
  {
    hide K.Next, OneCallEach, BooksAgree, OnlyDestructors, L.Next, LocalRef;
    var s', lease := Next(s, Unlock(t, key)), s.locks.book.leases[key];
    HeldIsAlive(s, key);
    ReleasedCalls(s, s', t, lease);
    ReleasedBooks(s, s', t, key);
  }

  lemma TouchedOnce(s: State, t: nat, lease: int)
    requires t in s.calls && s.calls[t] in {Erasing(lease), Dropping(lease), Revoking(lease)}
    ensures !Untouched(s, lease)
  {
  }

  /** A call moves on behind the destructor or behind the revoke: the books do not change. */
  lemma EndingBooks(s: State, s': State, t: nat, lease: int)
    requires BooksAgree(s) && t in s.calls && s.calls[t] in {Erasing(lease), Dropping(lease), Revoking(lease)}
    requires t in s'.calls && s'.calls[t] in {LockDone(lease), Revoking(lease), UnlockDone}
    requires s'.calls == s.calls[t := s'.calls[t]] && s'.alive == s.alive && s'.locks == s.locks
    requires s'.revoked <= s.revoked + {lease}
    ensures BooksAgree(s')
  {
    hide L.IsWaiting, L.Inv, Untouched;
    TouchedOnce(s, t, lease);
    BooksKept(s, s', t, Some(lease));
  }

  lemma DestroyedKeeps(s: State, t: nat)
    requires Inv(s) && Enabled(s, Destroyed(t))
    ensures Inv(Next(s, Destroyed(t)))
  {
    hide K.Inv, BooksAgree;
    var s', lease := Next(s, Destroyed(t)), s.calls[t].lease;
    EndingBooks(s, s', t, lease);
    assert OneCallEach(s') by {
      hide OnlyDestructors;
      OneCallKept(s, s', t);
    }
    hide OneCallEach;
  }

  lemma RevokeKeeps(s: State, t: nat)
    requires Inv(s) && Enabled(s, Revoke(t))
    ensures Inv(Next(s, Revoke(t)))
  {
    hide K.Inv, BooksAgree;
    var s', lease := Next(s, Revoke(t)), s.calls[t].lease;
    EndingBooks(s, s', t, lease);
    assert OneCallEach(s') by {
      hide OnlyDestructors;
      OneCallKept(s, s', t);
    }
    hide OneCallEach;
  }

  /** A step of a refresh thread or of a destructor: nobody comes or goes. */
  lemma InsideFacts(k: K.State, step: K.Step)
    requires K.Enabled(k, step) && (step.Refresh? || step.Go?)
    ensures K.Next(k, step).callers.Keys == k.callers.Keys
  {
  }

  lemma InsideStaysUntouched(s: State, lease: int, k: K.State)
    requires lease in s.alive && k.callers.Keys == s.alive[lease].callers.Keys
    ensures forall l :: Untouched(s, l) ==> Untouched(s.(alive := s.alive[lease := k]), l)
  {
    assert k.callers == map[] <==> k.callers.Keys == {};
    assert s.alive[lease].callers == map[] <==> s.alive[lease].callers.Keys == {};
  }

  lemma InsideKeepsBooks(s: State, lease: int, k: K.State)
    requires BooksAgree(s) && lease in s.alive && k.callers.Keys == s.alive[lease].callers.Keys
    ensures BooksAgree(s.(alive := s.alive[lease := k]))
  {
    InsideStaysUntouched(s, lease, k);
    hide Untouched, L.Inv, L.IsWaiting;
  }

  lemma KeepAliveKeeps(s: State, lease: int, step: K.Step)
    requires Inv(s) && Enabled(s, KeepAlive(lease, step))
    ensures Inv(Next(s, KeepAlive(lease, step)))
  {
    hide K.Inv, K.Next, K.Enabled, BooksAgree;
    var k := K.Next(s.alive[lease], step);
    InsideFacts(s.alive[lease], step);
    InsideKeepsBooks(s, lease, k);
    K.StepKeepsInv(s.alive[lease], step);
  }

  lemma StepKeepsInv(s: State, e: Step)
    requires Inv(s) && Enabled(s, e)
    ensures Inv(Next(s, e))
  {
    hide Inv, Next;
    match e {
      case Create(t, lease) => CreateKeeps(s, t, lease);
      case Register(t) => RegisterKeeps(s, t);
      case Grant(t, key) => GrantKeeps(s, t, key);
      case Refuse(t) => RefuseKeeps(s, t);
      case Return(t) =>
        if s.calls[t].lease in s.locks.book.keeps {
          ReturnFiledKeeps(s, t);
        } else {
          ReturnDroppingKeeps(s, t);
        }
      case Unlock(t, key) =>
        if key in s.locks.book.leases && s.locks.book.leases[key] != 0 {
          if LocalRef(s, s.locks.book.leases[key]) {
            UnlockEarlyKeeps(s, t, key);
          } else {
            UnlockErasingKeeps(s, t, key);
          }
        } else {
          UnlockFreeKeeps(s, t, key);
        }
      case Destroyed(t) => DestroyedKeeps(s, t);
      case Revoke(t) => RevokeKeeps(s, t);
      case KeepAlive(lease, step) => KeepAliveKeeps(s, lease, step);
    }
  }

  lemma {:induction false} RunKeepsInv(s: State, steps: seq<Step>)
    requires Inv(s) && CanRun(s, steps)
    ensures Inv(Run(s, steps))
    decreases |steps|
  {
    hide Inv, Next, Enabled;
    if steps != [] {
      StepKeepsInv(s, steps[0]);
      RunKeepsInv(Next(s, steps[0]), steps[1..]);
    }
  }

  lemma BeginInv()
    ensures Inv(BEGIN)
  {
  }
}
