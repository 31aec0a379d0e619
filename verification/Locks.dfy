/**
 * The bookkeeping of locks (src/SyncClient.cpp:1084-1178): two maps, changed in separate critical sections
 * of one mutex, with the lock call to the server in between.
 */
module Locks {
  import opened Ranges
  import Threads

  /** `leases_for_locks` and `keep_alive_for_locks`; a keep-alive is known by the lock call that made it. */
  datatype Book = Book(leases: map<string, int>, keeps: map<int, nat>)

  /** The first critical section of `lock_internal`. */
  function Registered(b: Book, lease: int, keepAlive: nat): Book {
    b.(keeps := b.keeps[lease := keepAlive])
  }

  /** The second one: the server granted the lock under `key`, or refused it. */
  function Settled(b: Book, lease: int, key: Option<string>): Book {
    match key
    case Some(k) => b.(leases := b.leases[k := lease])
    case None => b.(keeps := b.keeps - {lease})
  }

  /** The critical section of `unlock_internal`. */
  function Released(b: Book, key: string): Book {
    if key in b.leases then Book(b.leases - {key}, b.keeps - {b.leases[key]}) else b
  }

  /** The lease it revokes: that of the lock, unless there is none or it is 0. */
  function ToRevoke(b: Book, key: string): Option<int> {
    if key in b.leases && b.leases[key] != 0 then Some(b.leases[key]) else None
  }

  class SyncClientLocks {
    var leasesForLocks: map<string, int>
    var keepAliveForLocks: map<int, nat>

    function View(): Book
      reads this
    {
      Book(leasesForLocks, keepAliveForLocks)
    }

    constructor ()
      ensures View() == Book(map[], map[])
    {
      leasesForLocks, keepAliveForLocks := map[], map[];
    }

    method Register(lease: int, keepAlive: nat)
      modifies this
      ensures View() == Registered(old(View()), lease, keepAlive)
    {
      keepAliveForLocks := keepAliveForLocks[lease := keepAlive];
    }

    method Settle(ok: bool, lockKey: string, lease: int)
      modifies this
      ensures View() == Settled(old(View()), lease, if ok then Some(lockKey) else None)
    {
      if ok {
        leasesForLocks := leasesForLocks[lockKey := lease];
      } else {
        keepAliveForLocks := keepAliveForLocks - {lease};
      }
    }

    /** Returns the lease to revoke, 0 for none, and the keep-alive that lost its entry. */
    method Release(lockKey: string) returns (lockLeaseId: int, erased: Option<nat>)
      modifies this
      ensures View() == Released(old(View()), lockKey)
      ensures (if lockLeaseId != 0 then Some(lockLeaseId) else None) == ToRevoke(old(View()), lockKey)
      ensures erased == if lockKey in old(leasesForLocks) && old(leasesForLocks[lockKey]) in old(keepAliveForLocks)
                        then Some(old(keepAliveForLocks[leasesForLocks[lockKey]])) else None
    {
      lockLeaseId, erased := 0, None;
      if lockKey in leasesForLocks {
        var lease := leasesForLocks[lockKey];
        if lease in keepAliveForLocks {
          erased := Some(keepAliveForLocks[lease]);
          keepAliveForLocks := keepAliveForLocks - {lease};
        }
        lockLeaseId := lease;
        leasesForLocks := leasesForLocks - {lockKey};
      }
      assert View() == Released(old(View()), lockKey);
    }
  }

  // ----- any interleaving of lock and unlock calls

  /**
   * `waiting` holds the lock calls between their critical sections. `owner` is the key a lease was locked
   * under, `grantee` the call a key was granted to, `revoked` the revocations so far, with the key that was
   * unlocked. `used` leases, keys and calls are those ever seen.
   */
  datatype State = State(book: Book, waiting: map<nat, int>, owner: map<int, string>, grantee: map<string, nat>,
                         revoked: seq<(string, int)>, usedLeases: set<int>, usedKeys: set<string>, usedCalls: set<nat>)

  const BEGIN := State(Book(map[], map[]), map[], map[], map[], [], {}, {}, {})

  datatype Step =
    | Begin(t: nat, lease: int)
    | Succeed(t: nat, key: string)
    | Fail(t: nat)
    | Unlock(key: string)

  /** The server never grants a lease or a lock key twice; lease 0 stands for a grant that failed. */
  predicate Enabled(s: State, e: Step) {
    match e
    case Begin(t, lease) => t !in s.usedCalls && (lease == 0 || lease !in s.usedLeases)
    case Succeed(t, key) => t in s.waiting && key !in s.usedKeys
    case Fail(t) => t in s.waiting
    case Unlock(_) => true
  }

  function Next(s: State, e: Step): State
    requires Enabled(s, e)
  {
    match e
    case Begin(t, lease) =>
      s.(book := Registered(s.book, lease, t), waiting := s.waiting[t := lease],
         usedLeases := s.usedLeases + {lease}, usedCalls := s.usedCalls + {t})
    case Succeed(t, key) =>
      s.(book := Settled(s.book, s.waiting[t], Some(key)), waiting := s.waiting - {t},
         owner := s.owner[s.waiting[t] := key], grantee := s.grantee[key := t], usedKeys := s.usedKeys + {key})
    case Fail(t) =>
      s.(book := Settled(s.book, s.waiting[t], None), waiting := s.waiting - {t})
    case Unlock(key) =>
      s.(book := Released(s.book, key),
         revoked := match ToRevoke(s.book, key) case None => s.revoked case Some(l) => s.revoked + [(key, l)])
  }

  predicate CanRun(s: State, steps: seq<Step>)
    decreases |steps|
  {
    steps == [] || (Enabled(s, steps[0]) && CanRun(Next(s, steps[0]), steps[1..]))
  }

  function Run(s: State, steps: seq<Step>): State
    requires CanRun(s, steps)
    decreases |steps|
  {
    if steps == [] then s else Run(Next(s, steps[0]), steps[1..])
  }

  // ----- the invariant; it says nothing of lease 0

  predicate IsHeld(s: State, key: string, lease: int) {
    key in s.book.leases && s.book.leases[key] == lease
  }

  predicate IsWaiting(s: State, t: nat, lease: int) {
    t in s.waiting && s.waiting[t] == lease
  }

  ghost predicate Held(s: State, lease: int) {
    exists key :: IsHeld(s, key, lease)
  }

  ghost predicate Waits(s: State, lease: int) {
    exists t :: IsWaiting(s, t, lease)
  }

  predicate IsRevoked(s: State, lease: int) {
    exists i :: 0 <= i < |s.revoked| && s.revoked[i].1 == lease
  }

  /** Each lease belongs to one lock, or to one waiting call, or has been revoked. */
  ghost predicate Separate(s: State) {
    && (forall k, k', l :: l != 0 && IsHeld(s, k, l) && IsHeld(s, k', l) ==> k == k')
    && (forall t, t', l :: l != 0 && IsWaiting(s, t, l) && IsWaiting(s, t', l) ==> t == t')
    && (forall k, t, l :: l != 0 && IsHeld(s, k, l) ==> !IsWaiting(s, t, l))
    && (forall k, l :: l != 0 && IsHeld(s, k, l) ==> !IsRevoked(s, l))
    && (forall t, l :: l != 0 && IsWaiting(s, t, l) ==> !IsRevoked(s, l))
  }

  /** Only leases and calls that were seen occur anywhere. */
  ghost predicate Seen(s: State) {
    && (forall k, l :: IsHeld(s, k, l) ==> l in s.usedLeases)
    && (forall t, l :: IsWaiting(s, t, l) ==> l in s.usedLeases && t in s.usedCalls)
    && (forall l :: IsRevoked(s, l) ==> l in s.usedLeases && l != 0)
    && (forall l :: l in s.owner ==> l in s.usedLeases)
    && s.book.leases.Keys <= s.usedKeys
  }

  /** The keep-alives on file are those of held locks and of waiting lock calls. */
  ghost predicate Filed(s: State) {
    forall l :: l != 0 ==> (l in s.book.keeps <==> Held(s, l) || Waits(s, l))
  }

  /** And each is the very one that the waiting call, or the call that was granted the lock, has registered. */
  ghost predicate OwnKeepAlives(s: State) {
    && (forall t, l :: l != 0 && l in s.book.keeps && IsWaiting(s, t, l) ==> s.book.keeps[l] == t)
    && (forall k, l :: l != 0 && l in s.book.keeps && IsHeld(s, k, l) ==>
          k in s.grantee && s.book.keeps[l] == s.grantee[k])
  }

  ghost predicate RevokedOnce(s: State) {
    && (forall i, j :: 0 <= i < j < |s.revoked| ==> s.revoked[i].1 != s.revoked[j].1)
    && (forall i :: 0 <= i < |s.revoked| ==> s.revoked[i].1 in s.owner && s.owner[s.revoked[i].1] == s.revoked[i].0)
    && (forall k, l :: l != 0 && IsHeld(s, k, l) ==> l in s.owner && s.owner[l] == k)
    && (forall t, l :: l != 0 && IsWaiting(s, t, l) ==> l !in s.owner)
  }

  ghost predicate Inv(s: State) {
    Separate(s) && Seen(s) && Filed(s) && OwnKeepAlives(s) && RevokedOnce(s)
  }

  lemma BeginKeeps(s: State, t: nat, lease: int)
    requires Inv(s) && Enabled(s, Begin(t, lease))
    ensures Inv(Next(s, Begin(t, lease)))
  {
    var s' := Next(s, Begin(t, lease));
    assert forall k, l :: IsHeld(s', k, l) <==> IsHeld(s, k, l);
    assert forall u, l :: IsWaiting(s', u, l) <==> if u == t then l == lease else IsWaiting(s, u, l);
    assert forall l :: IsRevoked(s', l) <==> IsRevoked(s, l);
    assert IsWaiting(s', t, lease);
    forall l | l != 0 ensures l in s'.book.keeps <==> Held(s', l) || Waits(s', l) {
      if l != lease && Waits(s, l) {
        var u :| IsWaiting(s, u, l);
        assert IsWaiting(s', u, l);
      }
    }
  }

  lemma SucceedKeeps(s: State, t: nat, key: string)
    requires Inv(s) && Enabled(s, Succeed(t, key))
    ensures Inv(Next(s, Succeed(t, key)))
  {
    var s' := Next(s, Succeed(t, key));
    var lease := s.waiting[t];
    assert IsWaiting(s, t, lease);
    assert forall k, l :: IsHeld(s', k, l) <==> if k == key then l == lease else IsHeld(s, k, l);
    assert forall u, l :: IsWaiting(s', u, l) <==> u != t && IsWaiting(s, u, l);
    assert forall l :: IsRevoked(s', l) <==> IsRevoked(s, l);
    assert IsHeld(s', key, lease);
    forall l | l != 0 ensures l in s'.book.keeps <==> Held(s', l) || Waits(s', l) {
      if Held(s, l) {
        var k :| IsHeld(s, k, l);
        assert IsHeld(s', k, l);
      }
      if l != lease && Waits(s, l) {
        var u :| IsWaiting(s, u, l);
        assert IsWaiting(s', u, l);
      }
    }
  }

  lemma FailKeeps(s: State, t: nat)
    requires Inv(s) && Enabled(s, Fail(t))
    ensures Inv(Next(s, Fail(t)))
  {
    var s' := Next(s, Fail(t));
    var lease := s.waiting[t];
    assert IsWaiting(s, t, lease);
    assert forall k, l :: IsHeld(s', k, l) <==> IsHeld(s, k, l);
    assert forall u, l :: IsWaiting(s', u, l) <==> u != t && IsWaiting(s, u, l);
    assert forall l :: IsRevoked(s', l) <==> IsRevoked(s, l);
    forall l | l != 0 ensures l in s'.book.keeps <==> Held(s', l) || Waits(s', l) {
      if Held(s, l) {
        var k :| IsHeld(s, k, l);
        assert IsHeld(s', k, l);
      }
      if l != lease && Waits(s, l) {
        var u :| IsWaiting(s, u, l);
        assert IsWaiting(s', u, l);
      }
    }
  }

  lemma UnlockKeeps(s: State, key: string)
    requires Inv(s)
    ensures Inv(Next(s, Unlock(key)))
  {
    if key in s.book.leases {
      var s' := Next(s, Unlock(key));
      var lease := s.book.leases[key];
      assert IsHeld(s, key, lease);
      assert forall k, l :: IsHeld(s', k, l) <==> k != key && IsHeld(s, k, l);
      assert forall u, l :: IsWaiting(s', u, l) <==> IsWaiting(s, u, l);
      if lease != 0 {
        assert s'.revoked[|s.revoked|] == (key, lease);
        assert forall i :: 0 <= i < |s.revoked| ==> s'.revoked[i] == s.revoked[i];
        assert forall l :: IsRevoked(s', l) <==> IsRevoked(s, l) || l == lease;
      }
      forall l | l != 0 ensures l in s'.book.keeps <==> Held(s', l) || Waits(s', l) {
        if l != lease && Held(s, l) {
          var k :| IsHeld(s, k, l);
          assert IsHeld(s', k, l);
        }
        if Waits(s, l) {
          var u :| IsWaiting(s, u, l);
          assert IsWaiting(s', u, l);
        }
      }
    }
  }

  lemma StepKeepsInv(s: State, e: Step)
    requires Inv(s) && Enabled(s, e)
    ensures Inv(Next(s, e))
  {
    hide Inv, Next;
    match e {
      case Begin(t, lease) => BeginKeeps(s, t, lease);
      case Succeed(t, key) => SucceedKeeps(s, t, key);
      case Fail(t) => FailKeeps(s, t);
      case Unlock(key) => UnlockKeeps(s, key);
    }
  }

  lemma {:induction false} RunKeepsInv(s: State, steps: seq<Step>)
    requires Inv(s) && CanRun(s, steps)
    ensures Inv(Run(s, steps))
    decreases |steps|
  {
    hide Inv, Next, Enabled;
    if steps != [] {
      StepKeepsInv(s, steps[0]);
      RunKeepsInv(Next(s, steps[0]), steps[1..]);
    }
  }

  // ----- the main result

  lemma KeysAreLeases(s: State)
    requires Inv(s)
    ensures s.book.keeps.Keys - {0} == s.book.leases.Values + s.waiting.Values - {0}
    ensures s.book.leases.Values * s.waiting.Values <= {0}
  {
    forall l ensures l in s.book.leases.Values <==> Held(s, l) {
      if Held(s, l) {
        var k :| IsHeld(s, k, l);
        assert s.book.leases[k] in s.book.leases.Values;
      } else if l in s.book.leases.Values {
        var k :| k in s.book.leases && s.book.leases[k] == l;
        assert IsHeld(s, k, l);
      }
    }
    forall l ensures l in s.waiting.Values <==> Waits(s, l) {
      if Waits(s, l) {
        var t :| IsWaiting(s, t, l);
        assert s.waiting[t] in s.waiting.Values;
      } else if l in s.waiting.Values {
        var t :| t in s.waiting && s.waiting[t] == l;
        assert IsWaiting(s, t, l);
      }
    }
    forall l | l in s.book.leases.Values && l in s.waiting.Values ensures l == 0 {
      var k, t :| IsHeld(s, k, l) && IsWaiting(s, t, l);
    }
    var held, both := s.book.keeps.Keys - {0}, s.book.leases.Values + s.waiting.Values - {0};
    assert forall l :: l in held <==> l in both;
  }

  lemma HeldIsFiled(s: State, key: string)
    requires Inv(s) && key in s.book.leases
    ensures s.book.leases[key] in s.usedLeases
    ensures s.book.leases[key] != 0 ==> s.book.leases[key] in s.book.keeps
    ensures s.book.leases[key] != 0 ==> s.book.leases[key] !in Released(s.book, key).leases.Values
  {
    var lease := s.book.leases[key];
    assert IsHeld(s, key, lease);
    if lease != 0 && lease in Released(s.book, key).leases.Values {
      var k :| k in Released(s.book, key).leases && Released(s.book, key).leases[k] == lease;
      assert IsHeld(s, k, lease);
    }
  }

  /**
   * In every interleaving of lock and unlock calls: the keep-alives on file are those of the locks held
   * and, disjointly, of the lock calls between their critical sections, each the one that the lock's own
   * call has registered. So unlocking a held lock finds its keep-alive and revokes its lease. No lease is
   * revoked twice, and each only by the key it was locked under. All this is for leases that were really
   * granted.
   */
  lemma LockBookkeeping(steps: seq<Step>, key: string)
    requires CanRun(BEGIN, steps)
    ensures var s := Run(BEGIN, steps);
            && s.book.keeps.Keys - {0} == s.book.leases.Values + s.waiting.Values - {0}
            && s.book.leases.Values * s.waiting.Values <= {0}
            && (key in s.book.leases && s.book.leases[key] != 0 ==>
                  && s.book.leases[key] in s.book.keeps
                  && key in s.grantee && s.book.keeps[s.book.leases[key]] == s.grantee[key]
                  && Next(s, Unlock(key)).revoked == s.revoked + [(key, s.book.leases[key])])
            && OwnKeepAlives(s) && RevokedOnce(s)
  {
    assert Inv(BEGIN);
    RunKeepsInv(BEGIN, steps);
    var s := Run(BEGIN, steps);
    KeysAreLeases(s);
    if key in s.book.leases {
      assert IsHeld(s, key, s.book.leases[key]);
    }
  }

  // ----- exactly when the entry of a held lock is safe

  /** As long as the lock is held, whatever happens, its keep-alive is on file. */
  ghost predicate EntryStays(s: State, key: string)
    requires key in s.book.leases
  {
    forall more :: CanRun(s, more) && key in Run(s, more).book.leases ==> s.book.leases[key] in Run(s, more).book.keeps
  }

  lemma {:induction false} LeaseOfKeyStays(s: State, steps: seq<Step>, key: string)
    requires CanRun(s, steps) && key in s.usedKeys
    ensures var s' := Run(s, steps);
            key in s'.book.leases ==> key in s.book.leases && s'.book.leases[key] == s.book.leases[key]
    decreases |steps|
  {
    if steps != [] {
      LeaseOfKeyStays(Next(s, steps[0]), steps[1..], key);
    }
  }

  /** A lock call on lease 0 that is refused takes the entry of all other locks on lease 0 with it. */
  lemma RefusalTakesTheEntry(s: State, t: nat, key: string)
    requires t !in s.usedCalls && IsHeld(s, key, 0)
    ensures var more := [Begin(t, 0), Fail(t)];
            CanRun(s, more) && IsHeld(Run(s, more), key, 0) && 0 !in Run(s, more).book.keeps
  {
    var s1 := Next(s, Begin(t, 0));
    var s2 := Next(s1, Fail(t));
    assert [Begin(t, 0), Fail(t)][1..] == [Fail(t)] && [Fail(t)][1..] == [];
    assert CanRun(s2, []) && CanRun(s1, [Fail(t)]);
    assert Run(s1, [Fail(t)]) == s2;
  }

  /**
   * The keep-alive of a held lock stays on file for as long as the lock is held, in every run from there,
   * if and only if its lease was really granted.
   */
  lemma EntryStaysExactly(steps: seq<Step>, key: string)
    requires CanRun(BEGIN, steps) && key in Run(BEGIN, steps).book.leases
    ensures var s := Run(BEGIN, steps); EntryStays(s, key) <==> s.book.leases[key] != 0
  {
    hide Next, Enabled;
    assert Inv(BEGIN);
    RunKeepsInv(BEGIN, steps);
    var s := Run(BEGIN, steps);
    var lease := s.book.leases[key];
    if lease != 0 {
      forall more | CanRun(s, more) && key in Run(s, more).book.leases ensures lease in Run(s, more).book.keeps {
        RunKeepsInv(s, more);
        LeaseOfKeyStays(s, more, key);
        HeldIsFiled(Run(s, more), key);
      }
    } else {
      var t := Threads.Newcomer(s.usedCalls);
      RefusalTakesTheEntry(s, t, key);
      assert !EntryStays(s, key);
    }
  }

  /** Two locks whose lease grants failed share the entry of lease 0: the second unlock finds no keep-alive. */
  lemma FailedGrantsShareAnEntry()
    ensures var waiting := Next(Next(BEGIN, Begin(0, 0)), Begin(1, 0));
            var s := Next(Next(Next(waiting, Succeed(0, "a")), Succeed(1, "b")), Unlock("a"));
            "b" in s.book.leases && s.book.leases["b"] !in s.book.keeps && Next(s, Unlock("b")).revoked == []
  {
  }
}
