/**
 * Transactions built by any sequence of `add_*` calls (src/v3/Transaction.cpp:29-227), and what becomes of
 * them on the server.
 */
module Builders {
  import opened Bytes
  import opened Ranges
  import opened Store
  import T = Transaction

  /** A call of the builder. A nested transaction is built by calls of its own. */
  datatype Call =
    | Guard(key: bytes, target: Target, result: CompareResult, rangeEnd: bytes)
    | Success(op: Op)
    | Failure(op: Op)

  datatype Op =
    | AddRange(key: bytes, rangeEnd: bytes, recursive: bool, limit: int)
    | AddPut(key: bytes, value: bytes, lease: int, prevKv: bool)
    | AddDelete(key: bytes, rangeEnd: bytes, recursive: bool, prevKv: bool)
    | AddTxn(calls: seq<Call>)

  // ----- the request a sequence of calls asks for

  function GuardOf(c: Call): Compare
    requires c.Guard?
  {
    Compare(Range(c.key, c.rangeEnd), c.result, c.target)
  }

  function OpOf(o: Op): RequestOp
    decreases o, 0
  {
    match o
    case AddRange(key, rangeEnd, recursive, limit) => RequestRange(RangesFor(key, rangeEnd, recursive), limit)
    case AddPut(key, value, lease, prevKv) => RequestPut(key, value, lease, prevKv)
    case AddDelete(key, rangeEnd, recursive, prevKv) => RequestDelete(RangesFor(key, rangeEnd, recursive), prevKv)
    case AddTxn(calls) => RequestTxn(RequestOf(calls))
  }

  /** The operation that a call adds to its branch. */
  function AddedBy(c: Call): RequestOp
    requires !c.Guard?
    decreases c, 1
  {
    match c
    case Success(op) => OpOf(op)
    case Failure(op) => OpOf(op)
  }

  function Guards(calls: seq<Call>): seq<Compare>
    decreases calls
  {
    if calls == [] then []
    else Guards(calls[..|calls| - 1]) + if calls[|calls| - 1].Guard? then [GuardOf(calls[|calls| - 1])] else []
  }

  function Successes(calls: seq<Call>): seq<RequestOp>
    decreases calls, 1
  {
    if calls == [] then []
    else
      var last := calls[|calls| - 1];
      Successes(calls[..|calls| - 1]) + if last.Success? then [AddedBy(last)] else []
  }

  function Failures(calls: seq<Call>): seq<RequestOp>
    decreases calls, 1
  {
    if calls == [] then []
    else
      var last := calls[|calls| - 1];
      Failures(calls[..|calls| - 1]) + if last.Failure? then [AddedBy(last)] else []
  }

  function RequestOf(calls: seq<Call>): TxnRequest
    decreases calls, 2
  {
    TxnRequest(Guards(calls), Successes(calls), Failures(calls))
  }

  /** Keys that `string_plus_one` can handle. */
  predicate Short(calls: seq<Call>)
    decreases calls, 1
  {
    forall c <- calls :: ShortCall(c)
  }

  predicate ShortCall(c: Call)
    decreases c, 1
  {
    match c
    case Guard(_, _, _, _) => true
    case Success(op) => ShortOp(op)
    case Failure(op) => ShortOp(op)
  }

  predicate ShortOp(o: Op)
    decreases o, 0
  {
    match o
    case AddPut(_, _, _, _) => true
    case AddTxn(calls) => Short(calls)
    case _ => |o.key| <= 0x8000_0000
  }

  // ----- the calls

  method Perform(txn: T.Transaction, c: Call)
    requires ShortCall(c)
    modifies txn
    ensures c.Guard? ==>
              txn.compare == old(txn.compare) + [GuardOf(c)]
              && txn.success == old(txn.success) && txn.failure == old(txn.failure)
    ensures c.Success? ==>
              txn.success == old(txn.success) + [OpOf(c.op)]
              && txn.compare == old(txn.compare) && txn.failure == old(txn.failure)
    ensures c.Failure? ==>
              txn.failure == old(txn.failure) + [OpOf(c.op)]
              && txn.compare == old(txn.compare) && txn.success == old(txn.success)
    decreases c, 0
  {
    match c {
      case Guard(key, target, result, rangeEnd) => txn.AddCompare(key, target, result, rangeEnd);
      case Success(op) => PerformSuccess(txn, op);
      case Failure(op) => PerformFailure(txn, op);
    }
  }

  method PerformSuccess(txn: T.Transaction, op: Op)
    requires ShortOp(op)
    modifies txn
    ensures txn.success == old(txn.success) + [OpOf(op)]
    ensures txn.compare == old(txn.compare) && txn.failure == old(txn.failure)
    decreases op, 1
  {
    match op {
      case AddRange(key, rangeEnd, recursive, limit) => txn.AddSuccessRange(key, rangeEnd, recursive, limit);
      case AddPut(key, value, lease, prevKv) => txn.AddSuccessPut(key, value, lease, prevKv);
      case AddDelete(key, rangeEnd, recursive, prevKv) => txn.AddSuccessDelete(key, rangeEnd, recursive, prevKv);
      case AddTxn(calls) =>
        var nested := Build(calls);
        txn.AddSuccessTxn(nested);
    }
  }

  method PerformFailure(txn: T.Transaction, op: Op)
    requires ShortOp(op)
    modifies txn
    ensures txn.failure == old(txn.failure) + [OpOf(op)]
    ensures txn.compare == old(txn.compare) && txn.success == old(txn.success)
    decreases op, 1
  {
    match op {
      case AddRange(key, rangeEnd, recursive, limit) => txn.AddFailureRange(key, rangeEnd, recursive, limit);
      case AddPut(key, value, lease, prevKv) => txn.AddFailurePut(key, value, lease, prevKv);
      case AddDelete(key, rangeEnd, recursive, prevKv) => txn.AddFailureDelete(key, rangeEnd, recursive, prevKv);
      case AddTxn(calls) =>
        var nested := Build(calls);
        txn.AddFailureTxn(nested);
    }
  }

  /** Any sequence of calls on a new transaction. */
  method Build(calls: seq<Call>) returns (txn: T.Transaction)
    requires Short(calls)
    ensures fresh(txn) && txn.Request() == RequestOf(calls)
    decreases calls, 2
  {
    txn := new T.Transaction();
    for i := 0 to |calls|
      invariant fresh(txn) && txn.Request() == RequestOf(calls[..i])
    {
      assert calls[i] in calls;
      Perform(txn, calls[i]);
      assert !calls[i].Guard? ==> AddedBy(calls[i]) == OpOf(calls[i].op);
      assert calls[..i + 1][..i] == calls[..i];
    }
    assert calls[..|calls|] == calls;
  }

  // ----- nothing is lost, nothing changes places

  datatype Kind = OfGuard | OfSuccess | OfFailure

  function KindOf(c: Call): Kind {
    match c
    case Guard(_, _, _, _) => OfGuard
    case Success(_) => OfSuccess
    case Failure(_) => OfFailure
  }

  /** How many of the calls are of one kind. */
  function Count(calls: seq<Call>, k: Kind): nat {
    if calls == [] then 0 else (if KindOf(calls[0]) == k then 1 else 0) + Count(calls[1..], k)
  }

  lemma {:induction false} CountSnoc(calls: seq<Call>, c: Call, k: Kind)
    ensures Count(calls + [c], k) == Count(calls, k) + if KindOf(c) == k then 1 else 0
  {
    if calls == [] {
      assert [] + [c] == [c];
    } else {
      assert (calls + [c])[0] == calls[0] && (calls + [c])[1..] == calls[1..] + [c];
      CountSnoc(calls[1..], c, k);
    }
  }

  /** Each list has as many elements as there are calls of its kind. */
  lemma {:induction false} ListsAreComplete(calls: seq<Call>)
    ensures var r := RequestOf(calls);
            && |r.compare| == Count(calls, OfGuard)
            && |r.success| == Count(calls, OfSuccess)
            && |r.failure| == Count(calls, OfFailure)
  {
    if calls != [] {
      var init, last := calls[..|calls| - 1], calls[|calls| - 1];
      ListsAreComplete(init);
      assert calls == init + [last];
      CountSnoc(init, last, OfGuard);
      CountSnoc(init, last, OfSuccess);
      CountSnoc(init, last, OfFailure);
    }
  }

  /**
   * And what a call adds stands right behind what the calls of its kind before it have added: guards and
   * operations are in call order, whatever was called in between.
   */
  lemma {:induction false} CallsInOrder(calls: seq<Call>, n: nat)
    requires n < |calls|
    ensures var (r, c, k) := (RequestOf(calls), calls[n], Count(calls[..n], KindOf(calls[n])));
            && (c.Guard? ==> k < |r.compare| && r.compare[k] == GuardOf(c))
            && (c.Success? ==> k < |r.success| && r.success[k] == OpOf(c.op))
            && (c.Failure? ==> k < |r.failure| && r.failure[k] == OpOf(c.op))
  {
    var init, last := calls[..|calls| - 1], calls[|calls| - 1];
    assert !last.Guard? ==> AddedBy(last) == OpOf(last.op);
    if n < |init| {
      CallsInOrder(init, n);
      assert init[..n] == calls[..n] && init[n] == calls[n];
    } else {
      ListsAreComplete(init);
      assert calls[..n] == init;
    }
  }

  // ----- on the server

  /** Every guard is the guard of a call. */
  lemma {:induction false} GuardsAreCalls(calls: seq<Call>, g: Compare)
    ensures g in Guards(calls) <==> exists n :: 0 <= n < |calls| && calls[n].Guard? && GuardOf(calls[n]) == g
  {
    if calls != [] {
      var init, last := calls[..|calls| - 1], calls[|calls| - 1];
      GuardsAreCalls(init, g);
      if exists n :: 0 <= n < |calls| && calls[n].Guard? && GuardOf(calls[n]) == g {
        var n :| 0 <= n < |calls| && calls[n].Guard? && GuardOf(calls[n]) == g;
        assert n < |init| ==> init[n] == calls[n];
      }
      if g in Guards(init) {
        var n :| 0 <= n < |init| && init[n].Guard? && GuardOf(init[n]) == g;
        assert calls[n] == init[n];
      }
    }
  }

  /** A built transaction succeeds if and only if the guard of every single call holds. */
  lemma BuiltSucceedsExactly(s: Store, calls: seq<Call>)
    ensures Apply(s, RequestOf(calls)).1.succeeded
            <==> forall n :: 0 <= n < |calls| && calls[n].Guard? ==> Holds(s.kvs, GuardOf(calls[n]))
  {
    hide Holds;
    forall n | 0 <= n < |calls| && calls[n].Guard? ensures GuardOf(calls[n]) in Guards(calls) {
      GuardsAreCalls(calls, GuardOf(calls[n]));
    }
    forall g | g in Guards(calls) ensures exists n :: 0 <= n < |calls| && calls[n].Guard? && GuardOf(calls[n]) == g {
      GuardsAreCalls(calls, g);
    }
    hide Guards;
  }

  /** Operations run one behind the other, and answer in that order. */
  lemma {:induction false} OpsRunInOrder(base: Store, p: Progress, ops: seq<RequestOp>, k: nat)
    requires k < |ops|
    ensures var all := RunOps(base, p, ops).1;
            |all| == |ops| && all[k] == RunOp(base, RunOps(base, p, ops[..k]).0, ops[k]).1
    decreases |ops|
  {
    hide RunOp;
    var p1 := RunOp(base, p, ops[0]).0;
    RunOpsLength(base, p, ops);
    if k == 0 {
      assert ops[..0] == [];
    } else {
      OpsRunInOrder(base, p1, ops[1..], k - 1);
      assert ops[..k][0] == ops[0] && ops[..k][1..] == ops[1..][..k - 1];
    }
  }

  lemma {:induction false} RunOpsLength(base: Store, p: Progress, ops: seq<RequestOp>)
    ensures |RunOps(base, p, ops).1| == |ops|
    decreases |ops|
  {
    hide RunOp;
    if ops != [] {
      RunOpsLength(base, RunOp(base, p, ops[0]).0, ops[1..]);
    }
  }

  /** The operations of the branch that is run. */
  function Branch(calls: seq<Call>, succeeded: bool): seq<RequestOp> {
    if succeeded then Successes(calls) else Failures(calls)
  }

  predicate InBranch(c: Call, succeeded: bool) {
    if succeeded then c.Success? else c.Failure?
  }

  /**
   * The operations of the branch that is run are carried out in the order in which they were added, each on
   * what those before it have left behind, and the response has their answers in the same order.
   */
  lemma BuiltRunsInOrder(s: Store, calls: seq<Call>, n: nat)
    requires n < |calls|
    requires InBranch(calls[n], Apply(s, RequestOf(calls)).1.succeeded)
    ensures var (s', reply) := Apply(s, RequestOf(calls));
            var k := Count(calls[..n], KindOf(calls[n]));
            var before := RunOps(s, Progress(s.kvs, false), Branch(calls[..n], reply.succeeded)).0;
            && |reply.responses| == Count(calls, KindOf(calls[n]))
            && k < |reply.responses| && reply.responses[k] == RunOp(s, before, OpOf(calls[n].op)).1
            && s'.kvs == RunOps(s, Progress(s.kvs, false), Branch(calls, reply.succeeded)).0.kvs
  {
    hide RunOp, AllHold, Successes, Failures, Guards, OpOf, Count;
    var succeeded := Apply(s, RequestOf(calls)).1.succeeded;
    var k := Count(calls[..n], KindOf(calls[n]));
    CallsInOrder(calls, n);
    ListsAreComplete(calls);
    OpsRunInOrder(s, Progress(s.kvs, false), Branch(calls, succeeded), k);
    BranchPrefix(calls, n, succeeded);
    var some, all := Branch(calls[..n], succeeded), Branch(calls, succeeded);
    assert all[..k] == some;
    AppliedBranch(s, calls);
    hide RunOps, Apply, RequestOf, Branch;
  }

  lemma AppliedBranch(s: Store, calls: seq<Call>)
    ensures var (s', reply) := Apply(s, RequestOf(calls));
            var (p, responses) := RunOps(s, Progress(s.kvs, false), Branch(calls, reply.succeeded));
            reply.responses == responses && s'.kvs == p.kvs
  {
    hide RunOps, Successes, Failures, Guards, AllHold;
  }

  lemma {:induction false} BranchPrefix(calls: seq<Call>, n: nat, succeeded: bool)
    requires n <= |calls|
    ensures var (kind, some, all) := (if succeeded then OfSuccess else OfFailure,
                                      Branch(calls[..n], succeeded), Branch(calls, succeeded));
            |some| == Count(calls[..n], kind) && some <= all
    decreases |calls| - n
  {
    ListsAreComplete(calls[..n]);
    if n == |calls| {
      assert calls[..n] == calls;
    } else {
      BranchPrefix(calls, n + 1, succeeded);
      assert calls[..n + 1][..n] == calls[..n];
    }
  }

  // ----- what a guard asks

  /**
   * A guard on a single key, field by field; a missing key counts as zeros, except that a guard on the value
   * of a missing key never holds.
   */
  lemma GuardMeans(s: Store, key: bytes, result: CompareResult, v: int, b: bytes)
    requires Valid(s)
    ensures var entry := Lookup(s.kvs, key);
            var kv := if entry.Some? then entry.value else KeyValue([], 0, 0, 0, [], 0);
            && (Holds(s.kvs, Compare(Range(key, []), result, Version(v)))
                <==> match result case EQUAL => kv.version == v case GREATER => kv.version > v
                                  case LESS => kv.version < v case NOT_EQUAL => kv.version != v)
            && (Holds(s.kvs, Compare(Range(key, []), result, Create(v)))
                <==> match result case EQUAL => kv.createRevision == v case GREATER => kv.createRevision > v
                                  case LESS => kv.createRevision < v case NOT_EQUAL => kv.createRevision != v)
            && (Holds(s.kvs, Compare(Range(key, []), result, Mod(v)))
                <==> match result case EQUAL => kv.modRevision == v case GREATER => kv.modRevision > v
                                  case LESS => kv.modRevision < v case NOT_EQUAL => kv.modRevision != v)
            && (Holds(s.kvs, Compare(Range(key, []), result, Lease(v)))
                <==> match result case EQUAL => kv.lease == v case GREATER => kv.lease > v
                                  case LESS => kv.lease < v case NOT_EQUAL => kv.lease != v)
            && (Holds(s.kvs, Compare(Range(key, []), result, Value(b)))
                <==> entry.Some? && match result case EQUAL => kv.value == b case GREATER => Less(b, kv.value)
                                                 case LESS => Less(kv.value, b) case NOT_EQUAL => kv.value != b)
  {
    SelectSingle(s.kvs, key);
    forall t: Target ensures Holds(s.kvs, Compare(Range(key, []), result, t))
                             <==> match Lookup(s.kvs, key)
                                  case None => !t.Value? && Matches(Compare(Range(key, []), result, t), EMPTY_KV)
                                  case Some(kv) => Matches(Compare(Range(key, []), result, t), kv)
    {
      GuardOnOne(s, key, result, t);
    }
    hide Holds, Lookup;
  }

  lemma GuardOnOne(s: Store, key: bytes, result: CompareResult, t: Target)
    requires Valid(s)
    ensures var c := Compare(Range(key, []), result, t);
            Holds(s.kvs, c) <==> match Lookup(s.kvs, key)
                                 case None => !t.Value? && Matches(c, EMPTY_KV)
                                 case Some(kv) => Matches(c, kv)
  {
    var c := Compare(Range(key, []), result, t);
    SelectSingle(s.kvs, key);
    assert Select(s.kvs, c.range) == match Lookup(s.kvs, key) case None => [] case Some(kv) => [kv];
    hide Select, Matches;
    if Lookup(s.kvs, key).Some? {
      HoldsOfOne(s.kvs, c, Lookup(s.kvs, key).value);
    }
    hide Lookup;
  }

  /**
   * A guard on a range asks its question of every stored entry in the range. Of an empty range it asks it
   * once, of zeros, and there it never holds on the value.
   */
  lemma RangeGuardMeans(s: Store, c: Compare)
    ensures Holds(s.kvs, c)
            <==> && (forall kv :: kv in s.kvs && Selects(c.range, kv.key) ==> Matches(c, kv))
                 && ((exists kv :: kv in s.kvs && Selects(c.range, kv.key))
                     || (!c.target.Value? && Matches(c, KeyValue([], 0, 0, 0, [], 0))))
  {
    hide Matches, Selects;
    SelectMembers(s.kvs, c.range);
    if exists kv :: kv in s.kvs && Selects(c.range, kv.key) {
      var kv :| kv in s.kvs && Selects(c.range, kv.key);
      assert kv in Select(s.kvs, c.range);
    } else if Select(s.kvs, c.range) != [] {
      assert Select(s.kvs, c.range)[0] in Select(s.kvs, c.range);
    }
    hide Select;
  }
}
