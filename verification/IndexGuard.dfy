/**
 * The index of a successful write as a guard: over whole runs, a later `modify_if` on that index
 * succeeds exactly if nobody has written or deleted the key in between.
 */
module IndexGuard {
  import opened Bytes
  import opened Ranges
  import opened Store
  import T = Transaction
  import opened Responses
  import opened Actions
  import opened Directory

  /** Somewhere in the operations that are run, the key is written, or deleted while it is there. */
  predicate Touches(base: Store, p: Progress, req: TxnRequest, key: bytes)
    decreases req
  {
    TouchesOps(base, p, if AllHold(base.kvs, req.compare) then req.success else req.failure, key)
  }

  predicate TouchesOps(base: Store, p: Progress, ops: seq<RequestOp>, key: bytes)
    decreases ops
  {
    ops != []
    && (TouchesOp(base, p, ops[0], key) || TouchesOps(base, RunOp(base, p, ops[0]).0, ops[1..], key))
  }

  predicate TouchesOp(base: Store, p: Progress, op: RequestOp, key: bytes)
    decreases op
  {
    match op
    case RequestRange(_, _) => false
    case RequestPut(k, _, _, _) => k == key
    case RequestDelete(range, _) => Selects(range, key) && Lookup(p.kvs, key).Some?
    case RequestTxn(txn) => Touches(base, p, txn, key)
  }

  /** The key is as it was, or has been touched at the revision after `base`. */
  ghost predicate Marked(base: Store, p: Progress, key: bytes, touched: bool, before: Option<KeyValue>) {
    if touched
    then p.changed && (Lookup(p.kvs, key).Some? ==> Lookup(p.kvs, key).value.modRevision == base.revision + 1)
    else Lookup(p.kvs, key) == before
  }

  lemma {:induction false} RunTxnMarks(base: Store, p: Progress, req: TxnRequest, key: bytes, touched: bool,
                                       before: Option<KeyValue>)
    requires Marked(base, p, key, touched, before)
    ensures Marked(base, RunTxn(base, p, req).0, key, touched || Touches(base, p, req, key), before)
    decreases req
  {
    RunOpsMark(base, p, if AllHold(base.kvs, req.compare) then req.success else req.failure, key, touched, before);
  }

  lemma {:induction false} RunOpsMark(base: Store, p: Progress, ops: seq<RequestOp>, key: bytes, touched: bool,
                                      before: Option<KeyValue>)
    requires Marked(base, p, key, touched, before)
    ensures Marked(base, RunOps(base, p, ops).0, key, touched || TouchesOps(base, p, ops, key), before)
    decreases ops
  {
    if ops != [] {
      RunOpMarks(base, p, ops[0], key, touched, before);
      RunOpsMark(base, RunOp(base, p, ops[0]).0, ops[1..], key, touched || TouchesOp(base, p, ops[0], key), before);
    }
  }

  lemma {:induction false} RunOpMarks(base: Store, p: Progress, op: RequestOp, key: bytes, touched: bool,
                                      before: Option<KeyValue>)
    requires Marked(base, p, key, touched, before)
    ensures Marked(base, RunOp(base, p, op).0, key, touched || TouchesOp(base, p, op, key), before)
    decreases op
  {
    match op {
      case RequestRange(_, _) =>
      case RequestPut(k, value, lease, _) =>
        LookupInsert(p.kvs, Written(Lookup(p.kvs, k), k, value, lease, base.revision + 1), key);
      case RequestDelete(range, _) =>
        LookupDiscard(p.kvs, range, key);
        if Selects(range, key) && Lookup(p.kvs, key).Some? {
          LookupKey(p.kvs, key);
          SelectMembers(p.kvs, range);
          assert Lookup(p.kvs, key).value in Select(p.kvs, range);
        }
      case RequestTxn(txn) =>
        RunTxnMarks(base, p, txn, key, touched, before);
    }
  }

  // ----- runs

  /** What anybody may ask of the server: a transaction, or a plain put, read or delete. */
  datatype Request = Whole(req: TxnRequest) | Plain(op: RequestOp)

  function Served(s: Store, r: Request): Store {
    match r
    case Whole(req) => Apply(s, req).0
    case Plain(op) => ApplyOp(s, op).0
  }

  predicate Acceptable(r: Request) {
    match r
    case Whole(req) => WellFormed(req)
    case Plain(op) => WellFormedOp(op)
  }

  predicate TouchedBy(s: Store, r: Request, key: bytes) {
    match r
    case Whole(req) => Touches(s, Progress(s.kvs, false), req, key)
    case Plain(op) => TouchesOp(s, Progress(s.kvs, false), op, key)
  }

  /** A plain operation is served like the unguarded transaction of that one operation. */
  lemma PlainIsTxn(s: Store, op: RequestOp)
    ensures var (s', response) := ApplyOp(s, op);
            Apply(s, TxnRequest([], [op], [])) == (s', TxnReply(s'.revision, true, [response]))
  {
    RunOne(s, Progress(s.kvs, false), op);
  }

  lemma ServedFacts(s: Store, r: Request, key: bytes)
    requires Valid(s) && Acceptable(r)
    ensures var s' := Served(s, r);
            && Valid(s') && s.revision <= s'.revision
            && (if TouchedBy(s, r, key)
                then s'.revision == s.revision + 1
                     && (Lookup(s'.kvs, key).Some? ==> Lookup(s'.kvs, key).value.modRevision == s.revision + 1)
                else Lookup(s'.kvs, key) == Lookup(s.kvs, key))
  {
    var p := Progress(s.kvs, false);
    match r {
      case Whole(req) =>
        ApplyValid(s, req);
        RunTxnMarks(s, p, req, key, false, Lookup(s.kvs, key));
      case Plain(op) =>
        ApplyOpValid(s, op);
        RunOpMarks(s, p, op, key, false, Lookup(s.kvs, key));
    }
  }

  function After(s: Store, reqs: seq<Request>): Store
    decreases |reqs|
  {
    if reqs == [] then s else After(Served(s, reqs[0]), reqs[1..])
  }

  /** Some request of the run touches the key. */
  predicate TouchedIn(s: Store, reqs: seq<Request>, key: bytes)
    decreases |reqs|
  {
    reqs != [] && (TouchedBy(s, reqs[0], key) || TouchedIn(Served(s, reqs[0]), reqs[1..], key))
  }

  /**
   * The modification revision of a key equals a revision the store had reached before, if and only if
   * it did so then and no request has touched the key since.
   */
  lemma {:induction false} ModRevisionTellsTouches(s: Store, reqs: seq<Request>, key: bytes, r: int)
    requires Valid(s) && 0 < r <= s.revision && forall req <- reqs :: Acceptable(req)
    ensures Valid(After(s, reqs))
    ensures OrEmpty(Lookup(After(s, reqs).kvs, key)).modRevision == r
            <==> OrEmpty(Lookup(s.kvs, key)).modRevision == r && !TouchedIn(s, reqs, key)
    decreases |reqs|
  {
    hide Served, TouchedBy, Acceptable;
    if reqs != [] {
      ServedFacts(s, reqs[0], key);
      ModRevisionTellsTouches(Served(s, reqs[0]), reqs[1..], key, r);
    }
  }

  // ----- the writes

  /** The calls that write one key and return an index. */
  datatype Write = ByPut | ByAdd | ByModify | ByModifyIf(prev: T.Previous)

  function Perform(s: Store, w: Write, key: bytes, value: bytes, lease: int): Outcome {
    match w
    case ByPut => PutOutcome(s, key, value, lease)
    case ByAdd => AddDirectly(s, key, value, lease)
    case ByModify => ModifyDirectly(s, key, value, lease)
    case ByModifyIf(prev) => ModifyIfDirectly(s, key, value, prev, lease)
  }

  /** Each of these writes, if it succeeds, returns the modification revision it gave the key. */
  lemma IndexIsModRevision(s: Store, w: Write, key: bytes, value: bytes, lease: int)
    requires Valid(s) && key != []
    ensures var o := Perform(s, w, key, value, lease);
            && Valid(o.store)
            && (o.response.IsOk() ==> && o.response.index == o.store.revision == s.revision + 1
                                      && Lookup(o.store.kvs, key).Some?
                                      && Lookup(o.store.kvs, key).value.modRevision == o.response.index)
  {
    var kv := Renewed(s, key, value, lease);
    LookupKey(s.kvs, key);
    LookupInsert(s.kvs, kv, key);
    InsertMembers(s.kvs, kv);
  }

  /**
   * If a put, add, modify or modify_if of the key succeeded with index r, then after any run of
   * requests by anyone, transactions and plain calls, `modify_if(key, v, r)` succeeds exactly if none of them
   * wrote or deleted the key, even one that restored its old content.
   */
  lemma IndexGuardIsExact(s: Store, w: Write, key: bytes, value: bytes, lease: int, reqs: seq<Request>,
                          newValue: bytes, newLease: int)
    requires Valid(s) && key != [] && forall req <- reqs :: Acceptable(req)
    requires Perform(s, w, key, value, lease).response.IsOk()
    ensures var o := Perform(s, w, key, value, lease);
            var s' := After(o.store, reqs);
            ModifyIfDirectly(s', key, newValue, T.PREV_INDEX(o.response.index), newLease).response.IsOk()
            <==> !TouchedIn(o.store, reqs, key)
  {
    IndexIsModRevision(s, w, key, value, lease);
    var o := Perform(s, w, key, value, lease);
    ModRevisionTellsTouches(o.store, reqs, key, o.response.index);
  }

  /** An untouched key still has the very entry it had; a touched one was changed at a later revision or is gone. */
  lemma {:induction false} UntouchedIsUnchanged(s: Store, reqs: seq<Request>, key: bytes)
    requires Valid(s) && forall req <- reqs :: Acceptable(req)
    ensures !TouchedIn(s, reqs, key) ==> Lookup(After(s, reqs).kvs, key) == Lookup(s.kvs, key)
    ensures TouchedIn(s, reqs, key) && Lookup(After(s, reqs).kvs, key).Some? ==>
              Lookup(After(s, reqs).kvs, key).value.modRevision > s.revision
    ensures s.revision <= After(s, reqs).revision
    decreases |reqs|
  {
    hide Served, TouchedBy, Acceptable;
    if reqs != [] {
      ServedFacts(s, reqs[0], key);
      UntouchedIsUnchanged(Served(s, reqs[0]), reqs[1..], key);
    }
  }
}
