/**
 * Conditional writes end to end: the request an action builds, the server's run of it and the parsing
 * of the reply (src/v3/AsyncGRPC.cpp), against the direct conditional operation.
 */
module Actions {
  import opened Bytes
  import opened Ranges
  import opened Store
  import T = Transaction
  import opened Responses

  /** The status of a call; code 0 is OK. */
  datatype Status = Status(code: int, message: string)

  const OK := Status(0, "")

  // ----- requests

  /** `AsyncSetAction`; `create` distinguishes `add` from `set`. */
  function SetRequest(key: bytes, value: bytes, lease: int, create: bool): TxnRequest {
    TxnRequest([Compare(Single(key), EQUAL, Mod(0))],
               [RequestPut(key, value, lease, false), RequestRange(Single(key), 0)],
               [if create then RequestRange(Single(key), 0) else RequestPut(key, value, lease, false)])
  }

  /** `AsyncUpdateAction`. */
  function UpdateRequest(key: bytes, value: bytes, lease: int): TxnRequest {
    TxnRequest([Compare(Single(key), GREATER, Version(0))],
               [RequestPut(key, value, lease, true), RequestRange(Single(key), 0)],
               [RequestRange(Single(key), 0)])
  }

  /** `AsyncCompareAndSwapAction`. */
  function SwapRequest(key: bytes, value: bytes, prev: T.Previous, lease: int): TxnRequest {
    TxnRequest([T.Guard(key, EQUAL, prev)],
               [RequestPut(key, value, lease, false), RequestRange(Single(key), 0)],
               [RequestRange(Single(key), 0)])
  }

  /** `AsyncCompareAndDeleteAction`. */
  function CompareDeleteRequest(key: bytes, prev: T.Previous): TxnRequest {
    TxnRequest([T.Guard(key, EQUAL, prev)],
               [RequestDelete(Single(key), true)],
               [RequestRange(Single(key), 0)])
  }

  method SetAction(key: bytes, value: bytes, lease: int, create: bool) returns (txn: T.Transaction)
    requires |key| <= 0x8000_0000
    ensures fresh(txn) && txn.Request() == SetRequest(key, value, lease, create)
  {
    txn := new T.Transaction();
    txn.AddCompareMod(key, EQUAL, 0);
    txn.AddSuccessPut(key, value, lease);
    txn.AddSuccessRange(key);
    if create {
      txn.AddFailureRange(key);
    } else {
      txn.AddFailurePut(key, value, lease);
    }
  }

  method UpdateAction(key: bytes, value: bytes, lease: int) returns (txn: T.Transaction)
    requires |key| <= 0x8000_0000
    ensures fresh(txn) && txn.Request() == UpdateRequest(key, value, lease)
  {
    txn := new T.Transaction();
    txn.AddCompareVersion(key, GREATER, 0);
    txn.AddSuccessPut(key, value, lease, true);
    txn.AddSuccessRange(key);
    txn.AddFailureRange(key);
  }

  method CompareAndSwapAction(key: bytes, value: bytes, prev: T.Previous, lease: int) returns (txn: T.Transaction)
    requires |key| <= 0x8000_0000
    ensures fresh(txn) && txn.Request() == SwapRequest(key, value, prev, lease)
  {
    txn := new T.Transaction();
    txn.SetupCompareAndSwap(key, prev, value, lease);
    txn.AddSuccessRange(key);
  }

  method CompareAndDeleteAction(key: bytes, prev: T.Previous) returns (txn: T.Transaction)
    requires |key| <= 0x8000_0000
    ensures fresh(txn) && txn.Request() == CompareDeleteRequest(key, prev)
  {
    txn := new T.Transaction();
    txn.SetupCompareAndDelete(key, prev, key);
  }

  // ----- parsing

  datatype Failure = Failure(code: int, message: string)

  const COMPARE_FAILED := Failure(ERROR_COMPARE_FAILED, COMPARE_FAILED_MESSAGE)

  function WithFailure(p: Parsed, failed: bool, f: Failure): Parsed {
    if failed then p.(errorCode := f.code, errorMessage := f.message) else p
  }

  function ParsedSet(status: Status, reply: TxnReply, create: bool): Parsed {
    var p := FRESH.(action := if create then "create" else "set");
    if status.code != 0 then p.(errorCode := status.code, errorMessage := status.message)
    else WithFailure(ParsedTxn(p, reply), !reply.succeeded && create,
                     Failure(ERROR_KEY_ALREADY_EXISTS, KEY_ALREADY_EXISTS_MESSAGE))
  }

  function ParsedUpdate(status: Status, reply: TxnReply): Parsed {
    if status.code != 0 then FRESH.(errorCode := status.code, errorMessage := status.message)
    else if reply.succeeded then ParsedTxn(FRESH, reply).(action := "update")
    else FRESH.(errorCode := ERROR_KEY_NOT_FOUND, errorMessage := KEY_NOT_FOUND_MESSAGE)
  }

  /** The compare-and-swap, compare-and-delete and plain transaction actions differ in their name only. */
  function ParsedConditional(action: string, status: Status, reply: TxnReply): Parsed {
    var p := FRESH.(action := action);
    if status.code != 0 then p.(errorCode := status.code, errorMessage := status.message)
    else WithFailure(ParsedTxn(p, reply), !reply.succeeded, COMPARE_FAILED)
  }

  method ParseSet(status: Status, reply: TxnReply, isCreate: bool) returns (resp: V3Response)
    ensures fresh(resp) && resp.View() == ParsedSet(status, reply, isCreate)
  {
    resp := new V3Response();
    resp.SetAction(if isCreate then "create" else "set");
    if status.code != 0 {
      resp.SetError(status.code, status.message);
    } else {
      resp.ParseTxn(reply);
      if !reply.succeeded && isCreate {
        resp.SetError(ERROR_KEY_ALREADY_EXISTS, KEY_ALREADY_EXISTS_MESSAGE);
      }
    }
  }

  method ParseUpdate(status: Status, reply: TxnReply) returns (resp: V3Response)
    ensures fresh(resp) && resp.View() == ParsedUpdate(status, reply)
  {
    resp := new V3Response();
    if status.code != 0 {
      resp.SetError(status.code, status.message);
    } else if reply.succeeded {
      resp.ParseTxn(reply);
      resp.SetAction("update");
    } else {
      resp.SetError(ERROR_KEY_NOT_FOUND, KEY_NOT_FOUND_MESSAGE);
    }
  }

  /** `AsyncCompareAndSwapAction::ParseResponse` and `AsyncTxnAction::ParseResponse`. */
  method ParseConditional(action: string, status: Status, reply: TxnReply) returns (resp: V3Response)
    ensures fresh(resp) && resp.View() == ParsedConditional(action, status, reply)
  {
    resp := new V3Response();
    resp.SetAction(action);
    if status.code != 0 {
      resp.SetError(status.code, status.message);
    } else {
      resp.ParseTxn(reply);
      if !reply.succeeded && resp.errorCode == 0 {
        resp.SetError(ERROR_COMPARE_FAILED, COMPARE_FAILED_MESSAGE);
      }
    }
  }

  /** `AsyncCompareAndDeleteAction::ParseResponse`, which would overwrite an earlier error code. */
  method ParseCompareAndDelete(status: Status, reply: TxnReply) returns (resp: V3Response)
    ensures fresh(resp) && resp.View() == ParsedConditional("compareAndDelete", status, reply)
  {
    resp := new V3Response();
    resp.SetAction("compareAndDelete");
    if status.code != 0 {
      resp.SetError(status.code, status.message);
    } else {
      resp.ParseTxn(reply);
      if !reply.succeeded {
        resp.SetError(ERROR_COMPARE_FAILED, COMPARE_FAILED_MESSAGE);
      }
    }
  }

  // ----- the direct operations

  datatype Outcome = Outcome(store: Store, response: ClientResponse)

  function Respond(code: int, message: string, index: int, action: string,
                   value: KeyValue, prevValue: KeyValue, values: seq<KeyValue>): ClientResponse
  {
    ClientResponse(code, message, index, action, ToValue(value), ToValue(prevValue), ToValues(values), ToKeys(values))
  }

  /** The entry `key` has once it is put at the next revision. */
  function Renewed(s: Store, key: bytes, value: bytes, lease: int): KeyValue {
    Written(Lookup(s.kvs, key), key, value, lease, s.revision + 1)
  }

  function PutDirectly(s: Store, key: bytes, value: bytes, lease: int): Store {
    Store(s.revision + 1, Insert(s.kvs, Renewed(s, key, value, lease)))
  }

  function AsList(kv: Option<KeyValue>): seq<KeyValue> {
    match kv case None => [] case Some(x) => [x]
  }

  /** `add`: put the key if it is missing, else return what is there. */
  function AddDirectly(s: Store, key: bytes, value: bytes, lease: int): Outcome {
    match Lookup(s.kvs, key)
    case None =>
      var kv := KeyValue(key, s.revision + 1, s.revision + 1, 1, value, lease);
      Outcome(PutDirectly(s, key, value, lease), Respond(0, "", s.revision + 1, "create", kv, EMPTY_KV, [kv]))
    case Some(current) =>
      Outcome(s, Respond(105, "etcd-cpp-apiv3: key already exists", s.revision, "create", current, EMPTY_KV, [current]))
  }

  /** `AsyncSetAction` without `create`: put the key whatever is there; the new entry is returned only if it is new. */
  function SetDirectly(s: Store, key: bytes, value: bytes, lease: int): Outcome {
    var kv := Renewed(s, key, value, lease);
    Outcome(PutDirectly(s, key, value, lease),
            if Lookup(s.kvs, key).None? then Respond(0, "", s.revision + 1, "set", kv, EMPTY_KV, [kv])
            else Respond(0, "", s.revision + 1, "set", EMPTY_KV, EMPTY_KV, []))
  }

  /** `modify`: put the key if it is there; a refusal carries neither an index nor an action. */
  function ModifyDirectly(s: Store, key: bytes, value: bytes, lease: int): Outcome {
    match Lookup(s.kvs, key)
    case None => Outcome(s, Respond(100, "etcd-cpp-apiv3: key not found", 0, "", EMPTY_KV, EMPTY_KV, []))
    case Some(current) =>
      var kv := KeyValue(key, current.createRevision, s.revision + 1, current.version + 1, value, lease);
      Outcome(PutDirectly(s, key, value, lease), Respond(0, "", s.revision + 1, "update", kv, current, [kv]))
  }

  /** A missing key has no previous value but the previous index 0. */
  predicate Agrees(current: Option<KeyValue>, prev: T.Previous) {
    match prev
    case PREV_VALUE(b) => current.Some? && current.value.value == b
    case PREV_INDEX(r) => (match current case None => r == 0 case Some(kv) => kv.modRevision == r)
  }

  /** `modify_if`: put the key if it agrees; an index of 0 therefore creates a missing key. */
  function ModifyIfDirectly(s: Store, key: bytes, value: bytes, prev: T.Previous, lease: int): Outcome {
    var current := Lookup(s.kvs, key);
    if Agrees(current, prev) then
      var kv := Renewed(s, key, value, lease);
      Outcome(PutDirectly(s, key, value, lease), Respond(0, "", s.revision + 1, "compareAndSwap", kv, EMPTY_KV, [kv]))
    else
      Outcome(s, Respond(101, "etcd-cpp-apiv3: compare failed", s.revision, "compareAndSwap",
                         OrEmpty(current), EMPTY_KV, AsList(current)))
  }

  /** `rm_if`: delete the key if it agrees; with index 0 a missing key counts as removed. */
  function RmIfDirectly(s: Store, key: bytes, prev: T.Previous): Outcome {
    var current := Lookup(s.kvs, key);
    if !Agrees(current, prev) then
      Outcome(s, Respond(101, "etcd-cpp-apiv3: compare failed", s.revision, "compareAndDelete",
                         OrEmpty(current), EMPTY_KV, AsList(current)))
    else if current.None? then
      Outcome(s, Respond(0, "", s.revision, "compareAndDelete", EMPTY_KV, EMPTY_KV, []))
    else
      Outcome(Store(s.revision + 1, Discard(s.kvs, Single(key))),
              Respond(0, "", s.revision + 1, "compareAndDelete", current.value, current.value, [current.value]))
  }

  // ----- build, run and parse equal the direct operation

  lemma RunOne(base: Store, p: Progress, op: RequestOp)
    ensures RunOps(base, p, [op]) == (RunOp(base, p, op).0, [RunOp(base, p, op).1])
  {
    var (p1, r1) := RunOp(base, p, op);
    assert [op][1..] == [] && RunOps(base, p1, []) == (p1, []);
    assert [r1] + [] == [r1];
  }

  lemma RunTwo(base: Store, p: Progress, op1: RequestOp, op2: RequestOp)
    ensures var (p1, r1) := RunOp(base, p, op1);
            var (p2, r2) := RunOp(base, p1, op2);
            RunOps(base, p, [op1, op2]) == (p2, [r1, r2])
  {
    var (p1, r1) := RunOp(base, p, op1);
    assert [op1, op2][1..] == [op2];
    RunOne(base, p1, op2);
    var r2 := RunOp(base, p1, op2).1;
    assert [r1] + [r2] == [r1, r2];
  }

  /** A put followed by a read of the same key, as all conditional puts end. */
  lemma PutThenRead(s: Store, key: bytes, value: bytes, lease: int, prevKv: bool)
    requires Valid(s) && key != []
    ensures var kv := Renewed(s, key, value, lease);
            RunOps(s, Progress(s.kvs, false), [RequestPut(key, value, lease, prevKv), RequestRange(Single(key), 0)])
            == (Progress(Insert(s.kvs, kv), true),
                [ResponsePut(s.revision + 1, if prevKv then Lookup(s.kvs, key) else None),
                 ResponseRange(s.revision + 1, [kv])])
  {
    hide RunOps, Select, Insert;
    var kv := Renewed(s, key, value, lease);
    RunTwo(s, Progress(s.kvs, false), RequestPut(key, value, lease, prevKv), RequestRange(Single(key), 0));
    InsertMembers(s.kvs, kv);
    LookupInsert(s.kvs, kv, key);
    SelectSingle(Insert(s.kvs, kv), key);
  }

  lemma ReadOnly(s: Store, key: bytes)
    requires Valid(s)
    ensures RunOps(s, Progress(s.kvs, false), [RequestRange(Single(key), 0)])
            == (Progress(s.kvs, false), [ResponseRange(s.revision, AsList(Lookup(s.kvs, key)))])
  {
    RunOne(s, Progress(s.kvs, false), RequestRange(Single(key), 0));
    SelectSingle(s.kvs, key);
  }

  lemma GuardHolds(s: Store, key: bytes, prev: T.Previous)
    requires Valid(s)
    ensures AllHold(s.kvs, [T.Guard(key, EQUAL, prev)]) <==> Agrees(Lookup(s.kvs, key), prev)
  {
    SelectSingle(s.kvs, key);
    var guard := T.Guard(key, EQUAL, prev);
    assert AllHold(s.kvs, [guard]) <==> Holds(s.kvs, guard);
    hide AllHold, Select, Lookup;
    match Lookup(s.kvs, key) {
      case None =>
        assert Select(s.kvs, guard.range) == [];
      case Some(kv) =>
        assert Select(s.kvs, guard.range) == [kv];
        HoldsOfOne(s.kvs, guard, kv);
    }
  }

  /** What parsing makes of a reply that holds one result. */
  lemma ParsedOne(p: Parsed, index: int, ok: bool, op: ResponseOp)
    requires p.values == [] && p.prevValues == []
    ensures ParsedTxn(p, TxnReply(index, ok, [op]))
            == p.(index := index, values := ValuesOf(op), value := First(ValuesOf(op), p.value),
                  prevValues := PrevValuesOf(op), prevValue := First(PrevValuesOf(op), p.prevValue))
  {
    AllOfOne(op);
    hide AllValues, AllPrevValues;
  }

  lemma AllOfOne(op: ResponseOp)
    ensures AllValues([op]) == ValuesOf(op) && AllPrevValues([op]) == PrevValuesOf(op)
  {
    assert [op][..0] == [] && AllValues([]) == [] && AllPrevValues([]) == [];
    assert AllValues([op]) == AllValues([]) + ValuesOf(op) == ValuesOf(op);
    assert AllPrevValues([op]) == AllPrevValues([]) + PrevValuesOf(op) == PrevValuesOf(op);
  }

  /** The same for a put and a read. */
  lemma ParsedTwo(p: Parsed, index: int, ok: bool, put: ResponseOp, read: ResponseOp)
    requires p.values == [] && p.prevValues == []
    requires put.ResponsePut? && read.ResponseRange?
    ensures ParsedTxn(p, TxnReply(index, ok, [put, read]))
            == p.(index := index, values := read.kvs, value := First(read.kvs, p.value),
                  prevValues := [OrEmpty(put.prevKv)], prevValue := OrEmpty(put.prevKv))
  {
    assert [put, read][..1] == [put];
    AllOfOne(put);
    assert AllValues([put, read]) == AllValues([put]) + ValuesOf(read) == read.kvs;
    assert AllPrevValues([put, read]) == AllPrevValues([put]) + PrevValuesOf(read) == PrevValuesOf(put);
    hide AllValues, AllPrevValues;
  }

  lemma AddIsDirect(s: Store, key: bytes, value: bytes, lease: int)
    requires Valid(s) && key != []
    ensures var (s', reply) := Apply(s, SetRequest(key, value, lease, true));
            Outcome(s', FromParsed(ParsedSet(OK, reply, true))) == AddDirectly(s, key, value, lease)
  {
    hide RunOps, ParsedTxn, AllHold;
    GuardHolds(s, key, T.PREV_INDEX(0));
    LookupKey(s.kvs, key);
    PutThenRead(s, key, value, lease, false);
    ReadOnly(s, key);
    var p := FRESH.(action := "create");
    ParsedTwo(p, s.revision + 1, true, ResponsePut(s.revision + 1, None),
              ResponseRange(s.revision + 1, [Renewed(s, key, value, lease)]));
    ParsedOne(p, s.revision, false, ResponseRange(s.revision, AsList(Lookup(s.kvs, key))));
  }

  lemma SetIsDirect(s: Store, key: bytes, value: bytes, lease: int)
    requires Valid(s) && key != []
    ensures var (s', reply) := Apply(s, SetRequest(key, value, lease, false));
            Outcome(s', FromParsed(ParsedSet(OK, reply, false))) == SetDirectly(s, key, value, lease)
  {
    hide RunOps, ParsedTxn, AllHold;
    GuardHolds(s, key, T.PREV_INDEX(0));
    LookupKey(s.kvs, key);
    PutThenRead(s, key, value, lease, false);
    RunOne(s, Progress(s.kvs, false), RequestPut(key, value, lease, false));
    var p := FRESH.(action := "set");
    ParsedTwo(p, s.revision + 1, true, ResponsePut(s.revision + 1, None),
              ResponseRange(s.revision + 1, [Renewed(s, key, value, lease)]));
    ParsedOne(p, s.revision + 1, false, ResponsePut(s.revision + 1, None));
  }

  lemma ModifyIsDirect(s: Store, key: bytes, value: bytes, lease: int)
    requires Valid(s) && key != []
    ensures var (s', reply) := Apply(s, UpdateRequest(key, value, lease));
            Outcome(s', FromParsed(ParsedUpdate(OK, reply))) == ModifyDirectly(s, key, value, lease)
  {
    hide RunOps, ParsedTxn;
    SelectSingle(s.kvs, key);
    LookupKey(s.kvs, key);
    var guard := Compare(Single(key), GREATER, Version(0));
    assert AllHold(s.kvs, [guard]) <==> Holds(s.kvs, guard);
    PutThenRead(s, key, value, lease, true);
    ReadOnly(s, key);
    ParsedTwo(FRESH, s.revision + 1, true, ResponsePut(s.revision + 1, Lookup(s.kvs, key)),
              ResponseRange(s.revision + 1, [Renewed(s, key, value, lease)]));
  }

  lemma ModifyIfIsDirect(s: Store, key: bytes, value: bytes, prev: T.Previous, lease: int)
    requires Valid(s) && key != []
    ensures var (s', reply) := Apply(s, SwapRequest(key, value, prev, lease));
            Outcome(s', FromParsed(ParsedConditional("compareAndSwap", OK, reply)))
            == ModifyIfDirectly(s, key, value, prev, lease)
  {
    hide RunOps, ParsedTxn, AllHold;
    GuardHolds(s, key, prev);
    PutThenRead(s, key, value, lease, false);
    ReadOnly(s, key);
    var p := FRESH.(action := "compareAndSwap");
    ParsedTwo(p, s.revision + 1, true, ResponsePut(s.revision + 1, None),
              ResponseRange(s.revision + 1, [Renewed(s, key, value, lease)]));
    ParsedOne(p, s.revision, false, ResponseRange(s.revision, AsList(Lookup(s.kvs, key))));
  }

  lemma RmIfIsDirect(s: Store, key: bytes, prev: T.Previous)
    requires Valid(s) && key != []
    ensures var (s', reply) := Apply(s, CompareDeleteRequest(key, prev));
            Outcome(s', FromParsed(ParsedConditional("compareAndDelete", OK, reply))) == RmIfDirectly(s, key, prev)
  {
    hide RunOps, ParsedTxn, AllHold, Agrees;
    GuardHolds(s, key, prev);
    ReadOnly(s, key);
    var p0, op := Progress(s.kvs, false), RequestDelete(Single(key), true);
    RunOne(s, p0, op);
    SelectSingle(s.kvs, key);
    var p := FRESH.(action := "compareAndDelete");
    ParsedOne(p, s.revision, false, ResponseRange(s.revision, AsList(Lookup(s.kvs, key))));
    ParsedOne(p, RevisionAt(s, Lookup(s.kvs, key).Some?), true, RunOp(s, p0, op).1);
    if Lookup(s.kvs, key).None? {
      LookupKey(s.kvs, key);
      SelectNothing(s.kvs, Single(key));
    }
  }

  /** A conditional write that is refused leaves the store alone and, `modify` apart, shows the current entry. */
  lemma RefusalsShowTheCurrentEntry(s: Store, key: bytes, value: bytes, prev: T.Previous, lease: int)
    requires Valid(s) && key != []
    ensures forall o <- [AddDirectly(s, key, value, lease), ModifyIfDirectly(s, key, value, prev, lease),
                         RmIfDirectly(s, key, prev)] ::
              !o.response.IsOk() ==> o.store == s && o.response.index == s.revision
                                     && o.response.values == ToValues(AsList(Lookup(s.kvs, key)))
                                     && (Lookup(s.kvs, key).Some? ==> o.response.value == ToValue(Lookup(s.kvs, key).value))
    ensures !ModifyDirectly(s, key, value, lease).response.IsOk() ==>
              && ModifyDirectly(s, key, value, lease).store == s && Lookup(s.kvs, key).None?
              && ModifyDirectly(s, key, value, lease).response
                 == Respond(ERROR_KEY_NOT_FOUND, KEY_NOT_FOUND_MESSAGE, 0, "", EMPTY_KV, EMPTY_KV, [])
  {
  }

  /**
   * On a missing key `modify_if` and `rm_if` succeed if and only if they are conditioned on the index 0; then
   * the one creates the key, and the other reports a removal where there was nothing to remove.
   */
  lemma IndexZeroMeansMissing(s: Store, key: bytes, value: bytes, prev: T.Previous, lease: int)
    requires Valid(s) && key != [] && Lookup(s.kvs, key).None?
    ensures ModifyIfDirectly(s, key, value, prev, lease).response.IsOk() <==> prev == T.PREV_INDEX(0)
    ensures RmIfDirectly(s, key, prev).response.IsOk() <==> prev == T.PREV_INDEX(0)
    ensures prev == T.PREV_INDEX(0) ==>
              && Lookup(ModifyIfDirectly(s, key, value, prev, lease).store.kvs, key).Some?
              && RmIfDirectly(s, key, prev).store == s
  {
    LookupInsert(s.kvs, Renewed(s, key, value, lease), key);
  }

  /** A plain transaction whose call went through fails in one way only: its guards did not all hold. */
  lemma TxnReportsCompareFailedExactly(s: Store, req: TxnRequest)
    ensures var r := FromParsed(ParsedConditional("txn", OK, Apply(s, req).1));
            && r.errorCode in {0, ERROR_COMPARE_FAILED}
            && (r.errorCode == ERROR_COMPARE_FAILED <==> !AllHold(s.kvs, req.compare))
            && r.index == Apply(s, req).0.revision
  {
  }
}
