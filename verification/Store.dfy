/**
 * The reference store: what an etcd server does with the requests this client sends
 * (proto/rpc.proto, proto/kv.proto). Entries are kept in key order.
 */
module Store {
  import opened Bytes
  import opened Ranges

  datatype KeyValue = KeyValue(key: bytes, createRevision: int, modRevision: int, version: int,
                               value: bytes, lease: int)

  /** An unset protobuf `KeyValue`. */
  const EMPTY_KV := KeyValue([], 0, 0, 0, [], 0)

  datatype Store = Store(revision: int, kvs: seq<KeyValue>)

  /** A store a server can be in: non-empty keys in order, each last written at a revision it has reached. */
  ghost predicate Valid(s: Store) {
    && 0 <= s.revision
    && (forall kv <- s.kvs :: kv.key != [] && 0 < kv.createRevision <= kv.modRevision <= s.revision && 0 < kv.version)
    && Ordered(s.kvs)
  }

  ghost predicate Ordered(kvs: seq<KeyValue>) {
    forall i, j :: 0 <= i < j < |kvs| ==> Less(kvs[i].key, kvs[j].key)
  }

  // ----- reading and writing entries

  function Lookup(kvs: seq<KeyValue>, key: bytes): Option<KeyValue> {
    if kvs == [] then None
    else if kvs[0].key == key then Some(kvs[0])
    else Lookup(kvs[1..], key)
  }

  function Insert(kvs: seq<KeyValue>, kv: KeyValue): seq<KeyValue> {
    if kvs == [] || Less(kv.key, kvs[0].key) then [kv] + kvs
    else if kv.key == kvs[0].key then [kv] + kvs[1..]
    else [kvs[0]] + Insert(kvs[1..], kv)
  }

  /** The entries a range selects, in key order. */
  function Select(kvs: seq<KeyValue>, r: Range): seq<KeyValue> {
    if kvs == [] then []
    else (if Selects(r, kvs[0].key) then [kvs[0]] else []) + Select(kvs[1..], r)
  }

  function Discard(kvs: seq<KeyValue>, r: Range): seq<KeyValue> {
    if kvs == [] then []
    else (if Selects(r, kvs[0].key) then [] else [kvs[0]]) + Discard(kvs[1..], r)
  }

  /** The entry that a put at `revision` leaves behind (proto/kv.proto:12-29). */
  function Written(prev: Option<KeyValue>, key: bytes, value: bytes, lease: int, revision: int): KeyValue {
    match prev
    case None => KeyValue(key, revision, revision, 1, value, lease)
    case Some(kv) => KeyValue(key, kv.createRevision, revision, kv.version + 1, value, lease)
  }

  // ----- transactions

  datatype CompareResult = EQUAL | GREATER | LESS | NOT_EQUAL

  datatype Target = Version(v: int) | Create(v: int) | Mod(v: int) | Value(b: bytes) | Lease(v: int)

  datatype Compare = Compare(range: Range, result: CompareResult, target: Target)

  datatype RequestOp =
    | RequestRange(range: Range, limit: int)
    | RequestPut(key: bytes, value: bytes, lease: int, prevKv: bool)
    | RequestDelete(range: Range, prevKv: bool)
    | RequestTxn(txn: TxnRequest)

  datatype TxnRequest = TxnRequest(compare: seq<Compare>, success: seq<RequestOp>, failure: seq<RequestOp>)

  datatype ResponseOp =
    | NotSet
    | ResponseRange(revision: int, kvs: seq<KeyValue>)
    | ResponsePut(revision: int, prevKv: Option<KeyValue>)
    | ResponseDelete(revision: int, prevKvs: seq<KeyValue>)
    | ResponseTxn(txn: TxnReply)

  datatype TxnReply = TxnReply(revision: int, succeeded: bool, responses: seq<ResponseOp>)

  predicate CompareInt(result: CompareResult, actual: int, wanted: int) {
    match result
    case EQUAL => actual == wanted
    case GREATER => actual > wanted
    case LESS => actual < wanted
    case NOT_EQUAL => actual != wanted
  }

  predicate CompareBytes(result: CompareResult, actual: bytes, wanted: bytes) {
    match result
    case EQUAL => actual == wanted
    case GREATER => Less(wanted, actual)
    case LESS => Less(actual, wanted)
    case NOT_EQUAL => actual != wanted
  }

  predicate Matches(c: Compare, kv: KeyValue) {
    match c.target
    case Version(v) => CompareInt(c.result, kv.version, v)
    case Create(v) => CompareInt(c.result, kv.createRevision, v)
    case Mod(v) => CompareInt(c.result, kv.modRevision, v)
    case Value(b) => CompareBytes(c.result, kv.value, b)
    case Lease(v) => CompareInt(c.result, kv.lease, v)
  }

  /** A missing key compares as an entry of zeros, except that a value compare on it fails. */
  predicate Holds(kvs: seq<KeyValue>, c: Compare) {
    var selected := Select(kvs, c.range);
    if selected == [] then !c.target.Value? && Matches(c, EMPTY_KV)
    else forall kv <- selected :: Matches(c, kv)
  }

  lemma HoldsOfOne(kvs: seq<KeyValue>, c: Compare, kv: KeyValue)
    requires Select(kvs, c.range) == [kv]
    ensures Holds(kvs, c) <==> Matches(c, kv)
  {
    hide Select, Matches;
    assert kv in [kv];
  }

  predicate AllHold(kvs: seq<KeyValue>, cs: seq<Compare>) {
    forall c <- cs :: Holds(kvs, c)
  }

  /** A transaction under way: the entries so far and whether anything has been changed. */
  datatype Progress = Progress(kvs: seq<KeyValue>, changed: bool)

  function RevisionAt(base: Store, changed: bool): int {
    if changed then base.revision + 1 else base.revision
  }

  /**
   * Guards are judged on the store the outermost transaction started from; operations run in order.
   * All changes of one outermost transaction happen at the one revision after `base`.
   */
  function RunTxn(base: Store, p: Progress, req: TxnRequest): (r: (Progress, TxnReply))
    decreases req
  {
    var ok := AllHold(base.kvs, req.compare);
    var (p', responses) := RunOps(base, p, if ok then req.success else req.failure);
    (p', TxnReply(RevisionAt(base, p'.changed), ok, responses))
  }

  function RunOps(base: Store, p: Progress, ops: seq<RequestOp>): (r: (Progress, seq<ResponseOp>))
    decreases ops
  {
    if ops == [] then (p, [])
    else
      var (p1, response) := RunOp(base, p, ops[0]);
      var (p2, responses) := RunOps(base, p1, ops[1..]);
      (p2, [response] + responses)
  }

  function Limited(kvs: seq<KeyValue>, limit: int): seq<KeyValue> {
    if 0 < limit < |kvs| then kvs[..limit] else kvs
  }

  function RunOp(base: Store, p: Progress, op: RequestOp): (r: (Progress, ResponseOp))
    decreases op
  {
    match op
    case RequestRange(range, limit) =>
      (p, ResponseRange(RevisionAt(base, p.changed), Limited(Select(p.kvs, range), limit)))
    case RequestPut(key, value, lease, prevKv) =>
      var prev := Lookup(p.kvs, key);
      (Progress(Insert(p.kvs, Written(prev, key, value, lease, base.revision + 1)), true),
       ResponsePut(base.revision + 1, if prevKv then prev else None))
    case RequestDelete(range, prevKv) =>
      var gone := Select(p.kvs, range);
      var changed := p.changed || gone != [];
      (Progress(Discard(p.kvs, range), changed),
       ResponseDelete(RevisionAt(base, changed), if prevKv then gone else []))
    case RequestTxn(txn) =>
      var (p', reply) := RunTxn(base, p, txn);
      (p', ResponseTxn(reply))
  }

  /** One request, applied atomically. */
  function Apply(s: Store, req: TxnRequest): (r: (Store, TxnReply)) {
    var (p, reply) := RunTxn(s, Progress(s.kvs, false), req);
    (Store(RevisionAt(s, p.changed), p.kvs), reply)
  }

  // ----- lemmas on entries

  lemma {:induction false} LookupKey(kvs: seq<KeyValue>, key: bytes)
    ensures Lookup(kvs, key).Some? ==> Lookup(kvs, key).value in kvs && Lookup(kvs, key).value.key == key
    ensures Lookup(kvs, key).None? <==> forall kv <- kvs :: kv.key != key
  {
    if kvs != [] {
      LookupKey(kvs[1..], key);
      assert kvs == [kvs[0]] + kvs[1..];
    }
  }

  lemma {:induction false} LookupInsert(kvs: seq<KeyValue>, kv: KeyValue, key: bytes)
    ensures Lookup(Insert(kvs, kv), key) == if key == kv.key then Some(kv) else Lookup(kvs, key)
  {
    if kvs == [] || Less(kv.key, kvs[0].key) {
    } else if kv.key == kvs[0].key {
    } else {
      LookupInsert(kvs[1..], kv, key);
    }
  }

  lemma {:induction false} LookupDiscard(kvs: seq<KeyValue>, r: Range, key: bytes)
    ensures Lookup(Discard(kvs, r), key) == if Selects(r, key) then None else Lookup(kvs, key)
  {
    if kvs != [] {
      LookupDiscard(kvs[1..], r, key);
      var rest := Discard(kvs[1..], r);
      assert ([kvs[0]] + rest)[1..] == rest && [] + rest == rest;
    }
  }

  lemma {:induction false} InsertMembers(kvs: seq<KeyValue>, kv: KeyValue)
    requires Ordered(kvs)
    ensures Ordered(Insert(kvs, kv))
    ensures forall x <- Insert(kvs, kv) :: x == kv || x in kvs
  {
    if kvs == [] {
    } else if Less(kv.key, kvs[0].key) {
      forall j | 0 <= j < |kvs| ensures Less(kv.key, kvs[j].key) {
        if j > 0 { Transitive(kv.key, kvs[0].key, kvs[j].key); }
      }
    } else if kv.key == kvs[0].key {
    } else {
      Total(kv.key, kvs[0].key);
      InsertMembers(kvs[1..], kv);
      var rest := Insert(kvs[1..], kv);
      forall x | x in rest ensures Less(kvs[0].key, x.key) {
        assert x == kv || x in kvs[1..];
      }
    }
  }

  lemma {:induction false} DiscardMembers(kvs: seq<KeyValue>, r: Range)
    requires Ordered(kvs)
    ensures Ordered(Discard(kvs, r))
    ensures forall x :: x in Discard(kvs, r) <==> x in kvs && !Selects(r, x.key)
  {
    if kvs != [] {
      DiscardMembers(kvs[1..], r);
      assert kvs == [kvs[0]] + kvs[1..];
    }
  }

  lemma {:induction false} SelectMembers(kvs: seq<KeyValue>, r: Range)
    ensures forall x :: x in Select(kvs, r) <==> x in kvs && Selects(r, x.key)
  {
    if kvs != [] {
      SelectMembers(kvs[1..], r);
      assert kvs == [kvs[0]] + kvs[1..];
    }
  }

  lemma {:induction false} SelectNothing(kvs: seq<KeyValue>, r: Range)
    requires forall x <- kvs :: !Selects(r, x.key)
    ensures Select(kvs, r) == [] && Discard(kvs, r) == kvs
  {
    if kvs != [] {
      SelectNothing(kvs[1..], r);
      assert kvs == [kvs[0]] + kvs[1..];
    }
  }

  function Single(key: bytes): Range {
    Range(key, [])
  }

  /** In an ordered store a plain request finds the one entry of its key. */
  lemma {:induction false} SelectSingle(kvs: seq<KeyValue>, key: bytes)
    requires Ordered(kvs)
    ensures Select(kvs, Single(key)) == match Lookup(kvs, key) case None => [] case Some(kv) => [kv]
  {
    if kvs != [] {
      if kvs[0].key == key {
        forall x | x in kvs[1..] ensures x.key != key {
          Irreflexive(key);
        }
        SelectNothing(kvs[1..], Single(key));
      } else {
        SelectSingle(kvs[1..], key);
      }
    }
  }

  // ----- what every transaction keeps

  ghost predicate ValidProgress(base: Store, p: Progress) {
    Valid(base) && Valid(Store(base.revision + 1, p.kvs)) && (!p.changed ==> p.kvs == base.kvs)
  }

  lemma {:induction false} RunTxnValid(base: Store, p: Progress, req: TxnRequest)
    requires ValidProgress(base, p) && WellFormed(req)
    ensures ValidProgress(base, RunTxn(base, p, req).0)
    ensures p.changed ==> RunTxn(base, p, req).0.changed
    decreases req
  {
    RunOpsValid(base, p, if AllHold(base.kvs, req.compare) then req.success else req.failure);
  }

  lemma {:induction false} RunOpsValid(base: Store, p: Progress, ops: seq<RequestOp>)
    requires ValidProgress(base, p) && forall op <- ops :: WellFormedOp(op)
    ensures ValidProgress(base, RunOps(base, p, ops).0)
    ensures p.changed ==> RunOps(base, p, ops).0.changed
    decreases ops
  {
    if ops != [] {
      RunOpValid(base, p, ops[0]);
      RunOpsValid(base, RunOp(base, p, ops[0]).0, ops[1..]);
    }
  }

  lemma {:induction false} RunOpValid(base: Store, p: Progress, op: RequestOp)
    requires ValidProgress(base, p) && WellFormedOp(op)
    ensures ValidProgress(base, RunOp(base, p, op).0)
    ensures p.changed ==> RunOp(base, p, op).0.changed
    decreases op
  {
    match op {
      case RequestRange(_, _) =>
      case RequestPut(key, value, lease, _) =>
        LookupKey(p.kvs, key);
        InsertMembers(p.kvs, Written(Lookup(p.kvs, key), key, value, lease, base.revision + 1));
      case RequestDelete(range, _) =>
        DiscardMembers(p.kvs, range);
        SelectMembers(p.kvs, range);
        if Select(p.kvs, range) == [] {
          forall x | x in p.kvs ensures !Selects(range, x.key) {
            assert x !in Select(p.kvs, range);
          }
          SelectNothing(p.kvs, range);
        }
      case RequestTxn(txn) =>
        RunTxnValid(base, p, txn);
    }
  }

  /** Keys to be written are never empty (proto/kv.proto:13); a server refuses other requests. */
  predicate WellFormed(req: TxnRequest)
    decreases req
  {
    (forall op <- req.success :: WellFormedOp(op)) && (forall op <- req.failure :: WellFormedOp(op))
  }

  predicate WellFormedOp(op: RequestOp)
    decreases op
  {
    match op
    case RequestPut(key, _, _, _) => key != []
    case RequestTxn(txn) => WellFormed(txn)
    case _ => true
  }

  /** Every transaction leads from a valid store to a valid one, and never lowers its revision. */
  lemma ApplyValid(s: Store, req: TxnRequest)
    requires Valid(s) && WellFormed(req)
    ensures Valid(Apply(s, req).0)
    ensures s.revision <= Apply(s, req).0.revision == Apply(s, req).1.revision <= s.revision + 1
    ensures Apply(s, req).0.revision == s.revision ==> Apply(s, req).0 == s
  {
    RunTxnValid(s, Progress(s.kvs, false), req);
  }
}
