/** The `setup_compare_and_*` and `setup_compare_or_*` transactions (src/v3/Transaction.cpp:229-343). */
module Conditionals {
  import opened Bytes
  import opened Ranges
  import opened Store
  import T = Transaction
  import opened Responses
  import opened Actions

  /** The six builders; each takes a previous value or a previous revision. */
  datatype Builder = AndCreate | OrCreate | AndSwap | OrSwap | AndDelete | OrDelete

  function ResultOf(b: Builder): CompareResult {
    if b in {AndCreate, AndSwap, AndDelete} then EQUAL else NOT_EQUAL
  }

  /** The one operation: `other` is the key to create or to delete. */
  function OpOf(b: Builder, key: bytes, other: bytes, value: bytes, lease: int, rangeEnd: bytes, recursive: bool): RequestOp
  {
    match b
    case AndCreate => RequestPut(other, value, lease, false)
    case OrCreate => RequestPut(other, value, lease, false)
    case AndSwap => RequestPut(key, value, lease, false)
    case OrSwap => RequestPut(key, value, lease, false)
    case AndDelete => RequestDelete(RangesFor(other, rangeEnd, recursive), true)
    case OrDelete => RequestDelete(RangesFor(other, rangeEnd, recursive), true)
  }

  /** Each builder, called on a fresh transaction, makes a request of one guard and one operation. */
  method BuildFresh(b: Builder, key: bytes, prev: T.Previous, other: bytes, value: bytes, lease: int,
                    rangeEnd: bytes, recursive: bool)
    returns (txn: T.Transaction)
    requires |key| <= 0x8000_0000 && |other| <= 0x8000_0000
    ensures fresh(txn)
    ensures txn.Request() == T.Conditional(T.Guard(key, ResultOf(b), prev),
                                           OpOf(b, key, other, value, lease, rangeEnd, recursive), key)
  {
    txn := new T.Transaction();
    match b {
      case AndCreate => txn.SetupCompareAndCreate(key, prev, other, value, lease);
      case OrCreate => txn.SetupCompareOrCreate(key, prev, other, value, lease);
      case AndSwap => txn.SetupCompareAndSwap(key, prev, value, lease);
      case OrSwap => txn.SetupCompareOrSwap(key, prev, value, lease);
      case AndDelete => txn.SetupCompareAndDelete(key, prev, other, rangeEnd, recursive);
      case OrDelete => txn.SetupCompareOrDelete(key, prev, other, rangeEnd, recursive);
    }
    T.FreshIsConditional(T.Guard(key, ResultOf(b), prev), OpOf(b, key, other, value, lease, rangeEnd, recursive), key);
  }

  /** The guard of a builder, read off the one entry it looks at. */
  predicate Passes(current: Option<KeyValue>, result: CompareResult, prev: T.Previous) {
    match prev
    case PREV_VALUE(b) => current.Some? && CompareBytes(result, current.value.value, b)
    case PREV_INDEX(r) => CompareInt(result, OrEmpty(current).modRevision, r)
  }

  lemma GuardPasses(s: Store, key: bytes, result: CompareResult, prev: T.Previous)
    requires Valid(s)
    ensures AllHold(s.kvs, [T.Guard(key, result, prev)]) <==> Passes(Lookup(s.kvs, key), result, prev)
  {
    SelectSingle(s.kvs, key);
    var guard := T.Guard(key, result, prev);
    assert AllHold(s.kvs, [guard]) <==> Holds(s.kvs, guard);
    hide AllHold, Select, Lookup, CompareBytes;
    match Lookup(s.kvs, key) {
      case None =>
        assert Select(s.kvs, guard.range) == [];
      case Some(kv) =>
        assert Select(s.kvs, guard.range) == [kv];
        HoldsOfOne(s.kvs, guard, kv);
    }
  }

  /**
   * A conditional transaction does its one operation when the guard passes; otherwise it changes
   * nothing and reports the current entry of the guarded key, if there is one.
   */
  lemma ConditionalRun(s: Store, key: bytes, result: CompareResult, prev: T.Previous, op: RequestOp)
    requires Valid(s) && WellFormedOp(op)
    ensures var (s', reply) := Apply(s, T.Conditional(T.Guard(key, result, prev), op, key));
            var r := FromParsed(ParsedConditional("txn", OK, reply));
            var (p, opReply) := RunOp(s, Progress(s.kvs, false), op);
            if Passes(Lookup(s.kvs, key), result, prev)
            then s' == Store(RevisionAt(s, p.changed), p.kvs)
                 && r.errorCode == 0 && r.values == ToValues(ValuesOf(opReply))
            else s' == s && r == Respond(101, "etcd-cpp-apiv3: compare failed", s.revision, "txn",
                                         OrEmpty(Lookup(s.kvs, key)), EMPTY_KV, AsList(Lookup(s.kvs, key)))
  {
    GuardPasses(s, key, result, prev);
    RunOne(s, Progress(s.kvs, false), op);
    ReadOnly(s, key);
    var (p, opReply) := RunOp(s, Progress(s.kvs, false), op);
    var blank := FRESH.(action := "txn");
    ParsedOne(blank, RevisionAt(s, p.changed), true, opReply);
    ParsedOne(blank, s.revision, false, ResponseRange(s.revision, AsList(Lookup(s.kvs, key))));
  }

  /**
   * "Compare, or do it if failed": the `or` builder acts exactly when its `and` twin does not, if and
   * only if the guard is on a revision or the guarded key exists.
   */
  lemma OrIsElseOfAnd(s: Store, key: bytes, prev: T.Previous)
    requires Valid(s)
    ensures (AllHold(s.kvs, [T.Guard(key, NOT_EQUAL, prev)]) <==> !AllHold(s.kvs, [T.Guard(key, EQUAL, prev)]))
            <==> prev.PREV_INDEX? || Lookup(s.kvs, key).Some?
  {
    GuardPasses(s, key, EQUAL, prev);
    GuardPasses(s, key, NOT_EQUAL, prev);
  }

  /** On an empty store neither `setup_compare_and_swap` nor `setup_compare_or_swap` by value writes anything. */
  lemma OrByValueSkipsMissingKeys()
    ensures var empty := Store(1, []);
            var (key, swap) := ([107], RequestPut([107], [50], 0, false));
            && Apply(empty, T.Conditional(T.Guard(key, EQUAL, T.PREV_VALUE([49])), swap, key)).0 == empty
            && Apply(empty, T.Conditional(T.Guard(key, NOT_EQUAL, T.PREV_VALUE([49])), swap, key)).0 == empty
  {
    var empty := Store(1, []);
    ConditionalRun(empty, [107], EQUAL, T.PREV_VALUE([49]), RequestPut([107], [50], 0, false));
    ConditionalRun(empty, [107], NOT_EQUAL, T.PREV_VALUE([49]), RequestPut([107], [50], 0, false));
  }

  /**
   * `setup_compare_and_swap` on a value, run as a plain transaction: a success writes the key and
   * returns no value, a failure returns the current entry.
   */
  lemma SwapTxn(s: Store, key: bytes, prev: T.Previous, value: bytes, lease: int)
    requires Valid(s) && key != []
    ensures var put := RequestPut(key, value, lease, false);
            var (s', reply) := Apply(s, T.Conditional(T.Guard(key, EQUAL, prev), put, key));
            var r := FromParsed(ParsedConditional("txn", OK, reply));
            && Valid(s')
            && (r.IsOk() <==> Agrees(Lookup(s.kvs, key), prev))
            && (r.IsOk() ==> s' == PutDirectly(s, key, value, lease))
            && (!r.IsOk() ==> s' == s && r.value == ToValue(OrEmpty(Lookup(s.kvs, key))))
  {
    var op := RequestPut(key, value, lease, false);
    ConditionalRun(s, key, EQUAL, prev, op);
    ApplyValid(s, T.Conditional(T.Guard(key, EQUAL, prev), op, key));
  }
}
