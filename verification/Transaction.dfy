/** The transaction builder (src/v3/Transaction.cpp). */
module Transaction {
  import opened Bytes
  import opened Ranges
  import opened Store

  const EMPTY_REQUEST := TxnRequest([], [], [])

  function Extended(req: TxnRequest, compare: seq<Compare>, success: seq<RequestOp>, failure: seq<RequestOp>)
    : TxnRequest
  {
    TxnRequest(req.compare + compare, req.success + success, req.failure + failure)
  }

  /** What the `setup_compare_*` builders make of a fresh transaction. */
  function Conditional(guard: Compare, op: RequestOp, key: bytes): TxnRequest {
    TxnRequest([guard], [op], [RequestRange(Single(key), 0)])
  }

  /** What a builder's additions make of a transaction that is still empty. */
  lemma FreshIsConditional(guard: Compare, op: RequestOp, key: bytes)
    ensures Extended(EMPTY_REQUEST, [guard], [op], [RequestRange(Single(key), 0)]) == Conditional(guard, op, key)
  {
  }

  /** What a conditional write is conditioned on (`AtomicityType`, etcd/v3/Action.hpp:25). */
  datatype Previous = PREV_VALUE(value: bytes) | PREV_INDEX(revision: int)

  function Guard(key: bytes, result: CompareResult, prev: Previous): Compare {
    Compare(Single(key), result, match prev case PREV_VALUE(b) => Value(b) case PREV_INDEX(r) => Mod(r))
  }

  class Transaction {
    var compare: seq<Compare>
    var success: seq<RequestOp>
    var failure: seq<RequestOp>

    function Request(): TxnRequest
      reads this
    {
      TxnRequest(compare, success, failure)
    }

    constructor ()
      ensures Request() == EMPTY_REQUEST
    {
      compare, success, failure := [], [], [];
    }

    // ----- guards

    method AddCompare(key: bytes, target: Target, result: CompareResult, rangeEnd: bytes := [])
      modifies this
      ensures Request() == Extended(old(Request()), [Compare(Range(key, rangeEnd), result, target)], [], [])
    {
      match target {
        case Version(v) => AddCompareVersion(key, result, v, rangeEnd);
        case Create(v) => AddCompareCreate(key, result, v, rangeEnd);
        case Mod(v) => AddCompareMod(key, result, v, rangeEnd);
        case Value(b) => AddCompareValue(key, result, b, rangeEnd);
        case Lease(v) => AddCompareLease(key, result, v, rangeEnd);
      }
    }

    method AddCompareVersion(key: bytes, result: CompareResult, version: int, rangeEnd: bytes := [])
      modifies this
      ensures Request() == Extended(old(Request()), [Compare(Range(key, rangeEnd), result, Version(version))], [], [])
    {
      compare := compare + [Compare(Range(key, rangeEnd), result, Version(version))];
      assert success == old(success) + [] && failure == old(failure) + [];
    }

    method AddCompareCreate(key: bytes, result: CompareResult, revision: int, rangeEnd: bytes := [])
      modifies this
      ensures Request() == Extended(old(Request()), [Compare(Range(key, rangeEnd), result, Create(revision))], [], [])
    {
      compare := compare + [Compare(Range(key, rangeEnd), result, Create(revision))];
      assert success == old(success) + [] && failure == old(failure) + [];
    }

    method AddCompareMod(key: bytes, result: CompareResult, revision: int, rangeEnd: bytes := [])
      modifies this
      ensures Request() == Extended(old(Request()), [Compare(Range(key, rangeEnd), result, Mod(revision))], [], [])
    {
      compare := compare + [Compare(Range(key, rangeEnd), result, Mod(revision))];
      assert success == old(success) + [] && failure == old(failure) + [];
    }

    method AddCompareValue(key: bytes, result: CompareResult, value: bytes, rangeEnd: bytes := [])
      modifies this
      ensures Request() == Extended(old(Request()), [Compare(Range(key, rangeEnd), result, Value(value))], [], [])
    {
      compare := compare + [Compare(Range(key, rangeEnd), result, Value(value))];
      assert success == old(success) + [] && failure == old(failure) + [];
    }

    method AddCompareLease(key: bytes, result: CompareResult, lease: int, rangeEnd: bytes := [])
      modifies this
      ensures Request() == Extended(old(Request()), [Compare(Range(key, rangeEnd), result, Lease(lease))], [], [])
    {
      compare := compare + [Compare(Range(key, rangeEnd), result, Lease(lease))];
      assert success == old(success) + [] && failure == old(failure) + [];
    }

    // ----- operations

    method AddSuccessRange(key: bytes, rangeEnd: bytes := [], recursive: bool := false, limit: int := 0)
      requires |key| <= 0x8000_0000
      modifies this
      ensures Request() == Extended(old(Request()), [], [RequestRange(RangesFor(key, rangeEnd, recursive), limit)], [])
    {
      var req := new RangedRequest();
      MakeRequestWithRanges(req, key, rangeEnd, recursive);
      success := success + [RequestRange(Range(req.key, req.rangeEnd), limit)];
      assert compare == old(compare) + [] && failure == old(failure) + [];
    }

    method AddSuccessPut(key: bytes, value: bytes, lease: int := 0, prevKv: bool := false)
      modifies this
      ensures Request() == Extended(old(Request()), [], [RequestPut(key, value, lease, prevKv)], [])
    {
      success := success + [RequestPut(key, value, lease, prevKv)];
      assert compare == old(compare) + [] && failure == old(failure) + [];
    }

    method AddSuccessDelete(key: bytes, rangeEnd: bytes := [], recursive: bool := false, prevKv: bool := false)
      requires |key| <= 0x8000_0000
      modifies this
      ensures Request() == Extended(old(Request()), [], [RequestDelete(RangesFor(key, rangeEnd, recursive), prevKv)], [])
    {
      var req := new RangedRequest();
      MakeRequestWithRanges(req, key, rangeEnd, recursive);
      success := success + [RequestDelete(Range(req.key, req.rangeEnd), prevKv)];
      assert compare == old(compare) + [] && failure == old(failure) + [];
    }

    method AddSuccessTxn(txn: Transaction)
      requires txn != this
      modifies this
      ensures Request() == Extended(old(Request()), [], [RequestTxn(txn.Request())], [])
    {
      success := success + [RequestTxn(TxnRequest(txn.compare, txn.success, txn.failure))];
      assert compare == old(compare) + [] && failure == old(failure) + [];
    }

    method AddFailureRange(key: bytes, rangeEnd: bytes := [], recursive: bool := false, limit: int := 0)
      requires |key| <= 0x8000_0000
      modifies this
      ensures Request() == Extended(old(Request()), [], [], [RequestRange(RangesFor(key, rangeEnd, recursive), limit)])
    {
      var req := new RangedRequest();
      MakeRequestWithRanges(req, key, rangeEnd, recursive);
      failure := failure + [RequestRange(Range(req.key, req.rangeEnd), limit)];
      assert compare == old(compare) + [] && success == old(success) + [];
    }

    method AddFailurePut(key: bytes, value: bytes, lease: int := 0, prevKv: bool := false)
      modifies this
      ensures Request() == Extended(old(Request()), [], [], [RequestPut(key, value, lease, prevKv)])
    {
      failure := failure + [RequestPut(key, value, lease, prevKv)];
      assert compare == old(compare) + [] && success == old(success) + [];
    }

    method AddFailureDelete(key: bytes, rangeEnd: bytes := [], recursive: bool := false, prevKv: bool := false)
      requires |key| <= 0x8000_0000
      modifies this
      ensures Request() == Extended(old(Request()), [], [], [RequestDelete(RangesFor(key, rangeEnd, recursive), prevKv)])
    {
      var req := new RangedRequest();
      MakeRequestWithRanges(req, key, rangeEnd, recursive);
      failure := failure + [RequestDelete(Range(req.key, req.rangeEnd), prevKv)];
      assert compare == old(compare) + [] && success == old(success) + [];
    }

    method AddFailureTxn(txn: Transaction)
      requires txn != this
      modifies this
      ensures Request() == Extended(old(Request()), [], [], [RequestTxn(txn.Request())])
    {
      failure := failure + [RequestTxn(TxnRequest(txn.compare, txn.success, txn.failure))];
      assert compare == old(compare) + [] && success == old(success) + [];
    }

    // ----- conditional writes; each builder exists for a previous value and for a previous revision

    method SetupCompareAndCreate(key: bytes, prev: Previous, createKey: bytes, value: bytes, lease: int := 0)
      requires |key| <= 0x8000_0000
      modifies this
      ensures Request() == Extended(old(Request()), [Guard(key, EQUAL, prev)],
                                    [RequestPut(createKey, value, lease, false)], [RequestRange(Single(key), 0)])
    {
      match prev {
        case PREV_VALUE(b) => AddCompareValue(key, EQUAL, b);
        case PREV_INDEX(r) => AddCompareMod(key, EQUAL, r);
      }
      AddSuccessPut(createKey, value, lease);
      AddFailureRange(key);
    }

    method SetupCompareAndSwap(key: bytes, prev: Previous, value: bytes, lease: int := 0)
      requires |key| <= 0x8000_0000
      modifies this
      ensures Request() == Extended(old(Request()), [Guard(key, EQUAL, prev)],
                                    [RequestPut(key, value, lease, false)], [RequestRange(Single(key), 0)])
    {
      match prev {
        case PREV_VALUE(b) => AddCompareValue(key, EQUAL, b);
        case PREV_INDEX(r) => AddCompareMod(key, EQUAL, r);
      }
      AddSuccessPut(key, value, lease);
      AddFailureRange(key);
    }

    method SetupCompareAndDelete(key: bytes, prev: Previous, deleteKey: bytes, rangeEnd: bytes := [],
                               recursive: bool := false)
      requires |key| <= 0x8000_0000 && |deleteKey| <= 0x8000_0000
      modifies this
      ensures Request() == Extended(old(Request()), [Guard(key, EQUAL, prev)],
                                    [RequestDelete(RangesFor(deleteKey, rangeEnd, recursive), true)],
                                    [RequestRange(Single(key), 0)])
    {
      match prev {
        case PREV_VALUE(b) => AddCompareValue(key, EQUAL, b);
        case PREV_INDEX(r) => AddCompareMod(key, EQUAL, r);
      }
      AddSuccessDelete(deleteKey, rangeEnd, recursive, true);
      AddFailureRange(key);
    }

    method SetupCompareOrCreate(key: bytes, prev: Previous, createKey: bytes, value: bytes, lease: int := 0)
      requires |key| <= 0x8000_0000
      modifies this
      ensures Request() == Extended(old(Request()), [Guard(key, NOT_EQUAL, prev)],
                                    [RequestPut(createKey, value, lease, false)], [RequestRange(Single(key), 0)])
    {
      match prev {
        case PREV_VALUE(b) => AddCompareValue(key, NOT_EQUAL, b);
        case PREV_INDEX(r) => AddCompareMod(key, NOT_EQUAL, r);
      }
      AddSuccessPut(createKey, value, lease);
      AddFailureRange(key);
    }

    method SetupCompareOrSwap(key: bytes, prev: Previous, value: bytes, lease: int := 0)
      requires |key| <= 0x8000_0000
      modifies this
      ensures Request() == Extended(old(Request()), [Guard(key, NOT_EQUAL, prev)],
                                    [RequestPut(key, value, lease, false)], [RequestRange(Single(key), 0)])
    {
      match prev {
        case PREV_VALUE(b) => AddCompareValue(key, NOT_EQUAL, b);
        case PREV_INDEX(r) => AddCompareMod(key, NOT_EQUAL, r);
      }
      AddSuccessPut(key, value, lease);
      AddFailureRange(key);
    }

    method SetupCompareOrDelete(key: bytes, prev: Previous, deleteKey: bytes, rangeEnd: bytes := [],
                               recursive: bool := false)
      requires |key| <= 0x8000_0000 && |deleteKey| <= 0x8000_0000
      modifies this
      ensures Request() == Extended(old(Request()), [Guard(key, NOT_EQUAL, prev)],
                                    [RequestDelete(RangesFor(deleteKey, rangeEnd, recursive), true)],
                                    [RequestRange(Single(key), 0)])
    {
      match prev {
        case PREV_VALUE(b) => AddCompareValue(key, NOT_EQUAL, b);
        case PREV_INDEX(r) => AddCompareMod(key, NOT_EQUAL, r);
      }
      AddSuccessDelete(deleteKey, rangeEnd, recursive, true);
      AddFailureRange(key);
    }
  }
}
