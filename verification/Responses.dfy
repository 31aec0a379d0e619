/**
 * Folding replies back: the `ParseResponse` functions of src/v3/AsyncGRPC.cpp and the
 * `Response` constructor of src/Response.cpp.
 */
module Responses {
  import opened Bytes
  import opened Ranges
  import opened Store

  const ERROR_KEY_NOT_FOUND := 100
  const ERROR_COMPARE_FAILED := 101
  const ERROR_KEY_ALREADY_EXISTS := 105

  const KEY_NOT_FOUND_MESSAGE := "etcd-cpp-apiv3: key not found"
  const COMPARE_FAILED_MESSAGE := "etcd-cpp-apiv3: compare failed"
  const KEY_ALREADY_EXISTS_MESSAGE := "etcd-cpp-apiv3: key already exists"

  /** The fields of a `V3Response` that the key-value actions use. */
  datatype Parsed = Parsed(errorCode: int, errorMessage: string, index: int, action: string,
                           value: KeyValue, prevValue: KeyValue,
                           values: seq<KeyValue>, prevValues: seq<KeyValue>)

  const FRESH := Parsed(0, "", 0, "", EMPTY_KV, EMPTY_KV, [], [])

  // ----- what the parsers are to compute

  function First(kvs: seq<KeyValue>, otherwise: KeyValue): KeyValue {
    if kvs == [] then otherwise else kvs[0]
  }

  function ParsedDelete(p: Parsed, revision: int, prevKvs: seq<KeyValue>): Parsed {
    if prevKvs == [] then
      p.(index := revision, errorCode := ERROR_KEY_NOT_FOUND, errorMessage := KEY_NOT_FOUND_MESSAGE)
    else
      p.(index := revision, values := p.values + prevKvs, prevValues := p.prevValues + prevKvs,
         value := (p.values + prevKvs)[0], prevValue := (p.prevValues + prevKvs)[0])
  }

  function OrEmpty(kv: Option<KeyValue>): KeyValue {
    match kv case None => EMPTY_KV case Some(x) => x
  }

  function ParsedPut(p: Parsed, revision: int, prevKv: Option<KeyValue>): Parsed {
    p.(index := revision, prevValues := p.prevValues + [OrEmpty(prevKv)], prevValue := OrEmpty(prevKv))
  }

  function ParsedRange(p: Parsed, revision: int, kvs: seq<KeyValue>, prefix: bool): Parsed {
    if prefix then p.(index := revision, values := p.values + kvs)
    else if kvs == [] then
      p.(index := revision, errorCode := ERROR_KEY_NOT_FOUND, errorMessage := KEY_NOT_FOUND_MESSAGE)
    else p.(index := revision, value := (p.values + kvs)[0], values := [])
  }

  function ValuesOf(op: ResponseOp): seq<KeyValue> {
    match op
    case ResponseRange(_, kvs) => kvs
    case ResponseDelete(_, prevKvs) => prevKvs
    case _ => []
  }

  function PrevValuesOf(op: ResponseOp): seq<KeyValue> {
    match op
    case ResponsePut(_, prevKv) => [OrEmpty(prevKv)]
    case ResponseDelete(_, prevKvs) => prevKvs
    case _ => []
  }

  function AllValues(ops: seq<ResponseOp>): seq<KeyValue> {
    if ops == [] then [] else AllValues(ops[..|ops| - 1]) + ValuesOf(ops[|ops| - 1])
  }

  function AllPrevValues(ops: seq<ResponseOp>): seq<KeyValue> {
    if ops == [] then [] else AllPrevValues(ops[..|ops| - 1]) + PrevValuesOf(ops[|ops| - 1])
  }

  /** Results are joined in order; whatever is nested inside, no error arises from the reply itself. */
  function ParsedTxn(p: Parsed, reply: TxnReply): Parsed {
    var values := p.values + AllValues(reply.responses);
    var prevValues := p.prevValues + AllPrevValues(reply.responses);
    p.(index := reply.revision, values := values, prevValues := prevValues,
       value := First(values, p.value), prevValue := First(prevValues, p.prevValue))
  }

  // ----- the parsers

  class V3Response {
    var errorCode: int
    var errorMessage: string
    var index: int
    var action: string
    var value: KeyValue
    var prevValue: KeyValue
    var values: seq<KeyValue>
    var prevValues: seq<KeyValue>

    function View(): Parsed
      reads this
    {
      Parsed(errorCode, errorMessage, index, action, value, prevValue, values, prevValues)
    }

    constructor ()
      ensures View() == FRESH
    {
      errorCode, errorMessage, index, action := 0, "", 0, "";
      value, prevValue, values, prevValues := EMPTY_KV, EMPTY_KV, [], [];
    }

    method SetError(code: int, message: string)
      modifies this`errorCode, this`errorMessage
      ensures View() == old(View()).(errorCode := code, errorMessage := message)
    {
      errorCode, errorMessage := code, message;
    }

    method SetAction(a: string)
      modifies this`action
      ensures View() == old(View()).(action := a)
    {
      action := a;
    }

    method ParseDelete(revision: int, prevKvs: seq<KeyValue>)
      modifies this
      ensures View() == ParsedDelete(old(View()), revision, prevKvs)
    {
      index := revision;
      if |prevKvs| == 0 {
        SetError(ERROR_KEY_NOT_FOUND, KEY_NOT_FOUND_MESSAGE);
      } else {
        for i := 0 to |prevKvs|
          invariant View() == old(View()).(index := revision, values := old(values) + prevKvs[..i],
                                           prevValues := old(prevValues) + prevKvs[..i])
        {
          values := values + [prevKvs[i]];
          prevValues := prevValues + [prevKvs[i]];
        }
        assert prevKvs[..|prevKvs|] == prevKvs;
        if values != [] {
          value := values[0];
        }
        if prevValues != [] {
          prevValue := prevValues[0];
        }
      }
    }

    method ParsePut(revision: int, prevKv: Option<KeyValue>)
      modifies this
      ensures View() == ParsedPut(old(View()), revision, prevKv)
    {
      index := revision;
      var kv := OrEmpty(prevKv);
      prevValues := prevValues + [kv];
      prevValue := kv;
    }

    method ParseRange(revision: int, kvs: seq<KeyValue>, prefix: bool)
      modifies this
      ensures View() == ParsedRange(old(View()), revision, kvs, prefix)
    {
      index := revision;
      if |kvs| == 0 && !prefix {
        SetError(ERROR_KEY_NOT_FOUND, KEY_NOT_FOUND_MESSAGE);
        return;
      } else {
        for i := 0 to |kvs|
          invariant View() == old(View()).(index := revision, values := old(values) + kvs[..i])
        {
          values := values + [kvs[i]];
        }
        assert kvs[..|kvs|] == kvs;
        if !prefix {
          value := values[0];
          values := [];
        }
      }
    }

    /** Appends the results of a nested response, as every branch of the transaction parser does. */
    method Absorb(response: V3Response)
      requires response != this
      modifies this`values, this`prevValues
      ensures values == old(values) + response.values && prevValues == old(prevValues) + response.prevValues
    {
      for i := 0 to |response.values|
        invariant values == old(values) + response.values[..i] && prevValues == old(prevValues)
      {
        values := values + [response.values[i]];
      }
      assert response.values[..|response.values|] == response.values;
      for i := 0 to |response.prevValues|
        invariant values == old(values) + response.values
        invariant prevValues == old(prevValues) + response.prevValues[..i]
      {
        prevValues := prevValues + [response.prevValues[i]];
      }
      assert response.prevValues[..|response.prevValues|] == response.prevValues;
    }

    method AbsorbError(response: V3Response)
      requires response != this
      modifies this`errorCode, this`errorMessage
      ensures errorCode == if old(errorCode) == 0 then response.errorCode else old(errorCode)
      ensures errorMessage == old(errorMessage)
                              + (if response.errorMessage == "" then ""
                                 else (if old(errorMessage) == "" then "" else "\n") + response.errorMessage)
    {
      if errorCode == 0 {
        errorCode := response.errorCode;
      }
      if response.errorMessage != "" {
        if errorMessage != "" {
          errorMessage := errorMessage + "\n";
        }
        errorMessage := errorMessage + response.errorMessage;
      }
    }

    /** "Key not found" of a delete inside a transaction is no error. */
    method AbsorbDeleteError(response: V3Response)
      requires response != this
      modifies this`errorCode, this`errorMessage
      ensures response.errorCode in {0, ERROR_KEY_NOT_FOUND} ==> unchanged(this)
      ensures response.errorCode !in {0, ERROR_KEY_NOT_FOUND} ==>
                && errorCode == response.errorCode
                && errorMessage == old(errorMessage)
                                   + (if response.errorMessage == "" then ""
                                      else (if old(errorMessage) == "" then "" else "\n") + response.errorMessage)
    {
      if response.errorCode != 0 && response.errorCode != ERROR_KEY_NOT_FOUND {
        errorCode := response.errorCode;
      }
      if response.errorMessage != "" {
        if response.errorCode != 0 && response.errorCode != ERROR_KEY_NOT_FOUND {
          if errorMessage != "" {
            errorMessage := errorMessage + "\n";
          }
          errorMessage := errorMessage + response.errorMessage;
        }
      }
    }

    /** One element of a transaction reply. */
    method ParseOp(resp: ResponseOp)
      modifies this
      ensures View() == old(View()).(values := old(values) + ValuesOf(resp),
                                     prevValues := old(prevValues) + PrevValuesOf(resp))
      decreases resp, 0
    {
      hide AllValues, AllPrevValues, First;
      var response := new V3Response();
      match resp {
        case ResponseRange(revision, kvs) =>
          response.ParseRange(revision, kvs, true);
          AbsorbError(response);
          Absorb(response);
        case ResponsePut(revision, prevKv) =>
          response.ParsePut(revision, prevKv);
          AbsorbError(response);
          Absorb(response);
        case ResponseDelete(revision, prevKvs) =>
          response.ParseDelete(revision, prevKvs);
          AbsorbDeleteError(response);
          Absorb(response);
        case ResponseTxn(txn) =>
          response.ParseTxn(txn);
          AbsorbError(response);
          // nested results are skipped
        case NotSet =>
      }
    }

    method ParseTxn(reply: TxnReply)
      modifies this
      ensures View() == ParsedTxn(old(View()), reply)
      decreases reply, 1
    {
      index := reply.revision;
      var ops := reply.responses;
      for i := 0 to |ops|
        invariant View() == old(View()).(index := reply.revision, values := old(values) + AllValues(ops[..i]),
                                         prevValues := old(prevValues) + AllPrevValues(ops[..i]))
      {
        assert ops[i] in reply.responses;
        ParseOp(ops[i]);
        AllValuesSnoc(ops, i, old(values), old(prevValues));
      }
      assert ops[..|ops|] == ops;
      if values != [] {
        value := values[0];
      }
      if prevValues != [] {
        prevValue := prevValues[0];
      }
    }
  }

  lemma AllValuesSnoc(ops: seq<ResponseOp>, i: nat, values: seq<KeyValue>, prevValues: seq<KeyValue>)
    requires i < |ops|
    ensures values + AllValues(ops[..i]) + ValuesOf(ops[i]) == values + AllValues(ops[..i + 1])
    ensures prevValues + AllPrevValues(ops[..i]) + PrevValuesOf(ops[i]) == prevValues + AllPrevValues(ops[..i + 1])
  {
    assert ops[..i + 1][..i] == ops[..i];
  }

  // ----- the response handed to the caller

  /** The fields of `etcd::Value` that come from the store. */
  datatype ClientValue = ClientValue(key: bytes, value: bytes, created: int, modified: int, version: int, lease: int)

  function ToValue(kv: KeyValue): ClientValue {
    ClientValue(kv.key, kv.value, kv.createRevision, kv.modRevision, kv.version, kv.lease)
  }

  datatype ClientResponse = ClientResponse(errorCode: int, errorMessage: string, index: int, action: string,
                                           value: ClientValue, prevValue: ClientValue,
                                           values: seq<ClientValue>, keys: seq<bytes>)
  {
    predicate IsOk() {
      errorCode == 0
    }
  }

  function ToValues(kvs: seq<KeyValue>): seq<ClientValue> {
    seq(|kvs|, i requires 0 <= i < |kvs| => ToValue(kvs[i]))
  }

  function ToKeys(kvs: seq<KeyValue>): seq<bytes> {
    seq(|kvs|, i requires 0 <= i < |kvs| => kvs[i].key)
  }

  function FromParsed(p: Parsed): ClientResponse {
    ClientResponse(p.errorCode, p.errorMessage, p.index, p.action,
                   ToValue(First(p.values, p.value)), ToValue(p.prevValue), ToValues(p.values), ToKeys(p.values))
  }

  class Response {
    var errorCode: int
    var errorMessage: string
    var index: int
    var action: string
    var value: ClientValue
    var prevValue: ClientValue
    var values: seq<ClientValue>
    var keys: seq<bytes>

    function View(): ClientResponse
      reads this
    {
      ClientResponse(errorCode, errorMessage, index, action, value, prevValue, values, keys)
    }

    constructor (reply: V3Response)
      ensures View() == FromParsed(reply.View())
    {
      index := reply.index;
      action := reply.action;
      errorCode := reply.errorCode;
      errorMessage := reply.errorMessage;
      values, keys := [], [];
      value := ToValue(reply.value);
      prevValue := ToValue(reply.prevValue);
      new;
      if reply.values != [] {
        var val := reply.values;
        for i := 0 to |val|
          invariant values == ToValues(val[..i]) && keys == ToKeys(val[..i])
          invariant index == reply.index && action == reply.action
          invariant errorCode == reply.errorCode && errorMessage == reply.errorMessage
          invariant prevValue == ToValue(reply.prevValue)
        {
          values := values + [ToValue(val[i])];
          keys := keys + [val[i].key];
        }
        assert val[..|val|] == val;
        value := ToValue(reply.values[0]);
      }
    }
  }

  // ----- properties

  /**
   * However deeply a transaction reply is nested, parsing it raises no error. The results of the
   * n-th operation sit in the response right behind those of the operations before it, and
   * `keys()[i]` is the key of `values()[i]`.
   */
  lemma TxnParsing(reply: TxnReply, n: nat)
    requires n < |reply.responses|
    ensures var r := FromParsed(ParsedTxn(FRESH, reply));
            && r.errorCode == 0 && r.errorMessage == "" && r.index == reply.revision
            && |r.keys| == |r.values| && (forall i :: 0 <= i < |r.keys| ==> r.keys[i] == r.values[i].key)
            && r.value == (if r.values == [] then ToValue(EMPTY_KV) else r.values[0])
            && SitsAt(r.values, |AllValues(reply.responses[..n])|, ToValues(ValuesOf(reply.responses[n])))
  {
    TxnParsingIsClean(reply);
    ResultsSit(reply, n);
    hide *;
  }

  lemma ResultsSit(reply: TxnReply, n: nat)
    requires n < |reply.responses|
    ensures SitsAt(FromParsed(ParsedTxn(FRESH, reply)).values, |AllValues(reply.responses[..n])|,
                   ToValues(ValuesOf(reply.responses[n])))
  {
    var all, start := AllValues(reply.responses), |AllValues(reply.responses[..n])|;
    ResultsInOrder(reply.responses, n);
    ToValuesSlice(all, start, |ValuesOf(reply.responses[n])|);
    ValuesOfParsed(reply);
    hide AllValues, AllPrevValues, ParsedTxn, FromParsed, ValuesOf;
  }

  lemma ValuesOfParsed(reply: TxnReply)
    ensures FromParsed(ParsedTxn(FRESH, reply)).values == ToValues(AllValues(reply.responses))
  {
    hide AllValues, AllPrevValues;
    assert FRESH.values + AllValues(reply.responses) == AllValues(reply.responses);
  }

  /** No error, the right index and keys in step with values: this holds for a reply without operations, too. */
  lemma TxnParsingIsClean(reply: TxnReply)
    ensures var r := FromParsed(ParsedTxn(FRESH, reply));
            && r.errorCode == 0 && r.errorMessage == "" && r.index == reply.revision
            && |r.keys| == |r.values| && (forall i :: 0 <= i < |r.keys| ==> r.keys[i] == r.values[i].key)
            && r.value == (if r.values == [] then ToValue(EMPTY_KV) else r.values[0])
            && |r.values| == |AllValues(reply.responses)|
            && (reply.responses == [] ==> r.values == [])
  {
    assert reply.responses == [] ==> AllValues(reply.responses) == [];
    hide AllValues, AllPrevValues;
    assert FRESH.values + AllValues(reply.responses) == AllValues(reply.responses);
  }

  /** The same for previous values; a put always leaves one, unset unless it was asked for. */
  lemma TxnParsingPrev(reply: TxnReply, n: nat)
    requires n < |reply.responses|
    ensures var p := ParsedTxn(FRESH, reply);
            && SitsAt(p.prevValues, |AllPrevValues(reply.responses[..n])|, PrevValuesOf(reply.responses[n]))
            && p.prevValue == if p.prevValues == [] then EMPTY_KV else p.prevValues[0]
  {
    PrevResultsInOrder(reply.responses, n);
    hide AllValues, AllPrevValues, PrevValuesOf;
    assert FRESH.prevValues + AllPrevValues(reply.responses) == AllPrevValues(reply.responses);
  }

  predicate SitsAt<T(==)>(whole: seq<T>, start: nat, part: seq<T>) {
    start + |part| <= |whole| && whole[start..start + |part|] == part
  }

  lemma ToValuesSlice(kvs: seq<KeyValue>, start: nat, len: nat)
    requires start + len <= |kvs|
    ensures ToValues(kvs)[start..start + len] == ToValues(kvs[start..start + len])
  {
  }

  lemma ResultsInOrder(ops: seq<ResponseOp>, n: nat)
    requires n < |ops|
    ensures var (start, len) := (|AllValues(ops[..n])|, |ValuesOf(ops[n])|);
            start + len <= |AllValues(ops)| && AllValues(ops)[start..start + len] == ValuesOf(ops[n])
  {
    var upTo := ops[..n + 1];
    assert upTo[..n] == ops[..n] && upTo + ops[n + 1..] == ops;
    AllValuesConcat(upTo, ops[n + 1..]);
  }

  lemma PrevResultsInOrder(ops: seq<ResponseOp>, n: nat)
    requires n < |ops|
    ensures var (start, len) := (|AllPrevValues(ops[..n])|, |PrevValuesOf(ops[n])|);
            start + len <= |AllPrevValues(ops)| && AllPrevValues(ops)[start..start + len] == PrevValuesOf(ops[n])
  {
    var upTo := ops[..n + 1];
    assert upTo[..n] == ops[..n] && upTo + ops[n + 1..] == ops;
    AllPrevValuesConcat(upTo, ops[n + 1..]);
  }

  /** A nested transaction contributes nothing to what the caller sees, whatever it contains. */
  lemma NestedLeavesNoTrace(p: Parsed, reply: TxnReply, n: nat)
    requires n < |reply.responses| && reply.responses[n].ResponseTxn?
    ensures ParsedTxn(p, reply) == ParsedTxn(p, reply.(responses := reply.responses[n := NotSet]))
  {
    var ops := reply.responses;
    AllValuesAround(ops, n, NotSet);
    AllPrevValuesAround(ops, n, NotSet);
    hide AllValues, AllPrevValues;
  }

  lemma Around(ops: seq<ResponseOp>, n: nat, op: ResponseOp)
    requires n < |ops|
    ensures ops[n := op] == ops[..n] + ([op] + ops[n + 1..])
    ensures ops == ops[..n] + ([ops[n]] + ops[n + 1..])
  {
  }

  lemma AllValuesAround(ops: seq<ResponseOp>, n: nat, op: ResponseOp)
    requires n < |ops| && ValuesOf(op) == ValuesOf(ops[n])
    ensures AllValues(ops[n := op]) == AllValues(ops)
  {
    Around(ops, n, op);
    forall x | x in {op, ops[n]} ensures AllValues([x] + ops[n + 1..]) == ValuesOf(op) + AllValues(ops[n + 1..]) {
      AllValuesConcat([x], ops[n + 1..]);
      assert [x][..0] == [] && AllValues([x]) == ValuesOf(x);
    }
    hide AllValues;
    AllValuesConcat(ops[..n], [op] + ops[n + 1..]);
    AllValuesConcat(ops[..n], [ops[n]] + ops[n + 1..]);
  }

  lemma AllPrevValuesAround(ops: seq<ResponseOp>, n: nat, op: ResponseOp)
    requires n < |ops| && PrevValuesOf(op) == PrevValuesOf(ops[n])
    ensures AllPrevValues(ops[n := op]) == AllPrevValues(ops)
  {
    Around(ops, n, op);
    var rest := ops[n + 1..];
    forall x | x in {op, ops[n]} ensures AllPrevValues([x] + rest) == PrevValuesOf(op) + AllPrevValues(rest) {
      AllPrevValuesConcat([x], ops[n + 1..]);
      assert [x][..0] == [] && AllPrevValues([x]) == PrevValuesOf(x);
    }
    hide AllPrevValues;
    AllPrevValuesConcat(ops[..n], [op] + ops[n + 1..]);
    AllPrevValuesConcat(ops[..n], [ops[n]] + ops[n + 1..]);
  }

  lemma {:induction false} AllValuesConcat(a: seq<ResponseOp>, b: seq<ResponseOp>)
    ensures AllValues(a + b) == AllValues(a) + AllValues(b)
  {
    if b == [] {
      assert a + b == a;
    } else {
      var init, last := b[..|b| - 1], b[|b| - 1];
      assert (a + b)[..|a + b| - 1] == a + init && (a + b)[|a + b| - 1] == last;
      assert AllValues(a + b) == AllValues(a + init) + ValuesOf(last);
      assert AllValues(b) == AllValues(init) + ValuesOf(last);
      AllValuesConcat(a, init);
      hide *;
      Regroup(AllValues(a), AllValues(init), ValuesOf(last));
    }
  }

  lemma {:induction false} AllPrevValuesConcat(a: seq<ResponseOp>, b: seq<ResponseOp>)
    ensures AllPrevValues(a + b) == AllPrevValues(a) + AllPrevValues(b)
  {
    if b == [] {
      assert a + b == a;
    } else {
      var init, last := b[..|b| - 1], b[|b| - 1];
      assert (a + b)[..|a + b| - 1] == a + init && (a + b)[|a + b| - 1] == last;
      assert AllPrevValues(a + b) == AllPrevValues(a + init) + PrevValuesOf(last);
      assert AllPrevValues(b) == AllPrevValues(init) + PrevValuesOf(last);
      AllPrevValuesConcat(a, init);
      hide *;
      Regroup(AllPrevValues(a), AllPrevValues(init), PrevValuesOf(last));
    }
  }

  lemma Regroup(a: seq<KeyValue>, b: seq<KeyValue>, c: seq<KeyValue>)
    ensures (a + b) + c == a + (b + c)
  {
  }
}
