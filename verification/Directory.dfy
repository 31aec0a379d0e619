/**
 * Plain reads and writes: the put, range and delete actions of src/v3/AsyncGRPC.cpp, and what `ls` and
 * `rmdir` mean for the keys below a prefix.
 */
module Directory {
  import opened Bytes
  import opened Ranges
  import opened Store
  import opened Responses
  import opened Actions

  /** A request of its own is applied like a transaction of one operation. */
  function ApplyOp(s: Store, op: RequestOp): (Store, ResponseOp) {
    var (p, response) := RunOp(s, Progress(s.kvs, false), op);
    (Store(RevisionAt(s, p.changed), p.kvs), response)
  }

  /** A single operation leads from a valid store to a valid one, too. */
  lemma ApplyOpValid(s: Store, op: RequestOp)
    requires Valid(s) && WellFormedOp(op)
    ensures Valid(ApplyOp(s, op).0) && (op.RequestRange? ==> ApplyOp(s, op).0 == s)
  {
    RunOpValid(s, Progress(s.kvs, false), op);
  }

  // ----- requests

  /** `AsyncRangeAction`; a caller's limit is an unsigned size narrowed to a 32-bit integer. */
  method RangeAction(key: bytes, rangeEnd: bytes, withPrefix: bool, limit: nat) returns (op: RequestOp)
    requires |key| <= 0x8000_0000
    ensures op == RequestRange(RangesFor(key, rangeEnd, withPrefix), Int32(limit))
  {
    var req := new RangedRequest();
    MakeRequestWithRanges(req, key, rangeEnd, withPrefix);
    op := RequestRange(Range(req.key, req.rangeEnd), Int32(limit));
  }

  /** `AsyncDeleteAction`, which always asks for the removed entries. */
  method DeleteAction(key: bytes, rangeEnd: bytes, withPrefix: bool) returns (op: RequestOp)
    requires |key| <= 0x8000_0000
    ensures op == RequestDelete(RangesFor(key, rangeEnd, withPrefix), true)
  {
    var req := new RangedRequest();
    MakeRequestWithRanges(req, key, rangeEnd, withPrefix);
    op := RequestDelete(Range(req.key, req.rangeEnd), true);
  }

  // ----- parsing

  function ParsedRangeAction(status: Status, reply: ResponseOp, several: bool): Parsed
    requires reply.ResponseRange?
  {
    var p := FRESH.(action := "get");
    if status.code != 0 then p.(errorCode := status.code, errorMessage := status.message)
    else ParsedRange(p, reply.revision, reply.kvs, several)
  }

  function ParsedDeleteAction(status: Status, reply: ResponseOp): Parsed
    requires reply.ResponseDelete?
  {
    var p := FRESH.(action := "delete");
    if status.code != 0 then p.(errorCode := status.code, errorMessage := status.message)
    else ParsedDelete(p, reply.revision, reply.prevKvs)
  }

  function ParsedPutAction(status: Status, reply: ResponseOp): Parsed
    requires reply.ResponsePut?
  {
    var p := FRESH.(action := "set");
    if status.code != 0 then p.(errorCode := status.code, errorMessage := status.message)
    else ParsedPut(p, reply.revision, reply.prevKv)
  }

  method ParseRangeAction(status: Status, reply: ResponseOp, withPrefix: bool, rangeEnd: bytes)
    returns (resp: V3Response)
    requires reply.ResponseRange?
    ensures fresh(resp) && resp.View() == ParsedRangeAction(status, reply, withPrefix || rangeEnd != [])
  {
    resp := new V3Response();
    resp.SetAction("get");
    if status.code != 0 {
      resp.SetError(status.code, status.message);
    } else {
      resp.ParseRange(reply.revision, reply.kvs, withPrefix || rangeEnd != []);
    }
  }

  method ParseDeleteAction(status: Status, reply: ResponseOp) returns (resp: V3Response)
    requires reply.ResponseDelete?
    ensures fresh(resp) && resp.View() == ParsedDeleteAction(status, reply)
  {
    resp := new V3Response();
    resp.SetAction("delete");
    if status.code != 0 {
      resp.SetError(status.code, status.message);
    } else {
      resp.ParseDelete(reply.revision, reply.prevKvs);
    }
  }

  method ParsePutAction(status: Status, reply: ResponseOp) returns (resp: V3Response)
    requires reply.ResponsePut?
    ensures fresh(resp) && resp.View() == ParsedPutAction(status, reply)
  {
    resp := new V3Response();
    resp.SetAction("set");
    if status.code != 0 {
      resp.SetError(status.code, status.message);
    } else {
      resp.ParsePut(reply.revision, reply.prevKv);
    }
  }

  // ----- the direct operations

  /** `put`: write the key; the response carries the previous entry but not the new one. */
  function PutOutcome(s: Store, key: bytes, value: bytes, lease: int): Outcome {
    Outcome(PutDirectly(s, key, value, lease),
            Respond(0, "", s.revision + 1, "set", EMPTY_KV, OrEmpty(Lookup(s.kvs, key)), []))
  }

  /** `get`: the entry of the key, as value but not among the values. */
  function GetOutcome(s: Store, key: bytes): Outcome {
    Outcome(s, match Lookup(s.kvs, key)
               case None => Respond(100, "etcd-cpp-apiv3: key not found", s.revision, "get", EMPTY_KV, EMPTY_KV, [])
               case Some(kv) => Respond(0, "", s.revision, "get", kv, EMPTY_KV, []))
  }

  function Under(kvs: seq<KeyValue>, prefix: bytes): seq<KeyValue> {
    if kvs == [] then [] else (if prefix <= kvs[0].key then [kvs[0]] else []) + Under(kvs[1..], prefix)
  }

  function Outside(kvs: seq<KeyValue>, prefix: bytes): seq<KeyValue> {
    if kvs == [] then [] else (if prefix <= kvs[0].key then [] else [kvs[0]]) + Outside(kvs[1..], prefix)
  }

  /** `ls`: the entries below the prefix in key order, all of them when the narrowed limit is not positive. */
  function LsOutcome(s: Store, prefix: bytes, limit: nat): Outcome {
    var listing := Limited(Under(s.kvs, prefix), Int32(limit));
    Outcome(s, Respond(0, "", s.revision, "get", First(listing, EMPTY_KV), EMPTY_KV, listing))
  }

  /** `ls` of an explicit range; a missing key is no error here. */
  function LsRangeOutcome(s: Store, key: bytes, rangeEnd: bytes, limit: nat): Outcome {
    var listing := Limited(Select(s.kvs, RangesFor(key, rangeEnd, false)), Int32(limit));
    Outcome(s, Respond(0, "", s.revision, "get", First(listing, EMPTY_KV), EMPTY_KV, listing))
  }

  /** What a delete answers when it removed `gone`. */
  function RemovalOutcome(s: Store, kept: seq<KeyValue>, gone: seq<KeyValue>): Outcome {
    if gone == [] then
      Outcome(s, Respond(100, "etcd-cpp-apiv3: key not found", s.revision, "delete", EMPTY_KV, EMPTY_KV, []))
    else
      Outcome(Store(s.revision + 1, kept), Respond(0, "", s.revision + 1, "delete", gone[0], gone[0], gone))
  }

  /** `rmdir(prefix, true)`. */
  function RmdirOutcome(s: Store, prefix: bytes): Outcome {
    RemovalOutcome(s, Outside(s.kvs, prefix), Under(s.kvs, prefix))
  }

  /** `rm(key)`. */
  function RmOutcome(s: Store, key: bytes): Outcome {
    RemovalOutcome(s, Discard(s.kvs, Single(key)), AsList(Lookup(s.kvs, key)))
  }

  lemma {:induction false} SelectUnder(kvs: seq<KeyValue>, prefix: bytes)
    requires forall kv <- kvs :: kv.key != []
    ensures Select(kvs, RangesFor(prefix, [], true)) == Under(kvs, prefix)
    ensures Discard(kvs, RangesFor(prefix, [], true)) == Outside(kvs, prefix)
  {
    if kvs != [] {
      assert kvs[0] in kvs;
      PrefixSelectionIsExact(prefix, kvs[0].key);
      SelectUnder(kvs[1..], prefix);
    }
  }

  lemma PutIsDirect(s: Store, key: bytes, value: bytes, lease: int)
    ensures var (s', reply) := ApplyOp(s, RequestPut(key, value, lease, true));
            Outcome(s', FromParsed(ParsedPutAction(OK, reply))) == PutOutcome(s, key, value, lease)
  {
  }

  lemma GetIsDirect(s: Store, key: bytes, limit: nat)
    requires Valid(s)
    ensures var (s', reply) := ApplyOp(s, RequestRange(RangesFor(key, [], false), Int32(limit)));
            Outcome(s', FromParsed(ParsedRangeAction(OK, reply, false))) == GetOutcome(s, key)
  {
    SelectSingle(s.kvs, key);
  }

  lemma LsIsDirect(s: Store, prefix: bytes, limit: nat)
    requires Valid(s)
    ensures var (s', reply) := ApplyOp(s, RequestRange(RangesFor(prefix, [], true), Int32(limit)));
            Outcome(s', FromParsed(ParsedRangeAction(OK, reply, true))) == LsOutcome(s, prefix, limit)
  {
    SelectUnder(s.kvs, prefix);
    var listing := Limited(Under(s.kvs, prefix), Int32(limit));
    assert [] + listing == listing;
  }

  lemma LsRangeIsDirect(s: Store, key: bytes, rangeEnd: bytes, limit: nat)
    requires Valid(s)
    ensures var (s', reply) := ApplyOp(s, RequestRange(RangesFor(key, rangeEnd, false), Int32(limit)));
            Outcome(s', FromParsed(ParsedRangeAction(OK, reply, rangeEnd != [])))
            == if rangeEnd == [] then GetOutcome(s, key) else LsRangeOutcome(s, key, rangeEnd, limit)
  {
    var listing := Limited(Select(s.kvs, RangesFor(key, rangeEnd, false)), Int32(limit));
    assert [] + listing == listing;
    if rangeEnd == [] {
      SelectSingle(s.kvs, key);
    }
  }

  /** A delete of any range answers with what it removed and removes nothing else. */
  lemma DeleteIsRemoval(s: Store, range: Range)
    requires Valid(s)
    ensures var (s', reply) := ApplyOp(s, RequestDelete(range, true));
            Outcome(s', FromParsed(ParsedDeleteAction(OK, reply)))
            == RemovalOutcome(s, Discard(s.kvs, range), Select(s.kvs, range))
  {
    var gone := Select(s.kvs, range);
    assert [] + gone == gone;
    if gone == [] {
      SelectMembers(s.kvs, range);
      forall kv | kv in s.kvs ensures !Selects(range, kv.key) {
        assert kv !in gone;
      }
      SelectNothing(s.kvs, range);
    }
  }

  lemma RmdirIsDirect(s: Store, prefix: bytes)
    requires Valid(s)
    ensures var (s', reply) := ApplyOp(s, RequestDelete(RangesFor(prefix, [], true), true));
            Outcome(s', FromParsed(ParsedDeleteAction(OK, reply))) == RmdirOutcome(s, prefix)
  {
    DeleteIsRemoval(s, RangesFor(prefix, [], true));
    SelectUnder(s.kvs, prefix);
  }

  lemma RmIsDirect(s: Store, key: bytes)
    requires Valid(s)
    ensures var (s', reply) := ApplyOp(s, RequestDelete(RangesFor(key, [], false), true));
            Outcome(s', FromParsed(ParsedDeleteAction(OK, reply))) == RmOutcome(s, key)
  {
    DeleteIsRemoval(s, Single(key));
    SelectSingle(s.kvs, key);
  }

  // ----- conservation

  lemma {:induction false} NothingLost(kvs: seq<KeyValue>, prefix: bytes)
    ensures multiset(Under(kvs, prefix)) + multiset(Outside(kvs, prefix)) == multiset(kvs)
  {
    if kvs != [] {
      NothingLost(kvs[1..], prefix);
      assert kvs == [kvs[0]] + kvs[1..];
    }
  }

  lemma {:induction false} OutsideIsOutside(kvs: seq<KeyValue>, prefix: bytes)
    ensures Under(Outside(kvs, prefix), prefix) == []
    ensures Under(kvs, prefix) == [] ==> Outside(kvs, prefix) == kvs
  {
    if kvs != [] {
      OutsideIsOutside(kvs[1..], prefix);
      var rest := Outside(kvs[1..], prefix);
      assert ([kvs[0]] + rest)[1..] == rest && [] + rest == rest;
    }
  }

  lemma {:induction false} LookupOutside(kvs: seq<KeyValue>, prefix: bytes, key: bytes)
    ensures Lookup(Outside(kvs, prefix), key) == if prefix <= key then None else Lookup(kvs, key)
  {
    if kvs != [] {
      LookupOutside(kvs[1..], prefix, key);
      var rest := Outside(kvs[1..], prefix);
      assert ([kvs[0]] + rest)[1..] == rest && [] + rest == rest;
    }
  }

  /**
   * Recursive rmdir conserves: it removes and returns, in order, exactly the entries an unlimited `ls`
   * of the prefix lists; it reports "key not found" if and only if that listing is empty; no other key
   * is touched; nothing appears or disappears besides; and a following `ls` is empty and ok.
   */
  lemma RmdirConserves(s: Store, prefix: bytes)
    requires Valid(s)
    ensures var listing, removal := LsOutcome(s, prefix, 0).response, RmdirOutcome(s, prefix);
            var s' := removal.store;
            && removal.response.values == listing.values && removal.response.keys == listing.keys
            && removal.response.errorCode == (if listing.values == [] then ERROR_KEY_NOT_FOUND else 0)
            && s'.revision == s.revision + (if listing.values == [] then 0 else 1)
            && (forall key :: Lookup(s'.kvs, key) == if prefix <= key then None else Lookup(s.kvs, key))
            && multiset(s.kvs) == multiset(s'.kvs) + multiset(Under(s.kvs, prefix))
            && LsOutcome(s', prefix, 0).response.IsOk() && LsOutcome(s', prefix, 0).response.values == []
  {
    NothingLost(s.kvs, prefix);
    OutsideIsOutside(s.kvs, prefix);
    forall key ensures Lookup(Outside(s.kvs, prefix), key) == if prefix <= key then None else Lookup(s.kvs, key) {
      LookupOutside(s.kvs, prefix, key);
    }
  }

  /**
   * `ls` with a limit lists as many entries as the limit allows if and only if the limit survives the
   * narrowing to 32 bits or the directory is small enough not to notice.
   */
  lemma LimitIsKeptExactly(s: Store, prefix: bytes, limit: nat)
    requires 0 < limit
    ensures var all, narrow := |Under(s.kvs, prefix)|, Int32(limit);
            |LsOutcome(s, prefix, limit).response.values| == (if limit < all then limit else all)
            <==> narrow == limit || all <= (if 0 < narrow then narrow else limit)
  {
  }

  /** A limit of 2^32 is narrowed to 0 and so lists everything. */
  lemma HugeLimitIsNoLimit(s: Store, prefix: bytes)
    ensures LsOutcome(s, prefix, 0x1_0000_0000) == LsOutcome(s, prefix, 0)
  {
  }
}
