/**
 * What the caller of a key-value operation is shown, field by field, against the entries of the store
 * (src/Value.cpp:10-30, src/Response.cpp:31-47, proto/kv.proto:12-29).
 */
module Answers {
  import opened Bytes
  import opened Ranges
  import opened Store
  import T = Transaction
  import opened Responses
  import opened Actions
  import opened Directory
  import opened IndexGuard

  /** A value handed to the caller shows an entry. */
  predicate Shows(v: ClientValue, kv: KeyValue) {
    && v.key == kv.key && v.value == kv.value
    && v.created == kv.createRevision && v.modified == kv.modRevision
    && v.version == kv.version && v.lease == kv.lease
  }

  predicate ShowsNothing(v: ClientValue) {
    v.key == [] && v.value == [] && v.created == 0 && v.modified == 0 && v.version == 0 && v.lease == 0
  }

  predicate ShowsIfAny(v: ClientValue, kv: Option<KeyValue>) {
    match kv case None => ShowsNothing(v) case Some(x) => Shows(v, x)
  }

  /** The list shows just this entry, if there is one. */
  predicate ListsIfAny(r: ClientResponse, kv: Option<KeyValue>) {
    && |r.values| == |r.keys| == (if kv.Some? then 1 else 0)
    && (kv.Some? ==> Shows(r.values[0], kv.value) && r.keys[0] == kv.value.key)
  }

  /** The action, and success or else the given error (src/v3/action_constants.cpp:3-13,69-71). */
  predicate Reports(r: ClientResponse, action: string, ok: bool, code: int, message: string) {
    && r.action == action && (r.IsOk() <==> ok)
    && r.errorCode == (if ok then 0 else code)
    && r.errorMessage == (if ok then "" else message)
  }

  // ----- the entry that a write leaves behind

  /**
   * A put creates a missing key at version 1, and on a key that is there it keeps the create revision and
   * counts the version up by one. The modification revision is the new revision of the store. No other
   * key changes.
   */
  lemma PutLeaves(s: Store, key: bytes, value: bytes, lease: int)
    ensures var s' := PutDirectly(s, key, value, lease);
            var (before, after) := (Lookup(s.kvs, key), Lookup(s'.kvs, key));
            && s'.revision == s.revision + 1 && after.Some?
            && after.value.key == key && after.value.value == value && after.value.lease == lease
            && after.value.modRevision == s.revision + 1
            && after.value.createRevision == (if before.Some? then before.value.createRevision else s.revision + 1)
            && after.value.version == (if before.Some? then before.value.version + 1 else 1)
            && forall k :: k != key ==> Lookup(s'.kvs, k) == Lookup(s.kvs, k)
  {
    forall k ensures Lookup(PutDirectly(s, key, value, lease).kvs, k)
                     == if k == key then Some(Renewed(s, key, value, lease)) else Lookup(s.kvs, k)
    {
      LookupInsert(s.kvs, Renewed(s, key, value, lease), k);
    }
  }

  // ----- reads

  /** `get` shows the entry, at the revision of the store. */
  lemma GetShowsTheEntry(s: Store, key: bytes)
    ensures var (o, entry) := (GetOutcome(s, key), Lookup(s.kvs, key));
            && o.store == s && o.response.index == s.revision
            && Reports(o.response, "get", entry.Some?, 100, "etcd-cpp-apiv3: key not found")
            && ShowsIfAny(o.response.value, entry) && ShowsNothing(o.response.prevValue)
            && o.response.values == [] && o.response.keys == []
  {
    hide Lookup;
  }

  lemma {:induction false} UnderMembers(kvs: seq<KeyValue>, prefix: bytes)
    requires Ordered(kvs)
    ensures Ordered(Under(kvs, prefix))
    ensures forall kv :: kv in Under(kvs, prefix) <==> kv in kvs && prefix <= kv.key
  {
    if kvs != [] {
      UnderMembers(kvs[1..], prefix);
      var rest := Under(kvs[1..], prefix);
      assert Under(kvs, prefix) == (if prefix <= kvs[0].key then [kvs[0]] else []) + rest;
      assert kvs == [kvs[0]] + kvs[1..];
      hide Under, Less;
      assert forall kv :: kv in rest ==> Less(kvs[0].key, kv.key);
    }
  }

  /**
   * `ls` shows entries below the prefix, in key order: all of them, or with a positive 32-bit limit the
   * first ones, so many that the limit is met.
   */
  lemma LsShowsTheEntries(s: Store, prefix: bytes, limit: nat)
    requires Valid(s)
    ensures var r := LsOutcome(s, prefix, limit).response;
            && Reports(r, "get", true, 0, "") && r.index == s.revision && |r.keys| == |r.values|
            && (forall i :: 0 <= i < |r.values| ==> r.keys[i] == r.values[i].key)
            && (forall i :: 0 <= i < |r.values| ==>
                  exists kv :: kv in s.kvs && prefix <= kv.key && Shows(r.values[i], kv))
            && (forall i, j :: 0 <= i < j < |r.values| ==> Less(r.keys[i], r.keys[j]))
            && (forall kv :: kv in s.kvs && prefix <= kv.key && kv.key !in r.keys ==>
                  |r.values| == Int32(limit) && forall i :: 0 <= i < |r.values| ==> Less(r.keys[i], kv.key))
  {
    var all, n := Under(s.kvs, prefix), Int32(limit);
    var r := LsOutcome(s, prefix, limit).response;
    assert r.values == ToValues(Limited(all, n)) && r.keys == ToKeys(Limited(all, n));
    UnderMembers(s.kvs, prefix);
    ListingShows(all, Limited(all, n));
    ValuesShow(Limited(all, n));
    hide Under, Valid, LsOutcome, ToValues, ToKeys, Reports, Shows;
    forall i | 0 <= i < |r.values| ensures exists kv :: kv in s.kvs && prefix <= kv.key && Shows(r.values[i], kv) {
      assert all[i] in s.kvs;
    }
    forall kv | kv in s.kvs && prefix <= kv.key && kv.key !in r.keys
      ensures |r.values| == n && forall i :: 0 <= i < |r.values| ==> Less(r.keys[i], kv.key)
    {
      NotShown(all, n, kv, r.keys);
    }
  }

  /** The first entries of an ordered list, as they are shown. */
  lemma ListingShows(all: seq<KeyValue>, shown: seq<KeyValue>)
    requires Ordered(all) && shown <= all
    ensures var (values, keys) := (ToValues(shown), ToKeys(shown));
            && |keys| == |values| <= |all|
            && (forall i :: 0 <= i < |values| ==> keys[i] == values[i].key == all[i].key)
            && (forall i :: 0 <= i < |values| ==> all[i] in all && Shows(values[i], all[i]))
            && (forall i, j :: 0 <= i < j < |values| ==> Less(keys[i], keys[j]))
  {
    ValuesShow(shown);
    assert forall i :: 0 <= i < |shown| ==> shown[i] == all[i];
  }

  lemma {:induction false} SelectOrdered(kvs: seq<KeyValue>, r: Range)
    requires Ordered(kvs)
    ensures Ordered(Select(kvs, r))
  {
    if kvs != [] {
      SelectOrdered(kvs[1..], r);
      SelectMembers(kvs[1..], r);
    }
  }

  /** The same for an explicit range, from `key` up to its end; the end NUL stands for no end. */
  lemma LsRangeShowsTheEntries(s: Store, key: bytes, rangeEnd: bytes, limit: nat)
    requires Valid(s) && rangeEnd != []
    ensures var r := LsRangeOutcome(s, key, rangeEnd, limit).response;
            && Reports(r, "get", true, 0, "") && r.index == s.revision && |r.keys| == |r.values|
            && (forall i :: 0 <= i < |r.values| ==> r.keys[i] == r.values[i].key)
            && (forall i :: 0 <= i < |r.values| ==>
                  exists kv :: kv in s.kvs && Within(key, rangeEnd, kv.key) && Shows(r.values[i], kv))
            && (forall i, j :: 0 <= i < j < |r.values| ==> Less(r.keys[i], r.keys[j]))
            && (forall kv :: kv in s.kvs && Within(key, rangeEnd, kv.key) && kv.key !in r.keys ==>
                  |r.values| == Int32(limit) && forall i :: 0 <= i < |r.values| ==> Less(r.keys[i], kv.key))
  {
    var range := RangesFor(key, rangeEnd, false);
    var all, n := Select(s.kvs, range), Int32(limit);
    var r := LsRangeOutcome(s, key, rangeEnd, limit).response;
    assert r.values == ToValues(Limited(all, n)) && r.keys == ToKeys(Limited(all, n));
    SelectOrdered(s.kvs, range);
    SelectMembers(s.kvs, range);
    ListingShows(all, Limited(all, n));
    forall kv | kv in s.kvs ensures Selects(range, kv.key) <==> Within(key, rangeEnd, kv.key) {
      ExplicitEndWins(key, rangeEnd, false, kv.key);
    }
    ValuesShow(Limited(all, n));
    hide Select, Valid, LsRangeOutcome, ToValues, ToKeys, Reports, Shows, Selects, Within, RangesFor;
    forall i | 0 <= i < |r.values|
      ensures exists kv :: kv in s.kvs && Within(key, rangeEnd, kv.key) && Shows(r.values[i], kv)
    {
      assert all[i] in s.kvs;
    }
    forall kv | kv in s.kvs && Within(key, rangeEnd, kv.key) && kv.key !in r.keys
      ensures |r.values| == n && forall i :: 0 <= i < |r.values| ==> Less(r.keys[i], kv.key)
    {
      NotShown(all, n, kv, r.keys);
    }
  }

  predicate Within(key: bytes, rangeEnd: bytes, k: bytes) {
    AtMost(key, k) && (rangeEnd == [0] || Less(k, rangeEnd))
  }

  lemma ValuesShow(list: seq<KeyValue>)
    ensures |ToValues(list)| == |ToKeys(list)| == |list|
    ensures forall i :: 0 <= i < |list| ==> Shows(ToValues(list)[i], list[i]) && ToKeys(list)[i] == list[i].key
    ensures forall i :: 0 <= i < |list| ==> ToValues(list)[i].key == list[i].key
  {
  }

  lemma NotShown(all: seq<KeyValue>, n: int, kv: KeyValue, keys: seq<bytes>)
    requires Ordered(all) && kv in all && kv.key !in keys && |keys| == |Limited(all, n)|
    requires forall i :: 0 <= i < |keys| ==> keys[i] == all[i].key
    ensures |keys| == n && forall i :: 0 <= i < |keys| ==> Less(keys[i], kv.key)
  {
    var j :| 0 <= j < |all| && all[j] == kv;
    assert j >= |keys| by {
      assert forall i :: 0 <= i < |keys| ==> keys[i] in keys;
    }
  }

  // ----- writes

  lemma AddShows(s: Store, key: bytes, value: bytes, lease: int)
    requires Valid(s) && key != []
    ensures var o := AddDirectly(s, key, value, lease);
            && Reports(o.response, "create", Lookup(s.kvs, key).None?, 105, "etcd-cpp-apiv3: key already exists")
            && Lookup(o.store.kvs, key).Some? && o.response.index == o.store.revision
            && Shows(o.response.value, Lookup(o.store.kvs, key).value) && ShowsNothing(o.response.prevValue)
            && ListsIfAny(o.response, Lookup(o.store.kvs, key))
  {
    hide Valid, Lookup, Insert;
    LookupKey(s.kvs, key);
    LookupInsert(s.kvs, Renewed(s, key, value, lease), key);
  }

  lemma ModifyShows(s: Store, key: bytes, value: bytes, lease: int)
    requires Valid(s) && key != []
    ensures var (o, before) := (ModifyDirectly(s, key, value, lease), Lookup(s.kvs, key));
            && Reports(o.response, if before.Some? then "update" else "", before.Some?,
                       100, "etcd-cpp-apiv3: key not found")
            && ShowsIfAny(o.response.value, Lookup(o.store.kvs, key)) && ShowsIfAny(o.response.prevValue, before)
            && ListsIfAny(o.response, Lookup(o.store.kvs, key))
            && (o.response.IsOk() ==> o.response.index == o.store.revision)
  {
    hide Valid, Lookup, Insert;
    LookupInsert(s.kvs, Renewed(s, key, value, lease), key);
  }

  /** `modify_if` shows the entry that is there afterwards, written or refused; it never shows a previous one. */
  lemma ModifyIfShows(s: Store, key: bytes, value: bytes, prev: T.Previous, lease: int)
    requires Valid(s) && key != []
    ensures var o := ModifyIfDirectly(s, key, value, prev, lease);
            && Reports(o.response, "compareAndSwap", Agrees(Lookup(s.kvs, key), prev),
                       101, "etcd-cpp-apiv3: compare failed")
            && o.response.index == o.store.revision
            && ShowsIfAny(o.response.value, Lookup(o.store.kvs, key)) && ShowsNothing(o.response.prevValue)
            && ListsIfAny(o.response, Lookup(o.store.kvs, key))
  {
    hide Valid, Lookup, Insert, Agrees;
    LookupInsert(s.kvs, Renewed(s, key, value, lease), key);
  }

  /** `rm_if` shows the entry that was there, as value and, if it is gone now, as previous value too. */
  lemma RmIfShows(s: Store, key: bytes, prev: T.Previous)
    requires Valid(s) && key != []
    ensures var (o, before) := (RmIfDirectly(s, key, prev), Lookup(s.kvs, key));
            && Reports(o.response, "compareAndDelete", Agrees(before, prev), 101, "etcd-cpp-apiv3: compare failed")
            && o.response.index == o.store.revision
            && ShowsIfAny(o.response.value, before) && ListsIfAny(o.response, before)
            && (if o.response.IsOk() then ShowsIfAny(o.response.prevValue, before)
                else ShowsNothing(o.response.prevValue))
            && Lookup(o.store.kvs, key) == (if o.response.IsOk() then None else before)
  {
    hide Valid, Lookup, Discard, Agrees;
    LookupDiscard(s.kvs, Single(key), key);
  }

  /** `put` shows the previous entry only. */
  lemma PutShows(s: Store, key: bytes, value: bytes, lease: int)
    ensures var r := PutOutcome(s, key, value, lease).response;
            && Reports(r, "set", true, 0, "") && r.index == s.revision + 1
            && ShowsNothing(r.value) && ShowsIfAny(r.prevValue, Lookup(s.kvs, key)) && r.values == []
  {
  }

  lemma RmShows(s: Store, key: bytes)
    requires Valid(s)
    ensures var (o, before) := (RmOutcome(s, key), Lookup(s.kvs, key));
            && Reports(o.response, "delete", before.Some?, 100, "etcd-cpp-apiv3: key not found")
            && o.response.index == o.store.revision
            && ShowsIfAny(o.response.value, before) && ShowsIfAny(o.response.prevValue, before)
            && ListsIfAny(o.response, before) && Lookup(o.store.kvs, key).None?
  {
    hide Valid, Lookup, Discard;
    LookupDiscard(s.kvs, Single(key), key);
  }

  lemma RmdirResponse(s: Store, prefix: bytes)
    ensures var (r, all) := (RmdirOutcome(s, prefix).response, Under(s.kvs, prefix));
            && r.values == ToValues(all) && r.keys == ToKeys(all)
            && Reports(r, "delete", all != [], 100, "etcd-cpp-apiv3: key not found")
            && (all != [] ==> r.value == r.prevValue == r.values[0])
  {
    hide Under, Outside;
  }

  /** A recursive `rmdir` shows the entries it has removed, in key order. */
  lemma RmdirShows(s: Store, prefix: bytes)
    requires Valid(s)
    ensures var r := RmdirOutcome(s, prefix).response;
            && |r.keys| == |r.values| && (forall i :: 0 <= i < |r.values| ==> r.keys[i] == r.values[i].key)
            && (forall i :: 0 <= i < |r.values| ==>
                  exists kv :: kv in s.kvs && prefix <= kv.key && Shows(r.values[i], kv))
            && (forall i, j :: 0 <= i < j < |r.values| ==> Less(r.keys[i], r.keys[j]))
            && (forall kv :: kv in s.kvs && prefix <= kv.key ==> kv.key in r.keys)
            && Reports(r, "delete", r.values != [], 100, "etcd-cpp-apiv3: key not found")
            && (r.values != [] ==> r.value == r.prevValue == r.values[0])
  {
    assert Ordered(s.kvs);
    hide Valid, RmdirOutcome, Reports, Shows, Less;
    var all, r := Under(s.kvs, prefix), RmdirOutcome(s, prefix).response;
    RmdirResponse(s, prefix);
    UnderMembers(s.kvs, prefix);
    ListingShows(all, all);
    hide Under, ToValues, ToKeys;
    forall i | 0 <= i < |r.values| ensures exists kv :: kv in s.kvs && prefix <= kv.key && Shows(r.values[i], kv) {
      assert all[i] in s.kvs;
    }
    forall kv | kv in s.kvs && prefix <= kv.key ensures kv.key in r.keys {
      assert kv in all;
      var j :| 0 <= j < |all| && all[j] == kv;
      assert r.keys[j] == kv.key;
    }
  }

  /** The entries a read or a delete in a transaction has found. */
  function Found(op: ResponseOp): seq<KeyValue> {
    match op case ResponseRange(_, kvs) => kvs case ResponseDelete(_, prevKvs) => prevKvs case _ => []
  }

  /** How many the first n operations have found. */
  function FoundBefore(ops: seq<ResponseOp>, n: nat): nat
    requires n <= |ops|
  {
    if n == 0 then 0 else FoundBefore(ops, n - 1) + |Found(ops[n - 1])|
  }

  lemma {:induction false} FoundBeforeIsSize(ops: seq<ResponseOp>, n: nat)
    requires n <= |ops|
    ensures FoundBefore(ops, n) == |AllValues(ops[..n])|
  {
    if n > 0 {
      FoundBeforeIsSize(ops, n - 1);
      assert ops[..n][..n - 1] == ops[..n - 1];
    }
  }

  /**
   * A transaction shows the entries its reads and deletes have found, one by one, behind those of the
   * operations before it; and no others. It reports no error but that its guards did not hold.
   */
  lemma TxnShows(reply: TxnReply, n: nat, i: nat)
    requires n < |reply.responses| && i < |Found(reply.responses[n])|
    ensures var r := FromParsed(ParsedConditional("txn", OK, reply));
            var at := FoundBefore(reply.responses, n) + i;
            && at < |r.values| == |r.keys| == FoundBefore(reply.responses, |reply.responses|)
            && Shows(r.values[at], Found(reply.responses[n])[i]) && r.keys[at] == Found(reply.responses[n])[i].key
            && Reports(r, "txn", reply.succeeded, 101, "etcd-cpp-apiv3: compare failed") && r.index == reply.revision
  {
    hide *;
    NamedTxn(reply);
    ParsedShows(reply, n, i);
  }

  lemma ParsedShows(reply: TxnReply, n: nat, i: nat)
    requires n < |reply.responses| && i < |Found(reply.responses[n])|
    ensures var (r, at) := (FromParsed(ParsedTxn(FRESH, reply)), FoundBefore(reply.responses, n) + i);
            && at < |r.values| == |r.keys| == FoundBefore(reply.responses, |reply.responses|)
            && Shows(r.values[at], Found(reply.responses[n])[i]) && r.keys[at] == Found(reply.responses[n])[i].key
            && r.index == reply.revision
  {
    hide ParsedTxn, AllValues, FromParsed, FoundBefore, SitsAt, ToValues;
    TxnParsing(reply, n);
    TxnParsingIsClean(reply);
    FoundBeforeIsSize(reply.responses, n);
    FoundBeforeIsSize(reply.responses, |reply.responses|);
    assert reply.responses[..|reply.responses|] == reply.responses;
    var r, part := FromParsed(ParsedTxn(FRESH, reply)), ValuesOf(reply.responses[n]);
    ValuesShow(part);
    InPart(r.values, |AllValues(reply.responses[..n])|, ToValues(part), i);
  }

  lemma InPart<T>(whole: seq<T>, start: nat, part: seq<T>, i: nat)
    requires SitsAt(whole, start, part) && i < |part|
    ensures start + i < |whole| && whole[start + i] == part[i]
  {
    assert whole[start..start + |part|][i] == part[i];
  }

  /** The action and the error do not touch the values. */
  lemma NamedTxn(reply: TxnReply)
    ensures var (r, t) := (FromParsed(ParsedConditional("txn", OK, reply)), FromParsed(ParsedTxn(FRESH, reply)));
            && r.values == t.values && r.keys == t.keys && r.prevValue == t.prevValue && r.index == t.index
            && Reports(r, "txn", reply.succeeded, 101, "etcd-cpp-apiv3: compare failed")
  {
    hide AllValues, AllPrevValues;
  }

  /** A put, and a delete that has found something, bring a previous value. */
  predicate BringsPrev(op: ResponseOp) {
    op.ResponsePut? || (op.ResponseDelete? && op.prevKvs != [])
  }

  lemma {:induction false} NoPrevBefore(ops: seq<ResponseOp>, n: nat)
    requires n <= |ops| && forall m :: 0 <= m < n ==> !BringsPrev(ops[m])
    ensures AllPrevValues(ops[..n]) == []
  {
    if n > 0 {
      NoPrevBefore(ops, n - 1);
      assert ops[..n][..n - 1] == ops[..n - 1];
    }
  }

  /** As previous value a transaction shows what the first of these has found; a put may have found nothing. */
  lemma TxnShowsPrev(reply: TxnReply, n: nat)
    requires n <= |reply.responses| && forall m :: 0 <= m < n ==> !BringsPrev(reply.responses[m])
    requires n < |reply.responses| ==> BringsPrev(reply.responses[n])
    ensures var shown := FromParsed(ParsedConditional("txn", OK, reply)).prevValue;
            if n == |reply.responses| then ShowsNothing(shown)
            else match reply.responses[n]
              case ResponsePut(_, prevKv) => ShowsIfAny(shown, prevKv)
              case ResponseDelete(_, prevKvs) => Shows(shown, prevKvs[0])
  {
    NamedTxn(reply);
    NoPrevBefore(reply.responses, n);
    if n == |reply.responses| {
      assert reply.responses[..n] == reply.responses;
    } else {
      TxnParsingPrev(reply, n);
      var p, part := ParsedTxn(FRESH, reply), PrevValuesOf(reply.responses[n]);
      assert p.prevValues[0..|part|][0] == part[0];
    }
    hide AllPrevValues, AllValues;
    assert FRESH.prevValues + AllPrevValues(reply.responses) == AllPrevValues(reply.responses);
  }

  // ----- reading and writing back

  /**
   * If `get(k)` has shown an entry, then after any run of requests by anyone `modify_if` on the modification
   * index it has shown succeeds exactly if none of them has touched the key since.
   */
  lemma ReadThenSwapIsExact(s: Store, key: bytes, reqs: seq<Request>, value: bytes, lease: int)
    requires Valid(s) && key != [] && forall req <- reqs :: Acceptable(req)
    requires GetOutcome(s, key).response.IsOk()
    ensures var shown := GetOutcome(s, key).response.value;
            ModifyIfDirectly(After(s, reqs), key, value, T.PREV_INDEX(shown.modified), lease).response.IsOk()
            <==> !TouchedIn(s, reqs, key)
  {
    GetShowsTheEntry(s, key);
    LookupKey(s.kvs, key);
    var shown := GetOutcome(s, key).response.value;
    ModRevisionTellsTouches(s, reqs, key, shown.modified);
    hide After, TouchedIn;
  }
}
