/**
 * The synchronous client (src/SyncClient.cpp): each call builds its request, has the server run it and
 * parses the reply, and so does what the direct operation does.
 */
module SyncClient {
  import opened Bytes
  import opened Ranges
  import opened Store
  import T = Transaction
  import opened Responses
  import opened Actions
  import opened Directory

  /** How the network treats a call: it may report an error, whether or not the server applied the request. */
  datatype Fault = NoFault | Lost(status: Status, applied: bool)

  class Server {
    var store: Store

    method Txn(req: TxnRequest, fault: Fault) returns (status: Status, reply: TxnReply)
      modifies this
      ensures fault.NoFault? ==> status == OK && (store, reply) == Apply(old(store), req)
      ensures fault.Lost? ==> status == fault.status
                              && store == if fault.applied then Apply(old(store), req).0 else old(store)
    {
      var (s, r) := Apply(store, req);
      match fault {
        case NoFault => store, status, reply := s, OK, r;
        case Lost(code, applied) =>
          if applied {
            store := s;
          }
          status, reply := code, TxnReply(0, false, []);
      }
    }

    method Single(op: RequestOp, fault: Fault) returns (status: Status, reply: ResponseOp)
      modifies this
      ensures fault.NoFault? ==> status == OK && (store, reply) == ApplyOp(old(store), op)
      ensures fault.Lost? ==> status == fault.status
                              && store == if fault.applied then ApplyOp(old(store), op).0 else old(store)
      ensures reply == ApplyOp(old(store), op).1
    {
      var (s, r) := ApplyOp(store, op);
      reply := r;
      match fault {
        case NoFault => store, status := s, OK;
        case Lost(code, applied) =>
          if applied {
            store := s;
          }
          status := code;
      }
    }

    constructor (s: Store)
      ensures store == s
    {
      store := s;
    }
  }

  /** A response that only reports a call's failure. */
  predicate Reports(r: ClientResponse, status: Status) {
    r.errorCode == status.code && r.errorMessage == status.message && r.values == [] && r.keys == []
    && r.value == r.prevValue == ToValue(EMPTY_KV)
  }

  /** The key-value operations of `SyncClient`, with the server they talk to. */
  class SyncClient {
    const server: Server

    constructor (server: Server)
      ensures this.server == server
    {
      this.server := server;
    }

    method Add(key: bytes, value: bytes, lease: int, fault: Fault) returns (r: Response)
      requires Valid(server.store) && 0 < |key| <= 0x8000_0000 && (fault.Lost? ==> fault.status.code != 0)
      modifies server
      ensures fault.NoFault? ==> Outcome(server.store, r.View()) == AddDirectly(old(server.store), key, value, lease)
      ensures fault.Lost? ==> Reports(r.View(), fault.status)
      ensures fault.Lost? ==>
                server.store == if fault.applied then AddDirectly(old(server.store), key, value, lease).store
                                else old(server.store)
      ensures Valid(server.store)
    {
      ApplyValid(server.store, SetRequest(key, value, lease, true));
      AddIsDirect(server.store, key, value, lease);
      var txn := SetAction(key, value, lease, true);
      var status, reply := server.Txn(TxnRequest(txn.compare, txn.success, txn.failure), fault);
      var resp := ParseSet(status, reply, true);
      r := new Response(resp);
    }

    method Modify(key: bytes, value: bytes, lease: int, fault: Fault) returns (r: Response)
      requires Valid(server.store) && 0 < |key| <= 0x8000_0000 && (fault.Lost? ==> fault.status.code != 0)
      modifies server
      ensures fault.NoFault? ==> Outcome(server.store, r.View()) == ModifyDirectly(old(server.store), key, value, lease)
      ensures fault.Lost? ==> Reports(r.View(), fault.status)
      ensures fault.Lost? ==>
                server.store == if fault.applied then ModifyDirectly(old(server.store), key, value, lease).store
                                else old(server.store)
      ensures Valid(server.store)
    {
      ApplyValid(server.store, UpdateRequest(key, value, lease));
      ModifyIsDirect(server.store, key, value, lease);
      var txn := UpdateAction(key, value, lease);
      var status, reply := server.Txn(TxnRequest(txn.compare, txn.success, txn.failure), fault);
      var resp := ParseUpdate(status, reply);
      r := new Response(resp);
    }

    method ModifyIf(key: bytes, value: bytes, prev: T.Previous, lease: int, fault: Fault) returns (r: Response)
      requires Valid(server.store) && 0 < |key| <= 0x8000_0000 && (fault.Lost? ==> fault.status.code != 0)
      modifies server
      ensures fault.NoFault? ==>
                Outcome(server.store, r.View()) == ModifyIfDirectly(old(server.store), key, value, prev, lease)
      ensures fault.Lost? ==> Reports(r.View(), fault.status)
      ensures fault.Lost? ==>
                server.store == if fault.applied then ModifyIfDirectly(old(server.store), key, value, prev, lease).store
                                else old(server.store)
      ensures Valid(server.store)
    {
      ApplyValid(server.store, SwapRequest(key, value, prev, lease));
      ModifyIfIsDirect(server.store, key, value, prev, lease);
      var txn := CompareAndSwapAction(key, value, prev, lease);
      var status, reply := server.Txn(TxnRequest(txn.compare, txn.success, txn.failure), fault);
      var resp := ParseConditional("compareAndSwap", status, reply);
      r := new Response(resp);
    }

    method RmIf(key: bytes, prev: T.Previous, fault: Fault) returns (r: Response)
      requires Valid(server.store) && 0 < |key| <= 0x8000_0000 && (fault.Lost? ==> fault.status.code != 0)
      modifies server
      ensures fault.NoFault? ==> Outcome(server.store, r.View()) == RmIfDirectly(old(server.store), key, prev)
      ensures fault.Lost? ==> Reports(r.View(), fault.status)
      ensures fault.Lost? ==>
                server.store == if fault.applied then RmIfDirectly(old(server.store), key, prev).store
                                else old(server.store)
      ensures Valid(server.store)
    {
      ApplyValid(server.store, CompareDeleteRequest(key, prev));
      RmIfIsDirect(server.store, key, prev);
      var txn := CompareAndDeleteAction(key, prev);
      var status, reply := server.Txn(TxnRequest(txn.compare, txn.success, txn.failure), fault);
      var resp := ParseCompareAndDelete(status, reply);
      r := new Response(resp);
    }

    /** `txn` with any transaction the server accepts. */
    method Txn(txn: T.Transaction, fault: Fault) returns (r: Response)
      modifies server
      ensures fault.NoFault? ==>
                (server.store, r.View())
                == (var (s, reply) := Apply(old(server.store), old(txn.Request()));
                    (s, FromParsed(ParsedConditional("txn", OK, reply))))
      ensures fault.Lost? && fault.status.code != 0 ==> Reports(r.View(), fault.status)
      ensures fault.Lost? ==>
                server.store == if fault.applied then Apply(old(server.store), old(txn.Request())).0 else old(server.store)
      ensures old(Valid(server.store)) && old(WellFormed(txn.Request())) ==> Valid(server.store)
    {
      if Valid(server.store) && WellFormed(txn.Request()) {
        ApplyValid(server.store, txn.Request());
      }
      var status, reply := server.Txn(TxnRequest(txn.compare, txn.success, txn.failure), fault);
      var resp := ParseConditional("txn", status, reply);
      r := new Response(resp);
    }

    method Put(key: bytes, value: bytes, lease: int, fault: Fault) returns (r: Response)
      requires Valid(server.store) && key != [] && (fault.Lost? ==> fault.status.code != 0)
      modifies server
      ensures fault.NoFault? ==> Outcome(server.store, r.View()) == PutOutcome(old(server.store), key, value, lease)
      ensures fault.Lost? ==> Reports(r.View(), fault.status)
      ensures fault.Lost? ==>
                server.store == if fault.applied then PutOutcome(old(server.store), key, value, lease).store
                                else old(server.store)
      ensures Valid(server.store)
    {
      ApplyOpValid(server.store, RequestPut(key, value, lease, true));
      PutIsDirect(server.store, key, value, lease);
      var status, reply := server.Single(RequestPut(key, value, lease, true), fault);
      var resp := ParsePutAction(status, reply);
      r := new Response(resp);
    }

    method Get(key: bytes, limit: nat, fault: Fault) returns (r: Response)
      requires Valid(server.store) && |key| <= 0x8000_0000 && (fault.Lost? ==> fault.status.code != 0)
      modifies server
      ensures fault.NoFault? ==> Outcome(server.store, r.View()) == GetOutcome(old(server.store), key)
      ensures fault.Lost? ==> Reports(r.View(), fault.status)
      ensures server.store == old(server.store)
    {
      ApplyOpValid(server.store, RequestRange(RangesFor(key, [], false), Int32(limit)));
      GetIsDirect(server.store, key, limit);
      var op := RangeAction(key, [], false, limit);
      var status, reply := server.Single(op, fault);
      var resp := ParseRangeAction(status, reply, false, []);
      r := new Response(resp);
    }

    method Ls(prefix: bytes, limit: nat, fault: Fault) returns (r: Response)
      requires Valid(server.store) && |prefix| <= 0x8000_0000 && (fault.Lost? ==> fault.status.code != 0)
      modifies server
      ensures fault.NoFault? ==> Outcome(server.store, r.View()) == LsOutcome(old(server.store), prefix, limit)
      ensures fault.Lost? ==> Reports(r.View(), fault.status)
      ensures server.store == old(server.store)
    {
      ApplyOpValid(server.store, RequestRange(RangesFor(prefix, [], true), Int32(limit)));
      LsIsDirect(server.store, prefix, limit);
      var op := RangeAction(prefix, [], true, limit);
      var status, reply := server.Single(op, fault);
      var resp := ParseRangeAction(status, reply, true, []);
      r := new Response(resp);
    }

    /** `ls(key, range_end)`; with an empty end the source turns it into a read of the key. */
    method LsRange(key: bytes, rangeEnd: bytes, limit: nat, fault: Fault) returns (r: Response)
      requires Valid(server.store) && |key| <= 0x8000_0000 && (fault.Lost? ==> fault.status.code != 0)
      modifies server
      ensures fault.NoFault? ==>
                Outcome(server.store, r.View())
                == if rangeEnd == [] then GetOutcome(old(server.store), key)
                   else LsRangeOutcome(old(server.store), key, rangeEnd, limit)
      ensures fault.Lost? ==> Reports(r.View(), fault.status)
      ensures server.store == old(server.store)
    {
      ApplyOpValid(server.store, RequestRange(RangesFor(key, rangeEnd, false), Int32(limit)));
      LsRangeIsDirect(server.store, key, rangeEnd, limit);
      var op := RangeAction(key, rangeEnd, false, limit);
      var status, reply := server.Single(op, fault);
      var resp := ParseRangeAction(status, reply, false, rangeEnd);
      r := new Response(resp);
    }

    method Rm(key: bytes, fault: Fault) returns (r: Response)
      requires Valid(server.store) && |key| <= 0x8000_0000 && (fault.Lost? ==> fault.status.code != 0)
      modifies server
      ensures fault.NoFault? ==> Outcome(server.store, r.View()) == RmOutcome(old(server.store), key)
      ensures fault.Lost? ==> Reports(r.View(), fault.status)
      ensures fault.Lost? ==>
                server.store == if fault.applied then RmOutcome(old(server.store), key).store
                                else old(server.store)
      ensures Valid(server.store)
    {
      ApplyOpValid(server.store, RequestDelete(RangesFor(key, [], false), true));
      RmIsDirect(server.store, key);
      var op := DeleteAction(key, [], false);
      var status, reply := server.Single(op, fault);
      var resp := ParseDeleteAction(status, reply);
      r := new Response(resp);
    }

    method Rmdir(prefix: bytes, recursive: bool, fault: Fault) returns (r: Response)
      requires Valid(server.store) && |prefix| <= 0x8000_0000 && (fault.Lost? ==> fault.status.code != 0)
      modifies server
      ensures fault.NoFault? ==>
                Outcome(server.store, r.View())
                == (if recursive then RmdirOutcome(old(server.store), prefix) else RmOutcome(old(server.store), prefix))
      ensures fault.Lost? ==> Reports(r.View(), fault.status)
      ensures fault.Lost? ==>
                server.store == if !fault.applied then old(server.store)
                                else if recursive then RmdirOutcome(old(server.store), prefix).store
                                else RmOutcome(old(server.store), prefix).store
      ensures Valid(server.store)
    {
      ApplyOpValid(server.store, RequestDelete(RangesFor(prefix, [], recursive), true));
      RmdirIsDirect(server.store, prefix);
      RmIsDirect(server.store, prefix);
      var op := DeleteAction(prefix, [], recursive);
      var status, reply := server.Single(op, fault);
      var resp := ParseDeleteAction(status, reply);
      r := new Response(resp);
    }

    method RmdirRange(key: bytes, rangeEnd: bytes, fault: Fault) returns (r: Response)
      requires Valid(server.store) && |key| <= 0x8000_0000 && (fault.Lost? ==> fault.status.code != 0)
      modifies server
      ensures fault.NoFault? ==>
                Outcome(server.store, r.View())
                == (var (s, range) := (old(server.store), RangesFor(key, rangeEnd, false));
                    RemovalOutcome(s, Discard(s.kvs, range), Select(s.kvs, range)))
      ensures fault.Lost? ==> Reports(r.View(), fault.status)
      ensures fault.Lost? ==>
                server.store == if fault.applied
                                then (var (s, range) := (old(server.store), RangesFor(key, rangeEnd, false));
                                      RemovalOutcome(s, Discard(s.kvs, range), Select(s.kvs, range)).store)
                                else old(server.store)
      ensures Valid(server.store)
    {
      ApplyOpValid(server.store, RequestDelete(RangesFor(key, rangeEnd, false), true));
      DeleteIsRemoval(server.store, RangesFor(key, rangeEnd, false));
      var op := DeleteAction(key, rangeEnd, false);
      var status, reply := server.Single(op, fault);
      var resp := ParseDeleteAction(status, reply);
      r := new Response(resp);
    }
  }
}
