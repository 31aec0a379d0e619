/**
 * The fetch-and-add loop of README.md:907-921 and tst/TransactionTest.cpp:88-101, run by any number of
 * clients in any interleaving.
 */
module FetchAndAdd {
  import opened Bytes
  import opened Ranges
  import opened Store
  import T = Transaction
  import opened Responses
  import opened Actions
  import opened Directory
  import C = SyncClient
  import G = IndexGuard
  import Conditionals

  // ----- decimal notation

  function Digits(n: nat): bytes {
    if n < 10 then [48 + n] else Digits(n / 10) + [48 + n % 10]
  }

  /** `std::to_string`. */
  function ToString(n: int): bytes {
    if n < 0 then [45] + Digits(-n) else Digits(n)
  }

  function ReadDigits(s: bytes): int {
    if s == [] then 0 else 10 * ReadDigits(s[..|s| - 1]) + s[|s| - 1] as int - 48
  }

  /** `stoi`, on what `to_string` prints. */
  function Stoi(s: bytes): int {
    if s != [] && s[0] == 45 then -ReadDigits(s[1..]) else ReadDigits(s)
  }

  lemma {:induction false} ReadBack(n: nat)
    ensures ReadDigits(Digits(n)) == n && Digits(n) != [] && Digits(n)[0] != 45
  {
    if n < 10 {
      assert ReadDigits([48 + n][..0]) == 0;
    } else {
      ReadBack(n / 10);
      var s := Digits(n);
      assert s[..|s| - 1] == Digits(n / 10);
    }
  }

  lemma StoiOfToString(n: int)
    ensures Stoi(ToString(n)) == n
  {
    if n < 0 {
      ReadBack(-n);
      assert ToString(n)[1..] == Digits(-n);
    } else {
      ReadBack(n);
    }
  }

  // ----- the clients

  const INT_MAX := 0x7fff_ffff
  const INT_MIN := -0x8000_0000

  /** A client is between two calls of `fetch_and_add`, or holds the number it will try to replace. */
  datatype Client = Idle | Holding(number: int)

  /**
   * `wins` and `losses` count each client's successful and failed swaps, `lost` those whose call was lost,
   * and `hidden` those of the lost ones that took effect all the same.
   */
  datatype World = World(store: Store, clients: seq<Client>, wins: seq<nat>, losses: seq<nat>,
                         lost: seq<nat>, hidden: seq<nat>)

  predicate Sized(w: World) {
    |w.clients| == |w.wins| == |w.losses| == |w.lost| == |w.hidden|
  }

  datatype Action =
    | Get(c: nat)              // client c enters and reads the number
    | Swap(c: nat)             // client c runs its compare-and-swap transaction
    | Lose(c: nat, applied: bool)  // the same, but the call is lost; `stoi` of no value throws and c gives up
    | Other(req: G.Request)    // anybody runs a request that leaves the key alone

  /** The transaction of one attempt. */
  function SwapOf(key: bytes, number: int): TxnRequest {
    T.Conditional(T.Guard(key, EQUAL, T.PREV_VALUE(ToString(number))),
                  RequestPut(key, ToString(number + 1), 0, false), key)
  }

  /** Its run, and what the client reads from the reply. */
  function Attempt(s: Store, key: bytes, number: int): (Store, ClientResponse) {
    var (s', reply) := Apply(s, SwapOf(key, number));
    (s', FromParsed(ParsedConditional("txn", OK, reply)))
  }

  /** `get(key).value().as_string()`. */
  function Fetch(s: Store, key: bytes): bytes {
    var reply := ApplyOp(s, RequestRange(RangesFor(key, [], false), 0)).1;
    FromParsed(ParsedRangeAction(OK, reply, false)).value.value
  }

  // ----- the code of a client, call by call; between the calls others may run

  method SwapTransaction(key: bytes, number: int) returns (txn: T.Transaction)
    requires |key| <= 0x8000_0000
    ensures fresh(txn) && txn.Request() == SwapOf(key, number)
  {
    txn := new T.Transaction();
    txn.SetupCompareAndSwap(key, T.PREV_VALUE(ToString(number)), ToString(number + 1));
    T.FreshIsConditional(T.Guard(key, EQUAL, T.PREV_VALUE(ToString(number))),
                         RequestPut(key, ToString(number + 1), 0, false), key);
  }

  /** One pass through the loop: the response decides what happens next; a lost call may have been applied. */
  method TryToAdd(client: C.SyncClient, key: bytes, number: int, fault: C.Fault) returns (resp: Response)
    requires |key| <= 0x8000_0000 && (fault.Lost? ==> fault.status.code != 0)
    modifies client.server
    ensures fault.NoFault? ==> (client.server.store, resp.View()) == Attempt(old(client.server.store), key, number)
    ensures fault.Lost? ==>
              && !resp.View().IsOk() && resp.View().value.value == []
              && client.server.store == if fault.applied then Attempt(old(client.server.store), key, number).0
                                        else old(client.server.store)
  {
    var txn := SwapTransaction(key, number);
    resp := client.Txn(txn, fault);
  }

  /** The number read on entry. */
  method ReadNumber(client: C.SyncClient, key: bytes, limit: nat) returns (number: int)
    requires Valid(client.server.store) && |key| <= 0x8000_0000
    modifies client.server
    ensures client.server.store == old(client.server.store)
    ensures number == Stoi(Fetch(old(client.server.store), key))
  {
    GetIsDirect(client.server.store, key, 0);
    var resp := client.Get(key, limit, C.NoFault);
    number := Stoi(resp.value.value);
  }

  ghost predicate Enabled(w: World, key: bytes, a: Action) {
    match a
    case Get(c) => c < |w.clients| && w.clients[c].Idle?
    // the sum is a C int: at INT_MAX a client must not go on
    case Swap(c) => c < |w.clients| && w.clients[c].Holding? && w.clients[c].number < INT_MAX
    case Lose(c, _) => c < |w.clients| && w.clients[c].Holding? && w.clients[c].number < INT_MAX
    case Other(req) => G.Acceptable(req) && Lookup(G.Served(w.store, req).kvs, key) == Lookup(w.store.kvs, key)
  }

  ghost function Next(w: World, key: bytes, a: Action): World
    requires Enabled(w, key, a) && Sized(w)
  {
    match a
    case Get(c) => w.(clients := w.clients[c := Holding(Stoi(Fetch(w.store, key)))])
    case Swap(c) =>
      var (s', r) := Attempt(w.store, key, w.clients[c].number);
      if r.IsOk() then w.(store := s', clients := w.clients[c := Idle], wins := w.wins[c := w.wins[c] + 1])
      else w.(store := s', clients := w.clients[c := Holding(Stoi(r.value.value))],
              losses := w.losses[c := w.losses[c] + 1])
    case Lose(c, applied) =>
      var (s', r) := Attempt(w.store, key, w.clients[c].number);
      w.(store := if applied then s' else w.store, clients := w.clients[c := Idle], lost := w.lost[c := w.lost[c] + 1],
         hidden := w.hidden[c := w.hidden[c] + if applied && r.IsOk() then 1 else 0])
    case Other(req) => w.(store := G.Served(w.store, req))
  }

  ghost predicate Runs(w: World, key: bytes, actions: seq<Action>)
    decreases |actions|
  {
    Sized(w)
    && (actions == [] || (Enabled(w, key, actions[0]) && Runs(Next(w, key, actions[0]), key, actions[1..])))
  }

  ghost function Result(w: World, key: bytes, actions: seq<Action>): World
    requires Runs(w, key, actions)
    decreases |actions|
  {
    if actions == [] then w else Result(Next(w, key, actions[0]), key, actions[1..])
  }

  function Sum(s: seq<nat>): nat {
    if s == [] then 0 else s[0] + Sum(s[1..])
  }

  ghost predicate Start(w: World, key: bytes, initial: int) {
    && Valid(w.store) && key != [] && INT_MIN <= initial <= INT_MAX
    && Lookup(w.store.kvs, key).Some? && Lookup(w.store.kvs, key).value.value == ToString(initial)
    && Sized(w)
    && forall c :: 0 <= c < |w.clients| ==>
         w.clients[c].Idle? && w.wins[c] == 0 && w.losses[c] == 0 && w.lost[c] == 0 && w.hidden[c] == 0
  }

  // ----- the invariant

  /** All swaps that took effect. */
  function Added(w: World): nat {
    Sum(w.wins) + Sum(w.hidden)
  }

  /** `seen[c]` is how many swaps had taken effect when client c last learned the number. */
  ghost predicate Inv(w: World, key: bytes, initial: int, seen: seq<nat>) {
    && Valid(w.store) && key != []
    && Sized(w) && |w.clients| == |seen|
    && INT_MIN <= initial + Added(w) <= INT_MAX
    && Lookup(w.store.kvs, key).Some?
    && Lookup(w.store.kvs, key).value.value == ToString(initial + Added(w))
    && forall c :: 0 <= c < |w.clients| ==> ClientInv(w, initial, seen[c], c)
  }

  ghost predicate ClientInv(w: World, initial: int, seen: nat, c: nat)
    requires Sized(w) && c < |w.clients|
  {
    && seen <= Added(w)
    && w.losses[c] + w.wins[c] + w.hidden[c] <= seen
    && w.hidden[c] <= w.lost[c]
    && (w.clients[c].Holding? ==> w.clients[c].number == initial + seen)
  }

  lemma {:induction false} SumUpdate(s: seq<nat>, c: nat, n: nat)
    requires c < |s|
    ensures Sum(s[c := n]) == Sum(s) - s[c] + n
  {
    if c == 0 {
      assert s[c := n][1..] == s[1..];
    } else {
      assert s[c := n][1..] == s[1..][c - 1 := n];
      SumUpdate(s[1..], c - 1, n);
    }
  }

  lemma GetKeeps(w: World, key: bytes, initial: int, seen: seq<nat>, c: nat)
    requires Inv(w, key, initial, seen) && Enabled(w, key, Get(c))
    ensures Inv(Next(w, key, Get(c)), key, initial, seen[c := Added(w)])
  {
    GetIsDirect(w.store, key, 0);
    var n := initial + Added(w);
    assert Fetch(w.store, key) == ToString(n);
    StoiOfToString(n);
    var w', seen' := Next(w, key, Get(c)), seen[c := Added(w)];
    forall d | 0 <= d < |w.clients| ensures ClientInv(w', initial, seen'[d], d) {
      assert ClientInv(w, initial, seen[d], d);
    }
  }

  /** An attempt succeeds exactly when the client's number is the stored one, and otherwise learns that one. */
  lemma AttemptOutcome(s: Store, key: bytes, number: int, stored: int)
    requires Valid(s) && key != []
    requires Lookup(s.kvs, key).Some? && Lookup(s.kvs, key).value.value == ToString(stored)
    ensures var (s', r) := Attempt(s, key, number);
            && (r.IsOk() <==> number == stored)
            && Valid(s') && Lookup(s'.kvs, key).Some?
            && Lookup(s'.kvs, key).value.value == ToString(if r.IsOk() then stored + 1 else stored)
            && (!r.IsOk() ==> Stoi(r.value.value) == stored)
  {
    StoiOfToString(number);
    StoiOfToString(stored);
    Conditionals.SwapTxn(s, key, T.PREV_VALUE(ToString(number)), ToString(number + 1), 0);
    LookupInsert(s.kvs, Renewed(s, key, ToString(number + 1), 0), key);
  }

  lemma SwapKeeps(w: World, key: bytes, initial: int, seen: seq<nat>, c: nat)
    requires Inv(w, key, initial, seen) && Enabled(w, key, Swap(c))
    ensures var w' := Next(w, key, Swap(c));
            Inv(w', key, initial, seen[c := Added(w')])
  {
    hide Apply, Attempt, Digits, Stoi;
    assert ClientInv(w, initial, seen[c], c);
    AttemptOutcome(w.store, key, w.clients[c].number, initial + Added(w));
    SumUpdate(w.wins, c, w.wins[c] + 1);
    var w' := Next(w, key, Swap(c));
    var seen' := seen[c := Added(w')];
    forall d | 0 <= d < |w.clients| ensures ClientInv(w', initial, seen'[d], d) {
      assert ClientInv(w, initial, seen[d], d);
    }
  }

  lemma LoseKeeps(w: World, key: bytes, initial: int, seen: seq<nat>, c: nat, applied: bool)
    requires Inv(w, key, initial, seen) && Enabled(w, key, Lose(c, applied))
    ensures var w' := Next(w, key, Lose(c, applied));
            Inv(w', key, initial, seen[c := Added(w')])
  {
    hide Apply, Attempt, Digits, Stoi;
    assert ClientInv(w, initial, seen[c], c);
    AttemptOutcome(w.store, key, w.clients[c].number, initial + Added(w));
    var w' := Next(w, key, Lose(c, applied));
    SumUpdate(w.hidden, c, w'.hidden[c]);
    var seen' := seen[c := Added(w')];
    forall d | 0 <= d < |w.clients| ensures ClientInv(w', initial, seen'[d], d) {
      assert ClientInv(w, initial, seen[d], d);
    }
  }

  lemma OtherKeeps(w: World, key: bytes, initial: int, seen: seq<nat>, req: G.Request)
    requires Inv(w, key, initial, seen) && Enabled(w, key, Other(req))
    ensures Inv(Next(w, key, Other(req)), key, initial, seen)
  {
    hide G.Served, G.TouchedBy;
    G.ServedFacts(w.store, req, key);
    var w' := Next(w, key, Other(req));
    forall d | 0 <= d < |w.clients| ensures ClientInv(w', initial, seen[d], d) {
      assert ClientInv(w, initial, seen[d], d);
    }
  }

  lemma StepKeeps(w: World, key: bytes, initial: int, seen: seq<nat>, a: Action) returns (next: seq<nat>)
    requires Inv(w, key, initial, seen) && Enabled(w, key, a)
    ensures Inv(Next(w, key, a), key, initial, next)
  {
    hide Next;
    match a {
      case Get(c) =>
        GetKeeps(w, key, initial, seen, c);
        next := seen[c := Added(w)];
      case Swap(c) =>
        SwapKeeps(w, key, initial, seen, c);
        next := seen[c := Added(Next(w, key, a))];
      case Lose(c, applied) =>
        LoseKeeps(w, key, initial, seen, c, applied);
        next := seen[c := Added(Next(w, key, a))];
      case Other(req) =>
        OtherKeeps(w, key, initial, seen, req);
        next := seen;
    }
  }

  lemma {:induction false} RunKeeps(w: World, key: bytes, initial: int, seen: seq<nat>, actions: seq<Action>)
    returns (seen': seq<nat>)
    requires Inv(w, key, initial, seen) && Runs(w, key, actions)
    ensures Inv(Result(w, key, actions), key, initial, seen')
    decreases |actions|
  {
    hide Enabled, Next, Inv;
    seen' := seen;
    if actions != [] {
      seen' := StepKeeps(w, key, initial, seen, actions[0]);
      seen' := RunKeeps(Next(w, key, actions[0]), key, initial, seen', actions[1..]);
    }
  }

  lemma {:induction false} Charge(wins: seq<nat>, hidden: seq<nat>, losses: seq<nat>, total: nat)
    requires |wins| == |hidden| == |losses|
    requires forall c :: 0 <= c < |wins| ==> losses[c] + wins[c] + hidden[c] <= total
    ensures Sum(losses) + Sum(wins) + Sum(hidden) <= |wins| * total
  {
    if wins != [] {
      Charge(wins[1..], hidden[1..], losses[1..], total);
      OneMore(|wins| - 1, total);
      assert Sum(losses) == losses[0] + Sum(losses[1..]) && Sum(wins) == wins[0] + Sum(wins[1..]);
      assert Sum(hidden) == hidden[0] + Sum(hidden[1..]);
    }
  }

  lemma {:induction false} SumAtMost(a: seq<nat>, b: seq<nat>)
    requires |a| == |b| && forall c :: 0 <= c < |a| ==> a[c] <= b[c]
    ensures Sum(a) <= Sum(b)
  {
    if a != [] {
      SumAtMost(a[1..], b[1..]);
    }
  }

  lemma OneMore(n: nat, total: nat)
    ensures (n + 1) * total == n * total + total
  {
  }

  lemma {:induction false} SumZero(s: seq<nat>)
    requires forall c :: 0 <= c < |s| ==> s[c] == 0
    ensures Sum(s) == 0
  {
    if s != [] {
      SumZero(s[1..]);
    }
  }

  lemma StartHasInv(w: World, key: bytes, initial: int) returns (seen: seq<nat>)
    requires Start(w, key, initial)
    ensures Inv(w, key, initial, seen)
  {
    SumZero(w.wins);
    SumZero(w.hidden);
    seen := seq(|w.clients|, _ => 0);
    forall c | 0 <= c < |w.clients| ensures ClientInv(w, initial, seen[c], c) {
    }
  }

  lemma FailuresArePaidFor(w: World, key: bytes, initial: int, seen: seq<nat>, clients: nat)
    requires Inv(w, key, initial, seen) && |w.clients| == clients
    ensures Sum(w.losses) <= Added(w) * (clients - 1)
    ensures Sum(w.hidden) <= Sum(w.lost)
  {
    forall c | 0 <= c < clients
      ensures w.losses[c] + w.wins[c] + w.hidden[c] <= Added(w) && w.hidden[c] <= w.lost[c]
    {
      assert ClientInv(w, initial, seen[c], c);
    }
    assert Added(w) == Sum(w.wins) + Sum(w.hidden);
    hide *;
    Charge(w.wins, w.hidden, w.losses, Added(w));
    SumAtMost(w.hidden, w.lost);
    OthersOnly(Added(w), clients);
  }

  lemma OthersOnly(total: nat, clients: nat)
    ensures total * (clients - 1) == clients * total - total
  {
  }

  lemma {:induction false} SameClients(w: World, key: bytes, actions: seq<Action>)
    requires Runs(w, key, actions)
    ensures |Result(w, key, actions).clients| == |w.clients|
    decreases |actions|
  {
    if actions != [] {
      SameClients(Next(w, key, actions[0]), key, actions[1..]);
    }
  }

  /**
   * In every interleaving the stored number is the initial number plus the successful swaps, plus those
   * swaps that took effect although their call was lost, of which there are no more than lost calls: no
   * increment is lost or made twice. Each failed swap is paid for by an increment of another client, so
   * there are at most increments * (clients - 1) of them.
   */
  lemma FetchAndAddIsExact(w: World, key: bytes, initial: int, actions: seq<Action>)
    requires Start(w, key, initial) && Runs(w, key, actions)
    ensures var w' := Result(w, key, actions);
            && |w'.clients| == |w.clients|
            && Lookup(w'.store.kvs, key).Some?
            && Stoi(Lookup(w'.store.kvs, key).value.value) == initial + Sum(w'.wins) + Sum(w'.hidden)
            && Sum(w'.hidden) <= Sum(w'.lost)
            && Sum(w'.losses) <= Added(w') * (|w.clients| - 1)
  {
    hide Enabled, Next, Runs, Inv;
    var seen0 := StartHasInv(w, key, initial);
    var seen := RunKeeps(w, key, initial, seen0, actions);
    SameClients(w, key, actions);
    ReadsBack(Result(w, key, actions), key, initial, seen);
    FailuresArePaidFor(Result(w, key, actions), key, initial, seen, |w.clients|);
  }

  lemma ReadsBack(w: World, key: bytes, initial: int, seen: seq<nat>)
    requires Inv(w, key, initial, seen)
    ensures Lookup(w.store.kvs, key).Some?
    ensures Stoi(Lookup(w.store.kvs, key).value.value) == initial + Sum(w.wins) + Sum(w.hidden)
  {
    StoiOfToString(initial + Added(w));
  }

  predicate Loses(a: Action) {
    a.Lose?
  }

  lemma {:induction false} NothingLost(w: World, key: bytes, actions: seq<Action>)
    requires Runs(w, key, actions) && forall a <- actions :: !Loses(a)
    ensures Result(w, key, actions).lost == w.lost
    decreases |actions|
  {
    hide Enabled, Next;
    if actions != [] {
      assert !Loses(actions[0]);
      StepLosesNothing(w, key, actions[0]);
      NothingLost(Next(w, key, actions[0]), key, actions[1..]);
    }
  }

  lemma StepLosesNothing(w: World, key: bytes, a: Action)
    requires Enabled(w, key, a) && Sized(w) && !Loses(a)
    ensures Next(w, key, a).lost == w.lost
  {
    hide Attempt, Fetch;
  }

  /** When no call is lost: exactly the successful swaps, and failures are at most successes * (clients - 1). */
  lemma FetchAndAddWithoutLoss(w: World, key: bytes, initial: int, actions: seq<Action>)
    requires Start(w, key, initial) && Runs(w, key, actions) && forall a <- actions :: !Loses(a)
    ensures var w' := Result(w, key, actions);
            && Lookup(w'.store.kvs, key).Some?
            && Stoi(Lookup(w'.store.kvs, key).value.value) == initial + Sum(w'.wins)
            && Sum(w'.losses) <= Sum(w'.wins) * (|w.clients| - 1)
  {
    FetchAndAddIsExact(w, key, initial, actions);
    NothingLost(w, key, actions);
    SumZero(w.lost);
    var w' := Result(w, key, actions);
    assert Added(w') == Sum(w'.wins);
    hide *;
  }
}
