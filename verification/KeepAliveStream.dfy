/**
 * The keep-alive stream of a lease (src/v3/AsyncGRPC.cpp:539-705). Its two operations hold a recursive
 * mutex throughout, so they run one after the other; what the network does is a parameter.
 */
module KeepAliveStream {
  import opened Ranges
  import opened Actions

  const CANCELLED := 1
  const DEADLINE_EXCEEDED := 4
  const ABORTED := 10
  const UNAVAILABLE := 14

  datatype Op = Write | Read | WritesDone | Finish

  /** What a wait for the completion queue returns; `Finish` brings the final status of the stream. */
  datatype Wait = TimesOut | QueueShut | Got(op: Op, ok: bool, final: Status)

  /**
   * The stream: operations outstanding, requests that reached the server, and how many replies were read.
   * The server answers the requests it gets in order. `writing` is the request being written, `issued`
   * counts operations, and `overlap` records a half-close started while a write was outstanding.
   */
  datatype Stream = Stream(pending: multiset<Op>, sent: seq<nat>, answered: nat, writing: nat, shut: bool,
                           issued: nat, overlap: bool)

  /** `reply` is the request whose answer was read last. */
  datatype State = State(status: Status, isCancelled: bool, reply: Option<nat>, stream: Stream)

  /** What a call returns: an error code, and the request whose answer it carries. */
  datatype Response = Response(code: int, answers: Option<nat>)

  function Begin(created: bool): State {
    State(if created then OK else Status(CANCELLED, "Failed to create a lease keep-alive connection"),
          !created, None, Stream(multiset{}, [], 0, 0, false, 0, false))
  }

  function ParseResponse(s: State): Response {
    if s.status.code != 0 then Response(s.status.code, None) else Response(0, s.reply)
  }

  function Issue(s: State, op: Op, request: nat): State {
    s.(stream := s.stream.(pending := s.stream.pending + multiset{op}, issued := s.stream.issued + 1,
                           writing := if op.Write? then request else s.stream.writing,
                           overlap := s.stream.overlap || (op.WritesDone? && Write in s.stream.pending)))
  }

  /**
   * What a wait can return: a completion of what is outstanding, an answer only to a request. A wait with
   * a deadline may give up at any time; one without never does while something is outstanding.
   */
  predicate Possible(s: State, w: Wait, deadline: bool) {
    match w
    case TimesOut => deadline
    case QueueShut => deadline
    case Got(op, ok, _) => op in s.stream.pending && (op.Read? && ok ==> s.stream.answered < |s.stream.sent|)
  }

  /** A successful write has reached the server, a failed one has not; a successful read brings the next answer. */
  function Completed(s: State, w: Wait): State
    requires w.Got? && w.op.Read? && w.ok ==> s.stream.answered < |s.stream.sent|
  {
    match w
    case Got(op, ok, final) =>
      var t := s.stream.(pending := s.stream.pending - multiset{op});
      if op.Write? && ok then s.(stream := t.(sent := t.sent + [t.writing]))
      else if op.Read? && ok then s.(stream := t.(answered := t.answered + 1), reply := Some(t.sent[t.answered]))
      else if op.Finish? then s.(stream := t, status := final)
      else s.(stream := t)
    case _ => s
  }

  // ----- the operations as functions of the network's behaviour

  /** The two waits of `CancelKeepAlive`. */
  datatype Closing = Closing(done: Wait, finish: Wait)

  /** What a refresh may meet: the write, the read, and the waits of the cancellation, if it comes to them. */
  datatype Network = Network(write: Wait, read: Wait, closing: Closing)

  predicate PossibleClosing(s: State, c: Closing) {
    !s.isCancelled ==>
      var s1 := Issue(s.(isCancelled := true), WritesDone, 0);
      && Possible(s1, c.done, false)
      && Possible(Issue(Completed(s1, c.done), Finish, 0), c.finish, false)
  }

  function Closed(s: State, c: Closing): State
    requires PossibleClosing(s, c)
  {
    if s.isCancelled then s
    else
      var s1 := Completed(Issue(s.(isCancelled := true), WritesDone, 0), c.done);
      var s2 := Completed(Issue(s1, Finish, 0), c.finish);
      s2.(stream := s2.stream.(shut := true))
  }

  /** How a write wait ends: the request is out, the write failed, or the wait did. */
  function WriteStatus(w: Wait): Status {
    match w
    case TimesOut => Status(DEADLINE_EXCEEDED, "gRPC timeout during keep alive write")
    case QueueShut => Status(UNAVAILABLE, "gRPC already shutdown during keep alive write")
    case Got(_, _, _) => OK
  }

  predicate WriteOk(n: Network) {
    n.write.Got? && n.write.op.Write? && n.write.ok
  }

  predicate ReadOk(n: Network) {
    WriteOk(n) && n.read.Got? && n.read.op.Read? && n.read.ok
  }

  /** With a deadline, a write that completes badly returns at once and leaves the stream open. */
  predicate LeavesOpen(n: Network, deadline: bool) {
    deadline && n.write.Got? && !WriteOk(n)
  }

  function Written(s: State, request: nat, n: Network): State
    requires Possible(Issue(s, Write, request), n.write, true)
  {
    Completed(Issue(s, Write, request), n.write)
  }

  /** The state in which a refresh that fails starts the cancellation. */
  function Failing(s: State, request: nat, deadline: bool, n: Network): State
    requires Possible(Issue(s, Write, request), n.write, true)
    requires WriteOk(n) ==> Possible(Issue(Written(s, request, n), Read, 0), n.read, true)
  {
    var w := Written(s, request, n);
    if WriteOk(n) then
      var r := Completed(Issue(w, Read, 0), n.read);
      match n.read
      case TimesOut => r.(status := Status(DEADLINE_EXCEEDED, "gRPC timeout during keep alive read"))
      case QueueShut => r.(status := Status(UNAVAILABLE, "gRPC already shutdown during keep alive read"))
      case Got(_, _, _) => r
    else if deadline && !n.write.Got? then w.(status := WriteStatus(n.write))
    else w
  }

  predicate PossibleRefresh(s: State, request: nat, deadline: bool, n: Network) {
    !s.isCancelled ==>
      && Possible(Issue(s, Write, request), n.write, deadline)
      && (WriteOk(n) ==> Possible(Issue(Written(s, request, n), Read, 0), n.read, deadline))
      && (!ReadOk(n) && !LeavesOpen(n, deadline) ==> PossibleClosing(Failing(s, request, deadline, n), n.closing))
  }

  function Refreshed(s: State, request: nat, deadline: bool, n: Network): (State, Response)
    requires PossibleRefresh(s, request, deadline, n)
  {
    if s.isCancelled then
      var c := s.(status := Status(CANCELLED, ""));
      (c, ParseResponse(c))
    else if LeavesOpen(n, deadline) then
      (Written(s, request, n), Response(ABORTED, None))
    else
      var f := Failing(s, request, deadline, n);
      if ReadOk(n) then (f, ParseResponse(f))
      else
        var c := Closed(f, n.closing);
        (c, if deadline && !n.write.Got? then ParseResponse(c) else Response(ABORTED, None))
  }

  /** Between two calls a stream that is not cancelled has nothing outstanding and every request answered. */
  ghost predicate Settled(s: State) {
    !s.isCancelled ==> s.status == OK && s.stream.pending == multiset{} && s.stream.answered == |s.stream.sent|
                       && !s.stream.shut
  }

  // ----- the code

  class AsyncLeaseKeepAliveAction {
    var status: Status
    var isCancelled: bool
    var reply: Option<nat>
    var stream: Stream

    function View(): State
      reads this
    {
      State(status, isCancelled, reply, stream)
    }

    constructor (created: bool)
      ensures View() == Begin(created)
    {
      isCancelled, reply := false, None;
      status := OK;
      stream := Stream(multiset{}, [], 0, 0, false, 0, false);
      if !created {
        status := Status(CANCELLED, "Failed to create a lease keep-alive connection");
        isCancelled := true;
      }
    }

    /** Starts an operation on the stream. */
    method Start(op: Op, request: nat)
      modifies this`stream
      ensures View() == Issue(old(View()), op, request)
    {
      stream := Issue(View(), op, request).stream;
    }

    /** Waits for the completion queue. */
    method Await(w: Wait, deadline: bool)
      requires Possible(View(), w, deadline)
      modifies this
      ensures View() == Completed(old(View()), w)
    {
      var c := Completed(View(), w);
      status, reply, stream := c.status, c.reply, c.stream;
    }

    method CancelKeepAlive(c: Closing)
      requires PossibleClosing(View(), c)
      modifies this
      ensures View() == Closed(old(View()), c)
    {
      if !isCancelled {
        isCancelled := true;
        Start(WritesDone, 0);
        Await(c.done, false);
        Start(Finish, 0);
        Await(c.finish, false);
        stream := stream.(shut := true);
      }
    }

    method Refresh(request: nat, deadline: bool, n: Network) returns (r: Response)
      requires Settled(View()) && PossibleRefresh(View(), request, deadline, n)
      modifies this
      ensures (View(), r) == Refreshed(old(View()), request, deadline, n) && Settled(View())
    {
      RefreshSettles(View(), request, deadline, n);
      if isCancelled {
        status := Status(CANCELLED, "");
        return ParseResponse(View());
      }
      if deadline {
        r := RefreshWithDeadline(request, n);
      } else {
        r := RefreshWithoutDeadline(request, n);
      }
    }

    method RefreshWithDeadline(request: nat, n: Network) returns (r: Response)
      requires !isCancelled && status == OK && PossibleRefresh(View(), request, true, n)
      modifies this
      ensures (View(), r) == Refreshed(old(View()), request, true, n)
    {
      Start(Write, request);
      Await(n.write, true);
      match n.write {
        case TimesOut =>
          status := Status(DEADLINE_EXCEEDED, "gRPC timeout during keep alive write");
        case QueueShut =>
          status := Status(UNAVAILABLE, "gRPC already shutdown during keep alive write");
        case Got(op, ok, _) =>
          if !ok || !op.Write? {
            return Response(ABORTED, None);
          }
      }
      if status.code != 0 {
        CancelKeepAlive(n.closing);
        return ParseResponse(View());
      }
      Start(Read, 0);
      Await(n.read, true);
      match n.read {
        case TimesOut =>
          status := Status(DEADLINE_EXCEEDED, "gRPC timeout during keep alive read");
        case QueueShut =>
          status := Status(UNAVAILABLE, "gRPC already shutdown during keep alive read");
        case Got(op, ok, _) =>
          if ok && op.Read? {
            return ParseResponse(View());
          }
      }
      CancelKeepAlive(n.closing);
      r := Response(ABORTED, None);
    }

    method RefreshWithoutDeadline(request: nat, n: Network) returns (r: Response)
      requires !isCancelled && PossibleRefresh(View(), request, false, n)
      modifies this
      ensures (View(), r) == Refreshed(old(View()), request, false, n)
    {
      Start(Write, request);
      Await(n.write, false);
      if n.write.Got? && n.write.ok && n.write.op.Write? {
        Start(Read, 0);
        Await(n.read, false);
        if n.read.Got? && n.read.ok && n.read.op.Read? {
          return ParseResponse(View());
        }
      }
      CancelKeepAlive(n.closing);
      r := Response(ABORTED, None);
    }
  }

  // ----- one call

  /** A completion brings a status with `Finish` and a reply with `Read`, and nothing else. */
  lemma CompletedFacts(s: State, w: Wait)
    requires Possible(s, w, false)
    ensures w.Got?
    ensures var c := Completed(s, w);
            && c.isCancelled == s.isCancelled && c.stream.overlap == s.stream.overlap
            && c.status == (if w.op.Finish? then w.final else s.status)
            && (Read !in s.stream.pending ==> c.reply == s.reply)
            && c.stream.pending == s.stream.pending - multiset{w.op}
  {
  }

  lemma ClosedFacts(s: State, c: Closing)
    requires PossibleClosing(s, c) && !s.isCancelled && Finish !in s.stream.pending
    ensures Closed(s, c).isCancelled
    ensures c.finish.Got? && Closed(s, c).status == if c.finish.op.Finish? then c.finish.final else s.status
    ensures Read !in s.stream.pending ==> Closed(s, c).reply == s.reply
    ensures Closed(s, c).stream.overlap <==> s.stream.overlap || Write in s.stream.pending
  {
    hide Completed;
    var i1 := Issue(s.(isCancelled := true), WritesDone, 0);
    assert Finish !in i1.stream.pending && (Read !in s.stream.pending ==> Read !in i1.stream.pending);
    CompletedFacts(i1, c.done);
    var i2 := Issue(Completed(i1, c.done), Finish, 0);
    assert Read !in s.stream.pending ==> Read !in i2.stream.pending;
    assert c.done.op in i1.stream.pending;
    hide Possible;
    CompletedFacts(i2, c.finish);
  }

  lemma ClosedIsCancelled(s: State, c: Closing)
    requires PossibleClosing(s, c)
    ensures Closed(s, c).isCancelled
  {
  }

  /** What is outstanding behind the write of a refresh. */
  lemma WrittenFacts(s: State, request: nat, n: Network)
    requires Settled(s) && !s.isCancelled && Possible(Issue(s, Write, request), n.write, true)
    ensures var w := Written(s, request, n);
            && w.stream.pending == (if n.write.Got? then multiset{} else multiset{Write})
            && w.status == OK && !w.isCancelled && w.reply == s.reply && !w.stream.shut
            && w.stream.answered == s.stream.answered && w.stream.overlap == s.stream.overlap
            && w.stream.sent == if WriteOk(n) then s.stream.sent + [request] else s.stream.sent
  {
    assert Issue(s, Write, request).stream.pending == multiset{Write};
  }

  lemma RefreshSettles(s: State, request: nat, deadline: bool, n: Network)
    requires Settled(s) && PossibleRefresh(s, request, deadline, n)
    ensures Settled(Refreshed(s, request, deadline, n).0)
    ensures !s.isCancelled && ReadOk(n) ==> Refreshed(s, request, deadline, n).1 == Response(0, Some(request))
  {
    hide Written, Closed, PossibleClosing;
    if !s.isCancelled {
      WrittenFacts(s, request, n);
      if WriteOk(n) {
        assert Issue(Written(s, request, n), Read, 0).stream.pending == multiset{Read};
      }
      if !ReadOk(n) && !LeavesOpen(n, deadline) {
        ClosedIsCancelled(Failing(s, request, deadline, n), n.closing);
      }
    }
  }

  /** The state in which a failing refresh cancels: nothing read, and the write outstanding if it timed out. */
  lemma FailingFacts(s: State, request: nat, deadline: bool, n: Network)
    requires Settled(s) && !s.isCancelled && PossibleRefresh(s, request, deadline, n)
    requires !ReadOk(n) && !LeavesOpen(n, deadline)
    ensures var f := Failing(s, request, deadline, n);
            && !f.isCancelled && f.reply == s.reply && f.stream.overlap == s.stream.overlap
            && Finish !in f.stream.pending && (Write in f.stream.pending <==> !n.write.Got?)
            && (!n.write.Got? ==> f.status.code != 0 && Read !in f.stream.pending)
  {
    hide Written, PossibleClosing;
    WrittenFacts(s, request, n);
    if WriteOk(n) {
      assert Issue(Written(s, request, n), Read, 0).stream.pending == multiset{Read};
    }
  }

  /** A refresh whose failed wait was for the write reports success if closing the stream went well. */
  predicate ClosesWell(n: Network) {
    !n.write.Got? && n.closing.finish.Got? && n.closing.finish.op.Finish? && n.closing.finish.final.code == 0
  }

  /**
   * One refresh. On a cancelled stream it touches nothing and fails. Otherwise: if it completes its read
   * it returns the answer to the very request it wrote; the stream stays open if and only if the read
   * completed, or there is a deadline and the write completed badly; without a completed read it reports
   * success exactly if the write timed out and the stream then closed with an OK status, and what it
   * returns then is the answer to an earlier request; and a half-close is started on top of an
   * outstanding write exactly if that write timed out.
   */
  lemma RefreshOutcome(s: State, request: nat, deadline: bool, n: Network)
    requires Settled(s) && PossibleRefresh(s, request, deadline, n)
    ensures var (s', r) := Refreshed(s, request, deadline, n);
            if s.isCancelled then s'.isCancelled && s'.stream == s.stream && r == Response(CANCELLED, None)
            else
              && (!s'.isCancelled <==> ReadOk(n) || LeavesOpen(n, deadline))
              && (ReadOk(n) ==> r == Response(0, Some(request)) && s'.reply == Some(request))
              && (!ReadOk(n) ==> (r.code == 0 <==> ClosesWell(n)) && (r.code == 0 ==> r.answers == s.reply))
              && (s'.stream.overlap <==> s.stream.overlap || !n.write.Got?)
  {
    hide Written, Failing, Closed, PossibleClosing, Settled;
    RefreshSettles(s, request, deadline, n);
    if !s.isCancelled {
      if ReadOk(n) || LeavesOpen(n, deadline) {
        OpenFacts(s, request, deadline, n);
      } else {
        FailingFacts(s, request, deadline, n);
        ClosedFacts(Failing(s, request, deadline, n), n.closing);
      }
    }
  }

  lemma OpenFacts(s: State, request: nat, deadline: bool, n: Network)
    requires Settled(s) && !s.isCancelled && PossibleRefresh(s, request, deadline, n)
    requires ReadOk(n) || LeavesOpen(n, deadline)
    ensures var s' := Refreshed(s, request, deadline, n).0;
            !s'.isCancelled && s'.stream.overlap == s.stream.overlap && n.write.Got?
            && (ReadOk(n) ==> s'.reply == Some(request))
  {
    hide Written, Closed, PossibleClosing;
    WrittenFacts(s, request, n);
  }

  // ----- whole runs

  datatype Call = Refresh(deadline: bool, network: Network) | Cancel(closing: Closing)

  predicate PossibleCall(s: State, i: nat, c: Call) {
    match c
    case Refresh(deadline, n) => PossibleRefresh(s, i, deadline, n)
    case Cancel(closing) => PossibleClosing(s, closing)
  }

  function Step(s: State, i: nat, c: Call): State
    requires PossibleCall(s, i, c)
  {
    match c
    case Refresh(deadline, n) => Refreshed(s, i, deadline, n).0
    case Cancel(closing) => Closed(s, closing)
  }

  /** A run of calls, the first of which is number `i`; a refresh writes its own number as request. */
  predicate CanRun(s: State, i: nat, calls: seq<Call>)
    decreases |calls|
  {
    calls == [] || (PossibleCall(s, i, calls[0]) && CanRun(Step(s, i, calls[0]), i + 1, calls[1..]))
  }

  function Run(s: State, i: nat, calls: seq<Call>): State
    requires CanRun(s, i, calls)
    decreases |calls|
  {
    if calls == [] then s else Run(Step(s, i, calls[0]), i + 1, calls[1..])
  }

  lemma StepSettles(s: State, i: nat, c: Call)
    requires Settled(s) && PossibleCall(s, i, c)
    ensures Settled(Step(s, i, c))
    ensures s.isCancelled ==> Step(s, i, c).isCancelled && Step(s, i, c).stream == s.stream
  {
    hide Refreshed, Closed, PossibleRefresh, PossibleClosing;
    match c {
      case Refresh(deadline, n) =>
        RefreshSettles(s, i, deadline, n);
        RefreshOutcome(s, i, deadline, n);
      case Cancel(closing) =>
        ClosedIsCancelled(s, closing);
        ClosedAgain(s, closing);
    }
  }

  lemma ClosedAgain(s: State, c: Closing)
    requires PossibleClosing(s, c)
    ensures s.isCancelled ==> Closed(s, c) == s
  {
  }

  lemma {:induction false} RunSettles(s: State, i: nat, calls: seq<Call>)
    requires Settled(s) && CanRun(s, i, calls)
    ensures Settled(Run(s, i, calls))
    ensures s.isCancelled ==> Run(s, i, calls).isCancelled && Run(s, i, calls).stream == s.stream
    decreases |calls|
  {
    hide Settled, Step, PossibleCall;
    if calls != [] {
      StepSettles(s, i, calls[0]);
      RunSettles(Step(s, i, calls[0]), i + 1, calls[1..]);
    }
  }

  /**
   * Lock-step over whole runs, with and without deadlines: after any calls a refresh that completes its
   * read returns the answer to its own request. And once a refresh has failed other than by a write that
   * completed badly under a deadline, no later call touches the stream.
   */
  lemma LockStep(created: bool, calls: seq<Call>, deadline: bool, n: Network, more: seq<Call>)
    requires CanRun(Begin(created), 0, calls)
    requires PossibleRefresh(Run(Begin(created), 0, calls), |calls|, deadline, n)
    requires CanRun(Refreshed(Run(Begin(created), 0, calls), |calls|, deadline, n).0, |calls| + 1, more)
    ensures var s := Run(Begin(created), 0, calls);
            var (s', r) := Refreshed(s, |calls|, deadline, n);
            && (!s.isCancelled && ReadOk(n) ==> r == Response(0, Some(|calls|)))
            && (s.isCancelled || !(ReadOk(n) || LeavesOpen(n, deadline)) ==>
                  Run(s', |calls| + 1, more).stream == s'.stream)
  {
    hide Refreshed, PossibleRefresh, Step, PossibleCall, Settled, Begin;
    BeginSettled(created);
    RunSettles(Begin(created), 0, calls);
    var s := Run(Begin(created), 0, calls);
    RefreshSettles(s, |calls|, deadline, n);
    RefreshOutcome(s, |calls|, deadline, n);
    RunSettles(Refreshed(s, |calls|, deadline, n).0, |calls| + 1, more);
  }

  lemma BeginSettled(created: bool)
    ensures Settled(Begin(created))
  {
  }

  /** A timed-out write really can come back as a success: nothing was read, and code 0 is returned. */
  lemma TimeoutCanLookLikeSuccess()
    ensures var n := Network(TimesOut, TimesOut, Closing(Got(WritesDone, true, OK), Got(Finish, true, OK)));
            && PossibleRefresh(Begin(true), 0, true, n)
            && Refreshed(Begin(true), 0, true, n).1 == Response(0, None)
            && Refreshed(Begin(true), 0, true, n).0.stream.overlap
  {
    var b := Begin(true);
    var i := Issue(b, Write, 0);
    assert i.stream.pending == multiset{Write};
  }

  /** A write that completes badly is an error, and leaves the stream open under a deadline but not without. */
  lemma BadWriteLeavesOpen()
    ensures var n := Network(Got(Write, false, OK), TimesOut, Closing(Got(WritesDone, true, OK), Got(Finish, true, OK)));
            var b := Begin(true);
            && PossibleRefresh(b, 0, true, n) && PossibleRefresh(b, 0, false, n)
            && Refreshed(b, 0, true, n).1 == Refreshed(b, 0, false, n).1 == Response(ABORTED, None)
            && !Refreshed(b, 0, true, n).0.isCancelled && Refreshed(b, 0, false, n).0.isCancelled
  {
    var i := Issue(Begin(true), Write, 0);
    assert i.stream.pending == multiset{Write} && i.stream.pending - multiset{Write} == multiset{};
  }
}
