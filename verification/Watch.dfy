/**
 * The watch action (src/v3/AsyncGRPC.cpp:1221-1496): a gRPC stream driven by completion tags, one loop
 * that waits for a single answer, one that calls back for every change, and `CancelWatch`, which any
 * thread may call at any time.
 *
 * The completion queue picks any outstanding operation to complete next, successfully or not; replies
 * arrive in stream order. A loop iteration touches shared state once (the exchange in `CancelWatch`),
 * so whole iterations interleave with the atomic steps of the other threads.
 */
module Watch {
  import opened Ranges
  import opened Store
  import opened Actions

  // ----- replies and what is made of them

  datatype EventType = PUT | DELETE | UNKNOWN

  datatype Event = Event(eventType: EventType, kv: KeyValue, prevKv: Option<KeyValue>)

  datatype Reply = Reply(watchId: int, created: bool, canceled: bool, revision: int, compactRevision: int,
                         events: seq<Event>)

  const UNSET_REPLY := Reply(0, false, false, 0, 0, [])

  datatype WatchResponse = WatchResponse(errorCode: int, errorMessage: string, action: string, watchId: int,
                                         index: int, compactRevision: int,
                                         value: KeyValue, prevValue: KeyValue, events: seq<Event>)

  const OUT_OF_RANGE := 11
  const COMPACTED_MESSAGE := "required revision has been compacted"
  const CREATE_FAILED_MESSAGE := "failed to create a watch connection"
  const WRITE_FAILED_MESSAGE := "failed to write WatchCreateRequest to server"
  const CANCELLED := 1

  function ActionOf(e: Event): string {
    match e.eventType
    case PUT => if e.kv.version == 1 then "create" else "set"
    case DELETE => "delete"
    case UNKNOWN => "watch"
  }

  /** `AsyncWatchAction::ParseResponse`: value and action come from the first event alone. */
  function Parsed(status: Status, r: Reply): WatchResponse {
    var blank := WatchResponse(0, "", "watch", r.watchId, 0, -1, EMPTY_KV, EMPTY_KV, []);
    if status.code != 0 then blank.(errorCode := status.code, errorMessage := status.message)
    else if r.canceled && r.compactRevision != 0 then
      blank.(errorCode := OUT_OF_RANGE, errorMessage := COMPACTED_MESSAGE,
             compactRevision := r.compactRevision)
    else if r.events == [] then blank.(index := r.revision)
    else
      var e := r.events[0];
      blank.(index := r.revision, events := r.events, action := ActionOf(e),
             value := if e.eventType == UNKNOWN then EMPTY_KV else e.kv,
             prevValue := match e.prevKv case None => EMPTY_KV case Some(kv) => kv)
  }

  // ----- the machine

  datatype Mode = OneShot | Callback

  datatype Op = ReadReply | ReadDummy | WriteCancel | WritesDone | Finish

  datatype Tag = THIS | WATCH_WRITE_CANCEL | WATCH_WRITES_DONE | WATCH_FINISH

  /** The read that only waits for the end of a one-shot watch shares its tag with `Finish`. */
  function TagOf(op: Op): Tag {
    match op
    case ReadReply => THIS
    case ReadDummy => WATCH_FINISH
    case WriteCancel => WATCH_WRITE_CANCEL
    case WritesDone => WATCH_WRITES_DONE
    case Finish => WATCH_FINISH
  }

  /** A thread inside `CancelWatch`: before the exchange, between winning it and writing, or through. */
  datatype Caller = Entered | Won | Left

  /**
   * The stream and its completion queue: operations outstanding, replies not yet read, whether the
   * queue is shut down; and what has happened so far: operations issued, replies read, and whether an
   * operation was ever issued on a queue that had been shut down.
   */
  datatype Queue = Queue(pending: multiset<Op>, unread: seq<Reply>, shut: bool,
                         issued: multiset<Op>, got: seq<Reply>, late: bool)

  /** The loop: whether it still runs, its `the_final_round`, the iterations and the callbacks made. */
  datatype Loop = Loop(running: bool, finalRound: bool, rounds: nat, callbacks: seq<WatchResponse>)

  datatype State = State(mode: Mode, startRevision: int, status: Status, reply: Reply, isCancelled: bool,
                         queue: Queue, loop: Loop, callers: map<nat, Caller>)

  datatype Step =
    | Enter(t: nat)
    | Exchange(t: nat)
    | IssueCancel(t: nat)
    | Complete(op: Op, ok: bool, code: Status)
    | TimedOut

  /** How the constructor fared: the stream opened and the request written, or one of them failed. */
  datatype Connect = Connected | CreateFailed | WriteFailed

  function Begin(mode: Mode, startRevision: int, replies: seq<Reply>, connect: Connect): State {
    var status := match connect
      case Connected => OK
      case CreateFailed => Status(CANCELLED, CREATE_FAILED_MESSAGE)
      case WriteFailed => Status(CANCELLED, WRITE_FAILED_MESSAGE);
    var first := if connect.Connected? then multiset{ReadReply} else multiset{};
    State(mode, startRevision, status, UNSET_REPLY, !connect.Connected?,
          Queue(first, replies, false, first, [], false),
          Loop(connect.Connected? || mode.Callback?, false, 0,
               if connect.Connected? || mode.OneShot? then [] else [Parsed(status, UNSET_REPLY)]),
          map[])
  }

  function Issued(q: Queue, op: Op): Queue {
    q.(pending := q.pending + multiset{op}, issued := q.issued + multiset{op}, late := q.late || q.shut)
  }

  function Issue(s: State, op: Op): State {
    s.(queue := Issued(s.queue, op))
  }

  function Stop(s: State): State {
    s.(loop := s.loop.(running := false))
  }

  function ShutDown(s: State): State {
    Stop(s.(queue := s.queue.(shut := true)))
  }

  function Call(s: State): State {
    s.(loop := s.loop.(callbacks := s.loop.callbacks + [Parsed(s.status, s.reply)]))
  }

  function Round(s: State): State {
    s.(loop := s.loop.(rounds := s.loop.rounds + 1))
  }

  predicate Enabled(s: State, e: Step) {
    match e
    case Enter(t) => t !in s.callers
    case Exchange(t) => t in s.callers && s.callers[t].Entered?
    case IssueCancel(t) => t in s.callers && s.callers[t].Won?
    case Complete(op, ok, _) =>
      s.loop.running && op in s.queue.pending && (op.ReadReply? && ok ==> s.queue.unread != [])
    case TimedOut => s.loop.running && s.loop.finalRound
  }

  function Next(s: State, e: Step): State
    requires Enabled(s, e)
  {
    match e
    case Enter(t) => s.(callers := s.callers[t := Entered])
    case Exchange(t) =>
      if s.isCancelled then s.(callers := s.callers[t := Left])
      else s.(isCancelled := true, callers := s.callers[t := Won])
    case IssueCancel(t) => Issue(s.(callers := s.callers[t := Left]), WriteCancel)
    case Complete(op, ok, code) => Dispatch(Deliver(s, op, ok, code), TagOf(op), ok)
    case TimedOut => ShutDown(Round(s))
  }

  function Completed(q: Queue, op: Op, ok: bool): Queue
    requires op.ReadReply? && ok ==> q.unread != []
  {
    var q1 := q.(pending := q.pending - multiset{op});
    if op.ReadReply? && ok then q1.(unread := q.unread[1..], got := q.got + [q.unread[0]]) else q1
  }

  /** The queue hands over a completion; a successful read fills `reply`, a finish sets `status`. */
  function Deliver(s: State, op: Op, ok: bool, code: Status): State
    requires op.ReadReply? && ok ==> s.queue.unread != []
  {
    Round(s).(queue := Completed(s.queue, op, ok),
              reply := if op.ReadReply? && ok then s.queue.unread[0] else s.reply,
              status := if op.Finish? then code else s.status)
  }

  function Dispatch(s: State, tag: Tag, ok: bool): State {
    if !ok then Stop(s)
    else match tag
      case WATCH_WRITE_CANCEL => Issue(s, WritesDone)
      case WATCH_WRITES_DONE => Issue(s.(loop := s.loop.(finalRound := true)), Finish)
      case WATCH_FINISH => ShutDown(s)
      case THIS => if s.mode.OneShot? then OneShotReply(s) else CallbackReply(s)
  }

  /** A reply that answers a one-shot watch. */
  predicate Effective(r: Reply, startRevision: int) {
    (r.created && r.revision < startRevision) || r.events != []
  }

  function OneShotReply(s: State): State {
    if s.reply.canceled then s
    else if Effective(s.reply, s.startRevision) then
      Issue(if s.isCancelled then s else Issue(s.(isCancelled := true), WriteCancel), ReadDummy)
    else Issue(s, ReadReply)
  }

  function CallbackReply(s: State): State {
    if s.reply.canceled then if s.reply.compactRevision != 0 then Call(s) else s
    else Issue(if s.reply.events != [] then Call(s) else s, ReadReply)
  }

  predicate CanRun(s: State, steps: seq<Step>)
    decreases |steps|
  {
    steps == [] || (Enabled(s, steps[0]) && CanRun(Next(s, steps[0]), steps[1..]))
  }

  function Run(s: State, steps: seq<Step>): State
    requires CanRun(s, steps)
    decreases |steps|
  {
    if steps == [] then s else Run(Next(s, steps[0]), steps[1..])
  }

  // ----- the code

  class AsyncWatchAction {
    const mode: Mode
    const startRevision: int
    var status: Status
    var reply: Reply
    var isCancelled: bool

    var queue: Queue
    var callers: map<nat, Caller>

    // the loop
    var running: bool
    var finalRound: bool
    var rounds: nat
    var callbacks: seq<WatchResponse>

    function View(): State
      reads this
    {
      State(mode, startRevision, status, reply, isCancelled, queue, Loop(running, finalRound, rounds, callbacks),
            callers)
    }

    /** Opens the stream, writes the request and starts the first read; `running` is the loop that follows. */
    constructor (mode: Mode, startRevision: int, replies: seq<Reply>, connect: Connect)
      ensures View() == Begin(mode, startRevision, replies, connect)
    {
      this.mode, this.startRevision := mode, startRevision;
      status, reply, isCancelled := OK, UNSET_REPLY, false;
      queue, callers := Queue(multiset{}, replies, false, multiset{}, [], false), map[];
      running, finalRound, rounds, callbacks := true, false, 0, [];
      new;
      if connect.CreateFailed? {
        status := Status(CANCELLED, CREATE_FAILED_MESSAGE);
        isCancelled := true;
      } else if connect.WriteFailed? {
        status := Status(CANCELLED, WRITE_FAILED_MESSAGE);
        isCancelled := true;
      } else {
        StartOp(ReadReply);
      }
      if status.code != 0 {
        if mode.OneShot? {
          running := false;
        } else {
          var resp := ParseResponse();
          callbacks := callbacks + [resp];
        }
      }
    }

    method StartOp(op: Op)
      modifies this`queue
      ensures View() == Issue(old(View()), op)
    {
      queue := Issued(queue, op);
    }

    method ParseResponse() returns (resp: WatchResponse)
      ensures resp == Parsed(status, reply)
    {
      resp := WatchResponse(0, "", "watch", reply.watchId, 0, -1, EMPTY_KV, EMPTY_KV, []);
      if status.code != 0 {
        return resp.(errorCode := status.code, errorMessage := status.message);
      }
      if reply.canceled && reply.compactRevision != 0 {
        return resp.(errorCode := OUT_OF_RANGE, errorMessage := COMPACTED_MESSAGE,
                     compactRevision := reply.compactRevision);
      }
      resp := resp.(index := reply.revision, events := reply.events);
      if |reply.events| > 0 {  // the loop over the events leaves after the first one
        var event := reply.events[0];
        if event.eventType.PUT? {
          resp := resp.(action := if event.kv.version == 1 then "create" else "set", value := event.kv);
        } else if event.eventType.DELETE? {
          resp := resp.(action := "delete", value := event.kv);
        }
        if event.prevKv.Some? {
          resp := resp.(prevValue := event.prevKv.value);
        }
      }
    }

    /** `CancelWatch` as the loop calls it. */
    method CancelWatch()
      modifies this`isCancelled, this`queue
      ensures View() == if old(isCancelled) then old(View())
                        else Issue(old(View()).(isCancelled := true), WriteCancel)
    {
      if !isCancelled {
        isCancelled := true;
        StartOp(WriteCancel);
      }
    }

    /** A step of another thread, taken while the loop waits. */
    method Interleave(e: Step)
      requires Enabled(View(), e) && !e.Complete? && !e.TimedOut?
      modifies this
      ensures View() == Next(old(View()), e)
    {
      match e {
        case Enter(t) =>
          callers := callers[t := Entered];
        case Exchange(t) =>
          if isCancelled {
            callers := callers[t := Left];
          } else {
            isCancelled := true;
            callers := callers[t := Won];
          }
        case IssueCancel(t) =>
          callers := callers[t := Left];
          StartOp(WriteCancel);
      }
    }

    /** `cq_.Next` returning a completion. */
    method NextCompletion(op: Op, ok: bool, code: Status) returns (tag: Tag)
      requires op.ReadReply? && ok ==> queue.unread != []
      modifies this
      ensures View() == Deliver(old(View()), op, ok, code) && tag == TagOf(op)
    {
      tag := TagOf(op);
      hide Completed;
      rounds := rounds + 1;
      if op.Finish? {
        status := code;
      } else if op.ReadReply? && ok {
        reply := queue.unread[0];
      }
      queue := Completed(queue, op, ok);
    }

    /**
     * Both `waitForResponse` loops, under any schedule of completions and of steps of other threads. The
     * loop ends when it breaks, or waits for ever once the schedule is used up.
     */
    method WaitForResponse(steps: seq<Step>) returns (n: nat)
      requires CanRun(View(), steps)
      modifies this
      ensures n <= |steps| && CanRun(View(), steps[n..])
      ensures Run(View(), steps[n..]) == Run(old(View()), steps)
      ensures n < |steps| ==> !running
    {
      n := 0;
      assert steps[n..] == steps;
      while n < |steps| && running
        invariant n <= |steps| && CanRun(View(), steps[n..])
        invariant Run(View(), steps[n..]) == Run(old(View()), steps)
      {
        assert steps[n..][0] == steps[n] && steps[n..][1..] == steps[n + 1..];
        match steps[n] {
          case TimedOut =>
            rounds := rounds + 1;
            queue := queue.(shut := true);
            running := false;
          case Complete(op, ok, code) =>
            var tag := NextCompletion(op, ok, code);
            Handle(tag, ok);
          case _ =>
            Interleave(steps[n]);
        }
        n := n + 1;
      }
    }

    /** The body of the loops behind the wait. */
    method Handle(tag: Tag, ok: bool)
      modifies this
      ensures View() == Dispatch(old(View()), tag, ok)
    {
      if !ok {
        running := false;
      } else if tag == WATCH_WRITE_CANCEL {
        StartOp(WritesDone);
      } else if tag == WATCH_WRITES_DONE {
        finalRound := true;
        StartOp(Finish);
      } else if tag == WATCH_FINISH {
        queue := queue.(shut := true);
        running := false;
      } else if mode.OneShot? {
        HandleOneShotReply();
      } else {
        HandleCallbackReply();
      }
    }

    method HandleOneShotReply()
      modifies this
      ensures View() == OneShotReply(old(View()))
    {
      if reply.canceled {
        return;
      }
      if (reply.created && reply.revision < startRevision) || |reply.events| > 0 {
        CancelWatch();
        StartOp(ReadDummy);
      } else {
        StartOp(ReadReply);
      }
    }

    method HandleCallbackReply()
      modifies this
      ensures View() == CallbackReply(old(View()))
    {
      if reply.canceled {
        if reply.compactRevision != 0 {
          var resp := ParseResponse();
          callbacks := callbacks + [resp];
        }
        return;
      }
      if |reply.events| > 0 {
        var resp := ParseResponse();
        callbacks := callbacks + [resp];
      }
      StartOp(ReadReply);
    }
  }
}
