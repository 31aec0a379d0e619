/** What holds in every run of the watch loops, whatever the order of completions and the timing of cancels. */
module WatchProperties {
  import opened Actions
  import opened Watch

  // ----- stream discipline

  function Done(s: State, op: Op): int {
    s.queue.issued[op] as int - s.queue.pending[op] as int
  }

  /** Nobody has won the exchange yet; or one thread has but did not write yet; or the cancel request is out. */
  ghost predicate CancelOnce(s: State) {
    && (forall t, u | t in s.callers && u in s.callers :: s.callers[t].Won? && s.callers[u].Won? ==> t == u)
    && (!s.isCancelled ==> s.queue.issued[WriteCancel] == 0 && forall t | t in s.callers :: !s.callers[t].Won?)
    && (s.queue.issued[WriteCancel] > 0 ==> forall t | t in s.callers :: !s.callers[t].Won?)
  }

  ghost predicate Discipline(s: State) {
    && (forall op: Op :: s.queue.pending[op] <= s.queue.issued[op])
    // at most one read and one write-side operation are outstanding
    && s.queue.pending[ReadReply] + s.queue.pending[ReadDummy] <= 1
    && s.queue.pending[WriteCancel] + s.queue.pending[WritesDone] + s.queue.pending[Finish] <= 1
    // each of these is issued at most once in all, and only behind the one before it
    && s.queue.issued[WriteCancel] <= 1 && s.queue.issued[WritesDone] <= 1
    && s.queue.issued[Finish] <= 1 && s.queue.issued[ReadDummy] <= 1
    && s.queue.issued[WritesDone] <= Done(s, WriteCancel)
    && s.queue.issued[Finish] <= Done(s, WritesDone)
    && CancelOnce(s)
  }

  /** What the discipline rests on besides. */
  ghost predicate Support(s: State) {
    && (s.loop.finalRound <==> s.queue.issued[Finish] == 1)
    && (s.mode.Callback? ==> s.queue.issued[ReadDummy] == 0)
    && (s.queue.issued[ReadDummy] > 0 ==> s.queue.pending[ReadReply] == 0 && s.isCancelled)
    && (s.queue.shut ==> !s.loop.running && s.isCancelled)
    && (s.queue.shut && s.mode.Callback? ==> s.queue.issued[WriteCancel] == 1)
    && (s.mode.Callback? ==> !s.queue.late)
    && (s.status == OK || Done(s, Finish) == 1)
  }

  ghost predicate Good(s: State) {
    Discipline(s) && Support(s)
  }

  /** One operation is outstanding no more; nothing else that the discipline speaks of has changed. */
  ghost predicate Counted(s: State, d: State, op: Op) {
    && s.queue.pending[op] > 0
    && (forall o: Op ::
          d.queue.pending[o] as int == if o == op then (s.queue.pending[o] as int) - 1 else s.queue.pending[o])
    && d.queue.issued == s.queue.issued && d.queue.shut == s.queue.shut && d.queue.late == s.queue.late
    && d.isCancelled == s.isCancelled && d.callers == s.callers && d.mode == s.mode
    && d.loop.running == s.loop.running && d.loop.finalRound == s.loop.finalRound
    && (op.Finish? || d.status == s.status)
  }

  lemma DeliverCounts(s: State, op: Op, ok: bool, code: Status)
    requires Enabled(s, Complete(op, ok, code))
    ensures Counted(s, Deliver(s, op, ok, code), op)
  {
  }

  lemma CountedKeepsDiscipline(s: State, d: State, op: Op)
    requires Discipline(s) && s.queue.pending[op] > 0 && Counted(s, d, op)
    ensures Discipline(d) && Done(d, op) == Done(s, op) + 1 && d.queue.issued[op] > 0
  {
    assert CancelOnce(d);
    hide CancelOnce;
    assert forall o: Op :: Done(d, o) == if o == op then Done(s, o) + 1 else Done(s, o);
  }

  lemma CountedKeepsSupport(s: State, d: State, op: Op)
    requires Discipline(s) && Support(s) && s.queue.pending[op] > 0 && Counted(s, d, op)
    ensures Support(d)
  {
    hide CancelOnce;
  }

  lemma DeliverKeeps(s: State, op: Op, ok: bool, code: Status)
    requires Good(s) && Enabled(s, Complete(op, ok, code))
    ensures Good(Deliver(s, op, ok, code))
    ensures Done(Deliver(s, op, ok, code), op) == Done(s, op) + 1 && Deliver(s, op, ok, code).queue.issued[op] > 0
  {
    DeliverCounts(s, op, ok, code);
    var d := Deliver(s, op, ok, code);
    hide Deliver, Discipline, Support, Counted;
    CountedKeepsDiscipline(s, d, op);
    CountedKeepsSupport(s, d, op);
  }

  lemma IssueReadKeeps(s: State, op: Op)
    requires Good(s) && s.loop.running && s.queue.issued[ReadDummy] == 0 && s.queue.pending[ReadReply] == 0
    requires op.ReadReply? || (op.ReadDummy? && s.mode.OneShot? && s.isCancelled)
    ensures Good(Issue(s, op))
  {
    var i := Issue(s, op);
    assert forall o: Op :: i.queue.pending[o] == if o == op then s.queue.pending[o] + 1 else s.queue.pending[o];
    assert forall o: Op :: i.queue.issued[o] == if o == op then s.queue.issued[o] + 1 else s.queue.issued[o];
  }

  lemma IssueCancelKeeps(s: State)
    requires Good(s) && s.loop.running && !s.isCancelled
    ensures Good(Issue(s.(isCancelled := true), WriteCancel))
  {
    var i := Issue(s.(isCancelled := true), WriteCancel);
    assert forall o: Op :: i.queue.pending[o] == if o == WriteCancel then s.queue.pending[o] + 1 else s.queue.pending[o];
    assert forall o: Op :: i.queue.issued[o] == if o == WriteCancel then s.queue.issued[o] + 1 else s.queue.issued[o];
  }

  lemma IssueWritesDoneKeeps(s: State)
    requires Good(s) && s.loop.running && Done(s, WriteCancel) == 1 && s.queue.issued[WritesDone] == 0
    ensures Good(Issue(s, WritesDone))
  {
    var i := Issue(s, WritesDone);
    assert forall o: Op :: i.queue.pending[o] == if o == WritesDone then s.queue.pending[o] + 1 else s.queue.pending[o];
    assert forall o: Op :: i.queue.issued[o] == if o == WritesDone then s.queue.issued[o] + 1 else s.queue.issued[o];
  }

  lemma IssueFinishKeeps(s: State)
    requires Good(s) && s.loop.running && Done(s, WritesDone) == 1 && s.queue.issued[Finish] == 0
    ensures Good(Issue(s.(loop := s.loop.(finalRound := true)), Finish))
  {
    var i := Issue(s.(loop := s.loop.(finalRound := true)), Finish);
    assert forall o: Op :: i.queue.pending[o] == if o == Finish then s.queue.pending[o] + 1 else s.queue.pending[o];
    assert forall o: Op :: i.queue.issued[o] == if o == Finish then s.queue.issued[o] + 1 else s.queue.issued[o];
  }

  /** What a successful read leads to. */
  lemma OneShotReplyKeeps(d: State)
    requires Good(d) && d.loop.running && d.mode.OneShot?
    requires d.queue.issued[ReadDummy] == 0 && d.queue.pending[ReadReply] == 0
    ensures Good(OneShotReply(d))
  {
    if d.reply.canceled {
    } else if !Effective(d.reply, d.startRevision) {
      IssueReadKeeps(d, ReadReply);
    } else if d.isCancelled {
      IssueReadKeeps(d, ReadDummy);
    } else {
      IssueCancelKeeps(d);
      IssueReadKeeps(Issue(d.(isCancelled := true), WriteCancel), ReadDummy);
    }
  }

  lemma CallbackReplyKeeps(d: State)
    requires Good(d) && d.loop.running && d.queue.pending[ReadReply] == 0 && d.mode.Callback?
    ensures Good(CallbackReply(d))
  {
    var called := Call(d);
    assert Good(called);
    if !d.reply.canceled {
      IssueReadKeeps(if d.reply.events != [] then called else d, ReadReply);
    }
  }

  lemma ReadKeeps(s: State, code: Status)
    requires Good(s) && Enabled(s, Complete(ReadReply, true, code))
    ensures Good(Next(s, Complete(ReadReply, true, code)))
  {
    DeliverKeeps(s, ReadReply, true, code);
    var d := Deliver(s, ReadReply, true, code);
    if d.mode.OneShot? {
      OneShotReplyKeeps(d);
    } else {
      CallbackReplyKeeps(d);
    }
  }

  lemma WriteKeeps(s: State, op: Op, code: Status)
    requires op.WriteCancel? || op.WritesDone?
    requires Good(s) && Enabled(s, Complete(op, true, code))
    ensures Good(Next(s, Complete(op, true, code)))
  {
    hide Good, Deliver, Enabled;
    DeliverKeeps(s, op, true, code);
    WriteInTurn(s, op, code);
    var d := Deliver(s, op, true, code);
    hide Done;
    if op.WriteCancel? {
      IssueWritesDoneKeeps(d);
    } else {
      IssueFinishKeeps(d);
    }
  }

  /** When a write-side operation is through, the one behind it has not been issued. */
  lemma WriteInTurn(s: State, op: Op, code: Status)
    requires op.WriteCancel? || op.WritesDone?
    requires Good(s) && Enabled(s, Complete(op, true, code))
    ensures var d := Deliver(s, op, true, code);
            && d.loop.running && Done(d, op) == 1
            && (op.WriteCancel? ==> d.queue.issued[WritesDone] == 0)
            && (op.WritesDone? ==> d.queue.issued[Finish] == 0)
  {
    hide CancelOnce, Support;
  }

  lemma EndKeeps(s: State, op: Op, ok: bool, code: Status)
    requires op.ReadDummy? || op.Finish? || !ok
    requires Good(s) && Enabled(s, Complete(op, ok, code))
    ensures Good(Next(s, Complete(op, ok, code)))
  {
    DeliverKeeps(s, op, ok, code);
    var d := Deliver(s, op, ok, code);
    hide Deliver, Enabled;
    StopKeeps(d);
    if ok {
      ShutDownKeeps(d, op);
    }
    EndDispatch(d, TagOf(op), ok);
    hide Good, Dispatch, Stop, ShutDown;
  }

  lemma EndDispatch(d: State, tag: Tag, ok: bool)
    requires tag.WATCH_FINISH? || !ok
    ensures Dispatch(d, tag, ok) == if ok then ShutDown(d) else Stop(d)
  {
  }

  lemma StopKeeps(d: State)
    requires Good(d)
    ensures Good(Stop(d))
  {
  }

  lemma ShutDownKeeps(d: State, op: Op)
    requires Good(d) && (op.ReadDummy? || op.Finish?) && d.queue.issued[op] > 0
    ensures Good(ShutDown(d))
  {
    assert d.mode.Callback? ==> op.Finish?;
    assert op.Finish? ==> d.queue.issued[WritesDone] == 1 && d.queue.issued[WriteCancel] == 1;
    assert d.isCancelled;
  }

  lemma ExchangeKeeps(s: State, t: nat)
    requires Good(s) && Enabled(s, Exchange(t))
    ensures Good(Next(s, Exchange(t)))
  {
  }

  lemma IssueKeeps(s: State, t: nat)
    requires Good(s) && Enabled(s, IssueCancel(t))
    ensures Good(Next(s, IssueCancel(t)))
  {
    var i := Next(s, IssueCancel(t));
    assert s.queue.issued[WriteCancel] == 0;
    assert forall o: Op :: i.queue.pending[o] == if o == WriteCancel then s.queue.pending[o] + 1 else s.queue.pending[o];
    assert forall o: Op :: i.queue.issued[o] == if o == WriteCancel then s.queue.issued[o] + 1 else s.queue.issued[o];
  }

  lemma EnterKeeps(s: State, t: nat)
    requires Good(s) && Enabled(s, Enter(t))
    ensures Good(Next(s, Enter(t)))
  {
  }

  lemma TimeoutKeeps(s: State)
    requires Good(s) && Enabled(s, TimedOut)
    ensures Good(Next(s, TimedOut))
  {
  }

  lemma StepKeepsGood(s: State, e: Step)
    requires Good(s) && Enabled(s, e)
    ensures Good(Next(s, e))
  {
    match e {
      case Enter(t) => EnterKeeps(s, t);
      case Exchange(t) => ExchangeKeeps(s, t);
      case IssueCancel(t) => IssueKeeps(s, t);
      case TimedOut => TimeoutKeeps(s);
      case Complete(op, ok, code) =>
        if !ok || op.ReadDummy? || op.Finish? {
          EndKeeps(s, op, ok, code);
        } else if op.ReadReply? {
          ReadKeeps(s, code);
        } else {
          WriteKeeps(s, op, code);
        }
    }
  }

  // ----- replies, callbacks and rounds

  /** A reply after which no further one is read. */
  predicate Stops(mode: Mode, startRevision: int, r: Reply) {
    r.canceled || (mode.OneShot? && Effective(r, startRevision))
  }

  /** The first position that stops a watch, or the length of the stream. */
  function FirstStop(mode: Mode, startRevision: int, rs: seq<Reply>): (i: nat)
    ensures i <= |rs| && (forall j :: 0 <= j < i ==> !Stops(mode, startRevision, rs[j]))
    ensures i < |rs| ==> Stops(mode, startRevision, rs[i])
  {
    if rs == [] || Stops(mode, startRevision, rs[0]) then 0 else 1 + FirstStop(mode, startRevision, rs[1..])
  }

  /** The callbacks for the replies that carry events. */
  function ForEvents(rs: seq<Reply>): seq<WatchResponse> {
    if rs == [] then []
    else ForEvents(rs[..|rs| - 1]) + if rs[|rs| - 1].events != [] then [Parsed(OK, rs[|rs| - 1])] else []
  }

  /** All callbacks for what was read: for the replies with events before the first cancelled one, then for compaction. */
  function Expected(rs: seq<Reply>): seq<WatchResponse> {
    var c := FirstStop(Callback, 0, rs);
    ForEvents(rs[..c]) + if c < |rs| && rs[c].compactRevision != 0 then [Parsed(OK, rs[c])] else []
  }

  function Last(rs: seq<Reply>): Reply {
    if rs == [] then UNSET_REPLY else rs[|rs| - 1]
  }

  predicate Answered(s: State) {
    s.mode.OneShot? && s.queue.got != [] && !Last(s.queue.got).canceled && Effective(Last(s.queue.got), s.startRevision)
  }

  ghost predicate Told(s: State, replies: seq<Reply>) {
    && s.queue.got + s.queue.unread == replies
    && s.reply == Last(s.queue.got)
    && (forall i :: 0 <= i < |s.queue.got| - 1 ==> !Stops(s.mode, s.startRevision, s.queue.got[i]))
    && (s.queue.pending[ReadReply] > 0 && s.queue.got != [] ==> !Stops(s.mode, s.startRevision, Last(s.queue.got)))
    && (s.loop.running ==> s.status == OK)
    && s.loop.callbacks == (if s.mode.Callback? then Expected(s.queue.got) else [])
    && (s.queue.issued[ReadDummy] > 0 <==> Answered(s))
  }

  /** Unread replies, undelivered completions of the cancel write and of its end, and the last round. */
  function Measure(s: State): int {
    |s.queue.unread| + (1 - Done(s, WriteCancel)) + (1 - Done(s, WritesDone)) + if s.loop.running then 1 else 0
  }

  ghost predicate Bounded(s: State, replies: seq<Reply>) {
    s.loop.rounds + Measure(s) <= |replies| + 3
  }

  lemma {:induction false} ExpectedSnoc(rs: seq<Reply>, r: Reply)
    requires forall i :: 0 <= i < |rs| ==> !rs[i].canceled
    ensures Expected(rs + [r])
            == if r.canceled then Expected(rs) + if r.compactRevision != 0 then [Parsed(OK, r)] else []
               else Expected(rs) + if r.events != [] then [Parsed(OK, r)] else []
  {
    hide Parsed;
    var all := rs + [r];
    FirstStopSnoc(rs, r);
    hide FirstStop;
    assert rs[..|rs|] == rs && all[..|rs|] == rs && all[..|all|] == all && all[|all| - 1] == r;
    assert ForEvents(rs) + [] == ForEvents(rs);
  }

  /** In front of r nothing stops the watch. */
  lemma FirstStopSnoc(rs: seq<Reply>, r: Reply)
    requires forall i :: 0 <= i < |rs| ==> !rs[i].canceled
    ensures FirstStop(Callback, 0, rs) == |rs|
    ensures FirstStop(Callback, 0, rs + [r]) == if r.canceled then |rs| else |rs| + 1
  {
    var all := rs + [r];
    assert all[|rs|] == r && forall i :: 0 <= i < |rs| ==> all[i] == rs[i];
    assert |rs| <= FirstStop(Callback, 0, all);
  }

  lemma ReadTold(s: State, replies: seq<Reply>, code: Status)
    requires Good(s) && Told(s, replies) && Enabled(s, Complete(ReadReply, true, code))
    ensures Told(Next(s, Complete(ReadReply, true, code)), replies)
  {
    hide CancelOnce, Support, Effective, Parsed, Expected;
    var d := Deliver(s, ReadReply, true, code);
    var r := s.queue.unread[0];
    assert d.queue.got == s.queue.got + [r] && d.queue.unread == s.queue.unread[1..];
    assert s.queue.got + s.queue.unread == s.queue.got + [r] + s.queue.unread[1..];
    assert forall i :: 0 <= i < |s.queue.got| ==> !Stops(s.mode, s.startRevision, s.queue.got[i]);
    if s.mode.OneShot? {
      OneShotTold(d, s.queue.got, replies);
    } else {
      ExpectedSnoc(s.queue.got, r);
      CallbackTold(d, s.queue.got, replies);
    }
  }

  /** A reply has just been read behind the replies `before`. */
  ghost predicate JustRead(d: State, before: seq<Reply>, replies: seq<Reply>) {
    && d.queue.got == before + [d.reply] && d.queue.got + d.queue.unread == replies
    && (forall i :: 0 <= i < |before| ==> !Stops(d.mode, d.startRevision, before[i]))
    && d.queue.pending[ReadReply] == 0 && d.queue.issued[ReadDummy] == 0 && d.status == OK
  }

  lemma OneShotTold(d: State, before: seq<Reply>, replies: seq<Reply>)
    requires d.mode.OneShot? && JustRead(d, before, replies) && d.loop.callbacks == []
    ensures Told(OneShotReply(d), replies)
  {
    hide Parsed, Expected;
    OneShotReads(d);
    hide OneShotReply;
  }

  /** What the one-shot loop does with a reply, as far as reads are concerned. */
  lemma OneShotReads(d: State)
    ensures var n := OneShotReply(d);
            var answer := !d.reply.canceled && Effective(d.reply, d.startRevision);
            && n.queue.got == d.queue.got && n.queue.unread == d.queue.unread && n.reply == d.reply
            && n.mode == d.mode && n.startRevision == d.startRevision && n.status == d.status && n.loop == d.loop
            && n.queue.pending[ReadReply] == d.queue.pending[ReadReply] + (if d.reply.canceled || answer then 0 else 1)
            && n.queue.issued[ReadDummy] == d.queue.issued[ReadDummy] + (if answer then 1 else 0)
  {
    hide Effective;
  }

  lemma CallbackTold(d: State, before: seq<Reply>, replies: seq<Reply>)
    requires d.mode.Callback? && JustRead(d, before, replies) && d.loop.callbacks == Expected(before)
    requires Expected(d.queue.got) == if d.reply.canceled
                                then Expected(before) + if d.reply.compactRevision != 0 then [Parsed(OK, d.reply)] else []
                                else Expected(before) + if d.reply.events != [] then [Parsed(OK, d.reply)] else []
    ensures Told(CallbackReply(d), replies)
  {
    hide Expected, Parsed;
    assert Expected(before) + [] == Expected(before);
  }

  /** Nothing that `Told` speaks of has changed. */
  ghost predicate SameTale(s: State, u: State) {
    && u.mode == s.mode && u.startRevision == s.startRevision
    && u.queue.got == s.queue.got && u.queue.unread == s.queue.unread
    && u.reply == s.reply && u.loop.callbacks == s.loop.callbacks
    && u.queue.pending[ReadReply] <= s.queue.pending[ReadReply]
    && u.queue.issued[ReadDummy] == s.queue.issued[ReadDummy]
    && (u.loop.running ==> s.loop.running && u.status == s.status)
  }

  lemma SameTaleTold(s: State, u: State, replies: seq<Reply>)
    requires Told(s, replies) && SameTale(s, u)
    ensures Told(u, replies)
  {
    hide Expected, Effective, Stops;
  }

  lemma IssueSameTale(s: State, op: Op)
    requires !op.ReadReply? && !op.ReadDummy?
    ensures SameTale(s, Issue(s, op))
  {
  }

  lemma DeliverSameTale(s: State, op: Op, ok: bool, code: Status)
    requires Enabled(s, Complete(op, ok, code)) && !(op.ReadReply? && ok)
    ensures var d := Deliver(s, op, ok, code);
            SameTale(s, d.(status := s.status)) && (op.Finish? || d.status == s.status)
  {
    var d := Deliver(s, op, ok, code);
    assert d.queue.pending[ReadReply] <= s.queue.pending[ReadReply];
  }

  lemma CompletionSameTale(s: State, op: Op, ok: bool, code: Status)
    requires Enabled(s, Complete(op, ok, code)) && !(op.ReadReply? && ok)
    ensures SameTale(s, Next(s, Complete(op, ok, code)))
  {
    hide Parsed, OneShotReply, CallbackReply, Deliver;
    DeliverSameTale(s, op, ok, code);
    var d := Deliver(s, op, ok, code);
    if ok && !TagOf(op).WATCH_FINISH? {
      hide Issue;
      IssueSameTale(d, WritesDone);
      IssueSameTale(d.(loop := d.loop.(finalRound := true)), Finish);
    }
  }

  lemma OtherTold(s: State, replies: seq<Reply>, e: Step)
    requires Good(s) && Told(s, replies) && Enabled(s, e)
    requires !(e.Complete? && e.op.ReadReply? && e.ok)
    ensures Told(Next(s, e), replies)
  {
    hide Good, Told, Parsed, OneShotReply, CallbackReply;
    if e.IssueCancel? {
      IssueSameTale(s.(callers := s.callers[e.t := Left]), WriteCancel);
    } else if e.Complete? {
      CompletionSameTale(s, e.op, e.ok, e.code);
    }
    SameTaleTold(s, Next(s, e), replies);
  }

  // ----- the measure

  lemma IssueKeepsMeasure(s: State, op: Op)
    ensures Measure(Issue(s, op)) == Measure(s)
  {
    assert forall o: Op :: Issue(s, op).queue.pending[o] == if o == op then s.queue.pending[o] + 1 else s.queue.pending[o];
    assert forall o: Op :: Issue(s, op).queue.issued[o] == if o == op then s.queue.issued[o] + 1 else s.queue.issued[o];
  }

  lemma DispatchMeasure(d: State, tag: Tag, ok: bool)
    requires d.loop.running
    ensures var n := Dispatch(d, tag, ok);
            n.loop.rounds == d.loop.rounds && Measure(n) == Measure(d) - if ok && !tag.WATCH_FINISH? then 0 else 1
  {
    hide Measure, Parsed, Effective;
    if ok {
      match tag {
        case WATCH_WRITE_CANCEL => IssueKeepsMeasure(d, WritesDone);
        case WATCH_WRITES_DONE =>
          IssueKeepsMeasure(d.(loop := d.loop.(finalRound := true)), Finish);
          SameMeasure(d, d.(loop := d.loop.(finalRound := true)));
        case WATCH_FINISH => LastMeasure(d, ShutDown(d));
        case THIS =>
          if d.mode.OneShot? {
            var c := d.(isCancelled := true);
            var w := if d.isCancelled then d else Issue(c, WriteCancel);
            SameMeasure(d, c);
            IssueKeepsMeasure(c, WriteCancel);
            IssueKeepsMeasure(w, ReadDummy);
            IssueKeepsMeasure(d, ReadReply);
          } else {
            var c := Call(d);
            SameMeasure(d, c);
            IssueKeepsMeasure(c, ReadReply);
            IssueKeepsMeasure(d, ReadReply);
          }
      }
    } else {
      LastMeasure(d, Stop(d));
    }
  }

  lemma SameMeasure(s: State, u: State)
    requires s.queue.unread == u.queue.unread && s.loop.running == u.loop.running
    requires s.queue.issued == u.queue.issued && s.queue.pending == u.queue.pending
    ensures Measure(s) == Measure(u)
  {
  }

  lemma LastMeasure(s: State, u: State)
    requires s.queue.unread == u.queue.unread && s.loop.running && !u.loop.running
    requires s.queue.issued == u.queue.issued && s.queue.pending == u.queue.pending
    ensures Measure(u) == Measure(s) - 1
  {
  }

  /** Every loop iteration, and nothing else, lowers the measure, by exactly what it counts. */
  lemma StepBounded(s: State, replies: seq<Reply>, e: Step)
    requires Good(s) && Bounded(s, replies) && Enabled(s, e)
    ensures Bounded(Next(s, e), replies)
  {
    hide CancelOnce, Support, Parsed, Effective, Dispatch, Measure;
    match e {
      case Enter(t) => SameMeasure(s, Next(s, e));
      case Exchange(t) => SameMeasure(s, Next(s, e));
      case IssueCancel(t) =>
        var left := s.(callers := s.callers[t := Left]);
        SameMeasure(s, left);
        IssueKeepsMeasure(left, WriteCancel);
      case TimedOut => LastMeasure(s, Next(s, e));
      case Complete(op, ok, code) =>
        DispatchMeasure(Deliver(s, op, ok, code), TagOf(op), ok);
        DeliverMeasure(s, op, ok, code);
    }
  }

  lemma DeliverMeasure(s: State, op: Op, ok: bool, code: Status)
    requires Enabled(s, Complete(op, ok, code))
    ensures Measure(Deliver(s, op, ok, code))
            == Measure(s) - if (op.ReadReply? && ok) || op.WriteCancel? || op.WritesDone? then 1 else 0
  {
    var d := Deliver(s, op, ok, code);
    assert forall o: Op :: d.queue.pending[o] == if o == op then s.queue.pending[o] - 1 else s.queue.pending[o];
  }

  ghost predicate Inv(s: State, replies: seq<Reply>) {
    Good(s) && Told(s, replies) && Bounded(s, replies)
  }

  lemma StepKeepsInv(s: State, e: Step, replies: seq<Reply>)
    requires Inv(s, replies) && Enabled(s, e)
    ensures Inv(Next(s, e), replies)
  {
    hide Next, Good, Told, Bounded, Enabled;
    StepKeepsGood(s, e);
    if e.Complete? && e.op.ReadReply? && e.ok {
      ReadTold(s, replies, e.code);
    } else {
      OtherTold(s, replies, e);
    }
    StepBounded(s, replies, e);
  }

  lemma StepKeepsMode(s: State, e: Step)
    requires Enabled(s, e)
    ensures Next(s, e).mode == s.mode && Next(s, e).startRevision == s.startRevision
  {
    hide Parsed, Effective;
  }

  lemma {:induction false} RunKeeps(s: State, steps: seq<Step>, replies: seq<Reply>)
    requires Inv(s, replies) && CanRun(s, steps)
    ensures Inv(Run(s, steps), replies)
    ensures Run(s, steps).mode == s.mode && Run(s, steps).startRevision == s.startRevision
    decreases |steps|
  {
    hide Next, Inv, Enabled;
    if steps != [] {
      StepKeepsInv(s, steps[0], replies);
      StepKeepsMode(s, steps[0]);
      RunKeeps(Next(s, steps[0]), steps[1..], replies);
    }
  }
}
