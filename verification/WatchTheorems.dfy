/** The main results on the watch loops, for every schedule of completions and of concurrent cancels. */
module WatchTheorems {
  import opened Actions
  import opened Watch
  import opened WatchProperties

  lemma BeginInv(mode: Mode, startRevision: int, replies: seq<Reply>)
    ensures Inv(Begin(mode, startRevision, replies, Connected), replies)
  {
    hide Parsed, Effective;
    var s := Begin(mode, startRevision, replies, Connected);
    assert s.queue.got + s.queue.unread == replies;
  }

  /**
   * Stream discipline in every reachable state, with any number of cancellers: one read and one
   * write-side operation outstanding at most; one cancel request ever; WritesDone only once the cancel
   * request is out, Finish only once WritesDone is through, and each at most once.
   */
  lemma StreamDiscipline(mode: Mode, startRevision: int, replies: seq<Reply>, steps: seq<Step>)
    requires CanRun(Begin(mode, startRevision, replies, Connected), steps)
    ensures Discipline(Run(Begin(mode, startRevision, replies, Connected), steps))
  {
    hide Next, Enabled, Begin, Discipline, Told, Bounded;
    BeginInv(mode, startRevision, replies);
    RunKeeps(Begin(mode, startRevision, replies, Connected), steps, replies);
  }

  // ----- how far the stream is read

  lemma StepGrows(s: State, e: Step)
    requires Enabled(s, e)
    ensures s.queue.got <= Next(s, e).queue.got
    ensures !s.loop.running ==> Next(s, e).loop == s.loop && Next(s, e).reply == s.reply && Next(s, e).status == s.status
  {
    hide Parsed, Effective, Dispatch;
    if e.Complete? {
      DispatchGrows(Deliver(s, e.op, e.ok, e.code), TagOf(e.op), e.ok);
    }
  }

  lemma DispatchGrows(d: State, tag: Tag, ok: bool)
    ensures Dispatch(d, tag, ok).queue.got == d.queue.got
  {
    hide Parsed, Effective;
  }

  lemma {:induction false} RunGrows(s: State, steps: seq<Step>)
    requires CanRun(s, steps)
    ensures s.queue.got <= Run(s, steps).queue.got
    ensures !s.loop.running ==> Run(s, steps).loop == s.loop && Run(s, steps).reply == s.reply
                                && Run(s, steps).status == s.status
    decreases |steps|
  {
    hide Next, Enabled;
    if steps != [] {
      StepGrows(s, steps[0]);
      RunGrows(Next(s, steps[0]), steps[1..]);
    }
  }

  /** The replies read are the first of the stream, and none behind the first one that stops the watch. */
  lemma ReadUpToFirstStop(s: State, replies: seq<Reply>)
    requires Told(s, replies)
    ensures var k := FirstStop(s.mode, s.startRevision, replies);
            && s.queue.got <= replies && |s.queue.got| <= k + 1
            && (s.queue.got != [] && Stops(s.mode, s.startRevision, Last(s.queue.got)) <==> |s.queue.got| == k + 1)
  {
    hide Effective, Expected, Stops;
    var got := s.queue.got;
    var k := FirstStop(s.mode, s.startRevision, replies);
    assert forall i :: 0 <= i < |got| ==> got[i] == replies[i];
  }

  // ----- the one-shot watch

  /**
   * One-shot watch: the accepted reply is the first reply of the stream that is effective, provided no
   * cancelled reply comes before it; from its acceptance on nothing overwrites it.
   */
  lemma OneShotAnswer(startRevision: int, replies: seq<Reply>, steps: seq<Step>, more: seq<Step>)
    requires CanRun(Begin(OneShot, startRevision, replies, Connected), steps)
    requires CanRun(Run(Begin(OneShot, startRevision, replies, Connected), steps), more)
    ensures var s := Run(Begin(OneShot, startRevision, replies, Connected), steps);
            var k := FirstStop(OneShot, startRevision, replies);
            && (Answered(s) <==> k < |replies| && !replies[k].canceled && |s.queue.got| == k + 1)
            && (Answered(s) ==> && s.reply == replies[k]
                                && Effective(replies[k], startRevision)
                                && (forall j :: 0 <= j < k ==>
                                      !replies[j].canceled && !Effective(replies[j], startRevision))
                                && Run(s, more).reply == replies[k] && Answered(Run(s, more)))
  {
    hide Next, Enabled, Begin, Good, Bounded, Effective, Expected;
    var b := Begin(OneShot, startRevision, replies, Connected);
    BeginInv(OneShot, startRevision, replies);
    BeginMode(OneShot, startRevision, replies);
    RunKeeps(b, steps, replies);
    var s := Run(b, steps);
    RunKeeps(s, more, replies);
    RunGrows(s, more);
    ReadUpToFirstStop(s, replies);
    ReadUpToFirstStop(Run(s, more), replies);
  }

  lemma BeginMode(mode: Mode, startRevision: int, replies: seq<Reply>)
    ensures var b := Begin(mode, startRevision, replies, Connected);
            && b.mode == mode && b.startRevision == startRevision && b.loop.running && b.callers == map[]
            && !b.queue.late
  {
  }

  // ----- where the status of the stream comes from

  predicate FailsFinish(e: Step) {
    e.Complete? && e.op.Finish? && e.code.code != 0
  }

  /** `Finish` has come back with an error. */
  predicate FinishFailed(steps: seq<Step>) {
    exists i :: 0 <= i < |steps| && FailsFinish(steps[i])
  }

  lemma StepStatus(s: State, e: Step)
    requires Enabled(s, e)
    ensures if e.Complete? && e.op.Finish? then Next(s, e).status == e.code && !Next(s, e).loop.running
            else Next(s, e).status == s.status
  {
    hide Parsed, Effective;
  }

  lemma {:induction false} StoppedCompletesNothing(s: State, steps: seq<Step>)
    requires CanRun(s, steps) && !s.loop.running
    ensures !FinishFailed(steps)
    decreases |steps|
  {
    hide Next;
    if steps != [] {
      StepGrows(s, steps[0]);
      StoppedCompletesNothing(Next(s, steps[0]), steps[1..]);
      FinishFailedCons(steps);
    }
  }

  lemma FinishFailedCons(steps: seq<Step>)
    requires steps != []
    ensures FinishFailed(steps) <==> FailsFinish(steps[0]) || FinishFailed(steps[1..])
  {
    if FinishFailed(steps[1..]) {
      var i :| 0 <= i < |steps[1..]| && FailsFinish(steps[1..][i]);
      assert FailsFinish(steps[i + 1]);
    }
  }

  /** The status turns into an error exactly when `Finish` brings one. */
  lemma {:induction false} StatusIsFromFinish(s: State, steps: seq<Step>)
    requires CanRun(s, steps) && s.status.code == 0
    ensures Run(s, steps).status.code != 0 <==> FinishFailed(steps)
    decreases |steps|
  {
    hide Next, Enabled;
    if steps != [] {
      StepStatus(s, steps[0]);
      FinishFailedCons(steps);
      var s1 := Next(s, steps[0]);
      if s1.status.code == 0 {
        StatusIsFromFinish(s1, steps[1..]);
      } else {
        RunGrows(s1, steps[1..]);
      }
    }
  }

  /**
   * What the caller of a one-shot watch is told, once a reply has been accepted: an error if and only if
   * `Finish` has completed with one, and that reply otherwise.
   */
  lemma OneShotResponse(startRevision: int, replies: seq<Reply>, steps: seq<Step>)
    requires CanRun(Begin(OneShot, startRevision, replies, Connected), steps)
    requires Answered(Run(Begin(OneShot, startRevision, replies, Connected), steps))
    ensures var s := Run(Begin(OneShot, startRevision, replies, Connected), steps);
            var k := FirstStop(OneShot, startRevision, replies);
            && (Parsed(s.status, s.reply).errorCode != 0 <==> FinishFailed(steps))
            && k < |replies|
            && (!FinishFailed(steps) ==> Parsed(s.status, s.reply) == Parsed(OK, replies[k]))
  {
    hide Next, Enabled, Bounded, Effective, Expected, Discipline;
    var b := Begin(OneShot, startRevision, replies, Connected);
    StatusIsFromFinish(b, steps);
    hide Begin;
    OneShotAnswer(startRevision, replies, steps, []);
  }

  /** The masking does happen: with this order of completions the accepted reply is lost to the error of `Finish`. */
  lemma FinishCanMaskTheAnswer(startRevision: int, r: Reply, failure: Status)
    requires Effective(r, startRevision) && !r.canceled && failure.code != 0
    ensures var b := Begin(OneShot, startRevision, [r], Connected);
            var steps := [Complete(ReadReply, true, OK), Complete(WriteCancel, true, OK),
                          Complete(WritesDone, true, OK), Complete(Finish, true, failure)];
            && CanRun(b, steps) && Answered(Run(b, steps)) && !Run(b, steps).loop.running
            && Parsed(Run(b, steps).status, Run(b, steps).reply).errorCode == failure.code
  {
    var b := Begin(OneShot, startRevision, [r], Connected);
    var e1, e2 := Complete(ReadReply, true, OK), Complete(WriteCancel, true, OK);
    var e3, e4 := Complete(WritesDone, true, OK), Complete(Finish, true, failure);
    var s1 := AnswerRead(startRevision, r);
    WriteOn(s1, ReadDummy, WriteCancel, WritesDone);
    var s2 := Next(s1, e2);
    WriteOn(s2, ReadDummy, WritesDone, Finish);
    var s3 := Next(s2, e3);
    FinishOn(s3, failure);
    hide Begin, Next, Enabled, Effective;
    RunFour(b, e1, e2, e3, e4);
  }

  lemma AnswerRead(startRevision: int, r: Reply) returns (s: State)
    requires Effective(r, startRevision) && !r.canceled
    ensures var b := Begin(OneShot, startRevision, [r], Connected);
            var e := Complete(ReadReply, true, OK);
            && Enabled(b, e) && s == Next(b, e) && s.loop.running && s.queue.pending == multiset{ReadDummy, WriteCancel}
            && s.mode.OneShot? && s.startRevision == startRevision && s.queue.got == [r] && s.reply == r
  {
    hide Parsed, Effective;
    s := Next(Begin(OneShot, startRevision, [r], Connected), Complete(ReadReply, true, OK));
    assert multiset{ReadReply} - multiset{ReadReply} + multiset{WriteCancel} + multiset{ReadDummy}
        == multiset{ReadDummy, WriteCancel};
  }

  lemma RunFour(s: State, e1: Step, e2: Step, e3: Step, e4: Step)
    requires Enabled(s, e1) && Enabled(Next(s, e1), e2) && Enabled(Next(Next(s, e1), e2), e3)
    requires Enabled(Next(Next(Next(s, e1), e2), e3), e4)
    ensures CanRun(s, [e1, e2, e3, e4])
    ensures Run(s, [e1, e2, e3, e4]) == Next(Next(Next(Next(s, e1), e2), e3), e4)
  {
    hide Next, Enabled;
    assert [e1, e2, e3, e4][1..] == [e2, e3, e4] && [e2, e3, e4][1..] == [e3, e4] && [e3, e4][1..] == [e4];
    var s3 := Next(Next(Next(s, e1), e2), e3);
    assert [e4][1..] == [] && CanRun(Next(s3, e4), []) && CanRun(s3, [e4]);
    assert CanRun(Next(Next(s, e1), e2), [e3, e4]);
    assert CanRun(Next(s, e1), [e2, e3, e4]);
    assert Run(s3, [e4]) == Next(s3, e4);
    assert Run(Next(Next(s, e1), e2), [e3, e4]) == Next(s3, e4);
  }

  // ----- the callback watch

  /**
   * Callback watch: the callbacks are exactly the event-carrying replies read before the first
   * cancelled reply, in order and once each, then one compaction notice if that cancelled reply has a
   * compact revision, and nothing after it.
   */
  lemma CallbacksAreExact(startRevision: int, replies: seq<Reply>, steps: seq<Step>, more: seq<Step>)
    requires CanRun(Begin(Callback, startRevision, replies, Connected), steps)
    requires CanRun(Run(Begin(Callback, startRevision, replies, Connected), steps), more)
    ensures var s := Run(Begin(Callback, startRevision, replies, Connected), steps);
            var c := FirstStop(Callback, startRevision, replies);
            && s.queue.got <= replies && |s.queue.got| <= c + 1
            && s.loop.callbacks == Expected(s.queue.got)
            && (|s.queue.got| == c + 1 || !s.loop.running ==> Run(s, more).loop.callbacks == s.loop.callbacks)
  {
    hide Next, Enabled, Begin, Good, Bounded, Effective, Expected, Stops;
    var b := Begin(Callback, startRevision, replies, Connected);
    BeginInv(Callback, startRevision, replies);
    BeginMode(Callback, startRevision, replies);
    RunKeeps(b, steps, replies);
    var s := Run(b, steps);
    RunKeeps(s, more, replies);
    RunGrows(s, more);
    ReadUpToFirstStop(s, replies);
    var s' := Run(s, more);
    ReadUpToFirstStop(s', replies);
    assert |s.queue.got| == |s'.queue.got| ==> s.queue.got == s'.queue.got;
  }

  /** What `Expected` says, position by position: callback n is for the n-th reply with events. */
  lemma {:induction false} ForEventsInOrder(rs: seq<Reply>, i: nat)
    requires i < |rs| && rs[i].events != []
    ensures |ForEvents(rs[..i])| < |ForEvents(rs)| && ForEvents(rs)[|ForEvents(rs[..i])|] == Parsed(OK, rs[i])
    ensures |ForEvents(rs)| <= |rs|
    decreases |rs|
  {
    hide Parsed;
    ForEventsAtMost(rs);
    if i == |rs| - 1 {
      assert rs[..|rs| - 1] == rs[..i];
    } else {
      ForEventsInOrder(rs[..|rs| - 1], i);
      assert rs[..|rs| - 1][..i] == rs[..i];
    }
  }

  /** And there are no others: every callback stands where its own reply put it. */
  lemma {:induction false} ForEventsOnly(rs: seq<Reply>, n: nat) returns (i: nat)
    requires n < |ForEvents(rs)|
    ensures i < |rs| && rs[i].events != [] && |ForEvents(rs[..i])| == n && ForEvents(rs)[n] == Parsed(OK, rs[i])
    decreases |rs|
  {
    hide Parsed;
    var init := rs[..|rs| - 1];
    if n < |ForEvents(init)| {
      i := ForEventsOnly(init, n);
      assert init[..i] == rs[..i];
    } else {
      i := |rs| - 1;
    }
  }

  lemma {:induction false} ForEventsAtMost(rs: seq<Reply>)
    ensures |ForEvents(rs)| <= |rs|
  {
    hide Parsed;
    if rs != [] {
      ForEventsAtMost(rs[..|rs| - 1]);
    }
  }

  /**
   * After a failed creation the callback watch reports the failure once; nothing is ever outstanding,
   * so its loop never gets through a single wait, whoever cancels.
   */
  lemma {:induction false} FailedCreationOnlyWaits(startRevision: int, replies: seq<Reply>, connect: Connect,
                                                   steps: seq<Step>)
    requires !connect.Connected? && CanRun(Begin(Callback, startRevision, replies, connect), steps)
    ensures var b := Begin(Callback, startRevision, replies, connect);
            var s := Run(b, steps);
            && s.queue.pending == multiset{} && s.loop == b.loop
            && |s.loop.callbacks| == 1 && s.loop.callbacks[0].errorCode == CANCELLED
  {
    NothingEverPending(Begin(Callback, startRevision, replies, connect), steps);
  }

  lemma {:induction false} NothingEverPending(s: State, steps: seq<Step>)
    requires CanRun(s, steps) && s.queue.pending == multiset{} && s.isCancelled && !s.loop.finalRound
    requires forall t | t in s.callers :: !s.callers[t].Won?
    ensures Run(s, steps).queue.pending == multiset{} && Run(s, steps).loop == s.loop
    decreases |steps|
  {
    hide Parsed, Dispatch, Deliver;
    if steps != [] {
      NothingEverPending(Next(s, steps[0]), steps[1..]);
    }
  }

  // ----- rounds

  /**
   * Both loops run at most M + 3 times on a stream of M replies, whatever the order of completions; and of
   * the M only those that are read count, which are none behind the first that stops the watch.
   */
  lemma LoopsAreBounded(mode: Mode, startRevision: int, replies: seq<Reply>, steps: seq<Step>)
    requires CanRun(Begin(mode, startRevision, replies, Connected), steps)
    ensures var s := Run(Begin(mode, startRevision, replies, Connected), steps);
            && s.loop.rounds <= |s.queue.got| + 3 <= |replies| + 3
            && s.loop.rounds <= FirstStop(mode, startRevision, replies) + 4
  {
    hide Next, Enabled, Begin, Support, CancelOnce, Expected, Stops;
    BeginInv(mode, startRevision, replies);
    BeginMode(mode, startRevision, replies);
    RunKeeps(Begin(mode, startRevision, replies, Connected), steps, replies);
    var s := Run(Begin(mode, startRevision, replies, Connected), steps);
    assert Done(s, WriteCancel) <= 1 && Done(s, WritesDone) <= 1;
    ReadUpToFirstStop(s, replies);
  }

  /** The bound is reached: all replies are read, then the cancel write, WritesDone and Finish complete. */
  lemma BoundIsReached(startRevision: int, replies: seq<Reply>) returns (steps: seq<Step>)
    requires forall r <- replies :: !r.canceled
    ensures CanRun(Begin(Callback, startRevision, replies, Connected), steps)
    ensures var s := Run(Begin(Callback, startRevision, replies, Connected), steps);
            s.loop.rounds == |replies| + 3 && !s.loop.running
  {
    hide Parsed, Dispatch, Deliver;
    var b := Begin(Callback, startRevision, replies, Connected);
    var s1 := Next(b, Enter(0));
    var s2 := Next(s1, Exchange(0));
    var s3 := Next(s2, IssueCancel(0));
    var rest := ReadAndEnd(|replies|);
    ReadsAndEnds(s3, |replies|);
    RunCons(s2, IssueCancel(0), rest);
    RunCons(s1, Exchange(0), [IssueCancel(0)] + rest);
    RunCons(b, Enter(0), [Exchange(0)] + ([IssueCancel(0)] + rest));
    steps := [Enter(0)] + ([Exchange(0)] + ([IssueCancel(0)] + rest));
  }

  lemma RunCons(s: State, e: Step, rest: seq<Step>)
    requires Enabled(s, e) && CanRun(Next(s, e), rest)
    ensures CanRun(s, [e] + rest) && Run(s, [e] + rest) == Run(Next(s, e), rest)
  {
    hide Next, Enabled;
    assert ([e] + rest)[0] == e && ([e] + rest)[1..] == rest;
  }

  function ReadAndEnd(n: nat): seq<Step> {
    if n == 0 then [Complete(WriteCancel, true, OK), Complete(WritesDone, true, OK), Complete(Finish, true, OK)]
    else [Complete(ReadReply, true, OK)] + ReadAndEnd(n - 1)
  }

  /** Reading and ending can proceed: a read and the cancel write are outstanding. */
  ghost predicate Ready(s: State, n: nat) {
    && s.mode.Callback? && s.loop.running && |s.queue.unread| == n
    && (forall r <- s.queue.unread :: !r.canceled)
    && s.queue.pending == multiset{ReadReply, WriteCancel}
  }

  lemma ReadOn(s: State, n: nat)
    requires 0 < n && Ready(s, n)
    ensures var e := Complete(ReadReply, true, OK);
            Enabled(s, e) && Ready(Next(s, e), n - 1) && Next(s, e).loop.rounds == s.loop.rounds + 1
  {
    hide Parsed;
    assert s.queue.unread[0] in s.queue.unread;
    assert s.queue.pending - multiset{ReadReply} + multiset{ReadReply} == multiset{ReadReply, WriteCancel};
  }

  /** Nothing that has been read is touched. */
  ghost predicate SameReads(s: State, u: State) {
    && u.mode == s.mode && u.startRevision == s.startRevision && u.queue.got == s.queue.got && u.reply == s.reply
  }

  lemma WriteOn(s: State, read: Op, op: Op, next: Op)
    requires (op.WriteCancel? && next.WritesDone?) || (op.WritesDone? && next.Finish?)
    requires s.loop.running && s.queue.pending == multiset{read, op}
    ensures var e := Complete(op, true, OK);
            && Enabled(s, e) && Next(s, e).loop.running && Next(s, e).loop.rounds == s.loop.rounds + 1
            && Next(s, e).queue.pending == multiset{read, next} && SameReads(s, Next(s, e))
  {
    WriteDelivered(s, read, op);
    NextIssued(Deliver(s, op, true, OK), read, TagOf(op), next);
    hide Deliver, Dispatch;
  }

  lemma WriteDelivered(s: State, read: Op, op: Op)
    requires op.WriteCancel? || op.WritesDone?
    requires s.loop.running && s.queue.pending == multiset{read, op}
    ensures var d := Deliver(s, op, true, OK);
            && Enabled(s, Complete(op, true, OK)) && d.queue.pending == multiset{read}
            && SameReads(s, d) && d.loop == s.loop.(rounds := s.loop.rounds + 1)
  {
    assert multiset{read, op} - multiset{op} == multiset{read};
  }

  lemma NextIssued(d: State, read: Op, tag: Tag, next: Op)
    requires (tag.WATCH_WRITE_CANCEL? && next.WritesDone?) || (tag.WATCH_WRITES_DONE? && next.Finish?)
    requires d.queue.pending == multiset{read}
    ensures var n := Dispatch(d, tag, true);
            && n.queue.pending == multiset{read, next} && SameReads(d, n)
            && n.loop.running == d.loop.running && n.loop.rounds == d.loop.rounds
  {
    hide OneShotReply, CallbackReply;
    assert multiset{read} + multiset{next} == multiset{read, next};
  }

  lemma FinishOn(s: State, code: Status)
    requires s.loop.running && Finish in s.queue.pending
    ensures var e := Complete(Finish, true, code);
            && Enabled(s, e) && !Next(s, e).loop.running && Next(s, e).loop.rounds == s.loop.rounds + 1
            && SameReads(s, Next(s, e)) && Next(s, e).status == code
  {
  }

  lemma EndOn(s: State)
    requires Ready(s, 0)
    ensures CanRun(s, ReadAndEnd(0))
    ensures Run(s, ReadAndEnd(0)).loop.rounds == s.loop.rounds + 3 && !Run(s, ReadAndEnd(0)).loop.running
  {
    hide Next, Enabled;
    var e1, e2, e3 := Complete(WriteCancel, true, OK), Complete(WritesDone, true, OK), Complete(Finish, true, OK);
    WriteOn(s, ReadReply, WriteCancel, WritesDone);
    WriteOn(Next(s, e1), ReadReply, WritesDone, Finish);
    var s2 := Next(Next(s, e1), e2);
    FinishOn(s2, OK);
    assert CanRun(Next(s2, e3), []);
    RunCons(s2, e3, []);
    RunCons(Next(s, e1), e2, [e3] + []);
    RunCons(s, e1, [e2] + ([e3] + []));
    assert ReadAndEnd(0) == [e1] + ([e2] + ([e3] + []));
  }

  lemma {:induction false} ReadsAndEnds(s: State, n: nat)
    requires Ready(s, n)
    ensures CanRun(s, ReadAndEnd(n))
    ensures Run(s, ReadAndEnd(n)).loop.rounds == s.loop.rounds + n + 3 && !Run(s, ReadAndEnd(n)).loop.running
    decreases n
  {
    hide Next, Enabled, Ready;
    if n == 0 {
      EndOn(s);
    } else {
      var e := Complete(ReadReply, true, OK);
      ReadOn(s, n);
      ReadsAndEnds(Next(s, e), n - 1);
      RunCons(s, e, ReadAndEnd(n - 1));
    }
  }

  // ----- the loop can always be brought to its end

  /**
   * The winner of the exchange is about to write the cancel request, or has; and then, while the loop runs,
   * exactly one operation of the ending is outstanding.
   */
  ghost predicate Ending(s: State) {
    && (s.isCancelled ==> s.queue.issued[WriteCancel] == 1 || exists t :: t in s.callers && s.callers[t].Won?)
    && (s.loop.running && s.queue.issued[WriteCancel] == 1 ==>
          s.queue.pending[WriteCancel] + s.queue.pending[WritesDone] + s.queue.pending[Finish] == 1)
  }

  /** The winner of the exchange is about to write, or has written. */
  ghost predicate CancelComes(s: State) {
    s.isCancelled ==> s.queue.issued[WriteCancel] == 1 || exists t :: t in s.callers && s.callers[t].Won?
  }

  lemma DispatchKeepsEnding(d: State, tag: Tag, ok: bool)
    requires Ending(d) || (ok && tag in {WATCH_WRITE_CANCEL, WATCH_WRITES_DONE} && CancelComes(d))
    requires d.queue.issued[WriteCancel] <= 1 && d.mode.Callback?
    requires ok && tag in {WATCH_WRITE_CANCEL, WATCH_WRITES_DONE} ==>
               d.queue.pending[WriteCancel] + d.queue.pending[WritesDone] + d.queue.pending[Finish] == 0
    ensures Ending(Dispatch(d, tag, ok))
  {
    hide Parsed, OneShotReply;
    if ok {
      match tag {
        case WATCH_WRITE_CANCEL => NextOfEnding(d, WritesDone);
        case WATCH_WRITES_DONE =>
          var last := d.(loop := d.loop.(finalRound := true));
          NextOfEnding(last, Finish);
        case WATCH_FINISH =>
        case THIS => ReadInEnding(d);
      }
    }
  }

  lemma NextOfEnding(d: State, next: Op)
    requires CancelComes(d) && next in {WritesDone, Finish}
    requires d.queue.pending[WriteCancel] + d.queue.pending[WritesDone] + d.queue.pending[Finish] == 0
    ensures Ending(Issue(d, next))
  {
  }

  lemma ReadInEnding(d: State)
    requires Ending(d)
    ensures Ending(CallbackReply(d))
  {
    hide Parsed;
  }

  lemma CompleteKeepsEnding(s: State, op: Op, ok: bool, code: Status)
    requires Good(s) && Ending(s) && s.mode.Callback? && Enabled(s, Complete(op, ok, code))
    ensures Ending(Next(s, Complete(op, ok, code)))
  {
    hide Dispatch, CancelOnce, Support;
    var d := Deliver(s, op, ok, code);
    DeliverCounts(s, op, ok, code);
    hide Deliver, Enabled;
    if ok || !(op.WriteCancel? || op.WritesDone? || op.Finish?) {
      if op.Finish? {
        EndsTheLoop(d);
      } else {
        DispatchKeepsEnding(d, TagOf(op), ok);
      }
    } else {
      StopsTheLoop(d, TagOf(op));
    }
  }

  lemma StopsTheLoop(d: State, tag: Tag)
    ensures var n := Dispatch(d, tag, false); n == Stop(d)
  {
  }

  lemma EndsTheLoop(d: State)
    ensures Dispatch(d, WATCH_FINISH, true) == ShutDown(d)
  {
  }

  lemma StepKeepsEnding(s: State, e: Step)
    requires Good(s) && Ending(s) && s.mode.Callback? && Enabled(s, e)
    ensures Ending(Next(s, e))
  {
    match e {
      case Complete(op, ok, code) => CompleteKeepsEnding(s, op, ok, code);
      case Enter(t) =>
        if s.isCancelled && s.queue.issued[WriteCancel] != 1 {
          var u :| u in s.callers && s.callers[u].Won?;
          assert Next(s, e).callers[u].Won?;
        }
      case Exchange(t) =>
        if s.isCancelled {
          if s.queue.issued[WriteCancel] != 1 {
            var u :| u in s.callers && s.callers[u].Won?;
            assert Next(s, e).callers[u].Won?;
          }
        } else {
          assert Next(s, e).callers[t].Won?;
        }
      case IssueCancel(t) => assert s.queue.issued[WriteCancel] == 0;
      case TimedOut =>
    }
  }

  lemma {:induction false} RunKeepsEnding(s: State, steps: seq<Step>)
    requires Good(s) && Ending(s) && s.mode.Callback? && CanRun(s, steps)
    ensures Good(Run(s, steps)) && Ending(Run(s, steps)) && Run(s, steps).mode.Callback?
    decreases |steps|
  {
    hide Next, Enabled, Good, Ending;
    if steps != [] {
      StepKeepsGood(s, steps[0]);
      StepKeepsEnding(s, steps[0]);
      StepKeepsMode(s, steps[0]);
      RunKeepsEnding(Next(s, steps[0]), steps[1..]);
    }
  }

  /** Once the cancel request is out, at most three successful completions end the loop. */
  lemma {:induction false} EndTheLoop(s: State) returns (steps: seq<Step>)
    requires Good(s) && Ending(s) && s.mode.Callback? && s.loop.running && s.queue.issued[WriteCancel] == 1
    ensures CanRun(s, steps) && !Run(s, steps).loop.running
    ensures |steps| <= 3 && forall e <- steps :: e.Complete? && e.ok
    ensures s.queue.pending[Finish] == 1 ==> |steps| == 1
    ensures s.queue.pending[WritesDone] == 1 ==> |steps| <= 2
    decreases 2 * s.queue.pending[WriteCancel] + s.queue.pending[WritesDone]
  {
    hide Good, Parsed, Effective, Dispatch, Next, Enabled;
    var op := if s.queue.pending[Finish] == 1 then Finish
              else if s.queue.pending[WritesDone] == 1 then WritesDone else WriteCancel;
    var e := Complete(op, true, OK);
    EndingStep(s, op);
    var rest: seq<Step> := [];
    if !op.Finish? {
      StepKeepsGood(s, e);
      StepKeepsEnding(s, e);
      StepKeepsMode(s, e);
      rest := EndTheLoop(Next(s, e));
    }
    assert CanRun(Next(s, e), rest);
    RunCons(s, e, rest);
    steps := [e] + rest;
  }

  lemma EndingStep(s: State, op: Op)
    requires Ending(s) && s.loop.running && s.queue.issued[WriteCancel] == 1
    requires op == if s.queue.pending[Finish] == 1 then Finish
                   else if s.queue.pending[WritesDone] == 1 then WritesDone else WriteCancel
    ensures var e := Complete(op, true, OK);
            && Enabled(s, e) && (op.Finish? <==> !Next(s, e).loop.running)
            && Next(s, e).queue.issued[WriteCancel] == 1
            && (op.WriteCancel? ==> Next(s, e).queue.pending[WritesDone] == 1)
            && (op.WriteCancel? || op.WritesDone? ==> Next(s, e).queue.pending[WriteCancel] == 0)
            && (op.WritesDone? ==> Next(s, e).queue.pending[Finish] == 1 && Next(s, e).queue.pending[WritesDone] == 0)
  {
    assert s.queue.pending[op] == 1;
  }

  // ----- operations on a queue that has been shut down

  /** The callback watch never starts an operation on a queue that has been shut down. */
  lemma CallbackNeverLate(startRevision: int, replies: seq<Reply>, steps: seq<Step>)
    requires CanRun(Begin(Callback, startRevision, replies, Connected), steps)
    ensures !Run(Begin(Callback, startRevision, replies, Connected), steps).queue.late
  {
    hide Next, Enabled, Begin, Told, Bounded, CancelOnce;
    BeginInv(Callback, startRevision, replies);
    BeginMode(Callback, startRevision, replies);
    RunKeeps(Begin(Callback, startRevision, replies, Connected), steps, replies);
  }

  lemma {:induction false} StillNotLate(s: State, steps: seq<Step>)
    requires CanRun(s, steps) && !s.loop.running && s.isCancelled && !s.queue.late
    requires forall t | t in s.callers :: !s.callers[t].Won?
    ensures !Run(s, steps).queue.late
    decreases |steps|
  {
    hide Parsed, Dispatch, Deliver;
    if steps != [] {
      StillNotLate(Next(s, steps[0]), steps[1..]);
    }
  }

  /**
   * A one-shot watch whose queue has been shut down can still have its cancel request written to that
   * queue if and only if some other thread has won the exchange in `CancelWatch` and not yet written.
   */
  lemma OneShotLateExactly(startRevision: int, replies: seq<Reply>, steps: seq<Step>)
    requires CanRun(Begin(OneShot, startRevision, replies, Connected), steps)
    requires var s := Run(Begin(OneShot, startRevision, replies, Connected), steps); s.queue.shut && !s.queue.late
    ensures var s := Run(Begin(OneShot, startRevision, replies, Connected), steps);
            (exists more :: CanRun(s, more) && Run(s, more).queue.late) <==> exists t :: t in s.callers && s.callers[t].Won?
  {
    hide Begin, Told, Bounded, Dispatch, Deliver, Discipline;
    BeginInv(OneShot, startRevision, replies);
    RunKeeps(Begin(OneShot, startRevision, replies, Connected), steps, replies);
    var s := Run(Begin(OneShot, startRevision, replies, Connected), steps);
    if exists t :: t in s.callers && s.callers[t].Won? {
      var t :| t in s.callers && s.callers[t].Won?;
      var more := [IssueCancel(t)];
      assert more[1..] == [] && CanRun(Next(s, IssueCancel(t)), []);
      assert CanRun(s, more) && Run(s, more) == Next(s, IssueCancel(t));
      assert exists m :: CanRun(s, m) && Run(s, m).queue.late;
    } else {
      forall more | CanRun(s, more) ensures !Run(s, more).queue.late {
        StillNotLate(s, more);
      }
    }
  }

  /** Such a thread there can be: it is overtaken between its exchange and its write. */
  lemma OneShotCanBeLate(startRevision: int, r: Reply)
    requires Effective(r, startRevision) && !r.canceled
    ensures var b := Begin(OneShot, startRevision, [r], Connected);
            var steps := [Enter(0), Exchange(0), Complete(ReadReply, true, OK), Complete(ReadDummy, true, OK)];
            && CanRun(b, steps) && Run(b, steps).queue.shut && !Run(b, steps).queue.late
            && Run(b, steps).callers == map[0 := Won]
  {
    var b := Begin(OneShot, startRevision, [r], Connected);
    RunFour(b, Enter(0), Exchange(0), Complete(ReadReply, true, OK), Complete(ReadDummy, true, OK));
  }

  /** Left to itself, without any thread that enters `CancelWatch` from outside, it is never late. */
  lemma OneShotAloneIsNeverLate(startRevision: int, replies: seq<Reply>, steps: seq<Step>)
    requires CanRun(Begin(OneShot, startRevision, replies, Connected), steps) && forall e <- steps :: !e.Enter?
    ensures !Run(Begin(OneShot, startRevision, replies, Connected), steps).queue.late
  {
    hide Next, Enabled, Begin, Told, Bounded, Good;
    BeginInv(OneShot, startRevision, replies);
    BeginMode(OneShot, startRevision, replies);
    AloneIsNeverLate(Begin(OneShot, startRevision, replies, Connected), steps);
  }

  lemma {:induction false} AloneIsNeverLate(s: State, steps: seq<Step>)
    requires Good(s) && CanRun(s, steps) && s.callers == map[] && !s.queue.late && forall e <- steps :: !e.Enter?
    ensures !Run(s, steps).queue.late
    decreases |steps|
  {
    hide Next, Enabled, Good;
    if steps != [] {
      StepKeepsGood(s, steps[0]);
      StepAlone(s, steps[0]);
      AloneIsNeverLate(Next(s, steps[0]), steps[1..]);
    }
  }

  lemma StepAlone(s: State, e: Step)
    requires Good(s) && Enabled(s, e) && s.callers == map[] && !s.queue.late && !e.Enter?
    ensures Next(s, e).callers == map[] && !Next(s, e).queue.late
  {
    hide Dispatch;
    if e.Complete? {
      var d := Deliver(s, e.op, e.ok, e.code);
      DeliverCounts(s, e.op, e.ok, e.code);
      assert !d.queue.shut;
      hide Deliver, Good;
      OpenIsNotLate(d, TagOf(e.op), e.ok);
    }
  }

  lemma OpenIsNotLate(d: State, tag: Tag, ok: bool)
    requires !d.queue.shut && !d.queue.late
    ensures Dispatch(d, tag, ok).callers == d.callers && !Dispatch(d, tag, ok).queue.late
  {
    hide Parsed, Effective;
  }

  // ----- when a one-shot watch that nobody cancels can end

  /**
   * As long as the loop runs, all that is outstanding is the next read, or nothing once a cancelled reply
   * has been read, until the answer starts the ending.
   */
  ghost predicate Alone(s: State) {
    && s.callers == map[] && s.mode.OneShot?
    && (s.loop.running ==>
          if s.queue.issued[ReadDummy] > 0 then ReadDummy in s.queue.pending && !s.reply.canceled
          else && !s.isCancelled && !s.loop.finalRound
               && s.queue.pending == if s.reply.canceled then multiset{} else multiset{ReadReply})
  }

  lemma StepKeepsAlone(s: State, e: Step)
    requires Good(s) && Alone(s) && Enabled(s, e) && !e.Enter?
    ensures Alone(Next(s, e))
  {
    hide Parsed, Effective, CancelOnce;
    if e.Complete? && s.loop.running {
      if s.queue.issued[ReadDummy] > 0 {
        DummyOutstanding(s, e);
      } else {
        assert e.op == ReadReply;
        assert multiset{ReadReply} - multiset{ReadReply} == multiset{};
      }
    }
  }

  lemma DummyOutstanding(s: State, e: Step)
    requires Good(s) && Alone(s) && Enabled(s, e) && e.Complete? && s.queue.issued[ReadDummy] > 0
    ensures Alone(Next(s, e))
  {
    hide Parsed, Effective, CancelOnce, OneShotReply, CallbackReply;
  }

  lemma {:induction false} RunKeepsAlone(s: State, steps: seq<Step>)
    requires Good(s) && Alone(s) && CanRun(s, steps) && forall e <- steps :: !e.Enter?
    ensures Good(Run(s, steps)) && Alone(Run(s, steps))
    decreases |steps|
  {
    hide Next, Enabled, Good, Alone;
    if steps != [] {
      StepKeepsGood(s, steps[0]);
      StepKeepsAlone(s, steps[0]);
      RunKeepsAlone(Next(s, steps[0]), steps[1..]);
    }
  }

  /** From here the loop can still end without a thread that enters `CancelWatch` from outside. */
  ghost predicate CanEnd(s: State) {
    exists more: seq<Step> :: CanRun(s, more) && (forall e <- more :: !e.Enter?) && !Run(s, more).loop.running
  }

  lemma AloneCanEnd(s: State)
    requires Alone(s)
    ensures CanEnd(s) <==> !s.loop.running || !s.reply.canceled
  {
    if !s.loop.running {
      assert CanRun(s, []) && !Run(s, []).loop.running;
      assert CanEnd(s);
    } else if s.reply.canceled {
      forall e: Step | !e.Enter? ensures !Enabled(s, e) {
      }
      forall more: seq<Step> | CanRun(s, more) && (forall e <- more :: !e.Enter?) ensures more == [] {
      }
    } else {
      var op := if s.queue.issued[ReadDummy] > 0 then ReadDummy else ReadReply;
      var e := Complete(op, false, OK);
      assert Enabled(s, e) && !Next(s, e).loop.running;
      assert CanRun(Next(s, e), []);
      RunCons(s, e, []);
      assert [e] + [] == [e];
      assert CanEnd(s);
    }
  }

  /**
   * A one-shot watch that nobody cancels from outside can still end if and only if it has ended or the last
   * reply it has read is not a cancelled one. Behind a cancelled reply, for instance for compaction, it
   * waits for ever: nothing is outstanding.
   */
  lemma OneShotEndsExactly(startRevision: int, replies: seq<Reply>, steps: seq<Step>)
    requires CanRun(Begin(OneShot, startRevision, replies, Connected), steps) && forall e <- steps :: !e.Enter?
    ensures var s := Run(Begin(OneShot, startRevision, replies, Connected), steps);
            CanEnd(s) <==> !s.loop.running || !Last(s.queue.got).canceled
  {
    hide Next, Enabled, Good, Bounded, Expected, Stops, Effective, Parsed;
    var b := Begin(OneShot, startRevision, replies, Connected);
    BeginInv(OneShot, startRevision, replies);
    RunKeeps(b, steps, replies);
    RunKeepsAlone(b, steps);
    AloneCanEnd(Run(b, steps));
  }

  /** A stream whose first reply is a cancelled one leads there. */
  lemma CompactedOneShotHangs(startRevision: int, r: Reply)
    requires r.canceled
    ensures var b := Begin(OneShot, startRevision, [r], Connected);
            var steps := [Complete(ReadReply, true, OK)];
            CanRun(b, steps) && !CanEnd(Run(b, steps))
  {
    hide Parsed, Effective;
    var b := Begin(OneShot, startRevision, [r], Connected);
    var e := Complete(ReadReply, true, OK);
    assert CanRun(Next(b, e), []);
    RunCons(b, e, []);
    assert [e] + [] == [e];
    assert multiset{ReadReply} - multiset{ReadReply} == multiset{};
    AloneCanEnd(Run(b, [e]));
  }
}
