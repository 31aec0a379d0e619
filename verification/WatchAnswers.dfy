/**
 * What a watch tells about the changes of a store (src/v3/AsyncGRPC.cpp:308-341, proto/kv.proto:31-49), and
 * which reply a one-shot watch answers with (src/v3/AsyncGRPC.cpp:1341-1376).
 */
module WatchAnswers {
  import opened Bytes
  import opened Ranges
  import opened Store
  import R = Responses
  import A = Answers
  import opened Actions
  import opened Watch
  import opened WatchProperties
  import WatchTheorems

  // ----- what the server reports

  /** The event of a put: the entry afterwards, and the entry before, if there was one. */
  predicate ReportsPut(e: Event, before: Option<KeyValue>, after: KeyValue) {
    e.eventType == PUT && e.kv == after && e.prevKv == before
  }

  /** The event of a removal: the key with the revision of the deletion, and the entry before. */
  predicate ReportsRemoval(e: Event, key: bytes, revision: int, before: KeyValue) {
    e.eventType == DELETE && e.kv == KeyValue(key, 0, revision, 0, [], 0) && e.prevKv == Some(before)
  }

  /** A reply that is about events. */
  predicate TellsEvents(r: Reply) {
    r.events != [] && !(r.canceled && r.compactRevision != 0)
  }

  /** The response as the caller gets it (src/Response.cpp:31-56); there are no values besides. */
  function Delivered(w: WatchResponse): R.ClientResponse {
    R.FromParsed(R.Parsed(w.errorCode, w.errorMessage, w.index, w.action, w.value, w.prevValue, [], []))
  }

  // ----- what the caller is told

  /**
   * A put anywhere in a transaction, or on its own: the caller is told the entry it has left behind and the
   * one that was there before it. The action is "create" exactly if the key was absent right before, and
   * "set" exactly if it was there.
   */
  lemma PutIsTold(base: Store, p: Progress, key: bytes, value: bytes, lease: int, prevKv: bool, r: Reply)
    requires ValidProgress(base, p) && key != [] && TellsEvents(r)
    requires var p' := RunOp(base, p, RequestPut(key, value, lease, prevKv)).0;
             Lookup(p'.kvs, key).Some? ==> ReportsPut(r.events[0], Lookup(p.kvs, key), Lookup(p'.kvs, key).value)
    ensures var p' := RunOp(base, p, RequestPut(key, value, lease, prevKv)).0;
            var (w, before, after) := (Parsed(OK, r), Lookup(p.kvs, key), Lookup(p'.kvs, key));
            && after.Some? && w.value == after.value
            && w.value.key == key && w.value.value == value && w.value.lease == lease
            && w.value.modRevision == base.revision + 1
            && (before.Some? ==> w.prevValue == before.value && w.prevValue.key == key)
            && (w.action == "create" <==> before.None?) && (w.action == "set" <==> before.Some?)
            && A.Shows(Delivered(w).value, after.value) && A.ShowsIfAny(Delivered(w).prevValue, before)
            && Delivered(w).action == w.action && Delivered(w).index == r.revision && Delivered(w).IsOk()
  {
    LookupKey(p.kvs, key);
    LookupInsert(p.kvs, Written(Lookup(p.kvs, key), key, value, lease, base.revision + 1), key);
    hide Insert, Lookup, Valid;
    if Lookup(p.kvs, key).Some? {
      VersionsArePositive(base, p, Lookup(p.kvs, key).value);
    }
  }

  lemma VersionsArePositive(base: Store, p: Progress, kv: KeyValue)
    requires ValidProgress(base, p) && kv in p.kvs
    ensures 0 < kv.version
  {
  }

  /** A removal: the action is "delete", the value names the key and the revision, the previous value the old entry. */
  lemma RemovalIsTold(key: bytes, revision: int, before: KeyValue, r: Reply)
    requires TellsEvents(r) && ReportsRemoval(r.events[0], key, revision, before)
    ensures var w := Parsed(OK, r);
            && w.action == "delete" && w.value.key == key && w.value.modRevision == revision && w.value.version == 0
            && w.prevValue == before
            && A.Shows(Delivered(w).prevValue, before) && Delivered(w).value.key == key
            && Delivered(w).value.modified == revision
  {
  }

  /** The action says what kind of event the first one was, and nothing else does. */
  lemma ActionIsExact(r: Reply)
    requires TellsEvents(r)
    ensures var (a, e) := (Parsed(OK, r).action, r.events[0]);
            && (a == "delete" <==> e.eventType == DELETE)
            && (a == "create" <==> e.eventType == PUT && e.kv.version == 1)
            && (a == "set" <==> e.eventType == PUT && e.kv.version != 1)
            && (a == "watch" <==> e.eventType == UNKNOWN)
  {
  }

  /** Of several events the first decides; all of them are passed on in order, at the revision of the reply. */
  lemma FirstEventDecides(r: Reply)
    requires TellsEvents(r)
    ensures var (w, alone) := (Parsed(OK, r), Parsed(OK, r.(events := [r.events[0]])));
            && w.action == alone.action && w.value == alone.value && w.prevValue == alone.prevValue
            && w.index == r.revision && w.events == r.events && w.watchId == r.watchId
            && w.errorCode == 0 && w.errorMessage == "" && w.compactRevision == -1
  {
  }

  /** Without events there is nothing but the revision; a compaction is an error that names its revision. */
  lemma OtherRepliesAreTold(r: Reply)
    requires !TellsEvents(r)
    ensures var w := Parsed(OK, r);
            && w.value == EMPTY_KV && w.prevValue == EMPTY_KV && w.events == [] && w.action == "watch"
            && w.watchId == r.watchId
            && (if r.canceled && r.compactRevision != 0
                then w.errorCode == 11 && w.errorMessage == "required revision has been compacted"
                     && w.compactRevision == r.compactRevision && w.index == 0
                else w.errorCode == 0 && w.errorMessage == "" && w.compactRevision == -1 && w.index == r.revision)
  {
  }

  /** A bad status is told as such, and nothing of the reply but its watch id. */
  lemma BadStatusIsTold(status: Status, r: Reply)
    requires status.code != 0
    ensures var w := Parsed(status, r);
            && w.errorCode == status.code && w.errorMessage == status.message && w.watchId == r.watchId
            && w.value == EMPTY_KV && w.prevValue == EMPTY_KV && w.events == [] && w.index == 0 && w.compactRevision == -1
  {
  }

  // ----- which reply a one-shot watch answers with

  /** The loop has accepted a reply: it reads on into nothing. */
  predicate HasAccepted(s: State) {
    s.queue.issued[ReadDummy] > 0
  }

  /**
   * The loop has accepted a reply if and only if the last one it has read is not cancelled and carries events
   * or is a creation reply below the requested revision, and no reply before it was cancelled or such. That
   * reply is the one it answers with, for good.
   */
  lemma OneShotAccepts(startRevision: int, replies: seq<Reply>, steps: seq<Step>, more: seq<Step>)
    requires CanRun(Begin(OneShot, startRevision, replies, Connected), steps)
    requires CanRun(Run(Begin(OneShot, startRevision, replies, Connected), steps), more)
    ensures var s := Run(Begin(OneShot, startRevision, replies, Connected), steps);
            var n := |s.queue.got|;
            && n <= |replies| && s.queue.got == replies[..n]
            && (HasAccepted(s) <==>
                  && n > 0 && !replies[n - 1].canceled
                  && (replies[n - 1].events != []
                      || (replies[n - 1].created && replies[n - 1].revision < startRevision)))
            && (forall j :: 0 <= j < n - 1 ==>
                  && !replies[j].canceled && replies[j].events == []
                  && !(replies[j].created && replies[j].revision < startRevision))
            && (HasAccepted(s) ==> && s.reply == replies[n - 1] && Run(s, more).reply == replies[n - 1]
                                   && HasAccepted(Run(s, more)))
  {
    hide Next, Enabled, Begin, Good, Bounded, Expected, FirstStop;
    var b := Begin(OneShot, startRevision, replies, Connected);
    WatchTheorems.BeginInv(OneShot, startRevision, replies);
    WatchTheorems.BeginMode(OneShot, startRevision, replies);
    RunKeeps(b, steps, replies);
    var s := Run(b, steps);
    RunKeeps(s, more, replies);
    AcceptedInFields(s, startRevision, replies);
    WatchTheorems.OneShotAnswer(startRevision, replies, steps, more);
  }

  lemma AcceptedInFields(s: State, startRevision: int, replies: seq<Reply>)
    requires Told(s, replies) && s.mode.OneShot? && s.startRevision == startRevision
    ensures var n := |s.queue.got|;
            && n <= |replies| && s.queue.got == replies[..n]
            && (HasAccepted(s) <==>
                  && n > 0 && !replies[n - 1].canceled
                  && (replies[n - 1].events != []
                      || (replies[n - 1].created && replies[n - 1].revision < startRevision)))
            && (forall j :: 0 <= j < n - 1 ==>
                  && !replies[j].canceled && replies[j].events == []
                  && !(replies[j].created && replies[j].revision < startRevision))
  {
    hide Expected;
    var got := s.queue.got;
    assert forall j :: 0 <= j < |got| ==> replies[j] == got[j];
    assert forall j :: 0 <= j < |got| - 1 ==> !Stops(s.mode, s.startRevision, got[j]);
  }

  /** A watch from the current revision answers with events only. */
  lemma CurrentWatchAnswersWithEvents(replies: seq<Reply>, steps: seq<Step>)
    requires CanRun(Begin(OneShot, 0, replies, Connected), steps) && forall r <- replies :: 0 <= r.revision
    ensures var s := Run(Begin(OneShot, 0, replies, Connected), steps);
            HasAccepted(s) ==> s.reply.events != []
  {
    hide Next, Enabled, Begin;
    OneShotAccepts(0, replies, steps, []);
    var s := Run(Begin(OneShot, 0, replies, Connected), steps);
    if HasAccepted(s) {
      assert replies[|s.queue.got| - 1] in replies;
    }
  }

  /** A watch from a future revision answers with the creation reply itself, as soon as that has been read. */
  lemma FutureWatchAnswersAtOnce(startRevision: int, replies: seq<Reply>, steps: seq<Step>)
    requires CanRun(Begin(OneShot, startRevision, replies, Connected), steps)
    requires replies != [] && replies[0].created && !replies[0].canceled && replies[0].revision < startRevision
    ensures var s := Run(Begin(OneShot, startRevision, replies, Connected), steps);
            && |s.queue.got| <= 1
            && (HasAccepted(s) <==> |s.queue.got| == 1) && (HasAccepted(s) ==> s.reply == replies[0])
  {
    hide Next, Enabled, Begin;
    OneShotAccepts(startRevision, replies, steps, []);
  }
}
