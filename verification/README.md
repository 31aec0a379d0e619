# A verified model of etcd-cpp-apiv3

This project models the parts of the etcd v3 client for C++ that carry real logic, and proves what they
promise. Modules follow the source files.

- `Bytes`, `Ranges`: byte strings in etcd's order, `string_plus_one`, `make_request_with_ranges`.
- `Store`: a reference etcd store with the meaning proto/rpc.proto and proto/kv.proto give to requests; the
  guards of a nested transaction are judged, as etcd does, on the store before the outermost one.
- `Transaction`: the transaction builder, a class that appends guards and operations in place; `Builders`: any
  sequence of its calls, and what becomes of the request on the server.
- `Responses`: the parsers that fold replies back, and the `Response` constructor.
- `Actions`, `Conditionals`, `Directory`, `SyncClient`: build, run and parse, put together for each
  key-value call and compared with the operation one would write down directly; `Answers`: what each of them
  shows to the caller, field by field, against the entries of the store.
- `FetchAndAdd`, `IndexGuard`: whole runs by any number of clients.
- `Watch`, `WatchProperties`, `WatchTheorems`: the two watch loops, and `CancelWatch` from any number of
  threads; `WatchAnswers`: what a watch tells about changes of the store, and which reply a one-shot watch
  takes; `Watcher`, `WatcherTheorems`: the watcher thread, and who comes back from joining it. The completion
  queue may complete any outstanding operation next, successfully or not; the replies of the server are an
  arbitrary finite list.
- `KeepAliveStream`, `KeepAlive`: the lease stream with its timeouts, and the thread protocol around it;
  `KeepAliveChecks`: the refreshes that are made, and what becomes of their errors.
- `Locks`, `LockLifetimes`, `LockTheorems`, `LockProgress`: the two maps behind `lock` and `unlock`, and the
  lifetime of the keep-alive of each lock.
- `Endpoints`: splitting and joining endpoint lists.
- `Threads`: there is always a thread that has not been seen yet.

Code that changes objects step by step is written as classes and methods with loops. Each method is
proved equal to a specification function, and the theorems are about that function. Protocols between
threads are state machines: `Enabled` and `Next` for single atomic steps, `CanRun` and `Run` for
schedules, which are arbitrary finite sequences. All theorems on runs are for every schedule.
Timeouts, lost calls and failing completions are choices of the schedule.

## What the code does otherwise than one would expect

The model follows the code. For each of these a lemma says exactly when the code does what one would expect,
and another one shows a case where it does not.

- The `setup_compare_or_*` builders are documented as "compare, or act if failed"
  (etcd/v3/Transaction.hpp:105-153). With a previous value and a missing key neither the `and` nor the
  `or` builder acts (`OrIsElseOfAnd`, `OrByValueSkipsMissingKeys`).
- On a missing key `modify_if` and `rm_if` succeed if and only if the previous index is 0, where the one
  creates the key and the other reports a removal (both in `IndexZeroMeansMissing`). A failed `modify` is
  on a missing key, and reports neither an index nor an action (`RefusalsShowTheCurrentEntry`).
- A size limit of `ls` is narrowed to a signed 32-bit integer (`LimitIsKeptExactly`, `HugeLimitIsNoLimit`).
- A one-shot watch that has accepted a reply reports the error of `Finish` instead, if and only if
  `Finish` completed with one (`OneShotResponse`, `FinishCanMaskTheAnswer`).
- The cancel request of a one-shot watch can be written to a queue that has been shut down, if another
  thread was overtaken in `CancelWatch` (`OneShotLateExactly`, `OneShotCanBeLate`). In the library itself
  only the watcher, whose watch is never late (`CallbackNeverLate`), calls `CancelWatch` from another thread
  (src/Watcher.cpp:248), and without such a thread a one-shot watch is not late either
  (`OneShotAloneIsNeverLate`).
- A one-shot watch that has read a cancelled reply, for instance because the revision has been compacted,
  has nothing outstanding and waits for ever. `SyncClient::watch` (src/SyncClient.cpp:886-894) gives nobody
  the means to cancel it (`OneShotEndsExactly`, `CompactedOneShotHangs`).
- A watcher whose stream could not be created waits for a completion that cannot come. The one call of
  `Cancel` or `Wait` that wins the exchange and is to join the thread then never returns, while all
  others can; on a created stream all calls can return (`CallComesBackExactly`, `JoinableExactly`,
  `WinnerHangs`).
- A keep-alive refresh whose write timed out reports success if and only if the stream then closes with an
  OK status, and the half-close is started on top of that write; a write that completes badly leaves the
  stream open if and only if there is a deadline (`RefreshOutcome`, `TimeoutCanLookLikeSuccess`,
  `BadWriteLeavesOpen`).
- Locks whose lease grant failed share one entry, that of lease 0. The keep-alive of a held lock stays on
  file, whatever others do, if and only if its lease is not 0 (`EntryStaysExactly`,
  `FailedGrantsShareAnEntry`).
- `unlock` cancels the keep-alive before it revokes the lease if and only if no lock call has a reference
  of its own any more. An unlock from another thread, before `lock` has returned, revokes a lease that is
  still being refreshed (`CancelComesFirstExactly`, `EarlyUnlockIsRefreshed`).

## Model

| member | source | states |
|---|---|---|
| Ranges.StringPlusOne | src/v3/Action.cpp:119-129 | the downward loop raises the last byte below 0xff and cuts what follows, and returns NUL when there is none |
| Ranges.PlusOneBound | src/v3/Action.cpp:119-129 | the result is the least string above everything with the prefix exactly when such a bound exists, and NUL exactly when none does; a bound is never NUL |
| Ranges.SuccessorExact | src/v3/Action.cpp:119-129 | between a string and its bound lie exactly the strings that start with it |
| Ranges.SuccessorIsLeastBound | src/v3/Action.cpp:119-129 | the bound exists whenever any string lies above all those with the prefix, and is the least of them |
| Ranges.MakeRequestWithRanges | etcd/v3/Action.hpp:95-113 | sets and overwrites the two range fields as `RangesFor` says |
| Ranges.PrefixSelectionIsExact | etcd/v3/Action.hpp:95-113 | for every key, empty and all-0xff included, a recursive request selects precisely the non-empty keys with that prefix |
| Ranges.SingleSelection | etcd/v3/Action.hpp:95-113 | a plain request selects its key alone |
| Ranges.ExplicitEndWins | etcd/v3/Action.hpp:110-112 | an explicit end wins over `recursive` |
| Store.ApplyValid | proto/kv.proto:12-29 | every well-formed transaction, however nested, keeps the store ordered with sound revisions; it raises the revision by at most one, and changes nothing when it does not |
| Store.SelectSingle | proto/rpc.proto:400-407 | a plain range finds the one entry of its key |
| Transaction.Transaction.AddCompare | src/v3/Transaction.cpp:29-54 | appends one guard on the given target and nothing else |
| Transaction.Transaction.AddCompareVersion | src/v3/Transaction.cpp:62-72 | appends a guard on the version |
| Transaction.Transaction.AddCompareCreate | src/v3/Transaction.cpp:81-91 | appends a guard on the create revision |
| Transaction.Transaction.AddCompareMod | src/v3/Transaction.cpp:99-109 | appends a guard on the modification revision |
| Transaction.Transaction.AddCompareValue | src/v3/Transaction.cpp:117-127 | appends a guard on the value |
| Transaction.Transaction.AddCompareLease | src/v3/Transaction.cpp:135-145 | appends a guard on the lease |
| Transaction.Transaction.AddSuccessRange | src/v3/Transaction.cpp:147-156 | appends a read to the success branch |
| Transaction.Transaction.AddSuccessPut | src/v3/Transaction.cpp:158-168 | appends a put to the success branch |
| Transaction.Transaction.AddSuccessDelete | src/v3/Transaction.cpp:170-179 | appends a delete to the success branch |
| Transaction.Transaction.AddSuccessTxn | src/v3/Transaction.cpp:181-186 | appends a copy of another transaction to the success branch |
| Transaction.Transaction.AddFailureRange | src/v3/Transaction.cpp:188-197 | appends a read to the failure branch |
| Transaction.Transaction.AddFailurePut | src/v3/Transaction.cpp:199-209 | appends a put to the failure branch |
| Transaction.Transaction.AddFailureDelete | src/v3/Transaction.cpp:211-220 | appends a delete to the failure branch |
| Transaction.Transaction.AddFailureTxn | src/v3/Transaction.cpp:222-227 | appends a copy of another transaction to the failure branch |
| Transaction.Transaction.SetupCompareAndCreate | src/v3/Transaction.cpp:229-236 | an EQUAL guard, one put, and a read of the guarded key on failure |
| Transaction.Transaction.SetupCompareOrCreate | src/v3/Transaction.cpp:238-246 | the same with a NOT_EQUAL guard |
| Transaction.Transaction.SetupCompareAndSwap | src/v3/Transaction.cpp:248-255 | an EQUAL guard, a put of the guarded key, and a read of it on failure |
| Transaction.Transaction.SetupCompareOrSwap | src/v3/Transaction.cpp:257-264 | the same with a NOT_EQUAL guard |
| Transaction.Transaction.SetupCompareAndDelete | src/v3/Transaction.cpp:266-274 | an EQUAL guard, one delete that returns what it removed, and a read of the guarded key on failure |
| Transaction.Transaction.SetupCompareOrDelete | src/v3/Transaction.cpp:276-285 | the same with a NOT_EQUAL guard |
| Builders.Build | src/v3/Transaction.cpp:29-227 | any sequence of `add_*` calls on a fresh transaction, nested ones included, builds the request made of those calls |
| Builders.Perform | src/v3/Transaction.cpp:29-227 | one call puts its guard or operation behind those of its list and leaves the other two lists alone |
| Builders.ListsAreComplete | src/v3/Transaction.cpp:29-227 | each of the three lists has as many elements as there were calls of its kind |
| Builders.CallsInOrder | src/v3/Transaction.cpp:29-227 | what a call adds is found right behind what the earlier calls of its kind added, whatever was called in between |
| Builders.BuiltSucceedsExactly | proto/rpc.proto:590-610 | a built transaction succeeds if and only if the guard of every single call holds |
| Builders.OpsRunInOrder | proto/rpc.proto:590-610 | operation k runs on what those before it left behind, and answer k is its own |
| Builders.BuiltRunsInOrder | proto/rpc.proto:590-610 | the calls of the branch that is run take effect in call order, and their answers sit in that order |
| Builders.GuardMeans | proto/rpc.proto:535-573 | for each target and comparison: what a guard on one key asks of its entry, and of a missing key |
| Builders.RangeGuardMeans | proto/rpc.proto:535-573 | a guard on a range asks every entry in it; on an empty one it asks zeros, and never holds on the value |
| Conditionals.BuildFresh | src/v3/Transaction.cpp:229-343 | each of the six builders, called on a fresh transaction, makes a request of one guard and one operation |
| Conditionals.ConditionalRun | src/v3/Transaction.cpp:229-343 | on every store a conditional transaction does its one operation if the guard passes, else changes nothing and shows the current entry of the guarded key |
| Conditionals.OrIsElseOfAnd | etcd/v3/Transaction.hpp:105-153 | an `or` builder acts exactly when its `and` twin does not, if and only if the guard is on a revision or the key exists |
| Conditionals.OrByValueSkipsMissingKeys | etcd/v3/Transaction.hpp:123-131 | on an empty store neither of the two by value writes anything |
| Conditionals.SwapTxn | src/v3/Transaction.cpp:248-255 | compare-and-swap as a plain transaction succeeds exactly if the entry agrees, and shows the current entry otherwise |
| Responses.V3Response.ParseDelete | src/v3/AsyncGRPC.cpp:46-69 | all removed entries become values and previous values; none is "key not found" |
| Responses.V3Response.ParsePut | src/v3/AsyncGRPC.cpp:171-179 | one previous value, unset or not |
| Responses.V3Response.ParseRange | src/v3/AsyncGRPC.cpp:181-200 | a single read leaves a value and no values, a prefix read the whole list |
| Responses.V3Response.ParseOp | src/v3/AsyncGRPC.cpp:209-294 | one element of a transaction reply adds its values and previous values, and no error |
| Responses.V3Response.ParseTxn | src/v3/AsyncGRPC.cpp:206-302 | the loop over a reply of any depth computes the in-order concatenation and leaves error code and message alone |
| Responses.Response.constructor | src/Response.cpp:31-47 | the loop fills values and keys in step; the first value wins |
| Responses.TxnParsing | src/v3/AsyncGRPC.cpp:206-302 | parsing any nested reply gives no error; the results of operation n sit right behind those before it; `keys()[i]` is the key of `values()[i]` |
| Responses.TxnParsingIsClean | src/v3/AsyncGRPC.cpp:206-302 | the part of this that needs no operation: no error, and keys in step with values, for every reply |
| Responses.TxnParsingPrev | src/v3/AsyncGRPC.cpp:226-272 | the same for previous values |
| Responses.NestedLeavesNoTrace | src/v3/AsyncGRPC.cpp:273-294 | replacing a nested reply by nothing does not change what is parsed |
| Actions.SetAction | src/v3/AsyncGRPC.cpp:1099-1116 | the transaction behind `add` |
| Actions.UpdateAction | src/v3/AsyncGRPC.cpp:1189-1201 | the transaction behind `modify` |
| Actions.CompareAndSwapAction | src/v3/AsyncGRPC.cpp:404-421 | the transaction behind `modify_if` |
| Actions.CompareAndDeleteAction | src/v3/AsyncGRPC.cpp:369-384 | the transaction behind `rm_if` |
| Actions.ParseSet | src/v3/AsyncGRPC.cpp:1118-1134 | a failed create is "key already exists" over the parsed reply |
| Actions.ParseUpdate | src/v3/AsyncGRPC.cpp:1203-1219 | a failed update is "key not found" over an unparsed reply |
| Actions.ParseConditional | src/v3/AsyncGRPC.cpp:423-441 | a reply that did not succeed is "compare failed", unless the call itself failed |
| Actions.ParseCompareAndDelete | src/v3/AsyncGRPC.cpp:386-402 | the same for compare-and-delete |
| Actions.AddIsDirect | src/v3/AsyncGRPC.cpp:1099-1134 | for every store and argument: build, run and parse of `add` gives the store and response of the direct operation |
| Actions.SetIsDirect | src/v3/AsyncGRPC.cpp:1099-1134 | the same for the set form of that action |
| Actions.ModifyIsDirect | src/v3/AsyncGRPC.cpp:1189-1219 | the same for `modify`, with the previous value |
| Actions.ModifyIfIsDirect | src/v3/AsyncGRPC.cpp:404-441 | the same for `modify_if`, by value and by index |
| Actions.RmIfIsDirect | src/v3/AsyncGRPC.cpp:369-402 | the same for `rm_if`, by value and by index |
| Actions.RefusalsShowTheCurrentEntry | src/v3/AsyncGRPC.cpp:369-441 | a failed add, modify_if or rm_if leaves the store alone and returns the current entry; a failed modify leaves it alone and returns nothing |
| Actions.IndexZeroMeansMissing | src/v3/AsyncGRPC.cpp:369-441 | on a missing key modify_if and rm_if succeed if and only if they are conditioned on the index 0 |
| Actions.TxnReportsCompareFailedExactly | src/v3/AsyncGRPC.cpp:1144-1163 | a plain transaction whose call went through fails exactly when its guards do not all hold |
| SyncClient.SyncClient.Add | src/SyncClient.cpp:617-633 | the call does to the server and returns what `AddDirectly` says; a lost call is reported as such, and the store is the old one or the one `AddDirectly` gives |
| SyncClient.SyncClient.Modify | src/SyncClient.cpp:658-674 | the same for `modify` |
| SyncClient.SyncClient.ModifyIf | src/SyncClient.cpp:676-707 | the same for `modify_if` |
| SyncClient.SyncClient.RmIf | src/SyncClient.cpp:724-750 | the same for `rm_if` |
| SyncClient.SyncClient.Txn | src/SyncClient.cpp:1180-1191 | the caller's transaction is applied once and its reply parsed |
| SyncClient.SyncClient.Put | src/SyncClient.cpp:635-656 | the same for `put`: the previous entry, not the new one, comes back |
| SyncClient.SyncClient.Get | src/SyncClient.cpp:590-609 | the same for `get`, which never changes the store |
| SyncClient.SyncClient.Ls | src/SyncClient.cpp:789-869 | the same for `ls` of a directory, which never changes the store |
| SyncClient.SyncClient.LsRange | src/SyncClient.cpp:803-821 | the same for `ls` of an explicit range |
| SyncClient.SyncClient.Rm | src/SyncClient.cpp:709-722 | the same for `rm` |
| SyncClient.SyncClient.Rmdir | src/SyncClient.cpp:752-765 | the same for `rmdir`, recursive or not |
| SyncClient.SyncClient.RmdirRange | src/SyncClient.cpp:767-787 | the same for `rmdir` of an explicit range |
| Directory.RangeAction | src/v3/AsyncGRPC.cpp:1035-1054 | the request of a read, with its narrowed limit |
| Directory.DeleteAction | src/v3/AsyncGRPC.cpp:443-453 | the request of a delete, which asks for what it removes |
| Directory.ParseRangeAction | src/v3/AsyncGRPC.cpp:1056-1068 | a read of several keys is one by prefix or by explicit end |
| Directory.ParseDeleteAction | src/v3/AsyncGRPC.cpp:455-466 | a failed call is reported, a good reply parsed |
| Directory.ParsePutAction | src/v3/AsyncGRPC.cpp:1021-1033 | the same for a put |
| Directory.ApplyOpValid | proto/kv.proto:12-29 | a single operation keeps the store valid, and a read leaves it alone |
| Directory.PutIsDirect | src/v3/AsyncGRPC.cpp:1009-1033 | build, run and parse of `put` equal the direct operation |
| Directory.GetIsDirect | src/v3/AsyncGRPC.cpp:1035-1068 | the same for `get`, whatever the limit |
| Directory.LsIsDirect | src/v3/AsyncGRPC.cpp:1035-1068 | `ls` returns the entries below the prefix, in key order, up to the narrowed limit |
| Directory.LsRangeIsDirect | src/v3/AsyncGRPC.cpp:1035-1068 | the same for the entries of an explicit range; with an empty end it is a read of the key |
| Directory.DeleteIsRemoval | src/v3/AsyncGRPC.cpp:443-466 | a delete of any range answers with what it removed and removes nothing else |
| Directory.RmdirIsDirect | src/v3/AsyncGRPC.cpp:443-466 | a recursive delete removes exactly the entries below the prefix |
| Directory.RmIsDirect | src/v3/AsyncGRPC.cpp:443-466 | a plain delete removes exactly the entry of its key |
| Directory.RmdirConserves | src/v3/AsyncGRPC.cpp:46-69 | `rmdir` removes and returns, in order, what an unlimited `ls` lists; "key not found" if and only if that is empty; every other key is unchanged; a following `ls` is empty and ok |
| Directory.LimitIsKeptExactly | src/SyncClient.cpp:856-869 | the limit of `ls` is kept if and only if it survives narrowing to 32 bits or the directory is small |
| Directory.HugeLimitIsNoLimit | src/SyncClient.cpp:856-869 | a limit of 2^32 lists everything |
| Answers.PutLeaves | proto/kv.proto:12-29 | a put creates at version 1, or keeps the create revision and counts the version up; the modification revision is the new revision, and no other key changes |
| Answers.GetShowsTheEntry | src/Value.cpp:21-30 | `get` shows each field of the stored entry under its own name, and nothing if there is none |
| Answers.LsShowsTheEntries | src/Response.cpp:31-47 | `ls` shows stored entries below the prefix, field by field and in key order; one that is not shown comes behind all that are, and then exactly the limit is shown |
| Answers.LsRangeShowsTheEntries | src/SyncClient.cpp:803-821 | the same for an explicit range: from its key up to its end |
| Answers.AddShows | src/Response.cpp:31-47 | with its action and error: `add`, successful or not, shows the entry that is there afterwards and no previous one |
| Answers.ModifyShows | src/Response.cpp:31-47 | `modify` shows the entry afterwards and the one before |
| Answers.ModifyIfShows | src/Response.cpp:31-47 | `modify_if` shows the entry afterwards, written or refused |
| Answers.RmIfShows | src/Response.cpp:31-47 | `rm_if` shows the entry that was there, and as previous value too exactly if it was removed |
| Answers.PutShows | src/Response.cpp:31-47 | `put` shows the previous entry only |
| Answers.RmShows | src/Response.cpp:31-47 | `rm` shows the entry it removed, as value and as previous value |
| Answers.RmdirShows | src/Response.cpp:31-47 | a recursive `rmdir` shows, in key order, all that it removed and nothing else |
| Answers.TxnShows | src/Response.cpp:31-47 | a transaction shows the entries its reads and deletes found, one by one and field by field |
| Answers.NamedTxn | src/v3/AsyncGRPC.cpp:1144-1163 | the response to a transaction says "txn", and is "compare failed" exactly if it did not succeed |
| Answers.TxnShowsPrev | src/Response.cpp:47-47 | and as previous value the first one that a put or delete found |
| Answers.ReadThenSwapIsExact | src/v3/Transaction.cpp:306-313 | `modify_if` on the modification index that a `get` has shown succeeds exactly if nobody has touched the key in between |
| FetchAndAdd.StoiOfToString | README.md:910-919 | `stoi` reads back what `to_string` prints, for every integer |
| FetchAndAdd.SwapTransaction | README.md:912-914 | the code of a client builds the very transaction the attempts are about |
| FetchAndAdd.TryToAdd | README.md:912-919 | building it, having it run and parsing the reply is one attempt; a lost call returns no value and may have been applied |
| FetchAndAdd.ReadNumber | README.md:910 | the `get` on entry reads the number |
| FetchAndAdd.AttemptOutcome | tst/TransactionTest.cpp:91-101 | an attempt succeeds exactly when the client's number is the stored one, and otherwise learns that one |
| FetchAndAdd.FetchAndAddIsExact | README.md:907-921 | in every interleaving of any number of clients, with calls lost at will, the stored number is the initial one plus the successful swaps plus the lost ones that took effect, at most one per lost call; failed swaps are at most increments times (clients - 1) |
| FetchAndAdd.FetchAndAddWithoutLoss | README.md:907-921 | when no call is lost: the initial number plus the successful swaps, and failures at most successes times (clients - 1) |
| IndexGuard.PlainIsTxn | proto/rpc.proto:575-610 | a plain put, read or delete is served like the unguarded transaction of that operation |
| IndexGuard.ModRevisionTellsTouches | proto/kv.proto:12-29 | over any run of plain requests and nested transactions, a key has the modification revision it had if and only if none of them wrote or deleted it |
| IndexGuard.IndexIsModRevision | src/v3/AsyncGRPC.cpp:171-179 | a successful put, add, modify or modify_if returns the revision it gave the key |
| IndexGuard.IndexGuardIsExact | src/v3/Transaction.cpp:306-313 | a later `modify_if` on that index succeeds exactly if nobody has touched the key since, even if the old content was restored |
| IndexGuard.UntouchedIsUnchanged | proto/kv.proto:12-29 | an untouched key keeps its very entry; a touched one has a later revision or is gone |
| Watch.AsyncWatchAction.constructor | src/v3/AsyncGRPC.cpp:1221-1270 | opens the stream, writes the request and starts one read, or is cancelled with an error |
| Watch.AsyncWatchAction.ParseResponse | src/v3/AsyncGRPC.cpp:308-341 | the loop over the events ends behind the first, which gives action, value and previous value; compaction is an error |
| Watch.AsyncWatchAction.CancelWatch | src/v3/AsyncGRPC.cpp:1473-1480 | the winner of the exchange writes one cancel request |
| Watch.AsyncWatchAction.WaitForResponse | src/v3/AsyncGRPC.cpp:1288-1471 | both loops, under any schedule of completions and of other threads, do what the state machine does |
| Watch.AsyncWatchAction.HandleOneShotReply | src/v3/AsyncGRPC.cpp:1341-1376 | what the one-shot loop makes of a reply |
| Watch.AsyncWatchAction.HandleCallbackReply | src/v3/AsyncGRPC.cpp:1439-1465 | what the callback loop makes of a reply |
| WatchTheorems.StreamDiscipline | src/v3/AsyncGRPC.cpp:1221-1480 | in every reachable state of both loops, with any number of cancellers: one read and one write-side operation outstanding at most, one cancel request ever, WritesDone and Finish once each and in order |
| WatchTheorems.OneShotAnswer | src/v3/AsyncGRPC.cpp:1288-1382 | the accepted reply is the first of the stream that answers, if no cancelled one comes before; nothing overwrites it later |
| WatchTheorems.StatusIsFromFinish | src/v3/AsyncGRPC.cpp:1331-1340 | in every schedule the status turns into an error exactly when `Finish` completes with one |
| WatchTheorems.OneShotResponse | src/v3/AsyncGRPC.cpp:1484-1496 | once a reply is accepted the caller gets an error if and only if `Finish` has completed with one in the schedule, and that reply otherwise |
| WatchTheorems.FinishCanMaskTheAnswer | src/v3/AsyncGRPC.cpp:1331-1340 | an order of completions in which the accepted reply is lost to that error |
| WatchTheorems.CallbacksAreExact | src/v3/AsyncGRPC.cpp:1384-1471 | the callbacks are those for the event-carrying replies before the first cancelled one, then one compaction notice if it has a compact revision, and nothing after |
| WatchTheorems.ForEventsInOrder | src/v3/AsyncGRPC.cpp:1448-1457 | callback n is for the n-th reply with events |
| WatchTheorems.ForEventsOnly | src/v3/AsyncGRPC.cpp:1448-1457 | every callback is for one such reply, in its place |
| WatchTheorems.FailedCreationOnlyWaits | src/v3/AsyncGRPC.cpp:1390-1404 | after a failed creation one error is called back and the loop never gets through a wait |
| WatchTheorems.LoopsAreBounded | src/v3/AsyncGRPC.cpp:1298-1470 | both loops run at most M + 3 times on a stream of M replies, for every schedule, where only replies read count, and none behind the first that stops the watch |
| WatchTheorems.BoundIsReached | src/v3/AsyncGRPC.cpp:1398-1470 | for every stream without cancelled replies some schedule needs all M + 3 |
| WatchTheorems.EndTheLoop | src/v3/AsyncGRPC.cpp:1425-1438 | once the cancel request is out, at most three successful completions end the callback loop, from every reachable state |
| WatchTheorems.CallbackNeverLate | src/v3/AsyncGRPC.cpp:1384-1480 | the callback watch never uses a queue that has been shut down |
| WatchTheorems.OneShotLateExactly | src/v3/AsyncGRPC.cpp:1473-1480 | a one-shot watch can, if and only if another thread has won the exchange and not yet written |
| WatchTheorems.OneShotCanBeLate | src/v3/AsyncGRPC.cpp:1288-1382 | a schedule that leads there |
| WatchTheorems.OneShotAloneIsNeverLate | src/v3/AsyncGRPC.cpp:1288-1382 | without a thread that enters `CancelWatch` from outside it is never late |
| WatchTheorems.OneShotEndsExactly | src/v3/AsyncGRPC.cpp:1341-1376 | without such a thread a one-shot loop can still end if and only if it has ended or the last reply read is not a cancelled one |
| WatchTheorems.CompactedOneShotHangs | src/v3/AsyncGRPC.cpp:1343-1348 | a cancelled first reply leads to a loop that cannot end |
| WatchAnswers.PutIsTold | src/v3/AsyncGRPC.cpp:319-334 | of a put reported in a watch the caller is told the new entry as value and the one before as previous value, field by field; the action is "create" exactly if the key was absent right before |
| WatchAnswers.RemovalIsTold | src/v3/AsyncGRPC.cpp:319-334 | of a removal: the key and its revision, and the entry that was there |
| WatchAnswers.ActionIsExact | src/v3/AsyncGRPC.cpp:319-334 | the action tells the kind of the first event, both directions |
| WatchAnswers.FirstEventDecides | src/v3/AsyncGRPC.cpp:308-341 | of several events the first gives action, value and previous value; all are passed on, at the revision of the reply |
| WatchAnswers.OtherRepliesAreTold | src/v3/AsyncGRPC.cpp:308-318 | without events only the revision is told; compaction is error 11 and names its revision |
| WatchAnswers.BadStatusIsTold | src/v3/AsyncGRPC.cpp:308-318 | a bad status is told with its code and message, and nothing of the reply besides |
| WatchAnswers.OneShotAccepts | src/v3/AsyncGRPC.cpp:1341-1376 | in every schedule a reply has been accepted if and only if the last one read is not cancelled and has events or is a creation reply below the requested revision; none before it was cancelled or such; it stays the answer |
| WatchAnswers.CurrentWatchAnswersWithEvents | src/SyncClient.cpp:886-889 | a watch from the current revision never answers without events |
| WatchAnswers.FutureWatchAnswersAtOnce | src/v3/AsyncGRPC.cpp:1352-1357 | a watch from a future revision answers with the creation reply, as soon as that is read |
| Watcher.WatcherObject.constructor | src/Watcher.cpp:256-287 | creates the action and starts the thread |
| Watcher.WatcherObject.Cancel | src/Watcher.cpp:247-250 | a call of `Cancel` enters `CancelWatch` |
| Watcher.WatcherObject.StepWait | src/Watcher.cpp:223-230 | the exchange decides who joins |
| Watcher.WatcherObject.SetWaitCallback | src/Watcher.cpp:232-245 | only the first callback is taken, and the result says so |
| Watcher.WatcherObject.LeaveThread | src/Watcher.cpp:273-285 | the thread hands the cancelled flag to the wait callback |
| Watcher.RunIsInnerRun | src/Watcher.cpp:223-287 | every run of the watcher is a run of its loop |
| Watcher.WatcherKeepsDiscipline | src/Watcher.cpp:247-250 | so the stream discipline holds with any number of threads in `Cancel` |
| Watcher.JoinedAtMostOnce | src/Watcher.cpp:223-250 | the thread is joined at most once; behind the join no callback is made; the wait callback is invoked at most once, behind the loop |
| Watcher.FailedWatcherIsNeverJoined | src/Watcher.cpp:223-287 | a watcher without a stream is never joined |
| Watcher.WaitCallbackIsExact | src/Watcher.cpp:273-285 | the callback of the first `Wait(callback)` before the loop has ended is invoked once, with true exactly if some thread made the exchange in `CancelWatch` by then; without one nothing is invoked |
| Watcher.CancelReturnsTrue | src/Watcher.cpp:223-250 | the flag that `Cancel` returns is set from its way through `CancelWatch` on |
| WatcherTheorems.JoinableExactly | src/Watcher.cpp:223-287 | in every reachable state the thread can still be joined, and without any completion failing, if and only if the stream was created |
| WatcherTheorems.CallComesBackExactly | src/Watcher.cpp:223-250 | in every reachable state a call of `Cancel` or `Wait` can come back if and only if the stream was created or the call is not the winner of the exchange |
| WatcherTheorems.WinnerHangs | src/Watcher.cpp:223-230 | without a stream the first call of `Wait` cannot |
| KeepAliveStream.AsyncLeaseKeepAliveAction.constructor | src/v3/AsyncGRPC.cpp:539-557 | a stream that could not be created is cancelled from the start |
| KeepAliveStream.AsyncLeaseKeepAliveAction.CancelKeepAlive | src/v3/AsyncGRPC.cpp:662-696 | half-close, finish and shutdown, once |
| KeepAliveStream.AsyncLeaseKeepAliveAction.Refresh | src/v3/AsyncGRPC.cpp:573-660 | both code paths do what `Refreshed` says and leave a settled stream |
| KeepAliveStream.RefreshOutcome | src/v3/AsyncGRPC.cpp:573-660 | a refresh that completes its read returns the answer to its own request; when the stream stays open, when success is reported without a read and when the half-close overlaps a write are each characterised by an if-and-only-if |
| KeepAliveStream.LockStep | src/v3/AsyncGRPC.cpp:573-696 | that holds after any calls, with and without deadlines; once a wait has timed out or a read has failed no later call touches the stream |
| KeepAliveStream.TimeoutCanLookLikeSuccess | src/v3/AsyncGRPC.cpp:588-617 | a timed-out write that is reported as success, with a half-close on top of it |
| KeepAliveStream.BadWriteLeavesOpen | src/v3/AsyncGRPC.cpp:604-609 | a write that completes badly leaves the stream open under a deadline, and not without |
| KeepAlive.KeepAliveObject.Interleave | src/KeepAlive.cpp:143-258 | the code of the refresh thread, `Check` and `Cancel`, in any interleaving of atomic steps, does what the state machine does |
| KeepAlive.KeepAliveObject.StepRefreshTask | src/KeepAlive.cpp:201-258 | a step of the refresh thread |
| KeepAlive.KeepAliveObject.StepCaller | src/KeepAlive.cpp:145-199 | a step of a thread in `Check` or `Cancel` |
| KeepAlive.NoRefreshAfterCancel | src/KeepAlive.cpp:145-159 | once the winning `Cancel` has got to `CancelKeepAlive` no refresh is started again, in any interleaving |
| KeepAlive.CancelIsOrderly | src/KeepAlive.cpp:145-258 | calls on the stream never overlap; one cancellation and one join at most, in this order; at most one more timed wait after the flag is cleared |
| KeepAlive.NoDeadlock | src/KeepAlive.cpp:145-258 | while any call of `Check` or `Cancel` has not returned, a thread that is already there can take a step |
| KeepAlive.RefreshThreadStopsSoon | src/KeepAlive.cpp:201-229 | once the flag is cleared the refresh thread takes at most six further steps, in every interleaving |
| KeepAlive.EveryCallCanComeBack | src/KeepAlive.cpp:145-199 | in every reachable state each call under way can come back by steps of threads that are there, none of which fails: neither the mutex nor the join blocks for good |
| KeepAliveChecks.CheckRefreshes | src/KeepAlive.cpp:161-199 | in every interleaving a `Check` that comes back without an exception has started one refresh of its own unless the flag has been cleared; one whose refresh failed throws; it throws only if some refresh failed |
| KeepAliveChecks.RefreshesAddUp | src/KeepAlive.cpp:231-258 | all refreshes are those of the thread and one of each check that has started one; `Cancel` starts none |
| KeepAliveChecks.FailureIsKept | src/KeepAlive.cpp:161-199 | a failed refresh is kept once the call that made it is back, and an error is kept only if a refresh failed |
| KeepAliveChecks.ErrorIsSeen | src/KeepAlive.cpp:161-165 | once an error is kept, every `Check` that has not come back yet throws, wherever it is, and one called later starts no refresh |
| KeepAliveChecks.OneRefreshPerWait | src/KeepAlive.cpp:201-229 | while the flag is set there is exactly one refresh between two timed waits of the refresh thread; it leaves with the flag set only after a failed refresh |
| Locks.SyncClientLocks.Register | src/SyncClient.cpp:1099-1102 | the first critical section files the keep-alive |
| Locks.SyncClientLocks.Settle | src/SyncClient.cpp:1108-1115 | the second files the lease under the key, or withdraws the keep-alive |
| Locks.SyncClientLocks.Release | src/SyncClient.cpp:1151-1174 | unlock withdraws both and says which lease to revoke |
| Locks.LockBookkeeping | src/SyncClient.cpp:1084-1178 | in every interleaving the keep-alives on file are, disjointly, those of held locks and of waiting lock calls, each the very one its own call registered; unlocking a held lock finds its keep-alive; each lease is revoked at most once, and only by its own key |
| Locks.KeysAreLeases | src/SyncClient.cpp:1084-1178 | that equation of key sets, from the invariant |
| Locks.EntryStaysExactly | src/SyncClient.cpp:1084-1178 | the keep-alive of a held lock stays on file in every run in which the lock stays held, if and only if its lease is not 0 |
| Locks.FailedGrantsShareAnEntry | src/SyncClient.cpp:1151-1174 | two failed grants share lease 0: the second unlock finds no keep-alive |
| LockTheorems.NoRefreshAfterRevoke | src/SyncClient.cpp:1152-1173 | after `lock` has returned, in every run, once the revoke is on its way the refresh thread is gone and no refresh of the lease is ever started again |
| LockTheorems.UnlockGoesThrough | src/SyncClient.cpp:1139-1178 | a schedule in which a lock is taken, returned, unlocked and revoked, so that this is not empty |
| LockTheorems.CancelComesFirstExactly | src/SyncClient.cpp:1152-1173 | for any unlock of a held lock, cancelling is over before the revoke in every run if and only if no lock call still holds a reference |
| LockTheorems.EarlyUnlockIsRefreshed | src/SyncClient.cpp:1090-1117 | an unlock before `lock` has returned, after whose revoke a refresh starts |
| LockTheorems.GuardsAreFree | src/SyncClient.cpp:1084-1178 | in reachable states only the order of the code, its mutex and a running destructor can hold up a call of lock or unlock |
| LockProgress.EveryCallCanFinish | src/SyncClient.cpp:1084-1178 | in every reachable state each call of lock and unlock that is under way can come to its end, although unlock holds the mutex of the maps while it joins the refresh thread |
| Endpoints.FindFirstOf | src/SyncClient.cpp:78-79 | the position of the next separator |
| Endpoints.StringSplit | src/SyncClient.cpp:73-88 | the loop computes `Split` |
| Endpoints.StringJoin | src/SyncClient.cpp:90-100 | the loop computes `Join` |
| Endpoints.JoinOfSplit | src/SyncClient.cpp:73-100 | joining a split gives the string with each separator turned into the joiner and one trailing one lost |
| Endpoints.JoinOfSplitSame | src/SyncClient.cpp:73-100 | with one separator, the string without one trailing separator |
| Endpoints.SplitOfJoin | src/SyncClient.cpp:73-100 | splitting a join of separator-free pieces gives them back if and only if there are none or the last is not empty |

## Left out

- DNS and address resolution, TLS, credentials, channels, stubs, tokens, constructor overloads and the
  asynchronous wrappers: foreign calls and delegation.
- Member, head, lease-list, time-to-live, campaign, proclaim, leader, resign and observe calls: field
  copying around a single request.
- The etcd server beyond one reference store and an arbitrary stream of watch replies: consensus, lock
  queues, leases expiring, and its refusal of a transaction that puts one key twice.
- Directory.RangeAction: does not fill in an older revision, `keys_only` and `count_only`.
- SyncClient.SyncClient.Get: reads the current revision only, since the store keeps no history.
- SyncClient.SyncClient.Ls: the same, and without the `keys` calls, which ask for keys only.
- Durations, logging, the time-to-live and directory fields of `Value`, and a reply's cluster ids.
- Threads in `KeepAlive`, `Watcher` and `LockLifetimes` interleave at atomic steps of a state machine;
  races on plain fields such as `eptr_` and `wait_callback` are taken to be atomic.
- The handler of a keep-alive, which is called with the kept error.
- Watcher.WatcherObject.StepWait: does not return the cancelled flag, which `Wait` reads behind it.
- User callbacks that cancel their own watch or keep-alive, and a `KeepAlive` or `Watcher` that is
  destroyed while a member function runs in another thread.
- Liveness of the completion queue and of condition variables: only bounds on iterations and waits are
  proved.
- A refresh that comes back with a time-to-live of 0 is one of the bad outcomes of a refresh, as the
  code treats it.
- Strings longer than 2^31 bytes, whose index would wrap in `string_plus_one`.
- FetchAndAdd.FetchAndAddIsExact: `stoi` is modelled on what `to_string` prints (on the empty value of a
  lost call it throws, and the client gives up), and a client that holds the largest C `int` makes no
  attempt, since the sum would overflow.
- LockTheorems.NoRefreshAfterRevoke: lease ids and lock keys are never reused by the server, and lease
  0, which stands for a failed grant, is covered in module `Locks` alone.
- The builders of `Transaction` for a previous value and for a previous revision are one method each,
  with `Previous` as argument.
