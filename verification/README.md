# Juju controller: verified models of its concurrent and stateful parts

A Dafny model of the parts of the Juju controller where several goroutines, or a
long sequence of events, have to keep a promise together. Concurrent protocols are
labelled transition systems whose actions are single atomic operations of the
original; timeouts and failures of the outside world are actions that may happen at
any moment. What a state means is tied to the actions of the run that led to it, so
that a step cannot do something else unnoticed. Sequential code that changes state is
imperative, proved against functions on values, and the promises are proved about
those functions over whole histories.

| files | what they model |
|---|---|
| `Common.dfy` | two definitions shared by several models |
| `ReplyWriter.dfy`, `ReplyShutdown.dfy`, `ReplyTrace.dfy`, `ReplyConn.dfy` | replies of an RPC server connection going through one writer goroutine while Close shuts it down |
| `Requests.dfy`, `RequestTrace.dfy`, `CloseProgress.dfy` | a whole server connection: reading requests, handlers, replies, Close |
| `ClientTable.dfy`, `ClientCalls.dfy`, `ClientGuarantees.dfy`, `ClientReuse.dfy`, `ClientWrap.dfy`, `ClientTrace.dfy`, `ClientConn.dfy` | client calls racing with responses, write failures, cancellation and the end of the input loop |
| `EditDistance.dfy` | spelling suggestions for cloud properties |
| `LifeMapper.dfy` | the life watcher's mapper |
| `LeaseGuard.dfy` | running a function under leadership |
| `ModelRemovals.dfy`, `RemovalHistory.dfy`, `ConnectionAdmission.dfy` | telling connections that their model was removed |
| `AddressProvider.dfy`, `AddressSources.dfy`, `Dialling.dfy` | resolving and dialling controller addresses |
| `RelationDeltas.dfy` | cross-model relation changes |
| `LogTransfer.dfy`, `LogResume.dfy` | checkpoints while logs of a migrated model are received, and resuming from them |

Where documentation and code differ the model follows the code. The comment on the
field `pendingWrites` speaks of queued replies only, while the code also counts senders
that are about to queue one. `next` of the address provider is documented to report
the end when no more addresses are available, while it also does so after a lookup
that succeeds without a usable address; `Dialling.CompleteIffNoneEmpty` says exactly
when that loses URLs. The comment on log checkpoints says that no logs are missed, while
a record older than a checkpoint taken before it can be; `LogResume.NoneMissedIff` says
exactly when nothing is missed.

## Model

| member | source | states |
|---|---|---|
| ReplyShutdown.PendingWritesExact | rpc/server.go:189-211 | in every reachable state the counter is the number of senders between add and undo plus the queued replies plus the one being written, and the queue is within its capacity |
| ReplyShutdown.WriterExitIsFinal | rpc/server.go:797-817 | once the writer has exited the queue is empty and stays empty in every continuation, even if handlers that outlived Close keep sending |
| ReplyShutdown.FinishedAtMostOnce | rpc/server.go:750-785 | a reply is finished at most once: written if its sender handed it over, refused if its sender gave it up, and that only after the input loop has died |
| ReplyShutdown.FinishedExactlyOnce | rpc/server.go:750-867 | when all senders have returned and the writer has exited, each reply handed in has exactly one finish and there is no other |
| ReplyShutdown.WakeupNeverLost | rpc/server.go:189-231 | whoever is blocked on notify with the counter at zero has a token waiting or a done about to offer one; Close and the draining writer never compete for tokens |
| ReplyShutdown.FlushSeesIdle | rpc/server.go:218-231 | a load of the counter during the flush ends it exactly when no sender is counted, nothing is queued and nothing is being written |
| ReplyTrace.FlushBeforeCodec | rpc/server.go:504-519 | in every run in which Close has got past its flush, the flush timed out or it loaded the counter in a state with no sender counted, nothing queued and nothing being written |
| ReplyTrace.CloseInOrder | rpc/server.go:462-540 | in every run Close is in each of its phases, and has set each of its flags, exactly when it has taken the steps that lead there; it has seen dead only if the input loop closed it and the writer done only if it has exited |
| ReplyTrace.RepliesInOrder | rpc/server.go:779-803 | in every run the replies queued are, in this order, those written, the one being written and those still queued; each is finished as written as often as it was written |
| ReplyShutdown.StepWork | rpc/server.go:797-817 | after writerStopped is set every draining step lowers a measure and no other step of anyone raises it |
| ReplyShutdown.DrainBounded | rpc/server.go:529-537 | every continuation after writerStopped is set takes at most as many draining steps as the measure says, whatever is interleaved |
| ReplyShutdown.DrainNeverStuck | rpc/server.go:803-814 | until the writer has exited a draining step is enabled |
| ReplyWriter.StepPreserves | rpc/server.go:462-817 | every atomic step of senders, writer, Close and input loop keeps exact counting, conservation of replies, the order of Close's flags, and wakeups |
| ReplyWriter.StepFrame | rpc/server.go:750-785 | no step takes a reply back, revives a sender that has returned or reopens dead |
| ReplyConn.Conn.constructor | rpc/server.go:352-366 | a started connection is in the protocol's initial state |
| ReplyConn.Conn.StepSender | rpc/server.go:750-785 | the in-place updates of sendResponse up to handing a reply over are the protocol's steps |
| ReplyConn.Conn.StepAbandoning | rpc/server.go:774-784 | the in-place updates of a sender that gives up are the protocol's steps |
| ReplyConn.Conn.Refuse | rpc/server.go:766-784 | finishing a refused reply is the protocol's step |
| ReplyConn.Conn.StepWriter | rpc/server.go:797-854 | the in-place updates of the writer loop and its drain are the protocol's steps |
| ReplyConn.Conn.StepCloser | rpc/server.go:462-540 | the in-place updates of Close are the protocol's steps |
| ReplyConn.Conn.CloseDead | rpc/server.go:581-602 | closing dead is the protocol's step |
| ReplyConn.Perform | rpc/server.go:462-867 | a connection object on which the goroutines take turns in any legal order ends in the state of that run; its counter is exact, its queue is empty once the writer has exited, and at rest each reply has been finished exactly once |
| CloseProgress.NextFlushStep | rpc/server.go:504-515 | while Close flushes, a step of Close, the writer or a counted sender is enabled; no timeout is needed |
| CloseProgress.NextInputStep | rpc/server.go:517-521 | while Close waits for dead, a step that brings the input loop closer to its end is enabled, even if the input goroutine is sending a reply into a full queue |
| CloseProgress.NextCloseStep | rpc/server.go:462-540 | in every state of the invariant in which Close has begun and not returned, an enabled step brings it nearer to its end without a timed-out write, a returning handler or a new request |
| CloseProgress.CloseCanFinish | rpc/server.go:462-540 | from every reachable state in which Close has begun there is a continuation of such steps in which Close returns, so it never deadlocks |
| Requests.StepPreserves | rpc/server.go:605-1050 | every step of input loop, handlers and reply protocol keeps one fate per request, replies linked to their requests and senders, and srvPending exact |
| Requests.OneFatePerRequest | rpc/server.go:643-706 | every request header read is being handled, tore the connection down, is running in its handler, or has exactly one reply; nothing is sent that answers no request; which of these is said by FateAsDeserved |
| RequestTrace.FateAsDeserved | rpc/server.go:643-706 | in every run: a request is given a handler exactly when its method was found, the recorder took it, its body was read and Close had not begun at the check; the connection is given up over it exactly when its connection ended, the recorder refused what cannot be answered, or the body for an unknown method could not be skipped; all others get an error reply; a handler's outcome is that of its method |
| RequestTrace.Decides | rpc/server.go:643-694 | the same for one step, over the three answers that decide it |
| RequestTrace.EndsOnFailedRead | rpc/server.go:605-630 | the input loop ends without a request to blame only if a header could not be read |
| Requests.HandlerRepliesOnce | rpc/server.go:929-1050 | a finished handler made the one reply to its request, with its id, and an error exactly when the method failed or panicked |
| Requests.RepliesCarryRequestId | rpc/server.go:722-745 | a reply carries the id of the request it answers; srvPending counts the unfinished handlers |
| Requests.EveryRequestAnsweredOnce | rpc/server.go:643-867 | when a connection has come to rest, each request that did not tear it down has one reply with its id, finished exactly once |
| Requests.AtMostOneLateHandler | rpc/server.go:696-703 | once Close has begun at most one more handler is started, the one whose request had already passed the check of closing |
| Requests.ConnectionRefinesReplyRun | rpc/server.go:605-706 | seen from the reply protocol a connection is one of its runs, so all guarantees above hold of it |
| ClientTable.Table.Register | rpc/client.go:83-102 | refuses without a change when not started, closing or shut down, else registers under the next 64-bit id |
| ClientTable.Table.Take | rpc/client.go:139-144 | takes a pending call out and returns it |
| ClientTable.Table.Cancel | rpc/client.go:132-137 | adds a tombstone and removes the pending call |
| ClientTable.Table.Forget | rpc/client.go:146-152 | drops the tombstone |
| ClientTable.Table.Push | rpc/client.go:196-207 | fills an empty Done channel, discards otherwise |
| ClientTable.Table.Receive | rpc/client.go:249-259 | takes the value out of a filled Done channel |
| ClientTable.Table.Shutdown | rpc/server.go:581-602 | completes every pending call in whatever order the map is visited, then nothing is pending and the connection is shut down |
| ClientCalls.StepPreserves | rpc/client.go:83-260 | every step of callers and input loop keeps ids, tables, removals and completions consistent, as long as the counter does not wrap |
| ClientCalls.ShutdownCompletes | rpc/server.go:594-599 | whatever order the pending calls are completed in, each gets its value and none is discarded |
| ClientGuarantees.RemovedExactlyOnce | rpc/client.go:100-144 | every issued id is pending or has left the table exactly once, by response, write failure, cancellation or shutdown |
| ClientGuarantees.OneValuePerCall | rpc/client.go:196-228 | a Done channel is sent at most one value, so the discarding branch is never taken |
| ClientReuse.NobodyStranded | rpc/server.go:581-602 | for any number of calls: if no call is registered under the id of one that has not returned, then once dead is closed nothing is pending, every waiting call has its value, and a new call is refused |
| ClientReuse.NoWrapNoReuse | rpc/client.go:100-102 | fewer than 2^64 registrations never reuse an id that way |
| ClientReuse.DisplacedNeverCompleted | rpc/client.go:100-102 | a registration that finds its id still pending takes the place of that call, which is then sent no value in any continuation |
| ClientReuse.ReusePreserves | rpc/client.go:83-260 | every step that reuses no busy id keeps each call that is owed a value pending, held by whoever will complete it, or completed |
| ClientConn.Client.StepSend | rpc/client.go:83-130 | send on the tables is the protocol's steps, critical section by critical section |
| ClientConn.Client.StepWait | rpc/client.go:247-259 | the select of Call and the cancellation are the protocol's steps |
| ClientConn.Client.StepResponse | rpc/client.go:139-194 | handleResponse on the tables is the protocol's steps, about which LoopGoesOn and ValuesExplained speak |
| ClientConn.Client.StepLife | rpc/server.go:581-602 | the end of the input loop on the tables is the protocol's step |
| ClientConn.Perform | rpc/client.go:83-260 | client objects on which the goroutines take turns in any legal order end in the state of that run; after the shutdown nobody waits without a value unless a busy id was reused, and no Done channel overflows unless the counter wraps |
| ClientGuarantees.ResponsesCorrelate | rpc/client.go:139-194 | pending ids and tombstones are issued and disjoint; a response completes only the call its id was issued to |
| ClientGuarantees.IdNeverReused | rpc/client.go:100-101 | an issued id keeps its owner in every continuation |
| ClientGuarantees.CancelledResponseSwallowed | rpc/client.go:132-170 | the first response to a cancelled call completes nobody, leaves its id in neither table and does not end the input loop, whatever is interleaved |
| ClientGuarantees.LateResponseSwallowed | rpc/client.go:132-170 | a call cancelled while no response to it is being handled leaves a tombstone that lasts until its response comes, and that response is swallowed |
| ClientTrace.LoopGoesOn | rpc/client.go:139-194 | in every run a handled response leads back to reading exactly when its body was read or a tombstone was found for it, and the loop ends only after a body or a header could not be read |
| ClientTrace.ResponseFinishes | rpc/client.go:139-194 | handling a response takes at most three steps of the input goroutine, each enabled whatever callers do |
| ClientTrace.ValuesExplained | rpc/client.go:83-260 | in every run each value sent has its cause in it: a response with that id, a failed write of a call with that id, the end of the input loop, or a refusal; and each caller stands where what happened to it has brought it |
| ClientTrace.AcceptsIff | rpc/client.go:85-102 | a new call is registered exactly when the connection was started, Close has not begun and the input loop has not ended, and is otherwise refused without a change of the tables |
| ClientTrace.ValuesConserved | rpc/client.go:196-207 | in every run, however often the counter wraps, the values sent are those in channels, those received and those discarded |
| ClientWrap.IdIsCallCount | rpc/client.go:100 | in every run the latest id is the number of registered calls modulo 2^64 |
| ClientWrap.IdReusedIff | rpc/client.go:100-102 | a later call gets the id of an earlier one exactly when the registrations between them are a multiple of 2^64, and the zero that means refused exactly when they complete one |
| ClientWrap.WrapStrandsCall | rpc/client.go:100-102 | a run with 2^64 + 1 calls after whose shutdown the first call waits without a value, so the bound of the guarantees is needed |
| EditDistance.Min | cloud/validations.go:262-273 | the least of three numbers |
| EditDistance.NextColumn | cloud/validations.go:244-257 | one in-place pass turns a column of the table into the next one |
| EditDistance.Distance | cloud/validations.go:229-260 | the one-column program computes the recursive edit distance |
| EditDistance.DistanceIsLeastScript | cloud/validations.go:224-260 | a number is the distance exactly when some script of insertions, deletions and substitutions has that length and none is shorter |
| EditDistance.NoScriptBeatsLev | cloud/validations.go:229-260 | no script is shorter than the distance |
| EditDistance.SomeScriptAttainsLev | cloud/validations.go:229-260 | some script is as short as the distance |
| EditDistance.LevZeroIffEqual | cloud/validations.go:229-260 | distance zero exactly on equal strings |
| EditDistance.LevSymmetric | cloud/validations.go:229-260 | symmetry |
| EditDistance.LevTriangle | cloud/validations.go:229-260 | the triangle inequality |
| EditDistance.LevBounds | cloud/validations.go:229-260 | the distance lies between the length difference and the longer length |
| EditDistance.Suggest | cloud/validations.go:190-202 | the suggestion is the first of the nearest valid keys when one is closer than five edits, else empty |
| EditDistance.SuggestAll | cloud/validations.go:185-205 | one such suggestion for every invalid property |
| EditDistance.EquallyNear | cloud/validations.go:194-202 | whatever order the valid keys come in, the suggestion is equally near |
| EditDistance.SuggestionStableIff | cloud/validations.go:187-202 | the suggestion is the same for every order of the valid keys exactly when none is close enough or the nearest one is unique |
| LifeMapper.Mapper.Map | domain/lifewatcher.go:30-108 | a failed lookup changes nothing; otherwise the resolved lives are remembered, none dead, and exactly the changes of ids whose life changed are reported in order, for every order of map visits |
| LifeMapper.Mapper.Collect | domain/lifewatcher.go:36-45 | of several changes of an id the one received last |
| LifeMapper.ResolvedAsReceived | domain/lifewatcher.go:36-72 | an id is dead without a lookup exactly when its last change is a deletion, and is looked up exactly when not; what the lookup says wins |
| LifeMapper.NothingElseResolved | domain/lifewatcher.go:64-72 | an id that was not received is not looked up, and is resolved only if the answer holds it |
| LifeMapper.Mapper.MarkDeleted | domain/lifewatcher.go:47-55 | ids whose last change is a deletion are dead, the others are looked up |
| LifeMapper.Mapper.AddCurrent | domain/lifewatcher.go:64-72 | looked-up lives win, ids asked for in vain are found |
| LifeMapper.Mapper.TakeOver | domain/lifewatcher.go:81-95 | every resolved life is remembered and events without a change are dropped |
| LifeMapper.Mapper.TakeOne | domain/lifewatcher.go:82-94 | one life is remembered, absent meaning dead, and is reported as changed exactly when it differs from the one remembered before |
| LifeMapper.Mapper.Filter | domain/lifewatcher.go:97-107 | the received ids whose life changed, in order and as often as received |
| LifeMapper.MapAll | domain/lifewatcher.go:27-108 | a mapper fed with any batches goes through the states and reports of the specification |
| LifeMapper.RememberedIsLastResolved | domain/lifewatcher.go:81-95 | after any batches the remembered life of every id is the one the last batch to resolve it found, absent meaning dead |
| LifeMapper.RememberedUnique | domain/lifewatcher.go:81-95 | what is remembered does not depend on the order of map visits |
| LifeMapper.ReportedIffChanged | domain/lifewatcher.go:81-107 | an id is reported exactly when it was received and its resolved life differs from the one last resolved before |
| LifeMapper.ReportedMultiplicity | domain/lifewatcher.go:97-106 | a reported id is reported as often as it was received |
| LifeMapper.ReportedInOrder | domain/lifewatcher.go:97-106 | reports keep the order in which the changes were received |
| LeaseGuard.StepPreserves | domain/leaseservice.go:73-164 | every step of caller, waiter and lease manager keeps the invariant that ties the running function to the registered wait |
| LeaseGuard.LeaderWhileRunning | domain/leaseservice.go:73-164 | while the function runs the unit holds the lease, going by the claims and expiries so far, or the loss is on its way to the waiter, or the function's context has ended |
| LeaseGuard.LossCancelsFunction | domain/leaseservice.go:109-128 | once the lease is lost the waiter has an enabled step, and at most two such steps end the function's context |
| LeaseGuard.WaitErrorNeverBare | domain/leaseservice.go:135-146 | the branch that returns the wait's own error is never taken |
| LeaseGuard.WaiterAlwaysExits | domain/leaseservice.go:106-128 | after WithLeader has returned the waiter is gone or has an enabled step closer to its end |
| LeaseGuard.RankNeverRises | domain/leaseservice.go:110-128 | no step takes the waiter back |
| LeaseGuard.OutcomeExplained | domain/leaseservice.go:73-164 | in every run the call ended not started, before the start, without leadership or with the function's own result exactly when the entry checks failed, the wait ended first, the token check failed, or the function returned that; the waiter and the two contexts are where what happened has brought them |
| ModelRemovals.Removals.Open | apiserver/modelremoval.go:59-63 | a new generation with an open channel and no connections |
| ModelRemovals.Removals.Track | apiserver/modelremoval.go:55-67 | joins the model's current generation or starts one |
| ModelRemovals.Removals.Untrack | apiserver/modelremoval.go:71-85 | leaves the current generation, forgets the model with the last one, ignores stale handles |
| ModelRemovals.Removals.Notify | apiserver/modelremoval.go:94-104 | closes the current generation's open channel and forgets the model |
| RemovalHistory.CurrentGenerationsCounted | apiserver/modelremoval.go:32-104 | after any history each model served has an open channel and a positive count equal to its live handles |
| RemovalHistory.ClosedIffNotifiedSince | apiserver/modelremoval.go:48-104 | a live handle's channel is closed exactly when its model was notified after it was tracked |
| RemovalHistory.StaleUntrackHarmless | apiserver/modelremoval.go:71-85 | a channel about to be closed is open, and untracking after the removal leaves the registry alone |
| RemovalHistory.Perform | apiserver/modelremoval.go:55-104 | one operation on the registry object keeps the objects held by connections standing for the handles of the history |
| RemovalHistory.PerformAll | apiserver/modelremoval.go:42-104 | after any history on a registry object, the channel object of a live handle is closed exactly when its model was notified since, and a served model's object is open and counts its live handles |
| ConnectionAdmission.RemovalReachesConnection | apiserver/apiserver.go:1390-1441 | for any run with a removal of a model in it: once that removal has been delivered, every connection opened for the model and found connectable before is gone, closing, or can close as soon as it is served |
| ConnectionAdmission.RedirectNeverClosedByRemoval | apiserver/apiserver.go:1421-1438 | after a connection was admitted for a redirect or an error, no continuation closes it for a removal |
| ConnectionAdmission.AdmissionDecides | apiserver/apiserver.go:1400-1441 | in every run a connection watches its model exactly if it was found connectable and not admitted otherwise, and is closing or gone exactly if it saw the removal or its end |
| ConnectionAdmission.ClosedOnlyByRemoval | apiserver/apiserver.go:1429-1438 | a connection is closed for a removal only if a removal of its model was delivered after it was opened |
| ConnectionAdmission.RemovalDisconnects | apiserver/apiserver.go:1524-1541 | after the removal of a model no connection of it is found connectable until the model appears again |
| ConnectionAdmission.AppearedConnectable | apiserver/apiserver.go:1524-1541 | a connection of a model that has appeared and was not removed since can be found connectable |
| ConnectionAdmission.NoneLeftBehind | apiserver/apiserver.go:1393-1394 | every connection gives back what it tracked: once all have gone no model is served in the registry |
| ConnectionAdmission.StepPreserves | apiserver/apiserver.go:759-767 | deliveries, admissions and closings in any order keep every open connection on a live handle of its own |
| AddressProvider.LookupIPAddr | api/apiclient.go:1260-1276 | the addresses of a lookup without a zone, in order |
| AddressProvider.Resolver.Append | api/apiclient.go:897-903 | offers one address per IP, in order |
| AddressProvider.Resolver.ResolveOne | api/apiclient.go:876-904 | resolves the first URL by cache, as a numeric host or by lookup, whatever the cache keeps of the entries it is given |
| AddressProvider.Resolver.Next | api/apiclient.go:864-915 | the next address, an error, or the end, and the new state |
| AddressProvider.RefilledInOrder | api/apiclient.go:865-904 | each call resolves at most the next URL of a fixed order in which all URLs are resolved without the cache |
| AddressSources.UnzonedInOrder | api/apiclient.go:1265-1274 | the usable addresses of a lookup keep their order |
| AddressSources.OffersIps | api/apiclient.go:876-903 | a resolution offers every IP of the cache, the numeric host or the lookup for its URL, in order and with the URL's port |
| AddressSources.SourcesStep | api/apiclient.go:864-915 | with a cache that keeps or drops what it is given, every address offered is the numeric host of a given URL, or an IP cached for it from the start or found by a lookup of its host, with its port |
| AddressSources.FreshStep | api/apiclient.go:866-895 | a cache that keeps what it is given holds the latest answer for every host, the second pass included |
| Dialling.NextDecreases | api/apiclient.go:864-915 | every call that does not report the end lowers the resolutions left or the addresses waiting |
| Dialling.EofExactly | api/apiclient.go:907-910 | a call reports the end exactly when nothing is left to resolve or its lookup came back empty |
| Dialling.EmptyLookupEndsEarly | api/apiclient.go:889-910 | a lookup with zoned addresses only makes the provider report the end with a URL still in its pool |
| Dialling.CompleteIffNoneEmpty | api/apiclient.go:864-915 | at the end every URL has been resolved without the cache exactly when no lookup but the last in order comes back empty |
| Dialling.HitsStep | api/apiclient.go:866-884 | each URL is answered by the cache at most once, and never after the second pass has begun |
| Dialling.OrderPermutes | api/apiclient.go:866-904 | the order of uncached resolutions is a permutation of the URLs given |
| Dialling.DialNext | api/apiclient.go:1220-1233 | one round dials an address unless it was dialled before, and brings the end closer |
| Dialling.DialAll | api/apiclient.go:1217-1252 | the dial loop ends; what is dialled is the addresses offered, each once and in the order offered, all of them unless stopped; each comes from its URL, and a keeping cache ends up with the latest answers |
| RelationDeltas.Watcher.MapDifference | apiserver/watcher.go:356-365 | the entries that are new or different, for every order of map visits |
| RelationDeltas.Watcher.DataChanges | apiserver/watcher.go:335-354 | the changes of units, application settings and departures against the kept snapshot |
| RelationDeltas.Watcher.Convert | apiserver/watcher.go:313-354 | sends the changes and keeps the snapshot exactly when something changed |
| RelationDeltas.ReceiverCoversLatest | apiserver/watcher.go:313-365 | for any snapshots, laying all changes over the initial data agrees with the latest snapshot on its keys and covers its departed units |
| RelationDeltas.ChangesLeast | apiserver/watcher.go:335-365 | nothing superfluous is sent: whatever laid over the kept snapshot reaches the new one contains the changes |
| RelationDeltas.KeptIsLastSent | apiserver/watcher.go:313-321 | the kept snapshot is the last one sent, or the initial data, and the snapshots since had nothing new against it |
| RelationDeltas.SeenFromSnapshots | apiserver/watcher.go:333-354 | nothing a receiver has for a unit was invented |
| RelationDeltas.Watch | apiserver/watcher.go:313-331 | a watcher fed with snapshots sends exactly those changes |
| LogTransfer.Session.TrackLogTransferTime | apiserver/logtransfer.go:188-197 | a checkpoint is persisted exactly when due and the database accepts it; checkpoints stay a period apart |
| LogTransfer.Session.WriteLog | apiserver/logtransfer.go:167-182 | a record is written before it is tracked, and a successful one leaves an unsaved window shorter than a period |
| LogTransfer.Session.Receive | apiserver/logsink/logsink.go:242-259 | records are taken in order until one fails |
| LogTransfer.SavedFromRecords | apiserver/logtransfer.go:188-197 | every checkpoint is the time of a received record |
| LogTransfer.SaturationHarmless | apiserver/logtransfer.go:189 | the saturating time difference never decides wrongly whether a period has passed |
| LogTransfer.CheckpointsBounded | apiserver/logtransfer.go:188-197 | records spanning a duration cause at most one checkpoint per period of it and one more |
| LogTransfer.NothingLostBeforeCheckpoint | apiserver/logtransfer.go:184-187 | of a time-ordered stream every record strictly before a checkpoint has been written |
| LogTransfer.Transfer | apiserver/logtransfer.go:167-197 | both of the above for a whole session, whatever fails |
| LogResume.ResumeMissesNothing | apiserver/logtransfer.go:184-197 | over any sequence of interrupted sessions, each resuming from the persisted checkpoint: if no record is late, every record before that checkpoint has been written by some session, and every record at all once a session has gone through |
| LogResume.NoneMissedIff | apiserver/logtransfer.go:184-197 | every interrupted transfer that goes through has written every record exactly when no record is older than a checkpoint that the records before it lead to |
| LogResume.LateIsMissed | apiserver/logtransfer.go:184-197 | a late record is missed by a transfer interrupted just before it |
| LogResume.OutOfOrderRecordMissed | apiserver/logtransfer.go:184-187 | a concrete stream of two records, out of order by five minutes, of which the second is missed |
| LogResume.OrderedNoneLate | apiserver/logtransfer.go:184-187 | in a time-ordered stream no record is late |
| LogResume.SameCheckpoints | apiserver/logtransfer.go:188-197 | a session that starts afresh from a checkpoint takes the checkpoints that the uninterrupted transfer takes from there on |
| LogResume.AdvancedFrom | domain/modelmigration/state/model/state.go:398-412 | the persisted checkpoint never goes back and is one of those written |
| LogResume.NotBeforeMembers | internal/logtailer/tailer.go:285-292 | a resumed stream holds exactly the records at or after the start time |
| LogResume.TransferAll | internal/worker/migrationmaster/worker.go:707-775 | attempts made until one goes through are such a sequence of sessions, and so miss nothing if no record is late |

## Left out

- Codec, websocket, TLS, proxy and certificate handling: foreign input and output, present only as steps that succeed or fail.
- Reflection, tracing, recorders and metrics of the RPC layer: only whether a step happens, fails or panics is kept. A second panic, in the recorder while the error reply of a panicked handler is built, would end the process and is not modelled.
- The wait for outstanding handlers in Close: it may end at any moment, which covers both its success and its timeout.
- A codec write that never returns: the step that finishes a write is always enabled, so progress of the drain assumes that closing the codec unblocks writes.
- Requests and LeaseGuard: modelled on values as transition systems, because the steps of several goroutines interleave inside one function of the original; update in place is shown for the reply side of a connection in ReplyConn and for the client side in ClientTable and ClientConn.
- ClientGuarantees.RemovedExactlyOnce: as the other guarantees of that module it is about runs that register fewer than 2^64 calls; ClientWrap says exactly when ids repeat and gives a run beyond that limit in which a call is stranded. NobodyStranded in ClientReuse needs no such bound.
- Error values of client calls: a failed body read on a success response completes the call without an error in the original, and nothing is claimed about it. Tombstones left by a cancellation that comes after the response are never removed, and nothing is claimed about them either.
- EditDistance.Distance: strings are sequences of characters; decoding bytes to runes and extracting the property name from a schema error are library code.
- Close waiting for handlers counts as one step in CloseProgress, which does not tell its success from its timeout; that reads fail once the codec is closed, and writes return, is the codec's contract.
- LogResume.TransferAll: an attempt counts as gone through when the target has taken the whole stream; what the source controller learns about records still in flight is not modelled, and equal records are not told apart.
- The lease manager: known only by the contract stated in LeaseGuard, which follows the comments of its interface; its worker is not part of this model.
- Changes of the DNS cache by other users of it while one provider is at work.
- RelationDeltas.Watcher.Convert: departed units are a set; their sorted order in the message is not modelled. Later steps of the watcher's Next are service calls and are left out.
- Login, authorisation and facade restrictions, agent and controller configuration, address list rotation: one-branch decisions and field-by-field copying.
