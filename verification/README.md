# NFSKit: a model of the asynchronous core

NFSKit puts an asynchronous Swift interface in front of libnfs. Its core is an event loop that owns
the libnfs context and touches all of its state on one serial queue, so what it does over time is a
sequence of atomic steps. This project states what those steps do and proves what holds after every
sequence of them, whatever libnfs answers, in whatever order, and however late.

| file | what it holds |
|---|---|
| `Common.dfy` | options, results, error codes, the two operation categories |
| `PipelineController.dfy`, `AimdTheorems.dfy` | the adaptive depth controller, and how fast it grows, shrinks and converges |
| `EventLoopModel.dfy` | the event loop as a state machine: data, elementary effects, steps, runs |
| `EventLoopInvariants.dfy`, `EventLoopParts.dfy`, `EventLoopSafety.dfy`, `EventLoopRuns.dfy` | the invariant, and that every step keeps it |
| `EventLoopTheorems.dfy` | what the invariant means for callers, retained pointers, buffers and handles; shutting down twice; timeouts |
| `EventLoopAccounting.dfy` | the in-flight counts: bounds, which steps keep them exact, when they go stale |
| `EventLoopRequests.dfy` | what each request answers, and what it does to queue, slots, buffers and handles |
| `EventLoopOutcomes.dfy`, `EventLoopServing.dfy`, `EventLoopCallers.dfy` | with what every caller is resumed: one answer, issuing and servicing, and whole events, shutdowns and scans on every run |
| `EventLoopQuery.dfy` | what keeps the export query open and what ends it; what the guarded shutdown leaves |
| `EventLoopProgress.dfy` | no operation is stranded in the queue |
| `EventLoopBorrowing.dfy` | what libnfs still holds after a caller has been resumed |
| `EventLoopWitnesses.dfy` | runs on which the stronger claims fail, each beginning with an answered mount |
| `PipelineFifo.dfy` | the mixed queue as two FIFO queues, submission order, overtaking |
| `NFSEventLoop.dfy` | the event loop as an object whose methods update its fields, proved against the state machine |
| `WriteSources.dfy` | suspension counts of the dispatch write sources, and which runs end with all of them cancelled |
| `Slices.dfy`, `ReadBuffer.dfy`, `OperationBatch.dfy` | slices of one shared buffer, its ownership, and batches of chunks |
| `Transfer.dfy` | the parallel read, the sequential read, the chunked write |
| `Paths.dfy` | paths as strings: joining a name, and what the result leads to |
| `RecursiveRemoval.dfy`, `EmptyNames.dfy`, `SymbolicLinks.dfy` | removing a directory tree, when the recursion ends, and when it leaves the tree |

## How the event loop is modelled

`EventLoopModel.State` holds the loop's fields and, beside them, what its surroundings see: the calls
libnfs has accepted and not answered, every resumption of every continuation, the unbalanced retains,
the fate of each buffer the loop allocates, and the calls made on the libnfs context. libnfs is the
environment. A call is either rejected with a negative rc and never answered, or accepted and answered
at most once, while a context is serviced or destroyed; whether a call is accepted, which calls are
answered when, and with which status are parameters of the steps. An answer libnfs could not give (to a
call that is not outstanding, or on the wrong context) changes nothing. The order in which a Swift
dictionary yields its entries is arbitrary; for timeouts it is proved to make no difference.

`NFSEventLoop.NFSEventLoop` is the object the program has. Each of its methods is proved to turn the old
abstract value into what the corresponding function of the state machine returns, so the theorems about
runs of the state machine are theorems about sequences of calls.

## Where the obvious claim fails

* Submission order. With timeouts a category can have operations waiting and a free slot at once, and a new
  submission then overtakes (`EventLoopWitnesses.TimeoutsAllowOvertaking` is such a run). It happens exactly when
  the submission finds its category in that condition (`PipelineFifo.OvertakesIff`), and never on runs without
  timeouts (`PipelineFifo.NoOvertaking`).
* In-flight counts. A timeout gives up a slot whose call is still with libnfs, and mounting and the export query give
  up a slot they never took. While the connection lives the count is a lower bound for the accepted calls
  (`EventLoopAccounting.SlotBounds`). An exact count stays exact through requests and issuing
  (`EventLoopAccounting.RequestsKeepCount`, `EventLoopAccounting.IssuingKeepsGap`); through an answer iff its call took a
  slot, is of the other category, or the count is zero (`EventLoopAccounting.AnswerKeepsCountIff`); and through a timeout
  scan iff none of the category has expired or the count is zero (`EventLoopAccounting.TimeoutsKeepCountIff`).
  `EventLoopWitnesses.TimeoutUndercounts` and `EventLoopWitnesses.QueryUndercounts` are runs that miss a call. On every
  run that meets these conditions throughout, which an answered mount does, the count is exact
  (`EventLoopAccounting.CountStaysExact`).
* Stale counts. A failed service call leaves a count behind iff the destruction of the context answers fewer calls of
  the category than were counted, and the shutdown that follows does not reset it
  (`EventLoopAccounting.CountGoesStaleIff`; a run: `EventLoopWitnesses.CountGoesStale`).
* Export queries. The shutdown after a failed service call leaves an open query's context and write source alone, and
  the next shutdown returns at its guard (`EventLoopTheorems.QueryOutlivesConnection`). Every write source ends up
  cancelled iff the connection ended with a shutdown, or no query had a live source then, or an event of the query's own
  ended it later (`WriteSources.AllCancelledIff`; a run: `WriteSources.ShutdownLeavesQuerySource`).
* Lent buffers. The comments say that a caller's buffer stays valid until its read is answered. A timeout resumes the
  caller and leaves the read with libnfs. On every run, libnfs holds memory of a caller that has been resumed iff the
  call has timed out, which needs timeouts to be enabled and cannot be after a shutdown
  (`EventLoopBorrowing.HeldAfterResumptionIff`; a run: `EventLoopWitnesses.ReadOutlivesCaller`). The parallel read then
  fails and frees its buffer; libnfs stores into freed memory iff such a read is answered with bytes when all reads of
  the group have ended (`Transfer.ReadPreallocated`, `Transfer.AnswerAfterTheEnd`). In the same way a file can be closed
  under a call whose caller no longer waits iff the call has timed out (`EventLoopBorrowing.ClosedUnderCallIff`).
* Write buffers. The specification of the security hardening says that a successful write frees its copy of
  the data; the code frees it only on failure. The model follows the code: `EventLoopTheorems.WriteBufferFreedIff`, and
  `EventLoopWitnesses.WriteLeavesBuffer` for a run.
* The parallel read returns as many bytes as the file has even after short reads. The result is the file iff no
  read was short (`Transfer.ParallelReadExact`). After the progress handler has refused, a second failing read hides the
  cancellation (`Transfer.SecondFailureIsThrown`).
* The chunked write ignores the byte counts it gets back. The file equals the data iff every write was full
  (`Transfer.WriteIsExact`).
* Assembly in one shared buffer agrees with concatenation iff every slice before a non-empty one is full
  (`Slices.AssemblyIsExact`). Assembling a batch more than once hands the same memory to several owners: it is freed
  once iff the batch is assembled at most once (`Batches.LifeOfBuffer`).
* `markCompleted` overwrites a cancelled batch: the first error is kept iff it is not called
  (`Batches.FirstErrorKeptIff`).
* Recursive removal skips names it does not trust, so it fails on a directory that has one, leaving it in
  place: `RecursiveRemoval.RemoveItem` says when. But for the empty one, the names it trusts are exactly those that,
  joined to a path, lead to the child of that name (`Paths.LegalIff`). It does not skip an empty name, which leads back
  to the directory itself (`Paths.EmptyNameLeadsBack`): the recursion ends iff its loops reach no empty name
  (`EmptyNames.RemovalEndsIff`). It follows a link to a directory and removes what is there, before it fails on the link itself: it removes something
  outside the tree iff the first item it fails on is such a link and something can be removed behind it
  (`SymbolicLinks.LeavesTreeIff`).

## Model

| member | source | states |
|---|---|---|
| Pipeline.PipelineController.constructor | Sources/NFSKit/PipelineController.swift:41-63 | a controller holds the given values, by default depth 2, threshold 16, slow start, bounds 1 and 32 |
| Pipeline.PipelineController.EffectiveDepth | Sources/NFSKit/PipelineController.swift:67-70 | the depth truncated and clamped, between the bounds whenever these are ordered |
| Pipeline.PipelineController.RecordSuccess | Sources/NFSKit/PipelineController.swift:75-86 | the whole new state after a success: doubling or additive increase, phase change, clamp at the maximum |
| Pipeline.PipelineController.RecordFailure | Sources/NFSKit/PipelineController.swift:89-93 | the whole new state after a failure: depth and threshold halved down to the minimum, steady phase |
| Pipeline.PipelineController.Reset | Sources/NFSKit/PipelineController.swift:96-100 | the depth, threshold and phase of a fresh controller, the bounds kept |
| AimdTheorems.ReplayStaysInRange | Sources/NFSKit/PipelineController.swift:68-93 | no sequence of outcomes takes the depth, or the integer depth, outside the bounds |
| AimdTheorems.SteadyIsForever | Sources/NFSKit/PipelineController.swift:75-93 | slow start is never re-entered |
| AimdTheorems.FreshControllerReachesSteady | Sources/NFSKit/PipelineController.swift:43-47 | a fresh controller is steady iff it has seen three outcomes or a failure |
| AimdTheorems.FreshController | Sources/NFSKit/PipelineController.swift:41-63 | a fresh or reset controller with the default bounds is depth 2, threshold 16, slow start, 1 to 32, and allows two operations |
| AimdTheorems.IntegerDepthIsFloor | Sources/NFSKit/PipelineController.swift:67-70 | between the bounds the number in force is the depth rounded down |
| AimdTheorems.SlowStartDoubles | Sources/NFSKit/PipelineController.swift:75-81 | while depth * 2^k is below the threshold, k successes give exactly that depth and change nothing else |
| AimdTheorems.SlowStartEnds | Sources/NFSKit/PipelineController.swift:75-86 | the success that reaches the threshold still doubles the depth, up to the cap, and makes the phase steady |
| AimdTheorems.SteadySuccessAddsReciprocal | Sources/NFSKit/PipelineController.swift:82-85 | a steady success adds exactly 1 / depth unless that would pass the cap, and changes nothing else |
| AimdTheorems.FailureHalves | Sources/NFSKit/PipelineController.swift:89-93 | a failure halves the depth or stops at the minimum, remembers that depth as the threshold, and makes the phase steady |
| AimdTheorems.IncreaseAdvances | Sources/NFSKit/PipelineController.swift:82-85 | one steady success moves the square of the depth by between 2 and 3, up to the cap |
| AimdTheorems.GrowthBound | Sources/NFSKit/PipelineController.swift:75-86 | k steady successes move the square of the depth by between 2k and 3k, up to the cap |
| AimdTheorems.CapReachedInTime | Sources/NFSKit/PipelineController.swift:75-86 | the maximum is reached once 2k covers the difference of the squares, and not while 3k falls short of it |
| AimdTheorems.BackoffIsExact | Sources/NFSKit/PipelineController.swift:89-93 | k failures in a row give exactly max(minDepth, depth / 2^k) |
| AimdTheorems.IncreaseContracts | Sources/NFSKit/PipelineController.swift:82-85 | the additive increase keeps the order of two depths and does not widen their gap |
| AimdTheorems.ReplayContracts | Sources/NFSKit/PipelineController.swift:75-93 | two steady controllers fed the same outcomes keep their order, and their gap never grows |
| EventLoop.NFSEventLoop.IssuePendingOperations | Sources/NFSKit/NFSEventLoop.swift:503-528 | the in-place scan by index does what the recursive scan of the state machine does, and ends |
| EventLoop.NFSEventLoop.SubmitOperation | Sources/NFSKit/NFSEventLoop.swift:551-623 | a submission is refused, issued at once, rejected for want of queue space, or appended |
| EventLoop.NFSEventLoop.IssueDirectly | Sources/NFSKit/NFSEventLoop.swift:1141-1152 | a call past the gate is accepted and counted, or its buffer is freed and its caller resumed directly |
| EventLoop.NFSEventLoop.HandleOperation | Sources/NFSKit/NFSEventLoop.swift:1032-1674 | an operation on a handle ID: EBADF, ENOTCONN, or a direct call; a close takes the ID out of the registry first |
| EventLoop.NFSEventLoop.GetExports | Sources/NFSKit/NFSEventLoop.swift:857-941 | the export query: ENOTCONN, EBUSY, ENOMEM, or a direct call on a context of its own |
| EventLoop.NFSEventLoop.LibraryCallback | Sources/NFSKit/NFSEventLoop.swift:735-790 | one answer: the pointer is taken back, the buffer freed or handed over, the bookkeeping done, the caller resumed last |
| EventLoop.NFSEventLoop.ServiceContext | Sources/NFSKit/NFSEventLoop.swift:431-439 | servicing a context delivers any sequence of answers in order |
| EventLoop.NFSEventLoop.CleanUpRpcExports | Sources/NFSKit/NFSEventLoop.swift:376-384 | the query's context is dropped, destroyed with whatever answers that causes, and its flags cleared |
| EventLoop.NFSEventLoop.StopWithError | Sources/NFSKit/NFSEventLoop.swift:482-499 | registries emptied, context destroyed, then the snapshot resumed with the error |
| EventLoop.NFSEventLoop.Shutdown | Sources/NFSKit/NFSEventLoop.swift:190-238 | the guarded shutdown: query cleaned up, registries emptied, context destroyed, snapshot resumed, controllers and counts reset |
| EventLoop.NFSEventLoop.ResumeSnapshot | Sources/NFSKit/NFSEventLoop.swift:228-233 | every continuation of the snapshot is resumed through its flag, in any order, with the same result |
| EventLoop.NFSEventLoop.CollectExpired | Sources/NFSKit/NFSEventLoop.swift:409-415 | exactly the continuations started before the deadline, each once |
| EventLoop.NFSEventLoop.ScanTimeouts | Sources/NFSKit/NFSEventLoop.swift:407-427 | the expired continuations are timed out one by one; an export query that is no longer registered is cleaned up |
| EventLoop.NFSEventLoop.HandleIOEvent | Sources/NFSKit/NFSEventLoop.swift:431-464 | answers, then either the shutdown with an error or another scan of the queue |
| EventLoop.NFSEventLoop.HandleRpcExportsEvent | Sources/NFSKit/NFSEventLoop.swift:330-346 | answers, then the query is cleaned up when it is done or its context failed |
| EventLoop.NFSEventLoop.CloseAndForget | Sources/NFSKit/NFSEventLoop.swift:1682-1688 | the ID leaves the registry; if there is still a context its file is closed, and any answers to other calls that arrive while the close waits are delivered |
| EventLoop.NFSEventLoop.Perform | Sources/NFSKit/NFSEventLoop.swift:182-624 | each call on the object is the step of the state machine it stands for; a timeout scan is one with its own order of the expired entries |
| EventLoop.RunLoop | Sources/NFSKit/NFSEventLoop.swift:182-624 | any sequence of calls on a new object is a run of the state machine, and its fields show every continuation resumed exactly once or still registered |
| EventLoopRuns.RunInv | Sources/NFSKit/NFSEventLoop.swift:107-136 | the invariant (registration, exactly-once, retains, buffers, handles, slots) holds after every run of a fresh loop |
| EventLoopRuns.StepInv | Sources/NFSKit/NFSEventLoop.swift:182-624 | every step keeps the invariant |
| EventLoopSafety.IssueFromInv | Sources/NFSKit/NFSEventLoop.swift:503-528 | the scan keeps the invariant from any index on, with any continuation still unresumed |
| EventLoopSafety.CallbackInv | Sources/NFSKit/NFSEventLoop.swift:735-755 | an answer keeps the invariant, also when its caller was resumed before or is part of a shutdown's snapshot |
| EventLoopTheorems.ExactlyOnce | Sources/NFSKit/NFSEventLoop.swift:97-102 | after every run each continuation ever issued has been resumed exactly once, or is registered and has not been resumed |
| EventLoopTheorems.NobodyWaitsAfterShutdown | Sources/NFSKit/NFSEventLoop.swift:190-238 | after either shutdown nobody is registered and everybody has been resumed exactly once |
| EventLoopTheorems.NobodyWaitsEverAfter | Sources/NFSKit/NFSEventLoop.swift:482-499 | after either shutdown no later sequence of requests and answers leaves anybody waiting |
| EventLoopTheorems.SomebodyWillAnswer | Sources/NFSKit/NFSEventLoop.swift:607-619 | a registered continuation is queued or with libnfs, unless it is an export query whose context is gone |
| EventLoopProgress.NobodyStranded | Sources/NFSKit/NFSEventLoop.swift:503-528 | on every run, timeouts included: while operations of a category wait, a call of that category that took a slot is with libnfs, whose answer rescans the queue |
| EventLoopProgress.AnswerFeeds | Sources/NFSKit/NFSEventLoop.swift:539-543 | an answer restores this, whatever was the case before |
| EventLoopTheorems.FirstOutcomeIsFinal | Sources/NFSKit/NFSEventLoop.swift:97-102 | a continuation keeps the first outcome it got through timeouts, late answers and shutdowns |
| EventLoopRequests.SubmitAnswers | Sources/NFSKit/NFSEventLoop.swift:551-623 | without a context ENOTCONN; with a free slot libnfs is called and a rejection is told as the code -rc; without one the operation is queued, or ENOBUFS if 4096 wait; nobody else is resumed |
| EventLoopRequests.HandleAnswers | Sources/NFSKit/NFSEventLoop.swift:1032-1674 | EBADF, ENOTCONN, the code -rc or nothing yet; reads and writes count as bulk, the rest as metadata; a rejected call's buffer is freed; the registered file is used, and a close leaves the registry |
| EventLoopRequests.MountAnswers | Sources/NFSKit/NFSEventLoop.swift:794-849 | ENOTCONN, the code -rc or nothing yet, and no slot is taken |
| EventLoopRequests.GetExportsAnswers | Sources/NFSKit/NFSEventLoop.swift:857-941 | ENOTCONN, EBUSY, ENOMEM, EIO after which no context is left, or a query on its own context |
| EventLoopRequests.OpenRegisters | Sources/NFSKit/NFSEventLoop.swift:1015-1031 | an open registers its file under an ID no handle has ever had, and no other handle changes |
| EventLoopRequests.ForgetCloses | Sources/NFSKit/NFSEventLoop.swift:1682-1688 | the ID leaves the registry, and its file is closed iff there is a context |
| EventLoopOutcomes.AnswerMeans | Sources/NFSKit/NFSEventLoop.swift:735-790 | in every state, also amid a shutdown: an unresumed caller is resumed with the code -status of a failure (for a query, the code status unless it is 0), else with the status, or with the data handler's failure; a resumed one keeps its outcome |
| EventLoopOutcomes.AnswerRecords | Sources/NFSKit/NFSEventLoop.swift:735-790 | the category's controller records a success iff that outcome is a status; the other controller does not move |
| EventLoopOutcomes.AnswerEndsBuffer | Sources/NFSKit/NFSEventLoop.swift:1100-1222 | an answer ends its own buffer and no other: a read's is handed over iff bytes arrived and else freed, a write's is freed iff it failed |
| EventLoopServing.IssuingServes | Sources/NFSKit/NFSEventLoop.swift:503-528 | issuing resumes exactly the callers of the queued operations that libnfs rejects, with the code it gives, and leaves everybody else alone |
| EventLoopServing.AnswersSettle | Sources/NFSKit/NFSEventLoop.swift:431-439 | of all replies a context delivers, the first to a call decides with what its caller is resumed; without one nothing happens to the call |
| EventLoopServing.CleanupServes | Sources/NFSKit/NFSEventLoop.swift:376-384 | destroying the query's context resumes the query's caller iff libnfs answers it then, and does to everybody else what issuing does |
| EventLoopCallers.EventResumes | Sources/NFSKit/NFSEventLoop.swift:431-464 | on every run: the caller of an outstanding call is resumed with what the first reply means; without a reply it is told ENOTCONN if the event failed, and goes on waiting otherwise |
| EventLoopCallers.QueryResumes | Sources/NFSKit/NFSEventLoop.swift:330-346 | the same for the query's caller, who is told nothing if no reply comes |
| EventLoopCallers.ForgetResumes | Sources/NFSKit/NFSEventLoop.swift:1682-1688 | the same for the callers of other calls while a forgotten handle's close waits |
| EventLoopCallers.ErrorResumes | Sources/NFSKit/NFSEventLoop.swift:482-499 | an error shutdown tells every registered caller what the first answer to its call means, else the error, and nobody else anything |
| EventLoopCallers.ShutdownResumes | Sources/NFSKit/NFSEventLoop.swift:190-238 | on every run: what the guarded shutdown tells each registered caller: the meaning of an answer on its own context, the code of a rejection if the query's answer let its operation be issued, or ENOTCONN |
| EventLoopCallers.ScanTimesOut | Sources/NFSKit/NFSEventLoop.swift:407-427 | on every run: a scan adds ETIMEDOUT to a caller's outcomes iff it is registered, timeouts are enabled, and startTime + timeout < now; every other registered caller stays registered, unless it is queued and rejected when the scan ends the query |
| EventLoopCallers.ScanEndsQueryIff | Sources/NFSKit/NFSEventLoop.swift:422-427 | a scan ends the query iff its caller is no longer registered or has waited longer than the timeout |
| EventLoopCallers.ReturnedOnlyIfAnswered | Sources/NFSKit/NFSEventLoop.swift:735-790 | on every run a caller is resumed with a status only if libnfs has answered its own call with that status, no error for its kind, and the data was handled |
| EventLoopQuery.QueryHeldIff | Sources/NFSKit/NFSEventLoop.swift:857-941 | after every run the loop holds a query's context iff libnfs owes that query its answer, and its flag is clear |
| EventLoopQuery.QueryEndsIff | Sources/NFSKit/NFSEventLoop.swift:330-346 | an event of the query ends it iff it brings the answer, whatever the service call returns, or the service call fails |
| EventLoopQuery.NextQueryIsMade | Sources/NFSKit/NFSEventLoop.swift:857-941 | once no query is open, the next one is made and not refused |
| EventLoopQuery.ShutdownClearsAll | Sources/NFSKit/NFSEventLoop.swift:190-238 | on every run the guarded shutdown leaves no caller, queue, handle, query, outstanding call or count, and both controllers fresh |
| EventLoopQuery.FailedEventKeepsHandles | Sources/NFSKit/NFSEventLoop.swift:482-499 | the shutdown after a failed event keeps every handle registered |
| EventLoopTheorems.RetainBalance | Sources/NFSKit/NFSEventLoop.swift:607-619 | one unbalanced retain per pending, outstanding or dropped CallbackData, and none otherwise |
| EventLoopTheorems.NoLeakBeforeShutdown | Sources/NFSKit/NFSEventLoop.swift:710-716 | while the connection lives, retains are exactly queue, outstanding calls, and export queries whose own context was destroyed unanswered |
| EventLoopTheorems.ReadBuffersOnce | Sources/NFSKit/NFSEventLoop.swift:1083-1156 | a read's buffer is untouched while the call is open and freed or handed to the caller exactly once at its end, handed over iff bytes arrived |
| EventLoopTheorems.WriteBufferFreedIff | Sources/NFSKit/NFSEventLoop.swift:1159-1227 | a write's buffer is freed once if the write failed or was rejected, and never otherwise |
| EventLoopTheorems.HandleSafety | Sources/NFSKit/NFSEventLoop.swift:1032-1079 | no call on a handle ID after its close, no second close, no call after the context is destroyed, every call passes the file registered under its ID, no ID issued twice |
| EventLoopTheorems.FilesClosedOnce | Sources/NFSKit/NFSEventLoop.swift:1022-1079 | if no open yields a file that is still registered, a call on a closed file, in particular a second close, comes through a handle opened after that close |
| EventLoopBorrowing.HeldAfterResumptionIff | Sources/NFSKit/NFSEventLoop.swift:416-421 | on every run, the caller of a queued or unanswered call (export queries apart) has not been resumed, or has timed out; never without timeouts, and nothing is held without a context |
| EventLoopBorrowing.AnswersLate | Sources/NFSKit/NFSEventLoop.swift:735-755 | no answer, and nothing issued because of it, resumes the caller of another open call |
| EventLoopBorrowing.ClosedUnderCallIff | Sources/NFSKit/NFSEventLoop.swift:1032-1079 | a handle on which no caller waits has an unanswered call iff a call on it has timed out |
| EventLoopTheorems.NoContextMeansDown | Sources/NFSKit/NFSEventLoop.swift:190-191 | without a context nobody is registered, so a further shutdown returns at its guard |
| EventLoopTheorems.ErrorShutdownKeepsQuery | Sources/NFSKit/NFSEventLoop.swift:482-499 | the shutdown after a failed service call keeps the export query, and the next shutdown changes nothing |
| EventLoopTheorems.QueryOutlivesConnection | Sources/NFSKit/NFSEventLoop.swift:482-499 | that query's context stays through every later sequence of requests, events of the mounted context and shutdowns |
| EventLoopAccounting.SlotBounds | Sources/NFSKit/NFSEventLoop.swift:503-543 | counts are never negative and, while the connection lives, at most the accepted metered calls, short of them by at most the uncharged completions, at most the maximum depth plus the calls past the gate; at most 4096 pending |
| EventLoopAccounting.CountIsExact | Sources/NFSKit/NFSEventLoop.swift:530-543 | on runs without timeouts, mounts and export queries the count equals the accepted calls not yet answered |
| EventLoopAccounting.CountStaysExact | Sources/NFSKit/NFSEventLoop.swift:416-543 | the same on every run, mounts, queries and timeouts included, on which answers to calls without a slot and timeouts find no slot of the category to give up |
| EventLoopWitnesses.MountIsFair | Sources/NFSKit/NFSEventLoop.swift:794-849 | an answered mount meets this condition |
| EventLoopAccounting.RequestsKeepCount | Sources/NFSKit/NFSEventLoop.swift:551-720 | no request, accepted, rejected, queued or refused, changes what the count misses |
| EventLoopAccounting.IssuingKeepsGap | Sources/NFSKit/NFSEventLoop.swift:503-528 | neither does issuing queued operations |
| EventLoopAccounting.AnswerMovesGap | Sources/NFSKit/NFSEventLoop.swift:530-543 | by how much an answer changes what the count misses, for every kind of call |
| EventLoopAccounting.AnswerKeepsCountIff | Sources/NFSKit/NFSEventLoop.swift:539-543 | an answer keeps an exact count exact iff its call took a slot, is of the other category, or the count is zero |
| EventLoopAccounting.TimeoutsKeepCountIff | Sources/NFSKit/NFSEventLoop.swift:416-421 | a timeout scan makes an exact count miss the expired calls of the category as far as it has slots; it stays exact iff there are none or the count is zero |
| EventLoopAccounting.NothingOwedWithoutContext | Sources/NFSKit/NFSEventLoop.swift:482-499 | once the context is gone libnfs owes no answer to any call that took a slot |
| EventLoopAccounting.ErrorLeavesCountIff | Sources/NFSKit/NFSEventLoop.swift:482-499 | the shutdown after a failed service call leaves a count iff the destruction answers fewer calls of the category than were counted |
| EventLoopAccounting.CountGoesStaleIff | Sources/NFSKit/NFSEventLoop.swift:431-439 | the same for a failed service call on every run; nothing is owed then, and the next shutdown does not reset the count |
| EventLoopWitnesses.CountGoesStale | Sources/NFSKit/NFSEventLoop.swift:482-499 | a run that leaves a count of one with nothing outstanding |
| EventLoopWitnesses.TimeoutUndercounts | Sources/NFSKit/NFSEventLoop.swift:416-421 | a run with timeouts after which one outstanding call is not counted |
| EventLoopWitnesses.QueryUndercounts | Sources/NFSKit/NFSEventLoop.swift:857-941 | the same with an export query |
| EventLoopWitnesses.WriteLeavesBuffer | Sources/NFSKit/NFSEventLoop.swift:1159-1227 | a run on which a write succeeds and its buffer is never freed |
| EventLoopWitnesses.ReadOutlivesCaller | Sources/NFSKit/NFSEventLoop.swift:1322-1393 | a run on which a read into a caller's buffer times out and can still be answered with bytes, and the file is closed under it |
| EventLoopTheorems.TimeoutAllIsTimedOut | Sources/NFSKit/NFSEventLoop.swift:416-421 | the whole state after timing out a set of continuations one by one: counts, controllers, outcomes |
| EventLoopTheorems.TimeoutOrderIrrelevant | Sources/NFSKit/NFSEventLoop.swift:411-421 | the order in which the dictionary yields the expired entries makes no difference |
| PipelineFifo.PrefixIsLongest | Sources/NFSKit/NFSEventLoop.swift:511-520 | the number of operations a FIFO queue hands over is the longest prefix whose members each find a free slot, rejected ones taking none |
| PipelineFifo.IssueFromDrains | Sources/NFSKit/NFSEventLoop.swift:506-527 | from any index on, the scan drains the rest of each category's queue like a FIFO queue of its own |
| PipelineFifo.ScanIsFifo | Sources/NFSKit/NFSEventLoop.swift:503-528 | one pass refines two independent FIFO queues; afterwards each category has nothing pending or is at its depth |
| PipelineFifo.NoOvertaking | Sources/NFSKit/NFSEventLoop.swift:596-621 | on every run without timeouts each category reaches libnfs in submission order and waits only when at its depth |
| PipelineFifo.ServiceSaturates | Sources/NFSKit/NFSEventLoop.swift:462-463 | a successful service leaves both categories saturated, whatever timeouts did before |
| PipelineFifo.OvertakesIff | Sources/NFSKit/NFSEventLoop.swift:596-606 | a submission breaks the order iff its category has operations pending and a free slot |
| EventLoopWitnesses.TimeoutsAllowOvertaking | Sources/NFSKit/NFSEventLoop.swift:416-421 | a run with timeouts on which a later submission reaches libnfs first |
| WriteSources.EventSources.CancelSources | Sources/NFSKit/NFSEventLoop.swift:276-291 | a suspended source is resumed before it is cancelled; the socket is forgotten |
| WriteSources.EventSources.SetupSources | Sources/NFSKit/NFSEventLoop.swift:242-263 | the old source is retired and a fresh one, suspended once, watches the new socket |
| WriteSources.EventSources.UpdateWriteSource | Sources/NFSKit/NFSEventLoop.swift:466-480 | afterwards the source is active iff libnfs has something to send |
| WriteSources.EventSources.HandleEvent | Sources/NFSKit/NFSEventLoop.swift:434-462 | after an event the source watches the reported socket, and is a new one iff the descriptor or inode changed or the inode is unknown |
| WriteSources.EventSources.SetupRpcExportsSources | Sources/NFSKit/NFSEventLoop.swift:295-315 | the old source is retired and a fresh, active one watches the query's socket |
| WriteSources.EventSources.CancelRpcExportsSources | Sources/NFSKit/NFSEventLoop.swift:317-328 | a suspended source is resumed before it is cancelled; the flag says suspended |
| WriteSources.EventSources.UpdateRpcExportsWriteSource | Sources/NFSKit/NFSEventLoop.swift:360-374 | afterwards the source is active iff the query has something to send |
| WriteSources.EventSources.HandleRpcEvent | Sources/NFSKit/NFSEventLoop.swift:330-358 | the query's sources after an event of their own: cancelled, or fresh on the reported socket |
| WriteSources.EventSources.StopWithError | Sources/NFSKit/NFSEventLoop.swift:482-499 | the shutdown after a failed service call cancels the mounted context's source and the timer, not the query's source |
| WriteSources.EventSources.PerformShutdown | Sources/NFSKit/NFSEventLoop.swift:190-196 | the guarded shutdown cancels both sources and the timer |
| WriteSources.RunSources | Sources/NFSKit/NFSEventLoop.swift:242-480 | on every sequence of mounts, queries, events, updates, timer events and shutdowns no source is misused, and every source ever created is cancelled with count zero iff none is live at the end |
| WriteSources.AllCancelledIff | Sources/NFSKit/NFSEventLoop.swift:190-196 | once the connection has ended, however the run goes on, every source ends up cancelled iff it ended with a shutdown, no query had a live source, or an event of the query's own ended it |
| WriteSources.ShutdownLeavesQuerySource | Sources/NFSKit/NFSEventLoop.swift:482-499 | a run whose query source stays suspended through a shutdown, with no timer left |
| ReadBuffers.ReadBuffer.Disown | Sources/NFSKit/ReadBuffer.swift:21-24 | the buffer no longer owns its pointer |
| ReadBuffers.ReadBuffer.Deinit | Sources/NFSKit/ReadBuffer.swift:26-30 | the pointer is freed iff the buffer still owns it |
| Slices.BlockAfterWrite | Sources/NFSKit/NFSClient.swift:191-208 | storing into one slice replaces its front and touches no other slice |
| Slices.HeldChunksAdjoin | Sources/NFSKit/OperationBatch.swift:183-199 | if every slice before a non-empty one is full, the front of the buffer is the concatenation of the chunks |
| Slices.AssemblyIsExact | Sources/NFSKit/OperationBatch.swift:183-208 | for given byte counts the buffer assembles to the concatenation, whatever the bytes and the memory before, iff every slice before a non-empty one is full |
| Batches.OperationBatch.constructor | Sources/NFSKit/OperationBatch.swift:84-92 | a legacy batch: all chunks waiting in order |
| Batches.OperationBatch.Sliced | Sources/NFSKit/OperationBatch.swift:109-117 | a batch over one buffer that has room for all slices |
| Batches.OperationBatch.DequeueNextChunk | Sources/NFSKit/OperationBatch.swift:124-129 | the first waiting chunk goes in flight, or nothing if the batch is not active or nothing waits |
| Batches.OperationBatch.RecordChunkCompletion | Sources/NFSKit/OperationBatch.swift:138-142 | an active batch takes the chunk out of flight and keeps its data |
| Batches.OperationBatch.RecordSliceCompletion | Sources/NFSKit/OperationBatch.swift:156-160 | an active batch takes the slice out of flight and keeps its byte count |
| Batches.OperationBatch.ReportsComplete | Sources/NFSKit/OperationBatch.swift:165-171 | active and as many completions in the batch's mode as chunks |
| Batches.OperationBatch.TotalBytesWritten | Sources/NFSKit/OperationBatch.swift:185-189 | the sum of all byte counts, missing ones counting as zero |
| Batches.OperationBatch.ConcatenateChunks | Sources/NFSKit/OperationBatch.swift:201-208 | the chunks that arrived, concatenated in index order |
| Batches.OperationBatch.AssembleData | Sources/NFSKit/OperationBatch.swift:183-208 | the concatenation, or the front of the disowned buffer, which never reaches past its end |
| Batches.LifeOfBuffer | Sources/NFSKit/OperationBatch.swift:183-199 | assembled n times, a batch's buffer is freed max(1, n) times: once iff n is at most 1 |
| Batches.OperationBatch.Cancel | Sources/NFSKit/OperationBatch.swift:218-222 | an active batch keeps the error and drops what waits; any other is unchanged |
| Batches.OperationBatch.MarkCompleted | Sources/NFSKit/OperationBatch.swift:234-236 | the state becomes completed, whatever it was |
| Batches.IssuedInOrder | Sources/NFSKit/OperationBatch.swift:124-129 | on every run each chunk is handed out at most once, in increasing order without gaps |
| Batches.PartitionOnRuns | Sources/NFSKit/OperationBatch.swift:124-171 | while active, waiting, in-flight and done chunks partition the indices, and the batch is complete iff the first two are empty |
| Batches.CancelledIsFrozen | Sources/NFSKit/OperationBatch.swift:218-236 | once cancelled, nothing is handed out or recorded; marking completed changes the state alone |
| Batches.FirstErrorKeptIff | Sources/NFSKit/OperationBatch.swift:218-236 | the first error is kept iff the batch is not marked completed |
| Batches.SliceModeRefinesLegacy | Sources/NFSKit/OperationBatch.swift:138-208 | for every run, in any completion order, the two modes agree on state, completeness and byte total, and on the data if every slice before a non-empty one is full |
| Transfer.ChunkCountIsExact | Sources/NFSKit/NFSClient.swift:184-197 | the loop issues exactly the slices that start inside the file |
| Transfer.SlicesTile | Sources/NFSKit/NFSClient.swift:193-198 | no slice is empty; each starts where the one before ends, and the last ends with the file |
| Transfer.ByteInOneSlice | Sources/NFSKit/NFSClient.swift:193-198 | every byte lies in exactly one slice |
| Transfer.StoppedIff | Sources/NFSKit/NFSClient.swift:212-235 | the parallel read succeeds iff no read fails and the progress handler never refuses |
| Transfer.StoppedWith | Sources/NFSKit/NFSClient.swift:212-235 | the first read that fails or is refused decides: its error, or after a refusal the second failure among the rest, or ECANCELED without two |
| Transfer.ArrivedBlock | Sources/NFSKit/NFSClient.swift:192-232 | in any completion order, each slice ends up with its own bytes in front and the old ones behind |
| Transfer.ParallelReadExact | Sources/NFSKit/NFSClient.swift:179-250 | the result equals the file, whatever the buffer held and in any completion order, iff no read was short |
| Transfer.Drain | Sources/NFSKit/NFSClient.swift:228-230 | after a refusal the first failure is swallowed; what is thrown in the end is the next one, or the cancellation |
| Transfer.SecondFailureIsThrown | Sources/NFSKit/NFSClient.swift:212-235 | a refusal and two failing reads report the second failure |
| Transfer.CollectReads | Sources/NFSKit/NFSClient.swift:192-236 | the error that ends the group, or none and every read's bytes in place |
| Transfer.AwaitRest | Sources/NFSKit/NFSClient.swift:221-227 | every read of the group ends, and stores what it stores, before the group does |
| Transfer.DeliverLate | Sources/NFSKit/NFSClient.swift:205-207 | what answers to reads that had timed out store, and how much of it into freed memory |
| Transfer.AnswerAfterTheEnd | Sources/NFSKit/NFSClient.swift:179-250 | one read that times out and is answered after the end of its group: an input on which freed memory is stored to |
| Transfer.ReadPreallocated | Sources/NFSKit/NFSClient.swift:179-250 | the error of the group, or the whole buffer; every read ends and stores before the buffer is freed, which happens once; libnfs stores into freed memory iff a read that had timed out is answered with bytes when all have ended |
| Transfer.ParallelRefinesSequential | Sources/NFSKit/NFSClient.swift:179-278 | full parallel reads give what the sequential read of the same file gives |
| Transfer.ReadSequentially | Sources/NFSKit/NFSClient.swift:253-278 | the loop computes the sequential read, its offset always the length of the data |
| Transfer.SequentialReadEnds | Sources/NFSKit/NFSClient.swift:253-278 | by call number and bytes so far: all that was wanted, the error of the first failing call, ECANCELED at the first refusal of a call that brought bytes, or what is there when a call brings none; a call asks for at most 1 MB |
| Transfer.SequentialReadSucceedsIff | Sources/NFSKit/NFSClient.swift:263-277 | it succeeds iff no call that is made fails and the handler accepts each that brings bytes |
| Transfer.SequentialReadIsPrefix | Sources/NFSKit/NFSClient.swift:263-271 | whatever the server does the result is a prefix of the file, and all of it unless some call returned nothing |
| Transfer.SequentialReadGivesFile | Sources/NFSKit/NFSClient.swift:263-277 | with short but non-empty reads the result is the file |
| Transfer.WriteFile | Sources/NFSKit/NFSClient.swift:287-311 | the bytes that reach the file and the error, in terms of the recursive chunked write |
| Transfer.WriteIsExact | Sources/NFSKit/NFSClient.swift:298-305 | a write that reports success leaves the data in the file iff every call wrote its whole chunk |
| Transfer.WriteStopsAt | Sources/NFSKit/NFSClient.swift:298-309 | the first call that fails or is refused decides: its error, or ECANCELED once its chunk is written; what has landed is what each earlier call took of its chunk of 1 MB |
| Transfer.WritePasses | Sources/NFSKit/NFSClient.swift:298-309 | without such a call there is no error and one call for each 1 MB begun |
| Transfer.WriteIsExactIff | Sources/NFSKit/NFSClient.swift:298-305 | after a reported success the file is the data iff every call took the whole of its chunk, by call number |
| Transfer.ServedWritesSucceed | Sources/NFSKit/NFSClient.swift:298-309 | the loop succeeds iff no call fails and the handler never refuses |
| Transfer.RoundTrip | Sources/NFSKit/NFSClient.swift:253-311 | data written in full and read back sequentially is unchanged |
| Transfer.Contents | Sources/NFSKit/NFSClient.swift:121-172 | empty, parallel up to 64 MB with slices of at most 4 MB, sequential beyond |
| Transfer.ContentsGivesFile | Sources/NFSKit/NFSClient.swift:146-172 | on either path a server that answers in full yields the file |
| RecursiveRemoval.RemoveItem | Sources/NFSKit/NFSClient.swift:366-373 | on success exactly the subtree is gone and every rmdir found its directory empty; on failure only entries at or below the path are gone; if no call fails of itself, success iff every name below leads to its child when joined to a path, else ENOTEMPTY |
| RecursiveRemoval.RemoveDirectoryRecursive | Sources/NFSKit/NFSClient.swift:375-385 | the same for a directory, by listing, removing the legal names one by one, then rmdir |
| RecursiveRemoval.RemoveListed | Sources/NFSKit/NFSClient.swift:377-383 | the loop removes exactly the subtrees under the legal names, or stops at the first failure |
| RecursiveRemoval.Remove | Sources/NFSKit/NFSClient.swift:366-385 | the same with no bound on the depth: on every finite tree without empty names the mutual recursion ends |
| Paths.JoinedComponents | Sources/NFSKit/NFSClient.swift:381 | joining, with or without a slash at the end of the path, adds the listed name as one component; an empty name adds none |
| Paths.LegalIff | Sources/NFSKit/NFSClient.swift:380-381 | for every path and every non-empty name: the name is accepted iff the joined path leads to the child of that name of what the path leads to ("." stays, ".." goes up, "/" separates) |
| Paths.ReachableIff | Sources/NFSKit/NFSClient.swift:380-381 | a non-empty name is accepted iff it leads to its child from every path |
| Paths.EmptyNameLeadsBack | Sources/NFSKit/NFSClient.swift:380-381 | the empty name is accepted, and the joined path leads to the directory itself |
| EmptyNames.RemovalEndsIff | Sources/NFSKit/NFSClient.swift:366-385 | the recursion ends, for some amount of fuel, iff its loops reach no empty name; then the item is gone or the call throws, as computed |
| EmptyNames.EmptyNameNeverEnds | Sources/NFSKit/NFSClient.swift:377-383 | a directory that lists one empty name: no fuel suffices |
| EmptyNames.LegalFate | Sources/NFSKit/NFSClient.swift:380 | with legal names in any order: all is removed iff no directory lists an empty name, else the recursion does not end |
| EmptyNames.NoEmptyNameEnds | Sources/NFSKit/NFSClient.swift:366-385 | without empty names it ends on every tree |
| SymbolicLinks.LeavesTreeIff | Sources/NFSKit/NFSClient.swift:366-385 | with symbolic links: the removal succeeds, and then stays inside, iff names are legal and links lead to files; it removes something outside iff the first item it fails on is a link to a directory behind which something can be removed |
| SymbolicLinks.StaysInside | Sources/NFSKit/NFSClient.swift:366-385 | without links to directories it stays inside, whatever else is in the tree |
| SymbolicLinks.FileElsewhereIsRemoved | Sources/NFSKit/NFSClient.swift:366-373 | a link to a directory elsewhere with one file: the file is removed and the call fails |
| RecursiveRemoval.LegalBelowSplit | Sources/NFSKit/NFSClient.swift:377-383 | the names below a directory are legal iff its own are and those below its children are |
| RecursiveRemoval.ClearedAll | Sources/NFSKit/NFSClient.swift:377-384 | after the loop the directory is empty iff all its names were legal, and then only it is left of the subtree |

## Left out

- EventLoopAccounting.SlotBounds: the bounds by outstanding calls are stated while the context lives; `EventLoopAccounting.CountGoesStaleIff` says what is left afterwards.
- EventLoopTheorems.QueryOutlivesConnection: the timeout scan is excluded from the later steps, because the timer is cancelled with the connection; the timer itself is part of `WriteSources` only.
- EventLoopTheorems.SomebodyWillAnswer: an export query whose RPC context was destroyed without an answer is excluded; only a timeout or a shutdown resumes it.
- EventLoopTheorems.WriteBufferFreedIff: exactly-once release of write buffers is not claimed, because the code does not free the copy after a successful write.
- EventLoopTheorems.RetainBalance: pointers dropped with the queue or a destroyed context stay retained for ever; the code leaks them and so does the model.
- RecursiveRemoval.RemoveItem: the server resolves a path lexically (`Paths.Resolved`), so ".." goes up whatever lies there; trees have no empty names and no symbolic links, for which `EmptyNames` and `SymbolicLinks` say what happens.
- SymbolicLinks.LeavesTreeIff: what a link leads to is finite and apart from the tree being removed, so links in a circle or back into the tree are not modelled; the server lists a directory in the same order each time, and no call fails for reasons of its own.
- EmptyNames.RemovalEndsIff: the server lists a directory in the same order each time, and no call fails for reasons of its own.
- Transfer.Contents: `readMax` must be positive; the program divides by it without a check. A file does not change while it is read.
- Batches.OperationBatch.AssembleData: the `Data` over the shared buffer is a copy of its contents at that moment; later changes through the buffer are not modelled.
- WriteSources.EventSources.HandleEvent: read sources and the descriptor and inode queries are not modelled; what the system reports is a parameter.
- `readdirAll` reads a listing that the open call has already fetched; it makes no call on the wire and is no step of the event loop model.
- libnfs itself and NFS on the wire: only the contract of rc and callback (libnfs.h, comment on nfs_mount_async) is an assumption.
- CallbackData objects are values in tables plus a set of resumed flags, not heap objects; whether libnfs accepts a queued operation is attached to the operation when it is submitted.
- The `isRunning` flag, log handlers, error descriptions and the results' types: no influence on what is proved.
- Cancellation of Swift's structured concurrency, and the wrappers in `NFSFileHandle` and `OperationType`: the category and the kind of operation are parameters.
- Rounding of `Double` depths: depths are real numbers; dividing by a zero depth gives the cap.
- Overflow of 64-bit identifiers and sizes: identifiers are unbounded.
- Attribute dictionaries, statistics, security flavours, tuning setters, parsers: wrappers with one branch each.
