# Audit log forwarder: a verified model

The audit log forwarder receives Kubernetes audit events over HTTP, injects annotations, sends
them to one Guaranteed and any number of BestEffort HTTP outputs, and reloads its client
certificates when their files change. This project models the parts where ordering, retries and
lifecycles decide whether that works, and proves what they promise for all inputs, all
interleavings and all reachable states.

Concurrent parts are step machines: a state, `Enabled(state, action)` and `Apply(state, action)`,
one action per atomic step of one goroutine, of the Go runtime, or of the environment. A theorem
about `Reachable` states or about every `ValidRun` therefore covers every schedule. Sequential
code is imperative Dafny proved against a specification.

| file | models |
|---|---|
| `Basics.dfy` | options and counting |
| `GoTimer.dfy`, `Debounce.dfy` | Go timers under both generations of their semantics; what debouncing means, on histories |
| `TlsWatcher.dfy`, `TlsReload.dfy` | the TLS hot-reload loop with its timer, files, notifications and Close callers; its theorems |
| `WatchLoop.dfy`, `WatchRefinement.dfy` | the loop's own code on its variables, against a script of notifications; how it follows the step machine |
| `Backoff.dfy`, `Send.dfy` | retry delays in 64-bit arithmetic; the attempt loop of one Send |
| `ForkJoin.dfy` | the parallel fan-out over a wait group and a bounded error channel |
| `Handler.dfy` | any number of concurrent requests, detached tasks, metrics and Shutdown calls |
| `Delivery.dfy`, `Metering.dfy`, `Drain.dfy`, `Progress.dfy`, `Scenarios.dfy` | what the handler guarantees; runs that show where a guarantee ends |
| `Supervision.dfy` | the two servers, their mutual cancellation and the ordered shutdown |
| `Config.dfy`, `Outputs.dfy`, `Startup.dfy` | defaults, validation, output construction, rollback, start sequence |
| `Annotation.dfy`, `EndToEnd.dfy` | annotation injection on heap maps; the theorem over the whole path |

## Environment and abstractions

- Files, clocks, the network, URL parsing, the gzip library, the audit codec and credential parsing
  are parameters or environment actions. gzip and the codec are partial functions; where a theorem
  needs them to be lossless it says so. The codec need not tell an empty annotation map from none.
- An attempt ends in no response, an unreadable body, or a status with a body, after at most the
  client's 15 s; a wait that the context ends counts in full in the time of a Send. The random part
  of a delay is any real in [0, 1); floating-point rounding in the jitter product is not modelled.
- Timer expiry and the send into the timer's channel are separate steps. `Buffered` is Go before
  1.23, where `Stop` leaves a value in the channel; `Synchronous` is Go since 1.23, which go.mod
  selects. Every theorem about the loop holds for both.
- Loading credentials reads the CA file, the certificate and the key in separate steps, so file
  changes can fall between the reads. Closing a watcher closes its channels in the same step.
- A Send's POSTs become visible when the Send ends. Cancelling a context and returning from
  Shutdown are one step.

## Where promises and code differ

- A Send with zero or fewer attempts returns nil without a request (`Send.NoAttemptsNoDelivery`),
  and the options accept such numbers. Nil stands for delivery exactly from one attempt on
  (`Send.NilMeansDeliveredExactly`), and so does a 200 (`Delivery.OkMeansDelivered`, with
  `Scenarios.OkWithoutPost`); the outputs that start-up builds have 4 and 6 (`EndToEnd.BuiltSettings`).
- An error does not mean that nothing was delivered; `Send.ErrorAfterDelivery` says exactly when.
- Validation trims the compression, sending does not: a padded value is accepted and sends
  uncompressed (`EndToEnd.CompressionIsAsWritten`).
- A delay is the ideal one plus at most 5 percent exactly while the 64-bit product fits, or happens
  to wrap above the cap, and the jitter does not overflow (`Backoff.DelayRange`). Beyond that, waits
  can vanish (`Backoff.BackoffVanishes`) or grow to centuries (`Backoff.BackoffExplodes`).
- The waits of a best-effort Send (below 19.9 s) fit into the 30 s drain, but the Send need not: its
  attempts may take 15 s each. `Send.FitsExactly` says when it does, `Send.ShippedElapsed` in numbers.
- The comment on Handler.Shutdown says that the shutdown context is cancelled only after the
  timeout; the code also cancels it after a successful drain, and the model follows the code.
- The comment on runServer speaks of a server that cannot start initially; the code returns on any
  later serving failure as well, and then neither drains the handler nor shuts the server down.
- A credential change is loaded exactly if a reload starts after it; a change without a notification
  of its own is therefore picked up while an earlier one is still queued or debounced, and otherwise
  waits for the next one (`TlsReload.ReloadConverges`). Changes between building the first client
  and watching the directories are such changes (`TlsReload.ChangeBeforeWatchingIsMissed`).
- A serving goroutine can stay blocked on its error channel (`Supervision.LateFailureStaysBehind`).

## Model

| member | source | states |
|---|---|---|
| `TlsWatcher.InvStep` | internal/output/http/http.go:237-322 | every atomic step of loop, timer, file system and Close callers keeps the timer, due-time, log, stamp, load, client and close invariants |
| `TlsWatcher.InvRun` | internal/output/http/http.go:237-322 | hence every state of every run satisfies them |
| `TlsReload.DrainsNeverDeadlock` | internal/output/http/http.go:240-265 | under both timer semantics the channel variable is non-nil exactly while one tick is pending, every drain finds a value or one being sent, and no tick outlives the loop |
| `TlsReload.TicksAreDue` | internal/output/http/http.go:249-274 | a receivable tick answers the last handled event and a whole debounce has passed: no stale tick reloads |
| `TlsReload.NoLostReload` | internal/output/http/http.go:267-322 | with no debounce pending, a reload started after the last handled event; and whenever no load is in progress and no file changed since the last reload started, the published client holds exactly the configured CA and certificate pair of the files, if they pass their checks |
| `TlsReload.ReadyCasesCanRun` | internal/output/http/http.go:267-300 | the select has no priorities: every ready case can be taken whatever else is ready, with its effect |
| `TlsReload.WorkIsEnabled` | internal/output/http/http.go:267-300 | a live loop with work left always has an enabled step, at the latest at the timer's deadline |
| `TlsReload.WorkIsBounded` | internal/output/http/http.go:267-300 | without new notifications the loop and its timer take at most `Fuel` more steps |
| `TlsReload.ReloadConverges` | internal/output/http/http.go:267-322 | from every reachable state, every undisturbed run that comes to rest has reloaded after the last file change if and only if a reload had started since it, an event is queued or being handled, or the debounce is running; the published client holds exactly the configured parts of the final files if and only if that holds or it did already |
| `TlsReload.RotationIsPublished` | internal/output/http/http.go:267-322 | from every reachable state with an open watcher, any loadable files can be written and notified, and every undisturbed run that then comes to rest publishes exactly their configured parts |
| `TlsWatcher.LoadIsExact` | internal/output/http/http.go:344-391 | a load succeeds exactly if the configured parts pass their checks, and yields exactly those parts |
| `TlsReload.ComesToRest` | internal/output/http/http.go:267-322 | such a run exists from every state whose loop is not on its way out |
| `TlsReload.UnnoticedChangesAreNotLoaded` | internal/output/http/http.go:267-300 | a resting loop reloads nothing until a content event arrives, whatever other events, errors, file changes, cancellations and Close calls there are |
| `TlsReload.ChangeBeforeWatchingIsMissed` | internal/output/http/http.go:85-113 | for any two loadable contents, files changed between building the first client and watching their directories leave the loop at rest with the old credentials, in every continuation without a content event |
| `TlsReload.DebounceHolds` | internal/output/http/http.go:249-292 | with any delays, reloads never outnumber handled events, follow every earlier event by a debounce, and are a debounce apart |
| `TlsReload.PromptRunsMeetOffline` | internal/output/http/http.go:249-292 | with prompt scheduling the reload times equal the offline computation: one per maximal burst, a debounce after its last event |
| `TlsReload.PublishedClientIsSound` | internal/output/http/http.go:305-322 | the published client holds exactly the configured parts, each of which passed its check; replaced clients had idle connections closed once each in order, the current one never, and only a swap publishes |
| `TlsReload.ClosedIsFinal` | internal/output/http/http.go:186-199 | once any Close call returned, no later step swaps a client, re-arms the timer or closes idle connections, and further calls return nil |
| `TlsReload.ClosingLoopAdvances` | internal/output/http/http.go:267-300 | after the watcher closed, a loop or timer step is enabled until the loop has exited |
| `TlsReload.ClosingLoopEnds` | internal/output/http/http.go:190-199 | and there are at most `Fuel` of them, so Close returns |
| `TlsReload.CloseCallsReturn` | internal/output/http/http.go:190-199 | once the loop has exited the executing Close can return, and after it every other call |
| `Debounce.ReloadsNeverExceedEvents` | internal/output/http/http.go:289-292 | in a disciplined history each reload has a handled event of its own |
| `Debounce.ReloadsAreSpaced` | internal/output/http/http.go:249-257 | any two reloads of a disciplined history are a debounce apart |
| `Debounce.ReloadFollowsQuiet` | internal/output/http/http.go:249-257 | a reload waits a debounce after every event before it |
| `Debounce.PromptMeetsOffline` | internal/output/http/http.go:289-292 | prompt histories and the offline burst computation agree on every reload time |
| `WatchLoop.Loop.constructor` | internal/output/http/http.go:243-247 | creating and stopping the zero timer leaves no tick, whether or not it fired first |
| `WatchLoop.Loop.StopAndDrain` | internal/output/http/http.go:250-254 | stopping and draining removes the one pending tick under both semantics |
| `WatchLoop.Loop.ArmDebounce` | internal/output/http/http.go:249-257 | afterwards exactly one tick is pending, a full debounce from now |
| `WatchLoop.Loop.Tick` | internal/output/http/http.go:272-274 | receiving the tick clears the channel variable and leaves nothing pending |
| `WatchLoop.Loop.Leave` | internal/output/http/http.go:261-265 | the deferred stop on exit leaves no tick behind |
| `WatchLoop.Loop.Watch` | internal/output/http/http.go:267-300 | over a whole script of events, errors and an end, the reload times equal the offline burst computation for the content changes before the end, without a reload not due by then |
| `WatchRefinement.WatchIsPromptRun` | internal/output/http/http.go:237-322 | for every script some prompt run of the step machine handles the same content changes at the same times, reloads exactly when the loop's code does, and exits or comes to rest like it |
| `Backoff.RawExact` | internal/output/http/http.go:417 | the machine product is exact if and only if it fits into 63 bits |
| `Backoff.CappedExact` | internal/output/http/http.go:417-418 | capping gives the ideal delay if and only if the product fits or its wrapped value is above the cap |
| `Backoff.JitterRange` | internal/output/http/http.go:418 | for every 64-bit delay, jitter adds between 0 and 5 percent away from zero for every random part if and only if the largest jitter fits into 64 bits |
| `Backoff.DelayRange` | internal/output/http/http.go:412-419 | from the second attempt on, the delay is the ideal one plus at most 5 percent for every random part if and only if the product fits or wraps above the cap, and the largest jitter fits |
| `Backoff.BackoffVanishes` | internal/output/http/http.go:417-418 | past 64 attempts nothing is waited for; with a base of one second the product is negative at attempt 35 |
| `Backoff.BackoffExplodes` | internal/output/http/http.go:417-418 | after attempt 64 with an odd base, whatever the cap, jitter wraps the product into a wait of at least 95 percent of the largest duration |
| `Backoff.TotalDelayRange` | internal/output/http/http.go:171-175 | while every single delay is right, the total wait lies between the ideal total and the worst one, which is at most base plus 1.05 times the ideal rest |
| `Backoff.WorstIsReached` | internal/output/http/http.go:412-419 | the worst total is reached by some jitter, so the bound is tight |
| `Backoff.FittingIsSound` | internal/output/http/http.go:417-418 | every delay is right when the last product fits and the cap leaves room for jitter |
| `Backoff.TotalDelayBound` | internal/output/http/http.go:171-175 | the total of at most n waits is below the worst total, base plus 1.05 times the ideal sum, and both closed forms |
| `Backoff.ShippedDelays` | cmd/auditlog-forwarder/app/options/options.go:110-120 | the shipped delays are all right, and the longest total waits are exactly 3.65 s less 2 ns and 19.9 s less 4 ns |
| `Send.DoSend` | internal/output/http/http.go:117-179 | the attempt loop meets the complete specification of a Send in every environment |
| `Send.MeetsIsUnique` | internal/output/http/http.go:117-179 | the specification determines error, attempts and waits uniquely |
| `Send.TraceShape` | internal/output/http/http.go:138-178 | attempts never exceed the configured number and there is one exactly if the data packs, one is configured and a request can be built; non-final ones failed retryably, all carry the same payload and header, nil if and only if the last was a fully read 2xx or none was to be made, and the error reflects the last attempt |
| `Send.AfterAttempt` | internal/output/http/http.go:151-176 | after each attempt, in numbers: no response, 429 and 500 or above are waited for and tried again unless it was the last or the wait is cancelled; 200 to 299 with a body ends the Send with nil; every other status and an unreadable body end it at once with that error |
| `Send.PayloadIsExact` | internal/output/http/http.go:120-136 | with the compression "gzip" every attempt carries the zipped data and the header, otherwise, an empty compression included, the data itself without it |
| `Send.NilExactly` | internal/output/http/http.go:117-179 | in terms of the inputs alone: nil if and only if the data packs and either no attempt is configured, or a request can be built and some attempt within the limit is a fully read 2xx after retryable failures whose waits were not cancelled |
| `Send.NilMeansDelivered` | internal/output/http/http.go:120-162 | nil with at least one attempt means the endpoint answered with a status in 200 to 299 to a POST from which it reads the data |
| `Send.NoAttemptsNoDelivery` | internal/output/http/http.go:137-178 | with zero or fewer attempts the only run returns nil without a request |
| `Send.NilMeansDeliveredExactly` | internal/output/http/http.go:117-179 | nil stands for delivery in every environment if and only if at least one attempt is configured or the data cannot be packed |
| `Send.ErrorAfterDelivery` | internal/output/http/http.go:155-158 | an error does not imply non-delivery, exactly: with an error, some attempt was answered 2xx if and only if an attempt is reached whose 2xx body cannot be read, and if and only if that is the error |
| `Send.WaitsAreBounded` | internal/output/http/http.go:171-175 | the waits of every Send obey the worst total, base plus 1.05 times the ideal sum, and both closed forms |
| `Send.ShippedWaits` | internal/output/http/http.go:93-95 | the waits of the two shipped configurations stay below 3.65 s and 19.9 s |
| `Send.FitsExactly` | internal/output/http/http.go:117-179 | on the configuration alone: every Send whose attempts take at most t ends within a limit if and only if the number of attempts times t plus the longest waits does |
| `Send.ShippedElapsed` | cmd/auditlog-forwarder/app/app.go:121 | every best-effort Send whose attempts take at most t ends within the 30 s drain if and only if six times t is at most 10.1 s and 4 ns; with the client's 15 s limit the longest Send takes exactly 109.9 s less 4 ns |
| `ForkJoin.InvStep` | internal/handler/audit/handler.go:146-196 | every step keeps: wait group equals live tasks, one error per failed task, no close while tasks live, no panic |
| `ForkJoin.PushNeverBlocks` | internal/handler/audit/handler.go:168-179 | a failing task always finds an open error channel with room |
| `ForkJoin.JoinIsScheduleIndependent` | internal/handler/audit/handler.go:157-195 | under every schedule and on the fast path alike: no panic, errors are one per failed output, nil if and only if every Send succeeded |
| `ForkJoin.FuelStep` | internal/handler/audit/handler.go:167-189 | every step brings the fan-out closer to its return |
| `ForkJoin.NeverStuck` | internal/handler/audit/handler.go:167-189 | until it returns, some step is possible |
| `Handler.RunProcessors` | internal/handler/audit/handler.go:78-89 | the processor loop computes the chain and stops at the first failure |
| `Handler.ChainFails` | internal/handler/audit/handler.go:79-88 | a failure at any position fails the chain |
| `Handler.ChainConcat` | internal/handler/audit/handler.go:78-89 | chains compose |
| `Delivery.InvStep` | internal/handler/audit/handler.go:61-111 | every step of every request, task, Shutdown call or arrival keeps the delivery invariants |
| `Delivery.OkMeansDelivered` | internal/handler/audit/handler.go:61-111 | in every interleaving, after a 200 a guaranteed output answered 2xx to a POST that decodes to the processor chain's result if and only if at least one attempt is configured for it |
| `Scenarios.OkWithoutPost` | internal/output/http/http.go:138-178 | without attempts a request is answered 200 although nothing was posted |
| `Delivery.ResultIsAnswer` | internal/handler/audit/handler.go:151-219 | for both modes: once a task's Send has ended, the task succeeded if and only if some POST of that request to that output was answered 2xx with a readable body (or no attempt is configured and the data packs); before, it has posted nothing |
| `Delivery.AnswerIsExact` | internal/handler/audit/handler.go:61-111 | 200 if and only if the body was read, the chain succeeded and every guaranteed output answered 2xx to a POST of the request (as long as an attempt is configured), otherwise 500; exactly with a 200 best-effort outputs are launched |
| `Delivery.BestEffortImpliesGuaranteed` | internal/handler/audit/handler.go:91-106 | once best-effort outputs are launched, Sends under way included, they get the bytes every guaranteed output of that request already accepted |
| `Delivery.FailedChainSendsNothing` | internal/handler/audit/handler.go:78-89 | a request whose body or chain fails starts no fan-out and posts nothing |
| `Metering.InvStep` | internal/handler/audit/handler.go:62-110 | every step changes the metrics exactly as it changes the requests they count |
| `Metering.RequestsAreConserved` | internal/handler/audit/handler.go:62-110 | received equals succeeded plus failed plus in flight, always |
| `Metering.SuccessesCoverRequests` | internal/handler/audit/handler.go:158-179 | per name, guaranteed successes are at least succeeded requests times outputs of that name |
| `Metering.SendsAreConserved` | internal/handler/audit/handler.go:151-219 | at rest, per label, successes plus failures equal outputs of that name times requests that reached the stage |
| `Metering.FastPathMetersAlike` | internal/handler/audit/handler.go:151-179 | the metric updates of a returned fan-out add exactly one success or failure per output and name, as its Sends ended, on the fast path and under every schedule of the general path |
| `Metering.CountsAreAnswers` | internal/handler/audit/handler.go:158-219 | at rest, per label, the successes are exactly the outputs of that name that answered 2xx to a POST, over all requests that reached the stage, and the failures are the others |
| `Drain.ShutdownDrains` | internal/handler/audit/handler.go:113-136 | a call times out only after its timeout; when it returned nil, every task launched before it has ended all Sends, and none saw the cancelled context unless another call returned too |
| `Drain.CancelledOnlyByShutdown` | internal/handler/audit/handler.go:126-135 | the context is cancelled exactly once a call has returned, never before the counter was seen at zero or a timeout elapsed |
| `Drain.DrainedSendsAreNotCancelled` | internal/handler/audit/handler.go:113-136 | over the run: when a call returned nil and no other call returned, no Send of a task launched before it ended cancelled |
| `Drain.CancelledSendIsSeen` | internal/handler/audit/handler.go:131-134 | a best-effort Send ends cancelled only after some Shutdown call returned |
| `Drain.CallsReturnInTime` | internal/handler/audit/handler.go:113-136 | a waiting call can return with a timeout error exactly from its timeout on, and with nil as soon as all best-effort tasks are over |
| `Drain.WaitGroupIsExact` | internal/handler/audit/handler.go:101-106 | the wait group counts exactly the unfinished best-effort tasks |
| `Drain.TasksCanEnd` | internal/handler/audit/handler.go:101-106 | from every state the best-effort tasks can be brought to their end by their own steps |
| `Drain.EarlyTimeoutIsSeen` | internal/handler/audit/handler.go:113-136 | why other calls are excluded: from every reachable state with a retrying best-effort Send under way, a call can return nil although that Send ended cancelled, because a second call timed out first |
| `Scenarios.RetryingTaskHappens` | internal/handler/audit/handler.go:101-106 | such states are reachable |
| `Progress.RequestsAreBounded` | internal/handler/audit/handler.go:61-111 | a request with its fan-outs takes a bounded number of steps in every run |
| `Progress.RequestGoesOn` | internal/handler/audit/handler.go:61-111 | until it is answered, counted and its task over, one of its steps is possible |
| `Progress.SendsMayEndAnyhow` | internal/handler/audit/handler.go:151-219 | a Send under way may end in every way the environment allows, and its task then has exactly that result |
| `Supervision.ShutdownIsOrdered` | cmd/auditlog-forwarder/app/app.go:112-143 | outputs close only after both results were received, once each in order; the result joins both; an ended server cancelled the other |
| `Supervision.ResultIsExact` | cmd/auditlog-forwarder/app/app.go:137-205 | over every run from the start, a server reports a failure if and only if its graceful shutdown failed or its serving error was taken, and `run` returns an error if and only if that happened to one of them |
| `Supervision.FailedShutdownIsReported` | cmd/auditlog-forwarder/app/app.go:199-205 | a graceful shutdown may fail, and then every continuation in which `run` returns, of which there is one, returns an error |
| `Supervision.HookRunsIffViaContext` | cmd/auditlog-forwarder/app/app.go:184-195 | the hook that drains the handler has returned, drained or timed out, before outputs close if and only if the audit server ended through its context |
| `Supervision.OwnFailureSkipsHook` | cmd/auditlog-forwarder/app/app.go:184-186 | after the audit server's own failure no continuation runs the hook |
| `Supervision.LateFailureStaysBehind` | cmd/auditlog-forwarder/app/app.go:169-189 | a serving goroutine that fails after the context branch was chosen stays blocked in every continuation |
| `Supervision.LeftBehindExactly` | cmd/auditlog-forwarder/app/app.go:169-189 | after `run` returned, a serving goroutine can still end if and only if it is not blocked on a failure nobody reads |
| `Supervision.FailuresHappen` | cmd/auditlog-forwarder/app/app.go:184-189 | both situations are reachable: a failure after the context branch, and the audit server's own failure |
| `Supervision.BlockedOnlyAfterContext` | cmd/auditlog-forwarder/app/app.go:169-189 | and only such a goroutine does |
| `Supervision.RunsAreBounded` | cmd/auditlog-forwarder/app/app.go:112-143 | every run is finite, bounded by a measure of its start |
| `Supervision.TriggeredGoesOn` | cmd/auditlog-forwarder/app/app.go:137-142 | after a cancellation or failure the program always has a step until it returns |
| `Supervision.CanReturn` | cmd/auditlog-forwarder/app/app.go:112-143 | after a trigger some run of the program's own steps returns |
| `Supervision.RunReturns` | cmd/auditlog-forwarder/app/app.go:112-143 | hence every run that goes on as long as it can ends with `run` returned |
| `Config.SetDefaults` | pkg/apis/config/v1alpha1/defaults.go:35-48 | in place, a missing mode becomes Guaranteed for a single output and BestEffort otherwise |
| `Config.TrimSpaceIsExact` | pkg/apis/config/v1alpha1/validation/validation.go:189-236 | trimming takes away exactly the space at both ends |
| `Config.ValidateClientTLS` | pkg/apis/config/v1alpha1/validation/validation.go:229-245 | no error if and only if certificate and key are given together; otherwise the missing one is named |
| `Config.ValidateURL` | pkg/apis/config/v1alpha1/validation/validation.go:189-213 | no error if and only if the trimmed URL is given, parses, and is https without query, fragment and user |
| `Config.ValidateOutputHTTP` | pkg/apis/config/v1alpha1/validation/validation.go:186-226 | no error if and only if URL, TLS and compression are valid; the URL and the compression are named exactly if they are not |
| `Config.ValidateOutput` | pkg/apis/config/v1alpha1/validation/validation.go:151-183 | no error if and only if the output is valid; errors point at it, and name the mode and a missing type exactly if they are wrong |
| `Config.ValidateOutputs` | pkg/apis/config/v1alpha1/validation/validation.go:109-148 | no error if and only if every output is valid and exactly one is Guaranteed; every invalid output is named |
| `Config.DefaultingIsIdempotent` | pkg/apis/config/v1alpha1/defaults.go:35-48 | defaulting twice is defaulting once |
| `Config.PipelineAcceptsExactly` | pkg/apis/config/v1alpha1/validation/validation.go:109-148 | defaulting then validation accepts exactly the lists a user may write |
| `Config.SelectionIsExact` | internal/output/factory/factory.go:20-31 | the factory's selection is in order, without repetition, and complete |
| `Config.ValidatedSplit` | internal/output/factory/factory.go:20-31 | for validated lists the two selections split the outputs, exactly one Guaranteed |
| `Outputs.HttpOutput.Close` | internal/output/http/http.go:190-199 | only the first call releases the watcher and can report an error |
| `Outputs.TlsDirectories` | internal/output/http/http.go:325-341 | exactly the parent directories of the CA, certificate and key paths that are given, each once |
| `Outputs.StartWatcher` | internal/output/http/http.go:208-234 | a watcher exactly if there is a directory; on failure none stays open |
| `Outputs.New` | internal/output/http/http.go:80-114 | builds the output exactly if credentials, options and watcher allow; a failure leaves no watcher open |
| `Outputs.OptionsAreRefused` | internal/output/http/options.go:55-63 | a list of options is refused exactly for a negative debounce |
| `Outputs.LastOptionCounts` | internal/output/http/options.go:19-63 | the last option of each kind counts |
| `Outputs.DefaultsHold` | internal/output/http/http.go:90-98 | without an option of a kind its default holds: 4 attempts, 0.5 s, 3 s, and the debounce default |
| `Outputs.ShippedSettings` | cmd/auditlog-forwarder/app/options/options.go:100-120 | the two option lists give 4 and 6 attempts with their delays |
| `Outputs.NewHTTPOutputs` | internal/output/factory/factory.go:19-34 | all selected outputs in order with exactly their own watchers open, or none and every watcher closed again |
| `Outputs.CloseAll` | internal/output/factory/factory.go:37-45 | closes every output whatever individual closes report, and collects exactly the failures |
| `Startup.BuildBoth` | cmd/auditlog-forwarder/app/options/options.go:100-133 | outputs of both modes, each exactly the configured ones in order with its own watcher, or none and every watcher closed again |
| `Startup.ApplyTo` | cmd/auditlog-forwarder/app/options/options.go:90-136 | all outputs of both modes or none; failure leaves watchers and the output lists as they were, while addresses, TLS and annotations stay as far as they were written |
| `Startup.Start` | cmd/auditlog-forwarder/app/app.go:41-63 | reaches a handler exactly for writable, buildable configurations without errors elsewhere; is rejected exactly for the others that are not writable or have errors, with the output errors followed by the rest; the handler never refuses, failure leaves no watcher open |
| `Startup.CloseOutputs` | cmd/auditlog-forwarder/app/app.go:146-154 | releases exactly the watchers of both groups |
| `Startup.Lifetime` | cmd/auditlog-forwarder/app/app.go:41-143 | over the program's life every watcher it opened is closed exactly once |
| `Annotation.InjectAll` | internal/processor/annotation/annotation.go:40-45 | in place, each event gets the right-biased merge and the injector's own map is unchanged |
| `Annotation.Injector.Process` | internal/processor/annotation/annotation.go:30-48 | decode, inject and encode compute the specification without touching any earlier map |
| `Annotation.ProcessingSucceeds` | internal/processor/annotation/annotation.go:30-48 | when processing succeeds, for lists of any length: always without annotations, otherwise exactly if the body decodes and the codec encodes the list with everything kept and annotations merged |
| `Annotation.DecodableIsProcessed` | internal/processor/annotation/annotation.go:30-48 | with a codec that encodes every list, exactly the decodable bodies are processed |
| `Annotation.ProcessingMerges` | internal/processor/annotation/annotation.go:30-48 | the result decodes to the same events in order with merged annotations, everything else kept |
| `Annotation.ChainingMerges` | internal/handler/audit/handler.go:78-89 | two injectors in a row are one with the merged map |
| `Annotation.ProcessingIsIdempotent` | internal/processor/annotation/annotation.go:30-48 | processing twice is processing once |
| `EndToEnd.ChainIsInjection` | cmd/auditlog-forwarder/app/app.go:80-84 | the program's processor list is one injection, or nothing when there is nothing to inject |
| `EndToEnd.ChainsMerge` | internal/handler/audit/handler.go:78-89 | two injectors in a row, as a processor chain, are one with the merged annotations, unless the first fails |
| `EndToEnd.OkMeansAnnotatedDelivery` | internal/handler/audit/handler.go:61-111 | a 200 means each guaranteed endpoint answered 2xx to the request's events with the annotations injected |
| `EndToEnd.DecodableIsAnsweredOk` | internal/handler/audit/handler.go:61-111 | with such a codec, 200 if and only if the body was read and decodes and every guaranteed output served its processed content |
| `EndToEnd.BuiltSettings` | cmd/auditlog-forwarder/app/options/options.go:100-133 | the handler's outputs are those configured, per mode and in order, with URL and compression as written and the shipped attempts, base and cap of their mode |
| `EndToEnd.CompressionIsAsWritten` | pkg/apis/config/v1alpha1/validation/validation.go:219-223 | a validated output with a compression compresses if and only if the value was written without surrounding space |
| `EndToEnd.PaddedCompressionIsIgnored` | internal/output/http/http.go:121 | a padded value passes validation and is sent uncompressed |
| `EndToEnd.ProgramDelivers` | cmd/auditlog-forwarder/app/app.go:79-143 | for every server that start-up produced, a 200 means annotated delivery to the guaranteed endpoint |

## Left out

- watchTLSFiles, ServeHTTP, the fan-outs, run and runServer are step machines, not statement loops, because their goroutines interleave; `WatchLoop` has the watch loop's statements for one schedule.
- Loop.Watch: serves a due timer before the next notification, as a prompt run of the step machine does; late timers are in the step machine only.
- ProcessingMerges: asks for a codec that decodes what it encoded; the Kubernetes codec itself is not part of this model.
- ShutdownDrains: makes no claim about tasks launched after the call, which may start on a cancelled context.
- JitterRange: real arithmetic in the product, without floating-point rounding; figures to the nanosecond are those of real arithmetic.
- HTTP transport, redirects, TLS and x509 loading, fsnotify internals and gzip bytes: environment.
- Logging, request ids, metric registration, command-line flags, port and log level checks and annotation validation: single-branch facts; start-up takes their errors as an argument.
- The echo server, generated deepcopy and defaulter code, charts and scripts.
