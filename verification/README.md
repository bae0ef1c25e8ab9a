# Verified models of FalconDeck's stateful components

This project models, in Dafny, the parts of FalconDeck whose correctness depends on state, order
and interleaving, and proves properties of them over all inputs, all runs and all interleavings.

| Files | Component |
|---|---|
| `Basics` | what several components share |
| `HostFraming`, `HostRuntime`, `HostHistory`, `HostEvents`, `HostProtocol`, `HostReplies`, `HostObjects` | the extension host, a process that reads newline-framed requests, keeps one runtime per extension and answers every request |
| `SnapshotWatchdog` | the browser-snapshot watchdog, guards and a monitor thread joined by a channel |
| `GatewayRules`, `GatewayTheorems`, `GatewayPeer`, `GatewayReader`, `GatewayEndToEnd` | the JSON-RPC 2.0 peer client, its reader thread, and the two together |
| `LabOwnership` | the reliability lab's controller commands and expiry processes around one lock and one state file |
| `TaskLink`, `Utf8` | printing and parsing of deep links to a task |
| `HealthProbe`, `StartupSampler` | the startup sampler's two-thread health probe and its sampling cycle |
| `LatencyReport` | the reported p95 |

## How to read it

Where the source changes things in place, the model does too, and it has two layers. A
specification states each operation as a function on values; classes and loops with the source's own
fields (`HostObjects.Host`, `HostEvents.EventRegistry`, `GatewayPeer.Client`,
`HealthProbe.SharedProbe`, `StartupSampler.Sampler`, `LabOwnership.Shell`, the loops of `Monitor`,
`ReadStdout` and `Frame`) are proved to do exactly what the specification says. The theorems are about the
specification, so they hold of the objects.

Concurrent components are transition systems: `Exec` runs any list of steps, a step that is not
enabled leaves the state as it is, and a lemma about `Exec` for every list is a statement about
every interleaving.

An extension callback is a strategy (`Callback`): given the answers its context operations have had
so far, it performs another one or settles. What a request runs is the callback of the handler it
finds, and that callback may also depend on what the request's earlier callbacks heard (`Calls`). A
statement about every callback is a statement about every extension, whatever that makes of the
answers. The network, the clock, imports and other processes are parameters: an oracle for how a line
parses, the outcome of each write, the content of each receive.

## Main results

- **Host.** For any chunking of the input, standard output is the run of the specification over the
  non-blank lines of the whole input (`RunHost`): one frame per line, in order, with the line's id,
  an error exactly when handling failed, up to the first line that ends the process, if there is one
  (`OneResponsePerLine`). The nested handler maps and dispose
  closures, which alias one another, behave like one flat list of live handlers. A cached runtime
  treats a request like a fresh one with the same registrations, whatever went before: the same
  code hears the same answers from its context operations, makes the same moves, and the responses
  are equal (`ReusedRuntimeIsFresh`). A dispatch calls the handlers that were live when it began,
  in order and once each, all of them exactly if none throws a value that cannot be put into words
  (`DispatchRunsSnapshot`).
- **Watchdog.** Replaying the queued events on the monitor's map gives exactly the live guards in
  every reachable state. Hence no false expiry, no silent return, and an exact account of when an
  overdue guard fires.
- **Client.** No frame is lost or duplicated over any sequence of calls and failures, deferred
  frames keep arrival order, and `wait` returns the first match. Reader and caller together:
  the client's history is a prefix of the valid lines of the byte stream.
- **Lab.** No expiry process tears down a lab other than its own, under any interleaving and any
  crashes.
- **Deep links.** Parsing a printed link gives the attributes back exactly if they are valid, and
  exactly the rearrangements of three valid items parse.

## Where the code does less than one might expect

- *The activating request.* A request that activates an extension, whichever method it calls, is
  answered on the data that activation left behind: a view published by `activate` appears in the first
  response and in no later one (`ActivationShowsInFirstResponse`). Its response equals a cached
  runtime's, whatever the handlers do, if and only if it names nothing registered, or the activation
  published nothing, applied no granted effect and left the storage as it was
  (`FirstRequestMatchesCached`).
- *A late wait.* The monitor reads the clock to compute its timeout and then enters the wait. If it
  is descheduled in between, the wait ends that much after the deadline
  (`LateEntryPostponesExpiry`: deadline 10, wake-up at 15). Left to run, the monitor fires if and
  only if a guard is overdue and it is not inside such a wait (`OverdueGuardIsNeverHidden`); without
  the delay, if and only if a guard is overdue (`PromptWaitIsExact`).
- *Links are printed unchecked.* `url` prints any attributes, `init?(url:)` accepts only valid ones;
  the round trip therefore holds exactly for valid attributes (`RoundTrip`).
- *Values that cannot be put into words.* Extensions can throw values whose conversion to text throws
  in turn, such as an object without a prototype, or errors whose `message` is no string. Thrown by an
  event handler, such a value ends the dispatch: later handlers are not called and the frame is an
  error (`UnprintableThrowStopsDispatch`); any other failing handler is reported in `handlerErrors`
  only. Thrown by an action, a tool, an activation or while serialising a reply, a value that the final
  `catch` cannot write ends the process: neither that line nor any later one is answered
  (`UnprintableThrowEndsHost`). `DispatchRunsSnapshot` and `OneResponsePerLine` say exactly when
  neither happens.
- *A reader can die silently.* A line nested too deeply for the JSON decoder raises an error that
  `_read_stdout` does not catch, so no marker follows the frames before it. A marker follows exactly
  unless such a line comes before any other fault (`MarkerUnlessKilled`).
- *A sampling cycle can end the program*: two consecutive looks at one process at the same clock
  reading divide by zero (exactly then, `SampledFailsOnClash`), and a marker line that is JSON but
  not an object, is nested too deeply, or has a time too large for a floating-point number is not caught. `Cycle` ends the program exactly in these cases and otherwise keeps its
  invariants.

## Model

| member | source | states |
|---|---|---|
| HostFraming.JoinUndoesSplit | apps/extension-host/main.ts:467 | splitting text into lines loses nothing: joining the pieces with newlines gives the text back |
| HostFraming.SplitContinues | apps/extension-host/main.ts:466-468 | splitting a longer text is the complete lines so far followed by the split of the open piece and the new text |
| HostFraming.BufferStep | apps/extension-host/main.ts:466-469 | one turn of the loop: lines already handed over, then those the buffer and the chunk complete, are the complete lines of all text seen |
| HostFraming.LastLine | apps/extension-host/main.ts:471-472 | the unterminated last line completes the list of requests |
| HostFraming.Frame | apps/extension-host/main.ts:463-472 | for every division into chunks, the lines handed over are the non-blank lines of the whole input, in order, once each |
| HostFraming.OrdinaryBlanks | apps/extension-host/main.ts:438 | empty lines and those of spaces, tabs and carriage returns are skipped; a line that holds a brace is not |
| HostRuntime.OfKindAppend | apps/extension-host/main.ts:272-273 | registering a handler adds it last to its own type and to no other |
| HostRuntime.OfKindWithout | apps/extension-host/main.ts:279-280 | disposing a handler removes it from its own type and changes no other |
| HostRuntime.StepKeepsRegsOk | apps/extension-host/main.ts:203-334 | every context operation keeps handler ids increasing and unused, types supported, and at most 32 handlers a type |
| HostRuntime.PerformKeepsRegsOk | apps/extension-host/main.ts:260-284 | so does every callback |
| HostRuntime.PerformData | apps/extension-host/main.ts:182-232 | storage, views and effects after a callback do not depend on registrations; storage is the initial one folded with the callback's set and delete calls; grants never change |
| HostRuntime.RenameStep | apps/extension-host/main.ts:260-284 | a context operation commutes with any renaming of handler ids that keeps live ids apart and continues the numbering |
| HostRuntime.RenamePerform | apps/extension-host/main.ts:203-334 | so does every list of operations, answers included |
| HostRuntime.PlayPerforms | apps/extension-host/main.ts:203-334 | the runtime and answers of a callback are those of the operations it performed |
| HostRuntime.PlayFollowsCallback | apps/extension-host/main.ts:359-370 | a callback performs exactly the operations it chooses on the answers to the earlier ones, then settles as it chooses |
| HostRuntime.PlayAlike | apps/extension-host/main.ts:203-334 | callbacks that make the same moves on the same answers, on runtimes that differ in handler ids alone, hear the same answers, do the same, settle alike and leave the same data |
| HostRuntime.DataIsLeft | apps/extension-host/main.ts:213-333 | operations leave the request's data as it was exactly if they publish nothing, apply no granted effect and leave the storage |
| HostRuntime.PairingRenames | apps/extension-host/main.ts:182-191 | between any two runtimes with the same registrations in the same order there is such a renaming |
| HostHistory.LiveIsStanding | apps/extension-host/main.ts:261-283 | the handlers registered are exactly those that an `on` was granted for and no later dispose removed, in the order of those operations |
| HostHistory.OnRefusedExactly | apps/extension-host/main.ts:262-271 | `on` is refused if and only if the type is unsupported or 32 of its handlers stand |
| HostHistory.FirstRegistrationHolds | apps/extension-host/main.ts:206-240 | an action or tool is registered exactly if some operation registered its name, with the handler that the first such operation gave |
| HostHistory.RegistrationAnswers | apps/extension-host/main.ts:206-240 | registering a name again is refused, and only that |
| HostHistory.StoredIsLast | apps/extension-host/main.ts:219-226 | under each key the storage holds what the last set or delete of that key left |
| HostHistory.ViewsArePublished | apps/extension-host/main.ts:228-258 | the views are those the operations published, in order, with their scope and content |
| HostHistory.EffectIsFirst | apps/extension-host/main.ts:310-333 | the effect recorded is the first proper one applied, if automations were granted |
| HostHistory.DataAnswers | apps/extension-host/main.ts:213-333 | `get` reads what earlier operations of the same request stored, lists are those granted, and an effect is refused for the first reason that applies |
| HostEvents.TablesAfterDispose | apps/extension-host/main.ts:276-281 | dispose keeps every type's map equal to its live handlers in registration order, and drops a map that becomes empty |
| HostEvents.ClosuresAfterDispose | apps/extension-host/main.ts:274-282 | after a dispose, every closure not yet called still points at the map registered for its type: a detached map has no live handle |
| HostEvents.RegistryAfterOn | apps/extension-host/main.ts:261-273 | registration keeps maps, closures and ids consistent; a rejected one uses up its id and changes nothing else |
| HostEvents.StaleDisposeIsIdle | apps/extension-host/main.ts:276-278 | a repeated or late dispose has no handler of its own left to remove |
| HostEvents.EventRegistry.On | apps/extension-host/main.ts:261-283 | the aliased maps after `on` represent the flat list with the new handler last, or the refusal for the right reason |
| HostEvents.EventRegistry.Dispose | apps/extension-host/main.ts:276-281 | any dispose, first, repeated or late, removes exactly the handler it was handed out for |
| HostProtocol.PlayAllCallsEach | apps/extension-host/main.ts:412-417 | calls one after the other: each handler once, in order, on the runtime the one before left, up to the first that throws a value which cannot be put into words |
| HostProtocol.LoopCallsSnapshot | apps/extension-host/main.ts:408-425 | the loop over the copied map calls the handlers of its entries and collects the errors of those that throw, or throws what converting a thrown value threw |
| HostProtocol.DispatchRunsSnapshot | apps/extension-host/main.ts:406-435 | a dispatch calls the handlers live for the type when it began, in registration order and once each, whatever they register or dispose; it calls all and replies with exactly the throwing calls' messages, each cut, if and only if none throws a value that cannot be put into words; otherwise the first such call is the last |
| HostProtocol.UnprintableThrowStopsDispatch | apps/extension-host/main.ts:415-417 | an input on which the second of two live handlers is not called and the frame is an error |
| HostProtocol.InvokeRunsRegistered | apps/extension-host/main.ts:364-404 | an action or tool request calls the handler registered under its name, once, and answers with how it settled |
| HostProtocol.HandleAnswers | apps/extension-host/main.ts:437-461 | a line gets one frame with its id if and only if it does not end the process; an error exactly if reading, activation, lookup, callback or serialising failed; at most one effect, only if granted |
| HostProtocol.OneResponsePerLine | apps/extension-host/main.ts:437-472 | over whole runs there is exactly one such frame per non-blank line, in order, up to the first line that ends the process; every line is answered if and only if none does |
| HostProtocol.UnprintableThrowEndsHost | apps/extension-host/main.ts:454-459 | an input on which neither the line nor a later one is answered |
| HostProtocol.DeadStaysDead | apps/extension-host/main.ts:469 | lines after the end of the process change nothing |
| HostProtocol.ActivatedAtMostOnce | apps/extension-host/main.ts:350-361 | over whole runs an extension is activated successfully at most once, and is cached exactly if it was |
| HostProtocol.OtherExtensionsUntouched | apps/extension-host/main.ts:182-191 | a request changes no other extension's runtime |
| HostProtocol.SomeHandlersAreAlike | apps/extension-host/main.ts:183-191 | whatever the handlers do on one runtime, there are handlers on the other that do alike |
| HostProtocol.ReusedRuntimeIsFresh | apps/extension-host/main.ts:183-191 | on runtimes with the same registrations, whatever they served before, the same code hears the same answers, makes the same moves and settles alike; responses and data are equal and the registrations still agree |
| HostProtocol.AnyHistoryLooksFresh | apps/extension-host/main.ts:182-232 | so after any two histories of requests, failed ones included, that registered the same |
| HostProtocol.StorageIsOwnFold | apps/extension-host/main.ts:364-435 | the storage returned is the request's, folded with exactly the set and delete calls of the handlers it called |
| HostProtocol.EventStorageIsOwnFold | apps/extension-host/main.ts:406-435 | for an event that is replied to these are all the handlers registered when it arrives, and the errors are exactly theirs |
| HostProtocol.FirstRequestMatchesCached | apps/extension-host/main.ts:193-361 | an activating request of any method answers like a cached runtime, whatever the handlers do, if and only if it names nothing registered or activation published nothing, applied no granted effect and left the storage |
| HostProtocol.ActivationShowsInFirstResponse | apps/extension-host/main.ts:359-361 | an input on which the two differ |
| HostReplies.InvokeReplies | apps/extension-host/main.ts:364-404 | an action or tool that returns v is answered with v, or null exactly for undefined and null, with the storage, views and effect its own operations left; what it registered is kept |
| HostReplies.InvokeReportsError | apps/extension-host/main.ts:454-459 | one that throws an error with a message is answered with that message |
| HostReplies.InvokeReportsOddly | apps/extension-host/main.ts:454-459 | a message that is no string is sent as it is; a value that cannot be put into words is answered with nothing |
| HostReplies.DispatchReportsOddly | apps/extension-host/main.ts:415-417 | a dispatch ended by such a value is answered with the complaint about its message, or with what converting it threw |
| HostReplies.ActivationReportsError | apps/extension-host/main.ts:350-361 | so is a request whose activation throws one, and nothing is cached |
| HostReplies.DispatchReplies | apps/extension-host/main.ts:426-434 | a dispatch that is replied to carries no result, the storage, views and effect its calls left, and their errors |
| HostReplies.CutIsStart | apps/extension-host/main.ts:417 | a reported error is the first 1024 characters of the message |
| HostReplies.RegistrationsAreDone | apps/extension-host/main.ts:182-232 | over every run, what a cached runtime has registered comes from all the operations of its own activation and callbacks, and from nothing else |
| HostReplies.DispatchCallsSubscribers | apps/extension-host/main.ts:260-284 | over every run, a dispatch calls exactly the handlers of the `on` operations since activation that were granted and not disposed of, in their order |
| HostReplies.InvokeCallsFirstRegistered | apps/extension-host/main.ts:364-390 | and an action or tool request the handler first registered under its name |
| HostObjects.ExtensionRuntime.Register | apps/extension-host/main.ts:205-283 | the registrations in place are those of the specification; the request's data is untouched |
| HostObjects.ExtensionRuntime.Effectuate | apps/extension-host/main.ts:213-334 | storage, views, effects and refusals, that of an effect that cannot be cloned included, are those of the specification; registrations are untouched |
| HostObjects.ExtensionRuntime.Play | apps/extension-host/main.ts:203-334 | running a callback in place, each operation chosen on the answers so far, gives the specified answers, settlement and state |
| HostObjects.ExtensionRuntime.Dispatch | apps/extension-host/main.ts:406-425 | the loop in place runs the handlers of the specified snapshot, with their state and errors, or ends as specified |
| HostObjects.Host.RuntimeFor | apps/extension-host/main.ts:182-362 | a cached runtime keeps its registrations and gets the request's data; a failed activation leaves the cache as it was |
| HostObjects.Host.RunMethod | apps/extension-host/main.ts:364-435 | only this extension's runtime changes, as the specification says, although all share one heap |
| HostObjects.Host.HandleLine | apps/extension-host/main.ts:437-461 | a blank line writes nothing, any other line writes the one frame the run prescribes or ends the process when the run does |
| HostObjects.Host.Feed | apps/extension-host/main.ts:465-470 | after every chunk the output is that of the complete lines of all text read, and the buffer the open one, unless the process has ended as the run prescribes |
| HostObjects.RunHost | apps/extension-host/main.ts:463-472 | whatever the chunks, the output is the run over the non-blank lines of the whole input, and the process ends early exactly if the run says so |
| SnapshotWatchdog.ReplayAppend | scripts/cua-driver/snapshot-watchdog.rs:88-95 | sending one more event changes the final map by that event only |
| SnapshotWatchdog.DoKeepsInv | scripts/cua-driver/snapshot-watchdog.rs:52-97 | every step of every thread keeps: queued events applied to the monitor's map give exactly the live guards and their deadlines |
| SnapshotWatchdog.NoFalseExpiry | scripts/cua-driver/snapshot-watchdog.rs:72-79 | the expiry action runs only with an empty channel and some live guard overdue |
| SnapshotWatchdog.DeadlineIsStampPlusLimit | scripts/cua-driver/snapshot-watchdog.rs:55 | every guard's deadline is the clock when it was stamped plus its limit |
| SnapshotWatchdog.ExpiryMeansOverrun | scripts/cua-driver/snapshot-watchdog.rs:52-79 | the expiry action runs only when some live guard was stamped at least its limit ago |
| SnapshotWatchdog.LiveIsStartedAndKept | scripts/cua-driver/snapshot-watchdog.rs:52-65 | the live guards are exactly those started while the monitor ran and not dropped since |
| SnapshotWatchdog.SendersMove | scripts/cua-driver/snapshot-watchdog.rs:49-65 | how each step changes the number of sender clones: a guard's is released with it |
| SnapshotWatchdog.SettleReturns | scripts/cua-driver/snapshot-watchdog.rs:80-85 | the monitor, left to run, returns if and only if no sender is left |
| SnapshotWatchdog.NoSilentReturn | scripts/cua-driver/snapshot-watchdog.rs:80-85 | the monitor returns only if no guard is live or under construction and its map is empty |
| SnapshotWatchdog.WakeUpNeverPassesLiveGuard | scripts/cua-driver/snapshot-watchdog.rs:70-75 | a live guard's start is still queued, or the wake-up is at most its deadline plus the delay of entering the wait |
| SnapshotWatchdog.SettleFires | scripts/cua-driver/snapshot-watchdog.rs:67-97 | from any consistent state the monitor, left to run, fires if and only if a guard is overdue and it is not in a late wait |
| SnapshotWatchdog.OverdueGuardIsNeverHidden | scripts/cua-driver/snapshot-watchdog.rs:61-97 | so from every reachable state |
| SnapshotWatchdog.PromptWaitIsExact | scripts/cua-driver/snapshot-watchdog.rs:72-75 | without a delay between the two clock readings it fires if and only if a guard is overdue |
| SnapshotWatchdog.LateEntryPostponesExpiry | scripts/cua-driver/snapshot-watchdog.rs:74 | a run in which a guard is overdue at 10 and the monitor sleeps until 15 |
| SnapshotWatchdog.MinDeadline | scripts/cua-driver/snapshot-watchdog.rs:72 | the minimum of the pending deadlines |
| SnapshotWatchdog.Monitor | scripts/cua-driver/snapshot-watchdog.rs:67-97 | the loop fires, stops or waits exactly on the first report that says so; each receive is armed with the earliest deadline of the events before it, or with none if no guard is pending |
| GatewayRules.FatesConserve | scripts/hermes/gateway_conformance.py:137-143 | sorting frames into kept and declined loses and duplicates none, and declines exactly the ones it should |
| GatewayRules.KeptStaysOrdered | scripts/hermes/gateway_conformance.py:164-178 | the kept frames stay in arrival order |
| GatewayTheorems.ScanExplained | scripts/hermes/gateway_conformance.py:161-178 | what `wait` went through: frames passed over, the one in hand, the rest, together exactly the deferred and the newly arrived ones in order |
| GatewayTheorems.ScanBound | scripts/hermes/gateway_conformance.py:173-178 | the deque never exceeds 512 frames, through the `finally` too |
| GatewayTheorems.AwaitReplyExplained | scripts/hermes/gateway_conformance.py:151-159 | the same account of `request` |
| GatewayTheorems.WaitExplained | scripts/hermes/gateway_conformance.py:161-178 | every outcome of `wait` has its own reason in the frame in hand; it gives up for want of a frame only after passing over every frame deferred or arrived |
| GatewayTheorems.RequestExplained | scripts/hermes/gateway_conformance.py:145-159 | `request` fails to send exactly if its first write fails; otherwise the last frame taken decides it: a result, an RPC error, no result, an undeliverable refusal, a full backlog, or no frame |
| GatewayTheorems.FailedRequestSawNoReply | scripts/hermes/gateway_conformance.py:151-159 | a failing `request` has seen no frame that answers it with a result and no error |
| GatewayTheorems.OrdinaryReplyIsReturned | scripts/hermes/gateway_conformance.py:153-158 | a frame without a method that carries the number sent and a result is returned |
| GatewayTheorems.OrdinaryFrames | scripts/hermes/gateway_conformance.py:137-143 | server requests are declined unless they ask for clarification, approval or permission during `request`; notifications are deferred |
| GatewayTheorems.WaitReturnsFirstMatch | scripts/hermes/gateway_conformance.py:161-178 | `wait` returns the first match in arrival order; frames before it stay deferred in order, except the requests it declines |
| GatewayTheorems.FailedWaitSawNoMatch | scripts/hermes/gateway_conformance.py:166-178 | a failing `wait` has seen no match and puts back everything but what it declined and the one frame in hand |
| GatewayTheorems.RequestReturnsOwnReply | scripts/hermes/gateway_conformance.py:145-158 | the reply returned arrived during the call and carries that call's id |
| GatewayTheorems.ForeignRequestIsDeclined | scripts/hermes/gateway_conformance.py:137-143 | a request outside the allowed methods that arrives during `request` is never deferred: it is declined, or it is the frame in hand when the call raises |
| GatewayTheorems.PerformKeepsInv | scripts/hermes/gateway_conformance.py:145-178 | each call conserves frames, keeps order and bound, and drops at most one frame, only when it raises |
| GatewayTheorems.RunConserves | scripts/hermes/gateway_conformance.py:128-178 | so does every sequence of calls and failures |
| GatewayTheorems.EveryFrameHasOnePlace | scripts/hermes/gateway_conformance.py:128-178 | every frame received is exactly once deferred, returned, declined or dropped |
| GatewayTheorems.WaitOverflowIsOnlyNew | scripts/hermes/gateway_conformance.py:173-178 | `wait` overflows only on a frame that arrived during it, with all 512 kept frames put back |
| GatewayPeer.Client.Receive | scripts/hermes/gateway_conformance.py:116-126 | the next frame, or nothing when there is none to come |
| GatewayPeer.Client.Route | scripts/hermes/gateway_conformance.py:128-143 | declines or defers, or fails for the right reason without losing the deque |
| GatewayPeer.Client.Request | scripts/hermes/gateway_conformance.py:145-159 | the loop in place has exactly the specified outcome and state |
| GatewayPeer.Client.Wait | scripts/hermes/gateway_conformance.py:161-178 | likewise, with the `finally` that rejoins the two deques |
| GatewayReader.ReadEndIsCapped | scripts/hermes/gateway_conformance.py:78-84 | a bounded read returns the whole line if it fits and exactly the limit otherwise |
| GatewayReader.KindsOfLines | scripts/hermes/gateway_conformance.py:79-95 | a line is too long beyond 262144 bytes, blank if all its bytes are white space, and otherwise what decoding makes of it |
| GatewayReader.ScriptIsIdeal | scripts/hermes/gateway_conformance.py:75-95 | reading in bounded pieces hands over what cutting the whole stream into lines first would |
| GatewayReader.DoKeepsInv | scripts/hermes/gateway_conformance.py:67-97 | every interleaving of reader and caller keeps the queue bounded and what was handed over faithful to the stream |
| GatewayReader.TakenIsPrefixOfStream | scripts/hermes/gateway_conformance.py:56-97 | at most 32 entries queued; frames taken are a prefix of the stream's valid lines, none too long; an error marker is unique and last |
| GatewayReader.ReadLine | scripts/hermes/gateway_conformance.py:78 | the bounded read, byte by byte |
| GatewayReader.MarkerUnlessKilled | scripts/hermes/gateway_conformance.py:76-97 | an error marker follows exactly unless a line that kills the thread comes before any other fault |
| GatewayReader.IdealIsGoodUpToFault | scripts/hermes/gateway_conformance.py:77-95 | what is handed over is exactly the good lines before the first that does not pass, then its marker, if it leaves one |
| GatewayReader.AllIsDelivered | scripts/hermes/gateway_conformance.py:67-97 | from every reachable state in which the reader still reads, reader and caller left to run deliver exactly that |
| GatewayReader.ReadStdout | scripts/hermes/gateway_conformance.py:75-97 | the reader's loop hands over the valid lines before the first faulty one, then one marker unless that line kills it |
| GatewayEndToEnd.RunKeepsFrames | scripts/hermes/gateway_conformance.py:116-178 | no sequence of calls loses, invents or reorders frames between queue and client |
| GatewayEndToEnd.HistoryIsStreamPrefix | scripts/hermes/gateway_conformance.py:56-178 | in every interleaving, with any timeouts and calls, the frames the client has received are the first of the valid lines before the first faulty line of the byte stream, in order, none left out |
| LabOwnership.DoKeepsLock | scripts/reliability/lab.py:391-394 | one process at a time is past the lock, and what it has read of the state file stays true |
| LabOwnership.StepMovesLedger | scripts/reliability/lab.py:62-67 | a step opens a fresh lab when none is open, closes the open one, or changes no owner |
| LabOwnership.InvAlways | scripts/reliability/lab.py:144-212 | all of this in every reachable state |
| LabOwnership.ExpiryNeverCrossesLabs | scripts/reliability/expire.py:13-19 | an expiry process tears down only its own lab |
| LabOwnership.ClosedAtMostOnce | scripts/reliability/lab.py:202-212 | no lab is closed twice, and only created ones are |
| LabOwnership.CreatedOnlyWhenNoneIsOpen | scripts/reliability/lab.py:147-162 | a lab is created only when none is recorded as open and all earlier ones are closed |
| LabOwnership.RecordKeepsItsOwner | scripts/reliability/lab.py:212 | the record disappears only through the rename that closes its lab, and never changes owner |
| LabOwnership.ExpiryDoesNotStopItself | scripts/reliability/expire.py:17-19 | an expiry process that tears down does not signal itself |
| LabOwnership.CrashUnblocks | scripts/reliability/lab.py:391-394 | after a crash of the lock's holder the next command gets past the lock |
| LabOwnership.Shell.Up | scripts/reliability/lab.py:144-194 | run alone, `up` creates the lab, starts its processes and leaves its expiry process polling; a failing step takes it down again; a recorded lab or a held lock makes it change nothing |
| LabOwnership.Shell.Refresh | scripts/reliability/lab.py:317-335 | run alone, `refresh` replaces relay and daemon, keeps the other records, and adds an expiry process if there is none |
| LabOwnership.Shell.Down | scripts/reliability/lab.py:202-212 | run alone, `down` tears down and closes exactly the recorded lab and ends its expiry process; without a record it does nothing |
| LabOwnership.Shell.Expire | scripts/reliability/expire.py:8-19 | run alone, the expiry process closes the recorded lab if it is its own and otherwise changes nothing |
| Utf8.DecodeEncode | ios-native-pilot/Shared/TaskActivity.swift:54 | decoding UTF-8 undoes encoding |
| Utf8.EncodeDecode | ios-native-pilot/Shared/TaskActivity.swift:54 | nothing but encodings decodes |
| TaskLink.UnescapeEscape | ios-native-pilot/Shared/TaskActivity.swift:42-43 | percent-decoding undoes percent-encoding (section 2.1 of RFC 3986), whichever query characters are left alone |
| TaskLink.ParsePrintQuery | ios-native-pilot/Shared/TaskActivity.swift:42-51 | a printed query parses back to its items |
| TaskLink.ParsesExactlyRearrangements | ios-native-pilot/Shared/TaskActivity.swift:48-60 | items parse to given attributes if and only if those are valid and the items are a rearrangement of their three |
| TaskLink.RoundTrip | ios-native-pilot/Shared/TaskActivity.swift:39-60 | parsing a printed link gives the attributes back if and only if they are valid |
| TaskLink.ReorderedLinkParses | ios-native-pilot/Shared/TaskActivity.swift:48-60 | a link with its items in another order parses to the same attributes |
| TaskLink.ParsedIsValid | ios-native-pilot/Shared/TaskActivity.swift:48-60 | whatever the URL, attributes that come out of it are valid and its query holds exactly their items |
| TaskLink.ValidMeans | ios-native-pilot/Shared/TaskActivity.swift:54-58 | attributes are valid exactly if the pairing is 64 hexadecimal digits and the others take 1 to 512 bytes |
| TaskLink.ParsesExactly | ios-native-pilot/Shared/TaskActivity.swift:48-60 | a URL parses to given attributes if and only if scheme and host are those of a task link, the attributes are valid, and the query's items are a rearrangement of theirs |
| TaskLink.PrintedLink | ios-native-pilot/Shared/TaskActivity.swift:39-44 | the printed link: scheme, host, and the three named items with their values percent-encoded |
| HealthProbe.InvAlways | scripts/desktop-startup-profile.py:157-207 | in every interleaving results, first successes and answers stay consistent |
| HealthProbe.ReadingConcernsAskedProcess | scripts/desktop-startup-profile.py:204-207 | a reading is about the process asked for; its first success is not later than itself, nor it than the call |
| HealthProbe.FirstSuccessIsStable | scripts/desktop-startup-profile.py:189-191 | all readings of a process name the same first success, and later readings are not older |
| HealthProbe.FirstSuccessNeverChanges | scripts/desktop-startup-profile.py:189 | once set, the first success of a process stays the same over every continuation of a run |
| HealthProbe.FirstSuccessIsFirst | scripts/desktop-startup-profile.py:186-191 | the first success recorded is the time of the first probe that succeeded while its process was wanted; there is none exactly if no probe did |
| HealthProbe.WantedProbeIsReported | scripts/desktop-startup-profile.py:157-207 | a process that stays wanted while it is probed is reported if it answers, and cleared if it then fails |
| HealthProbe.LatestIsLastWanted | scripts/desktop-startup-profile.py:157-201 | in every interleaving the latest result is what the last probe found that ended while its process was wanted; there is none exactly if that probe failed or none ended so |
| HealthProbe.ReadingHasOrigin | scripts/desktop-startup-profile.py:186-207 | every reading returned was found by such a probe of the process asked for, ended before the call |
| HealthProbe.ProbeShowsOnlyIfWanted | scripts/desktop-startup-profile.py:186-201 | the locked section that ends a probe shows its result if the process is still the wanted one and otherwise neither publishes nor clears |
| HealthProbe.SharedProbe.Succeeded | scripts/desktop-startup-profile.py:186-191 | the locked section does the specified step |
| HealthProbe.SharedProbe.Failed | scripts/desktop-startup-profile.py:199-201 | likewise |
| HealthProbe.SharedProbe.ReadFor | scripts/desktop-startup-profile.py:204-207 | likewise, with the specified answer |
| StartupSampler.PeaksAreMaxima | scripts/desktop-startup-profile.py:300-301 | the recomputed peaks are bounds of all recorded readings, and attained |
| StartupSampler.UpdateAgrees | scripts/desktop-startup-profile.py:281-301 | updating a process's figures online agrees with recomputing them all from the longer record |
| StartupSampler.ReportKeepsEventsOk | scripts/desktop-startup-profile.py:262-274 | one more event keeps appearances alternating, and health and markers reported once |
| StartupSampler.Sampler.CompareMains | scripts/desktop-startup-profile.py:262-268 | a process is seen exactly if its last event is an appearance; exactly one event for each that came or went |
| StartupSampler.SampledAgrees | scripts/desktop-startup-profile.py:275-302 | a cycle records exactly its successful looks, in order; the figures agree with the record, and every percentage is the CPU time used since the last look at that process per time passed |
| StartupSampler.SampledFailsOnClash | scripts/desktop-startup-profile.py:295-296 | the division fails if and only if a look has the same clock reading as the last look at its process |
| StartupSampler.Sampler.Sample | scripts/desktop-startup-profile.py:275-302 | the loop in place records, updates and fails exactly as specified |
| StartupSampler.ReportedExactly | scripts/desktop-startup-profile.py:310-316 | the times reported are those of the UI-ready markers not before the start, up to the first bad line |
| StartupSampler.Sampler.ReadMarkers | scripts/desktop-startup-profile.py:308-318 | the marker times reported are those of the file up to its first bad line, each once; the program ends exactly if that line is no object, too deep, or has a time too large to convert |
| StartupSampler.Sampler.Cycle | scripts/desktop-startup-profile.py:258-318 | all of this after every cycle, unless the cycle ends the program, and exactly when it does |
| LatencyReport.AtMostOfPermutation | scripts/reliability/report.py:13 | how many samples a value covers does not depend on their order |
| LatencyReport.RankInSorted | scripts/reliability/report.py:13 | in a sorted list the element at index k is the least number covering more than k elements |
| LatencyReport.P95IsNearestRank | scripts/reliability/report.py:13 | the reported value is a sample, and a number covers at least 95% of the samples if and only if it is not below it |
| LatencyReport.CollectJoins | scripts/reliability/report.py:12 | every `rpc.samples` step contributes all its samples, in order, and no other step any |
| LatencyReport.PercentileOfRun | scripts/reliability/report.py:12-13 | a run reports no figure exactly if it has no samples, otherwise the nearest-rank p95 of all of them |

## Left out

Host:

- JSON text and UTF-8 decoding: a line parses as an oracle says, and input is a sequence of characters. Request ids are integers or absent.
- What serialising a reply throws, if it does, is a parameter of each turn; failures of `Deno.stdout.write`, console output and diagnostics are not modelled.
- Context calls made after a callback has settled, and an activation still running when it fails: `ReusedRuntimeIsFresh` and the storage lemmas assume callbacks finish their calls first.
- Promises a callback leaves behind: a refused `threads.list`, `automations.list` or `automations.apply` that nobody awaits is an unhandled rejection, which ends a Deno process.
- Extensions that reach past their context: ending the process, writing to standard output, changing built-in objects. Registered handlers are functions, and an error's `message` that is no string has no `slice` method.
- Values are immutable: an extension that changes an object after publishing or storing it is not modelled. The order of storage keys and the special key `__proto__` are not either.
- The 1024-character cut of error messages counts characters, where JavaScript counts UTF-16 code units.
- Callbacks settle after some number of operations, whatever the answers; one that never settles hangs the host. Between requests the extension's own memory appears only in what its handlers do: each request has its own `Calls`.
- Callbacks do not dispatch events themselves, since the context offers no way to do so.

Watchdog:

- 64-bit wrap-around of ids, `mem::forget` (a guard that stays live), a monitor thread that cannot be started, and relaxed memory effects.
- `for_tool`: only its result, one sender clone per guard, appears.

Client:

- Starting, closing and killing the gateway process, draining its standard error, and the text of errors.
- Time: whether a receive times out is part of the input. Predicates are functions of the frame and may raise; they have no side effects.
- NaN as a frame id; errors of the JSON decoder other than those for malformed text, undecodable bytes and too deep nesting.
- `answer` and the scenarios built on the client: they add no state.
- GatewayPeer.Client.Send: whether a write succeeds, the outgoing size limit included, is part of the input.

Lab:

- Docker, Toxiproxy, simulators and the managed servers: starting and stopping them are steps that always succeed or are cut short by a crash.
- Owner names are assumed fresh, where the source draws 32 random bits.
- LabOwnership.ExpiryDoesNotStopItself: a recorded process id is signalled only if it is still an expiry process of the same lab; the command-line comparison behind this is not modelled.
- Commands that only read the state, and the fields of the state other than owner and processes.

Deep links:

- Dividing a URL into scheme, host and query. An item name that does not decode is treated as the empty name.
- The 64 digits of a pairing are counted as Unicode scalars; combining characters cannot follow a hex digit unnoticed, since every scalar must be one.

Sampler and report:

- Floating point: figures and percentages are real numbers, 0.95 is 19/20.
- Sockets, ports and process inspection; process ids used again by another process within one probe.
- Stack samples, writing the report file, the totals of a sample, and the order in which set members are reported.
- A JSON boolean as a marker time, which Python counts as an integer.
- The text of the report's rows.

Everything else in the repository (the native app, the daemon and relay, build and lint configuration, fixtures, the
campaign runner and the live scenarios) is not part of this model.
