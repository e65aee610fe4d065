# A verified model of the libmihomo-android bridge

The bridge lets an Android app drive the mihomo proxy core: it tests proxy groups, runs a
TUN device, hands results and events to the JVM through JNI references, and keeps logs and
a DNS history. This project models the parts of it that are hard to get right and proves
what they promise. `dafny verify dfyconfig.toml` checks everything.

Sequential code keeps its form: `Order`, `Fastest`, `Seat`, `Leaf`, the DNS log, the log
sink, the action replies and the `/proc/net` lookup are methods and classes with the
source's loops, proved against specifications. Concurrent code is a state machine: a
program counter per goroutine or call, one transition per statement that touches shared
state, and theorems over every run, that is, every finite interleaving from the initial
state.

| module | what it models |
|---|---|
| `Options`, `Graphs`, `Gathering` | optional values; nested groups as a graph; sums over workers |
| `GroupOrder` | the depth-first order of the groups to test, on any graph, cyclic or not |
| `GroupPick` | the fastest member, seating it without a pin, following picks to a node |
| `GroupRun` | the concurrent test: a worker per group, a task per member, each pick read in a step of its own |
| `GroupTest` | the concurrent test against testing the groups one by one |
| `TestOutcome` | what a finished test has picked and reported, from the groups, the picks and the probes alone |
| `Pins` | a user's choices against re-seats, under `pickMu` |
| `UrlTestSlots` | delay tests under the slot semaphore, with the watchdog |
| `TunFence` | starts, failed starts, stops and hot paths of TUN handlers: two locks, a semaphore of four, a closed flag |
| `TunEffects` | what those starts, stops and hot paths get done |
| `Actions`, `RefLedger` | one reply per action; who owns each JNI reference |
| `LogBus`, `LogSink` | the bounded drop-oldest bus; the rotating file |
| `DnsHistory` | the DNS ring buffer against its plain history |
| `Resubscribe` | the handover protocol of the connections ticker and of the log fan-out |
| `ProcHeader`, `ProcNet` | finding the columns of a `/proc/net` table, and the owner of a socket in it |

## What the model takes as given

- Steps are atomic and sequentially consistent. Any number of threads, calls, producers and
  groups is allowed; capacities, file counts and size limits are parameters.
- A delay test answers by the member, by where the picks lead from it and by the URL; the
  alive flag by the member and the URL. For the comparison with testing one by one the
  graph is acyclic, every pick is a member of its group or empty, and the user pins
  nothing meanwhile (`Pins` covers that).
- Answers of the operating system and of mihomo (whether a file opens, a device starts, a
  document parses, a rename's source exists, how far a buffer spills) are parameters that
  may take any value.
- Protect and resolve upcalls and the release of a reference do not call back into the
  functions modelled here.
- The sink keeps at least two files; the source fixes five.
- Flushing the sink's buffer, when the sink is flushed, closed or rotated, reaches the file.
  The source discards the error of a flush that fails. A write that fails is modelled.

## Where the code differs from what it says

- `Fastest` uses the empty name for "none yet", so a fastest member with an empty name is
  lost (`GroupPick.FastestLosesEmptyName`); `GroupPick.FastestExactly` says exactly when the
  documented answer comes out.
- `dispatch` says that it drops the oldest event. With two producers or more it can drop
  the event it was given (`LogBus.SecondProducerLosesItsNewest`);
  `LogBus.OwnEventKeptExactly` says exactly when it cannot.
- An action document that does not parse leaks its callback, and so does a well-formed one
  whose method is "message" (lib.go:198). `RefLedger.InvocationReleasesExactly` says exactly
  which finished invocations release their callback; `RefLedger.LeaksItsCallback` gives the
  failing runs.
- `setLogFilePath` reports success for the path that is set already, also when a failure
  has closed the sink, which then stays closed; `LogSink.Sink.SetPath` says exactly when a
  success leaves the sink open, and `LogSink.SuccessOnAClosedSink` gives a failing run.
- The `/proc/net` discovery merges a pair of columns by having seen both, not by their
  standing side by side (`ProcHeader.SeparatedPairMisleads`);
  `ProcHeader.DiscoveredExactly` says exactly when that is right.

## Model

| member | source | states |
|---|---|---|
| GroupOrder.Order | src/main/jni/core/grouptest/grouptest.go:9-27 | lists exactly the names reachable from the roots, each once, a nested group before its parent unless it reaches the parent; terminates on any graph |
| GroupOrder.Visitor.Visit | src/main/jni/core/grouptest/grouptest.go:13-22 | one visit of the recursive closure, on `seen` and `out` in place, is the depth-first walk of the specification |
| GroupOrder.Visitor.constructor | src/main/jni/core/grouptest/grouptest.go:10-11 | a walk starts with nothing seen and nothing listed |
| GroupOrder.VisitKeeps | src/main/jni/core/grouptest/grouptest.go:13-22 | a visit lists its group and what it reaches, leaves open exactly the ancestors that were open, and keeps the children-first order |
| GroupOrder.VisitAllKeeps | src/main/jni/core/grouptest/grouptest.go:18-25 | the same of visiting several groups in turn |
| GroupOrder.OrderIsTestOrder | src/main/jni/core/grouptest/grouptest.go:7-27 | the order promised, for every finite graph and all roots |
| GroupOrder.AcyclicListsChildrenBefore | src/main/jni/core/grouptest/grouptest.go:7-8 | without cycles every nested group comes strictly before its parent |
| GroupPick.Fastest | src/main/jni/core/grouptest/grouptest.go:55-66 | the first member of least positive delay, and false exactly if all failed, when no member has an empty name |
| GroupPick.FirstFastestLeads | src/main/jni/core/grouptest/grouptest.go:59-64 | the loop ends on the first fastest member |
| GroupPick.SomeFirstFastest | src/main/jni/core/grouptest/grouptest.go:55-56 | if some member answered there is a first fastest one |
| GroupPick.FastestExactly | src/main/jni/core/grouptest/grouptest.go:55-66 | the documented answer comes out exactly if the first fastest member's name is not empty |
| GroupPick.FastestLosesEmptyName | src/main/jni/core/grouptest/grouptest.go:58-65 | a concrete input on which the documented answer does not come out |
| GroupPick.UrlTest.ForceSet | src/main/jni/core/grouptest/grouptest.go:68-72 | a group's pin is what was set |
| GroupPick.UrlTest.Now | src/main/jni/core/grouptest/grouptest.go:68-76 | reading a pinned group adopts its pin as the pick; unpinned, the last pick stays |
| GroupPick.Seat | src/main/jni/core/grouptest/grouptest.go:74-81 | the name becomes the pick and the group is left unpinned |
| GroupPick.Leaf | src/main/jni/core/grouptest/grouptest.go:83-101 | the loop with its visited set ends, with the result of the walk down the picks |
| GroupPick.LeafFindsTheLanding | src/main/jni/core/grouptest/grouptest.go:83-101 | succeeds exactly if plain iteration from a group reaches a node, and gives that node and the last group's URL |
| GroupPick.LeafFailsExactly | src/main/jni/core/grouptest/grouptest.go:83-101 | on a group, fails exactly if the iteration meets a group without a pick or never leaves the groups |
| GroupPick.LeafOfPick | src/main/jni/core/grouptest/grouptest.go:83-101 | a group resolves to the same node and URL as the group it picks |
| GroupRun.StepShape | src/main/jni/core/grouptest/grouptest.go:32-53 | every step keeps: closed channels are the finished workers' own, and a task past its await awaited a closed channel or a group not earlier in the order |
| GroupRun.RunShape | src/main/jni/core/grouptest/grouptest.go:32-53 | the same of every reachable state |
| GroupRun.RunNeverStuck | src/main/jni/core/grouptest/grouptest.go:29-53 | whatever the order and the awaits, some worker can go on until all are done |
| GroupRun.UnfinishedGoesOn | src/main/jni/core/grouptest/grouptest.go:45-49 | the earliest unfinished worker is never blocked |
| GroupRun.RunIsBounded | src/main/jni/core/grouptest/grouptest.go:41-52 | every step lowers the pending work, so every run ends |
| GroupRun.RunClosesOnce | src/main/jni/core/grouptest/grouptest.go:33-44 | a finished run has closed each worker's channel, and none twice exactly if the order has no duplicates |
| GroupRun.EarlyTestOnlyOnCycles | src/main/jni/core/groups_delay.go:131-150 | on any graph, in every run, a parent measures a nested group before it has re-picked only if that group reaches the parent |
| GroupRun.ParentsWaitWithoutCycles | src/main/jni/core/groups_delay.go:28-30 | without cycles a parent never measures a nested group before it has re-picked |
| GroupRun.OthersStartAtOnce | src/main/jni/core/groups_delay.go:131-147 | a member that is no group earlier in the order, or a finished one, is not waited for |
| GroupRun.GraphEdges | src/main/jni/core/groups_delay.go:42-55 | the graph handed to `Order` nests exactly the members that are groups |
| GroupTest.FollowAgrees | src/main/jni/core/groups_delay.go:62-68 | a walk depends only on the picks of the groups reachable from where it stands |
| GroupTest.LeafAlreadyFinal | src/main/jni/core/groups_delay.go:103-109 | one by one, every pick a leaf walk reads is final already when it is read |
| GroupTest.FinalPick | src/main/jni/core/groups_delay.go:95-102 | a tested group's final pick is the one its delays under the final picks give; every other pick is unchanged |
| GroupTest.ReportAlreadyFinal | src/main/jni/core/groups_delay.go:88-112 | what a group reports in its turn is what it would report once every pick is final |
| GroupTest.SequentialReports | src/main/jni/core/groups_delay.go:110-118 | the one-by-one results are the reports of all groups under the final picks |
| GroupTest.StepSettles | src/main/jni/core/groups_delay.go:72-115 | every step of a concurrent test keeps: each walk ends where it ends under the final picks, each measured delay is final, each group has its first or its final pick |
| GroupTest.RunSettles | src/main/jni/core/groups_delay.go:72-115 | the same of every reachable state |
| GroupTest.EveryInterleavingAgrees | src/main/jni/core/groups_delay.go:28-121 | on an acyclic graph every interleaving ends with the picks and the multiset of reported delays, leaf rows included, of testing one by one |
| TestOutcome.ResolvesToLeaf | src/main/jni/core/groups_delay.go:62-68 | a member's leaf is where iterating the picks from it lands, with the last group's URL, and none if it is a node or never lands |
| TestOutcome.UnpinnedEndOnFastest | src/main/jni/core/groups_delay.go:95-102 | after any interleaving an unpinned url-test group that was reached is on the first member of least positive delay, a delay being the probe's answer under the picks left, or -1 if not alive |
| TestOutcome.OthersKeepTheirPick | src/main/jni/core/groups_delay.go:95-102 | every group that is pinned, not url-test, not reached or without an answering member keeps its pick |
| TestOutcome.ResultsAreTheReports | src/main/jni/core/groups_delay.go:81-118 | the results of any interleaving are, as a multiset, exactly a row for each member of each reached group under that group's URL or the default one, and a row for the node each landing member lands on, with the same delay |
| TestOutcome.EveryGroupHasAReport | src/main/jni/core/groups_delay.go:81-112 | under any picks there is exactly one such report of each group |
| Pins.RunInvariant | src/main/jni/core/proxies.go:56-75 | in every state the holder of `pickMu` is in the middle of at most its own group, and every other group is pinned as last chosen |
| Pins.PinSurvivesTests | src/main/jni/core/proxies.go:56-75 | whenever `pickMu` is free, every group's pin is the user's last successful choice |
| Pins.ReseatTargetsFastest | src/main/jni/core/groups_delay.go:95-102 | a re-seat happens only on an unpinned url-test group, and leaves it unpinned on the first of its fastest members |
| Pins.PinnedGroupIsLeftAlone | src/main/jni/core/groups_delay.go:94-102 | no step of a test changes a group the user has pinned, a pin set during the test included, a group that is not url-test, or one it does not test |
| Pins.ChoiceTakesEffect | src/main/jni/core/proxies.go:59-75 | an accepted choice is pinned and stored before the lock is released; a refused one changes nothing |
| Pins.TestSeatsUnpinned | src/main/jni/core/groups_delay.go:95-102 | an unpinned url-test group with an answering member does get its fastest member |
| Pins.ChoiceWasMade | src/main/jni/core/proxies.go:59-75 | a choice that has returned, of a member or none in a known selectable group, was pinned and stored while it held the lock |
| Pins.TestWasSeated | src/main/jni/core/groups_delay.go:95-102 | a test that has returned had, while it held the lock, its url-test group pinned by the user or on the first of its fastest members |
| Pins.NeverStuck | src/main/jni/core/proxies.go:56-61 | while a call has not returned some call can go on |
| UrlTestSlots.RunInvariant | src/main/jni/core/proxies.go:88-122 | slots taken are the tests in flight, and every test's caller, goroutine and channel agree, in every state |
| UrlTestSlots.WithinSlots | src/main/jni/core/proxies.go:21-24 | URL tests in flight never exceed the capacity and the semaphore counts them exactly |
| UrlTestSlots.SlotReleasedOnce | src/main/jni/core/proxies.go:106-111 | a slot is released at most once, the late result send never blocks, and the release follows, also after the watchdog has returned |
| UrlTestSlots.SlotsComeBack | src/main/jni/core/proxies.go:107-111 | once no goroutine is in flight every slot is free again |
| UrlTestSlots.AnswerIsDelay | src/main/jni/core/proxies.go:113-121 | before its deadline a caller answers exactly its own test's good delay, or -1 for a bad one; without a slot it answers -1; it need not wait once the result is sent or the deadline past |
| UrlTestSlots.ReplyIsWhatCameBack | src/main/jni/core/proxies.go:109-110 | the result a test sends is the one URLTest returned |
| UrlTestSlots.PastDeadlineAnswersNothing | src/main/jni/core/proxies.go:115-120 | a caller still waiting at its deadline answers -1, whatever comes back |
| UrlTestSlots.FreeSlotIsGiven | src/main/jni/core/proxies.go:94-98 | a waiting caller is let in whenever fewer tests are in flight than there are slots |
| TunFence.RunInvariant | src/main/jni/core/lib.go:45-184 | locks, semaphores, callbacks, upcalls and hooks agree with where every thread stands, in every state |
| TunFence.UpcallsOnLiveCallbacks | src/main/jni/core/lib.go:90-117 | no protect or resolve upcall runs on a released callback, through stale hooks included |
| TunFence.HookFindsHandler | src/main/jni/core/lib.go:119-142 | a hook, however stale, finds a handler to call |
| TunFence.UpcallsWithinCapacity | src/main/jni/core/lib.go:32-36 | at most four upcalls use one callback at a time |
| TunFence.ReleasedOnce | src/main/jni/core/lib.go:77-88 | each start's callback is released and its listener closed at most once, and a callback not yet released is still held by its start or its handler |
| TunFence.HooksWhenUnlocked | src/main/jni/core/lib.go:119-184 | whenever `tunLock` is free the hooks are installed exactly if the current handler exists, is open and has a listener |
| TunFence.ClosedForever | src/main/jni/core/lib.go:77-78 | a closed handler is never open again |
| TunFence.NoUpcallAfterClose | src/main/jni/core/lib.go:71-75 | once a handler is closed no upcall on it is in flight, then or later |
| TunFence.LocksTakenInOrder | src/main/jni/core/lib.go:56-75 | locks are only ever taken in the order `tunLock`, `runLock`, semaphore |
| TunFence.NeverDeadlocked | src/main/jni/core/lib.go:56-184 | in every reachable state with an unfinished thread some thread can go on |
| TunFence.RunIsBounded | src/main/jni/core/lib.go:56-184 | every run is bounded by its threads' statements, so every start, stop and hot path finishes |
| TunEffects.RunEffects | src/main/jni/core/lib.go:56-184 | in every state, every handler but the current one is torn down, and the current one is as far along as the holder of `tunLock` |
| TunEffects.StopLeavesNothingOpen | src/main/jni/core/lib.go:156-166 | when a stop, or a start without a usable fd, returns, no handler is open, no hook is in and every handler's callback is released |
| TunEffects.StopClosesWhatItFinds | src/main/jni/core/lib.go:71-88 | whatever handler there is when a stop or start is called is afterwards closed, its listener too, its callback released |
| TunEffects.StartLeavesWhatOpeningAnswered | src/main/jni/core/lib.go:56-69 | an opening that succeeds leaves the start's own handler current and open, with listener, callback and hooks; one that fails leaves it torn down, its callback released |
| TunEffects.StartTriesToOpen | src/main/jni/core/lib.go:56-69 | a start with a usable fd never returns without having tried to open its device |
| TunEffects.FencedUpcalls | src/main/jni/core/lib.go:90-97 | a hot path that holds a unit of an open handler goes to its upcall |
| TunEffects.HotPathUpcalls | src/main/jni/core/lib.go:90-142 | a hot path makes its upcall unless it found no hook or its handler closed |
| TunEffects.WaitsOnlyForHolders | src/main/jni/core/lib.go:56-75 | a thread waits only while others hold its lock, or the semaphore it needs beyond what is left |
| Actions.ActionResult.Send | src/main/jni/core/lib.go:194-206 | one result goes out and its callback is released once, also when it cannot be marshalled; not on the message channel |
| Actions.ActionResult.Success | src/main/jni/core/action.go:31-35 | one result with code 0 |
| Actions.ActionResult.Error | src/main/jni/core/action.go:37-41 | one result with code -1 |
| Actions.ActionResult.ParseString | src/main/jni/core/action.go:43-53 | false exactly for data that is no string, and then the error is already sent |
| Actions.ActionResult.ParseLevel | src/main/jni/core/action.go:55-72 | false exactly for data that is neither a number nor a known level, and then the error is already sent |
| Actions.ActionResult.HandleAction | src/main/jni/core/action.go:87-384 | every branch, unknown methods included, sends exactly one result, with an error code exactly when the action is refused |
| RefLedger.RunInvariant | src/main/jni/core/lib.go:208-301 | every reference is in the place its own call says, in every state |
| RefLedger.DeliveredToLiveReferences | src/main/jni/core/lib.go:208-301 | a message is delivered only to the current, unreleased listener, a reply, also one to a malformed document, only to an unreleased callback |
| RefLedger.LiveReferences | src/main/jni/core/lib.go:197-301 | the unreleased references are exactly those of pending actions and setups, of incoming, current and outgoing listeners, and the leaked ones, each for one reason; none is released twice |
| RefLedger.LedgerBalances | src/main/jni/core/lib.go:197-301 | references created minus released is the sum of those six |
| RefLedger.InvocationReleasesExactly | src/main/jni/core/lib.go:197-262 | a finished invocation or setup has released its callback exactly once, but never if its document does not parse or its method is "message" |
| RefLedger.EveryCallTakesEffect | src/main/jni/core/lib.go:208-301 | no call is done before its effect: every invocation and setup was replied to, every listener put in place, every message that marshals handed to the listener there was |
| RefLedger.NeverStuck | src/main/jni/core/lib.go:264-291 | while a call is not done some call can go on |
| RefLedger.MessagesShareTheLock | src/main/jni/core/lib.go:289-291 | a message waits for no other message |
| RefLedger.LeaksItsCallback | src/main/jni/core/lib.go:197-223 | a run in which a malformed document, or one with method "message", ends with its callback unreleased |
| RefLedger.TunLedgerBalances | src/main/jni/core/lib.go:168-184 | callbacks brought by TUN starts minus released is the starting ones plus those of handlers |
| RefLedger.WholeLedgerBalances | src/main/jni/core/lib.go:168-301 | over the references of both kinds, created minus released is the sum of all their holders and the leaks |
| LogBus.RunInvariant | src/main/jni/core/log_bridge.go:128-173 | the queue's bound, every event's place, the drop count and each producer's order, in every state |
| LogBus.BusConserves | src/main/jni/core/log_bridge.go:128-173 | each event is in exactly one of routed, queued, inside its dispatch or dropped; drops are the reported, the counted and the not yet counted ones; the queue keeps its bound and each producer its order |
| LogBus.DispatchIsBounded | src/main/jni/core/log_bridge.go:128-144 | a dispatch never blocks and ends within five of its own steps |
| LogBus.NewestIsNeverDropped | src/main/jni/core/log_bridge.go:128-144 | with one producer, after each dispatch routed and queued events are in order, end with the newest and are short by exactly the counted drops |
| LogBus.SecondProducerLosesItsNewest | src/main/jni/core/log_bridge.go:138-142 | with two producers and any capacity some run drops the event being dispatched |
| LogBus.OwnEventKeptExactly | src/main/jni/core/log_bridge.go:128-144 | no dispatch ever drops its own event exactly if there is at most one producer |
| LogBus.OnlyFullQueuesDrop | src/main/jni/core/log_bridge.go:129-143 | a dispatch evicts or drops only after its first send met a full queue |
| LogBus.NothingDroppedWithRoom | src/main/jni/core/log_bridge.go:129-143 | a run whose queue is never full drops nothing and reports no drop |
| LogBus.SendsAtOnce | src/main/jni/core/log_bridge.go:130-131 | a first send that meets room puts the event last, ends the dispatch and changes nothing else |
| LogBus.OverflowDropsOldest | src/main/jni/core/log_bridge.go:128-144 | left alone, a dispatch into a full queue drops the oldest event, counts it and puts its own last |
| LogBus.DrainGoesOn | src/main/jni/core/log_bridge.go:157-172 | the consumer is never stuck and can always take what is queued when it waits |
| LogBus.ReportsEveryCount | src/main/jni/core/log_bridge.go:161-170 | what a tick finds counted is reported before the consumer waits again |
| LogSink.RotNamesDiffer | src/main/jni/core/log_file.go:160-162 | the base file and its numbered files have different names |
| LogSink.CutKeepsEverything | src/main/jni/core/log_file.go:124-127 | cutting the lines into files loses and reorders nothing |
| LogSink.CutAtTheLimit | src/main/jni/core/log_file.go:124-127 | a closed file reached the limit with its last line and was below it before; the open one is below it |
| LogSink.RetainedIsSuffix | src/main/jni/core/log_file.go:149-153 | what the retained files hold is the end of everything written, beginning at a cut |
| LogSink.ShiftOne | src/main/jni/core/log_file.go:150-152 | one rename of the countdown moves one file up by one and frees the next number |
| LogSink.ShiftBase | src/main/jni/core/log_file.go:153-157 | the last rename and the reopening complete the shift |
| LogSink.ShiftClosed | src/main/jni/core/log_file.go:149-157 | a shift appends the open file to the closed ones and discards only the oldest |
| LogSink.Sink.constructor | src/main/jni/core/log_file.go:23-31 | a new sink has no path, no file and is disabled |
| LogSink.Sink.Rename | src/main/jni/core/log_file.go:150-153 | renaming moves a file that is there, and fails without effect otherwise |
| LogSink.Sink.OpenFile | src/main/jni/core/log_file.go:76-90 | appends to the file that is there, or makes an empty one, and takes its size |
| LogSink.Sink.Shift | src/main/jni/core/log_file.go:148-153 | removes the oldest file and moves every other one up by a position, gaps included, with no rename onto an existing file |
| LogSink.Sink.CloseFile | src/main/jni/core/log_file.go:92-103 | the buffer reaches the file and the sink is closed |
| LogSink.Sink.Flush | src/main/jni/core/log_file.go:130-136 | the buffer reaches the file |
| LogSink.Sink.Rotate | src/main/jni/core/log_file.go:138-158 | shifts every surviving file by one position, gaps included, discards only the oldest, never renames onto an existing file, and disables the sink exactly if the new file cannot be opened |
| LogSink.Sink.Write | src/main/jni/core/log_file.go:105-128 | appends the line, rotates exactly at the limit, closes and disables the sink on a failed write, keeps the files equal to the cut of all lines, and touches no file but the base and the numbers below the count |
| LogSink.Sink.SetPath | src/main/jni/core/log_file.go:33-53 | the whole new state of each outcome: the old file ends with its buffer, the new one goes on from what it held and its size; a success leaves the sink open except for an empty path and a path already set |
| LogSink.Sink.Route | src/main/jni/core/log_bridge.go:184-191 | a line reaches the file exactly if the sink is enabled and its level passes |
| LogSink.SuccessOnAClosedSink | src/main/jni/core/log_file.go:33-38 | a run in which a write fails and setting the same path again reports success with the sink closed |
| LogSink.Sink.SetEnabled | src/main/jni/core/log_bridge.go:239-254 | disabling flushes; enabling reopens a closed sink on the file as it is, with its size |
| LogSink.WriteAll | src/main/jni/core/log_file.go:105-158 | after any run of writes and flushes the files are the lines held before and written since, cut at the limit, at most the count of them; every other file is as it was, and no rename met an existing file |
| LogSink.WriteAfterRestart | src/main/jni/core/log_file.go:33-158 | a new sink over the files of an earlier one goes on where that left off: the files are the old and the new lines, cut |
| LogSink.FilesHeld | src/main/jni/core/log_file.go:16-21 | the sink has its open file and one for each closed file it keeps: exactly one plus the lesser of the closed files and the count less one |
| LogSink.OthersWereThere | src/main/jni/core/log_file.go:148-153 | every file that is not the sink's was there before with the same content, and none is gone |
| LogSink.RetainedFile | src/main/jni/core/log_file.go:149-157 | each number below the count holds a closed file, cut at the limit by its last line, or no file if there are fewer |
| LogSink.FilesAreSuffix | src/main/jni/core/log_file.go:105-158 | reading the files oldest to newest, buffer included, gives the end of everything written, cut only between files |
| DnsHistory.Log.constructor | src/main/jni/core/dnsquery/dnsquery.go:26-35 | an empty ring of the given capacity |
| DnsHistory.RingAdd | src/main/jni/core/dnsquery/dnsquery.go:37-45 | writing the next slot, wrap-around included, keeps the ring equal to the end of the history |
| DnsHistory.Log.Add | src/main/jni/core/dnsquery/dnsquery.go:37-45 | the query joins the history |
| DnsHistory.Log.Snapshot | src/main/jni/core/dnsquery/dnsquery.go:47-60 | the newest min(n, capacity) queries, newest first |
| DnsHistory.Log.Clear | src/main/jni/core/dnsquery/dnsquery.go:62-68 | forgets the history and zeroes the slots |
| DnsHistory.SnapshotAfter | src/main/jni/core/dnsquery/dnsquery.go:33-68 | for any capacity above zero and any run of additions and clears, the reverse of the last min(n, capacity) queries since the last clear |
| DnsHistory.NewestPushes | src/main/jni/core/dnsquery/dnsquery.go:37-60 | an addition goes to the front of the snapshot and pushes out only the oldest entry |
| Resubscribe.RunInvariant | src/main/jni/core/connections.go:32-74 | the recorded handle names the one goroutine alive, at every statement of a start or a stop |
| Resubscribe.OneAtATime | src/main/jni/core/connections.go:32-63 | at most one ticker, or log fan-out, is alive, and whenever the lock is free the handle names it |
| Resubscribe.NobodyLeftOnReturn | src/main/jni/core/log_stream.go:46-64 | when an unsubscribe returns no goroutine of the stream is left |
| Resubscribe.NoMessageAfterStop | src/main/jni/core/connections.go:65-74 | no goroutine that was there when an unsubscribe returned ever sends again |
| Resubscribe.WaitEnds | src/main/jni/core/log_stream.go:54-64 | a waiting caller can go on, or what it waits for is cancelled and can step towards its exit |
| Resubscribe.CancelledDrains | src/main/jni/core/log_stream.go:31-43 | a closed log channel takes nothing more and every step drains it further |
| Resubscribe.StopEndsWhatItFinds | src/main/jni/core/connections.go:65-74 | whatever goroutine there is when a stop or a start is called is gone once the call has waited, and stays gone |
| Resubscribe.StartLeavesItsGoroutine | src/main/jni/core/connections.go:44-62 | a subscription that goes through leaves a goroutine of its own recorded, alive and not cancelled |
| Resubscribe.RefusedStartLeavesNone | src/main/jni/core/log_stream.go:25-28 | a log subscription that is refused leaves no goroutine |
| Resubscribe.LiveStreamSends | src/main/jni/core/connections.go:53-60 | a live goroutine sends what it picks up |
| Resubscribe.ArrivedIsSent | src/main/jni/core/log_stream.go:34-42 | an event that comes in to an idle log stream is sent, once, and changes nothing else |
| Resubscribe.NeverStuck | src/main/jni/core/connections.go:32-74 | while a call has not returned some step can be taken |
| ProcHeader.Discover | src/main/jni/core/platform/procfs.go:144-169 | records, for each of the two columns, its last position less the pairs seen wholly before it, or -1 |
| ProcHeader.FieldIs | src/main/jni/core/platform/procfs.go:134-136 | in rows where adjacent pairs are one field, a column's field is its position less the pairs merged before it |
| ProcHeader.DiscoveredExactly | src/main/jni/core/platform/procfs.go:134-169 | for distinct columns, the recorded index is the column's field exactly if every pair wholly before it is adjacent |
| ProcHeader.SeparatedPairMisleads | src/main/jni/core/platform/procfs.go:147-154 | a concrete header whose queue columns stand apart, for which the recorded index is not the column's field |
| ProcNet.Convert | src/main/jni/core/platform/procfs.go:112-114 | a word is reversed on a little-endian machine and unchanged on a big-endian one |
| ProcNet.NativeEndianIP | src/main/jni/core/platform/procfs.go:108-118 | each word of the address in the machine's order |
| ProcNet.SwapTwice | src/main/jni/core/platform/procfs.go:108-118 | the conversion is its own inverse |
| ProcNet.KeyInjective | src/main/jni/core/platform/procfs.go:78-83 | keys are equal only for the same address bytes and port, within a family or across |
| ProcNet.KeyNamesOneEndpoint | src/main/jni/core/platform/procfs.go:78-98 | a key meets what the kernel prints for an endpoint, letter case aside, exactly if it is that endpoint |
| ProcNet.DoQuery | src/main/jni/core/platform/procfs.go:69-106 | the number in the UID field of the first row that meets the key; -1 without a table, such a row or a number |
| ProcNet.AnswerIsTheOwner | src/main/jni/core/platform/procfs.go:69-106 | in a table the kernel wrote, that is the first row of exactly this address and port |
| ProcNet.QuerySocketUid | src/main/jni/core/platform/procfs.go:25-66 | the long table first, then the short one exactly if that gave -1 and the address has a short form; -1 for unknown columns or sources |
| ProcNet.OwnerOfAddress | src/main/jni/core/platform/procfs.go:25-106 | over two tables the kernel wrote, the owner in the first row of the long address; if there is none or it is no number, the one in the first row of the short address if there is such a form; or else -1 |
| ProcNet.FormsOfAnAddress | src/main/jni/core/platform/procfs.go:47-60 | a short address has the long form of ten zero bytes, two of ones and itself, and only such long addresses have a short form |
| ProcNet.MappedFormAnswersAlike | src/main/jni/core/platform/procfs.go:47-63 | a short address and its long form have the same owner |
| ProcNet.DiscoveredColumnsAreRead | src/main/jni/core/platform/procfs.go:25-169 | with the columns that the discovery recorded, the lookup reads the fields that carry them and answers the rows' owner, if the pairs wholly before each column are adjacent |

## Left out

- Config apply (`patchSelectGroup`): it re-selects groups without `pickMu`, so the pin property does not hold across it; groups of type selector, which have no pin, are not in `Pins`.
- Picks made by the user, or by mihomo's own health checks, while the groups are compared with testing one by one: the result then depends on when they fall.
- GroupPick.UrlTest.Now: mihomo's tolerance and its own picking are not modelled; only that a pin is adopted when read and that an unpinned group keeps its last pick.
- The semaphore's queue: it is modelled by who holds it and admits whoever fits, in any order; fairness is not stated.
- TunFence.HooksWhenUnlocked: the socket hook and the package-name resolver are one flag, as both are always set and cleared together.
- Re-entrant upcalls (a protect call that stops the TUN) and the preference of a waiting writer in the listener's read-write lock.
- Address and port strings, the SDK-version branch and the string format of a resolve upcall: no shared state.
- Actions.ActionResult.HandleAction: what each method does and the data of its result; only the number of replies and their codes.
- LogSink.Sink.Flush: does not model a flush that fails; the source discards its error.
- LogSink.Sink.CloseFile: does not model a flush that fails, either.
- LogSink.Sink.Rotate: a rename of an existing file is taken to succeed; a full disk during the shift is not modelled.
- Log formatting, level filters, logcat output, descriptor capture and crash output: no state that the claims depend on.
- Panic recovery in the dispatch loop, and the loss of the event being routed when it panics.
- `LogBus`: the timing of the flush ticker; the drain loop may choose either branch at any time.
- `UrlTestSlots`: the queueing order of callers that wait for a slot, and durations; every deadline may pass at any step.
- DNS record conversion, `Install` and the recording service; the ring's lock makes its operations atomic, which the model takes as given.
- ProcNet.DoQuery: reading lines and splitting fields, and number parsing, are given as rows and a function; a port is sixteen bits and the source's truncation of a larger one is outside.
- ProcNet.QuerySocketUid: the network name that selects the table files is the source's constructor here.
- Geo data, providers, IP probes, traffic getters, listeners, JSON: plumbing that would only add easy members.
