# llama-swap: a verified model

llama-swap is a proxy in front of local model servers. It starts a server when a request
names its model, stops it to make room for another, reloads its configuration while requests
run, and reports logs, metrics and cluster status. This project models the parts of it whose
correctness ranges over unbounded runs or unbounded inputs, and proves what they are for.

`dafny verify dfyconfig.toml` checks everything.

| file | what it models |
|---|---|
| `EventProtocol.dfy` | one event group as atomic steps: publishers and listeners on one condition variable, any interleaving |
| `EventTraces.dfy` | what a run of it says by itself: published events, subscriptions |
| `EventGroup.dfy` | the same group on the heap: slices as backing arrays, the double buffer, each locked region one step of the protocol |
| `EventRegistry.dfy` | the copy-on-write sorted registry of groups |
| `ProcessStates.dfy` | process states and the guarded compare-and-swap |
| `SwapGroup.dfy` | one swap-mode process group under every interleaving of requests, stops, launches, exits and unloads |
| `SwapService.dfy` | what a request and a stop of that group do when left alone |
| `SwapUnload.dfy` | when forgetting the last used process breaks that group's exclusivity |
| `SwapStops.dfy` | when a stop hits a request in flight |
| `SwapJam.dfy` | stops that wait forever for a channel that nobody closes |
| `SwapPanic.dfy` | when such a channel is closed twice |
| `SwapProgress.dfy` | the group left alone comes to rest |
| `ModelGroups.dfy` | allocation of models to groups |
| `ModelLoading.dfy` | which models are loaded after a trace of requests, across groups |
| `Common.dfy` | an option type, string replacement and joining, shared by the others |
| `MacroTexts.dfy` | texts with references: how a string is read, and when one replacement does what substituting a reference means |
| `MacroExpansion.dfy` | the macro language of the configuration, as a sequence of replacements and as recursive expansion, in text fields and in metadata |
| `MacroLists.dfy` | which macros are accepted, and how a model's macros override the global ones |
| `LogHistory.dfy` | the ring buffer of the log monitor and the capped append of job output |
| `CaptureStore.dfy` | request/response captures with eviction by size |
| `ConfigReload.dfy` | live reload of the process groups |
| `StatusCache.dfy` | the stale-while-revalidate cache of the cluster status |
| `StreamMetrics.dfy` | the backward scan of a streamed response for its usage record |
| `StreamPayload.dfy` | what a line of such a response says: white space, "data:", the payload |
| `ShellText.dfy` | the quote-aware splitter of shell scripts and the shell quoting of values |
| `ShellGrammar.dfy` | shell text as its author writes it: what protects a semicolon |
| `HealthPolling.dfy` | the health check loop of a starting process |
| `BenchyJobs.dfy` | the table of benchmark jobs, its cancel functions and its pruning |

Concurrency is modelled as steps over a value state: a step is one access to shared state or
one region under a lock, a run is any list of enabled steps. Code that updates its state in
place is a class or a loop, and is tied to the values its properties speak about by `ensures`
clauses and invariants. The clock, the network, commands and JSON are parameters or
nondeterministic steps.

## Where the code does less than it says

These are results: the exact condition under which the code keeps the property, or a run that
breaks it.

- A dispatcher accepts any queue bound, but below one no `Publish` ever returns
  (`EventProtocol.PublishReturnsIffBoundPositive`).
- `ProcessGroup.StopProcess` forgets the last used process without the mutex that requests
  hold. Afterwards two members of a swap group can run at once, in exactly the states that
  `SafeUnload` excludes and in which another member can still be started
  (`SwapUnload.UnloadIsSafeIff`, with a run in `SwapUnload.UnloadUnderRequest`).
- The comment on `Process.Stop` promises to wait for requests in flight. A request that
  arrives between that wait and the state change is admitted and cut off. Without a new stop
  this can happen to a process, to a request in flight and even to one being forwarded, exactly
  while it can still be up and a stop outside the request
  mutex has not decided yet and either is not held off by the group's lock (the TTL check,
  `StopProcess`) or can still hit the one request that is past that lock
  (`SwapStops.StopKeepsPromiseIff`, `SwapStops.GracefulStopCanHitARequest`). A swap itself
  never does this (`SwapGroup.SwapStopsIdleProcess`), and neither does a `StopProcesses` that
  finds no request past the lock (`SwapStops.SweepSparesLaterRequests`).
- A stop waits for the channel of the launch that it cancels. `start` makes it before it executes
  the command, and nobody closes it if the command cannot be executed (as after a cancel).
  `waitForCmd` sets the state to stopped first and closes later, and then whatever channel the
  process has by then; if the next launch has made its own in between, the old one stays open.
  A stop that has read such a channel never returns; under `StopProcesses` it keeps the group's
  lock, and no request enters the group any more (`SwapJam.JammedForGood`). `SwapJam.JamIff` and
  `SwapJam.SweepJamsIff` say exactly when that can happen, `SwapJam.SweepUnderRequest` gives a
  run, and `SwapJam.OrphanedChannel` runs in which every launch succeeds. In every other case the
  group comes to rest (`SwapProgress.RestIff`, `SwapProgress.GroupComesToRest`).
- When the next launch makes its channel in between, that channel is closed early, and the close
  at the end of its own command is the second, which panics. Without any stop this can happen
  whenever a process can still be started and requests can enter its group
  (`SwapPanic.PanicIff`); it takes such an overlap (`SwapPanic.PanicNeedsOverlap`).
- A user group named `(default)` is overwritten, and models that only it lists end up in no
  group (`ModelGroups.PartitionIff`, `ModelGroups.DroppedModel`).
- A model's macro goes in at the first place of a repeated global name while the expansion
  reads the last, so the override may have no effect (`MacroLists.OverrideMeans`,
  `MacroLists.OverrideWinsIff`, with an example in `MacroLists.OverrideIgnored`).
- A text can join with the value put after it into a reference that neither contains
  (`MacroExpansion.AccidentalReference`). The replacements give the recursive expansion, with
  no macro left in it, exactly when every reference met points to an earlier macro and the
  expanded text holds no such accident: `MacroExpansion.EveryTextExpandsIff`, for every string
  and all values; `MacroExpansion.AcceptedTextIff` is the same for what the loader accepts (with
  `${PID}` exempt in `cmdStop`, unless a macro is called so). Only
  in texts that the loader rejects, with a macro left over, one accident may undo another
  (`MacroExpansion.AccidentUndone`). Without dollar signs in plain text there are no accidents
  (`MacroExpansion.NoDollarIff`). Each single replacement does what it means exactly when it meets
  no accident (`MacroTexts.ReplaceIsSubstituteIff`, `MacroExpansion.StepsAsMeantIff`).
- A foreground load of the cluster status drops the flag of a refresh that still runs, so
  refreshes of one key pile up, one more for each such load and without limit
  (`StatusCache.Cache.RefreshesBounded`, `StatusCache.OvertakenRefreshes`).
- A group created by a reload has a process named `""` for a member that resolves to no model;
  a group that is synchronised has none (`ConfigReload.NewGroupKeysIff`, with an example in
  `ConfigReload.UnresolvedMember`).
- A benchmark job reads its finish time before it takes the lock. If a job that finished later
  has been pruned by then, the job is held although older than a pruned one, exactly when the
  table is not over its limit (`BenchyJobs.OrderKeptIff`, with a run in `BenchyJobs.LateRecord`).

## Model

| member | source | states |
|---|---|---|
| `EventProtocol.InvStep` | event/event.go:189-303 | every atomic step of Add, Del, Publish, Broadcast and Listen keeps the group's invariant: one mutex holder, bounded queues, nothing lost, and somebody awake who will wake each sleeping publisher |
| `EventProtocol.ReachableInv` | event/event.go:189-303 | the invariant holds after every interleaving of any number of publishers and listeners |
| `EventProtocol.DeliveryIsExact` | event/event.go:189-303 | exactly-once, in-order delivery: handled events, the rest of the batch and the queue together are the contiguous part of the broadcast log from Add to Del; a queue never exceeds the bound; a listener that returned has handled all of it |
| `EventTraces.NothingInvented` | event/event.go:155-160 | over every run the log and the Publish calls under way hold exactly the events that the Publish calls were given, as often, and what a consumer has handled somebody has published |
| `EventTraces.OnePublisherInOrder` | event/event.go:231-266 | the events of one publisher enter the log in the order in which it publishes them, at most one still under way |
| `EventTraces.SubscribedFromAdd` | event/event.go:269-282 | a consumer is subscribed from its Add until its Del, and is owed what enters the log after its Add |
| `EventTraces.OwedUntilDel` | event/event.go:285-303 | and before its first Del |
| `EventProtocol.NoLostWakeup` | event/event.go:192-216 | a sleeping listener has an empty queue and is still subscribed; while a publisher sleeps, some subscriber is full and runnable or has its wakeup call still to come |
| `EventProtocol.QuietIffDrained` | event/event.go:189-266 | deadlock freedom: no thread can move exactly when every Publish has returned and every listener has handled what it is owed |
| `EventProtocol.ProgressOrDrained` | event/event.go:189-266 | unless the group is drained, a publisher or listener step is enabled |
| `EventProtocol.InternalStepProgresses` | event/event.go:189-266 | every step of the two loops lowers a measure, and an event in a pending Publish is never lost |
| `EventProtocol.EveryInternalRunDrains` | event/event.go:189-266 | left alone the group comes to rest under every scheduler, fair or not, within a bound known at the start, with every pending event in the log |
| `EventProtocol.GroupDrains` | event/event.go:189-266 | the same from every reachable state |
| `EventProtocol.PublishReturnsIffBoundPositive` | event/event.go:43-54 | every publisher's Publish of every event can return in some run exactly when the queue bound is at least one |
| `EventGroup.Listener.Append` | event/event.go:259-259 | appending to a queue, in place or into a grown array, adds one event and leaves the batch being handled untouched |
| `EventGroup.Listener.Swap` | event/event.go:204-207 | the two arrays change places: the queue becomes the batch and the old batch's array the empty queue |
| `EventGroup.Group.LongestQueue` | event/event.go:235-241 | the loop measures the maximum of the subscribers' queue lengths |
| `EventGroup.Group.FullIffLongest` | event/event.go:244-244 | that maximum reaches the bound exactly when some subscriber is full or the bound is below one |
| `EventGroup.Group.FullIffBlocked` | event/event.go:235-255 | the heap's back-pressure test is the protocol's |
| `EventGroup.Group.AppendToAll` | event/event.go:256-264 | each subscriber's queue gets the event once, every other queue and every batch stays as it was |
| `EventGroup.Group.PassStep` | event/event.go:231-266 | what one pass does to the memory of the consumers and to maxLen is what the protocol's step says, and all buffers of all consumers stay disjoint |
| `EventGroup.Group.BroadcastPass` | event/event.go:231-266 | one pass of Broadcast under the mutex is one protocol step; maxLen is left at the length of the longest queue |
| `EventGroup.Group.AddConsumer` | event/event.go:269-282 | Add takes the protocol's step; the new consumer shares no array |
| `EventGroup.Group.RemoveSub` | event/event.go:291-297 | the search-and-remove loop takes out exactly the given consumer, if present |
| `EventGroup.Group.Del` | event/event.go:285-303 | Del takes the protocol's step, also when called again |
| `EventGroup.Group.ListenCheck` | event/event.go:193-208 | the locked head of Listen takes the protocol's step: leave, sleep, or take over the whole queue as the next batch, which it does exactly if the queue is not empty |
| `EventGroup.Group.ListenHandle` | event/event.go:210-213 | the handler sees the next event of the batch, outside the mutex, and nobody's append can have changed it |
| `EventRegistry.Dispatcher.FindGroup` | event/event.go:73-92 | the binary search returns the bound group exactly for the keys of the map the registry stands for |
| `EventRegistry.Dispatcher.InsertionPoint` | event/event.go:125-127 | the insertion point separates the smaller keys from the others |
| `EventRegistry.Dispatcher.SubscribeTo` | event/event.go:102-152 | adds exactly its own binding, or none if the type is known; a snapshot taken before is unchanged |
| `EventRegistry.ZipInsert` | event/event.go:129-143 | inserting a key and a group at one position of two parallel arrays adds one binding to the map and changes no other |
| `SwapGroup.CountsStep` | proxy/process.go:254-325 | every step, unsafe unloads included, keeps the accounts: a request in flight is counted, a process has a command as its state and the launch under way say, the stop inside a swap waits only for a channel that will be closed, and stops that hold the group's lock keep later requests away |
| `SwapGroup.InvStep` | proxy/processgroup.go:67-92 | every step of a request, a stop, a launch, an exiting command or a safe unload keeps the group's invariant |
| `SwapGroup.OneModelAtATime` | proxy/processgroup.go:67-92 | over every interleaving at most one member is starting or ready; it is the last used one unless the request holding the mutex is still stopping it; any other command still running belongs to a process being stopped or shut down |
| `SwapGroup.SwapStopsIdleProcess` | proxy/process.go:453-490 | over every run, unsafe unloads included, the stop inside a swap never takes down a process with a request in flight |
| `SwapGroup.OnwardGoes` | proxy/processgroup.go:62-92 | the request under way is never stuck once it is past the group's lock: a step of it, or the exit of the command it waits for, brings it nearer to its end |
| `SwapService.ServedIff` | proxy/process.go:565-655 | a request left alone is forwarded exactly if the process is ready, or is stopped and its start does not fail |
| `SwapService.RequestEnds` | proxy/process.go:565-655 | and always comes to its end |
| `SwapService.ReadyLaunchesNothing` | proxy/process.go:595-655 | forwarding to a ready process launches nothing and changes no process |
| `SwapService.StoppedIsStarted` | proxy/process.go:254-450 | a request for a stopped process launches one command and leaves the process ready, not in flight, and all others as they were |
| `SwapService.LaunchFoundStopped` | proxy/process.go:271-290 | over every run, with any interference, a request that is launching its model has found it stopped and been the one under way since |
| `SwapService.AdmittedIff` | proxy/process.go:565-590 | a request is counted as in flight exactly if the process is not stopping or shut down |
| `SwapService.LimitKept` | proxy/process.go:577-583 | in whatever state, no step admits a request beyond the limit |
| `SwapService.StopAlone` | proxy/process.go:453-534 | a stop left alone, of a process with no request in flight, takes it down exactly if it is starting or ready, and returns when the command has exited and its channel is closed |
| `SwapService.StopProcessStops` | proxy/processgroup.go:105-126 | StopProcess leads to its end: the model is not up, not last used, and no other process has changed |
| `SwapService.StopProcessesStops` | proxy/processgroup.go:128-151 | StopProcesses takes every process of the group down and releases the lock |
| `SwapService.EnterThenWaits` | proxy/processgroup.go:71-84 | a swap takes the previous process down only after its wait, whoever counts a request of it |
| `SwapService.ShutdownIsFinal` | proxy/process.go:492-504 | a shutdown of a process without a command, that is not being launched, is final |
| `SwapService.Possible` | proxy/processgroup.go:62-151 | what can come from outside in a state: a request exactly when the mutex is free, StopProcess and an entering request exactly when the lock is free, a stop of the TTL check and a shutdown always |
| `ProcessStates.TransitionsAre` | proxy/process.go:216-230 | exactly the transitions there are |
| `ProcessStates.SwapOutcome` | proxy/process.go:182-213 | a swap takes place exactly in the expected state and along a transition; any other state is a mismatch first |
| `ProcessStates.ReadyOnlyByStarting` | proxy/process.go:216-230 | along the transitions a process becomes ready only by starting, and a shutdown is final |
| `SwapUnload.UnloadIsSafeIff` | proxy/processgroup.go:105-126 | a StopProcess leads to some later run with two members up exactly when the model is the last used one and runs or can still be started by the request under way, and another member can still be started |
| `SwapUnload.UnloadUnderRequest` | proxy/processgroup.go:105-126 | a run from a fresh group of two that gets there |
| `SwapStops.StopKeepsPromiseIff` | proxy/process.go:452-490 | without a new stop some run takes a process down while a request is in flight (or, in a second version, being forwarded) exactly when the process can still be up and a stop outside the request mutex has not decided yet and either is not held off by the group's lock or can hit the request past that lock |
| `SwapStops.GracefulStopCanHitARequest` | proxy/process.go:420-439 | from every state in which the process is not shut down for good and the group's lock not lost, a stop of the TTL check can take the process down under a request admitted after its wait |
| `SwapStops.SweepSparesLaterRequests` | proxy/processgroup.go:128-151 | a StopProcesses that finds no request past the group's lock, and no other stop pending, hits no request |
| `SwapJam.JammedForGood` | proxy/process.go:512-534 | once a stop of StopProcesses waits for a channel that is neither closed nor going to be, it does so in every continuation, and no request enters the group |
| `SwapJam.JamIff` | proxy/process.go:652-698 | without a new stop that can come about exactly when it has, or a stop that holds the group's lock has read the last channel, is about to, or can still take the process down, and the request under way can lose a channel: it is about to launch, or launching, while the last channel is open, or its launch can fail with no close to come |
| `SwapJam.SweepJamsIff` | proxy/processgroup.go:128-151 | a call of StopProcesses can jam the group exactly when a request past the lock can lose a channel in that way; a graceful one only if that request is not counted yet and the model still up |
| `SwapJam.SweepUnderRequest` | proxy/processgroup.go:128-151 | a run from a fresh group that gets there |
| `SwapJam.OrphanedChannel` | proxy/process.go:683-697 | a stop waits for a command to exit, a counted request makes the next channel before waitForCmd closes one: the group is jammed though no launch has failed |
| `SwapJam.ComesClear` | proxy/processgroup.go:62-151 | from every state that is not jammed some run without a new stop frees both locks |
| `SwapPanic.PanicIff` | proxy/process.go:683-697 | without a new stop some run comes to a second close of a channel exactly when the process can still be started and the group is not jammed, or what is under way is enough: two closes to come for one channel, or one with a launch under way or ahead |
| `SwapPanic.PanicNeedsOverlap` | proxy/process.go:683-697 | from a fresh group it takes a launch that makes its channel between the two steps of waitForCmd, and every member can come to it |
| `SwapProgress.RestIff` | proxy/processgroup.go:62-151 | the mutex, the group's lock and the waits deadlock in no other way: nothing can move exactly when no request is past the mutex (or it waits for the lock of a jammed group), every stop has returned or waits for a lost channel, and any close to come panics |
| `SwapProgress.MoveLess` | proxy/process.go:453-490 | every step of a request, a stop, a canceled command or a closing waitForCmd lowers a measure, retries of the compare-and-swap loop included |
| `SwapProgress.GroupComesToRest` | proxy/processgroup.go:62-151 | left alone the group comes to rest, or panics, under every scheduler and every outcome of its launches, within a bound known at the start, and with both locks free if no stop can meet a launch that loses a channel |
| `ModelGroups.InSomeGroup` | proxy/config/config.go:482-492 | the search loops answer whether some group lists the model |
| `ModelGroups.AddDefaultGroup` | proxy/config/config.go:462-504 | the default group holds, once each, exactly the models no user group lists; the other groups are unchanged |
| `ModelGroups.EnterMembers` | proxy/config/config.go:383-393 | one group is accepted exactly when its members are distinct and new, and the errors name a real conflict |
| `ModelGroups.ValidateMembers` | proxy/config/config.go:379-394 | the check accepts exactly the configurations in which no member is repeated in or across groups |
| `ModelGroups.PartitionIff` | proxy/config/config.go:377-394 | in an accepted configuration every model is in exactly one group, exactly when no model is listed only by a user group named `(default)` |
| `ModelGroups.DroppedModel` | proxy/config/config.go:475-501 | a configuration whose only group is named `(default)` loses its model |
| `ModelGroups.FindGroupByModelName` | proxy/proxymanager.go:1108-1115 | finds a group exactly for grouped models, and the same one in every iteration order when the groups partition the models |
| `ModelLoading.ProxyManager.StopProcesses` | proxy/processgroup.go:128-151 | exactly the models of the group are unloaded |
| `ModelLoading.ProxyManager.SwapProcessGroup` | proxy/proxymanager.go:492-508 | an exclusive group unloads exactly the models of the other, non-persistent groups; an unknown model changes nothing |
| `ModelLoading.ProxyManager.StopPrevious` | proxy/processgroup.go:71-84 | the last used model is replaced and the previous one, if different, unloaded |
| `ModelLoading.ProxyManager.ProxyInGroup` | proxy/processgroup.go:62-92 | a request unloads the previous model in swap mode only, and loads its own model if the start succeeds |
| `ModelLoading.ProxyManager.Handle` | proxy/proxymanager.go:492-508 | a routed request changes the set of loaded models as the trace semantics says |
| `ModelLoading.NextKeepsSwapInv` | proxy/processgroup.go:67-92 | in a swap group only the last used model is ever loaded |
| `ModelLoading.LoadedIff` | proxy/proxymanager.go:492-508 | after any trace a model is loaded exactly when some request for it could start it and no later request evicted it |
| `MacroTexts.ReplaceIsSubstitute` | proxy/config/config.go:294-298 | one ReplaceAll on a text is substitution of one reference in what the text means, if no reference to that macro arises by accident |
| `MacroTexts.ReplaceIsSubstituteIff` | proxy/config/config.go:294-298 | and only if, as long as the value is not the reference itself |
| `MacroTexts.OccursIff` | proxy/config/config.go:336-357 | a reference is found in a text exactly where its author wrote one and where one arises by accident |
| `MacroTexts.ParseReads` | proxy/config/config.go:88-89 | every string is the rendering of the references read in it, and no reference in it is an accident |
| `MacroTexts.NameCharIs` | proxy/config/config.go:88-89 | the characters of the name pattern, by their codes |
| `MacroExpansion.StepsAsMeantIff` | proxy/config/config.go:288-308 | each of the replacements does what substituting its macro means exactly when in none of them a reference to its macro arises by accident |
| `MacroExpansion.LifoIsExpand` | proxy/config/config.go:288-308 | then the ReplaceAll calls, last macro first, render the recursive expansion in which each body sees only the macros before it |
| `MacroExpansion.CleanIsFaithful` | proxy/config/config.go:288-308 | an accident in any of the replacements is still an accident in the expanded text |
| `MacroExpansion.EveryTextExpands` | proxy/config/config.go:288-308 | the same for every string and all values, read as their references say |
| `MacroExpansion.ExpandsFullyIff` | proxy/config/config.go:288-308 | for any set of names with the macros' in it: the result is the recursive expansion and holds no reference to one of them exactly when the references met lead to none and none arises by accident |
| `MacroExpansion.EveryTextExpandsIff` | proxy/config/config.go:288-308 | for every string and all values: the result is the recursive expansion with no macro left exactly when all references met point to earlier macros and the expanded text holds no accidental reference to a macro |
| `MacroExpansion.AcceptedTextIff` | proxy/config/config.go:336-357 | a text in which the loader finds no reference left, apart from exempt names that are no macros, has the value it means exactly when its references lead to macros or exempt names only and no other reference arises by accident |
| `MacroExpansion.NoDollarIff` | proxy/config/config.go:288-308 | without dollar signs in plain text the result is the recursive expansion, and no macro is left exactly when all references met point to earlier macros |
| `MacroExpansion.SlugSurvivesIff` | proxy/config/config.go:336-357 | a reference is left in the recursive expansion exactly when following the references from the text leads to it, or it arises by accident; so it is in the result if no replacement meets an accident |
| `MacroExpansion.NoKnownSlugIffBackward` | proxy/config/config.go:288-308 | the result is right and no reference to a known macro is left exactly when all references met point to earlier macros and none arises by accident |
| `MacroExpansion.AccidentalReference` | proxy/config/config.go:288-308 | a replacement can create a reference that is then replaced |
| `MacroExpansion.AccidentUndone` | proxy/config/config.go:288-308 | two accidents can undo each other if a macro is left over, so that the condition is exact only for results without one |
| `MacroExpansion.MetadataExpands` | proxy/config/config.go:300-307 | the type-preserving substitution over nested metadata, printed, is what the replacements make of its texts |
| `MacroExpansion.FlatStep` | proxy/config/config.go:629-673 | the same for one macro, through maps and lists and for text that is exactly the reference |
| `MacroExpansion.TextKeepsItsType` | proxy/config/config.go:629-645 | text in the metadata becomes a number or a boolean, and which, exactly if it is just the reference to such a macro when that macro's turn comes; otherwise it stays text, with all macros replaced |
| `MacroExpansion.StructureStays` | proxy/config/config.go:645-673 | objects keep their keys and lists their length, each value is substituted by itself, and numbers and booleans stay as they are |
| `MacroExpansion.ModelConfig.SubstituteMacros` | proxy/config/config.go:288-308 | all five fields and the metadata are expanded by the same sequence of macros, the metadata with its types |
| `MacroExpansion.PortIsEarliest` | proxy/config/config.go:310-323 | replacing PORT afterwards is the same as having it as the first macro of the list |
| `MacroLists.AcceptedMacro` | proxy/config/config.go:555-586 | accepted names fit the expansion theorem, are not reserved, and no accepted text refers to itself |
| `MacroLists.AcceptedIff` | proxy/config/config.go:555-586 | exactly the macros that the check accepts: a legal name of at most 63 characters that is not reserved, and a scalar value, text being shorter than 1024 and not referring to itself |
| `MacroLists.FirstFault` | proxy/config/config.go:555-586 | which fault is reported of the others |
| `MacroLists.MergeMacros` | proxy/config/config.go:268-286 | in the merged list a name stands for the last value the model gives it, unless the global list repeats the name or the model does not define it, and then for the last global value |
| `MacroLists.MergedMeans` | proxy/config/config.go:273-286 | the same for any list and any overriding entries |
| `MacroLists.OverrideMeans` | proxy/config/config.go:273-286 | one override decides the meaning of its name exactly when the list does not repeat it, and changes no other |
| `MacroLists.OverrideKeepsOthers` | proxy/config/config.go:273-286 | overriding one macro leaves the meaning of every other name |
| `MacroLists.OverrideWinsIff` | proxy/config/config.go:273-286 | an override takes effect exactly when the name is not repeated in the list, or the repeated last value is the same |
| `MacroLists.OverrideIgnored` | proxy/config/config.go:273-286 | with a=1 and a=2 among the global macros the model's a=3 has no effect |
| `LogHistory.CircularBuffer.Write` | proxy/logMonitor.go:32-65 | afterwards the buffer holds exactly the last capacity bytes of what it held plus the input, for inputs of any length at any position |
| `LogHistory.CircularBuffer.WriteShort` | proxy/logMonitor.go:47-64 | the two copying branches overwrite the ring from the head on, wrapping once |
| `LogHistory.CircularBuffer.GetHistory` | proxy/logMonitor.go:69-91 | returns the contents from oldest to newest |
| `LogHistory.WriteKeepsSuffix` | proxy/logMonitor.go:47-64 | overwriting a ring from its head on keeps the last bytes of contents and input, in order |
| `LogHistory.LogMonitor.Write` | proxy/logMonitor.go:136-158 | a write is kept unless stdout refuses it |
| `LogHistory.LogMonitor.GetHistory` | proxy/logMonitor.go:160-167 | after any writes and clears: the last 100 KiB written since the last Clear |
| `LogHistory.AppendAllIsSuffix` | proxy/benchy.go:1620-1636 | capped appends of any chunks keep the last maxBytes of their concatenation, and everything when the bound is not positive |
| `LogHistory.RingAgreesWithAppend` | proxy/logMonitor.go:32-91 | the ring buffer and the capped append give the same history for every sequence of writes |
| `CaptureStore.MetricsMonitor.AddMetrics` | proxy/metrics_monitor.go:96-108 | the ID is new, and the newest maxMetrics metrics are kept |
| `CaptureStore.MetricsMonitor.Evict` | proxy/metrics_monitor.go:126-134 | drops the fewest oldest captures after which the new one fits |
| `CaptureStore.MetricsMonitor.Offer` | proxy/metrics_monitor.go:112-139 | what is held is the longest suffix of the storable captures offered so far that fits, its text numbers at most maxCaptureSize bytes, and a capture is refused exactly if its own text is longer than that; order, map and size agree |
| `CaptureStore.MetricsMonitor.AddCapture` | proxy/metrics_monitor.go:112-139 | the same for captures under the IDs that addMetrics returned |
| `CaptureStore.MetricsMonitor.GetCaptureByID` | proxy/metrics_monitor.go:141-150 | finds a capture exactly when it is held |
| `CaptureStore.NoLongerSuffixFits` | proxy/metrics_monitor.go:126-134 | retention is optimal: no longer suffix of the offered captures fits |
| `CaptureStore.SizeIsBytes` | proxy/metrics_monitor.go:43-53 | the size of a capture is the length of all the text it holds |
| `CaptureStore.EveryFieldCounts` | proxy/metrics_monitor.go:43-53 | every field counts by its own length, and every header by its name and value |
| `ConfigReload.Process.Shutdown` | proxy/process.go:496-504 | shuts down exactly the processes that are starting or ready |
| `ConfigReload.NewGroupKeysIff` | proxy/processgroup.go:49-55 | a new group's process keys are the resolved members exactly when every member resolves, or `""` is itself a resolved name |
| `ConfigReload.UnresolvedMember` | proxy/processgroup.go:49-55 | a group with one misspelt member, which gets a process named `""` |
| `ConfigReload.ResolvedIs` | proxy/config/config.go:159-167 | a group's processes are those of its members that are models and of the models that its aliases stand for |
| `ConfigReload.ProcessGroup.constructor` | proxy/processgroup.go:32-58 | a new group has a stopped process of that name for every member, and nothing last used |
| `ConfigReload.ProcessGroup.CarryOver` | proxy/config_runtime_sync.go:68-100 | the next keys are exactly the resolved members; for each the last member that resolves to it decides: its process if that is not stopped, without one the process under the member's name if that is not stopped, and a new one of that name otherwise |
| `ConfigReload.ProcessGroup.Removed` | proxy/config_runtime_sync.go:102-113 | collects exactly the active processes whose key is no longer a resolved member |
| `ConfigReload.ProcessGroup.Sync` | proxy/config_runtime_sync.go:53-121 | every active process stays registered under its key or is handed back for shutdown; the last used process is registered or forgotten |
| `ConfigReload.ProcessGroup.Shutdown` | proxy/processgroup.go:153-163 | afterwards no process of the group is starting or ready |
| `ConfigReload.ProxyManager.Advance` | proxy/config_runtime_sync.go:18-32 | a group of the new configuration is synchronised in place if it existed and created otherwise; no other group is touched |
| `ConfigReload.ProxyManager.AdvanceAll` | proxy/config_runtime_sync.go:18-32 | the next groups are exactly those of the new configuration, and the processes scheduled are active ones whose key is gone from their group |
| `ConfigReload.ProxyManager.DroppedGroups` | proxy/config_runtime_sync.go:34-38 | collects exactly the groups that the new configuration does not have |
| `ConfigReload.NothingLost` | proxy/config_runtime_sync.go:10-51 | registered, scheduled by itself and scheduled with its group are all there is for an active process |
| `ConfigReload.ProxyManager.Reload` | proxy/config_runtime_sync.go:10-42 | reload loses nothing: every process active in the snapshot is registered in a new group or scheduled for shutdown; nothing but displaced processes and dropped groups is scheduled |
| `ConfigReload.ShutdownEach` | proxy/config_runtime_sync.go:44-46 | afterwards none of the scheduled processes is starting or ready, and only such ones were changed |
| `ConfigReload.ShutdownGroups` | proxy/config_runtime_sync.go:48-50 | the same for every process of the scheduled groups |
| `StatusCache.ParseOptions` | proxy/cluster_status_api.go:191-212 | parsed options are as asked and normal: a summary asks for no details, a full view without a choice for all |
| `StatusCache.KeyDeterminesLoad` | proxy/cluster_status_api.go:244-263 | two normal requests have the same cache key exactly when they load the same thing |
| `StatusCache.Cache.Read` | proxy/cluster_status_api.go:295-332 | a fresh reply is younger than its time to live, a stale one is not, both tell their age and were loaded for the same options; a stale reply starts a refresh exactly when none is flagged, and that is the second of its key exactly when one runs without its flag |
| `StatusCache.Cache.FinishLoad` | proxy/cluster_status_api.go:334-348 | a successful foreground load stores the entry under the key of its options and drops the flag; a failed one changes nothing |
| `StatusCache.Cache.FinishRefresh` | proxy/cluster_status_api.go:358-381 | a refresh drops the flag whether or not it succeeded, and stores its result |
| `StatusCache.Refreshes.StartKeeps` | proxy/cluster_status_api.go:319-322 | starting a refresh keeps every set flag owned by a running refresh |
| `StatusCache.Refreshes.StartOverlaps` | proxy/cluster_status_api.go:319-322 | a started refresh is one of several of its key exactly when another of that key runs, whose flag a foreground load has dropped |
| `StatusCache.Refreshes.EndKeeps` | proxy/cluster_status_api.go:367-373 | so does the end of any refresh |
| `StatusCache.Refreshes.OvertakeKeeps` | proxy/cluster_status_api.go:339-348 | so does a foreground load that ends while a refresh runs |
| `StatusCache.Cache.RefreshesBounded` | proxy/cluster_status_api.go:318-347 | the flag never leaks: a set flag belongs to a running refresh; refreshes of a key number at most one plus the foreground loads that ended while its flag was set |
| `StatusCache.OvertakenRefreshes` | proxy/cluster_status_api.go:347-347 | the bound is met for every n: n + 1 refreshes of one key run after n such loads |
| `StreamMetrics.ScanLines` | proxy/metrics_monitor.go:314-326 | the loop over the lines from the end finds, for any test of a line, what the forward scan finds last |
| `StreamMetrics.ScanBackward` | proxy/metrics_monitor.go:310-360 | the backward scan selects what the forward scan over all lines selects last, and reports absence otherwise |
| `StreamMetrics.LastPayloadIs` | proxy/metrics_monitor.go:311-312 | that is the payload of some line with none on a later line |
| `StreamMetrics.LinesIsSplit` | proxy/metrics_monitor.go:311-312 | the lines are the body split at its newlines: joined they give the body, and none contains one |
| `StreamPayload.PayloadIff` | proxy/metrics_monitor.go:325-350 | the payload of a line is the data of a line made of white space, "data:", white space, the data and white space, if that is not empty, not the end mark, and carries something; every other line has none |
| `StreamPayload.TrimOf` | proxy/metrics_monitor.go:325-325 | trimming takes away the white space at both ends and nothing else |
| `StreamPayload.TrimParts` | proxy/metrics_monitor.go:325-325 | and all of it |
| `StreamPayload.SpacesAreUnicode` | proxy/metrics_monitor.go:325-325 | white space is exactly the UTF-8 encoding (section 3 of RFC 3629) of the characters with the Unicode property White_Space |
| `ShellText.SplitShellStatementsTopLevel` | proxy/recipes_ui.go:4216-4264 | the scanner returns the pieces between the unquoted, unescaped, unnested semicolons |
| `ShellText.JoinOfSplit` | proxy/recipes_ui.go:4216-4264 | splitting loses nothing: joining the statements with semicolons is the script |
| `ShellText.SplitOfJoin` | proxy/recipes_ui.go:4216-4264 | splitting a join of balanced statements and an uncut last piece returns them |
| `ShellText.SplitIff` | proxy/recipes_ui.go:4216-4264 | the pieces found are the only ones that join to the script, with a balanced statement in every place but the last and no separator in that |
| `ShellGrammar.SplitsAtStatements` | proxy/recipes_ui.go:4216-4264 | stated on texts: a script is cut exactly at the semicolons between its statements, and at none inside quotes, after a backslash or in a subshell, however nested |
| `ShellGrammar.UnclosedProtects` | proxy/recipes_ui.go:4216-4264 | a quote or a subshell left open protects the rest of the script |
| `ShellText.BalancedConcat` | proxy/recipes_ui.go:4216-4264 | text put together from balanced pieces is balanced |
| `ShellText.QuoteRoundTrip` | proxy/cluster_status_api.go:1115-1117 | a shell reads a quoted value back as the value, by sections 2.2.1 to 2.2.3 of the POSIX.1-2017 Shell Command Language |
| `ShellText.BackslashInDoubleQuotes` | proxy/cluster_status_api.go:1115-1117 | the reader of words follows section 2.2.3 of the POSIX.1-2017 Shell Command Language |
| `ShellText.QuoteIsOneStatement` | proxy/cluster_status_api.go:1115-1117 | a quoted value is one balanced statement, whatever it contains |
| `HealthPolling.DelayIs` | proxy/process.go:358-362 | the wait before retry i is 200 ms doubled i times, capped by the interval; constant without an interval |
| `HealthPolling.AsksBounded` | proxy/process.go:363-404 | if every iteration lasts its wait, the endpoint is asked at most limit / interval + k + 1 times, k being the number of shorter waits |
| `HealthPolling.SomeRetrySettles` | proxy/process.go:399-404 | every interval is reached after some number of retries, so the bound is never vacuous |
| `HealthPolling.HealthyInTimeIsNoticed` | proxy/process.go:363-404 | an upstream healthy from time h on passes a check by h plus one wait, if the limit leaves room for it and nothing stops the process |
| `HealthPolling.Poll` | proxy/process.go:358-405 | the loop ends, at the first iteration that does not go on, with the outcome that iteration calls for, within the bound |
| `BenchyJobs.JobTable.Start` | proxy/benchy.go:401-405 | a new job gets its cancel function |
| `BenchyJobs.JobTable.SetRuntimeStatus` | proxy/benchy.go:1241-1250 | changes the status of that job only, a pruned job is left alone; the table stays in order exactly when no finished job is given a status that is not final |
| `BenchyJobs.JobTable.Cancel` | proxy/benchy.go:450-462 | canceling is accepted exactly for the unfinished jobs |
| `BenchyJobs.JobTable.Finish` | proxy/benchy.go:712-737 | over every run a cancel function is held exactly for every unfinished job and at most 25 finished jobs are held; that none pruned over the run finished after one still held is kept exactly if no job that finished later is pruned yet, or the table is over its limit, or the job unknown |
| `BenchyJobs.OrderKeptIff` | proxy/benchy.go:712-767 | the exact condition under which recording a job and pruning keep that order |
| `BenchyJobs.LateRecord` | proxy/benchy.go:712-737 | a run that breaks it: a job recorded after one that finished later was pruned |
| `BenchyJobs.JobTable.Prune` | proxy/benchy.go:739-767 | removes exactly the excess over 25, or all finished jobs if fewer, oldest first, and never an unfinished one |
| `BenchyJobs.PrunedFits` | proxy/benchy.go:739-767 | afterwards the table fits unless only unfinished jobs are left, and those are all there |

## Left out

- Event dispatcher: Close, the panic on conflicting event types, handlers that publish into their own group, and Count.
- Event queues: how much Go's append over-allocates; the model doubles.
- The number of publishers of a group is fixed (and arbitrary) from the start.
- `SwapGroup`: a process is a value there, because its steps interleave; of start the state, the wait channel and whether the command runs are modelled, not its context, the log and the failure count. A running command may exit, a launch fail and a shutdown end at any time.
- `SwapGroup`: runs end before a second close of a channel, which ends the program.
- `SwapGroup`: the branch of start that waits for another start of the same process is left out; the request mutex of the group admits one request at a time.
- Exclusivity across groups under concurrent requests: swapProcessGroup takes no lock, so `ModelLoading` handles one request at a time.
- Groups without swap under concurrent requests, and a member that is an alias of a model, for which ProxyRequest finds no process.
- Reload concurrent with requests: the model reloads over a snapshot of the process states, and the shutdowns after the lock is released are separate methods.
- Reload may keep a process under its resolved name and also shut it down when a member names it by an alias; only the loss of a process is excluded.
- That a stopped operating system process is gone, and that shutdown is final: states are forced.
- ModelGroups: the sorting of the default group's members, which only makes their order repeatable.
- Macros: substitution in peer filters, environment macros, allocation of port numbers, comment stripping, the check for unknown macros other than that it finds any reference left, and the YAML reader.
- MacroExpansion.MetadataExpands: numbers and booleans are represented by how they print, without a dollar sign.
- LogHistory: the writer behind the log monitor is an outcome, and the broadcast of each write to subscribers is left out.
- CaptureStore: a negative metrics limit (adding a metric would panic) and a negative buffer size; the contents of a metric other than its ID.
- StatusCache: the path without a cache (a time to live of zero or less), the reading of query parameters, the loader. Ages are exact where the code rounds down to milliseconds.
- StreamMetrics: whether a payload is JSON with usage or timings is a parameter, and its numbers are not read.
- ShellText: texts are sequences of bytes written as characters; word splitting and expansion are outside the reader, which rejects them.
- HealthPolling: durations are unbounded integers, the initial wait before the loop, and a process with no health check.
- BenchyJobs: jobs that finished at the same time may be pruned in any order, as with the unstable sort; the set of candidates is built at once. Output, queues and the subprocess of a job are left out.
- HTTP, reverse proxying, streaming of loading states, the rate limiter, peers, authentication, SSH, Docker, recipe files and the web interface.
