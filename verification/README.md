# RTSyn Engine: a verified model

The RTSyn Engine runs a real-time loop over a runtime graph. Each cycle announces itself on a telemetry
queue, drains a bounded number of commands, steps the runtime unless paused, publishes the values
clients subscribed to, and sleeps to an absolute deadline. A controller starts, stops, joins and destroys
it while a real-time thread and a wait thread run beside it. This project models that engine in Dafny and
proves what its clients rely on. `dafny verify dfyconfig.toml` checks all of it.

## How it is laid out

Where the engine updates state step by step, so does the model: the classes `SubscriptionTable.Table`,
`Publisher.Publisher`, `ModuleRegistry.Modules`, `ResultWriter.Writer` and `Engine.Engine` have the
engine's fields and loops, and each method is proved against a function of the old state. The theorems are
about those functions and about all runs of them.

| module | what it holds |
|---|---|
| `BitMask`, `Subscriptions`, `SubscriptionTable` | the subscription table: 64-bit masks in an array, the same table on sets, and the map both stand for |
| `Telemetry`, `Sampling`, `Publisher` | sequence numbers, drop counters, the attempted and the delivered stream, and the sampling loop |
| `Registry`, `ModuleRegistry` | loaded modules, the nodes built from them, and how long a descriptor lives |
| `CStrings`, `Descriptors` | strings in fixed buffers, and bounded copies of node descriptors |
| `Results`, `ResultWriter` | results, and the snapshot block with its decoder |
| `Commands` | the commands, their dispatch, and what every command sequence keeps |
| `RtLoop`, `StreamGrammar`, `Transcript`, `Timestamps`, `Schedule` | the cycle, runs of cycles, restarts, and theorems over all of them |
| `Clients` | from subscribe commands to the samples clients are sent |
| `Engine` | the engine object and its real-time loop |
| `Lifecycle`, `Progress`, `Runs` | start, stop, join and destroy as interleaved atomic steps, what is safe and what gets done |
| `Options` | a value that may be missing |

What lies outside is an environment that may answer in any way: a queue accepts or refuses the n-th
attempt, a command carries the answers of the loader, the allocator and the runtime to it, and a cycle
carries the clock readings, the runtime's values and the measurement. Capacities, sizes and the command
budget are symbolic.

## What the proofs turned up

- A load that fails at its last step, the insertion into the collection, has already removed the previous
  module of that name and its nodes (`src/engine.c:398-409`). `Registry.FailedLoadKeepsStateIff` says
  exactly when a failed load is without effect, and `Registry.FailedLoadLosesModule` is one that is not.
- The terminator of a snapshot says OK even when an earlier push was refused
  (`src/engine/events/telemetry_command.c:395-402`): the client then reads a smaller graph as if it were
  complete, as in `Results.RefusedNodeUnseen`. `Results.PartialBlockLooksComplete` says for which answers of
  the queue this happens, and `Results.SnapshotRoundTrip` for which the whole graph arrives.
- A descriptor copy reports its counts uncut but shortens strings silently and turns null ones into empty
  ones. `Descriptors.CopyFaithfulIff` gives the exact condition for a faithful copy,
  `Descriptors.OnlyCountsShow` what a client can notice, and `Descriptors.ShortenedNameUnseen` and
  `Descriptors.NullNameUnseen` are modules it cannot tell apart.
- `destroy` ignores the result of its join and frees all the same (`src/engine.c:231-239`). If that join may
  fail, calling `destroy` is safe exactly when `running` is false at the call
  (`Lifecycle.DestroyIsSafeIffNotRunning`); `Lifecycle.FailedJoinFreesTooEarly` is a run in which it is not.
- The early `return true` of `join` on `wait_joined` (`src/engine.c:296-299`), and likewise the second half
  of the test in `destroy`, never decide anything: `Lifecycle.StartedNeverWaitJoined`.
- A failed value batch uses up a sequence number without moving the event counter that messages carry: that
  counter explains a gap exactly when no batch failed in it (`Telemetry.GapTheorem`), and
  `Telemetry.LostBatchUnexplained` is a stream with one that did.

## Model

| member | source | states |
|---|---|---|
| `BitMask.OrIsUnion` | `src/engine/events/telemetry_command.c:251-251` | or-ing a mask into a 64-bit word is the union of the two sets of bit indices |
| `BitMask.AndNotIsDifference` | `src/engine/events/telemetry_command.c:255-255` | and-ing with the complement is set difference |
| `BitMask.ZeroIsEmpty` | `src/engine/events/telemetry_command.c:56-56` | a word is zero exactly when no bit index 0 to 63 is in it |
| `Subscriptions.FreeSlotIffRoom` | `src/engine/events/telemetry_command.c:38-50` | pigeonhole: a free slot exists exactly when the map has fewer entries than the table has slots |
| `Subscriptions.UpdateRefinesMap` | `src/engine/events/telemetry_command.c:230-260` | every request keeps the table well formed (unique ids, no empty used slot, free slots zero) and does to the map it stands for, and answers, exactly what union, difference and removal do |
| `Subscriptions.RefusedIffFull` | `src/engine/events/telemetry_command.c:239-259` | a well-formed subscribe is refused, changing nothing, iff the node has no entry and the map is full; an unsubscribe always succeeds and frees the entry iff nothing is left in it |
| `SubscriptionTable.Table.constructor` | `src/engine.c:163-163` | a new table is well formed and stands for the empty map |
| `SubscriptionTable.Table.FindSubscription` | `src/engine/events/telemetry_command.c:13-26` | the linear search returns the first used slot of the node, or says there is none |
| `SubscriptionTable.Table.GetOrCreateSubscription` | `src/engine/events/telemetry_command.c:28-51` | returns the node's slot, or takes the first free one with empty masks and changes no other slot |
| `SubscriptionTable.Table.CleanupSubscription` | `src/engine/events/telemetry_command.c:53-62` | a slot with both masks empty becomes a zeroed slot, any other stays |
| `SubscriptionTable.Table.UpdateSubscriptionMask` | `src/engine/events/telemetry_command.c:230-260` | the in-place update on 64-bit masks does to every slot, and answers, what the table on bit sets does |
| `Commands.FoldKeepsSound` | `src/engine/events/command.c:11-58` | over every command sequence the table stays well formed and every engine-built node stays on a live, registered loader |
| `Commands.TableRefinesMap` | `src/engine/events/telemetry_command.c:230-306` | for every command sequence, from any well-formed table, the slot array stands for the map folded with set union and difference |
| `Commands.LastWriterWins` | `src/engine/events/telemetry_command.c:230-306` | a bit of a node's ports or variables is subscribed iff the last accepted command covering it was a subscribe, whatever slots, nodes and modules went through in between |
| `Clients.SampledIffSubscribed` | `src/engine/events/telemetry.c:239-324` | from commands to samples: in every cycle of every run the engine attempts to send a sample of a value iff the tables of a device or plugin node hold a readable one and the last accepted command covering it, among all popped so far, was a subscribe; and every sample bears the cycle, time, node and source, and what a sample keeps of the value held |
| `Clients.CycleSends` | `src/engine/events/telemetry.c:247-323` | the batches a cycle attempts are exactly those of its table, in slot order |
| `Commands.LastLoadWins` | `src/engine.c:395-411` | for every command sequence the module under a name is the one the last acceptable load of that name brought, or none if that could not be stored |
| `Commands.OneResultPerCommand` | `src/engine/events/telemetry_command.c:308-370` | a well-formed load, add or remove is answered by exactly one result with its own number, kind, outcome and code; nothing else but a snapshot request pushes a result, and a malformed one changes nothing |
| `Commands.LoadAnswer` | `src/engine/events/telemetry_command.c:320-336` | a load succeeds iff the module is of the type asked for, has a name and can be stored; the answer copies the descriptor now registered under that name, and nothing when it failed |
| `Commands.AddAnswer` | `src/engine/events/telemetry_command.c:351-369` | an add succeeds iff the name is loaded under the type and the runtime takes the node; the answer names a node that is in the runtime and copies the live descriptor it stands on, or carries the invalid id and adds nothing |
| `Commands.RemoveAnswer` | `src/engine/events/telemetry_command.c:414-423` | the answer to a remove says whether the runtime had the node; afterwards it has exactly the other nodes |
| `Commands.RemovedIsNotDescribed` | `src/engine/events/telemetry_command.c:405-424` | after a remove, and any commands during which the runtime does not give the id away again, no snapshot that arrives whole describes a node with that id |
| `Commands.DescriptorsOutliveNodes` | `src/engine.c:395-461` | after every command sequence an engine-built node's loader has not been destroyed and is the one registered under the node's name |
| `Commands.SnapshotSkipsNoNode` | `src/engine/events/telemetry_command.c:158-165` | after every command sequence from an empty runtime a snapshot describes every node, in order |
| `Commands.SnapshotAfterRun` | `src/engine/events/telemetry_command.c:372-403` | after every command sequence a request changes nothing but the results, succeeds iff the queue takes every message, exactly then what it adds to the results decodes to the whole graph, and that graph tells what the runtime and the modules say |
| `Commands.StopIsSticky` | `src/engine/events/global_command.c:26-28` | after any commands stop is requested iff it was before or one of them narrows to STOP |
| `Commands.PausedIsLastPause` | `src/engine/events/global_command.c:29-34` | after any commands the engine is paused iff the last PAUSE or RESUME among them is PAUSE |
| `Commands.LastPeriodWins` | `src/engine/events/command.c:43-46` | after any commands the period is that of the last accepted change, or as it was |
| `Commands.GlobalAnswer` | `src/engine/events/global_command.c:22-37` | the low byte of the code decides: 0 nothing, 1 stop, 2 pause, 3 resume, any other refused |
| `Commands.SubscriptionAnswer` | `src/engine/events/telemetry_command.c:234-259` | a subscription command is refused iff the id is invalid, the mask zero, or a subscribe finds no entry in a full table, and then changes nothing |
| `Commands.OtherAnswers` | `src/engine/events/command.c:20-57` | nothing to do succeeds, an unknown type is refused, and what the runtime is handed succeeds as it says |
| `Telemetry.PushAccounted` | `src/engine/events/telemetry.c:104-123` | an attempted event, accepted or refused, keeps the account: consecutive numbers, stamps equal to the drops before each message, true drop reports, counters equal to what the log lost |
| `Telemetry.PublishValuesAccounted` | `src/engine/events/telemetry.c:207-237` | the same for a batch of values, whose failure is counted in samples |
| `Telemetry.PushAnswers` | `src/engine/events/telemetry.c:104-123` | a push succeeds iff there is a queue that takes it, the consumer gets the message iff it did, and otherwise one more drop is counted |
| `Telemetry.AnyDropIsRefused` | `src/engine/events/telemetry.c:191-195` | the counters are positive iff something has been refused |
| `Telemetry.SequenceConservation` | `src/engine.c:479-492` | the last number used is the messages enqueued plus dropped events plus failed batches, and enqueued numbers strictly increase |
| `Telemetry.GapTheorem` | `src/engine/events/telemetry.c:113-119` | between two consecutive enqueued messages the missing numbers are the events dropped plus the batches failed; the stamped counter grows by the events alone, so it explains the gap iff no batch failed |
| `Telemetry.LostBatchUnexplained` | `src/engine/events/telemetry.c:219-234` | a batch refused between a begin and an end: one number missing, the stamped counter unmoved |
| `Telemetry.DropReportIsTrue` | `src/engine/events/telemetry.c:197-204` | a drop report states exactly the events and the samples lost before it |
| `Sampling.BatchIsExact` | `src/engine/events/telemetry.c:70-102` | told by the runtime's tables: a batch is exactly the subscribed ports (an output port, or an input port where there is no output port of that id) and then the subscribed states that hold a readable value of a type that can be sampled, each once, ascending, numbered from 0, at most 128, with the number or the prefix of the string held there |
| `Sampling.BatchHasNoDuplicates` | `src/engine/events/telemetry.c:264-313` | no value appears twice in a batch, and offset, cycle and node of each sample are as announced |
| `Sampling.PublishesEveryBatch` | `src/engine/events/telemetry.c:247-323` | one attempt per non-empty batch in slot order, none stopping the next; the call returns false iff one of them was refused |
| `Sampling.WithoutOutputs` | `src/engine/events/telemetry.c:213-217` | with an output missing nothing is published, and the call returns false iff there was a batch to send |
| `Sampling.SamplesConserved` | `src/engine/events/telemetry.c:315-323` | in one call every sample collected is delivered or added to the dropped-values counter |
| `Sampling.OneBatchPerNode` | `src/engine/events/telemetry.c:248-261` | with unique subscriptions a node has at most one batch per cycle |
| `Publisher.SampleValue` | `src/engine/events/telemetry.c:14-68` | fills the entry and reports whether the type is known and the read succeeded; numbers go in whole, strings as much as the buffer takes, and a failed read touches no other entry |
| `Publisher.AppendSamples` | `src/engine/events/telemetry.c:266-288` | the loop over 64 indices, writing over entries that failed, leaves in the buffer exactly the specified samples after those already there, every write inside the buffer |
| `Publisher.Publisher.PushTelemetry` | `src/engine/events/telemetry.c:104-123` | numbers and stamps the message, and counts it as dropped when the queue refuses it |
| `Publisher.Publisher.PublishBatch` | `src/engine/events/telemetry.c:207-237` | numbers and stamps the batch, and counts its samples as dropped when the queue refuses it |
| `Publisher.Publisher.PublishCycleDropped` | `src/engine/events/telemetry.c:188-205` | attempts a report with both counters iff one of them is positive |
| `Publisher.Publisher.PublishRequestedValues` | `src/engine/events/telemetry.c:239-324` | the nested loops over slots and the 128-entry buffer publish exactly the specified batches and return the specified flag |
| `Registry.LoadKeepsValid` | `src/engine.c:395-411` | a load, successful or not, keeps names and loaders unique, live loaders exactly those registered, and every engine-built node on the live module of its name, even when the final insertion fails |
| `Registry.LoadUpdatesOneName` | `src/engine.c:369-411` | a load succeeds iff the module is acceptable and stored; it rebinds or removes only the module's own name and drops exactly the runtime nodes of that name |
| `Registry.FailedLoadKeepsStateIff` | `src/engine.c:395-409` | a failed load leaves modules and nodes as they were iff it is not the case that the module was acceptable and its name in use; otherwise the old module and its nodes are lost |
| `Registry.FailedLoadLosesModule` | `src/engine.c:398-409` | a module with one node, replaced under its own name when the insertion fails: both are gone |
| `Registry.AddAsSucceedsIff` | `src/engine.c:444-461` | adding succeeds iff the name is loaded under the wanted type and node creation and insertion succeed; the node then stands on the module of its name |
| `Registry.AddSucceedsIff` | `src/engine.c:414-442` | without a wanted type: iff the name is loaded as a plugin or a device and creation and insertion succeed |
| `Registry.KeepsOrder` | `src/engine.c:398-398` | removing runtime nodes keeps the others in order |
| `Registry.RemoveKeepsValid` | `src/engine/events/telemetry_command.c:414-415` | removing runtime nodes keeps the registry valid |
| `ModuleRegistry.Modules.DestroyLoader` | `src/engine.c:29-39` | may be called only on a live loader that no runtime node refers to: every caller below proves that |
| `ModuleRegistry.Modules.Register` | `src/engine.c:398-409` | namesakes go first, nodes before module, then the new entry goes in or its loader is destroyed |
| `ModuleRegistry.Modules.LoadNodeDescriptorAs` | `src/engine.c:360-412` | on every failure path the new loader is destroyed and on success kept, with the specified modules and nodes as the result |
| `ModuleRegistry.Modules.AddNode` | `src/engine.c:414-442` | a node is added only when its module is loaded, creatable and accepted by the runtime |
| `ModuleRegistry.Modules.AddNodeAs` | `src/engine.c:444-461` | the same, and only under the wanted type |
| `Descriptors.CopyFaithfulIff` | `src/engine/events/telemetry_command.c:82-137` | the receiver can rebuild a descriptor iff every count fits its capacity and every string is there and fits its own buffer |
| `Descriptors.CopyIsExact` | `src/engine/events/telemetry_command.c:91-136` | every field of a copy: the uncut counts, the first entries there is room for, and of every string the longest prefix its buffer takes, nothing of a null |
| `Descriptors.OnlyCountsShow` | `src/engine/events/telemetry_command.c:93-95` | missing entries show in the uncut counts, changed strings do not: what the receiver rebuilds has the same copy as the original iff the original's counts fit, whatever its strings |
| `Descriptors.ShortenedNameUnseen` | `src/engine/events/telemetry_command.c:78-79` | two modules with different names one character too long, and one copy |
| `Descriptors.NullNameUnseen` | `src/engine/events/telemetry_command.c:72-76` | two modules, one with a null port name and one with an empty one, and one copy |
| `Results.SnapshotRoundTrip` | `src/engine/events/telemetry_command.c:372-403` | a snapshot request returns true iff the queue takes every one of its messages, exactly then decoding what the client received, up to the terminator, gives the whole graph, and that tells each node of a loaded module with its run state (stop for an invalid one) and each connection with both ports, once and in order |
| `Results.SnapshotTells` | `src/engine/events/telemetry_command.c:148-217` | what the whole graph tells, field by field, of the runtime's nodes, the loaded modules and the connections |
| `Results.BlockIsMarked` | `src/engine/events/telemetry_command.c:173-214` | every message of a block carries the request's number and success, and nothing of the other kind |
| `Results.BlockDecodes` | `src/engine/events/telemetry_command.c:148-217` | a complete block decodes to the graph whatever follows it in the queue |
| `Results.PartialBlockLooksComplete` | `src/engine/events/telemetry_command.c:395-402` | the client sees a finished block iff the queue takes the last push; the graph it reads is then too small iff an earlier push was refused |
| `Results.RefusedNodeUnseen` | `src/engine/events/telemetry_command.c:180-181` | one node whose push is refused, and a client that reads an empty graph as if complete |
| `Results.PushAllSucceedsIff` | `src/engine/events/telemetry_command.c:219-228` | a batch of pushes succeeds iff the queue takes each of them |
| `Results.EngineGraphIsComplete` | `src/engine/events/telemetry_command.c:158-180` | in a graph built only through the engine every node is described: its id, its own run state or the stop code, and a copy of its own module's descriptor |
| `CStrings.CopyString` | `src/engine/events/telemetry_command.c:64-80` | whatever a non-empty buffer held, it then holds the longest prefix that fits, terminated; a null source gives the empty string |
| `ResultWriter.CopyDescriptor` | `src/engine/events/telemetry_command.c:82-137` | the copy loops produce the specified bounded descriptor, null strings as empty ones |
| `ResultWriter.Writer.PushNodeSnapshots` | `src/engine/events/telemetry_command.c:148-182` | one push per node with a loaded module; a refused push is remembered and stops nothing |
| `ResultWriter.Writer.PushConnectionSnapshots` | `src/engine/events/telemetry_command.c:184-217` | one push per connection with both ports; a refused push is remembered and stops nothing |
| `ResultWriter.Writer.RequestRuntimeNodes` | `src/engine/events/telemetry_command.c:372-403` | nodes, then connections, then the terminator; true iff every push was accepted |
| `RtLoop.DrainIsFold` | `src/engine/thread.c:15-28` | a drain pops at most the budget, stops early only on an empty queue, and folds the dispatcher over what it popped |
| `RtLoop.RunIsFold` | `src/engine/thread.c:30-77` | after any run the control state is the dispatcher folded over the commands popped |
| `RtLoop.BatchingIndependence` | `src/engine/thread.c:15-28` | two runs over one command stream that popped equally much agree on everything but which results got through, whatever their budgets, their timings and the answers of their result queues |
| `RtLoop.BatchingKeepsResults` | `src/engine/thread.c:15-28` | and on the results too when the queues answer alike |
| `RtLoop.RestartsIndependence` | `src/engine.c:242-275` | two histories of starts and stops over one command stream that popped equally much agree on table, modules, nodes and period |
| `RtLoop.RestartsAreFold` | `src/engine.c:242-275` | after any number of starts and stops the control state, apart from the two flags a start clears, is the dispatcher folded over all commands popped |
| `RtLoop.StopBound` | `src/engine/thread.c:36-41` | a STOP waiting j commands from the front ends the loop within floor(j / B) + 1 cycles and as many full budgets of commands, paused or not |
| `RtLoop.StopExact` | `src/engine/events/global_command.c:26-28` | with no earlier STOP the request is seen after exactly floor(j / B) + 1 cycles |
| `RtLoop.StepsAreUnpausedCycles` | `src/engine/thread.c:41-46` | runtime steps are the cycles after whose drain the last PAUSE or RESUME is not PAUSE |
| `RtLoop.StepsAcrossRestarts` | `src/engine.c:250-251` | over any number of generations: in each the commands popped since its own start decide, and it begins unpaused |
| `RtLoop.RestartRuns` | `src/engine.c:250-255` | a start clears stop and pause and nothing else, so the next generation can run from where the last one ended |
| `RtLoop.ConservationAcrossRestarts` | `src/engine.c:479-501` | sequence conservation, strictly increasing numbers and exact counters over any number of generations |
| `RtLoop.GapAcrossRestarts` | `src/engine/events/telemetry.c:113-119` | what a gap between neighbouring messages means, over any number of generations |
| `RtLoop.DropReportAcrossRestarts` | `src/engine/events/telemetry.c:197-204` | what a drop report means, over any number of generations |
| `RtLoop.ValueConservation` | `src/engine.c:494-501` | with both outputs, samples collected over a run are those in delivered batches plus the growth of the dropped-values counter |
| `RtLoop.ValueConservationAcrossRestarts` | `src/engine.c:494-501` | the same over any number of generations |
| `StreamGrammar.StreamConforms` | `src/engine/thread.c:36-74` | attempted messages are begin, at most one batch per node, end, an optional drop report, an optional measurement, cycle after cycle with numbers growing by one |
| `StreamGrammar.StreamConformsAcrossRestarts` | `src/engine/thread.c:36-74` | restarts continue the stream where the last generation left it |
| `StreamGrammar.CycleReports` | `src/engine/events/telemetry.c:188-205` | a cycle attempts one drop report iff a loss had been counted by the end of its own end message, and a loss once counted stays counted |
| `StreamGrammar.ReportedEveryCycle` | `src/engine/events/telemetry.c:188-205` | once anything has been lost every later cycle attempts exactly one drop report |
| `StreamGrammar.ReportedAcrossRestarts` | `src/engine/events/telemetry.c:188-205` | and so does every cycle of every later generation: no start forgets a loss |
| `Timestamps.StreamInOrder` | `src/engine/thread.c:38-70` | over every run with a monotone clock message timestamps never go back, and a cycle ends no earlier than it started |
| `Timestamps.ConsumerSeesOrder` | `src/engine/thread.c:38-70` | what the consumer pops over such a run is stamped in order and never after the last completion |
| `Timestamps.OrderAcrossRestarts` | `src/engine/thread.c:38-70` | the same over any number of generations under one monotone clock |
| `Transcript.CycleSays` | `src/engine/thread.c:36-74` | a cycle attempts, each at its time: begin, the batches of its table, end with both clock readings, a report of the totals iff something has been refused by then, the measurement iff there is one |
| `Transcript.RunSpeaks` | `src/engine/thread.c:36-74` | every cycle of every run does, about the table and the period its own commands left |
| `Schedule.DeadlineIsSum` | `src/engine/thread.c:34-57` | the deadline is the first clock reading plus all periods read, so deadlines never drift |
| `Schedule.PeriodIsCommanded` | `src/engine/thread.c:49-49` | the period a cycle reads is the one the last accepted change asked for, its own drain included |
| `Schedule.DeadlineIsCommanded` | `src/engine/thread.c:34-57` | the deadline is the first clock reading plus, for each cycle, the period commanded by the end of its drain |
| `Schedule.DeadlineAcrossRestarts` | `src/engine/thread.c:34-34` | each generation counts from its own first clock reading and keeps the period commanded before it |
| `Schedule.CompletionRate` | `src/engine/thread.c:55-60` | no more than (T - D) / P cycles of constant period P complete by time T |
| `Schedule.PeriodConstant` | `src/engine/thread.c:49-49` | every cycle reads the period the generation started with when no accepted command changes it |
| `Schedule.SteadyCompletionRate` | `src/engine/thread.c:55-60` | the completion bound for such command streams |
| `Schedule.LatenessBound` | `src/engine/thread.c:54-60` | after n cycles lateness is within the jitter or has shrunk by n times the slack, when work plus jitter fits the period |
| `Schedule.SteadyLateness` | `src/engine/thread.c:54-60` | the lateness bound for command streams that change no period: a run that started on time is never later than the jitter |
| `Engine.CreateEngine` | `src/engine.c:147-217` | creation fails iff runtime or command queue is missing, a thread's scheduling inheritance is neither of the two known ones, or one of five allocations fails, and then holds nothing; otherwise the whole state of the new engine |
| `Engine.Platform.AcquireAll` | `src/engine.c:157-214` | each failing allocation gives back exactly what was taken before it, each once |
| `Engine.Platform.ReleaseAll` | `src/engine.c:234-239` | destroy gives back everything, each once |
| `Engine.Engine.constructor` | `src/engine.c:163-184` | a new engine has cleared flags, an empty table, zero counters, and the default budget in place of zero |
| `Engine.Engine.GlobalCommandEvent` | `src/engine/events/global_command.c:13-38` | the four known codes, after the cast to a one-byte enumeration, and the refusal of any other |
| `Engine.Engine.DispatchCommand` | `src/engine/events/command.c:11-58` | each command does to table, modules, flags, period and results exactly what the dispatch function says, and nothing else |
| `Engine.Engine.LoadNodeEvent` | `src/engine/events/telemetry_command.c:308-337` | load, then one result, with the specified state |
| `Engine.Engine.AddNodeEvent` | `src/engine/events/telemetry_command.c:339-370` | add, then one result, with the specified state |
| `Engine.Engine.RemoveNodeEvent` | `src/engine/events/telemetry_command.c:405-424` | remove, then one result, with the specified state |
| `Engine.Engine.DrainCommands` | `src/engine/thread.c:15-28` | the budgeted loop is the specified drain |
| `Engine.Engine.RunCycle` | `src/engine/thread.c:38-73` | one iteration of the loop is one specified cycle of table, modules, counters, messages, deadline and flags |
| `Engine.Engine.RtThreadMain` | `src/engine/thread.c:30-77` | the loop over any outside world, with a stop from another thread before any check, executes a run in the sense of the theorems above and ends only on a stop |
| `Engine.Engine.BeginGeneration` | `src/engine.c:250-255` | start clears the two flags and leaves everything else |
| `Engine.Engine.RunGeneration` | `src/engine.c:242-275` | start and loop together run one generation of a history of generations |
| `Lifecycle.ReachableInv` | `src/engine.c:219-309` | the invariant of flags, program counters and thread states holds in every state reached by any interleaving of controller, real-time and wait threads of all generations |
| `Lifecycle.FreeIsSafe` | `src/engine.c:227-239` | when destroy reaches free and its join has not failed, no thread of any generation has an engine access left, after any starts, failed starts, self-stops and restarts without join |
| `Lifecycle.DestroyIsSafeIffNotRunning` | `src/engine.c:227-239` | before the call: whatever happens in a destroy, its join failing included, no thread has an access left when it frees, iff running is false when destroy is called |
| `Lifecycle.FreeIsSafeIffNotRunning` | `src/engine.c:228-239` | at free: an access is left iff running is still set |
| `Lifecycle.FailedJoinFreesTooEarly` | `src/engine.c:231-239` | a concrete run in which the join fails and destroy frees under a live thread |
| `Lifecycle.GenerationsNeverInterfere` | `src/engine.c:245-255` | no thread of an earlier generation writes a flag, and no thread at all does while start resets the flags |
| `Lifecycle.StopIsMonotone` | `src/engine.c:250-250` | a stop request is cleared only by the first store of a start, made while not running |
| `Lifecycle.NotRunningMeansExited` | `src/engine/thread.c:84-86` | after a successful start, running is false only once the real-time thread has exited and rt_joined is set |
| `Lifecycle.JoinedMeansFinished` | `src/engine.c:288-309` | join returning true means not running and both threads finished |
| `Lifecycle.StartedNeverWaitJoined` | `src/engine.c:296-308` | started and wait_joined are never both set between calls, so the early success of join on wait_joined is dead code |
| `Lifecycle.DestroyTerminates` | `src/engine.c:219-240` | once destroy has requested a stop every interleaving of what remains is bounded in advance |
| `Lifecycle.DestroyNeverStuck` | `src/engine.c:227-239` | before the engine is freed there is always an enabled step that is not a failing join |
| `Lifecycle.DestroyGetsToTheEnd` | `src/engine.c:219-240` | from wherever a destroy stands, steps of the threads and of destroy, its join not failing, lead to the freed engine |
| `Progress.StopRequestHolds` | `src/engine.c:277-286` | a stop request stores the flag, and it is still set when the call has returned |
| `Progress.StartRefusedIff` | `src/engine.c:245-248` | start is refused, storing nothing, iff running is set |
| `Progress.LaunchIsClean` | `src/engine.c:250-257` | when the real-time thread is run, stop, pause and the marks of earlier generations are cleared and running and started set |
| `Progress.FailedStartIsOver` | `src/engine.c:257-272` | a failed start leaves nothing running, started or pending; a real-time thread that ran has exited and is marked so |
| `Progress.JoinRefusedIff` | `src/engine.c:291-294` | join is refused, storing nothing, iff nothing is started |
| `Progress.JoinedIsSettled` | `src/engine.c:306-308` | a successful join leaves nothing started |
| `Progress.EventsStore` | `src/engine/events/global_command.c:26-34` | what STOP, PAUSE and RESUME store when a real-time thread dispatches them |
| `Progress.FlagsHaveWriters` | `src/engine.c:219-309` | in every interleaving each of the six flags is set and cleared only by the steps whose store it is |
| `Progress.NeverExitsUnasked` | `src/engine/thread.c:36-76` | the real-time thread leaves its loop only with a stop requested |
| `Progress.StopBoundsThreads` | `src/engine/thread.c:36-89` | with a stop requested every interleaving of the threads is bounded in advance |
| `Progress.StopEndsGeneration` | `src/engine/thread.c:36-89` | and steps of the threads alone end a generation that start has launched |
| `Progress.SelfStopEndsGeneration` | `src/engine/events/global_command.c:26-28` | a STOP among the commands of a cycle ends its generation in the same way |
| `Progress.JoinGetsThrough` | `src/engine.c:288-309` | with a stop requested, steps without a failing join bring back any join that a client has begun |

## Left out

- Wrap-around of 64-bit counters, cycle ids and clock values: they are unbounded here, so the theorems speak of runs with fewer than 2^64 attempts, cycles and nanoseconds.
- Weak memory: the flags are read and written in atomic, sequentially consistent steps.
- More than one controller thread, and commands dispatched by any other thread than the real-time thread, as `rtsyn_engine_dispatch_command` would allow; batches published by other threads through `rtsyn_engine_publish_values`.
- Lifecycle.FreeIsSafe: assumes that joining the real-time thread, by the wait thread or on the failure path of `start`, succeeds once it has exited; only the join of the wait thread may fail.
- Lifecycle.DestroyGetsToTheEnd: says that the steps exist and DestroyTerminates that there are no endless ones, not that the scheduler takes them; termination of a cycle body itself is part of the environment.
- Lifecycle and Engine are two views: the lifecycle model keeps of a cycle only the flag stores its commands make, one step each, for any number of commands.
- Engine.Engine.RtThreadMain: one stop from another thread, landing before any one check, stands for all of them, because nothing reads the flag elsewhere in a cycle.
- RtLoop.StopBound: counts from the moment the STOP is visible to the queue's consumer; when the producer pushed it is not modelled.
- Commands: plugin updates, connections, parameters, priority and deadline tolerance are handed on to the runtime and have no engine state of their own; they are one opaque command that succeeds or not.
- Results.SnapshotRoundTrip: connections and node run states are what the runtime shows at the time of the request; how commands change them is part of the runtime.
- Publisher.SampleValue: starts from what the runtime's accessor hands over, for an I64 a C `int` and for a string its own buffer; how the accessor narrows or cuts before that is part of the runtime. Floating-point numbers are bit patterns.
- Publisher.AppendSamples: one method, called for ports and then for states, stands for the two loops of the source.
- The message and the sample values of a batch are published together, or not at all, by the queue.
- CStrings.CopyString: a destination of length zero is left alone; the null destination does not exist here.
- Null engines, messages and runtimes: the first guard of each function.
- Order of destruction after `destroy` has unloaded the modules; descriptor lifetime is stated up to the call of `destroy`.
- Module loading, the collection, the runtime, the measurement tool, thread priorities, probe stages, configuration defaults and `src/main.c`.
- The thread-local context of a snapshot: the callbacks are loops of one method.
