# Verified model of the embedded stream processor

The engine runs a validated graph of nodes joined by FIFO buffers. Barriers,
watermarks and stop signals travel in band with the data. This project models the
parts of `internal/engine` that are hard to get right and proves what they
guarantee, for every input, every interleaving and every reachable state.

`dafny verify dfyconfig.toml` checks everything.

## How the model is organised

| file | models |
|---|---|
| `Graphs.dfy` | construction, degree rules and three-colour cycle detection, as a class and a recursive search |
| `Collections.dfy`, `Messages.dfy` | general facts; messages, streams of an interleaving, and the cut of a stream at its k-th barrier |
| `Alignment.dfy`, `Watermarks.dfy` | the two per-node components, as classes that refine value-level steps |
| `NodeRuntime.dfy`, `StopProtocol.dfy` | one node's goroutines (mergers, loop, timers, sends, workers) as a step machine, and its invariants |
| `Network.dfy`, `GraphRuns.dfy`, `NodeHistories.dfy`, `SpacedEpochs.dfy` | the builder's wiring, all nodes together, and what whole runs of the graph guarantee |
| `Codecs.dfy`, `Timers.dfy` | the checkpoint encodings, the state store, the timer queue and operator checkpoints |
| `Schedules.dfy`, `Sleep.dfy`, `Debounce.dfy`, `Deduplicate.dfy` | the operators built on timers, against specifications that only look at the history |
| `Coordination.dfy`, `Retention.dfy` | completion tracking, quiescence, saving and retention |
| `CoordinatedEpochs.dfy` | the graph and the controller together, under a caller who waits for each checkpoint |
| `WorkerPool.dfy`, `PooledNodes.dfy`, `ErrorCounters.dfy` | the worker pool, a node together with its pool, and the error counters as interleaved steps |

Objects whose methods change their fields are classes, and every method's contract
gives the whole new state as a function of the old one. Goroutines are step machines:
a run is any sequence of steps, and a step that is not enabled does nothing. Go's
iteration over a map is a loop that picks an arbitrary remaining element.

## Premises the code does not enforce

- Input indices are in range (the mergers give them).
- No input delivers a second barrier while an alignment is open; `onBarrier` does not
  compare epochs (internal/engine/barrier_aligner.go:71-104). `NoRepeats` says exactly
  this, `ExactCountIffNoRepeats` that the barrier count is exact if and only if it
  holds, `SwallowedBarrierExample` shows a violation, `NothingIsSwallowed` that it
  always holds when epochs are spaced out, and `PatientIsSpaced` that they are when the
  caller initiates an epoch only once the controller shows the earlier ones as complete.
- For the shutdown theorems, no timer or tick emits at a node after the node's last stop.
  The loop does not prevent it: it looks at expired timers before it looks at the
  cancelled context (internal/engine/runtime.go:221-236), and a send on a cancelled
  context may still succeed. `StopLastIffNoLateTimers` says that stops stay last if and
  only if this does not happen, and `LateTimerExample` is an instance. All other results
  about runs hold with timers and ticks at any time.
- Sources may stamp the barriers of one epoch with different times
  (internal/engine/message.go:122-132), so agreement between nodes is stated on epochs.
- For the simple form of quiescence, an epoch is not initiated after a report for it,
  because `InitiateCheckpoint` overwrites the entry (internal/engine/controller.go:171).
  `QuiescentFromReadyOn` needs no such premise and `ReinitiationForgets` shows the
  violation.
- For graph and controller together, nodes do what handleAlignedBarrier and handleControl
  do (internal/engine/runtime.go:387-420, 507-535): a node reports an epoch after its
  snapshot for it, with the bytes of that snapshot, and a source puts each initiated
  epoch on each output once and reports it afterwards.
- The clock never goes backwards (timer operators).
- The graph has nodes, and only its nodes report to the controller.

Where the code and its documentation differ, the code is modelled. docs/architecture.md:90
promises a globally consistent snapshot at nodes with several inputs, but the messages
held back during the alignment are dispatched before the snapshot is taken
(internal/engine/runtime.go:342-353). `SnapshotIsCutPlusHeld` and `ConsistentCut` state
what the snapshot really covers and that it is the cut if and only if nothing was held
back; `HeldBackExample` is an instance where something was.

## Model

| member | source | states |
|---|---|---|
| `Graphs.Graph.AddNode` | internal/engine/graph.go:70-79 | adds exactly this node, or reports the duplicate and changes nothing |
| `Graphs.Graph.AddEdge` | internal/engine/graph.go:81-90 | adds the edge if and only if both ends exist, so edges never leave the graph |
| `Graphs.Graph.Validate` | internal/engine/graph.go:119-170 | accepts if and only if the graph is non-empty, connected, respects the degree rules and is acyclic; every error reported is true of the node it names |
| `Graphs.Graph.CheckConnected` | internal/engine/graph.go:124-134 | accepts if and only if no node of a larger graph is without edges; otherwise names such a node |
| `Graphs.Graph.CheckDegrees` | internal/engine/graph.go:136-162 | accepts if and only if sources have no incoming, sinks no outgoing and operators both kinds of edges; otherwise names an offender |
| `Graphs.Graph.DetectCycles` | internal/engine/graph.go:174-213 | no error if and only if the edges have no cycle, in every visiting order; the node named lies on a cycle |
| `Graphs.DepthFirst.Visit` | internal/engine/graph.go:186-202 | terminates, blackens everything reachable, and proves each black node to be on no cycle; the gray nodes are the call stack |
| `Graphs.EndsAreSourcesAndSinks` | internal/engine/graph.go:119-170 | in an accepted graph of two or more nodes, exactly the sources have no predecessor and exactly the sinks no successor |
| `Graphs.AcceptedGraphFlows` | internal/engine/graph.go:119-170 | every node of such a graph lies on a walk from a source to a sink |
| `Graphs.AcceptedSingleton` | internal/engine/graph.go:119-170 | a one-node graph is accepted if and only if it has no edge and is not an operator |
| `Alignment.BarrierAligner.OnMessage` | internal/engine/barrier_aligner.go:51-67 | refines the value-level step: pass, hold back, or hand over to the barrier step |
| `Alignment.BarrierAligner.OnBarrier` | internal/engine/barrier_aligner.go:71-104 | refines the value-level barrier step: one input passes at once, otherwise open, count, or align and release |
| `Alignment.StepCases` | internal/engine/barrier_aligner.go:51-104 | a step passes the message, holds it back, counts a barrier, or aligns; it aligns only when every other input has been counted |
| `Alignment.KeepsEveryInput` | internal/engine/barrier_aligner.go:51-104 | in every interleaving, what was released from an input followed by what is held back is all its non-barrier messages, in order |
| `Alignment.Conservation` | internal/engine/barrier_aligner.go:51-104 | over all inputs nothing is lost, duplicated or invented |
| `Alignment.BarriersAccounted` | internal/engine/barrier_aligner.go:71-104 | each input's barriers are the aligned ones, plus one if the open alignment counted it, plus those swallowed; so the k-th aligned barrier needs every input's k-th |
| `Alignment.ExactCountIffNoRepeats` | internal/engine/barrier_aligner.go:71-104 | the count is exact on all inputs if and only if no input repeats a barrier in an open alignment |
| `Alignment.SwallowedBarrierExample` | internal/engine/barrier_aligner.go:71-104 | two inputs one epoch apart: the second barrier of the faster one vanishes |
| `Alignment.AlignedInOrder` | internal/engine/barrier_aligner.go:71-104 | inputs that carry barriers for the same epochs, whatever their timestamps, give aligned barriers for those epochs in that order |
| `Alignment.AlignsFirstBarrier` | internal/engine/barrier_aligner.go:71-104 | whatever the inputs deliver, an alignment yields the first barrier delivered, by any input, after the message that made the alignment before it |
| `Alignment.AlignsEarliest` | internal/engine/barrier_aligner.go:71-104 | over the interleaving alone: if no input repeats a barrier in an open alignment, the k-th aligned barrier is the earliest of the inputs' k-th barriers |
| `Alignment.ReleasedIsCut` | internal/engine/barrier_aligner.go:51-104 | at every moment each input has been released exactly up to the barrier the next alignment waits for |
| `Alignment.SnapshotIsCutPlusHeld` | internal/engine/runtime.go:338-353 | before the aligning call exactly each input's pre-barrier prefix was released; the snapshot covers that cut and the held-back messages, and equals the cut on every input if and only if nothing was held back |
| `Alignment.HeldBackExample` | internal/engine/runtime.go:338-353 | a snapshot that covers a message sent after the barrier |
| `Alignment.SingleInput` | internal/engine/barrier_aligner.go:71-75 | with one input every barrier passes at once and nothing is ever held back |
| `Watermarks.WatermarkHolder.Update` | internal/engine/watermark.go:46-70 | refines the value-level update, including indices out of range and inputs that have not reported |
| `Watermarks.WatermarkHolder.TryAdvance` | internal/engine/watermark.go:73-129 | the two loops compute the candidate, which is emitted if and only if it is later than the current watermark |
| `Watermarks.CandidateMeaning` | internal/engine/watermark.go:73-129 | the candidate is the minimum over inputs that are not idle, or the maximum over all when all are idle |
| `Watermarks.SlotsHoldLast` | internal/engine/watermark.go:46-55 | for any reports, the holder keeps of each input exactly its last report, time and idle flag |
| `Watermarks.CandidateIsBest` | internal/engine/watermark.go:73-129 | the candidate is the earliest of the inputs' last reports that are not idle, and the latest of all when all are idle |
| `Watermarks.EmitsReference` | internal/engine/watermark.go:46-129 | for any reports, the holder emits exactly what a specification over the reports alone asks for, with the idle flag of the report it comes from |
| `Watermarks.RunningMaximum` | internal/engine/watermark.go:46-129 | the current watermark is the running maximum of the candidates and the zero time; emitted watermarks strictly increase up to it |
| `Watermarks.MinimumOfLatest` | internal/engine/watermark.go:46-129 | with monotone, never idle inputs it is the minimum of the inputs' latest reports, or the zero time if that is later |
| `NodeRuntime.AlignStep` | internal/engine/runtime.go:331-356 | every step keeps: what was dispatched, then what is to be, is what the aligner released; snapshots are its aligned barriers in order |
| `NodeRuntime.InputStep` | internal/engine/runtime.go:107-136 | every step keeps: mergers and loop are first in, first out per input, and the aligner is fed everything but watermarks |
| `NodeRuntime.SnapshotsStep` | internal/engine/runtime.go:342-392 | every step keeps: each snapshot has consumed the cut of every input plus the messages held back in its alignment |
| `NodeRuntime.PromisedGrows` | internal/engine/runtime.go:312-420 | no step, timers and ticks included, takes back or reorders what is sent on an output |
| `NodeRuntime.OutputStep` | internal/engine/runtime.go:387-420 | every step keeps: the barriers on an output are those of the snapshots, each right behind what had been sent at its snapshot |
| `NodeRuntime.WatermarkStep` | internal/engine/runtime.go:361-384 | every step keeps: the watermarks on an output, with the one about to be sent, are exactly those the holder has emitted, in order |
| `NodeRuntime.HolderStep` | internal/engine/runtime.go:331-366 | every step keeps: the holder is what the watermarks taken so far, each with its input, make of it |
| `StopProtocol.StoppedInputIsExhausted` | internal/engine/runtime.go:442-477 | once an input's stop was dispatched, nothing of the input waits or is held back and all its payload was dispatched |
| `StopProtocol.NothingAfterLastStop` | internal/engine/runtime.go:442-477 | when every input's stop has been dispatched, the node has nothing left to read, handle or align |
| `StopProtocol.StopStep` | internal/engine/runtime.go:423-504 | every step keeps: a stop is promised on the outputs exactly when the node has drained with no worker running, and as the last message |
| `Network.Wire` | internal/engine/builder.go:160-178 | buffer k becomes the next output of edge k's sender, the next input of its receiver and the next entry of the sender's port, and nothing else is wired |
| `Network.PortEdgesMeaning` | internal/engine/builder.go:171-177 | a port's list holds exactly the edges that leave the node by the port, once each, in order |
| `Network.PositionsDiffer` | internal/engine/builder.go:160-178 | edges of one node get different, increasing positions |
| `Network.AcceptedIsWired` | internal/engine/builder.go:150-178 | a validated graph of two or more nodes is wired, its nodes without inputs are exactly its sources and those without outputs exactly its sinks |
| `Network.EveryNode` | internal/engine/runtime.go:107-504 | every node of every reachable state satisfies all node invariants |
| `Network.EveryEdge` | internal/engine/runtime.go:112-131 | every edge is a queue: the receiver has taken a prefix of what was sent |
| `GraphRuns.ConsistentCut` | internal/engine/runtime.go:331-420 | in every run, on an edge between nodes with inputs, the receiver's q-th snapshot has consumed exactly what the sender put on the edge before its own q-th snapshot, followed by the messages held back; equal if and only if none was |
| `GraphRuns.CutOnEveryEdge` | internal/engine/runtime.go:331-420 | on every edge, also out of a source, the receiver's q-th snapshot has consumed exactly what was sent in front of the edge's q-th barrier, followed by the messages held back |
| `GraphRuns.ExactCutIntoSingleInput` | internal/engine/runtime.go:331-420 | from a sender with inputs into a node with one input the cut is exact, without the premise on repeated barriers, and both snapshots are for the same barrier |
| `GraphRuns.WatermarksStrictlyIncrease` | internal/engine/runtime.go:361-384 | watermarks strictly increase on every edge out of a node with inputs, whatever sources send |
| `GraphRuns.WatermarksFollowReports` | internal/engine/runtime.go:361-384 | in every run, the watermarks on an edge out of a node with inputs are exactly those that the watermarks on the node's inputs call for, sent or about to be, in order |
| `GraphRuns.StopsEverywhere` | internal/engine/runtime.go:423-504 | if stop is last on every source edge and no timer emits after a node's last stop, it is last on every edge of the graph |
| `GraphRuns.StopMeansFinished` | internal/engine/runtime.go:442-504 | a node that has sent a stop has no worker running and has dispatched everything ever sent on all its inputs |
| `GraphRuns.StopProvesUpstreamFinished` | internal/engine/runtime.go:442-504 | so a stop proves all edges on all paths into its sender to be finished |
| `GraphRuns.StopLastIffNoLateTimers` | internal/engine/runtime.go:221-306 | with sources that send nothing after a stop, stops are and stay last on all edges if and only if no timer or tick emits at a node after its last stop |
| `GraphRuns.LateTimerExample` | internal/engine/runtime.go:221-236 | a run of a source, an operator and a sink in which sources send nothing after a stop, the operator forwards the stop and then its timer emits data behind it |
| `NodeHistories.SnapshotsHoldBytes` | internal/engine/runtime.go:387-411 | in every run, a node's snapshots hold, in order, exactly the bytes its HandleCheckpoint gave |
| `NodeHistories.OutputsHoldEmissions` | internal/engine/operator.go:111-135 | in every run, the data a node with inputs has put on an output, or is about to, is exactly what its operator emitted there, in order |
| `NodeHistories.NeverStuck` | internal/engine/runtime.go:221-306 | a node that has something to read, handle, send or drain can take a step |
| `NodeHistories.SettledHasHandledAll` | internal/engine/runtime.go:107-356 | when no merger and no node can get on, everything ever sent on an edge has been taken, and has been dispatched or is held back by an open alignment |
| `SpacedEpochs.NothingIsSwallowed` | internal/engine/barrier_aligner.go:71-104 | if sources inject a barrier only when every node has taken its snapshot for the ones before, no alignment of any node in any run swallows a barrier |
| `SpacedEpochs.SpacedConsistentCut` | internal/engine/runtime.go:331-420 | under spaced epochs the cut of `ConsistentCut` holds on every edge between nodes with inputs without further premise |
| `SpacedEpochs.SnapshotsAgree` | internal/engine/runtime.go:387-420 | if moreover all sources inject the same epochs in the same order, the q-th snapshot of every node is for the q-th of them |
| `CoordinatedEpochs.PatientIsSpaced` | internal/engine/controller.go:169-189 | a caller who initiates an epoch only when the controller shows all earlier ones as complete spaces the epochs out, in every joint run of graph and controller |
| `CoordinatedEpochs.SnapshotsFollowTheController` | internal/engine/runtime.go:507-535 | under such a caller the q-th snapshot of every node is for the q-th epoch initiated, with any number of sources |
| `CoordinatedEpochs.OneCutPerEpoch` | internal/engine/runtime.go:331-420 | and across every edge between nodes with inputs the two snapshots for one epoch fit together: consumed is what was sent before, followed by what was held back |
| `CoordinatedEpochs.OneCutOnEveryEdge` | internal/engine/runtime.go:331-420 | on every edge, also out of a source, the edge's q-th barrier and the receiver's q-th snapshot are for the q-th epoch initiated, and the cut there fits |
| `CoordinatedEpochs.StoredEpochIsACut` | internal/engine/builder.go:219-234 | a stored checkpoint is a consistent cut: for every node with inputs the bytes stored for the q-th epoch are those its HandleCheckpoint gave at its q-th call, for its snapshot of that epoch, and these snapshots fit together across every edge |
| `Codecs.AppendUint32` | internal/engine/state_store.go:136-138 | appends the four bytes that read back as the low 32 bits |
| `Codecs.ParseEncode` | internal/engine/state_store.go:69-131 | parsing undoes encoding, record by record |
| `Codecs.ParseSplits` | internal/engine/state_store.go:94-131 | any data is well-formed records followed by a rest that is empty if accepted and otherwise starts with no well-formed record |
| `Codecs.AcceptsExactly` | internal/engine/state_store.go:94-131 | data is accepted if and only if it is a concatenation of well-formed records, which are unique |
| `Codecs.SnapshotRestores` | internal/engine/state_store.go:69-131 | for every enumeration order, restoring a snapshot gives back the store if and only if all keys and values are shorter than 2^32 |
| `Codecs.FormatExample` | internal/engine/state_store.go:67-91 | the record format, byte by byte, on an example |
| `Codecs.InMemoryStateStore.Snapshot` | internal/engine/state_store.go:69-91 | writes each entry once, in some order |
| `Codecs.InMemoryStateStore.Restore` | internal/engine/state_store.go:94-131 | stays in bounds; holds exactly the records before the first fault, later keys winning, and reports whether there is one |
| `Codecs.Transfer` | internal/engine/state_store.go:69-131 | a store restored from another's snapshot holds the same if and only if keys and values are shorter than 2^32 |
| `Timers.SearchAfter` | internal/engine/timer.go:58-60 | the binary search finds the end of the due timers of a sorted list |
| `Timers.TimerManager.Register` | internal/engine/timer.go:53-64 | stable insertion behind all timers that fire no later; keeps the list sorted |
| `Timers.TimerManager.PopExpired` | internal/engine/timer.go:67-86 | removes exactly the timers due and returns them in order |
| `Timers.TimerManager.Peek` | internal/engine/timer.go:89-96 | returns a queued timer unless there is none, the earliest one of a sorted queue, and one that is due exactly when PopExpired would pop something |
| `Timers.TimerManager.Snapshot` | internal/engine/timer.go:107-130 | the encoding of the list, empty for the empty list |
| `Timers.TimerManager.Restore` | internal/engine/timer.go:133-172 | reads as many of the announced timers as the data holds, stays in bounds, and reports whether that is all |
| `Timers.DecodingIsUnique` | internal/engine/timer.go:133-172 | at most one timer list fits any data |
| `Timers.TimersRestore` | internal/engine/timer.go:107-172 | a restored snapshot is the identical list if and only if count and name lengths are below 2^32 and instants fit 64 bits |
| `Timers.TimersAccepted` | internal/engine/timer.go:133-172 | data is accepted if and only if it is empty or starts with the encoding of some timers |
| `Timers.EncodeTimerCheckpoint` | internal/engine/timer.go:176-185 | the buffer holds the timer state's length, the timer state and the operator state |
| `Timers.NoPanicBelow4GiB` | internal/engine/timer.go:188-205 | slicing panics if and only if the 32-bit bound wraps, which needs four gigabytes of data |
| `Timers.CheckpointRoundTrip` | internal/engine/timer.go:176-205 | decoding undoes encoding if and only if the timer state's length plus four stays below 2^32 |
| `Timers.DecodesExactly` | internal/engine/timer.go:188-205 | decoding gives two parts if and only if the data is their encoding and the bound does not wrap |
| `Timers.CorruptIsNoEncoding` | internal/engine/timer.go:188-205 | data is corrupt if and only if it is no such encoding and does not panic |
| `Timers.FormatExamples` | internal/engine/timer.go:105-185 | the formats of the timer list, with a negative instant, and of the combined checkpoint, byte by byte |
| `Timers.OperatorNode.HandleCheckpoint` | internal/engine/operator.go:200-210 | passes on the operator's error, its plain state without timers, or the combined encoding |
| `Timers.OperatorNode.RestoreTimerState` | internal/engine/operator.go:215-227 | replaces the timers and returns the operator state, with every corrupt case, and leaves the timers alone when the combined encoding is corrupt |
| `Timers.RestartIsExact` | internal/engine/operator.go:200-227 | restoring a checkpoint gives back operator state and the identical timer list if and only if the timer state is below 2^32 - 4 bytes and instants fit 64 bits |
| `Timers.Restart` | internal/engine/operator.go:200-227 | through the methods themselves: a node restored from another's checkpoint has its operator state and timers if and only if they fit the encoding |
| `Schedules.NameInjective` | internal/engine/timer.go:234 | names made from a counter are pairwise different |
| `Schedules.LineInsert` | internal/engine/timer.go:53-64 | with a fixed delay and a monotone clock a new timer always goes to the end, also among equal instants |
| `Schedules.DueIsRipe` | internal/engine/timer.go:67-86 | the timers that expire are those of the arrivals whose delay has passed |
| `Sleep.SleepOperator.ProcessMessage` | internal/engine/timer.go:231-240 | buffers the message under a fresh name and queues its timer |
| `Sleep.SleepOperator.FireExpired` | internal/engine/runtime.go:312-327 | handles the expired timers in order |
| `Sleep.DelayLine` | internal/engine/timer.go:231-255 | emitted messages are the first arrivals in order, each once and never before the delay; the rest wait in the queue in that order, and timers and buffered messages correspond |
| `Sleep.NothingOverdue` | internal/engine/timer.go:231-255 | after timers fired at `now`, a message has been emitted if and only if its delay has passed by `now` |
| `Debounce.DebounceOperator.ProcessMessage` | internal/engine/hysteresis.go:44-53 | replaces the key's pending message and queues a timer of a fresh name |
| `Debounce.DebounceOperator.HandleTimer` | internal/engine/hysteresis.go:56-79 | removes and emits an entry with this timer name, or none if there is none; deterministic when names are distinct |
| `Debounce.DebounceOperator.FireExpired` | internal/engine/runtime.go:312-327 | handles the expired timers in order and keeps names distinct |
| `Debounce.PickedIffQuiet` | internal/engine/hysteresis.go:44-79 | a message is picked if and only if no later message for its key was processed before its timer was handled; in order of arrival, at most once |
| `Debounce.EmitsThePicked` | internal/engine/hysteresis.go:44-79 | under a monotone clock the operator emits exactly the picked messages, none before its window has passed |
| `Debounce.PendingTimersQueued` | internal/engine/hysteresis.go:56-79 | pending timer names are pairwise distinct and each is queued, so the map-order search is deterministic |
| `Deduplicate.DeduplicateOperator.ProcessMessage` | internal/engine/hysteresis.go:155-173 | emits, remembers and queues a timer unless the key is remembered and not expired |
| `Deduplicate.DeduplicateOperator.HandleTimer` | internal/engine/hysteresis.go:176-187 | forgets exactly the keys expired by the timer's instant |
| `Deduplicate.DeduplicateOperator.FireExpired` | internal/engine/runtime.go:312-327 | handles the expired timers in order |
| `Deduplicate.ForgettingIsInvisible` | internal/engine/hysteresis.go:155-187 | under a monotone clock the operator emits exactly what a version that never forgets emits |
| `Deduplicate.Spacing` | internal/engine/hysteresis.go:155-173 | under a monotone clock two messages the operator emits for a key are at least a window apart |
| `Deduplicate.DropsByMessageKey` | internal/engine/hysteresis.go:147-173 | without a key function a message is dropped if and only if one with the same key was emitted less than a window ago |
| `Deduplicate.DropsByKeyFunction` | internal/engine/hysteresis.go:147-173 | with one, if and only if one to which it gives the same key was |
| `Deduplicate.KeysAreSpaced` | internal/engine/hysteresis.go:147-173 | emitted messages that agree in the key, or in what the key function gives, are at least a window apart |
| `Deduplicate.TimersOfEmissions` | internal/engine/hysteresis.go:166-172 | each emission counts one and sets one timer under its own number |
| `Deduplicate.FireForgets` | internal/engine/hysteresis.go:176-187 | firing the timers at `now` forgets exactly the keys expired by `now` |
| `Deduplicate.NothingStale` | internal/engine/hysteresis.go:176-187 | after timers fired at `now`, every remembered key expires after `now` |
| `Coordination.Controller.InitiateCheckpoint` | internal/engine/controller.go:169-180 | replaces the epoch's entry by a fresh one |
| `Coordination.Controller.HandleCompletion` | internal/engine/controller.go:244-282 | refines the value-level report: late report ignored, entry created, completion and quiescence callbacks |
| `Coordination.Controller.HandleNodeStopped` | internal/engine/controller.go:285-291 | refines the value-level stop report |
| `Coordination.Controller.CheckQuiescence` | internal/engine/controller.go:300-326 | becomes quiescent and calls back if and only if it was not, enough nodes have stopped and some epoch is complete |
| `Coordination.EntriesOk` | internal/engine/controller.go:244-282 | an entry is complete if and only if all nodes have reported since the epoch was last initiated, and holds the last reports until then |
| `Coordination.EntryKeeps` | internal/engine/controller.go:169-282 | an entry keeps the reports up to the one that completed it and ignores later ones, and says whether the epoch was last initiated to stop |
| `Coordination.QuiescentFromReadyOn` | internal/engine/controller.go:300-326 | whatever is initiated when, the controller is quiescent exactly from the first moment on at which all nodes have stopped and all have reported some epoch since its last initiation |
| `Coordination.QuiescentIff` | internal/engine/controller.go:244-326 | with no late initiation, after every event: quiescent if and only if all nodes have stopped and some epoch has been reported by all |
| `Coordination.ReinitiationForgets` | internal/engine/controller.go:169-180 | a late initiation discards reports, so both conditions can hold without quiescence |
| `Coordination.QuiescenceCalledOnce` | internal/engine/controller.go:300-326 | the quiescence callback is made at most once, and has been made if and only if quiescent |
| `Coordination.QuiescenceFollowsCompletion` | internal/engine/controller.go:268-281 | quiescence is called back only behind a completion callback |
| `Coordination.CompletionCalls` | internal/engine/controller.go:244-282 | the completion callbacks of an epoch are counted exactly: one when complete, one more for each initiation after completion |
| `Coordination.CompletionCalledOnce` | internal/engine/controller.go:244-282 | with no late initiation it is made once if all nodes have reported the epoch, and otherwise not |
| `Coordination.CallsCarryLastReports` | internal/engine/controller.go:244-282 | a completion callback is made if and only if the last missing report came in, with exactly the last-reported state of every node |
| `Retention.TopOfTop` | internal/engine/checkpoint_manager.go:123-145 | keeping the newest of the kept and one more is keeping the newest of all |
| `Retention.Backend.ListEpochs` | internal/engine/checkpoint_backend.go:104-126 | all epochs, ascending |
| `Retention.CheckpointManager.CollectState` | internal/engine/checkpoint_manager.go:44-52 | sets the node's state for the epoch and nothing else |
| `Retention.CheckpointManager.SaveCheckpoint` | internal/engine/checkpoint_manager.go:57-91 | writes what was collected for the epoch, prunes, and forgets it; does nothing for an epoch without states |
| `Retention.CheckpointManager.CleanupOldCheckpoints` | internal/engine/checkpoint_manager.go:123-145 | leaves exactly the `keepCount` largest epochs, unchanged |
| `Retention.CheckpointManager.LatestEpoch` | internal/engine/checkpoint_manager.go:111-120 | the largest epoch stored, if any |
| `Retention.CheckpointManager.RestoreNodes` | internal/engine/checkpoint_manager.go:95-107 | exactly what is stored for those of the nodes that have anything stored |
| `Retention.CheckpointManager.OnCheckpointComplete` | internal/engine/builder.go:221-234 | saves the epoch with the reported states |
| `Retention.PersistedExists` | internal/engine/checkpoint_manager.go:57-91 | the saves determine what the backend holds |
| `Retention.RetainsNewest` | internal/engine/checkpoint_manager.go:57-145 | after any saves the retained epochs are the `keepCount` largest ever saved, all if it is not positive, each with the states last saved |
| `Retention.LatestIsNewest` | internal/engine/checkpoint_manager.go:111-120 | the latest retained epoch is the largest ever saved |
| `Retention.LatestNeverDecreases` | internal/engine/checkpoint_manager.go:111-120 | once an epoch is stored there is always a latest one, and it never decreases |
| `Retention.Serve` | internal/engine/controller.go:220-241 | the controller's loop with the builder's callback reaches the controller state of the history it was sent, and a backend that holds exactly the saves of its callbacks |
| `Retention.SavedAreReported` | internal/engine/builder.go:219-234 | whatever is initiated when, an epoch is stored only after every graph node reported it, with exactly the states last reported before a completion; the stored epochs are the newest ones saved |
| `Retention.EverCompleted` | internal/engine/builder.go:219-234 | the epochs saved are exactly those that were ever complete |
| `Retention.CompleteAreReported` | internal/engine/controller.go:244-282 | with no late initiation these are the epochs that all nodes have reported |
| `WorkerPool.CountsStep` | internal/engine/concurrent.go:46-79 | every step keeps: the semaphore counts the slots owned, the wait group the workers not done, and the limit holds |
| `WorkerPool.AtMostLimitRunning` | internal/engine/concurrent.go:46-79 | at most `concurrency` inner calls run at once |
| `WorkerPool.CalledOnce` | internal/engine/concurrent.go:46-79 | the inner operator is called once for a message whose worker began, and never for a rejected one |
| `WorkerPool.NothingOutstanding` | internal/engine/concurrent.go:82-121 | when a watermark, checkpoint, drain or close proceeds, every message was rejected or is completely processed, once |
| `WorkerPool.FirstErrorIsHeld` | internal/engine/concurrent.go:67-73 | the error held is the first one recorded since the last drain, and the errors inner calls have returned since then are, counted one by one, those recorded and those about to be |
| `WorkerPool.CheckDecides` | internal/engine/concurrent.go:46-54 | in every reachable state, a message is refused at the check if and only if an error has been recorded since the last drain; the first one is returned and stays held |
| `WorkerPool.DrainDecides` | internal/engine/concurrent.go:82-136 | in every reachable state, a watermark, checkpoint or drain that has waited for the workers proceeds if and only if no inner call since the last drain failed; otherwise it returns the first error recorded, and none stays held |
| `WorkerPool.ErrorsAreReported` | internal/engine/concurrent.go:46-136 | over whole runs, the same of every check and every drain there has been |
| `WorkerPool.CallsReturn` | internal/engine/concurrent.go:46-136 | in every run: ProcessMessage returned an error exactly for the messages that were not accepted, and every other call what interrupted it, the first error recorded, or what the inner operator returned |
| `WorkerPool.ProceedsWithoutErrors` | internal/engine/concurrent.go:82-136 | a watermark, checkpoint or drain inside its call has just drained, and no inner call between that drain and the one before it failed |
| `WorkerPool.WaitingForAWorker` | internal/engine/concurrent.go:57-79 | a dispatcher blocked on a slot or on the wait group waits for a worker that can take a step |
| `WorkerPool.PoolNeverStuck` | internal/engine/concurrent.go:46-136 | whenever the dispatcher is inside a method, or a worker is not done, one of them can get on without cancellation |
| `PooledNodes.CountIsWaitGroup` | internal/engine/concurrent.go:64-76 | in every run of a node together with its pool, the node's count of workers is the pool's wait group |
| `PooledNodes.PoolRefinesCount` | internal/engine/runtime.go:361-504 | every run of a node together with its pool is a run of the node's step machine with all its guards met: snapshots, watermarks and drains find no worker running, and only a running worker emits |
| `ErrorCounters.OneCounterPerNode` | internal/engine/errors.go:62-78 | in every interleaving nodes and counters correspond one to one and callers add to their own node's counter |
| `ErrorCounters.NeverReplaced` | internal/engine/errors.go:62-78 | a node's counter is never replaced |
| `ErrorCounters.ShowsCompleted` | internal/engine/errors.go:62-78 | a counter always shows the number of finished calls for its node |
| `ErrorCounters.ExactIffIdle` | internal/engine/errors.go:62-78 | it never shows more than the calls made, and all of them if and only if none is in progress |
| `ErrorCounters.CounterIsFound` | internal/engine/errors.go:62-78 | a call made once the node has its counter never takes the write lock |
| `ErrorCounters.NeverStuck` | internal/engine/errors.go:62-78 | every call that has not finished can take its next step |

## Left out

- Pipeline lifecycle states (internal/engine/pipeline.go): terminal states are overwritten under races and the rest is easy.
- Liveness: an alignment never completes if an input stops before its barrier; safety and conservation are proved, and that whoever has something to do can take a step.
- The order of watermarks and data: watermarks bypass the aligner, so the claim that earlier events are handled first is not made.
- Errors, cancellation and failed sends in graph runs: sends and handlers do not fail, pooled operators refuse no message, and nodes are not cancelled, so `ThenStop` on a barrier, which cancels the node, has no effect.
- Buffer capacity and counters (internal/engine/buffer.go): edges are unbounded queues, which only adds runs, and backpressure is the freedom not to step.
- Snapshots of sources: a source emits from its own goroutine while the runtime injects the barrier, so the cut on an edge out of a source is stated at the barrier on the edge and not against the source's own state.
- Which timers fire when inside graph runs: a node's timers or ticks emit any data at any time between handlers; the operators' own histories say what they emit.
- The processing loop of internal/engine/runtime.go is a step machine over values and not a class, because its goroutines interleave; update in place is not captured there. The same holds for internal/engine/concurrent.go and internal/engine/errors.go.
- Which outputs an operator chooses (`Emit`, `EmitToPort`): any data on any of its own outputs.
- The checkpoint payloads of the sleep, debounce and deduplicate operators: nothing restores them, so runs start from fresh operators. Messages still waiting at a stop are not drained.
- Failing backends and the filesystem (internal/engine/checkpoint_backend.go): the backend is a map that never fails.
- Counter overflow: 64-bit counters and epochs are unbounded.
- `snapshot` of the error counters, dead letters, logging, test tooling, wrappers in `nodes` and `stream_processor`: easy or I/O.
