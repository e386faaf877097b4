# Verified model of the frame-processing pipeline

The program moves fixed-size chunks of shared memory through a chain of threads: a
source, any number of process threads and a finalizer. Each stage but the last has a
child process that works on the chunk. This project models that chain, the ring the
chunks come from, the barrier that decides which named object is open for camera
frames, the configuration check and the memory layout the chain relies on, and two
image-side algorithms, and proves what they are meant to guarantee.

## The pipeline

`PipelineModel` is a state machine. A mailbox has `new_cmd`, `result`, `cmd` and
`dataoffset`; a thread has a program counter with one value for every semaphore
operation, every critical section of the ring and every group of plain writes between
two of them; a child has its own program counter and a process record with `sem_job`
and `sem_result`. `Step` lets one thread or one child move; `Run` follows any legal
schedule, so a statement about reachable states (`Reachable`) is a statement about
every interleaving, for every chain length and every number of chunks. What a child
does to a chunk is an arbitrary function of its stage, the number of the job and what
it read. Logs (`tx`, `rx`, `inn`, `acc`, `crx`) and the map `owner` record what has
happened and influence nothing.

`PipelineInvariant`, `PipelineOwnership` and `PipelineSafety` prove one invariant over
every step. `PipelineTheorems` draws the safety results from it: delivery in order,
exclusive chunk ownership, undisturbed chunk contents, one STOP and nothing after it.
`PipelineDecisions` says in plain terms what the single decisions come to: which chunks
are dropped, that nothing is captured before LIVE and nothing stopped before `exit_flag`,
and what a chunk contains when it is back in the ring.
`PipelineDeparture` follows the children that leave: told to stop, or because an
action returned -1. `PipelineProgress` says exactly when a pipeline can come to a
standstill with a thread that has not returned, and that raising `exit_flag` brings it
to an orderly end within a number of steps given by a measure.

`PipelineThreads` is the same pipeline on objects: `PipelineModule`, `ProcessInfo` and
`Shared` have the fields of the C structures, and each method is one step of a thread
or child, updating them in place. Every method is proved to be the corresponding step
of the state machine, and `Execute` lets any interleaving of them run.
`PipelineServer.PipelineInit` goes from a module configuration through the checks, the
module list, the pointers made in it and the process table to these objects, and shows
that what it starts is an initial state. The two levels together carry the theorems
over to the objects. `ModuleList.Module` and `PipelineThreads.PipelineModule` are the
two halves of the C structure of a module: what the configuration decides, and what the
threads use.

`RingBuffer` is the ring of free chunks, as a class over an array, at the granularity
of its semaphore and its mutex. Its capacity is a hypothesis there and a theorem
(`PushFindsRoom`) for the ring of the pipeline.

## The collector barrier

`CollectorModel` is the state machine of the collector thread, the sources and
`first_action`; objects are numbered in the order in which they are made.
`CollectorBarrier` proves that no frame reaches an object that has been handed to the
pipeline, `CollectorBlocks` when a source opens a new object and which object each frame
goes to, for any detection callback, and that without one every frame stream is cut into equal blocks, `CollectorThreads` that the imperative code takes these steps.
`Detection` shows that three counters stand for an unbounded frame history.

## Configuration and memory

`Topology` says which module configurations `dfs_check` accepts and which of them the
pointers made by `pipeline_modules_update` turn into one chain; `ModuleList` and
`IntrusiveList` are the lists this is done on, with the pointers rewritten in place.
`MemoryLayout` does the `size_t` arithmetic of the shared segment for any word size of
at least 16 bits, `ProcessTable` hands out the process records.

## Edges

`EdgeDilation` shows that the recursive in-place passes of `getExtendedEdges` are one
dilation by a square.

## What turned out to be conditional

- An accepted configuration becomes one chain of pointers if and only if its ids are
  distinct, none is -1 and every link names a module (`ChainExactly`). Neither the
  reader nor `dfs_check` looks for any of the three. Of equal ids `dfs_check` follows a
  link to the last module and the update to the first (`EqualIdsAccepted`); an id of -1
  turns "no link" into a link (`MinusOneAccepted`); a link to nowhere sends `dfs_check`
  to the first module of the list, because looking up a missing key in the index map
  creates index 0 (`UnknownLinkAccepted`). The update itself fails if and only if at
  least two links, the last module's -1 included, name no module (`UpdatesExactly`).
- The thread a module gets depends on its type, which no check compares with the links.
  The reader makes a module MIDDLE whose `next_id` is given as -1, so a configuration can
  pass every check and have no finalizer: its last module then runs `process_thread` with
  a NULL `next` (`MiddleAtTheEnd`). In an accepted configuration of at least two modules
  every thread has the function of its place if and only if the first module is external
  and some module is LAST (`PlacesExactly`).
- A child whose action returns -1 leaves, but reports 0 for that job. One such status,
  on whatever job, keeps the stage's thread from ever returning (`FailureIsFatal`): it
  waits for good for an answer to the next chunk or, if none follows, to the STOP. At a
  standstill all threads have returned if and only if no job returned -1
  (`StandstillExactly`), and a state with an abandoned thread is reached
  (`AbandonedReached`).
- `ring_buffer_push` keeps the ring's counters in range if and only if the ring is not
  full (`RoomExactly`). The pipeline never pushes to a full ring (`PushFindsRoom`).
- `memory_get_size` reserves enough bytes exactly when the rounded sum of its parts
  fits in `size_t` (`SizeSufficesExactly`).

## Model

| member | source | states |
|---|---|---|
| PipelineTheorems.DeliveredPrefix | dclprocessor/pipeline/src/pipeline.c:170-208 | in every reachable state, what the finalizer has received is a prefix of what the source captured, transformed and filtered in order by every stage between |
| PipelineTheorems.DeliveredAll | dclprocessor/pipeline/src/pipeline.c:29-56 | once all threads have returned, it is all of it |
| PipelineTheorems.GivenPrefix | dclprocessor/pipeline/src/pipeline.c:248-289 | the same for every stage of the chain, from the invariant |
| PipelineTheorems.AcceptedPrefix | dclprocessor/pipeline/src/pipeline.c:275-288 | a stage's verdicts on a longer input extend those on a shorter one |
| PipelineTheorems.ChildReadsItsChunk | dclprocessor/pipeline/src/pipeline_client.c:106-139 | when the child of stage k reads its chunk, and until it has worked on it, the contents are the source's capture as transformed by the stages before k |
| PipelineTheorems.ChunkConservation | dclprocessor/pipeline/src/pipeline.c:170-289 | each chunk is at exactly one position, a cell of the ring, one thread's hands or one full mailbox, and nothing else is at any position |
| PipelineTheorems.PushFindsRoom | misc/src/ring_buffer.c:52-61 | whenever a thread is about to push, the ring is not full, so the missing overflow check is sound for the pipeline |
| PipelineTheorems.RingSemaphore | misc/src/ring_buffer.c:40-61 | the ring's semaphore plus the pop and pushes in progress is what the ring holds; a pop that got past the semaphore finds a chunk |
| PipelineTheorems.MailboxToken | dclprocessor/pipeline/src/pipeline_module.c:18-20 | `new_cmd`, `result`, the sender inside and the receiver inside add up to 1 |
| PipelineTheorems.ChildToken | dclprocessor/pipeline/src/pipeline.c:263-272 | `sem_job`, `sem_result`, the child at work and the thread not waiting for it add up to 1 |
| PipelineTheorems.NothingOverwritten | dclprocessor/pipeline/src/pipeline.c:198-205 | every command written into a mailbox is read once and in order, and is never overwritten before |
| PipelineTheorems.LogsGrow | dclprocessor/pipeline/src/pipeline.c:198-205 | no step of any thread or child removes anything from any log, so a statement about a log's end is one about the future |
| PipelineTheorems.StopIsLast | dclprocessor/pipeline/src/pipeline.c:212-218 | nothing follows a STOP in what any module or child is ever given |
| PipelineTheorems.ChildStopsAfterLastJob | dclprocessor/pipeline/src/pipeline.c:292-298 | a child sees STOP only when it has finished one job for every chunk its thread was given, and the thread is given no more |
| PipelineTheorems.EveryoneGotOneStop | dclprocessor/pipeline/src/pipeline.c:255-258 | when all threads have returned, each module and each child has received its jobs and then exactly one STOP |
| PipelineDecisions.AcceptedMore | dclprocessor/pipeline/src/pipeline.c:275-288 | of one chunk more, the source passes on whatever its child made of it, any other stage only on a status of 0 or -1 |
| PipelineDecisions.DroppedExactly | dclprocessor/pipeline/src/pipeline.c:275-282 | a process thread about to judge a chunk drops it if and only if its child's last job returned neither 0 nor -1 |
| PipelineDecisions.ReportedExactly | dclprocessor/pipeline/src/pipeline_client.c:109-137 | a child reports its action's status, but 0 when it leaves on -1 or on STOP, and nothing else changes the report |
| PipelineDecisions.StopNamesNoChunk | dclprocessor/pipeline/src/pipeline.c:213-216 | no step of a thread with a STOP changes a chunk offset in any mailbox or record |
| PipelineDecisions.NothingBeforeLive | dclprocessor/pipeline/src/pipeline.c:171-177 | before the switch to LIVE the ring holds every chunk in its place, no stage has been given or passed on anything and no child has worked |
| PipelineDecisions.NoStopBeforeExit | dclprocessor/pipeline/src/pipeline.c:170-218 | before `exit_flag` is raised no STOP is in any mailbox's or child's log and no thread has returned |
| PipelineDecisions.PushedIsCutShort | dclprocessor/pipeline/src/pipeline.c:50-55 | the chunk the finalizer is about to push is the last it was given, with a terminator for its first character and the same rest |
| PipelineDecisions.FreeUntouched | misc/src/ring_buffer.c:40-61 | no step of anyone writes into a chunk that is in the ring |
| PipelineDecisions.RingHoldsEmptyTexts | dclprocessor/pipeline/src/pipeline.c:50-55 | a chunk pushed by the finalizer reads as an empty text for as long as it stays in the ring |
| PipelineSafety.StepKeepsInv | dclprocessor/pipeline/src/pipeline.c:149-301 | every step of every thread, child and the environment keeps the invariant of roles, mailboxes, handshakes, ownership, ring and data flow |
| PipelineSafety.RunKeepsInv | dclprocessor/pipeline/src/pipeline.c:149-301 | hence every run does |
| PipelineSafety.InitInv | dclprocessor/pipeline/src/pipeline_module.c:11-25 | the state the modules are started in satisfies it |
| PipelineProgress.NoDeadlock | dclprocessor/pipeline/src/pipeline.c:178-198 | with at least one chunk, some thread or child can move in every reachable state in which a thread has not returned and no job has returned -1 |
| PipelineProgress.StandstillExactly | dclprocessor/pipeline/src/pipeline_client.c:126-138 | for children of any kind: where nobody can move, all threads have returned if and only if no job that any child has done returned -1 |
| PipelineProgress.AbandonedReached | dclprocessor/pipeline/src/pipeline_client.c:126-131 | two modules, one chunk and an action that returns -1 reach a standstill with an abandoned thread |
| PipelineProgress.StandstillReached | dclprocessor/pipeline/src/pipeline.c:212-218 | after `exit_flag` every state leads to one in which nobody can move |
| PipelineDeparture.FailureIsLast | dclprocessor/pipeline/src/pipeline_client.c:106-139 | a job that returned -1 was the child's last, and such a child is never told to stop; any other child leaves exactly on a STOP |
| PipelineDeparture.ReturnNeedsAnswers | dclprocessor/pipeline/src/pipeline_client.c:126-131 | no thread has returned whose child had a job return -1, and no thread waits in vain for any other child |
| PipelineDeparture.FailureIsFatal | dclprocessor/pipeline/src/pipeline_client.c:126-131 | after a single -1, on whatever job, the stage's thread returns in no run |
| PipelineDeparture.AbandonedForGood | dclprocessor/pipeline/src/pipeline_client.c:126-131 | a thread waiting for a child that has left waits through every run, and the cause is that the child's last job returned -1 |
| PipelineDeparture.DepartureKept | dclprocessor/pipeline/src/pipeline_client.c:106-139 | every step keeps the invariant of who leaves and why |
| PipelineDeparture.NextJobIsAbandoned | dclprocessor/pipeline/src/pipeline.c:267-272 | that is what becomes of a thread that passes any command, chunk or STOP, to a child that has left |
| PipelineProgress.EmptyRingIsBusy | dclprocessor/pipeline/src/pipeline.c:178 | a source cannot be blocked on an empty ring while the rest of the pipeline is at rest |
| PipelineProgress.StepDrops | dclprocessor/pipeline/src/pipeline.c:170-301 | every step of anyone lowers one measure over mailboxes, chunks in hand and program counters, unless the source finds `exit_flag` down and begins a new round |
| PipelineProgress.RunsBounded | dclprocessor/pipeline/src/pipeline.c:170-208 | whatever `exit_flag` is, no run is longer than the measure plus a fixed cost for each round the source begins |
| PipelineProgress.RestDelivers | dclprocessor/pipeline/src/pipeline.c:248-289 | while the source rests the others come to rest within the measure; when none can move and none of their jobs returned -1, all the source has sent is delivered |
| PipelineProgress.RunsEnd | dclprocessor/pipeline/src/pipeline.c:292-298 | so no run after that is longer than the measure |
| PipelineProgress.AllChunksBack | dclprocessor/pipeline/src/pipeline.c:44-55 | when all threads have returned, exactly the original chunks are in the ring and its semaphore shows all of them |
| PipelineProgress.OrderlyShutdown | dclprocessor/pipeline/src/pipeline.c:210-222 | after `exit_flag` every run is bounded; one that nothing can prolong has returned every thread if and only if no job returned -1, and then every chunk is back and everything captured is delivered |
| PipelineThreads.PipelineModule.constructor | dclprocessor/pipeline/src/pipeline_module.c:11-25 | `new_cmd` 0, `result` 1, `cmd` JOB, and a thread about to enter its loop |
| PipelineThreads.PipelineModule.TestExit | dclprocessor/pipeline/src/pipeline.c:170 | takes exactly the state machine's step: the source looks at `exit_flag` |
| PipelineThreads.PipelineModule.TestLive | dclprocessor/pipeline/src/pipeline.c:171-177 | the source looks at the state and takes its command over |
| PipelineThreads.PipelineModule.WaitRing | misc/src/ring_buffer.c:43 | the source passes the ring's semaphore |
| PipelineThreads.PipelineModule.PopRing | misc/src/ring_buffer.c:44-49 | it takes the oldest free chunk |
| PipelineThreads.PipelineModule.WaitNewCmd | dclprocessor/pipeline/src/pipeline.c:251 | a receiver passes `new_cmd` |
| PipelineThreads.PipelineModule.ReadCmd | dclprocessor/pipeline/src/pipeline.c:252-253 | it takes command and chunk over |
| PipelineThreads.PipelineModule.PostResult | dclprocessor/pipeline/src/pipeline.c:254-258 | it frees the mailbox and, as process thread or finalizer, branches on STOP |
| PipelineThreads.PipelineModule.WriteJob | dclprocessor/pipeline/src/pipeline.c:263-264 | the thread fills in the process record; STOP leaves the old offset |
| PipelineThreads.PipelineModule.PostJob | dclprocessor/pipeline/src/pipeline.c:267 | it posts `sem_job` |
| PipelineThreads.PipelineModule.WaitResult | dclprocessor/pipeline/src/pipeline.c:272 | it passes `sem_result` |
| PipelineThreads.PipelineModule.TestVerdict | dclprocessor/pipeline/src/pipeline.c:275-282 | it drops the chunk exactly on a non-zero report |
| PipelineThreads.PipelineModule.WaitNext | dclprocessor/pipeline/src/pipeline.c:285 | it passes the next module's `result` |
| PipelineThreads.PipelineModule.WriteNext | dclprocessor/pipeline/src/pipeline.c:286-287 | it writes the next module's `cmd` and, for a JOB, `dataoffset`, and nothing else of it |
| PipelineThreads.PipelineModule.PostNext | dclprocessor/pipeline/src/pipeline.c:288 | it posts the next module's `new_cmd` |
| PipelineThreads.PipelineModule.ClearChunk | dclprocessor/pipeline/src/pipeline.c:50-53 | the finalizer overwrites the first byte of its own chunk only |
| PipelineThreads.PipelineModule.PushRing | misc/src/ring_buffer.c:55-59 | the chunk goes back to the end of the ring |
| PipelineThreads.PipelineModule.PostRing | misc/src/ring_buffer.c:60 | the push posts the ring's semaphore |
| PipelineThreads.ProcessInfo.WaitJob | dclprocessor/pipeline/src/pipeline_client.c:108 | the child passes `sem_job` |
| PipelineThreads.ProcessInfo.SwitchCmd | dclprocessor/pipeline/src/pipeline_client.c:109-117 | it branches on the command, reading its chunk for a job |
| PipelineThreads.ProcessInfo.FinishAction | dclprocessor/pipeline/src/pipeline_client.c:120-133 | it leaves the action's result in its chunk and reports the status, -1 as 0 and then exits |
| PipelineThreads.ProcessInfo.PostResult | dclprocessor/pipeline/src/pipeline_client.c:138-139 | it posts `sem_result` and goes on or leaves |
| PipelineThreads.Pipeline.Lift | dclprocessor/pipeline/src/pipeline.c:149-301 | a step of one module's objects is the state machine's step of that thread, for the pipeline as a whole |
| PipelineThreads.Pipeline.Advance | dclprocessor/pipeline/src/pipeline.c:149-301 | letting any actor move keeps the objects consistent and is that actor's step |
| PipelineThreads.Execute | dclprocessor/pipeline/src/pipeline.c:149-301 | any interleaving, run on the objects, ends in the state the state machine ends in |
| PipelineServer.CreateDataRing | dclprocessor/pipeline/src/pipeline_server.c:28-30 | the ring starts with the offset of every chunk, in order, and a semaphore that shows all of them |
| PipelineServer.PipelineInit | dclprocessor/pipeline/src/pipeline_server.c:106-178 | of a configuration with distinct ids, none of them -1, a pipeline is completely started exactly when the links form one path through at least two modules, every link is known and every module gets a record and a running program; its modules have the functions of their places if and only if the first is external and some module is LAST, and then it is in an initial state; if none is LAST its end runs `process_thread` with no next module |
| PipelineServer.PlacesExactly | dclprocessor/pipeline/src/pipeline_module.c:66-83 | in an accepted configuration of at least two modules, type and mode give each thread the function of its place if and only if the first module is external and some module is LAST |
| PipelineServer.MiddleAtTheEnd | dclprocessor/pipeline/config/src/config.cpp:102-114 | a configuration the reader and every check accept that has no LAST module |
| PipelineServer.ListInPlace | dclprocessor/pipeline/src/pipeline_module.c:66-83 | the same for the modules of the list |
| PipelineServer.ConfigureModules | dclprocessor/pipeline/src/pipeline_server.c:154-165 | the checks and the update together yield exactly the configurations that are chains, as a list whose pointers form that chain, with the thread functions that types and mode select: those of the places if and only if the first is external and some module is LAST |
| PipelineServer.FillList | dclprocessor/pipeline/src/pipeline_server.c:154-157 | the list describes the configuration, module by module in its order, each with the thread function of its type and mode |
| PipelineServer.PrepareModules | dclprocessor/pipeline/src/pipeline_server.c:45-68 | from the pointers of the list and the indices given out, the running modules form one chain of distinct modules with distinct records, freshly initialised, each running the function its list entry names |
| PipelineServer.InitModules | dclprocessor/pipeline/src/pipeline_module.c:11-25 | each module is initialised, runs its own thread function and has the record whose index it was given |
| PipelineServer.LinkModules | dclprocessor/pipeline/src/pipeline_module.c:115 | the running modules point to one another exactly as the list's modules do |
| PipelineServer.InOrder | dclprocessor/pipeline/src/pipeline_module.c:115 | following the pointers from the first module visits the chain in order and ends |
| PipelineServer.ChainHasShape | dclprocessor/pipeline/src/pipeline_server.c:45-68 | distinct indices and a chain of pointers give one chain of distinct modules with distinct records, which is what the step methods rely on if and only if each module runs the function of its place |
| PipelineServer.CreateRecords | dclprocessor/pipeline/src/process_mngr.c:42-58 | as many distinct unused records as processes |
| PipelineServer.StartedIsInitial | dclprocessor/pipeline/src/pipeline_server.c:45-56 | modules of that shape, freshly initialised, are an initial state of the state machine |
| PipelineServer.StartPipeline | dclprocessor/pipeline/src/pipeline_server.c:18-90 | on a segment that fits, a configured list is completely started exactly when at least two modules all get a record and a running program; with every module in its place it then is in an initial state with every chunk in the ring |
| PipelineServer.ChunksAreDistinct | dclprocessor/pipeline/src/pipeline_server.c:29-30 | the offsets put into the ring are distinct |
| RingBuffer.PushAppends | misc/src/ring_buffer.c:55-59 | with room left a push appends, across the wrap-around too |
| RingBuffer.PopTakesOldest | misc/src/ring_buffer.c:44-49 | a pop removes the oldest element, across the wrap-around too |
| RingBuffer.RoomExactly | misc/src/ring_buffer.c:54-58 | a push keeps the counters in range if and only if the ring is not full, and then it appends |
| RingBuffer.OverflowExactly | misc/src/ring_buffer.c:54-58 | after a push, the next pop still gives the oldest element if and only if the ring was not full or that very value was pushed |
| RingBuffer.NextValid | misc/src/ring_buffer.c:40-61 | semaphore plus operations in progress stays `used`, the counters stay in range, and what came out followed by what is inside is what went in |
| RingBuffer.RefinesFifo | misc/src/ring_buffer.c:40-61 | under any interleaving of pushers and poppers, with room for every push, what is popped is what was inside and then what was pushed, in order |
| RingBuffer.RingBuffer.constructor | misc/src/ring_buffer.c:7-32 | an empty ring, or a full one of zeros, with a matching semaphore |
| RingBuffer.RingBuffer.SemWaitStep | misc/src/ring_buffer.c:43 | the array implementation takes the abstract step |
| RingBuffer.RingBuffer.PopStep | misc/src/ring_buffer.c:44-49 | returns the oldest element and leaves the rest in order |
| RingBuffer.RingBuffer.PushStep | misc/src/ring_buffer.c:55-59 | appends, keeping everything inside |
| RingBuffer.RingBuffer.SemPostStep | misc/src/ring_buffer.c:60 | the array implementation takes the abstract step |
| CollectorBarrier.NoFrameAfterHandOff | dclprocessor/collector/src/source.c:48-70 | a source about to add a frame has the name of the one open object, which has not been handed over |
| CollectorBarrier.HandedObjectsFrozen | dclprocessor/processor/src/dclprocessor_old.cpp:146-176 | no step of anyone adds a frame to an object that has been handed over |
| CollectorBarrier.OneObjectOpen | dclprocessor/collector/src/collector.c:63-81 | all open sources add to the same object, and none is open while `first_action` exchanges names |
| CollectorBarrier.HandedInOrder | dclprocessor/processor/src/dclprocessor_old.cpp:150-173 | objects are handed over once each, in the order in which they were made |
| CollectorBarrier.NoDeadlock | dclprocessor/collector/src/collector.c:24-50 | while no exit flag is set, somebody can always move |
| CollectorBarrier.InvKept | dclprocessor/collector/src/collector.c:24-81 | every step of the collector, a source or `first_action` keeps the barrier's invariant |
| CollectorBarrier.InitInv | dclprocessor/collector/src/collector.c:158-163 | the initial semaphore values establish it |
| CollectorBlocks.FrameOpening | dclprocessor/collector/src/source.c:48-81 | with any callback, frame j of a source goes to object 1 plus the number of its frames up to and including j that opened an object |
| CollectorBlocks.NewObjectExactly | dclprocessor/collector/src/source.c:48-49 | a frame goes to a new object if and only if the callback said so of it, or it is the source's first, or the object before has exactly the limit of frames |
| CollectorBlocks.AnswersLogged | dclprocessor/collector/src/source.c:48 | the answers this speaks of are those the callback gives in the run |
| CollectorBlocks.HandedObjectHolds | dclprocessor/collector/src/source.c:48-81 | with any callback, an object that has been handed over holds between 1 and `object_detection_frame_limit` frames of every source, the first two objects none |
| CollectorBlocks.FrameObject | dclprocessor/collector/src/source.c:48-81 | without a callback frame j of every source goes to object j / limit + 2 |
| CollectorBlocks.HandedObjectFull | dclprocessor/collector/src/source.c:48-81 | an object that has been handed over holds exactly `object_detection_frame_limit` frames of every source, the first two objects none |
| CollectorBlocks.FramesInBlock | dclprocessor/collector/src/source.c:48-81 | how many frames of a stream cut into blocks an object holds at any time |
| CollectorThreads.DataSource.Advance | dclprocessor/collector/src/source.c:48-81 | the source's code takes the steps of the barrier, with `frames_in_object % limit` as the block test |
| CollectorThreads.DataSource.NewFrame | dclprocessor/collector/src/source.c:48-49 | a frame opens a new object exactly when the callback says so or the block is full |
| CollectorThreads.DataCollector.constructor | dclprocessor/collector/src/collector.c:111-172 | what is set up is an initial state of the barrier |
| CollectorThreads.DataCollector.CollectData | dclprocessor/collector/src/collector.c:24-81 | the collector's loops take the steps of the barrier |
| CollectorThreads.DataCollector.FirstAction | dclprocessor/processor/src/dclprocessor_old.cpp:146-176 | `first_action` hands over the name the collector holds and then replaces it |
| CollectorThreads.Execute | dclprocessor/collector/src/collector.c:18-109 | any interleaving, run on the objects, ends in the state the barrier's state machine ends in |
| Detection.Detector.ObjectDetectionCallback | dclprocessor/processor/src/dclprocessor_old.cpp:58-99 | reports a break exactly when the frames since the last one, with the new frame, meet the thresholds 135, 150, 16 and 8 as stated in numbers, and goes on from an empty segment |
| Detection.Detector.Tally | dclprocessor/processor/src/dclprocessor_old.cpp:69-97 | if the three counters stand for the frames since the last break, the code reports 1 exactly when the new frame makes a break of them, and its counters then stand for what follows |
| Detection.ThroughLastLarge | dclprocessor/processor/src/dclprocessor_old.cpp:88-94 | the count ends at a large frame, and no later frame is large |
| Detection.CountsStep | dclprocessor/processor/src/dclprocessor_old.cpp:69-97 | three counters are enough: for any history they can be kept up to date from one frame to the next and decide a break |
| Detection.BreakInNumbers | dclprocessor/processor/src/dclprocessor_old.cpp:69-97 | a break is a frame below 135 with, before it, a frame of at least 150 that is the 16th or later since the last break, none of at least 150 after that one, and eight or more below 135 after it, the new one included |
| Detection.SplitUnique | dclprocessor/processor/src/dclprocessor_old.cpp:71-85 | every frame history splits into finished segments and an unfinished one in exactly one way |
| Detection.SegmentLength | dclprocessor/processor/src/dclprocessor_old.cpp:71 | a finished segment has at least 24 frames |
| Topology.CheckConfiguration | dclprocessor/pipeline/config/src/config.cpp:136-146 | accepts, for any configuration, exactly when some path along the links visits every module once from the first and ends at one without a link |
| Topology.DfsCheck | dclprocessor/pipeline/config/src/config.cpp:20-38 | terminates, rejects an index past either end, and otherwise decides, from any point of the walk, whether the whole walk is such a path |
| Topology.IndexMap | dclprocessor/pipeline/config/src/config.cpp:138-141 | every id is found, and of equal ids the last module |
| Topology.IndexModules | dclprocessor/pipeline/config/src/config.cpp:138-141 | the reader's loop builds that map |
| Topology.ChainUnique | dclprocessor/pipeline/config/src/config.cpp:20-38 | there is at most one such path |
| Topology.ChainExactly | dclprocessor/pipeline/src/pipeline_module.c:109-131 | of any accepted configuration the pointers form one chain if and only if ids are distinct, none is -1 and every link names a module |
| Topology.UpdatesExactly | dclprocessor/pipeline/src/pipeline_module.c:117-127 | of any configuration, the update succeeds if and only if at most one link names no module |
| Topology.AcceptedUpdates | dclprocessor/pipeline/src/pipeline_module.c:117-127 | of an accepted configuration without an id of -1, if and only if every link is known |
| Topology.EqualIdsAccepted | dclprocessor/pipeline/src/pipeline_module.c:44-46 | an accepted and updated configuration with equal ids, in which the source sends to itself |
| Topology.NobodySendsToFirst | dclprocessor/pipeline/src/pipeline_module.c:109-131 | in such a chain no module sends to the first |
| Topology.UnknownLinkAccepted | dclprocessor/pipeline/config/src/config.cpp:37 | a configuration with a link to nowhere that is accepted and whose update fails |
| Topology.MinusOneAccepted | dclprocessor/pipeline/config/src/config.cpp:28 | an accepted and updated configuration with an id of -1, in which the last module sends to the first |
| ModuleList.Modules.Add | dclprocessor/pipeline/src/pipeline_module.c:54-98 | the new module is last in the list, the count follows the length, and the module's type and mode decide its thread function |
| ModuleList.Modules.Delete | dclprocessor/pipeline/src/pipeline_module.c:100-107 | the others stay in order and the count follows the length |
| ModuleList.Modules.Get | dclprocessor/pipeline/src/pipeline_module.c:36-52 | terminates with the first module that has the id, or NULL |
| ModuleList.Modules.Traverse | dclprocessor/pipeline/src/pipeline_server.c:46-67 | a traversal meets every module once, in order, and ends |
| ModuleList.Modules.Update | dclprocessor/pipeline/src/pipeline_module.c:109-131 | succeeds exactly with at most one NULL, having set every pointer; otherwise stops at the second NULL, that module alone in error and the later ones untouched |
| ModuleList.FindIsFirst | dclprocessor/pipeline/src/pipeline_module.c:36-52 | the search in the list is the search among the ids |
| ModuleList.NullsCounted | dclprocessor/pipeline/src/pipeline_module.c:117-127 | the NULLs are the links without a module |
| ModuleList.AcceptedUpdatesExactly | dclprocessor/pipeline/src/pipeline_module.c:109-131 | a list whose description `dfs_check` accepts is updated without error if and only if at most one link names no module, and into one chain if and only if ids are distinct, none is -1 and every link is known |
| ModuleList.PointersFormChain | dclprocessor/pipeline/src/pipeline_module.c:109-131 | the pointers then lead from the first module through each once to the only NULL |
| ModuleList.NoPointerToFirst | dclprocessor/pipeline/src/pipeline_module.c:115 | no pointer leads to the source's module, whose `cmd` therefore stays JOB |
| IntrusiveList.RingDetermined | misc/include/misc/list.h:10-13 | the links determine the sequence of elements: one head has one ring |
| IntrusiveList.List.constructor | misc/include/misc/list.h:96-98 | an empty well-linked ring |
| IntrusiveList.List.AddFront | misc/include/misc/list.h:28-36 | the new element is first, the others keep their order, and the ring is well linked |
| IntrusiveList.List.AddBack | misc/include/misc/list.h:38-46 | the same with the new element last |
| IntrusiveList.List.InsertAfter | misc/include/misc/list.h:48-58 | the same after any element or the head |
| IntrusiveList.List.InsertBefore | misc/include/misc/list.h:60-70 | the same before any element; before the head means last |
| IntrusiveList.List.ReplaceElem | misc/include/misc/list.h:72-79 | the new element takes the old one's place, and the old one is detached |
| IntrusiveList.List.RemoveElem | misc/include/misc/list.h:81-86 | the others keep their order, and the removed element can be inserted again |
| IntrusiveList.List.MembersAttached | misc/include/misc/list.h:29-30 | the trap catches every element that is already in the list |
| IntrusiveList.List.FirstElem | misc/include/misc/list.h:20-22 | the first element, or the head of an empty list |
| IntrusiveList.List.LastElem | misc/include/misc/list.h:24-26 | the last element, or the head of an empty list |
| IntrusiveList.List.IsEmpty | misc/include/misc/list.h:88-90 | true exactly of the empty sequence |
| IntrusiveList.List.IsValidElem | misc/include/misc/list.h:92-94 | tells the elements from the head |
| MemoryLayout.SizeSufficesExactly | dclprocessor/pipeline/include/pipeline/shared_memory_map.h:30-34 | the computed size covers header, records and chunks if and only if the rounded sum fits in `size_t` |
| MemoryLayout.StartIsExact | dclprocessor/pipeline/include/pipeline/shared_memory_map.h:41-50 | then no offset the code computes wraps around |
| MemoryLayout.ObjectsInside | dclprocessor/pipeline/include/pipeline/shared_memory_map.h:30-50 | every record and chunk lies inside the segment |
| MemoryLayout.ObjectsDisjoint | dclprocessor/pipeline/include/pipeline/shared_memory_map.h:41-50 | no two of header, records and chunks overlap |
| MemoryLayout.ChunkOffsetsDistinct | dclprocessor/pipeline/src/pipeline_server.c:29-30 | two chunks have different offsets if and only if chunks are not empty |
| MemoryLayout.AlignIsRoundUp | dclprocessor/pipeline/include/pipeline/shared_memory_map.h:8 | the shifts round up to a multiple of 256, modulo the word size |
| MemoryLayout.MapSize | dclprocessor/pipeline/include/pipeline/shared_memory_map.h:9 | the header takes one 256-byte block |
| ProcessTable.IndexAt | dclprocessor/pipeline/src/process_mngr.c:77-99 | the i-th request gets the i-th free index, or fails when the table is used up or its program does not run |
| ProcessTable.IndicesDistinct | dclprocessor/pipeline/src/process_mngr.c:77-99 | no two started modules share a record, and every record exists |
| ProcessTable.ProcessManager.constructor | dclprocessor/pipeline/src/process_mngr.c:42-58 | no index is used up and no record has a process |
| ProcessTable.ProcessManager.ProcessStart | dclprocessor/pipeline/src/process_mngr.c:72-150 | succeeds if and only if an index is left and the request is for an internal thread or its program forks; takes the next index even when the program then fails to run, and touches no other record |
| ProcessTable.ProcessManager.StartModules | dclprocessor/pipeline/src/pipeline_server.c:45-68 | modules get the indices 0, 1, ... in list order until one fails; all start exactly when the table is large enough and every program runs |
| EdgeDilation.GetExtendedEdges | libdclalgo/src/EdgeAware.cpp:35-75 | with r stages to go, a pixel is marked exactly when some non-zero source pixel lies within Chebyshev distance r inside the image; the source image is left alone |
| EdgeDilation.Pass | libdclalgo/src/EdgeAware.cpp:42-71 | one scan marks exactly the clamped 3x3 neighbourhoods of the non-zero pixels |
| EdgeDilation.MarkAround | libdclalgo/src/EdgeAware.cpp:50-68 | the nine clamped writes change exactly the pixels next to one, inside the image |
| EdgeDilation.PassThenSpread | libdclalgo/src/EdgeAware.cpp:73 | a pass followed by a dilation of radius r is one of radius r + 1 |

## Left out

- Raising `exit_flag`: an environment step. `pipeline_destroy` waits for the pipeline thread before it sets the flag (dclprocessor/pipeline/src/pipeline_server.c:197-203).
- A second pipeline in one server process: the process counter is not reset and later modules stay uninitialised. `StartPipeline` says when a start succeeds and then what is started.
- `initial_thread`: the internal variant of the source, whose shutdown branch waits on a record without a process when the next module is external (dclprocessor/pipeline/src/pipeline.c:132-138).
- Weak memory: semaphores and mutexes are taken to give sequential consistency, and the plain reads or writes of one side between two of its semaphore operations are one step.
- Fairness: that a thread that can move is eventually scheduled is up to the system. `OrderlyShutdown` bounds every run and says how one that nothing can prolong has ended.
- PipelineProgress.NoDeadlock: requires that no job has returned -1; what happens otherwise is `StandstillExactly` and `FailureIsFatal`.
- The state a module is put into when its thread returns, and `usleep` and log output in the loops: nothing in the pipeline depends on them.
- The other rings: the command queue and the collector's own ring are created full and then pushed to, so the capacity hypothesis of `RefinesFifo` does not hold there.
- CollectorThreads.DataCollector.CollectData: no exit flag is raised, so the tests of it and the stop branches are left out; the exit counter is reset inside its own loop (dclprocessor/collector/src/collector.c:53-60).
- CollectorThreads.Execute: the same, and the collector's and the sources' shutdown altogether.
- Object names: taken to be distinct and numbered. The code makes them from the time of day.
- `first_action` and `object_detection_callback` without a collector, and several sources that share the callback's static counters.
- Topology.DfsCheck: an index of -1, which its own range test lets through to read `was[-1]`. Its caller and every lookup give it an index inside the list.
- EdgeDilation.GetExtendedEdges: requires `stage <= stages`; with more stages done than asked for, the code does not terminate.
- MemoryLayout.SizeSufficesExactly: negative counts in the map are not modelled.
- IntrusiveList.List.InsertAfter: requires detached elements, like the other insertions; the code traps otherwise. Removing or replacing the head itself is excluded, and so is replacing an element by a member.
- ModuleList.Modules.Add: `malloc` succeeds and the list is not NULL.
- ModuleList.Modules.Delete: is given the list element, which in C lies inside the module, and frees nothing.
- PipelineServer.PipelineInit: equal ids and an id of -1, for which `ChainExactly` shows that there is no chain to start. What the threads of a pipeline without the right functions do is not modelled beyond their start.
- PipelineServer.StartPipeline: a start that stops half way, which the code switches to LIVE all the same when two modules have started. And the modules are initialised after all indices have been given out, where the code alternates the two module by module.
- TCP framing, GVCP/GVSP, sockets, `fork` and `exec`, shared-memory mapping, environment variables, databases, logging and the Python service.
- Floating-point image algorithms, and the debayering variants, which differ at the image border.
