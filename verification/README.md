# Verified model of the emulator's code graph, dispatch, locking and profiling

This project models the parts of the emulator where something fast has to agree with something simple,
and proves the agreement for every input and every run:

- **Dispatch.** Basic blocks form a mutable, cyclic graph that caches its own edges in a two-slot inline
  cache, in parallel lookup vectors and in maps, with back edges for unlinking. The dispatch loop trusts
  these caches. It is proved to run the same blocks, block for block, as a plain loop without any cache
  (`Interpreter.dfy`), interpreting them or running what the compiler makes of them, to end, and to isolate
  threads from one another. Regions of code may appear and disappear between slices (`Sessions.dfy`). All of
  this holds of any sound instruction set; `SoundIsaExists` has one, and `Emulate` runs a session from nothing.
- **Code ownership.** A sorted vector of disjoint intervals owns the segments. Cutting, erasing and
  visiting it when a region stops being executable is proved against the set of covered addresses and the
  multiset of owned items.
- **Locked read-modify-write.** The region spinlock is a protocol of single steps that any thread may take.
  It is proved to be linearizable in acquire order, to lose no addition, to let just one of several
  compare-and-swaps succeed, and to be free of deadlock.
- **Call profiling.** Calls and returns are recorded in two streams, merged back into nested ranges, and
  shown through a focus. Parenthesis matching is proved to survive all of it.
- **String instructions, kernel time.** Closed forms of the repeat loops, and the normal form of times.

Code that changes objects in place is a class here as well; each method is proved against a function of
the values, and the laws are lemmas about those functions. A *picture* of the heap (`Graph`, `seq<Piece>`,
`World`, `Image`) is passed along as a ghost value: `Pictured(g)` and `Pictures(ps)` say that it is accurate.

## Files

| file | content |
|---|---|
| Types, Machine | machine integers, processor state |
| CodeSegments, GraphLaws, InlineCacheLaws | segments, the linking invariant, compilation, the two-slot cache |
| IntervalLaws, IntervalVectors | the interval vector and its laws |
| Processes, Dispatch, Upkeep | registry and invalidation, cached lookup against the registry, upkeep between turns |
| Interpreter, Vm | the plain loop without caches; context switches and the dispatch loop |
| Sessions | whole runs: slices with regions of code appearing and disappearing between them |
| CallTraces, TraceLaws, VmThreads, Sorting, ProfileMerge, FocusedProfiles, Profiling | profiling from recording to viewing |
| LockedMemory, LockedLaws | the locking protocol and what it guarantees |
| StringOps, Timers | string instructions, kernel time |

## Where the code does not do what one expects

Each of these is kept as the code has it, with the exact condition proved.

- *The two-slot cache after a removal.* Removing a successor can empty the first slot and leave the second
  full. The search stops at the first empty slot, so the other destination is stored a second time, and
  returning to the removed address stops the emulator (`RemovalBreaksCache`). A lookup fails iff both slots
  hold segments that start elsewhere (`ArriveFailsIff`, `FindNextSegment`); without removals, iff three
  destinations were visited (`FailsIffThree`). A block has two, so that until something is removed the
  dispatch loop never halts for this reason (`SettledArrives`, `Execute`).
- *Interval removal.* `remove(start, end)` also erases a piece that starts exactly at `end`, including the
  right half it has just cut off. It uncovers just [start, end) iff `end` was not covered (`RemoveMeantIff`);
  otherwise the rest of the interval cut at `end` goes too (`RemovalCovers`).
- *Range visits* also reach a piece that ends at `start`, one more than is erased (`VisitsCoverErased`): a
  segment is visited iff it is filed in an interval that touches the region (`VisitedIff`). Segments of the
  interval below are unregistered but stay owned. The registry, erased by start address, stays in step with
  the graph iff the removal is `Safe`: no linked segment away from the region starts where one near it does
  (`Invalidate`). `StaleSegmentIsUnsafe` is a run of maps, fetches and unmaps that gets there.
- *A fetch from a gap* files the block in the next interval. After a removal no registered block starts in the
  region iff all that did were filed near it (`InvalidateReady`), as is so while only covered addresses are
  fetched (`RemovedCodeIsGone`).
- *`find`* gives the left one of two touching intervals, and an interval even for an address in a gap
  (`FoundContainsIff`). *`insert`* looks at its right neighbour only (`InsertKeepsIff`).
- *Return edges are not unlinked.* After an invalidation a segment may still return to a removed one. What
  the compilation queue relies on survives iff none does (`NoneReturns`, `InvalidateReady`), and noting a return fails iff
  the block already returns to another segment (`NoteReturn`).
- *A return with nothing on the call stack* pops an empty vector, which is undefined. Here the loop stops before
  it interprets such a block (`Interpret`, `Astray`).
- *Context switches* keep only the FS base of the segment bases; the others restart at zero in each slice.
- *The merge of call and return streams* stops when either is exhausted: returns after the last call are
  dropped, and their calls then end one tick after everything shown (`CallIsShown`). Its assertion on equal
  ticks holds iff no call ties with an earlier return (`TryCreate`), and only then are ranges of one depth
  apart; otherwise they may share end points (`MergedIsLaid`). A block that unwinds a frame and ends with a call
  ties (`UnwindThenCallTies`). The focus works either way (`RecordAndFocus`).
- *Popping the focus* with one entry on the stack goes back to everything, not to that entry (`Pop`).
- *REP MOVS, REP CMPS and the narrow forms of REP STOS* count with ECX, which is RCX iff RCX < 2^32.
- *Times* may keep exactly one second in their nanoseconds; such a time is ordered before the equal one
  that is normalised (`LessIsCount`).

## Model

| member | source | states |
|---|---|---|
| CodeSegments.CodeSegment.FindNext | emulator/src/x64/codesegment.cpp:26-52 | a hit counts the segment found once more and moves it to the front if that makes it the busier one, the other slot stays; a miss means that no slot before the first empty one starts there; variable destinations answer from the map |
| CodeSegments.CodeSegment.AddToSlots | emulator/src/x64/codesegment.cpp:54-67 | storing a successor succeeds iff a slot is empty; it takes the first one with count 1, and the other slot keeps its segment and count |
| CodeSegments.CodeSegment.AddToTable | emulator/src/x64/codesegment.cpp:92-96 | a successor is filed once by its start, with an entry in all parallel vectors |
| CodeSegments.CodeSegment.AddSuccessor | emulator/src/x64/codesegment.cpp:88-98 | slots, all four vectors and both edge maps after learning an edge, for self-loops too; it fails, changing nothing, iff both slots are taken |
| CodeSegments.CodeSegment.SyncBlockLookupTable | emulator/src/x64/codesegment.cpp:76-86 | refreshes every entry of a compiled block's table and nothing else |
| CodeSegments.CodeSegment.AddReturn | emulator/src/x64/codesegment.cpp:100-109 | a return is kept once set; when noting it fails |
| CodeSegments.CodeSegment.RemoveSuccessor | emulator/src/x64/codesegment.cpp:119-144 | exactly the slots that hold the segment are emptied and uncounted, the others keep segment and count; a lookup table is dropped whole; the edge goes |
| CodeSegments.CodeSegment.RemoveFromCaches | emulator/src/x64/codesegment.cpp:146-154 | the heap afterwards is exactly the graph with the segment unlinked, which `UnlinkExact` describes slot by slot, and the segment is bare |
| CodeSegments.CodeSegment.TryPatch | emulator/src/x64/codesegment.cpp:202-229 | refreshes the table of compiled code only |
| CodeSegments.CodeSegment.TryCompile | emulator/src/x64/codesegment.cpp:173-200 | an attempt is made iff there was none and the threshold is reached; it takes the code the compiler gives, publishes it, and queues exactly both slots, the table and the return; a visit below the threshold halves it |
| CodeSegments.CodeSegment.OnCpuCall | emulator/src/x64/codesegment.cpp:165-167 | an interpretation keeps the bounds of a segment that the queue has visited |
| CodeSegments.CompilationQueue.Process | emulator/include/x64/codesegment.h:106-114 | ends on every graph, cyclic ones included; visits the segment, then only followers of what was attempted on the way, and all of those, counting each visit; whatever is not on that trail stays as it was; keeps edges, linking and fresh tables; code is what the compiler makes of the blocks attempted |
| CodeSegments.CompilationQueue.Step | emulator/include/x64/codesegment.h:109-113 | the last segment of the queue is visited once, its followers are queued iff that was its attempt, and everything else keeps its counters and code |
| CodeSegments.ThresholdIs | emulator/src/x64/codesegment.cpp:173-177 | the threshold after k early visits is 1024 / 2^k |
| CodeSegments.ThresholdRunsOut | emulator/src/x64/codesegment.cpp:160-177 | it is 0 from the 11th early visit on, so that at most 8 interpretations and 12 visits precede the attempt |
| CodeSegments.CompiledKeepsLinked | emulator/src/x64/codesegment.cpp:178-191 | compiling a segment breaks no edge |
| CodeSegments.CompiledKeepsFresh | emulator/src/x64/codesegment.cpp:181-189 | with chaining every compiled block's table holds its successors' current code |
| CodeSegments.PatchedEvolves | emulator/src/x64/codesegment.cpp:202-229 | refreshing a table keeps linking and freshness |
| GraphLaws.AddEdgeEdges | emulator/src/x64/codesegment.cpp:92-97 | the edges after adding one: the old ones and that one, in both directions |
| GraphLaws.AddEdgeKeepsLinked | emulator/src/x64/codesegment.cpp:88-98 | adding an edge keeps the linking invariant |
| GraphLaws.UnlinkExact | emulator/src/x64/codesegment.cpp:111-154 | what unlinking does to every other segment: a slot that held the segment is empty with count 0, every other slot keeps segment and count, the edges go, and a table that could list it is dropped |
| GraphLaws.UnlinkKeepsLinked | emulator/src/x64/codesegment.cpp:146-154 | unlinking keeps the invariant, so nobody left mentions the segment |
| GraphLaws.UnlinkPrunes | emulator/src/kernel/linux/process.cpp:153-158 | the same for any number of removals one after the other |
| GraphLaws.RunLinked | emulator/src/x64/codesegment.cpp:88-154 | after any run of creations, edges, hits, compilations and removals: successor edges mirror predecessor edges, no cache dangles, lookup tables are fresh |
| InlineCacheLaws.ArriveKeepsExact | emulator/src/x64/codesegment.cpp:39-67 | one lookup keeps the cache exact, and is a hit iff the segment was visited before |
| InlineCacheLaws.FailsIffThree | emulator/src/x64/codesegment.cpp:54-67 | without removals a run of lookups fails iff it visits three destinations |
| InlineCacheLaws.CacheExact | emulator/src/x64/codesegment.cpp:39-67 | with at most two destinations nothing fails, an address is found iff visited, counts are visit counts, the busier slot is first |
| InlineCacheLaws.TwoDestinationsFailIff | emulator/src/x64/codesegment.cpp:54-65 | with two destinations control reaching one fails iff the other sits in both slots |
| InlineCacheLaws.WithoutIs | emulator/src/x64/codesegment.cpp:119-127 | a removal takes the segment out of the cache and nothing else; what stays keeps its slot and its count |
| InlineCacheLaws.ArriveFills | emulator/src/x64/codesegment.cpp:54-67 | a destination that is not found takes the first empty slot with count 1, and the other slot stays |
| InlineCacheLaws.RemovalBreaksCache | emulator/src/x64/codesegment.cpp:119-127 | a removal that gets there |
| InlineCacheLaws.SettledArrives | emulator/src/x64/codesegment.cpp:39-67 | while slots fill from the front with different ones of a block's two destinations, control arriving at either never fails and keeps them so |
| IntervalVectors.IntervalValue.Split | emulator/include/intervalvector.h:26-39 | both halves and how the items are divided |
| IntervalVectors.IntervalVector.Find | emulator/include/intervalvector.h:206-212 | the first interval that ends at or after the value |
| IntervalVectors.IntervalVector.Add | emulator/include/intervalvector.h:107-113 | the item joins the interval found, or nothing changes |
| IntervalVectors.IntervalVector.Insert | emulator/include/intervalvector.h:122-132 | where the interval goes and when the check on the right neighbour fails |
| IntervalVectors.IntervalVector.Reserve | emulator/include/intervalvector.h:115-119 | an empty interval goes in where `insert` puts it |
| IntervalVectors.IntervalVector.Split | emulator/include/intervalvector.h:148-155 | cuts the interval around the value and never fails the overlap check |
| IntervalVectors.IntervalVector.Remove | emulator/include/intervalvector.h:135-145 | cuts at both ends, then erases exactly the pieces that start in [start, end] |
| IntervalVectors.IntervalVector.ForEach | emulator/include/intervalvector.h:175-187 | visits exactly the items of pieces that touch [start, end] |
| IntervalVectors.IntervalVector.Size | emulator/include/intervalvector.h:100-104 | counts all items |
| IntervalLaws.FoundContainsIff | emulator/include/intervalvector.h:206-212 | the interval found contains the value iff it is covered and no interval ends there |
| IntervalLaws.SplitKeeps | emulator/include/intervalvector.h:148-155 | a split keeps order, covered addresses and items, and leaves no interval around the value |
| IntervalLaws.SplitKeepsFitting | emulator/include/intervalvector.h:26-39 | items stay inside their intervals iff none straddles the cut |
| IntervalLaws.RemoveExact | emulator/include/intervalvector.h:135-145 | what removal leaves covered and which items it drops |
| IntervalLaws.RemoveMeantIff | emulator/include/intervalvector.h:141-144 | it uncovers just [start, end) iff `end` is not covered |
| IntervalLaws.RemovalCovers | emulator/include/intervalvector.h:134-145 | what stays covered: all but the region and the rest of an interval cut at `end` |
| IntervalLaws.WithItemHoused | emulator/include/intervalvector.h:107-113 | a filed item starts in the closed interval it is filed in iff that begins no later, as it does for a covered address |
| IntervalLaws.RemovalHouses | emulator/include/intervalvector.h:134-145 | removal keeps all items starting in their intervals, whatever crossed a cut |
| IntervalLaws.VisitsCoverErased | emulator/include/intervalvector.h:175-203 | visits reach what removal erases, and one piece more iff one ends at `start` |
| IntervalLaws.VisitedIff | emulator/include/intervalvector.h:173-203 | a visit of [start, end] reaches an item iff it is filed in an interval that touches the region |
| IntervalLaws.InvalidateClean | emulator/include/intervalvector.h:134-203 | when no interval reaches up to `start` from below, visiting and removing drops exactly what was visited |
| IntervalLaws.InsertKeepsIff | emulator/include/intervalvector.h:122-132 | checking the right neighbour is enough iff the left one does not overlap |
| IntervalLaws.MeetsIff | emulator/include/intervalvector.h:122-132 | a new interval meets no other iff it passes the check on its right and its left neighbour leaves room |
| IntervalLaws.SplicedCovers | emulator/include/intervalvector.h:115-132 | an inserted interval covers its own addresses more, and no others |
| Processes.Process.FetchSegment | emulator/src/kernel/linux/process.cpp:181-203 | the registered segment, or a new one owned, registered and filed where lookup of its start leads; it fails iff none is registered and there is no block to be disassembled or no interval ends at or after the address |
| Processes.Process.OnRegionCreation | emulator/src/kernel/linux/process.cpp:135-138 | reserves an interval; when that fails, and when intervals stay disjoint |
| Processes.Process.OnRegionDestruction | emulator/src/kernel/linux/process.cpp:164-179 | unlinks and unregisters exactly the segments filed in intervals that touch the region, prunes them from the slots, tables and edges of all others, erases the intervals, and what stays covered |
| Processes.RegistryAfterPurge | emulator/src/kernel/linux/process.cpp:153-156 | when erasing by start address leaves registry and graph in step |
| Dispatch.Fetch | emulator/src/kernel/linux/process.cpp:181-203 | fetching keeps graph, registry and ownership consistent and slots settled; when it fails |
| Dispatch.LookUpGood | emulator/src/x64/codesegment.cpp:26-37 | whatever the caches answer is the registered segment for the address, a successor of the block; a hit counts |
| Dispatch.Learn | emulator/src/emulator/vm.cpp:114-116 | the block knows the successor afterwards, in a slot if it has fixed destinations, and everything stays consistent; it fails iff both slots are taken, never while slots are settled |
| Dispatch.Invalidate | emulator/src/kernel/linux/process.cpp:140-162 | consistent after an invalidation iff before it no linked segment away from the region starts where one near it does |
| Dispatch.NoneStaleIsSafe | emulator/src/kernel/linux/process.cpp:153-158 | where every owned segment is linked every removal is safe |
| Dispatch.StaleSegmentIsUnsafe | emulator/src/kernel/linux/process.cpp:164-203 | maps, fetches and unmaps that lead to an unsafe removal |
| Dispatch.Reserve | emulator/src/kernel/linux/process.cpp:135-138 | an interval more unless it reaches into the next one; consistent iff it meets no other or is refused |
| Upkeep.FindNextSegment | emulator/src/emulator/vm.cpp:107-127 | the next segment through caches or registry is the one fetching would give, and the block knows it as a successor afterwards; it fails iff none is to be had or both slots hold others, and without removals only for the first reason |
| Upkeep.LinkCompiled | emulator/src/emulator/vm.cpp:162-180 | fetches what a call returns to and, with call chaining, the block returns to the segment registered where its call ends and its table is up to date; keeps all edges and slots, unregisters nothing, and fails iff the return cannot be linked |
| Upkeep.Follow | emulator/src/emulator/vm.cpp:107-180 | finding and linking the next segment registers exactly the blocks that following control from the block fetches, leaves the successor and with call chaining the return noted, and fails only where the loop halts |
| Upkeep.NoteReturn | emulator/src/emulator/vm.cpp:175-178 | noting a return fails iff the block returns elsewhere or ends elsewhere |
| Upkeep.InvalidateReady | emulator/src/kernel/linux/process.cpp:164-179 | the dispatch loop may go on after an invalidation iff it was removable before it; and when no registered block is left in the region |
| Machine.Install | emulator/src/x64/cpu.cpp:44-59 | installing and saving a thread's state is a round trip that leaves the other segment bases alone |
| VirtualMachine.VM.SyncThread | emulator/src/emulator/vm.cpp:37-56 | saves flags, registers, x87, MXCSR and FS base to the current thread and, with a compiler, its call stack |
| VirtualMachine.VM.ContextSwitch | emulator/src/emulator/vm.cpp:64-89 | saves the old thread, then installs the new one with the compiler's call stack, or the initial state |
| VirtualMachine.VM.OnCall | emulator/src/x64/codesegment.cpp:160-163 | the queue visits the segment, and all followers of what is attempted in that round, before the segment runs; without a compiler nothing happens |
| VirtualMachine.VM.Exec | emulator/src/emulator/vm.cpp:156-210 | processor and memory are what the instruction set says of the block, time grows by its length, and a yield ends the slice; its thread records its calls and returns, or else the compiler is told of them |
| VirtualMachine.VM.Interpret | emulator/src/emulator/vm.cpp:148-158 | an atomic block without a slice of its own waits: nothing runs, the request is noted, the slice is over; otherwise the block does what the instruction set says and is counted, or nothing happens iff it would return with nothing on the call stack |
| VirtualMachine.VM.RunNative | emulator/src/emulator/vm.cpp:138-146 | processor, memory, call stack and time are what the compiled code gives; which segment control leaves from |
| VirtualMachine.VM.RunSegment | emulator/src/emulator/vm.cpp:137-158 | runs what the compiler makes of the block if it is compiled, and interprets it if not; which block control leaves from |
| VirtualMachine.VM.Turn | emulator/src/emulator/vm.cpp:130-180 | one turn dispatches the registered segment, is a turn of the plain loop with and without a compiler, and finds the next registered segment, which the block left knows as a successor then, or halts for a stated reason |
| VirtualMachine.VM.RunSlice | emulator/src/emulator/vm.cpp:104-181 | the whole loop is a run of the plain loop with and without a compiler, ends, and stops only when asked to or where it halts |
| VirtualMachine.VM.Execute | emulator/src/emulator/vm.cpp:93-183 | a slice starts with the thread's saved state and call stack, is a run of the plain loop, saves what it ends with, and leaves no thread current; without removals it fails only if no segment is to be had where it goes, or for a return with nothing on the call stack |
| Interpreter.RunExecutes | emulator/src/emulator/vm.cpp:130-160 | every turn of a run waits for an atomic slice, or takes processor, memory, clock and call stack where the instruction set says the block, or its compiled code, takes them; what is fetched next is what memory disassembles to |
| Sessions.SliceNow | emulator/src/kernel/linux/scheduler.cpp:137-164 | the slice leaves the thread with the processor, the compiler's call stack, the clock and the recorded calls of its last image; an atomic one that finishes ends the request for it |
| Sessions.TakeOne | emulator/src/kernel/linux/scheduler.cpp:120-166 | a slice of a session starts with what its thread has, on the clock asked for, is a run of the plain loop on the registered blocks, and changes nothing that another thread has; it is unfinished only where it halted, and not begun only if the thread is late |
| Sessions.MapOne | emulator/src/kernel/linux/process.cpp:135-138 | between slices a region comes: an empty interval more and nothing else, unless it reaches into the next one; the loop may go on iff it meets no other or is refused |
| Sessions.UnmapOne | emulator/src/kernel/linux/process.cpp:164-179 | between slices any region goes: exactly the segments near it are unregistered, it is uncovered, and the loop may go on iff the removal was removable |
| Sessions.MayRemove | emulator/src/kernel/linux/process.cpp:164-179 | decides from registry and intervals whether the loop may go on after a removal |
| Sessions.SessionIsolated | emulator/src/emulator/vm.cpp:37-98 | through any session each slice starts with the processor, call stack, clock, request and recorded calls that its thread's last slice left, and each thread ends with what its last one left |
| Sessions.RunSession | emulator/src/emulator/vm.cpp:93-183 | over any sequence of slices, region creations and removals, with or without a compiler, each event is answered where the one before it ended and threads are isolated; it ends early only with a halted slice or a refused event, and without removals only with a thread astray or a refused event |
| Sessions.RunSlices | emulator/src/emulator/vm.cpp:93-98 | over any schedule each slice is a run of the plain loop that starts with what the thread's last one left, and no other slice touches it; they end early only when a slice halted or a thread is late |
| Sessions.Emulate | emulator/src/kernel/linux/scheduler.cpp:120-166 | from nothing, on any sound instruction set: a new process and threads with no code registered, and a whole session of theirs, isolated |
| Sessions.CalmSessionEnds | emulator/src/emulator/vm.cpp:93-183 | without removals no slice of a session halts but where a thread is astray |
| Sessions.SessionHoused | emulator/src/kernel/linux/process.cpp:135-203 | code stays in the intervals that own it through a session that only fetches covered addresses |
| Sessions.RemovedCodeIsGone | emulator/src/kernel/linux/process.cpp:164-179 | in such a session no block registered after a removal starts in the removed region |
| Interpreter.SliceEnds | emulator/src/emulator/vm.cpp:130-181 | a slice has at most one turn per instruction allowed and, interpreted, exceeds its limit by less than its last block |
| Interpreter.UnderflowsIff | emulator/src/emulator/vm.cpp:186-210 | when a block cannot run: with a compiler iff at some point more returned than was on its call stack and was called, without one iff a return finds the recorded stack empty |
| Interpreter.RunsAgree | emulator/src/emulator/vm.cpp:130-181 | two interpreted runs from one image agree, and a finished one is the longest |
| Interpreter.LogIsRecorded | emulator/src/emulator/vm.cpp:186-210 | a profiled thread records just what the blocks of its run do to the call stack |
| Interpreter.LogTakesTime | emulator/src/emulator/vm.cpp:156-160 | time passes after every call of an interpreted run, so its profile can be merged |
| VmThreads.ThreadTime.SetSlice | emulator/include/emulator/vmthread.h:142-146 | when a slice may start and what it sets |
| VmThreads.TimeIsMonotone | emulator/include/emulator/vmthread.h:129-150 | thread time never goes back and moves on by what is run; a slice starts at the time asked for with as much left as asked for, or not at all iff that is past; a yield leaves nothing |
| VmThreads.VMThread.PushCallstack | emulator/include/emulator/vmthread.h:218-221 | three stacks and the call stream move together |
| VmThreads.VMThread.PopCallstack | emulator/include/emulator/vmthread.h:223-226 | pops one frame and records one return |
| VmThreads.VMThread.PopCallstackUntil | emulator/include/emulator/vmthread.h:228-233 | pops all frames below the stack pointer and records as many returns |
| VmThreads.NotifyAll | emulator/src/x64/compiler/jit.cpp:90-105 | the compiler's call stack after a block: none iff at some point more returned than was on it and was called; else as many entries as calls less returns add up to, those untouched as they were, and all others unknown, as all are after a jump of the stack pointer |
| VmThreads.ReplaySteps | emulator/include/emulator/vmthread.h:56-121 | what each recorded call, return, unwinding and tick does to the stack, the trace and the time, in any run |
| VmThreads.RecordKeeps | emulator/include/emulator/vmthread.h:56-121 | whatever is recorded is balanced and as high as the stack; it is timely iff calls take time |
| VmThreads.CallDepthIsStackSize | emulator/include/emulator/vmthread.h:91-103 | a recorded call's depth is the stack size when it was made |
| CallTraces.ConsumedIff | profileviewer/src/profiledata.cpp:36-71 | the merge consumes a call iff some return comes after it |
| TraceLaws.ReturnEndsTop | profileviewer/src/profiledata.cpp:63-70 | a return ends the call opened last |
| TraceLaws.RangesNest | profileviewer/src/profiledata.cpp:63-80 | ranges are disjoint or nested |
| TraceLaws.DepthCountsEnclosing | profileviewer/src/profiledata.cpp:54-59 | depth is the number of earlier ranges that contain the range |
| ProfileMerge.OrdersAreStrictWeak | profileviewer/include/profiledata.h:21-41 | both orders are fit for sorting |
| ProfileMerge.OrdersAre | profileviewer/include/profiledata.h:21-41 | depth first a range precedes those it contains and those after it; breadth first less deep ones precede, then those on the left |
| ProfileMerge.MaxHeightIs | profileviewer/src/profiledata.cpp:54-61 | the greatest depth is reached and not exceeded |
| ProfileMerge.SortedIsUnique | profileviewer/include/profiledata.h:21-30 | ranges with distinct begins have one depth-first order |
| ProfileMerge.MergeStreams | profileviewer/src/profiledata.cpp:36-71 | the loop takes the events in the order they happened, never underflows, and asserts iff no tick ties |
| ProfileMerge.TryCreate | profileviewer/src/profiledata.cpp:21-83 | exactly the ranges of the consumed calls, in call order, with greatest tick and depth |
| Profiling.RecordAndView | profileviewer/src/profiledata.cpp:21-83 | what a thread records is what the viewer gets |
| Profiling.CallIsShown | profileviewer/src/profiledata.cpp:36-80 | whether a call is shown, where it begins, at which depth, for which symbol, and when it ends |
| Profiling.RecordAndFocus | profileviewer/src/focusedprofiledata.cpp:44-104 | through a focus, exactly the ranges that meet it, with and without ties; no width assertion fails |
| Profiling.UnwindThenCallTies | profileviewer/src/profiledata.cpp:36-71 | a recording whose merge asserts and whose ranges touch |
| FocusedProfiles.Intersection | profileviewer/include/range.h:22-29 | the greatest range in both; proper iff they intersect |
| FocusedProfiles.Reunion | profileviewer/include/range.h:35-42 | the least range around both |
| FocusedProfiles.MergeRows | profileviewer/src/focusedprofiledata.cpp:66-88 | merged ranges run from data to data of one depth, cover all, and keep the distance the data keeps; what is merged is narrow, and neighbours are kept apart only where one more piece would not be; no width assertion fails |
| FocusedProfiles.ClippedShow | profileviewer/src/focusedprofiledata.cpp:90-103 | the result lies in the focus, keeps the distance the data keeps at each depth, and covers every range that meets the focus |
| FocusedProfiles.FocusedProfileData.SetFocusRange | profileviewer/src/focusedprofiledata.cpp:44-104 | shows the data in the focus, for every threshold: the ranges that begin in it, with what is narrow merged and nothing else, and those that reach into it from the left, all clipped; exactly the clipped ranges when nothing is narrow |
| FocusedProfiles.FocusedProfileData.FocusedRange | profileviewer/src/focusedprofiledata.cpp:10-15 | the least range around all that is shown |
| FocusedProfiles.FocusedProfileData.Push | profileviewer/src/focusedprofiledata.cpp:22-25 | remembers the least range around all that is shown, within the focus |
| FocusedProfiles.FocusedProfileData.Pop | profileviewer/src/focusedprofiledata.cpp:27-36 | what is shown after a pop |
| FocusedProfiles.FocusedProfileData.Reset | profileviewer/src/focusedprofiledata.cpp:17-20 | shows everything |
| FocusedProfiles.MergedIsLaid | profileviewer/src/profiledata.cpp:36-83 | what the merge makes is fit for focusing; its ranges of one depth share no end point iff no call ties with an earlier return |
| LockedMemory.ValueOfBytes | emulator/include/x64/mmu.h:297-340 | a value survives being stored byte by byte |
| LockedMemory.LittleEndian | emulator/include/x64/mmu.h:297-340 | the byte at i is worth 256^i |
| LockedMemory.ComplementSubtracts | emulator/src/x64/cpu.cpp:2069-2132 | a locked subtraction is the addition of the complement, modulo the cell's range |
| LockedMemory.MutualExclusion | emulator/include/x64/spinlock.h:14-22 | at most one thread between acquire and release on a region, and the lock is taken iff there is one |
| LockedMemory.StepKeeps | emulator/include/x64/mmu.h:173-196 | every step of every thread keeps the protocol's invariant |
| LockedLaws.Linearizable | emulator/include/x64/mmu.h:173-196 | in every schedule a free region holds the fold of its accesses in acquire order, each begun access once, and every value read is the one at its turn |
| LockedLaws.SawAndLeft | emulator/src/x64/cpu.cpp:3751-3801 | what an access saw decides what it left: CMPXCHG stores its source iff it saw what it expects and leaves the cell otherwise, additions wrap, XCHG stores |
| LockedLaws.AddsAddUp | emulator/src/x64/cpu.cpp:1922-1985 | no addition is lost: initial value plus all operands modulo 2^(8w) |
| LockedLaws.XaddSawPrefix | emulator/src/x64/cpu.cpp:2590-2637 | XADD returns the initial value plus the operands before its turn |
| LockedLaws.LogIsWhatBegan | emulator/include/x64/mmu.h:310-323 | what was logged is what the threads began, nothing lost or done twice |
| LockedLaws.SumIsExact | emulator/src/x64/cpu.cpp:1922-1985 | when all programs are over the cell is the initial value plus every operand |
| LockedLaws.OneWins | emulator/src/x64/cpu.cpp:3751-3801 | of any number of CMPXCHGs that expect what the cell holds at the start at most one succeeds, in every schedule; in the end exactly one has, and the cell holds its source |
| LockedLaws.StepWorks | emulator/include/x64/spinlock.h:14-18 | a step finds the lock taken or brings its thread nearer its end |
| LockedLaws.SomebodyWorks | emulator/include/x64/spinlock.h:14-22 | no deadlock |
| StringOps.StringCpu.RepMovs | emulator/src/x64/cpu.cpp:4060-4096 | the loop moves element by element; pointers and counter afterwards |
| StringOps.MovedIsCopy | emulator/src/x64/cpu.cpp:4079-4096 | moving down or far up is an exact copy |
| StringOps.MovedIsPeriodic | emulator/src/x64/cpu.cpp:4140-4157 | moving up into its own source repeats the bytes in between |
| StringOps.MovedRepeats | emulator/src/x64/cpu.cpp:4060-4077 | with the destination k elements up, element i is source element i mod k |
| StringOps.StringCpu.RepStos | emulator/src/x64/cpu.cpp:4226-4288 | fills with the accumulator and nothing else |
| StringOps.StringCpu.RepnzScas | emulator/src/x64/cpu.cpp:4290-4364 | stops just past the first match or after all elements; counter, pointer and ZF |
| StringOps.StringLength | emulator/src/x64/cpu.cpp:4290-4307 | scanning for zero from the greatest count gives ~RCX - 1 equal to the string's length |
| StringOps.StringCpu.RepCmps | emulator/src/x64/cpu.cpp:4159-4180 | stops just past the first difference; counter, pointers and ZF |
| Timers.FromNanoSeconds | emulator/include/kernel/timers.h:45-54 | keeps the count; one full second of nanoseconds iff exactly that was given |
| Timers.Plus | emulator/include/kernel/timers.h:61-70 | addition loses no time, and when a full second of nanoseconds stays |
| Timers.LessIsCount | emulator/include/kernel/timers.h:26-36 | the order is that of counts but for one pair of equal times |

## Left out

- CodeSegments.CodeSegment.AddReturn: does not model the back edges of returns (`callPredecessors_`), which the source does not unlink symmetrically; predecessors by return are therefore not patched here.
- CodeSegments.CodeSegment.RemoveFromCaches: leaves out the walk over those back edges; the removed segment keeps what its own slots and vectors held, as in the source.
- CodeSegments.CodeSegment.TryCompile: does not patch predecessors by return, for the same reason.
- CodeSegments.CodeSegment.TryPatch: does not model patching of machine code, only the lookup table; the native compiler and its jumps are opaque.
- VirtualMachine.VM.SyncThread: the compiler's call stack is unbounded, so that the check on its size when it is saved is not modelled; likewise `VM.ContextSwitch`.
- VirtualMachine.VM.RunNative: native code is an arbitrary function of processor, memory, clock and call stack that takes time and leaves from a registered segment; which blocks it chains through is not modelled.
- VirtualMachine.VM.Exec: a block runs as a whole, so that what it records is recorded at the time it starts, as in the source; counters of calls are left out.
- VirtualMachine.VM.Execute: with a compiler, says why a slice may halt, not that it never does without removals. That a fixed jump or direct call leads to its target or to the next address is a property of the instruction set assumed in `Isa.Sound`, like that only the last instruction of a block calls.
- Sessions.RunSession: ends before a removal after which the registry would be out of step or a return edge would dangle, and before creating a region that overlaps another; the emulator would go on with broken state.
- CodeSegments.CompilationQueue.Process: does not start on a graph in which a return edge leads to a removed segment, which the source may have freed.
- Processes.Process.FetchSegment: the disassembler is a function of memory and address that gives a block or none; why it gives none, and the lock around the registry, are not modelled.
- IntervalVectors.IntervalVector.ForEach: models the const and the mutable visit as one, and collects the items instead of calling back.
- IntervalVectors.IntervalValue.Split: keeps the order of items in both halves, which std::partition does not promise.
- VmThreads.ThreadTime.SetSlice: clocks and counters are unbounded; 64-bit wrap-around is not modelled.
- VmThreads.VMThread.PopCallstackUntil: the number of frames is unbounded, not 32 bits wide; the system call stream is left out.
- ProfileMerge.TryCreate: symbols are an opaque function of the address and system call ranges are left out.
- FocusedProfiles.FocusedProfileData.SetFocusRange: the floating point merge threshold is an arbitrary predicate on two widths; callbacks are left out.
- LockedMemory.Step: regions are fixed and accesses stay in one; 16-byte forms, OR, BTS and flags are left out, memory is copied byte by byte, and without the multiprocessing build there is no lock to model. Plain loads take no lock, so nothing is stated about what they see.
- StringOps.StringCpu.RepMovs: accesses are in bounds, so that no fault interrupts the loop; the byte form goes through a bulk copy that is not part of this model.
- StringOps.MovedIsPeriodic: only destinations at least one element above the source; closer ones overwrite part of the element just moved.
- Timers.Plus: numbers are unbounded.
- Scheduling, system calls, memory mapping, ELF and symbol files, SIMD and x87 arithmetic, the instruction table, serialisation and the viewer's user interface: not part of this model.
