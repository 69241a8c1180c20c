# Verification of the process monitor

This project models the parts of the process monitor whose correctness rests on more than one function,
and proves what they promise, in two halves.

**Threads.** The collector thread and the main loop (`src/collector/collector.c`, `src/main.c`), and three
programs of `demo/threadsync.c`: the bounded buffer, the semaphore with its compare-and-swap maximum, and
the lock-order experiment. Each is a transition system with one program counter per thread. A run is any
sequence of enabled steps, so every interleaving, every spurious wakeup, every timeout and every passing
of time is in it, and the theorems are about all runs. Condition variables follow POSIX.1-2017: a wait
releases the mutex and blocks in one step, a signal unblocks one waiter if there is one, a timed wait may
end at its deadline, and any wait may end for no reason. The constants of the demos (slots, items,
consumers, visitors, permits, threads, locks) are arbitrary.

**State.** The process monitor, the process tree, the user interface's table and tree view, the directory
listing and the text parsers, as classes and methods on arrays that do what the C code does in place, each
proved equal to a function on sequences. The promises are theorems about those functions, over whole
histories of samples where the code keeps history.

| files | subject |
|---|---|
| `BoundedBuffer`, `RingBuffer`, `SemaphoreMax`, `LockOrder`, `Tally` | `demo/threadsync.c` |
| `Clock`, `Collector`, `CollectorFields`, `CollectorInvariant`, `CollectorProperties`, `CollectorLoop`, `CollectorOverlap` | the collector protocol and its client |
| `Sample`, `Events`, `Accounting`, `ProcessMonitor`, `Slices`, `ProcessTree` | `src/process/process_monitor.c` |
| `Sorting`, `ProcessTable`, `TableWindow`, `ListView`, `TreeDraw`, `TreeOrder`, `TreeCycles`, `TreeShown`, `TreeShape`, `Buffers` | `src/ui/ui.c` |
| `CStrings`, `Numbers`, `Lines`, `Trim`, `Meminfo`, `StatLine` | `src/utils/parser.c` |
| `ProcReader` | `src/proc/proc_reader.c` |

Inputs from outside are parameters that may have any value: the kernel's answer for each process, the
directory listing, the clock (which does not run backwards in the protocol), the keys, the terminal's
height, the text of a file.

Where the code and its documentation disagree, the model follows the code. `src/collector/collector.h:15-18`
says that everything under the lock is read and written with the lock held; the sweep, which runs without
it, writes `last_scan_ms` (`src/process/process_monitor.c:315`), and the drawing code reads it
(`src/ui/ui.c:643`).

Six claims one might make are false of the code. Each is shown to fail on concrete inputs, and the exact
condition under which it holds is proved:

- A step that the collector takes without the lock changes nothing main reads: exactly if it is not the step
  that stores the time of the scan, or that time is there already (`CollectorProperties.SweepIsPrivate`). A run
  ends with both threads about to make their access and a frame that depends on who is first
  (`CollectorOverlap.ScanTimeIsUnprotected`).
- The list of PIDs is strictly ascending: exactly if the listing names no PID twice, since the code sorts
  and does not remove duplicates (`ProcReader.StrictIffNoDuplicates`, `ProcReader.DuplicatesStay`).
- The events of a process alternate: exactly if it never comes or goes in more than one row
  (`Events.AlternateIffOne`, `Events.TwoRowsTwoEvents`).
- The scroll window is full after a redraw: exactly if enough rows are left from the smaller of its first row
  and the place the selected process will have, which is the number of rows that compare below it
  (`TableWindow.WindowIsFull`). Runs of any length of list reach states in which it is not
  (`TableWindow.WindowMayBeUnderFull`).
- The command name is bracketed correctly: exactly if no `(` stands before it and no `)` after it
  (`StatLine.BracketFinds`, `StatLine.ParenthesisAfterMisleads`).
- The tree view, on a screen with room for all, shows every process exactly once: if and only if the sample
  names no PID twice, no parents form a cycle, and no process names PID 0 while a process 0 is in the sample
  (`TreeCycles.OnceIffNoCycles`). There can be one, since the test for a positive PID comes before the narrowing
  (`ProcReader.NameOfZero`). A process with two rows is shown twice (`TreeCycles.RepeatedIsShownTwice`), and so is
  a child of process 0, as a root and as a child (`TreeCycles.ChildOfZeroIsShownTwice`). A process that is its
  own parent is drawn under itself until the rows run out (`TreeCycles.OwnParentFills`,
  `TreeCycles.OwnParentIsShownAlways`). Who is in a longer cycle is not shown at all
  (`TreeShown.CycleIsNotShown`, `TreeShown.TwoParentsAreNotShown`), and if no root has a parent, those are shown
  whose chain of parents ends (`TreeShown.ShownIffEnds`).

## Model

| member | source | states |
|---|---|---|
| RingBuffer.PutAppends | demo/threadsync.c:188-190 | a put appends to the contents read from the head and keeps the ring well-formed |
| RingBuffer.TakeRemovesFront | demo/threadsync.c:201-203 | a take removes the first of the contents read from the head and keeps the ring well-formed |
| RingBuffer.Buffer.Put | demo/threadsync.c:188-190 | the three assignments on the array and its indices are the ring's put, and append the item to the contents |
| RingBuffer.Buffer.Take | demo/threadsync.c:201-204 | the same for the take, which returns the oldest item and how many are left |
| BoundedBuffer.StepKeepsInv | demo/threadsync.c:179-236 | every step of every thread keeps mutual exclusion, order, the stop markers' count and the wakeup invariant |
| BoundedBuffer.Conservation | demo/threadsync.c:172-208 | in every state of every run, what was put is what was taken followed by the ring's contents, and a prefix of the producer's script |
| BoundedBuffer.TakenInOrder | demo/threadsync.c:210-236 | the j-th take is the j-th entry of the script, so no stop marker is taken before all items are |
| BoundedBuffer.NoSleeperIsForgotten | demo/threadsync.c:179-208 | with the lock free, if a consumer sleeps the buffer holds no more than there are woken consumers, and if the producer sleeps it is full |
| BoundedBuffer.DeadlockFree | demo/threadsync.c:179-236 | every reachable state that is not final has a step that is not a spurious wakeup, for any slots, items and consumers of at least one |
| BoundedBuffer.RunsAreBounded | demo/threadsync.c:179-236 | the length of a run is bounded by a constant plus four for each spurious wakeup in it |
| BoundedBuffer.RunsComplete | demo/threadsync.c:210-253 | a run that cannot go on has delivered every item once and in order, one stop marker to each consumer, and left the ring empty and the lock free |
| SemaphoreMax.NeverTooMany | demo/threadsync.c:263-277 | permits left plus visitors between wait and post is constant, and the number inside never exceeds the permits |
| SemaphoreMax.MaximumNeverDrops | demo/threadsync.c:268-271 | the maximum never decreases |
| SemaphoreMax.MaximumIsExact | demo/threadsync.c:268-293 | when all have left, the maximum is the largest number any visitor observed and the most ever inside, spurious failures of the exchange included |
| SemaphoreMax.DeadlockFree | demo/threadsync.c:263-293 | with at least one permit some visitor can always go on |
| SemaphoreMax.RunsAreBounded | demo/threadsync.c:268-271 | contention cannot keep the exchange loop going: steps are bounded by a constant plus the spurious failures |
| LockOrder.NobodyGetsSecond | demo/threadsync.c:310-341 | in a circle of any number of threads with both barriers, nobody ever gets a second lock, whatever the timing |
| LockOrder.CircleGoesOn | demo/threadsync.c:315-339 | until all are done, a thread can step or give up, or only waits for its deadline |
| LockOrder.CircleEnds | demo/threadsync.c:327-340 | when all are done, all have given up and every lock is free |
| LockOrder.RunsAreBounded | demo/threadsync.c:310-341 | no run of any configuration has more than nine thread steps per thread |
| LockOrder.GivesUpAfterASecond | demo/threadsync.c:325-331 | in every run of any configuration, whoever gives up asked for its second lock at least 1000 ms before, has waited for it ever since, and finds it taken |
| LockOrder.SecondIsFree | demo/threadsync.c:347-367 | in the same order, any number of threads: whoever asks for the second lock finds it free and cannot time out |
| LockOrder.OrderedNeverStuck | demo/threadsync.c:362-367 | for any global lock order and any threads, somebody can go on without anybody giving up |
| Clock.AddMsIsExact | src/collector/collector.c:10-17 | one carry is enough: exactly ms is added, with C's truncating division, and a normalised time stays so for every ms from zero up; for a negative ms exactly if the nanoseconds do not fall below zero |
| Clock.TimespecCell.Add | src/collector/collector.c:10-17 | the in-place addition has that effect |
| Clock.DiffSecondsIsExact | src/utils/parser.c:69-72 | the difference is the exact one, and its sign is that of the order of the two times |
| CollectorFields.KmCollector.RequestRefresh | src/collector/collector.c:151-156 | taking the lock, setting the flag, signalling and giving back the lock are the protocol's four steps, and leave the collector awake |
| CollectorFields.KmCollector.SetInterval | src/collector/collector.c:144-149 | likewise for the interval |
| CollectorFields.KmCollector.Stop | src/collector/collector.c:123-126 | likewise for the stop flag |
| CollectorFields.KmCollector.WaitUnlessAsked | src/collector/collector.c:35-38 | the collector blocks, giving up the lock, exactly if neither a stop nor a refresh is asked for, as in the protocol's step |
| CollectorFields.KmCollector.BeginSweep | src/collector/collector.c:45-51 | the request is taken and the lock given back as in the protocol's two steps |
| CollectorFields.KmCollector.CountPublish | src/collector/collector.c:63 | the generation is counted up as in the protocol's publishing step |
| CollectorFields.MainLoop.constructor | src/main.c:104-114 | the main loop begins as every run of the protocol does |
| CollectorFields.MainLoop.HandleKey | src/main.c:172-309 | the main loop's own variables after a key are those of the protocol's step, and the interval stays in 500..10000 |
| CollectorFields.MainLoop.LookAtGeneration | src/main.c:314-318 | a frame is drawn whenever the generation moved, and the loop remembers the generation it draws |
| CollectorInvariant.StepKeepsInv | src/collector/collector.c:19-68 | every step of either thread, of the clock, a signal or a spurious wakeup keeps the whole invariant |
| CollectorProperties.NothingIsSleptThrough | src/collector/collector.c:35-41 | a collector asleep with no signal on its way has no stop and no refresh to serve, and a deadline of the last sweep plus the current interval |
| CollectorProperties.SignalsAreSentUnderTheLock | src/collector/collector.c:123-126 | between a change and its signal the main thread holds the lock |
| CollectorProperties.SweepIsPrivate | src/collector/collector.c:47-53 | in every run, a step the collector takes without the lock changes something main reads if and only if it is the one that stores the time of the scan and the time stored is not yet the time since the sweep before, both told from the state before the step; and then it changes that only |
| CollectorProperties.NoTornFrame | src/main.c:311-322 | the rows, count, events, system figures and generation of a frame are all from one publish, and the rows are the kernel's answer to one whole sweep |
| CollectorProperties.FrameIsCurrent | src/main.c:313-322 | when the lock is given back after drawing, the frame is of the current generation |
| CollectorProperties.PromptIsFromOneSample | src/main.c:73-78 | when the lock is given back, main has a row of the current sample with the PID it looked for, or nothing and that sample has no such row |
| CollectorProperties.PromptIffPresent | src/main.c:73-87 | the user is asked exactly if the current sample has the PID, and about that PID |
| CollectorProperties.PromptNamesThePid | src/main.c:84-87 | as long as the question stands, the name in it is that of the PID in it |
| CollectorProperties.NoRefreshIsLost | src/collector/collector.c:35-63 | before the collector sleeps again after a request, a sweep begun after the request is published, even if the request came in mid-sweep |
| CollectorProperties.RefreshIsServed | src/collector/collector.c:35-63 | after a request was signalled, and until the sweep begun after it is published or main stops it, the collector does not sleep, and its steps are bounded by those it had to take when it was told and the rows it sweeps meanwhile |
| CollectorProperties.AtMostStepsLeft | src/collector/collector.c:35-63 | the steps it has to take when it is told are at most 21, and one for each row of a sweep under way |
| CollectorProperties.RequestsCoalesce | src/collector/collector.c:45 | sweeps made on request never outnumber the requests |
| CollectorProperties.SweepsAreSpaced | src/collector/collector.c:35-54 | two consecutive sweeps, the second not on request, begin at least 500 ms apart |
| CollectorProperties.FirstSweepWaits | src/collector/collector.c:21-38 | the first sweep, if not on request, begins at least 500 ms after the collector did |
| CollectorProperties.DeadlineGivesSweep | src/collector/collector.c:35-54 | after a wait that ended by its deadline the collector does not wait again before it sweeps or is stopped, and it is at the sweep after at most four steps of its own |
| CollectorProperties.AtMostOneMorePublish | src/collector/collector.c:42-63 | once the stop flag is set at most one more sample is published, and none unless a sweep had passed the test |
| CollectorProperties.JoinIsBounded | src/collector/collector.c:118-134 | after the stop was signalled, the collector's own steps are bounded by those it has still to take and the rows it sweeps |
| CollectorProperties.AtMostDistance | src/collector/collector.c:118-134 | the steps it has still to take are at most 17, and one for each row of a sweep under way |
| CollectorProperties.JoinNeverHangs | src/collector/collector.c:128-129 | while main waits in the join the collector can always step, without time passing |
| CollectorProperties.NothingAfterDestroy | src/collector/collector.c:132-133 | once the lock and the condition are destroyed neither thread takes a step |
| CollectorProperties.NeverWaitsHoldingTheLock | src/main.c:68-96 | main never holds the lock while it waits for a key, an answer or the join |
| CollectorProperties.NeverStuck | src/main.c:169-332 | until main is done one of the threads can step, with no help from the clock or a spurious wakeup |
| CollectorLoop.LoopEnds | src/main.c:169-333 | from the moment the running flag is cleared main reads no further key, begins at most one frame, and takes no more steps than it has left and that frame has rows |
| CollectorLoop.AtMostMainLeft | src/main.c:169-333 | the steps it has left are at most 20, and one for each row of a frame it is at |
| CollectorLoop.StopsOnlyIfAsked | src/main.c:169-329 | main leaves its loop only if a quit key was read or a signal came |
| CollectorLoop.ShutdownIsComplete | src/main.c:169-333 | a run with a quit key or a signal in it, in which neither thread can go on, has main at its end, the collector exited, the lock free and destroyed; main took a bounded number of steps since it was asked, and the collector since it was signalled |
| CollectorLoop.KeyIsServed | src/main.c:172-322 | back at the head of the loop: slower raised the interval by 500 ms or to 10000, faster lowered it by 500 or to 500, no other key changed it, and the collector has it; a refresh key made one request and no other key did; the process to be signalled was looked up; a frame was drawn if the key was handled, and else only for another generation or as the first |
| CollectorOverlap.ScanTimeIsUnprotected | src/collector/collector.h:15-18 | against the comment: a state is reached in which main, with the lock, is about to read the time of the scan and the collector, without it, to write it, and the frame depends on who is first |
| Sample.BisectFinds | src/process/process_monitor.c:55-72 | in a sample in order, duplicates or not, bisection misses no PID that is there |
| Sample.FindIn | src/process/process_monitor.c:55-72 | the loop gives the position of the PID, or says that it is not in the sample |
| Events.OfPidChanges | src/process/process_monitor.c:243-262 | one comparison of two samples gives a PID events exactly if it is in one of them only, one for each of its rows there, all of the right kind |
| Events.ChangesInTurn | src/process/process_monitor.c:240-262 | one comparison records first the creations and then the terminations, both in PID order, of exactly the rows whose PID is not in the other sample, each with the row's name |
| Events.AlternateIffOne | src/process/process_monitor.c:240-262 | over any history the events of a PID alternate, beginning with a creation, if and only if it never comes or goes in more than one row; and then the last one tells whether it is there now |
| Events.EventsAlternate | src/process/process_monitor.c:240-262 | without duplicates they always do |
| Events.TwoRowsTwoEvents | src/process/process_monitor.c:247-253 | a process that comes in two rows is created twice |
| Events.ReplayGivesCurrent | src/process/process_monitor.c:240-262 | all events replayed from the empty set give the PIDs of the last sample |
| Events.LastOfConcat | src/process/process_monitor.c:225-232 | dropping all but the last n before appending loses nothing of the last n |
| Accounting.CollectedAreTheRead | src/process/process_monitor.c:283-312 | any listing gives exactly the listed processes that could be read, as often as listed, each row with the kernel's answer (parent, name, times, faults) and the rates of its step |
| Accounting.CollectedIsOrdered | src/process/process_monitor.c:283-312 | a listing in order gives a sample in order, and one without duplicates if the listing has none |
| Accounting.SampleIsTheAnswers | src/process/process_monitor.c:264-312 | over any history of sweeps every sample is in order, has exactly the processes that answered, and shows of each what the kernel answered |
| Accounting.FiguresOfStep | src/process/process_monitor.c:168-219 | the figures of a process, each times the measured gap, are what its counters gained between the kernel's two answers, and nothing where they fell |
| Accounting.ZeroWithoutPast | src/process/process_monitor.c:190-212 | a process that was not in the sample before, or no time between two sweeps, shows zeros, and no clock rate shows no CPU |
| Accounting.CpuTimeIsConserved | src/process/process_monitor.c:168-198 | over any history of sweeps, for a process that stays, with positive gaps, the percentages shown times gaps times ticks add up to 100 times the kernel's last answer less its first, user and system time together, exactly if that count never fell; otherwise to more |
| Accounting.MinorFaultsAreConserved | src/process/process_monitor.c:204-219 | in the same sense, minor-fault rates times gaps add up to the kernel's last count less its first |
| Accounting.MajorFaultsAreConserved | src/process/process_monitor.c:204-219 | the same for major faults |
| Accounting.FiguresAreNeverNegative | src/process/process_monitor.c:177-219 | no percentage and no rate of any sample is negative, recycled PIDs included |
| ProcessMonitor.Monitor.constructor | src/process/process_monitor.c:11-39 | an empty monitor with no history is valid |
| ProcessMonitor.Monitor.Find | src/process/process_monitor.c:74-76 | finds a row of the published sample by its PID |
| ProcessMonitor.Monitor.Reserve | src/process/process_monitor.c:78-89 | makes room for a row, by doubling from 512 on, and keeps the pending ones |
| ProcessMonitor.Monitor.PushEvent | src/process/process_monitor.c:221-238 | the window becomes the last 100 of itself and the new event |
| ProcessMonitor.Monitor.DetectChanges | src/process/process_monitor.c:243-262 | the window of a history becomes the window of the history with all changes |
| ProcessMonitor.Monitor.Collect | src/process/process_monitor.c:264-312 | the pending sample is the listed processes that could be read, each with the kernel's answer and with rates against the published one, which is not touched, over the time since the last sweep |
| ProcessMonitor.Monitor.Publish | src/process/process_monitor.c:318-334 | the pending sample is published by the swap and joins the history; the window stays the last 100 events of the history |
| ProcessMonitor.Monitor.Update | src/process/process_monitor.c:264-334 | a sweep and a publication extend the history by the sweep, and the rows are the kernel's answers to it |
| ProcessMonitor.Monitor.RecentEvents | src/process/process_monitor.c:341-350 | gives the last min(n, 100) events of the whole history |
| ProcessMonitor.WholeRun | src/process/process_monitor.c:221-334 | in every reachable monitor the rows are in order, all events replayed give them, those of a PID alternate exactly if it never came or went in more than one row, and no figure is negative |
| ProcessMonitor.RowsAreTheAnswers | src/process/process_monitor.c:264-334 | in every reachable monitor the rows are the kernel's answers to the last sweep |
| ProcessTree.KidsAreTheChildren | src/process/process_monitor.c:408-418 | for every sample in PID order, the list of children is ascending and holds exactly the processes with that PPID, each once if no PID is repeated |
| Slices.FlatSlice | src/process/process_monitor.c:393-397 | the slice at a process's offset holds exactly its children |
| Slices.SlicesTile | src/process/process_monitor.c:393-397 | every place of the flat array lies in one slice and no other: no gap, no overlap |
| Slices.NextPlace | src/process/process_monitor.c:410-417 | the place the fill pass writes to is inside its parent's slice |
| ProcessTree.RootsAreExact | src/process/process_monitor.c:382-440 | for every sample, the roots are at most as many as its rows, and exactly the processes with a row whose PPID is absent, zero or its own; each once if no PID is repeated |
| ProcessTree.RootsInOrder | src/process/process_monitor.c:382-440 | in PID order the roots whose parent is absent, and after them in PID order those that are on top only by PPID zero or their own |
| ProcessTree.Tree.CountChildren | src/process/process_monitor.c:380-391 | for every sample in PID order, repeated PIDs or not, the first pass leaves the number of children at the row a search for the parent finds, and the processes whose parent is absent as roots |
| ProcessTree.Tree.AddUp | src/process/process_monitor.c:393-397 | the second loop leaves the offsets and returns the number of all children |
| ProcessTree.Tree.FillIn | src/process/process_monitor.c:408-418 | for such a sample the fill pass stays in bounds and leaves every process's children in the slice of the row a search finds |
| ProcessTree.Tree.AddLateRoots | src/process/process_monitor.c:420-440 | the last pass adds the processes with PPID 0 or their own that are not roots yet, each once |
| ProcessTree.Tree.Build | src/process/process_monitor.c:356-444 | for every sample in PID order, repeated PIDs or not, it leaves offsets, counts, flat array and roots as the parent relation says, from the zeroed arrays |
| ProcessTree.Tree.Find | src/process/process_monitor.c:454-456 | says whether the PID is in the sample |
| ProcessTree.Tree.Children | src/process/process_monitor.c:458-476 | gives the children of a PID, and nothing for one that is not in the sample |
| TreeDraw.View.Extend | src/ui/ui.c:480-489 | the prefix buffer holds the prefix of the children, which always leaves room for its terminator |
| TreeDraw.View.Print | src/ui/ui.c:457-471 | the line drawn has the whole prefix and the branch, cut by no buffer |
| TreeDraw.View.Draw | src/ui/ui.c:433-499 | the recursion draws exactly the lines of the walk that fit, and hands the prefix back as it was |
| TreeDraw.DrawProcessTree | src/ui/ui.c:501-532 | the whole view is the walk over the roots, cut at the last row, for every sample in PID order, repeated PIDs or not, and every height |
| TreeOrder.WalkIsPreorder | src/ui/ui.c:433-499 | without PPID cycles the walk with a cut-off is the depth-first preorder, cut off |
| TreeOrder.DrawnIsPreorder | src/ui/ui.c:501-532 | the rows drawn are the first max_row - 2 entries of the preorder of the forest, none if that is negative |
| TreeOrder.PreorderShowsUnder | src/ui/ui.c:473-494 | the walk from a process shows it and each of its descendants once, and nobody else |
| TreeOrder.EveryProcessOnce | src/ui/ui.c:501-532 | without PPID cycles and without a child of process 0, every process stands in the forest's preorder exactly once, and nothing else does |
| TreeOrder.DrawnOnce | src/ui/ui.c:501-532 | so the view then shows min(count, max_row - 2) lines, of as many different processes of the sample |
| TreeCycles.OwnParentFills | src/ui/ui.c:473-494 | the walk from a process that is its own parent fills all the rows there are |
| TreeCycles.OwnParentIsShownAlways | src/ui/ui.c:501-532 | a sample of one process that is its own parent, which fills the screen whatever its height |
| TreeCycles.ScreenOwes | src/ui/ui.c:473-529 | with room to spare, a process is shown at least as often as it is among the roots and has rows whose parent is shown |
| TreeCycles.TopIsShownTwice | src/process/process_monitor.c:420-440 | with room to spare, a root whose parent is shown is shown twice |
| TreeCycles.ShownHasRoot | src/ui/ui.c:520-529 | whoever is shown has a chain of parents that leads up to a root |
| TreeCycles.AcyclicIffNoCycles | src/process/process_monitor.c:352-355 | a sample can be given levels exactly if every chain of parents comes to an end |
| TreeCycles.OnceIffNoCycles | src/ui/ui.c:433-532 | for every sample in PID order and more rows than processes, every process is shown exactly once if and only if the sample names no PID twice, every chain of parents comes to an end, and nobody names PID 0 while a process 0 is in the sample |
| TreeCycles.ChildOfZeroIsShownTwice | src/process/process_monitor.c:420-440 | a sample without cycles, of a process 0 and a child of it, of which the child is shown twice, for every height with room for it |
| TreeCycles.RepeatedIsShownTwice | src/process/process_monitor.c:380-391 | a sample with one process in two rows, which is shown twice |
| TreeShown.CycleIsNotShown | src/ui/ui.c:520-529 | who is its own ancestor, with nobody above it that is a root by a PPID of zero or its own, is not shown, whatever the room |
| TreeShown.TwoParentsAreNotShown | src/ui/ui.c:501-532 | a sample of two processes that are each other's parent, of which the first is not shown, whatever the room |
| TreeShown.ShownIffEnds | src/ui/ui.c:433-532 | with more rows than processes, no PID repeated and no root that has a parent, a process is shown once if its chain of parents ends, and else not at all |
| TreeShape.TreeIsDrawn | src/ui/ui.c:433-532 | for every sample without repeated PIDs and every height: each line is that of a chain of parents down from a root; as long as the prefix fits, its indent is a bar or blanks for each ancestor below the root, a bar exactly if that ancestor has a sibling with a higher PID, and then a tee or a corner in the same way for the process itself, nothing for a root; the lines are in depth-first order, siblings by PID and roots as listed |
| Sorting.SortIsUnique | src/ui/ui.c:200-203 | where the order tells all elements apart there is one sorted permutation, whatever qsort does inside |
| ProcessTable.CompareIsOrder | src/ui/ui.c:204-212 | the comparison is a total preorder that changes sign with its arguments and ties only rows of one PID |
| ProcessTable.TableIsUnique | src/ui/ui.c:232-235 | for a sample without repeated PIDs, a sequence is the table if and only if it is a permutation of the sample in which of any two rows the earlier has more CPU, or as much and the lower PID |
| ProcessTable.BusiestFirst | src/ui/ui.c:204-240 | of two displayed PIDs the first is that of the process with more CPU, or as much and the lower PID, and the reverse |
| ProcessTable.DisplayedIsTheSample | src/ui/ui.c:237-240 | without repeated PIDs, the displayed PIDs are those of the sample, each once |
| ProcessTable.DisplayedAreTheRows | src/ui/ui.c:237-240 | for every sample, as many PIDs are displayed as it has rows, and they are those of the sample |
| ProcessTable.EqualRowsHoldStill | src/ui/ui.c:200-203 | rows with the same CPU figure stand in PID order, in every frame |
| ProcessTable.SelectionFollows | src/ui/ui.c:242-256 | for every sample, a selected process that is still there stays selected; otherwise the index is clamped into a non-empty list |
| ProcessTable.WindowShowsSelection | src/ui/ui.c:263-282 | for every sample, if any row is visible the selected row is in the window and is the one highlighted row |
| TableWindow.PlaceInTable | src/ui/ui.c:204-240 | the place of a process in the table is the number of rows with more CPU, or as much and a lower PID |
| TableWindow.SelectedIsKept | src/ui/ui.c:242-256 | the selected row after a redraw, told from what is there before it |
| TableWindow.ScreenIsTheTable | src/ui/ui.c:263-304 | the screen has as many rows as fit (height less 9) and are left, each is the process with as many ahead of it as its place says, and the highlighted one is the selected |
| TableWindow.ScrollMovesLeast | src/ui/ui.c:266-273 | no window that has the selected row in it is nearer to the old one |
| TableWindow.WindowIsFull | src/ui/ui.c:263-273 | the window is full exactly if enough rows are left from the smaller of its old first row and the row that will be selected, both known before the redraw |
| TableWindow.WindowMayBeUnderFull | src/ui/ui.c:263-273 | for every n from four up, a run over n processes, keys down and up and a shrinking list, ends with two rows of room, n - 2 processes and one row shown |
| ProcessTable.SignalGoesToHighlighted | src/main.c:172-321 | over every sequence of keys and samples, when a key is read the selection is in range, in the list view it is the highlighted row, and if all PIDs were positive it is one a signal can be sent to |
| ProcessTable.SelectionSticks | src/ui/ui.c:242-253 | as long as no key moves it, the selection stays on its process through any number of samples that have it |
| ListView.ListUi.constructor | src/ui/ui.c:55-58 | the first state: list view, nothing displayed |
| ListView.ListUi.GetSelectedPid | src/ui/ui.c:702-707 | the displayed PID at the index, or -1 if the index is out of range |
| ListView.ListUi.Reserve | src/ui/ui.c:121-139 | the capacity, 512 at first, is doubled until it is enough and no more, and nothing that is displayed changes |
| ListView.ListUi.DrawProcessList | src/ui/ui.c:214-309 | the redraw's loops and updates have the effect that the table's theorems are about |
| ListView.ListUi.DrawFrame | src/ui/ui.c:625-658 | takes over the terminal's height and redraws the list in the list view only |
| ListView.ListUi.SelectNext | src/ui/ui.c:690-694 | moves down unless at the last row |
| ListView.ListUi.SelectPrevious | src/ui/ui.c:696-700 | moves up unless at the first row |
| ListView.ListUi.SelectPageUp | src/ui/ui.c:717-723 | moves up ten rows, at most to the first |
| ListView.ListUi.SelectPageDown | src/ui/ui.c:725-729 | moves down ten rows, at most to the last |
| ListView.ListUi.SetViewMode | src/ui/ui.c:681-684 | changes the view and scrolls to the top |
| ProcReader.StrictIffNoDuplicates | src/proc/proc_reader.c:190-222 | the list is in order and a permutation of what was accepted; it is strictly ascending exactly if no two accepted entries stand for one PID |
| ProcReader.DuplicatesStay | src/proc/proc_reader.c:200-222 | a listing with the names 7 and 07 gives a list that is not strictly ascending |
| ProcReader.AnySortWillDo | src/proc/proc_reader.c:222 | every sorted permutation of what was accepted is this list |
| ProcReader.PushedAreAccepted | src/proc/proc_reader.c:196-214 | a PID is pushed exactly if an accepted entry stands for it |
| ProcReader.ListedIff | src/proc/proc_reader.c:190-222 | a PID is listed exactly if it is the narrowed value, above zero before, of some directory with an all-digit name |
| ProcReader.PidOfName | src/proc/proc_reader.c:211-214 | it is the name's value exactly if that is below 2^31; beyond, the value modulo 2^32, and -1 from the largest long on |
| ProcReader.NameOfZero | src/proc/proc_reader.c:211-214 | a name of any multiple of 2^32 that a long can hold is accepted, and its PID is zero |
| ProcReader.SampleIsOrdered | src/process/process_monitor.c:270-312 | every listing gives a sample in order, and one without duplicates if it names no PID twice |
| ProcReader.ListedAreTheLive | src/proc/proc_reader.c:176-225 | if the directories with numeric names are those of the live processes, the list is the live PIDs, ascending, each once |
| ProcReader.SampleOfTheLive | src/process/process_monitor.c:270-312 | a sweep over such a directory gives a sorted sample of exactly the live processes that could be read |
| ProcReader.PidList.Push | src/proc/proc_reader.c:24-37 | appends, doubling a full array and keeping what it holds |
| ProcReader.PidList.ListPids | src/proc/proc_reader.c:176-225 | leaves the sorted list, or an empty one and false if the directory cannot be opened |
| ProcReader.IsNumeric | src/proc/proc_reader.c:200-205 | the scan says whether all characters are digits |
| Lines.ReadLine | src/utils/parser.c:7-26 | hands out the next line, cut to the buffer, and leaves exactly the other lines to be read; false exactly if none is left or the buffer has no room |
| Lines.ReadAll | src/utils/parser.c:7-26 | repeated reading comes to an end with every line of the text, each cut to the buffer, for every buffer |
| Lines.LinesAreLines | src/utils/parser.c:16-24 | the lines hold no newline and written out give back the text |
| Lines.LinesAreUnique | src/utils/parser.c:16-24 | no other sequence of lines does |
| Lines.FinalNewline | src/utils/parser.c:12-24 | a newline at the end of the text adds no line |
| Trim.TrimIsUnique | src/utils/parser.c:32-48 | there is one way to take a text apart into space, a part with no space at its ends, and space: trimming gives that part |
| Trim.TrimTakesOnlySpace | src/utils/parser.c:32-48 | trimming takes away nothing but space, leaves none at the ends, and does nothing the second time |
| Trim.TrimInPlace | src/utils/parser.c:32-48 | the buffer holds the trimmed string where the result points, and nothing outside the old string has changed |
| Trim.ParseKeyValue | src/utils/parser.c:50-60 | both trimmed halves are left in the buffer at the places returned, and nothing outside the line has changed; without a colon nothing has |
| Trim.KeyValueRoundTrip | src/utils/parser.c:50-60 | a key without colon and any value come back from a line with space put around them |
| Meminfo.MeminfoCell.Parse | src/utils/parser.c:97-133 | each of the seven fields is the number on the last line with its own key, or zero, whatever the structure held before |
| Meminfo.LastValueIs | src/utils/parser.c:101-132 | an absent key reads as zero, and of several lines with one key the last one counts |
| Meminfo.PublishedLine | src/utils/parser.c:114-115 | a line as the kernel writes it, if it fits the buffer, gives its key and its number |
| Meminfo.FileRoundTrip | src/utils/parser.c:97-133 | seven numbers, each on a line with its key, with any padding and unit, in any order and among any other lines, are read into the seven fields |
| Numbers.ReadPrinted | src/utils/parser.c:167-180 | a number printed in decimal is read back, whatever follows that is no digit |
| StatLine.BracketFinds | src/utils/parser.c:141-147 | the bracketing finds the name exactly if no `(` stands before it and no `)` after it, whatever the name holds |
| StatLine.ParenthesisAfterMisleads | src/utils/parser.c:141-145 | a line with a `)` after the name for which the bracketing does not find the name |
| StatLine.ThirteenIsAll | src/utils/parser.c:167-180 | the count of 13 is reached only when the whole format was matched |
| StatLine.ScanfReads | src/utils/parser.c:164-180 | a scan in the format fields were printed in gives their values back |
| StatLine.RoundTrip | src/utils/parser.c:135-181 | on a line in the order of proc(5), with any name, the parser answers true, gives back every field, and leaves the name cut to comm_size - 1 |
| StatLine.ShortLine | src/utils/parser.c:153-181 | of a line that ends early the fields that are there are read, the others are zero, and the answer is false |
| StatLine.RefusedIff | src/utils/parser.c:141-151 | a line is refused exactly if no `(` stands before a `)` in it, or there is no room for a name |
| StatLine.ParseProcStat | src/utils/parser.c:135-181 | stores the name cut to its buffer and the fields, says whether all 13 were read, and touches nothing if there are no parentheses or no buffer |

## Left out

- `last_scan_ms`: which sweep's time a frame shows; it is in the protocol only as the field that the lock does not protect.
- Allocation failure: every reservation succeeds, so the early returns for it are not modelled.
- 64-bit overflow and IEEE rounding in the accounting: counters are unbounded and figures are exact reals.
- ProcessMonitor.Monitor.PushEvent: does not model the time stamp and the description text of an event, nor the cut of the name to its field.
- Events.OfPidChanges: a PID recycled between two samples gives no event, in the code as in the model.
- TreeDraw.View.Print: does not model the name beside the PID nor its width.
- TreeOrder.EveryProcessOnce: needs a sample without PPID cycles and without a child of process 0; `TreeCycles.OnceIffNoCycles` says that it is false of all others.
- TreeShown.ShownIffEnds: needs a sample without repeated PIDs, in which no root has a parent; of other samples only that the walk is drawn, how often each process is shown at least (`TreeCycles.ScreenOwes`), and that an own parent fills the rows.
- TreeShape.TreeIsDrawn: needs a sample without repeated PIDs, since the chain of parents of a repeated PID is not one; what the indent is once the prefix is full is only that of the walk.
- StatLine.RoundTrip: numbers outside the range of their C type are excluded, since the C standard leaves their conversion undefined; the model of the conversion itself does with them what glibc does.
- BoundedBuffer.RunsComplete: the count of producer waits, the printed lines and the delays are not modelled.
- LockOrder.CircleGoesOn: the barrier's release of all threads is one step, and locks are not fair to anybody.
- CollectorProperties.NoTornFrame: a frame reads the system figures, events and rows as the list view does; one row stands for all its columns.
- CollectorFields.MainLoop.HandleKey: the keys that change the view or move the selection are one action here, and are modelled in `ProcessTable`.
- ListView.ListUi.DrawProcessList: the scratch array of row pointers is a local sequence, and qsort is one sorting function; `Sorting.SortIsUnique` says why that does not matter.
- The signal handler appears only as an action that clears the running flag; signal masks and inheritance are not modelled.
- The start of the collector, its failure paths, and the destruction of the monitors after the join.
- Columns of a process that are copied through: state, priority, memory, command line, executable, descriptors; and the start time, which adds CPU time to boot time.
- `km_parse_cpu_line`, `km_parse_status_uid`, `km_parse_proc_statm`, `km_parse_uptime`, `km_parse_loadavg`, `km_clock_diff_ms`: one scan or one expression each, with nothing kept from call to call.
- `src/system/system_monitor.c`: file reads and straight-line arithmetic.
- `src/signals/process_control.c`, ncurses drawing, the dialog, colours, formatting and name truncation.
- Parts 1, 2 and 6 of `demo/threadsync.c`, and the other demos.
