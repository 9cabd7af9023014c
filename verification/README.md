# CPU scheduling simulator: a Dafny model of `scheduler.c`

`scheduler.c` simulates three CPU schedulers over a small array of
processes. Each process has a pid, an arrival time and a burst time.

- **FCFS** (`fcfs_metrics`) insertion-sorts a private copy by (arrival
  time, pid). It then runs each process to completion in that order, and
  the clock jumps forward over idle gaps.
- **SJF** (`sjf_metrics`) is non-preemptive shortest job first. At every
  decision point it scans for the arrived, unfinished process with the
  smallest (burst, arrival, pid) and runs it to completion. When nothing
  has arrived, the clock ticks by one.
- **Round robin** (`rr_metrics`) keeps a FIFO ready queue of process
  indices in a circular buffer of `MAX_N` slots, plus a `seen` flag per
  process. Admission (`ENQ_NEW`) appends every unseen process that has
  arrived, in index order. Each dispatch pops the head and runs it for at
  most one quantum. It then admits new arrivals, and the preempted
  process goes back in behind them. A process whose remaining time
  reaches zero is completed instead.

Each scheduler writes start and completion times into its private copy,
prints a Gantt chart and returns three averages. The averages are total
turnaround, waiting and response time divided by `n`.

The model is purely functional. Each entry point is a method that
makes the private copy with the `clone` loop and hands it to the
scheduler proper:

- FCFS is a sort followed by one recursive pass over the sorted copy
  (`Fcfs.Run`);
- SJF and round robin are each a step function over an immutable state,
  one call per iteration of the source's `while` loop, and a main loop
  over it, proved to terminate.

The Gantt chart becomes a returned trace of segments `(pid, start, end)`.
The averages become the three sums they divide, kept as exact integers.

Modules:

- `Processes`: the process record, caller preconditions and the copy.
- `Traces`: Gantt segments.
- `Accounting`: the three sums, and counting flagged processes.
- `Fifo`: the circular buffer, both as written and corrected.
- `Fcfs`, `Sjf`, `RoundRobin`: the three schedulers.
- `Scenario`: the three-process example. It has P1 arriving at 0 with
  burst 5, P2 at 1 with burst 3, and P3 at 2 with burst 1.

The round-robin state carries two per-process flags that the source does
not have. `started` records that a process has been dispatched, and
`finished` that it has completed. It also records, for each segment of
the trace, the index of the process that ran in it (`owners`). No
transition reads these; they exist so that contracts can talk about each
process and each slice. The source recognises a
first dispatch by `remainingTime == burstTime`, after resetting a zero
to the burst (scheduler.c:132-133). Round robin therefore expects every
caller-supplied `remainingTime` to be either 0 or the full burst
(`RoundRobin.RrInput`).

For the example, `Scenario.FcfsScenario` proves the FCFS sums 19, 10
and 10 (turnaround, waiting, response), `Scenario.SjfScenario` the SJF
sums 17, 8 and 8, and `Scenario.RrScenario` the round-robin sums 19, 10
and 3 with a quantum of 2.

## Model

| member | source | states |
|---|---|---|
| Processes.Clone | scheduler.c:8-10 | the private copy has exactly `n` records, and record `i` is the caller's record `i` |
| Processes.Turnaround | scheduler.c:46 | completion time minus arrival time; the entry points prove the sums of it over the final records |
| Processes.Waiting | scheduler.c:155-156 | turnaround minus burst, as round robin computes it; FCFS and SJF compute `start - arrival`, which `Fcfs.RunFromZero` and `Sjf.SjfMetrics` prove equal since every process completes one burst after it starts |
| Processes.Response | scheduler.c:47-48 | start time minus arrival time; round robin adds it on first touch only (`RoundRobin.DispatchSums`) |
| Fcfs.Insert | scheduler.c:22-30 | one pass of the insertion sort: inserting a key into a sorted prefix gives a sorted sequence one longer, which is a permutation of the prefix plus the key |
| Fcfs.SortByArrival | scheduler.c:20-31 | the sorted copy is ordered by (arrival time, pid) and is a permutation of the input |
| Fcfs.Run | scheduler.c:33-51 | each process keeps its job fields. The first starts at the later of the clock and its arrival; every later one starts at the later of its predecessor's completion and its own arrival. Each completes one burst after starting and emits exactly one segment, and the sums are those of the final records |
| Fcfs.RunStartsLate | scheduler.c:38-40 | no process starts before it arrives |
| Fcfs.RunChronological | scheduler.c:37-44 | FCFS segments never overlap and appear in time order |
| Fcfs.RunFromZero | scheduler.c:33-48 | from clock zero, the first process starts exactly at its arrival; waiting equals response and is non-negative for every process; the trace is in time order |
| Fcfs.SortedKept | scheduler.c:24-26 | filling in start and completion times keeps the sorted order, because the order looks only at arrival and pid |
| Fcfs.RunSorted | scheduler.c:33-51 | the run over a sorted copy, restated over the returned records: still sorted, with no needless idling, non-negative waiting equal to response, one segment per process, in time order |
| Fcfs.FcfsMetrics | scheduler.c:15-55 | the result is the sorted permutation of the caller's first `n` records with start and completion filled in. Start times are max(previous completion, arrival), each process runs one full burst in one segment, segments are chronological, and the sums are those of the final times |
| Sjf.Precedes | scheduler.c:74-78 | the selection rule's comparison: shorter burst, then earlier arrival, then smaller pid |
| Sjf.PrecedesOrder | scheduler.c:74-78 | the comparison is a strict total order on (burst, arrival, pid): never both ways, one way between any two different keys, and transitive |
| Sjf.SelectFrom | scheduler.c:72-80 | the scan's partial result: -1 exactly when nothing eligible remains from the start, otherwise the index the selection rule picks |
| Sjf.Select | scheduler.c:69-80 | answers -1 exactly when no unfinished process has arrived. Otherwise it names an eligible process that strictly beats every eligible process before it and is not beaten by any after it in (burst, arrival, pid) |
| Sjf.ChoiceUnique | scheduler.c:74-78 | at most one index meets the selection rule, so the scan's answer is the only correct one |
| Sjf.Step | scheduler.c:68-96 | an iteration either advances the clock by exactly one and changes nothing else (only when nothing is eligible), or dispatches the process the rule picks. That process starts now, completes one burst later, is flagged done and emits one segment |
| Sjf.TickKeepsInv | scheduler.c:82 | advancing the clock alone keeps the loop invariant |
| Sjf.IdleProgress | scheduler.c:82 | when nothing is eligible but something is unfinished, the clock is short of the last arrival, so an idle tick makes progress |
| Sjf.IdleKeepsInv | scheduler.c:82 | an idle iteration keeps the invariant, finishes nothing and brings the clock one step closer to the last arrival |
| Sjf.DispatchedProcs | scheduler.c:84-88 | after a dispatch, every record keeps its job fields, undispatched records are untouched, and every done process ran from a start no earlier than its arrival for exactly its burst |
| Sjf.DispatchedSums | scheduler.c:92-96 | after a dispatch the sums equal turnaround, waiting and response summed over the done processes |
| Sjf.DispatchedTrace | scheduler.c:84-90 | after a dispatch the trace holds exactly the done processes' segments, in time order, each non-empty, the last ending no later than the clock |
| Sjf.DoneBy | scheduler.c:84-86 | every finished process started before the clock and completed by it |
| Sjf.DispatchedOrder | scheduler.c:72-88 | dispatching the rule's choice keeps the selection rule in the records: no process that had arrived when a finished process started, and was still waiting then, is preferred to it |
| Sjf.FreedKept | scheduler.c:84-87 | a dispatch keeps every earlier completion on record |
| Sjf.DispatchedBusy | scheduler.c:82-88 | a dispatch keeps the processor busy: the dispatched process completes at the new clock, and a start that keeps an arrived process waiting falls at some completion, never after an idle tick |
| Sjf.DispatchedInv | scheduler.c:72-96 | dispatching the rule's choice, with the sums kept, keeps the invariant |
| Sjf.DispatchKeepsInv | scheduler.c:84-96 | a dispatching iteration keeps the invariant and finishes exactly one more process |
| Sjf.StepKeepsInv | scheduler.c:68-97 | every iteration keeps the invariant and either finishes one more process or brings the clock closer to the last arrival |
| Sjf.Loop | scheduler.c:68-97 | the main loop terminates with every process done and the invariant intact |
| Sjf.Init | scheduler.c:60-65 | the initial state (nothing done, clock 0, empty sums) satisfies the invariant |
| Sjf.Finished | scheduler.c:68 | once every process is done: each ran exactly once no earlier than its arrival; the trace is the multiset of all segments, in time order; the sums are those of the final records; no process preferred to another waited past its start, and the processor never idled while a process waited |
| Sjf.FinalRecords | scheduler.c:84-96 | with every process done, each record ran once for its burst from a start no earlier than its arrival, the trace holds exactly the records' segments and the sums are those of the records |
| Sjf.FinalSchedule | scheduler.c:72-88 | with every process done, a process that had arrived when another started, and started later itself, is not preferred to it; and a start that keeps an arrived, unfinished process waiting falls at some process's completion |
| Sjf.Simulate | scheduler.c:58-101 | the whole SJF simulation ends in a state with the final facts above |
| Sjf.Report | scheduler.c:58-101 | the simulation's records, trace and sums, with everything the entry point promises about them, stated over its input |
| Sjf.SjfMetrics | scheduler.c:58-101 | the result keeps the caller's job fields. Each process starts no earlier than its arrival and completes one burst later, with waiting equal to response and non-negative. The trace holds one segment per process, in time order, and the sums are those of the final times. No process that had arrived when another started, and started later itself, is preferred to it by (burst, arrival, pid); and a start that keeps an arrived process waiting falls at some process's completion |
| Fifo.Push | scheduler.c:116 | the entry is stored at the old `tail`, `tail` advances by one modulo `MAX_N`, both indices stay in the buffer, the front stays where it is and no other slot changes |
| Fifo.Pop | scheduler.c:130 | taking the slot at `head` and advancing it modulo `MAX_N` returns the entry at the front, keeps both indices in the buffer and leaves the back and the slots alone |
| Fifo.LooksEmpty | scheduler.c:128 | the idle branch's emptiness test `head == tail`; `Fifo.LooksEmptySound` and `Fifo.FullRingLooksEmpty` say when it is right and when it is wrong |
| Fifo.PushRepresents | scheduler.c:145 | storing at `tail` and advancing it modulo `MAX_N` appends to the queue the ring represents, while fewer than `MAX_N` entries are held |
| Fifo.PushAllRepresents | scheduler.c:113-117 | an admission's pushes append the admitted indices in order, however far the indices wrap, while the total stays within `MAX_N` |
| Fifo.PopRepresents | scheduler.c:130 | taking the slot at `head` and advancing it yields the queue's front and a ring representing the rest |
| Fifo.LooksEmptySound | scheduler.c:128 | with fewer than `MAX_N` entries queued, `head == tail` holds exactly when the queue is empty |
| Fifo.FullRingLooksEmpty | scheduler.c:110-117 | pushing `MAX_N` entries into an empty ring gives a ring that holds all of them and yet has `head == tail` |
| Fifo.CountedRingRefines | scheduler.c:110-130 | the ring with an entry count implements the queue for every length up to `MAX_N`: empty exactly when the queue is, a push appends, a pop takes the front |
| RoundRobin.Arrivals | scheduler.c:113-117 | the indices one admission scan appends: exactly the unseen processes that have arrived, in increasing index order |
| RoundRobin.Admit | scheduler.c:113-117 | admission appends those indices after the existing queue and marks every arrived process seen; nothing else changes |
| RoundRobin.DispatchRequeues | scheduler.c:142-145 | in any state, the queue after a dispatch is admission's queue at the slice's end, followed by the dispatched process exactly when it has time left |
| RoundRobin.AdmitAppends | scheduler.c:113-117 | the queue after admission is the old queue followed by the scan's arrivals |
| RoundRobin.InitialQueue | scheduler.c:122 | the start-up admission into an empty queue queues exactly the scan's arrivals |
| RoundRobin.FullArrivals | scheduler.c:113-117 | when every process is unseen and has arrived, the scan admits all of them |
| RoundRobin.FullAdmission | scheduler.c:110-122 | with `MAX_N` processes all arriving at 0, start-up admission queues all `MAX_N`, and the pushes into the source's ring leave `head == tail` |
| RoundRobin.Slice | scheduler.c:138 | the slice length is the minimum of the remaining time and the quantum: at most each, and equal to one of them |
| RoundRobin.Loaded | scheduler.c:132 | a record with time left is dispatched unchanged; one with remaining time zero gets its full burst and nothing else changes; so a record with non-negative remaining time and positive burst has positive remaining time once loaded |
| RoundRobin.Idle | scheduler.c:128 | the idle branch advances the clock by exactly one, starts the next slice there, keeps the queue's old entries in front, and changes nothing but the queue, the `seen` flags, the clock and the slice start |
| RoundRobin.Dispatch | scheduler.c:130-158 | a dispatch advances the clock by the slice length `min(remaining, q)` of the loaded head, changes no record but the head's, appends one segment for the head's pid owned by the head, and keeps the rest of the queue in front |
| RoundRobin.Step | scheduler.c:126-158 | with an empty queue an iteration ticks the clock by one and leaves the trace and records alone; otherwise it appends exactly one segment, for the head's pid |
| RoundRobin.QueueFits | scheduler.c:110 | the ready queue never holds more entries than there are processes |
| RoundRobin.SomeoneLate | scheduler.c:126-128 | with the queue empty and some process unfinished, some process has not arrived yet |
| RoundRobin.IdleInv | scheduler.c:128 | an idle tick advances the clock by exactly one, leaves exactly the processes arrived by the new time seen, and keeps the invariant |
| RoundRobin.IdleAdvance | scheduler.c:128 | an idle tick leaves the records and `started` flags alone and either admits somebody or brings the clock one step closer to the last arrival |
| RoundRobin.SeenGrows | scheduler.c:113-117 | admission only ever raises `seen` flags, so either no flag changes or fewer processes remain unseen |
| RoundRobin.IdleProcs | scheduler.c:128 | an idle tick keeps the per-process facts and the queue discipline, and leaves seen exactly the processes arrived by the new time |
| RoundRobin.IdleTrace | scheduler.c:128 | an idle tick keeps the trace, ownership, time, fairness and busy-processor facts |
| RoundRobin.TraceKept | scheduler.c:128 | those facts survive any step that adds no slice, changes no record and ticks the clock by one while everybody who has arrived has completed |
| RoundRobin.IdleTurns | scheduler.c:128 | fairness survives a tick that adds no slice and changes no record or completion |
| RoundRobin.IdleBusy | scheduler.c:128 | the busy-processor facts survive an idle tick, since the empty queue means whoever has arrived has completed |
| RoundRobin.IdleProgress | scheduler.c:128 | the same progress, from the loop invariant |
| RoundRobin.IdleKeepsInv | scheduler.c:128 | an idle iteration keeps the invariant and leaves the remaining work unchanged; it either admits somebody or brings the clock one step closer to the last arrival |
| RoundRobin.HeadFacts | scheduler.c:130-133 | the popped head is an admitted, unfinished process that occurs nowhere else in the queue. After the zero-reset its remaining time is positive and at most its burst, and the first-touch test holds exactly when it has never been dispatched |
| RoundRobin.RecordOf | scheduler.c:132-149 | for an unfinished head whose reload rule reads its dispatched flag right, the dispatch does to its record what `DispatchRecord` describes |
| RoundRobin.DispatchRecord | scheduler.c:132-140 | the dispatched record keeps its job fields and runs for exactly `min(remaining, q)` ticks, so at least one tick. Its start time is set only on first touch and its completion time only when nothing remains; no other record changes |
| RoundRobin.DispatchSeen | scheduler.c:142 | after a slice, exactly the processes that have arrived by its end are marked seen |
| RoundRobin.DispatchDescribed | scheduler.c:130-158 | a dispatch does what the record and admission facts above say |
| RoundRobin.ProcsAfter | scheduler.c:130-158 | per-process facts survive any step that behaves like a dispatch |
| RoundRobin.DispatchProcs | scheduler.c:130-158 | per-process facts (job fields, start no earlier than arrival, remaining time consistent with what ran, completion recorded) survive a dispatch |
| RoundRobin.DispatchAdmits | scheduler.c:142-145 | the queue after a dispatch is the popped queue after admission at the slice's end, followed by the head again unless it completed |
| RoundRobin.DispatchQueueShape | scheduler.c:130-145 | the queue after a dispatch is the rest of the old queue, then the newly admitted processes in index order, then the preempted process. New arrivals go in before the preempted process |
| RoundRobin.RequeueDistinct | scheduler.c:142-145 | appending never-seen indices and then the already seen head keeps the queue free of duplicates |
| RoundRobin.RequeueLive | scheduler.c:142-145 | every entry of the requeued queue is admitted and unfinished |
| RoundRobin.RequeueComplete | scheduler.c:142-145 | every admitted, unfinished process is in the requeued queue |
| RoundRobin.RequeueKeepsQueue | scheduler.c:130-145 | pop, admit, requeue keeps the queue discipline: each admitted unfinished process exactly once, nothing else |
| RoundRobin.DispatchQueue | scheduler.c:130-145 | the queue discipline survives a dispatch |
| RoundRobin.DispatchSums | scheduler.c:133-136 | a dispatch adds the response time on first touch only, and the turnaround and waiting time on completion only |
| RoundRobin.TotalsAfter | scheduler.c:135-157 | the sums stay equal to response over dispatched processes plus turnaround and waiting over completed ones |
| RoundRobin.DispatchTotals | scheduler.c:133-157 | the running sums stay those of the dispatched and completed records across a dispatch |
| RoundRobin.DispatchSegment | scheduler.c:146-153 | a dispatch appends one segment for the dispatched pid, from the slice's start to the clock after it, owned by the dispatched process |
| RoundRobin.OwnersAfter | scheduler.c:138-153 | across any step that does to the head's record what a dispatch does and appends the head's slice, each slice stays owned by a process with its pid, a slice shorter than the quantum belongs to a completed process and ends at its completion, and a slice followed by another of the same process lasts exactly the quantum |
| RoundRobin.DispatchOwners | scheduler.c:138-153 | the slice-ownership facts survive a dispatch |
| RoundRobin.TimesAfter | scheduler.c:133-153 | across any step that behaves like a dispatch, every slice still ends by the clock and lies within its dispatched owner's start time and, once completed, its completion time; each dispatched process has a slice starting at its start time and each completed one a slice ending at its completion time |
| RoundRobin.SlicesAfter | scheduler.c:138-153 | every slice ends by the clock, its owner is dispatched, it starts no earlier than the owner's start time and, if the owner has completed, ends no later than its completion time |
| RoundRobin.StartsAfter | scheduler.c:133-134 | on first touch the new slice starts at the start time just recorded; otherwise an earlier slice still does |
| RoundRobin.EndsAfter | scheduler.c:148-149 | on completion the new slice ends at the completion time just recorded; otherwise an earlier slice still does |
| RoundRobin.DispatchTimes | scheduler.c:130-158 | the ties between recorded times and slices survive a dispatch |
| RoundRobin.SliceCredit | scheduler.c:138-146 | crediting a slice to the process that ran keeps each pid's trace time equal to the CPU time its processes have received |
| RoundRobin.TraceAfter | scheduler.c:138-153 | trace facts survive any step that behaves like a dispatch: chronological, each slice between one tick and one quantum, per-pid time conserved |
| RoundRobin.DispatchTrace | scheduler.c:138-153 | the trace facts survive a dispatch |
| RoundRobin.DispatchCount | scheduler.c:140-150 | the clock advances, the next slice begins at the new clock, and `done` counts the completed processes |
| RoundRobin.DispatchWork | scheduler.c:138-140 | a dispatch strictly lowers the total remaining work |
| RoundRobin.WaitingQueued | scheduler.c:126-158 | while the loop runs, every process that has arrived and not completed is in the queue, and every completed one completed by the clock |
| RoundRobin.DispatchWaiting | scheduler.c:130-145 | after a dispatch every other process that has arrived by the new clock and not completed is in the queue |
| RoundRobin.WaitingAfter | scheduler.c:142-145 | the same, for any step that pops the head, appends the slice's arrivals and requeues the head unless it completed |
| RoundRobin.PendingKept | scheduler.c:130-158 | a process waiting after a dispatch at a time up to the old clock was already waiting then before it: arrivals never change, and the only new completion is at the new clock |
| RoundRobin.HeadNotBehind | scheduler.c:130 | in a queue without duplicates nothing stands ahead of the head |
| RoundRobin.PairsAfter | scheduler.c:130-147 | across a dispatch, between two slices of the same process every other process waiting at the end of the first gets a slice |
| RoundRobin.LastAfter | scheduler.c:142-147 | across a dispatch, after the last slice of an unfinished process every process waiting at its end has had a slice since or stands ahead of it in the queue; a preempted process goes in behind everybody waiting |
| RoundRobin.BusyAfter | scheduler.c:128-147 | across a dispatch the processor stays busy: a slice that does not follow on from the previous one starts only once everybody who arrived before it has completed, and the clock stands at the end of the last slice |
| RoundRobin.DispatchPairs | scheduler.c:130-147 | the first fairness clause survives a dispatch |
| RoundRobin.DispatchLast | scheduler.c:130-147 | the second fairness clause survives a dispatch |
| RoundRobin.DispatchBusy | scheduler.c:128-147 | the busy-processor facts survive a dispatch |
| RoundRobin.DispatchTurns | scheduler.c:128-158 | fairness and the busy processor survive a dispatch |
| RoundRobin.DispatchKeepsInv | scheduler.c:130-158 | a dispatch keeps the invariant and strictly lowers the remaining work |
| RoundRobin.StepKeepsInv | scheduler.c:126-159 | every iteration keeps the invariant and lowers the work, the unseen count or the gap to the last arrival |
| RoundRobin.Loop | scheduler.c:126-159 | the main loop terminates with every process done and the invariant intact |
| RoundRobin.StartProcs | scheduler.c:119-122 | after start-up admission, exactly the processes arriving at 0 are seen, and none is started |
| RoundRobin.StartQueue | scheduler.c:122 | after start-up admission the queue holds each admitted process once |
| RoundRobin.StartTrace | scheduler.c:122-124 | the empty trace gives every pid zero time, matching zero CPU time received |
| RoundRobin.StartTotals | scheduler.c:119-120 | at start-up the completion count and sums are zero over no flagged process |
| RoundRobin.StartKeepsInv | scheduler.c:119-124 | start-up establishes the loop invariant |
| RoundRobin.ExecComplete | scheduler.c:138-139 | once every process has run out its remaining time, each pid has received exactly the total burst of its processes |
| RoundRobin.FinishedProcs | scheduler.c:148-157 | at loop exit every process has completed: remaining time 0, started no earlier than its arrival, completed at least one burst after starting. Slices last between one tick and one quantum, in time order, each pid gets exactly its burst, only a process's last slice is shorter than the quantum and it ends at the completion, each start time is the start of one of the process's slices and each completion time the end of one, with every slice of a process between the two, and the sums are those of the final records. Between two slices of a process every other waiting process gets a slice, and no slice starts after a gap while a process waits |
| RoundRobin.FinalTurns | scheduler.c:126-158 | once every process has completed, between two slices of one process every other process that had arrived and not completed by the end of the first gets a slice, and the processor never idles while a process waits |
| RoundRobin.FinalTimes | scheduler.c:133-153 | once every process has started and completed, each start time is where one of the process's slices starts and each completion time where one ends, with every slice of a process between the two |
| RoundRobin.Finished | scheduler.c:126 | the same final facts, packaged for the entry point |
| RoundRobin.Simulate | scheduler.c:104-159 | the whole round-robin simulation ends in a state with the final facts above |
| RoundRobin.Reported | scheduler.c:126-163 | the final facts, read as the reported outcome: non-negative response and waiting times, and the final owners witness an assignment of slices with full quanta, the recorded times and turn-taking |
| RoundRobin.Report | scheduler.c:104-163 | the simulation's records, trace and sums, with everything the entry point promises about them, stated over its input |
| RoundRobin.RrMetrics | scheduler.c:104-163 | every process completes with non-negative response and waiting times. Each slice lasts between one tick and one quantum, slices follow one another in time, and each pid receives exactly its total burst. The slices can be assigned to processes of their pid so that every slice of a process except its last lasts exactly the quantum, and a shorter slice ends at its process's completion. Under the same assignment each process's start time is where its first slice starts and its completion time where its last slice ends, so the response and turnaround sums are those of the simulated run. Under the same assignment, between two slices of a process every other process that had arrived and not completed by the end of the first gets a slice, so a process runs twice in a row only when nobody else is waiting. The processor never idles while a process waits. The sums are those of the final times |
| Scenario.FcfsSortScenario | scheduler.c:20-31 | the example is already in (arrival, pid) order, so sorting leaves it as it is |
| Scenario.FcfsRunScenario | scheduler.c:37-43 | the example's FCFS run: P1 0-5, P2 5-8, P3 8-9 |
| Scenario.FcfsScenario | scheduler.c:15-55 | the example's FCFS trace is P1 0-5, P2 5-8, P3 8-9, with sums 19, 10 and 10 |
| Scenario.SjfDispatches | scheduler.c:69-96 | once the rule names a process, the iteration dispatches exactly that one |
| Scenario.SjfFirst | scheduler.c:69-96 | at time 0 only P1 has arrived, and it runs 0-5 |
| Scenario.SjfSecond | scheduler.c:69-96 | at time 5 P3 (burst 1) beats P2 (burst 3) and runs 5-6 |
| Scenario.SjfThird | scheduler.c:69-96 | at time 6 only P2 remains, and it runs 6-9 |
| Scenario.SjfUnfold | scheduler.c:68 | the loop runs one more iteration while a process is unfinished |
| Scenario.SjfRunScenario | scheduler.c:68-97 | the example's SJF run gives P1 0-5, P3 5-6, P2 6-9 |
| Scenario.SjfSums | scheduler.c:92-96 | the example's SJF records give sums 17, 8 and 8 |
| Scenario.SjfScenario | scheduler.c:58-101 | the example's SJF trace is P1 0-5, P3 5-6, P2 6-9, with sums 17, 8 and 8 |
| Scenario.ArrivalsStart | scheduler.c:113-122 | at time 0 only P1 is admitted |
| Scenario.RrStart | scheduler.c:122 | start-up admission queues P1 alone |
| Scenario.ArrivalsLate | scheduler.c:142 | after P1's first slice, P2 and P3 are admitted in index order |
| Scenario.AdmitLate | scheduler.c:142 | that admission queues P2 then P3 and marks everyone seen |
| Scenario.AdmitFirst | scheduler.c:130-142 | the same admission, on the popped state as the dispatch builds it |
| Scenario.ArrivalsNone | scheduler.c:113-117 | with every process seen, a scan admits nobody |
| Scenario.AdmitNone | scheduler.c:113-117 | with every process seen, admission changes nothing |
| Scenario.RrStep1 | scheduler.c:130-147 | P1 runs 0-2; P2 and P3 are queued ahead of the preempted P1 |
| Scenario.Step1Records | scheduler.c:130-140 | the first slice sets P1's start time to 0 and leaves it 3 ticks |
| Scenario.Step1Queue | scheduler.c:142-145 | after the first slice the queue is P2, P3, P1 and every process is seen |
| Scenario.Step1Output | scheduler.c:146-147 | the first slice emits P1 0-2, owned by P1, and adds nothing to the sums |
| Scenario.RrStep2 | scheduler.c:130-147 | P2 runs 2-4 and is preempted |
| Scenario.Step2Records | scheduler.c:132-150 | slice 2 sets P2's record and flags as the next named state has them |
| Scenario.Step2Totals | scheduler.c:133-157 | slice 2 leaves the sums as the next named state has them |
| Scenario.Step2Output | scheduler.c:142-153 | slice 2 leaves the queue, clock and `seen` flags as the next named state has them and emits P2 2-4 |
| Scenario.RrStep3 | scheduler.c:130-157 | P3 runs 4-5 and completes |
| Scenario.Step3Records | scheduler.c:132-150 | slice 3 sets P3's record and flags as the next named state has them |
| Scenario.Step3Totals | scheduler.c:133-157 | slice 3 leaves the sums as the next named state has them |
| Scenario.Step3Output | scheduler.c:142-153 | slice 3 leaves the queue, clock and `seen` flags as the next named state has them and emits P3 4-5 |
| Scenario.RrStep4 | scheduler.c:130-147 | P1 runs 5-7 and is preempted |
| Scenario.Step4Records | scheduler.c:132-150 | slice 4 sets P1's record and flags as the next named state has them |
| Scenario.Step4Totals | scheduler.c:133-157 | slice 4 leaves the sums as the next named state has them |
| Scenario.Step4Output | scheduler.c:142-153 | slice 4 leaves the queue, clock and `seen` flags as the next named state has them and emits P1 5-7 |
| Scenario.RrStep5 | scheduler.c:130-157 | P2 runs 7-8 and completes |
| Scenario.Step5Records | scheduler.c:132-150 | slice 5 sets P2's record and flags as the next named state has them |
| Scenario.Step5Totals | scheduler.c:133-157 | slice 5 leaves the sums as the next named state has them |
| Scenario.Step5Output | scheduler.c:142-153 | slice 5 leaves the queue, clock and `seen` flags as the next named state has them and emits P2 7-8 |
| Scenario.RrStep6 | scheduler.c:130-157 | P1 runs 8-9 and completes |
| Scenario.Step6Records | scheduler.c:132-150 | slice 6 sets P1's record and flags as the next named state has them |
| Scenario.Step6Totals | scheduler.c:133-157 | slice 6 leaves the sums as the next named state has them |
| Scenario.Step6Output | scheduler.c:142-153 | slice 6 leaves the queue, clock and `seen` flags as the next named state has them and emits P1 8-9 |
| Scenario.RrUnfold | scheduler.c:126 | the loop runs one more iteration while a process is unfinished, from one named state to the next |
| Scenario.RrEarly | scheduler.c:126-158 | the first three slices lead from the state after start-up to P3's completion, keeping the invariant |
| Scenario.RrLate | scheduler.c:126-159 | the last three slices lead from P3's completion to the final state, where the loop stops |
| Scenario.RrScenario | scheduler.c:104-163 | with quantum 2 the example's trace is P1 0-2, P2 2-4, P3 4-5, P1 5-7, P2 7-8, P1 8-9, with sums 19, 10 and 3 |

## Left out

- Printing: the Gantt output (`puts`, `printf`) becomes the returned trace; formatting is not modelled.
- Floating point: the averages (`sum / n` in `float`) are not modelled, and neither are the `float` running sums (scheduler.c:34, 65, 120). The model keeps the sums as exact integers; the source's `float` sums equal them only while every partial sum stays below 2^24.
- scheduler.h and any driver or `main` are not part of this model. The `Process` and `Metrics` layouts are taken from their use in scheduler.c.
- `INF` (scheduler.c:5) is defined but never used by the code, so it has no counterpart.
- Integer width: `int` arithmetic on times is unbounded here. The source's 32-bit overflow on huge arrival or burst times is not modelled.
- Sorting stability: `Fcfs.SortByArrival` is proved sorted and a permutation. Records with equal arrival and pid keep their relative order in the source, but the model does not prove this stability.
- The fixed arrays `p[MAX_N]`, `done[MAX_N]` and `seen[MAX_N]` become sequences of length `n`. Entry points require `0 < n <= MAX_N`, which the source assumes unchecked.
- RoundRobin.RrMetrics: requires each `remainingTime` to be 0 or the full burst. For any other value the source records a start time and a response time late or never: with `remainingTime` 7, burst 5 and quantum 2, the first slice leaves 5, so the second dispatch takes itself for the first touch and records a start time of 2. The model leaves that case out.
- RoundRobin.RrMetrics: with `n == MAX_N` the model is the corrected program, not the source. Its ready queue is a sequence, which never mistakes a full queue for an empty one. The source's ring does (see Findings), and its loop may then never terminate.
- RoundRobin.RrMetrics: the exact order of the slices is pinned down per dispatch (`RoundRobin.DispatchQueueShape`: rest of the queue, then new arrivals in index order, then the preempted process). End to end the contract states only its consequences, turn-taking (`RoundRobin.TakesTurns`) and a processor that never idles while a process waits (`RoundRobin.NeverIdle`), not the whole slice sequence as a function of the input.
- The ready queue: the scheduler is modelled over the queue as a sequence. The ring buffer is related to it separately in `Fifo`, since the corrected ring behaves exactly like the sequence for every `n <= MAX_N`.

## Findings

| source | as written | input that shows it | evidently intended | confidence | as-written member | corrected member |
|---|---|---|---|---|---|---|
| scheduler.c:110-130 | the ready queue is a 64-slot ring whose emptiness test is `head == tail`; with 64 entries queued, `tail` wraps back onto `head` | `n = 64` processes all arriving at time 0: start-up admission queues all 64 and leaves `head == tail`; the idle branch takes the full queue for empty, and since every process is already seen no admission ever refills it, so the clock ticks on while every process waits | keep an entry count (or one spare slot) so a full queue is told apart from an empty one | not executed | Fifo.FullRingLooksEmpty, RoundRobin.FullAdmission | Fifo.CountedRingRefines |
