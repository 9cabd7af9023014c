/** Round robin with a fixed quantum: a FIFO ready queue of process
    indices, a `seen` flag per process recording admission, and a state
    machine that dispatches the head of the queue for at most one quantum,
    admits new arrivals, and then either re-queues the preempted process
    behind them or records its completion. */
module RoundRobin {
  import opened Processes
  import opened Accounting
  import opened Traces
  import opened Fifo

  /** The simulation state. `procs`, `queue`, `seen`, `cur`, `sliceBeg`
      and `done` are the source's variables (the queue as the sequence of
      indices between `head` and `tail`); `started` and `finished` record,
      per process, whether it has been dispatched and whether it has
      completed, and `owners` records, per segment of the trace, the index
      of the process that ran in it. No transition reads these three: they
      are there so that the contracts can speak about each process. */
  datatype State = State(
    procs: seq<Process>,
    queue: seq<int>,
    seen: seq<bool>,
    started: seq<bool>,
    finished: seq<bool>,
    cur: int,
    sliceBeg: int,
    done: int,
    trace: seq<Segment>,
    owners: seq<int>,
    totals: Totals)

  predicate Shaped(st: State)
  {
    && |st.procs| == |st.seen| == |st.started| == |st.finished|
    && InRange(st.queue, |st.procs|)
  }

  /** The indices the admission scan appends, scanning from index `i`:
      every process not yet seen whose arrival time has come, in index
      order. */
  function Arrivals(st: State, i: int): (a: seq<int>)
    requires Shaped(st) && 0 <= i <= |st.procs|
    ensures forall k :: 0 <= k < |a| ==>
      i <= a[k] < |st.procs| && !st.seen[a[k]] && st.procs[a[k]].arrivalTime <= st.cur
    ensures forall j :: i <= j < |st.procs| && !st.seen[j] && st.procs[j].arrivalTime <= st.cur ==> j in a
    ensures forall k, l :: 0 <= k < l < |a| ==> a[k] < a[l]
    decreases |st.procs| - i
  {
    if i == |st.procs| then []
    else if !st.seen[i] && st.procs[i].arrivalTime <= st.cur then [i] + Arrivals(st, i + 1)
    else Arrivals(st, i + 1)
  }

  /** The admission routine run at start-up, after each idle tick and
      after each slice: the arrivals are appended to the queue in index
      order and marked seen. Each index is tested against its own flag
      only, so appending the scan's result at once is the same as
      appending during the scan. */
  function Admit(st: State): (r: State)
    requires Shaped(st)
    ensures r == st.(queue := r.queue, seen := r.seen)
    ensures Shaped(r)
    ensures forall j :: 0 <= j < |st.seen| ==>
      r.seen[j] == (st.seen[j] || st.procs[j].arrivalTime <= st.cur)
    ensures |r.queue| >= |st.queue| && r.queue[..|st.queue|] == st.queue
    ensures forall k :: |st.queue| <= k < |r.queue| ==>
      !st.seen[r.queue[k]] && st.procs[r.queue[k]].arrivalTime <= st.cur
    ensures forall j :: 0 <= j < |st.seen| && !st.seen[j] && st.procs[j].arrivalTime <= st.cur ==>
      j in r.queue[|st.queue|..]
    ensures forall k, l :: |st.queue| <= k < l < |r.queue| ==> r.queue[k] < r.queue[l]
  {
    var a := Arrivals(st, 0);
    var seen := seq(|st.seen|, j requires 0 <= j < |st.seen| => st.seen[j] || st.procs[j].arrivalTime <= st.cur);
    var r := st.(queue := st.queue + a, seen := seen);
    assert r.queue[|st.queue|..] == a;
    r
  }

  /** Length of a dispatch: the remaining time, capped at the quantum. */
  function Slice(remaining: int, q: int): (run: int)
    ensures run <= remaining && run <= q
    ensures run == remaining || run == q
  {
    if remaining < q then remaining else q
  }

  /** The record as it stands when dispatched: a remaining time of zero
      means "never run" and is reset to the full burst. */
  function Loaded(p: Process): (r: Process)
    ensures r == p.(remainingTime := r.remainingTime)
    ensures p.remainingTime != 0 ==> r == p
    ensures p.remainingTime == 0 ==> r.remainingTime == p.burstTime
    ensures p.remainingTime >= 0 && p.burstTime > 0 ==> r.remainingTime > 0
  {
    if p.remainingTime == 0 then p.(remainingTime := p.burstTime) else p
  }

  /** The idle branch: with nothing queued the clock ticks by one, the
      next slice is taken to begin there, and arrivals are admitted. */
  function Idle(st: State): (r: State)
    requires Shaped(st)
    ensures Shaped(r)
    ensures r.cur == st.cur + 1 && r.sliceBeg == r.cur
    ensures r == st.(queue := r.queue, seen := r.seen, cur := r.cur, sliceBeg := r.sliceBeg)
    ensures |r.queue| >= |st.queue| && r.queue[..|st.queue|] == st.queue
  {
    Admit(st.(cur := st.cur + 1, sliceBeg := st.cur + 1))
  }

  /** The dispatch branch: the head of the queue is popped; on its first
      touch its start time is recorded and its response time added; it
      runs for one slice; new arrivals are admitted; then it is either
      appended behind them or, when nothing remains, completed and its
      turnaround and waiting times added. */
  function Dispatch(st: State, q: int): (r: State)
    requires Shaped(st) && |st.queue| > 0
    ensures Shaped(r) && |r.procs| == |st.procs|
    ensures r.cur == st.cur + Slice(Loaded(st.procs[st.queue[0]]).remainingTime, q) && r.sliceBeg == r.cur
    ensures forall j :: 0 <= j < |st.procs| && j != st.queue[0] ==> r.procs[j] == st.procs[j]
    ensures r.trace == st.trace + [Segment(st.procs[st.queue[0]].pid, st.sliceBeg, r.cur)]
    ensures r.owners == st.owners + [st.queue[0]]
    ensures |r.queue| >= |st.queue| - 1 && r.queue[..|st.queue| - 1] == st.queue[1..]
  {
    var idx := st.queue[0];
    var p := Loaded(st.procs[idx]);
    var first := p.remainingTime == p.burstTime;
    var p' := if first then p.(startTime := st.cur) else p;
    var rt := if first then st.cur - p.arrivalTime else 0;
    var run := Slice(p'.remainingTime, q);
    var ran := p'.(remainingTime := p'.remainingTime - run);
    var cur := st.cur + run;
    var seg := Segment(ran.pid, st.sliceBeg, cur);
    var admitted := Admit(st.(queue := st.queue[1..], cur := cur));
    assert Shaped(admitted) && admitted.queue[..|st.queue| - 1] == st.queue[1..];
    assert admitted.procs == st.procs && admitted.started == st.started && admitted.finished == st.finished;
    assert InRange(admitted.queue, |st.procs|) && |st.procs| == |st.started| == |st.finished|;
    if ran.remainingTime != 0 then
      assert InRange(admitted.queue + [idx], |st.procs|);
      assert (admitted.queue + [idx])[..|st.queue| - 1] == st.queue[1..];
      admitted.(procs := st.procs[idx := ran],
                queue := admitted.queue + [idx],
                started := st.started[idx := true],
                sliceBeg := cur,
                trace := st.trace + [seg],
                owners := st.owners + [idx],
                totals := st.totals.(response := st.totals.response + rt))
    else
      var completed := ran.(completionTime := cur);
      var tat := completed.completionTime - completed.arrivalTime;
      var wt := tat - completed.burstTime;
      admitted.(procs := st.procs[idx := completed],
                started := st.started[idx := true],
                finished := st.finished[idx := true],
                done := st.done + 1,
                sliceBeg := cur,
                trace := st.trace + [seg],
                owners := st.owners + [idx],
                totals := Totals(st.totals.turnaround + tat, st.totals.waiting + wt,
                                 st.totals.response + rt))
  }

  /** One iteration of the main loop. */
  function Step(st: State, q: int): (r: State)
    requires Shaped(st)
    ensures Shaped(r)
    ensures |st.queue| == 0 ==> r.cur == st.cur + 1 && r.trace == st.trace && r.procs == st.procs
    ensures |st.queue| > 0 ==>
      |r.trace| == |st.trace| + 1 && r.trace[..|st.trace|] == st.trace && r.trace[|st.trace|].pid == st.procs[st.queue[0]].pid
  {
    if |st.queue| == 0 then Idle(st) else Dispatch(st, q)
  }

  /** CPU time process `p` has received, counted under pid `x` once it has
      been dispatched. */
  function ExecOf(x: int): (Process, bool) -> int
  {
    (p: Process, s: bool) => if s && p.pid == x then p.burstTime - p.remainingTime else 0
  }

  /** CPU time process `p` still needs. */
  function Left(p: Process, s: bool): int
  {
    if s then p.remainingTime else p.burstTime
  }

  /** Total burst time of the processes with pid `x`. */
  function BurstOf(ps: seq<Process>, x: int): int
  {
    if |ps| == 0 then 0 else (if ps[0].pid == x then ps[0].burstTime else 0) + BurstOf(ps[1..], x)
  }

  /** What the source expects of its callers for round robin: the common
      preconditions, a positive quantum, and a remaining time that is
      either zero or the full burst, since that is how a first dispatch is
      recognised. */
  predicate RrInput(input: seq<Process>, q: int)
  {
    && 0 < |input|
    && q > 0
    && ValidJobs(input)
    && forall i :: 0 <= i < |input| ==>
         input[i].remainingTime == 0 || input[i].remainingTime == input[i].burstTime
  }

  /** Per-process facts at the top of every iteration. */
  predicate ProcInv(input: seq<Process>, st: State, i: int)
    requires Shaped(st) && |st.procs| == |input| && 0 <= i < |input|
  {
    var p := st.procs[i];
    && SameJob(p, input[i])
    && (!st.started[i] ==> p == input[i])
    && (st.seen[i] <==> p.arrivalTime <= st.cur)
    && (!st.seen[i] ==> !st.started[i])
    && (st.started[i] ==>
          && st.seen[i]
          && p.arrivalTime <= p.startTime
          && p.startTime + (p.burstTime - p.remainingTime) <= st.cur
          && 0 <= p.remainingTime < p.burstTime)
    && (st.started[i] && !st.finished[i] ==> p.remainingTime > 0)
    && (st.finished[i] ==>
          && st.started[i]
          && p.remainingTime == 0
          && p.startTime + p.burstTime <= p.completionTime <= st.cur)
  }

  /** The queue holds each admitted, unfinished process exactly once and
      nothing else. */
  predicate QueueInv(st: State)
    requires Shaped(st)
  {
    && Distinct(st.queue)
    && (forall k :: 0 <= k < |st.queue| ==> st.seen[st.queue[k]] && !st.finished[st.queue[k]])
    && (forall i :: 0 <= i < |st.procs| && st.seen[i] && !st.finished[i] ==> i in st.queue)
  }

  /** The emitted trace: in time order, each slice non-empty and at most
      one quantum, and per pid as much time as the processes with that pid
      have received. */
  ghost predicate TraceInv(st: State, q: int)
    requires Shaped(st)
  {
    && Chronological(st.trace)
    && (forall k :: 0 <= k < |st.trace| ==> 0 < Length(st.trace[k]) <= q)
    && (|st.trace| > 0 ==> st.trace[|st.trace| - 1].end <= st.cur)
    && (forall x :: TimeOf(st.trace, x) == MaskedSum(st.procs, st.started, ExecOf(x)))
  }

  /** `owners` assigns each slice of `trace` to a process of `ps` with the
      slice's pid, and only a process's last slice may be shorter than the
      quantum: a slice followed by another slice of the same process lasts
      exactly `q`, and a shorter slice ends at its process's completion. */
  predicate FullQuanta(ps: seq<Process>, trace: seq<Segment>, q: int, owners: seq<int>)
  {
    && |owners| == |trace|
    && (forall k :: 0 <= k < |trace| ==> 0 <= owners[k] < |ps| && trace[k].pid == ps[owners[k]].pid)
    && (forall k :: 0 <= k < |trace| && Length(trace[k]) != q ==> ps[owners[k]].completionTime == trace[k].end)
    && (forall k, l :: 0 <= k < l < |trace| && owners[k] == owners[l] ==> Length(trace[k]) == q)
  }

  /** The slices' owners, while the loop runs: a slice shorter than the
      quantum belongs to a process that has completed. */
  predicate OwnersInv(st: State, q: int)
    requires Shaped(st)
  {
    && FullQuanta(st.procs, st.trace, q, st.owners)
    && (forall k :: 0 <= k < |st.trace| && Length(st.trace[k]) != q ==> st.finished[st.owners[k]])
  }

  /** `owners` ties each process's recorded times to its slices: every
      slice of a process lies between its start and completion times, the
      start time is the start of one of its slices and the completion time
      the end of one. */
  predicate SliceTimes(ps: seq<Process>, trace: seq<Segment>, owners: seq<int>)
  {
    && |owners| == |trace|
    && InRange(owners, |ps|)
    && (forall k :: 0 <= k < |trace| ==>
          ps[owners[k]].startTime <= trace[k].start && trace[k].end <= ps[owners[k]].completionTime)
    && (forall i :: 0 <= i < |ps| ==> StartsSlice(ps, trace, owners, i))
    && (forall i :: 0 <= i < |ps| ==> EndsSlice(ps, trace, owners, i))
  }

  /** Some slice of process `i` starts at its start time. */
  predicate StartsSlice(ps: seq<Process>, trace: seq<Segment>, owners: seq<int>, i: int)
    requires |owners| == |trace| && 0 <= i < |ps|
  {
    exists k :: 0 <= k < |trace| && owners[k] == i && trace[k].start == ps[i].startTime
  }

  /** Some slice of process `i` ends at its completion time. */
  predicate EndsSlice(ps: seq<Process>, trace: seq<Segment>, owners: seq<int>, i: int)
    requires |owners| == |trace| && 0 <= i < |ps|
  {
    exists k :: 0 <= k < |trace| && owners[k] == i && trace[k].end == ps[i].completionTime
  }

  /** `SliceTimes` while the loop runs: every slice ends by the clock and
      belongs to a dispatched process, starting no earlier than its start
      time; a dispatched process's start time is the start of one of its
      slices; and a completed process's completion time is the end of one
      of its slices and of none later. */
  predicate TimesInv(st: State)
    requires Shaped(st) && |st.owners| == |st.trace| && InRange(st.owners, |st.procs|)
  {
    && (forall k :: 0 <= k < |st.trace| ==>
          && st.trace[k].end <= st.cur
          && st.started[st.owners[k]]
          && st.procs[st.owners[k]].startTime <= st.trace[k].start
          && (st.finished[st.owners[k]] ==> st.trace[k].end <= st.procs[st.owners[k]].completionTime))
    && (forall i :: 0 <= i < |st.procs| && st.started[i] ==> StartsSlice(st.procs, st.trace, st.owners, i))
    && (forall i :: 0 <= i < |st.procs| && st.finished[i] ==> EndsSlice(st.procs, st.trace, st.owners, i))
  }

  /** Process `j` has a slice strictly between slices `k` and `l`. */
  predicate RunsBetween(owners: seq<int>, k: int, l: int, j: int)
  {
    exists m :: k < m < l && 0 <= m < |owners| && owners[m] == j
  }

  /** Slice `k` is the last slice so far of its process. */
  predicate LastSlice(owners: seq<int>, k: int)
    requires 0 <= k < |owners|
  {
    forall m :: k < m < |owners| ==> owners[m] != owners[k]
  }

  /** `j` stands ahead of `i` in the queue. */
  predicate Ahead(queue: seq<int>, j: int, i: int)
  {
    exists a, b :: 0 <= a < b < |queue| && queue[a] == j && queue[b] == i
  }

  /** Process `j` had arrived by time `t` and had not completed by then. */
  predicate PendingAt(st: State, j: int, t: int)
    requires Shaped(st) && 0 <= j < |st.procs|
  {
    st.procs[j].arrivalTime <= t && !(st.finished[j] && st.procs[j].completionTime <= t)
  }

  /** Round-robin fairness, first half: between two slices of the same
      process every other process that was waiting when the first one
      ended gets a slice. */
  predicate FairPairs(st: State)
    requires Shaped(st) && |st.owners| == |st.trace| && InRange(st.owners, |st.procs|)
  {
    forall k, l, j ::
      0 <= k < l < |st.trace| && st.owners[k] == st.owners[l] && 0 <= j < |st.procs| && j != st.owners[k] && PendingAt(st, j, st.trace[k].end)
      ==> RunsBetween(st.owners, k, l, j)
  }

  /** Round-robin fairness, second half: after the last slice so far of
      an unfinished process, every process waiting at its end has had a
      slice since or stands ahead of it in the queue. */
  predicate FairLast(st: State)
    requires Shaped(st) && |st.owners| == |st.trace| && InRange(st.owners, |st.procs|)
  {
    forall k, j ::
      0 <= k < |st.trace| && LastSlice(st.owners, k) && !st.finished[st.owners[k]] && 0 <= j < |st.procs| && j != st.owners[k] && PendingAt(st, j, st.trace[k].end)
      ==> RunsBetween(st.owners, k, |st.trace|, j) || Ahead(st.queue, j, st.owners[k])
  }

  /** Round-robin fairness while the loop runs. */
  predicate TurnsInv(st: State)
    requires Shaped(st) && |st.owners| == |st.trace| && InRange(st.owners, |st.procs|)
  {
    FairPairs(st) && FairLast(st)
  }

  /** Slice `k` is the first one, or starts later than the previous one
      ended. */
  predicate AfterGap(trace: seq<Segment>, k: int)
    requires 0 <= k < |trace|
  {
    k == 0 || trace[k - 1].end < trace[k].start
  }

  /** The processor never idles while a process waits: a slice that does
      not follow on from the previous one (or is the first) starts only
      once every process that arrived before it has completed, and the
      clock stands at the end of the last slice unless every process
      that arrived before it has completed. */
  predicate BusyInv(st: State)
    requires Shaped(st)
  {
    && (forall k, j :: 0 <= k < |st.trace| && AfterGap(st.trace, k)
          && 0 <= j < |st.procs| && st.procs[j].arrivalTime < st.trace[k].start
          ==> st.finished[j] && st.procs[j].completionTime < st.trace[k].start)
    && ((|st.trace| > 0 && st.trace[|st.trace| - 1].end == st.cur) ||
        forall j :: 0 <= j < |st.procs| && st.procs[j].arrivalTime < st.cur ==>
          st.finished[j] && st.procs[j].completionTime < st.cur)
  }

  /** Round-robin fairness over a finished run: between two slices of the
      same process, every other process that had arrived by the end of
      the first and had not completed by then gets a slice. In
      particular a process runs two slices in a row only when every other
      process that has arrived has completed. */
  predicate TakesTurns(ps: seq<Process>, trace: seq<Segment>, owners: seq<int>)
  {
    && |owners| == |trace|
    && forall k, l, j :: 0 <= k < l < |trace| && owners[k] == owners[l]
         && 0 <= j < |ps| && j != owners[k]
         && ps[j].arrivalTime <= trace[k].end < ps[j].completionTime
         ==> RunsBetween(owners, k, l, j)
  }

  /** The processor never idles while a process waits: before the first
      slice, and across every gap between slices, every process that
      arrived before the slice had already completed. */
  predicate NeverIdle(ps: seq<Process>, trace: seq<Segment>)
  {
    forall k, j :: 0 <= k < |trace| && AfterGap(trace, k)
      && 0 <= j < |ps| && ps[j].arrivalTime < trace[k].start
      ==> ps[j].completionTime < trace[k].start
  }

  /** What holds at the top of every iteration of the main loop. */
  ghost predicate Inv(input: seq<Process>, q: int, st: State)
  {
    && RrInput(input, q)
    && Shaped(st)
    && |st.procs| == |input|
    && st.cur >= 0
    && st.sliceBeg == st.cur
    && st.done == Count(st.finished)
    && (forall i :: 0 <= i < |input| ==> ProcInv(input, st, i))
    && QueueInv(st)
    && st.totals == Partial(st.procs, st.finished, st.started)
    && TraceInv(st, q)
    && OwnersInv(st, q)
    && TimesInv(st)
    && TurnsInv(st)
    && BusyInv(st)
  }

  /** Work still to do; a dispatch lowers it by its slice. */
  function Work(input: seq<Process>, q: int, st: State): nat
    requires Inv(input, q, st)
  {
    assert forall i :: 0 <= i < |st.procs| ==> Left(st.procs[i], st.started[i]) >= 0 by {
      forall i | 0 <= i < |st.procs| ensures Left(st.procs[i], st.started[i]) >= 0 {
        assert ProcInv(input, st, i);
      }
    }
    MaskedSumNonneg(st.procs, st.started, Left);
    MaskedSum(st.procs, st.started, Left)
  }

  /** Processes never admitted so far. */
  function Unseen(st: State): nat
  {
    |st.seen| - Count(st.seen)
  }

  /** The queue never holds more entries than there are processes. */
  lemma {:induction false} QueueFits(input: seq<Process>, q: int, st: State)
    requires Inv(input, q, st)
    ensures |st.queue| <= |input|
  {
    DistinctBound(st.queue, |input|);
  }

  /** An idle tick advances the clock by exactly one, admits exactly the
      processes that have arrived by then, and keeps the invariant. */
  lemma {:induction false} IdleInv(input: seq<Process>, q: int, st: State)
    requires Inv(input, q, st) && |st.queue| == 0
    ensures Idle(st).cur == st.cur + 1
    ensures forall j :: 0 <= j < |input| ==> Idle(st).seen[j] == (input[j].arrivalTime <= st.cur + 1)
    ensures Inv(input, q, Idle(st))
  {
    IdleProcs(input, q, st);
    IdleTrace(input, q, st);
  }

  /** An idle tick keeps the per-process facts and the queue facts. */
  lemma {:induction false} IdleProcs(input: seq<Process>, q: int, st: State)
    requires Inv(input, q, st) && |st.queue| == 0
    ensures var r := Idle(st);
      && |r.procs| == |input|
      && (forall j :: 0 <= j < |input| ==> ProcInv(input, r, j) && r.seen[j] == (input[j].arrivalTime <= st.cur + 1))
      && QueueInv(r)
  {
    var r := Idle(st);
    forall j | 0 <= j < |input|
      ensures ProcInv(input, r, j) && r.seen[j] == (input[j].arrivalTime <= st.cur + 1)
    {
      assert ProcInv(input, st, j);
    }
    assert r.queue == r.queue[0..];
    assert Distinct(r.queue);
    forall k | 0 <= k < |r.queue|
      ensures r.seen[r.queue[k]] && !r.finished[r.queue[k]]
    {
      assert ProcInv(input, st, r.queue[k]);
    }
    forall j | 0 <= j < |input| && r.seen[j] && !r.finished[j]
      ensures j in r.queue
    {
      assert ProcInv(input, st, j);
    }
  }

  /** An idle tick keeps the facts about the trace: it adds no slice and
      changes no record. */
  lemma {:induction false} IdleTrace(input: seq<Process>, q: int, st: State)
    requires Inv(input, q, st) && |st.queue| == 0
    ensures var r := Idle(st);
      && |r.owners| == |r.trace| && InRange(r.owners, |r.procs|)
      && TraceInv(r, q) && OwnersInv(r, q) && TimesInv(r) && TurnsInv(r) && BusyInv(r)
  {
    WaitingQueued(input, q, st);
    TraceKept(q, st, Idle(st));
  }

  /** The facts about the trace survive any step that adds no slice,
      changes no record, advances the clock by one and finds the queue
      empty with everybody who has arrived completed. */
  lemma {:induction false} TraceKept(q: int, st: State, r: State)
    requires Shaped(st) && |st.owners| == |st.trace| && InRange(st.owners, |st.procs|) && |st.queue| == 0
    requires TraceInv(st, q) && OwnersInv(st, q) && TimesInv(st) && TurnsInv(st) && BusyInv(st)
    requires forall j :: 0 <= j < |st.procs| && st.procs[j].arrivalTime <= st.cur && !st.finished[j] ==> j in st.queue
    requires forall j :: 0 <= j < |st.procs| && st.finished[j] ==> st.procs[j].completionTime <= st.cur
    requires Shaped(r) && r.trace == st.trace && r.owners == st.owners && r.procs == st.procs
    requires r.started == st.started && r.finished == st.finished && r.cur == st.cur + 1
    ensures |r.owners| == |r.trace| && InRange(r.owners, |r.procs|)
    ensures TraceInv(r, q) && OwnersInv(r, q) && TimesInv(r) && TurnsInv(r) && BusyInv(r)
  {
    IdleTurns(st, r);
    IdleBusy(st, r);
  }

  /** The busy-processor facts survive an idle tick: the queue is empty,
      so whoever has arrived has completed. */
  lemma {:induction false} IdleBusy(st: State, r: State)
    requires Shaped(st) && BusyInv(st) && |st.queue| == 0
    requires forall j :: 0 <= j < |st.procs| && st.procs[j].arrivalTime <= st.cur && !st.finished[j] ==> j in st.queue
    requires forall j :: 0 <= j < |st.procs| && st.finished[j] ==> st.procs[j].completionTime <= st.cur
    requires Shaped(r) && r.trace == st.trace && r.procs == st.procs && r.finished == st.finished && r.cur == st.cur + 1
    ensures BusyInv(r)
  {
    forall j | 0 <= j < |st.procs| && st.procs[j].arrivalTime <= st.cur
      ensures st.finished[j] && st.procs[j].completionTime < st.cur + 1
    {
      assert j !in st.queue;
    }
  }

  /** Fairness survives an idle tick: slices, records and completions
      stay as they were, and nobody stood in the empty queue. */
  lemma {:induction false} IdleTurns(st: State, r: State)
    requires Shaped(st) && |st.owners| == |st.trace| && InRange(st.owners, |st.procs|) && TurnsInv(st)
    requires |st.queue| == 0 && Shaped(r)
    requires r.trace == st.trace && r.owners == st.owners && r.procs == st.procs && r.finished == st.finished
    ensures |r.owners| == |r.trace| && InRange(r.owners, |r.procs|) && TurnsInv(r)
  {
    assert FairPairs(r);
    forall k, j | 0 <= k < |r.trace| && LastSlice(r.owners, k) && !r.finished[r.owners[k]] && 0 <= j < |r.procs| && j != r.owners[k] && PendingAt(r, j, r.trace[k].end)
      ensures RunsBetween(r.owners, k, |r.trace|, j)
    {
      assert PendingAt(st, j, st.trace[k].end);
      assert !Ahead(st.queue, j, st.owners[k]);
    }
  }

  /** With the queue empty and some process unfinished, some process has
      not arrived yet. */
  lemma {:induction false} SomeoneLate(input: seq<Process>, q: int, st: State)
    requires Inv(input, q, st) && st.done < |input| && |st.queue| == 0
    ensures exists i :: 0 <= i < |input| && !st.seen[i] && st.cur < input[i].arrivalTime
  {
    CountFull(st.finished);
    var i :| 0 <= i < |st.finished| && !st.finished[i];
    assert ProcInv(input, st, i);
    assert i !in st.queue;
  }

  /** An idle tick admits somebody, or else brings the clock one step
      closer to the last arrival. */
  lemma {:induction false} IdleProgress(input: seq<Process>, q: int, st: State)
    requires Inv(input, q, st) && st.done < |input| && |st.queue| == 0
    ensures Idle(st).procs == st.procs && Idle(st).started == st.started
    ensures Unseen(Idle(st)) < Unseen(st)
         || (Unseen(Idle(st)) == Unseen(st) && Gap(input, Idle(st).cur) < Gap(input, st.cur))
  {
    SomeoneLate(input, q, st);
    var i :| 0 <= i < |input| && !st.seen[i] && st.cur < input[i].arrivalTime;
    assert input[i].arrivalTime <= MaxArrival(input);
    IdleAdvance(input, st);
  }

  /** The idle tick's progress, from the clock lagging the last arrival
      alone. */
  lemma {:induction false} IdleAdvance(input: seq<Process>, st: State)
    requires Shaped(st) && |input| > 0 && |st.queue| == 0 && st.cur < MaxArrival(input)
    ensures Idle(st).procs == st.procs && Idle(st).started == st.started
    ensures Unseen(Idle(st)) < Unseen(st)
         || (Unseen(Idle(st)) == Unseen(st) && Gap(input, Idle(st).cur) < Gap(input, st.cur))
  {
    var r := Idle(st);
    assert r.cur == st.cur + 1;
    assert Gap(input, r.cur) < Gap(input, st.cur);
    SeenGrows(st.seen, r.seen);
  }

  /** Flags that are only ever raised either stay as they were or leave
      fewer flags lowered. */
  lemma {:induction false} SeenGrows(a: seq<bool>, b: seq<bool>)
    requires |a| == |b|
    requires forall i :: 0 <= i < |a| && a[i] ==> b[i]
    ensures a == b || |b| - Count(b) < |a| - Count(a)
  {
    CountGrows(a, b);
    if i :| 0 <= i < |a| && !a[i] && b[i] {
    } else {
      assert forall i :: 0 <= i < |a| ==> a[i] == b[i];
      assert a == b;
    }
  }

  /** An idle tick keeps the invariant; it admits somebody or brings the
      clock one step closer to the last arrival. */
  lemma {:induction false} IdleKeepsInv(input: seq<Process>, q: int, st: State)
    requires Inv(input, q, st) && st.done < |input| && |st.queue| == 0
    ensures Inv(input, q, Step(st, q))
    ensures Work(input, q, Step(st, q)) == Work(input, q, st)
    ensures Unseen(Step(st, q)) < Unseen(st)
         || (Unseen(Step(st, q)) == Unseen(st) && Gap(input, Step(st, q).cur) < Gap(input, st.cur))
  {
    IdleInv(input, q, st);
    IdleProgress(input, q, st);
  }

  /** The head of a non-empty queue, dispatched: the facts every later step
      of the dispatch proof uses. */
  lemma {:induction false} HeadFacts(input: seq<Process>, q: int, st: State)
    requires Inv(input, q, st) && |st.queue| > 0
    ensures var idx := st.queue[0];
      && 0 <= idx < |input|
      && st.seen[idx] && !st.finished[idx]
      && idx !in st.queue[1..]
      && var p := Loaded(st.procs[idx]);
         && (p.remainingTime == p.burstTime <==> !st.started[idx])
         && 0 < p.remainingTime <= p.burstTime
         && p.remainingTime == Left(st.procs[idx], st.started[idx])
  {
    var idx := st.queue[0];
    assert ProcInv(input, st, idx);
    assert forall k :: 1 <= k < |st.queue| ==> st.queue[0] != st.queue[k];
  }

  /** Dispatching the head keeps the invariant and strictly lowers the
      remaining work. */
  lemma {:induction false} DispatchKeepsInv(input: seq<Process>, q: int, st: State)
    requires Inv(input, q, st) && |st.queue| > 0
    ensures Inv(input, q, Step(st, q))
    ensures Work(input, q, Step(st, q)) < Work(input, q, st)
  {
    assert Step(st, q) == Dispatch(st, q);
    DispatchProcs(input, q, st);
    DispatchQueue(input, q, st);
    DispatchTotals(input, q, st);
    DispatchTrace(input, q, st);
    DispatchOwners(input, q, st);
    DispatchTimes(input, q, st);
    DispatchTurns(input, q, st);
    DispatchCount(input, q, st);
    DispatchWork(input, q, st);
  }

  /** The clock and the completion count stay in step with a dispatch. */
  lemma {:induction false} DispatchCount(input: seq<Process>, q: int, st: State)
    requires Inv(input, q, st) && |st.queue| > 0
    ensures Shaped(Dispatch(st, q))
    ensures var r := Dispatch(st, q);
      r.cur > st.cur && r.sliceBeg == r.cur && r.done == Count(r.finished)
  {
    var r := Dispatch(st, q);
    var idx := st.queue[0];
    HeadFacts(input, q, st);
    if r.procs[idx].remainingTime == 0 {
      assert r.finished == st.finished[idx := true];
      CountSet(st.finished, idx);
    } else {
      assert r.finished == st.finished;
    }
  }

  /** A dispatch lowers the remaining work by the length of its slice. */
  lemma {:induction false} DispatchWork(input: seq<Process>, q: int, st: State)
    requires Inv(input, q, st) && |st.queue| > 0
    requires Inv(input, q, Dispatch(st, q))
    ensures Work(input, q, Dispatch(st, q)) < Work(input, q, st)
  {
    var r := Dispatch(st, q);
    var idx := st.queue[0];
    HeadFacts(input, q, st);
    var final := r.procs[idx];
    assert r.procs == st.procs[idx := final];
    assert r.started == st.started[idx := true];
    assert final.remainingTime < Left(st.procs[idx], st.started[idx]);
    MaskedSumUpdate(st.procs, st.started, idx, final, true, Left);
  }

  /** What a dispatch does to the records, flags and clock. */
  ghost predicate Dispatched(input: seq<Process>, q: int, st: State, r: State)
    requires Shaped(st) && |st.queue| > 0 && |st.procs| == |input|
  {
    && Shaped(r) && |r.procs| == |input|
    && DispatchedRecord(q, st, r)
    && (forall j :: 0 <= j < |input| ==> r.seen[j] == (st.seen[j] || input[j].arrivalTime <= r.cur))
  }

  /** What a dispatch does to the dispatched record, with `final` that
      record afterwards: it ran for its remaining time capped at the
      quantum, so at least one tick; its start time is set on first
      touch and its completion time when nothing remains; every other
      record is left alone. */
  ghost predicate DispatchedRecord(q: int, st: State, r: State)
    requires Shaped(st) && |st.queue| > 0
  {
    var idx := st.queue[0];
    && |r.procs| == |st.procs| && |r.started| == |st.started| && |r.finished| == |st.finished|
    && var final := r.procs[idx];
    && var before := st.procs[idx];
    && r.procs == st.procs[idx := final]
    && r.started == st.started[idx := true]
    && r.finished == st.finished[idx := final.remainingTime == 0]
    && SameJob(final, before)
    && 0 <= final.remainingTime < Left(before, st.started[idx])
    && r.cur == st.cur + Left(before, st.started[idx]) - final.remainingTime
    && r.cur - st.cur == Slice(Left(before, st.started[idx]), q)
    && final.startTime == (if st.started[idx] then before.startTime else st.cur)
    && final.completionTime == (if final.remainingTime == 0 then r.cur else before.completionTime)
  }

  /** A dispatch does what `Dispatched` says. */
  lemma {:induction false} DispatchDescribed(input: seq<Process>, q: int, st: State)
    requires Inv(input, q, st) && |st.queue| > 0
    ensures Dispatched(input, q, st, Dispatch(st, q))
  {
    DispatchQueueShape(input, q, st);
    DispatchRecord(input, q, st);
    DispatchSeen(input, q, st);
  }

  /** A dispatch admits exactly the processes that have arrived by the
      end of its slice. */
  lemma {:induction false} DispatchSeen(input: seq<Process>, q: int, st: State)
    requires Inv(input, q, st) && |st.queue| > 0
    ensures Shaped(Dispatch(st, q))
    ensures var r := Dispatch(st, q);
      forall j :: 0 <= j < |input| ==> r.seen[j] == (st.seen[j] || input[j].arrivalTime <= r.cur)
  {
    var r := Dispatch(st, q);
    forall j | 0 <= j < |input|
      ensures r.seen[j] == (st.seen[j] || input[j].arrivalTime <= r.cur)
    {
      assert ProcInv(input, st, j);
    }
  }

  /** The dispatched record: what it ran, and the times it has set. */
  lemma {:induction false} DispatchRecord(input: seq<Process>, q: int, st: State)
    requires Inv(input, q, st) && |st.queue| > 0
    ensures DispatchedRecord(q, st, Dispatch(st, q))
  {
    HeadFacts(input, q, st);
    RecordOf(q, st);
  }

  /** What a dispatch does to the head's record, given that the head is
      unfinished and its reload rule reads its started flag right. */
  lemma {:induction false} RecordOf(q: int, st: State)
    requires q > 0 && Shaped(st) && |st.queue| > 0 && !st.finished[st.queue[0]]
    requires var p := Loaded(st.procs[st.queue[0]]);
      && (p.remainingTime == p.burstTime <==> !st.started[st.queue[0]])
      && 0 < p.remainingTime <= p.burstTime
      && p.remainingTime == Left(st.procs[st.queue[0]], st.started[st.queue[0]])
    ensures DispatchedRecord(q, st, Dispatch(st, q))
  {
  }

  /** Per-process facts survive a dispatch. */
  lemma {:induction false} DispatchProcs(input: seq<Process>, q: int, st: State)
    requires Inv(input, q, st) && |st.queue| > 0
    ensures Shaped(Dispatch(st, q)) && |Dispatch(st, q).procs| == |input|
    ensures forall i :: 0 <= i < |input| ==> ProcInv(input, Dispatch(st, q), i)
  {
    DispatchDescribed(input, q, st);
    ProcsAfter(input, q, st, Dispatch(st, q));
  }

  /** Per-process facts survive any step that does what `Dispatched`
      says. */
  lemma {:induction false} ProcsAfter(input: seq<Process>, q: int, st: State, r: State)
    requires Inv(input, q, st) && |st.queue| > 0 && Dispatched(input, q, st, r)
    ensures forall i :: 0 <= i < |input| ==> ProcInv(input, r, i)
  {
    var idx := st.queue[0];
    assert st.seen[idx] && !st.finished[idx];
    forall i | 0 <= i < |input|
      ensures ProcInv(input, r, i)
    {
      assert ProcInv(input, st, i);
    }
  }

  /** Appending indices never seen before, in increasing order, and then
      an already seen index absent from the queue, keeps the queue free of
      duplicates. */
  lemma {:induction false} RequeueDistinct(rest: seq<int>, added: seq<int>, idx: int, seen: seq<bool>)
    requires InRange(rest, |seen|) && InRange(added, |seen|) && 0 <= idx < |seen|
    requires Distinct(rest) && idx !in rest && seen[idx]
    requires forall k :: 0 <= k < |rest| ==> seen[rest[k]]
    requires forall k :: 0 <= k < |added| ==> !seen[added[k]]
    requires forall k, l :: 0 <= k < l < |added| ==> added[k] < added[l]
    ensures Distinct(rest + added) && Distinct(rest + added + [idx])
  {
    var qa := rest + added;
    forall k, l | 0 <= k < l < |qa|
      ensures qa[k] != qa[l]
    {
      if k < |rest| && l >= |rest| {
        assert seen[qa[k]] && !seen[qa[l]];
      }
    }
    forall k | 0 <= k < |qa|
      ensures qa[k] != idx
    {
      if k >= |rest| {
        assert !seen[qa[k]];
      }
    }
  }

  /** The dispatched queue, taken apart: what was behind the head, the
      arrivals admitted after the slice, and the head again if it was
      preempted. New arrivals go in before the preempted process. */
  lemma {:induction false} DispatchQueueShape(input: seq<Process>, q: int, st: State)
    requires Inv(input, q, st) && |st.queue| > 0
    ensures var r := Dispatch(st, q);
      var idx := st.queue[0];
      var added := Arrivals(st.(queue := st.queue[1..], cur := r.cur), 0);
      && Shaped(r) && |r.procs| == |input|
      && r.queue == st.queue[1..] + added + (if r.finished[idx] then [] else [idx])
      && InRange(added, |input|)
      && (forall k, l :: 0 <= k < l < |added| ==> added[k] < added[l])
      && (forall k :: 0 <= k < |added| ==> !st.seen[added[k]] && r.seen[added[k]])
      && (forall j :: 0 <= j < |input| && st.seen[j] ==> r.seen[j])
      && (forall j :: 0 <= j < |input| && r.seen[j] && !st.seen[j] ==> j in added)
      && r.finished == st.finished[idx := r.finished[idx]]
  {
    var r := Dispatch(st, q);
    var popped := st.(queue := st.queue[1..], cur := r.cur);
    HeadFacts(input, q, st);
    DispatchAdmits(st, q);
    AdmitAppends(popped);
  }

  /** A dispatch ends with the admission scan, run on the popped queue at
      the end of the slice, and then perhaps the requeue. */
  lemma {:induction false} DispatchAdmits(st: State, q: int)
    requires Shaped(st) && |st.queue| > 0 && !st.finished[st.queue[0]]
    ensures var r := Dispatch(st, q);
      var idx := st.queue[0];
      var popped := st.(queue := st.queue[1..], cur := r.cur);
      && Shaped(popped) && Shaped(r) && |r.procs| == |st.procs|
      && r.seen == Admit(popped).seen
      && r.queue == Admit(popped).queue + (if r.finished[idx] then [] else [idx])
      && r.finished == st.finished[idx := r.finished[idx]]
  {
    DispatchRequeues(st, q);
  }

  /** For any state, a dispatch leaves the queue admission made at the
      end of the slice on the popped queue, followed by the dispatched
      process again exactly when it has time left, and the `seen` flags
      that admission made. */
  lemma {:induction false} DispatchRequeues(st: State, q: int)
    requires Shaped(st) && |st.queue| > 0
    ensures var r := Dispatch(st, q);
      var idx := st.queue[0];
      var ad := Admit(st.(queue := st.queue[1..], cur := r.cur));
      && r.queue == ad.queue + (if r.procs[idx].remainingTime != 0 then [idx] else [])
      && r.seen == ad.seen
  {
  }

  /** The admission scan appends exactly the arrivals. */
  lemma {:induction false} AdmitAppends(st: State)
    requires Shaped(st)
    ensures Admit(st).queue == st.queue + Arrivals(st, 0)
  {
    assert Admit(st).queue[|st.queue|..] == Arrivals(st, 0);
  }

  /** Taking the head off a well-kept queue, appending fresh arrivals and
      then, unless it finished, the head again keeps the queue well kept:
      no duplicates, only admitted unfinished processes, and all of them. */
  lemma {:induction false} RequeueKeepsQueue(q0: seq<int>, seen0: seq<bool>, finished0: seq<bool>,
                                             added: seq<int>, seen1: seq<bool>, b: bool)
    requires |seen0| == |finished0| == |seen1| && |q0| > 0
    requires InRange(q0, |seen0|) && InRange(added, |seen0|)
    requires Distinct(q0)
    requires forall k :: 0 <= k < |q0| ==> seen0[q0[k]] && !finished0[q0[k]]
    requires forall i :: 0 <= i < |seen0| && seen0[i] && !finished0[i] ==> i in q0
    requires forall i :: 0 <= i < |seen0| && !seen0[i] ==> !finished0[i]
    requires forall k, l :: 0 <= k < l < |added| ==> added[k] < added[l]
    requires forall k :: 0 <= k < |added| ==> !seen0[added[k]] && seen1[added[k]]
    requires forall j :: 0 <= j < |seen0| && seen0[j] ==> seen1[j]
    requires forall j :: 0 <= j < |seen0| && seen1[j] && !seen0[j] ==> j in added
    ensures var q1 := q0[1..] + added + (if b then [] else [q0[0]]);
      var finished1 := finished0[q0[0] := b];
      && Distinct(q1)
      && (forall k :: 0 <= k < |q1| ==> seen1[q1[k]] && !finished1[q1[k]])
      && (forall i :: 0 <= i < |seen0| && seen1[i] && !finished1[i] ==> i in q1)
  {
    var idx := q0[0];
    var rest := q0[1..];
    assert forall k :: 0 <= k < |rest| ==> rest[k] == q0[k + 1];
    assert idx !in rest;
    RequeueDistinct(rest, added, idx, seen0);
    RequeueLive(q0, finished0, added, seen1, b);
    RequeueComplete(q0, seen0, finished0, added, seen1, b);
  }

  /** Every entry of the requeued queue is admitted and unfinished. */
  lemma {:induction false} RequeueLive(q0: seq<int>, finished0: seq<bool>, added: seq<int>, seen1: seq<bool>, b: bool)
    requires |finished0| == |seen1| && |q0| > 0
    requires InRange(q0, |seen1|) && InRange(added, |seen1|)
    requires Distinct(q0)
    requires forall k :: 0 <= k < |q0| ==> seen1[q0[k]] && !finished0[q0[k]]
    requires forall k :: 0 <= k < |added| ==> seen1[added[k]] && !finished0[added[k]] && added[k] != q0[0]
    ensures var q1 := q0[1..] + added + (if b then [] else [q0[0]]);
      forall k :: 0 <= k < |q1| ==> seen1[q1[k]] && !finished0[q0[0] := b][q1[k]]
  {
    var idx := q0[0];
    var rest := q0[1..];
    var q1 := rest + added + (if b then [] else [idx]);
    var finished1 := finished0[idx := b];
    forall k | 0 <= k < |q1|
      ensures seen1[q1[k]] && !finished1[q1[k]]
    {
      if k < |rest| {
        assert q1[k] == q0[k + 1];
        assert q0[k + 1] != q0[0];
      } else if k < |rest| + |added| {
        assert q1[k] == added[k - |rest|];
      }
    }
  }

  /** Every admitted unfinished process is in the requeued queue. */
  lemma {:induction false} RequeueComplete(q0: seq<int>, seen0: seq<bool>, finished0: seq<bool>,
                                           added: seq<int>, seen1: seq<bool>, b: bool)
    requires |seen0| == |finished0| == |seen1| && |q0| > 0 && 0 <= q0[0] < |seen0|
    requires forall i :: 0 <= i < |seen0| && seen0[i] && !finished0[i] ==> i in q0
    requires forall j :: 0 <= j < |seen0| && seen1[j] && !seen0[j] ==> j in added
    ensures var q1 := q0[1..] + added + (if b then [] else [q0[0]]);
      forall i :: 0 <= i < |seen0| && seen1[i] && !finished0[q0[0] := b][i] ==> i in q1
  {
    var idx := q0[0];
    var rest := q0[1..];
    var q1 := rest + added + (if b then [] else [idx]);
    var finished1 := finished0[idx := b];
    forall i | 0 <= i < |seen0| && seen1[i] && !finished1[i]
      ensures i in q1
    {
      if i != idx && seen0[i] {
        var k :| 0 <= k < |q0| && q0[k] == i;
        assert q1[k - 1] == i;
      } else if i != idx {
        var k :| 0 <= k < |added| && added[k] == i;
        assert q1[|rest| + k] == i;
      }
    }
  }

  /** The queue discipline survives a dispatch. */
  lemma {:induction false} DispatchQueue(input: seq<Process>, q: int, st: State)
    requires Inv(input, q, st) && |st.queue| > 0
    ensures Shaped(Dispatch(st, q)) && QueueInv(Dispatch(st, q))
  {
    var r := Dispatch(st, q);
    DispatchQueueShape(input, q, st);
    forall i | 0 <= i < |input| && !st.seen[i]
      ensures !st.finished[i]
    {
      assert ProcInv(input, st, i);
    }
    var added := Arrivals(st.(queue := st.queue[1..], cur := r.cur), 0);
    RequeueKeepsQueue(st.queue, st.seen, st.finished, added, r.seen, r.finished[st.queue[0]]);
  }

  /** The three running sums survive a dispatch. */
  lemma {:induction false} DispatchTotals(input: seq<Process>, q: int, st: State)
    requires Inv(input, q, st) && |st.queue| > 0
    ensures Shaped(Dispatch(st, q))
    ensures Dispatch(st, q).totals == Partial(Dispatch(st, q).procs, Dispatch(st, q).finished, Dispatch(st, q).started)
  {
    DispatchRecord(input, q, st);
    DispatchSums(input, q, st);
    TotalsAfter(input, q, st, Dispatch(st, q));
  }

  /** The sums a dispatch adds: the response time on first touch, the
      turnaround and waiting times on completion. */
  lemma {:induction false} DispatchSums(input: seq<Process>, q: int, st: State)
    requires Inv(input, q, st) && |st.queue| > 0
    ensures Shaped(Dispatch(st, q))
    ensures var r := Dispatch(st, q);
      var idx := st.queue[0];
      var final := r.procs[idx];
      && r.totals.response == st.totals.response + (if st.started[idx] then 0 else Response(final))
      && r.totals.turnaround == st.totals.turnaround + (if r.finished[idx] then Turnaround(final) else 0)
      && r.totals.waiting == st.totals.waiting + (if r.finished[idx] then Waiting(final) else 0)
  {
    HeadFacts(input, q, st);
  }

  /** The sums stay those of the records across any step that does what
      `DispatchedRecord` says and adds what `DispatchSums` says. */
  lemma {:induction false} TotalsAfter(input: seq<Process>, q: int, st: State, r: State)
    requires Shaped(st) && |st.procs| == |input| && |st.queue| > 0 && !st.finished[st.queue[0]]
    requires st.totals == Partial(st.procs, st.finished, st.started)
    requires Shaped(r) && DispatchedRecord(q, st, r)
    requires var idx := st.queue[0];
      var final := r.procs[idx];
      && r.totals.response == st.totals.response + (if st.started[idx] then 0 else Response(final))
      && r.totals.turnaround == st.totals.turnaround + (if r.finished[idx] then Turnaround(final) else 0)
      && r.totals.waiting == st.totals.waiting + (if r.finished[idx] then Waiting(final) else 0)
    ensures r.totals == Partial(r.procs, r.finished, r.started)
  {
    var idx := st.queue[0];
    var final := r.procs[idx];
    MaskedSumUpdate(st.procs, st.finished, idx, final, r.finished[idx], TurnaroundIf);
    MaskedSumUpdate(st.procs, st.finished, idx, final, r.finished[idx], WaitingIf);
    MaskedSumUpdate(st.procs, st.started, idx, final, true, ResponseIf);
  }

  /** The trace facts survive a dispatch. */
  lemma {:induction false} DispatchTrace(input: seq<Process>, q: int, st: State)
    requires Inv(input, q, st) && |st.queue| > 0
    ensures Shaped(Dispatch(st, q)) && TraceInv(Dispatch(st, q), q)
  {
    DispatchRecord(input, q, st);
    DispatchSegment(input, q, st);
    TraceAfter(q, st, Dispatch(st, q));
  }

  /** A dispatch appends one segment: the dispatched pid, from the clock
      at the start of the slice to the clock at its end, owned by the
      dispatched process. */
  lemma {:induction false} DispatchSegment(input: seq<Process>, q: int, st: State)
    requires Inv(input, q, st) && |st.queue| > 0
    ensures Shaped(Dispatch(st, q))
    ensures var r := Dispatch(st, q);
      && r.trace == st.trace + [Segment(r.procs[st.queue[0]].pid, st.cur, r.cur)]
      && r.owners == st.owners + [st.queue[0]]
  {
    HeadFacts(input, q, st);
  }

  /** The slices' owners survive a dispatch. */
  lemma {:induction false} DispatchOwners(input: seq<Process>, q: int, st: State)
    requires Inv(input, q, st) && |st.queue| > 0
    ensures Shaped(Dispatch(st, q)) && OwnersInv(Dispatch(st, q), q)
  {
    HeadFacts(input, q, st);
    DispatchRecord(input, q, st);
    DispatchSegment(input, q, st);
    OwnersAfter(q, st, Dispatch(st, q));
  }

  /** Fairness and the busy processor survive a dispatch. */
  lemma {:induction false} DispatchTurns(input: seq<Process>, q: int, st: State)
    requires Inv(input, q, st) && |st.queue| > 0
    ensures var r := Dispatch(st, q);
      && Shaped(r) && |r.owners| == |r.trace| && InRange(r.owners, |r.procs|)
      && TurnsInv(r) && BusyInv(r)
  {
    DispatchPairs(input, q, st);
    DispatchLast(input, q, st);
    DispatchBusy(input, q, st);
  }

  /** The first fairness clause survives a dispatch. */
  lemma {:induction false} DispatchPairs(input: seq<Process>, q: int, st: State)
    requires Inv(input, q, st) && |st.queue| > 0
    ensures var r := Dispatch(st, q);
      Shaped(r) && |r.owners| == |r.trace| && InRange(r.owners, |r.procs|) && FairPairs(r)
  {
    var r := Dispatch(st, q);
    HeadFacts(input, q, st);
    DispatchRecord(input, q, st);
    DispatchSegment(input, q, st);
    PendingKept(q, st, r);
    PairsAfter(q, st, r);
  }

  /** The second fairness clause survives a dispatch. */
  lemma {:induction false} DispatchLast(input: seq<Process>, q: int, st: State)
    requires Inv(input, q, st) && |st.queue| > 0
    ensures var r := Dispatch(st, q);
      Shaped(r) && |r.owners| == |r.trace| && InRange(r.owners, |r.procs|) && FairLast(r)
  {
    var r := Dispatch(st, q);
    var added := Arrivals(st.(queue := st.queue[1..], cur := r.cur), 0);
    HeadFacts(input, q, st);
    DispatchRecord(input, q, st);
    DispatchSegment(input, q, st);
    DispatchQueueShape(input, q, st);
    DispatchWaiting(input, q, st);
    WaitingQueued(input, q, st);
    PendingKept(q, st, r);
    LastAfter(q, st, r, added);
  }

  /** The busy-processor facts survive a dispatch. */
  lemma {:induction false} DispatchBusy(input: seq<Process>, q: int, st: State)
    requires Inv(input, q, st) && |st.queue| > 0
    ensures var r := Dispatch(st, q);
      Shaped(r) && BusyInv(r)
  {
    HeadFacts(input, q, st);
    DispatchRecord(input, q, st);
    DispatchSegment(input, q, st);
    BusyAfter(q, st, Dispatch(st, q));
  }

  /** While the loop runs, every process that has arrived and not finished
      is in the queue, and every finished one completed by the clock. */
  lemma {:induction false} WaitingQueued(input: seq<Process>, q: int, st: State)
    requires Inv(input, q, st)
    ensures forall j :: 0 <= j < |st.procs| && st.procs[j].arrivalTime <= st.cur && !st.finished[j] ==> j in st.queue
    ensures forall j :: 0 <= j < |st.procs| && st.finished[j] ==> st.procs[j].completionTime <= st.cur
  {
    forall j | 0 <= j < |st.procs|
      ensures st.procs[j].arrivalTime <= st.cur && !st.finished[j] ==> j in st.queue
      ensures st.finished[j] ==> st.procs[j].completionTime <= st.cur
    {
      assert ProcInv(input, st, j);
    }
  }

  /** After a dispatch, every other process that has arrived by the new
      clock and has not completed is in the queue. */
  lemma {:induction false} DispatchWaiting(input: seq<Process>, q: int, st: State)
    requires Inv(input, q, st) && |st.queue| > 0
    ensures var r := Dispatch(st, q);
      Shaped(r) && |r.procs| == |st.procs| &&
      forall j :: 0 <= j < |r.procs| && j != st.queue[0] && r.procs[j].arrivalTime <= r.cur && !r.finished[j] ==>
        j in r.queue
  {
    var r := Dispatch(st, q);
    var added := Arrivals(st.(queue := st.queue[1..], cur := r.cur), 0);
    HeadFacts(input, q, st);
    DispatchQueueShape(input, q, st);
    DispatchRecord(input, q, st);
    DispatchSeen(input, q, st);
    WaitingQueued(input, q, st);
    forall j | 0 <= j < |st.procs| && st.cur < st.procs[j].arrivalTime <= r.cur
      ensures j in added
    {
      assert ProcInv(input, st, j);
    }
    WaitingAfter(q, st, r, added);
  }

  /** Whoever was waiting before a dispatch, other than the dispatched
      process, is still queued after it, and so is whoever arrived during
      the slice. */
  lemma {:induction false} WaitingAfter(q: int, st: State, r: State, added: seq<int>)
    requires Shaped(st) && |st.queue| > 0 && Shaped(r) && DispatchedRecord(q, st, r)
    requires forall j :: 0 <= j < |st.procs| && st.procs[j].arrivalTime <= st.cur && !st.finished[j] ==> j in st.queue
    requires forall j :: 0 <= j < |st.procs| && st.cur < st.procs[j].arrivalTime <= r.cur ==> j in added
    requires r.queue == st.queue[1..] + added + (if r.finished[st.queue[0]] then [] else [st.queue[0]])
    ensures forall j :: 0 <= j < |r.procs| && j != st.queue[0] && r.procs[j].arrivalTime <= r.cur && !r.finished[j] ==>
      j in r.queue
  {
    var idx := st.queue[0];
    forall j | 0 <= j < |r.procs| && j != idx && r.procs[j].arrivalTime <= r.cur && !r.finished[j]
      ensures j in r.queue
    {
      assert r.procs[j] == st.procs[j] && r.finished[j] == st.finished[j];
      if st.procs[j].arrivalTime <= st.cur {
        var a :| 0 <= a < |st.queue| && st.queue[a] == j;
        assert r.queue[a - 1] == j;
      } else {
        var a :| 0 <= a < |added| && added[a] == j;
        assert r.queue[|st.queue| - 1 + a] == j;
      }
    }
  }

  /** A process waiting, after a dispatch, at a time no later than the
      old clock was already waiting then before it: arrivals never
      change, and the only new completion is at the new clock. */
  lemma {:induction false} PendingKept(q: int, st: State, r: State)
    requires Shaped(st) && |st.queue| > 0 && !st.finished[st.queue[0]]
    requires Shaped(r) && DispatchedRecord(q, st, r)
    ensures forall j, t :: 0 <= j < |st.procs| && t <= st.cur && PendingAt(r, j, t) ==> PendingAt(st, j, t)
  {
    forall j, t | 0 <= j < |st.procs| && t <= st.cur && PendingAt(r, j, t)
      ensures PendingAt(st, j, t)
    {
      if j != st.queue[0] {
        assert r.procs[j] == st.procs[j] && r.finished[j] == st.finished[j];
      }
    }
  }

  /** Nothing stands ahead of the head of a queue without duplicates. */
  lemma {:induction false} HeadNotBehind(queue: seq<int>, j: int)
    requires |queue| > 0 && Distinct(queue)
    ensures !Ahead(queue, j, queue[0])
  {
    forall a, b | 0 <= a < b < |queue|
      ensures !(queue[a] == j && queue[b] == queue[0])
    {
      assert queue[b] != queue[0];
    }
  }

  /** The first fairness clause survives a dispatch: a new pair of slices
      of the dispatched process either spans an earlier pair, or starts at
      its last slice, after which every waiting process had a slice since,
      as nobody stands ahead of the head. */
  lemma {:induction false} PairsAfter(q: int, st: State, r: State)
    requires Shaped(st) && |st.queue| > 0 && |st.owners| == |st.trace| && InRange(st.owners, |st.procs|)
    requires Distinct(st.queue) && !st.finished[st.queue[0]]
    requires forall k :: 0 <= k < |st.trace| ==> st.trace[k].end <= st.cur
    requires TurnsInv(st)
    requires Shaped(r) && DispatchedRecord(q, st, r)
    requires |r.trace| == |st.trace| + 1 && r.trace[..|st.trace|] == st.trace
    requires r.owners == st.owners + [st.queue[0]]
    requires forall j, t :: 0 <= j < |st.procs| && t <= st.cur && PendingAt(r, j, t) ==> PendingAt(st, j, t)
    ensures |r.owners| == |r.trace| && InRange(r.owners, |r.procs|) && FairPairs(r)
  {
    var idx := st.queue[0];
    var n := |st.trace|;
    forall k, l, j | 0 <= k < l < |r.trace| && r.owners[k] == r.owners[l]
      && 0 <= j < |r.procs| && j != r.owners[k] && PendingAt(r, j, r.trace[k].end)
      ensures RunsBetween(r.owners, k, l, j)
    {
      assert r.trace[k] == st.trace[k] && r.owners[k] == st.owners[k];
      assert PendingAt(st, j, st.trace[k].end);
      var m: int;
      if l < n {
        assert r.owners[l] == st.owners[l];
        assert RunsBetween(st.owners, k, l, j);
        m :| k < m < l && 0 <= m < |st.owners| && st.owners[m] == j;
      } else if LastSlice(st.owners, k) {
        HeadNotBehind(st.queue, j);
        assert RunsBetween(st.owners, k, n, j);
        m :| k < m < n && 0 <= m < |st.owners| && st.owners[m] == j;
      } else {
        var m' :| k < m' < |st.owners| && st.owners[m'] == st.owners[k];
        assert RunsBetween(st.owners, k, m', j);
        m :| k < m < m' && 0 <= m < |st.owners| && st.owners[m] == j;
      }
      assert r.owners[m] == j;
    }
  }

  /** The second fairness clause survives a dispatch: a preempted process
      goes to the back of the queue, behind everybody waiting; for any
      other process, whoever stood ahead of it either was the head, which
      has now had its slice, or still stands ahead. */
  lemma {:induction false} LastAfter(q: int, st: State, r: State, added: seq<int>)
    requires Shaped(st) && |st.queue| > 0 && |st.owners| == |st.trace| && InRange(st.owners, |st.procs|)
    requires !st.finished[st.queue[0]]
    requires forall j :: 0 <= j < |st.procs| && st.finished[j] ==> st.procs[j].completionTime <= st.cur
    requires TurnsInv(st)
    requires Shaped(r) && DispatchedRecord(q, st, r)
    requires |r.trace| == |st.trace| + 1 && r.trace[..|st.trace|] == st.trace && r.trace[|st.trace|].end == r.cur
    requires r.owners == st.owners + [st.queue[0]]
    requires r.queue == st.queue[1..] + added + (if r.finished[st.queue[0]] then [] else [st.queue[0]])
    requires forall j :: 0 <= j < |r.procs| && j != st.queue[0] && r.procs[j].arrivalTime <= r.cur && !r.finished[j] ==>
      j in r.queue
    requires forall j, t :: 0 <= j < |st.procs| && t <= st.cur && PendingAt(r, j, t) ==> PendingAt(st, j, t)
    requires forall k :: 0 <= k < |st.trace| ==> st.trace[k].end <= st.cur
    ensures |r.owners| == |r.trace| && InRange(r.owners, |r.procs|) && FairLast(r)
  {
    var idx := st.queue[0];
    var n := |st.trace|;
    forall k, j | 0 <= k < |r.trace| && LastSlice(r.owners, k) && !r.finished[r.owners[k]]
      && 0 <= j < |r.procs| && j != r.owners[k] && PendingAt(r, j, r.trace[k].end)
      ensures RunsBetween(r.owners, k, |r.trace|, j) || Ahead(r.queue, j, r.owners[k])
    {
      if k == n {
        var last := |r.queue| - 1;
        assert r.queue[last] == idx;
        assert r.procs[j] == st.procs[j] && r.finished[j] == st.finished[j];
        assert j in r.queue;
        var a :| 0 <= a < |r.queue| && r.queue[a] == j;
        assert a < last;
      } else {
        var i := st.owners[k];
        assert r.trace[k] == st.trace[k] && r.owners[k] == i && r.owners[n] == idx;
        assert LastSlice(st.owners, k) by {
          forall m | k < m < |st.owners|
            ensures st.owners[m] != i
          {
            assert r.owners[m] == st.owners[m];
          }
        }
        assert i != idx && !st.finished[i];
        assert PendingAt(st, j, st.trace[k].end);
        if RunsBetween(st.owners, k, n, j) {
          var m :| k < m < n && 0 <= m < |st.owners| && st.owners[m] == j;
          assert r.owners[m] == j;
        } else {
          var a, b :| 0 <= a < b < |st.queue| && st.queue[a] == j && st.queue[b] == i;
          if a == 0 {
            assert RunsBetween(r.owners, k, |r.trace|, j);
          } else {
            assert r.queue[a - 1] == j && r.queue[b - 1] == i;
          }
        }
      }
    }
  }

  /** The busy-processor facts survive a dispatch: the new slice starts
      at the old clock, so if it does not follow on from the last slice,
      everybody who arrived before it had completed; and the clock now
      stands at the end of the new slice. */
  lemma {:induction false} BusyAfter(q: int, st: State, r: State)
    requires Shaped(st) && |st.queue| > 0 && !st.finished[st.queue[0]] && BusyInv(st)
    requires Shaped(r) && DispatchedRecord(q, st, r)
    requires |r.trace| == |st.trace| + 1 && r.trace[..|st.trace|] == st.trace
    requires r.trace[|st.trace|].start == st.cur && r.trace[|st.trace|].end == r.cur
    ensures BusyInv(r)
  {
    var idx := st.queue[0];
    var n := |st.trace|;
    forall k, j | 0 <= k < |r.trace| && AfterGap(r.trace, k)
      && 0 <= j < |r.procs| && r.procs[j].arrivalTime < r.trace[k].start
      ensures r.finished[j] && r.procs[j].completionTime < r.trace[k].start
    {
      if k < n {
        assert r.trace[k] == st.trace[k];
        if k > 0 {
          assert r.trace[k - 1] == st.trace[k - 1];
        }
      } else if n > 0 {
        assert r.trace[n - 1] == st.trace[n - 1];
      }
      assert st.procs[j].arrivalTime == r.procs[j].arrivalTime;
      assert st.finished[j];
      assert r.procs[j] == st.procs[j];
    }
  }

  /** The ties between recorded times and slices survive a dispatch. */
  lemma {:induction false} DispatchTimes(input: seq<Process>, q: int, st: State)
    requires Inv(input, q, st) && |st.queue| > 0
    ensures var r := Dispatch(st, q);
      Shaped(r) && |r.owners| == |r.trace| && InRange(r.owners, |r.procs|) && TimesInv(r)
  {
    var idx := st.queue[0];
    assert ProcInv(input, st, idx);
    DispatchRecord(input, q, st);
    DispatchSegment(input, q, st);
    TimesAfter(q, st, Dispatch(st, q));
  }

  /** The ties between recorded times and slices survive any step that
      does what `DispatchedRecord` says and appends the matching segment:
      on first touch the new slice starts at the new start time, on
      completion it ends at the new completion time, and every earlier
      slice ended by the old clock. */
  lemma {:induction false} TimesAfter(q: int, st: State, r: State)
    requires Shaped(st) && |st.queue| > 0 && |st.owners| == |st.trace| && InRange(st.owners, |st.procs|)
    requires TimesInv(st) && !st.finished[st.queue[0]]
    requires st.started[st.queue[0]] ==> st.procs[st.queue[0]].startTime <= st.cur
    requires Shaped(r) && DispatchedRecord(q, st, r)
    requires r.trace == st.trace + [Segment(r.procs[st.queue[0]].pid, st.cur, r.cur)]
    requires r.owners == st.owners + [st.queue[0]]
    ensures |r.owners| == |r.trace| && InRange(r.owners, |r.procs|) && TimesInv(r)
  {
    SlicesAfter(q, st, r);
    StartsAfter(q, st, r);
    EndsAfter(q, st, r);
  }

  /** Every slice still ends by the clock and lies within its owner's
      recorded times. */
  lemma {:induction false} SlicesAfter(q: int, st: State, r: State)
    requires Shaped(st) && |st.queue| > 0 && |st.owners| == |st.trace| && InRange(st.owners, |st.procs|)
    requires TimesInv(st) && !st.finished[st.queue[0]]
    requires st.started[st.queue[0]] ==> st.procs[st.queue[0]].startTime <= st.cur
    requires Shaped(r) && DispatchedRecord(q, st, r)
    requires r.trace == st.trace + [Segment(r.procs[st.queue[0]].pid, st.cur, r.cur)]
    requires r.owners == st.owners + [st.queue[0]]
    ensures |r.owners| == |r.trace| && InRange(r.owners, |r.procs|)
    ensures forall k :: 0 <= k < |r.trace| ==>
      && r.trace[k].end <= r.cur
      && r.started[r.owners[k]]
      && r.procs[r.owners[k]].startTime <= r.trace[k].start
      && (r.finished[r.owners[k]] ==> r.trace[k].end <= r.procs[r.owners[k]].completionTime)
  {
    var n := |st.trace|;
    assert r.cur > st.cur;
    forall k | 0 <= k < |r.trace|
      ensures && r.trace[k].end <= r.cur
              && r.started[r.owners[k]]
              && r.procs[r.owners[k]].startTime <= r.trace[k].start
              && (r.finished[r.owners[k]] ==> r.trace[k].end <= r.procs[r.owners[k]].completionTime)
    {
      if k < n {
        assert r.trace[k] == st.trace[k] && r.owners[k] == st.owners[k];
      }
    }
  }

  /** Every dispatched process still has a slice starting at its start
      time: the new slice on first touch, an old one otherwise. */
  lemma {:induction false} StartsAfter(q: int, st: State, r: State)
    requires Shaped(st) && |st.queue| > 0 && |st.owners| == |st.trace| && InRange(st.owners, |st.procs|)
    requires TimesInv(st) && !st.finished[st.queue[0]]
    requires st.started[st.queue[0]] ==> st.procs[st.queue[0]].startTime <= st.cur
    requires Shaped(r) && DispatchedRecord(q, st, r)
    requires r.trace == st.trace + [Segment(r.procs[st.queue[0]].pid, st.cur, r.cur)]
    requires r.owners == st.owners + [st.queue[0]]
    ensures forall i :: 0 <= i < |r.procs| && r.started[i] ==> StartsSlice(r.procs, r.trace, r.owners, i)
  {
    var idx := st.queue[0];
    var n := |st.trace|;
    forall i | 0 <= i < |r.procs| && r.started[i]
      ensures StartsSlice(r.procs, r.trace, r.owners, i)
    {
      if i == idx && !st.started[idx] {
        assert r.owners[n] == i && r.trace[n].start == r.procs[i].startTime;
      } else {
        assert StartsSlice(st.procs, st.trace, st.owners, i);
        var k :| 0 <= k < |st.trace| && st.owners[k] == i && st.trace[k].start == st.procs[i].startTime;
        assert r.owners[k] == i && r.trace[k] == st.trace[k];
      }
    }
  }

  /** Every completed process still has a slice ending at its completion
      time: the new slice when it completes now, an old one otherwise. */
  lemma {:induction false} EndsAfter(q: int, st: State, r: State)
    requires Shaped(st) && |st.queue| > 0 && |st.owners| == |st.trace| && InRange(st.owners, |st.procs|)
    requires TimesInv(st) && !st.finished[st.queue[0]]
    requires st.started[st.queue[0]] ==> st.procs[st.queue[0]].startTime <= st.cur
    requires Shaped(r) && DispatchedRecord(q, st, r)
    requires r.trace == st.trace + [Segment(r.procs[st.queue[0]].pid, st.cur, r.cur)]
    requires r.owners == st.owners + [st.queue[0]]
    ensures forall i :: 0 <= i < |r.procs| && r.finished[i] ==> EndsSlice(r.procs, r.trace, r.owners, i)
  {
    var idx := st.queue[0];
    var n := |st.trace|;
    forall i | 0 <= i < |r.procs| && r.finished[i]
      ensures EndsSlice(r.procs, r.trace, r.owners, i)
    {
      if i == idx {
        assert r.owners[n] == i && r.trace[n].end == r.procs[i].completionTime;
      } else {
        assert EndsSlice(st.procs, st.trace, st.owners, i);
        var k :| 0 <= k < |st.trace| && st.owners[k] == i && st.trace[k].end == st.procs[i].completionTime;
        assert r.owners[k] == i && r.trace[k] == st.trace[k];
      }
    }
  }

  /** The slices' owners survive any step that does what
      `DispatchedRecord` says and appends the matching segment, owned by
      the dispatched process: its new slice is a full quantum unless it
      completes the process, and every earlier slice of that process was
      a full quantum, since a shorter one would have completed it. */
  lemma {:induction false} OwnersAfter(q: int, st: State, r: State)
    requires Shaped(st) && |st.queue| > 0 && !st.finished[st.queue[0]]
    requires OwnersInv(st, q) && forall k :: 0 <= k < |st.trace| ==> 0 < Length(st.trace[k]) <= q
    requires Shaped(r) && DispatchedRecord(q, st, r)
    requires r.trace == st.trace + [Segment(r.procs[st.queue[0]].pid, st.cur, r.cur)]
    requires r.owners == st.owners + [st.queue[0]]
    ensures OwnersInv(r, q)
  {
    var idx := st.queue[0];
    var final := r.procs[idx];
    var n := |st.trace|;
    assert Length(r.trace[n]) == Slice(Left(st.procs[idx], st.started[idx]), q);
    forall k | 0 <= k < |r.trace|
      ensures 0 <= r.owners[k] < |r.procs| && r.trace[k].pid == r.procs[r.owners[k]].pid
    {
      if k < n {
        assert r.trace[k] == st.trace[k] && r.owners[k] == st.owners[k];
      }
    }
    forall k | 0 <= k < |r.trace| && Length(r.trace[k]) != q
      ensures r.finished[r.owners[k]] && r.procs[r.owners[k]].completionTime == r.trace[k].end
    {
      if k < n {
        assert r.trace[k] == st.trace[k] && r.owners[k] == st.owners[k];
        assert st.finished[st.owners[k]];
      }
    }
    forall k, l | 0 <= k < l < |r.trace| && r.owners[k] == r.owners[l]
      ensures Length(r.trace[k]) == q
    {
      assert r.trace[k] == st.trace[k] && r.owners[k] == st.owners[k];
      if l < n {
        assert r.trace[l] == st.trace[l] && r.owners[l] == st.owners[l];
      } else {
        assert Length(st.trace[k]) <= q;
      }
    }
  }

  /** The trace facts survive any step that does what `DispatchedRecord`
      says and appends the matching segment. */
  lemma {:induction false} TraceAfter(q: int, st: State, r: State)
    requires Shaped(st) && |st.queue| > 0 && TraceInv(st, q)
    requires Shaped(r) && DispatchedRecord(q, st, r)
    requires r.trace == st.trace + [Segment(r.procs[st.queue[0]].pid, st.cur, r.cur)]
    ensures TraceInv(r, q)
  {
    var idx := st.queue[0];
    var final := r.procs[idx];
    var seg := Segment(final.pid, st.cur, r.cur);
    assert Length(seg) == Left(st.procs[idx], st.started[idx]) - final.remainingTime;
    assert 0 < Length(seg) <= q;
    ChronologicalAppend(st.trace, seg);
    SliceCredit(st.procs, st.started, st.trace, idx, final, seg);
  }

  /** Appending a slice to the trace and crediting the same time to the
      process that ran keeps the trace's per-pid time equal to the
      processes' received time. */
  lemma {:induction false} SliceCredit(ps: seq<Process>, started: seq<bool>, trace: seq<Segment>, idx: int,
                                       final: Process, seg: Segment)
    requires |ps| == |started| && 0 <= idx < |ps|
    requires SameJob(final, ps[idx]) && seg.pid == final.pid
    requires Length(seg) == Left(ps[idx], started[idx]) - final.remainingTime
    requires forall x :: TimeOf(trace, x) == MaskedSum(ps, started, ExecOf(x))
    ensures forall x :: TimeOf(trace + [seg], x) == MaskedSum(ps[idx := final], started[idx := true], ExecOf(x))
  {
    forall x
      ensures TimeOf(trace + [seg], x) == MaskedSum(ps[idx := final], started[idx := true], ExecOf(x))
    {
      TimeOfAppend(trace, seg, x);
      MaskedSumUpdate(ps, started, idx, final, true, ExecOf(x));
    }
  }

  /** Each iteration keeps the invariant and makes progress: less work
      left, or as much work and fewer processes unadmitted, or as much of
      both and the clock closer to the last arrival. */
  lemma {:induction false} StepKeepsInv(input: seq<Process>, q: int, st: State)
    requires Inv(input, q, st) && st.done < |input|
    ensures Inv(input, q, Step(st, q))
    ensures || Work(input, q, Step(st, q)) < Work(input, q, st)
            || (Work(input, q, Step(st, q)) == Work(input, q, st) && Unseen(Step(st, q)) < Unseen(st))
            || (Work(input, q, Step(st, q)) == Work(input, q, st) && Unseen(Step(st, q)) == Unseen(st)
                && Gap(input, Step(st, q).cur) < Gap(input, st.cur))
  {
    if |st.queue| == 0 {
      IdleKeepsInv(input, q, st);
    } else {
      DispatchKeepsInv(input, q, st);
    }
  }

  /** The main loop: iterate until every process has completed. */
  function Loop(input: seq<Process>, q: int, st: State): (r: State)
    requires Inv(input, q, st)
    ensures Inv(input, q, r) && r.done == |input|
    decreases Work(input, q, st), Unseen(st), Gap(input, st.cur)
  {
    if st.done >= |input| then st
    else
      StepKeepsInv(input, q, st);
      Loop(input, q, Step(st, q))
  }

  /** The state before the first admission: empty queue, nothing seen,
      clock at zero. */
  function Init(input: seq<Process>): (st: State)
    ensures Shaped(st)
  {
    var none := seq(|input|, _ => false);
    State(input, [], none, none, none, 0, 0, 0, [], [], Totals(0, 0, 0))
  }

  /** The first admission at time zero establishes the invariant. */
  lemma {:induction false} StartKeepsInv(input: seq<Process>, q: int)
    requires RrInput(input, q)
    ensures Inv(input, q, Admit(Init(input)))
  {
    var r := Admit(Init(input));
    StartProcs(input, q);
    StartQueue(input);
    StartTrace(input, q);
    StartTotals(input);
    assert r.cur == r.sliceBeg == 0;
  }

  lemma {:induction false} StartProcs(input: seq<Process>, q: int)
    requires RrInput(input, q)
    ensures |Admit(Init(input)).procs| == |input|
    ensures forall i :: 0 <= i < |input| ==> ProcInv(input, Admit(Init(input)), i)
    ensures forall i :: 0 <= i < |input| ==> !Admit(Init(input)).started[i]
  {
  }

  lemma {:induction false} StartQueue(input: seq<Process>)
    ensures QueueInv(Admit(Init(input)))
  {
    var r := Admit(Init(input));
    assert r.queue == r.queue[0..];
    forall i | 0 <= i < |input| && r.seen[i] && !r.finished[i]
      ensures i in r.queue
    {
      assert i in r.queue[0..];
    }
  }

  lemma {:induction false} StartTrace(input: seq<Process>, q: int)
    ensures TraceInv(Admit(Init(input)), q)
  {
    var r := Admit(Init(input));
    forall x
      ensures TimeOf(r.trace, x) == MaskedSum(r.procs, r.started, ExecOf(x))
    {
      MaskedSumNone(r.procs, r.started, ExecOf(x));
    }
  }

  lemma {:induction false} StartTotals(input: seq<Process>)
    ensures var r := Admit(Init(input));
      r.done == Count(r.finished) && r.totals == Partial(r.procs, r.finished, r.started)
  {
    var st := Init(input);
    CountEmpty(st.finished);
    PartialEmpty(input, st.finished, st.started);
  }

  /** At the end every process has received exactly the burst time of its
      pid's processes. */
  lemma {:induction false} ExecComplete(ps: seq<Process>, input: seq<Process>, started: seq<bool>, x: int)
    requires |ps| == |input| == |started|
    requires forall i :: 0 <= i < |ps| ==> started[i] && ps[i].remainingTime == 0 && SameJob(ps[i], input[i])
    ensures MaskedSum(ps, started, ExecOf(x)) == BurstOf(input, x)
    decreases |ps|
  {
    if |ps| > 0 {
      ExecComplete(ps[1..], input[1..], started[1..], x);
    }
  }

  /** When the loop stops, every process has completed with consistent
      times, each pid has received exactly its burst time and the sums are
      those of the final copy. */
  lemma {:induction false} Finished(input: seq<Process>, q: int, fin: State)
    requires Inv(input, q, fin) && fin.done == |input|
    ensures FinalFacts(input, q, fin)
  {
    FinishedProcs(input, q, fin);
  }

  /** What the entry point promises about the final state. */
  ghost predicate FinalFacts(input: seq<Process>, q: int, fin: State)
  {
    && |fin.procs| == |input|
    && (forall i :: 0 <= i < |input| ==>
      && SameJob(fin.procs[i], input[i]) && fin.procs[i].remainingTime == 0
      && input[i].arrivalTime <= fin.procs[i].startTime
      && fin.procs[i].startTime + input[i].burstTime <= fin.procs[i].completionTime)
    && (forall k :: 0 <= k < |fin.trace| ==> 0 < Length(fin.trace[k]) <= q)
    && Chronological(fin.trace)
    && (forall x :: TimeOf(fin.trace, x) == BurstOf(input, x))
    && fin.totals == TotalsOf(fin.procs)
    && FullQuanta(fin.procs, fin.trace, q, fin.owners)
    && SliceTimes(fin.procs, fin.trace, fin.owners)
    && TakesTurns(fin.procs, fin.trace, fin.owners)
    && NeverIdle(fin.procs, fin.trace)
  }

  lemma {:induction false} FinishedProcs(input: seq<Process>, q: int, fin: State)
    requires Inv(input, q, fin) && fin.done == |input|
    ensures |fin.procs| == |input|
    ensures forall i :: 0 <= i < |input| ==>
      && SameJob(fin.procs[i], input[i]) && fin.procs[i].remainingTime == 0
      && input[i].arrivalTime <= fin.procs[i].startTime
      && fin.procs[i].startTime + input[i].burstTime <= fin.procs[i].completionTime
    ensures forall k :: 0 <= k < |fin.trace| ==> 0 < Length(fin.trace[k]) <= q
    ensures Chronological(fin.trace)
    ensures forall x :: TimeOf(fin.trace, x) == BurstOf(input, x)
    ensures fin.totals == TotalsOf(fin.procs)
    ensures FullQuanta(fin.procs, fin.trace, q, fin.owners)
    ensures SliceTimes(fin.procs, fin.trace, fin.owners)
    ensures TakesTurns(fin.procs, fin.trace, fin.owners) && NeverIdle(fin.procs, fin.trace)
  {
    CountFull(fin.finished);
    forall i | 0 <= i < |input|
      ensures fin.started[i] && fin.finished[i] && fin.procs[i].remainingTime == 0
      ensures SameJob(fin.procs[i], input[i])
      ensures input[i].arrivalTime <= fin.procs[i].startTime
      ensures fin.procs[i].startTime + input[i].burstTime <= fin.procs[i].completionTime
    {
      assert ProcInv(input, fin, i);
    }
    forall x
      ensures TimeOf(fin.trace, x) == BurstOf(input, x)
    {
      ExecComplete(fin.procs, input, fin.started, x);
    }
    PartialComplete(fin.procs, fin.finished, fin.started);
    FinalTimes(fin);
    FinalTurns(fin);
  }

  /** Once every process has started and finished, the times invariant
      says that each start time is where one of the process's slices
      starts, each completion time where one ends, and every slice lies
      between the two. */
  lemma {:induction false} FinalTimes(st: State)
    requires Shaped(st) && |st.owners| == |st.trace| && InRange(st.owners, |st.procs|)
    requires TimesInv(st)
    requires forall i :: 0 <= i < |st.procs| ==> st.started[i] && st.finished[i]
    ensures SliceTimes(st.procs, st.trace, st.owners)
  {
    forall k | 0 <= k < |st.trace|
      ensures st.trace[k].end <= st.procs[st.owners[k]].completionTime
    {
      assert st.finished[st.owners[k]];
    }
  }

  /** Once every process has finished, a process waiting at the end of a
      slice is one that had arrived and not yet completed, so the
      fairness invariant becomes `TakesTurns`; and the busy-processor
      invariant becomes `NeverIdle`. */
  lemma {:induction false} FinalTurns(st: State)
    requires Shaped(st) && |st.owners| == |st.trace| && InRange(st.owners, |st.procs|)
    requires TurnsInv(st) && BusyInv(st)
    requires forall i :: 0 <= i < |st.procs| ==> st.finished[i]
    ensures TakesTurns(st.procs, st.trace, st.owners) && NeverIdle(st.procs, st.trace)
  {
    forall k, l, j | 0 <= k < l < |st.trace| && st.owners[k] == st.owners[l] && 0 <= j < |st.procs| && j != st.owners[k] && st.procs[j].arrivalTime <= st.trace[k].end < st.procs[j].completionTime
      ensures RunsBetween(st.owners, k, l, j)
    {
      assert PendingAt(st, j, st.trace[k].end);
    }
  }

  /** With `MAX_N` processes all arriving at time zero, the admission at
      start-up queues every one of them. Pushed one by one into the
      source's circular buffer, that leaves `head == tail`, which the idle
      branch reads as an empty queue. */
  lemma {:induction false} FullAdmission(input: seq<Process>)
    requires |input| == MAX_N
    requires forall i :: 0 <= i < |input| ==> input[i].arrivalTime == 0
    ensures |Admit(Init(input)).queue| == MAX_N
    ensures LooksEmpty(PushAll(EmptyRing(), Admit(Init(input)).queue))
  {
    var st := Init(input);
    InitialQueue(st);
    FullArrivals(st);
    FullRingLooksEmpty(Arrivals(st, 0));
  }

  /** The start-up admission queues exactly the scan's arrivals. */
  lemma {:induction false} InitialQueue(st: State)
    requires Shaped(st) && st.queue == []
    ensures Admit(st).queue == Arrivals(st, 0)
  {
    assert Admit(st).queue == Admit(st).queue[|st.queue|..];
  }

  /** When every process is unseen and has arrived, the scan finds all
      of them. */
  lemma {:induction false} FullArrivals(st: State)
    requires Shaped(st)
    requires forall i :: 0 <= i < |st.procs| ==> !st.seen[i] && st.procs[i].arrivalTime <= st.cur
    ensures |Arrivals(st, 0)| == |st.procs|
  {
    var a := Arrivals(st, 0);
    var n := |st.procs|;
    assert Distinct(a);
    forall x | 0 <= x < n
      ensures x in a
    {
      assert !st.seen[x] && st.procs[x].arrivalTime <= st.cur;
    }
    Covering(a, n);
  }

  /** The whole simulation: admission at time zero, then the main loop. */
  function Simulate(input: seq<Process>, q: int): (fin: State)
    requires RrInput(input, q)
    ensures FinalFacts(input, q, fin)
  {
    StartKeepsInv(input, q);
    var fin := Loop(input, q, Admit(Init(input)));
    Finished(input, q, fin);
    fin
  }

  /** The round-robin entry point. Every process completes, having
      started no earlier than it arrived and completed no earlier than a
      full burst after it started, so its waiting time is non-negative;
      every slice lasts between one tick and one quantum, the slices
      follow one another in time, and each pid receives exactly the burst
      time of its processes; the slices can be assigned to the processes
      so that only a process's last slice is shorter than the quantum,
      such a slice ends at its completion, and each process's start and
      completion times are the start of its first slice and the end of its
      last; between two slices of one process, every other process waiting
      when the first ended runs a slice; the processor never idles while a
      process waits; the reported sums are those of the final times. */
  method RrMetrics(proc: seq<Process>, n: int, q: int) returns (r: Outcome)
    requires Admissible(proc, n) && q > 0
    requires forall i :: 0 <= i < n ==> proc[i].remainingTime == 0 || proc[i].remainingTime == proc[i].burstTime
    ensures |r.procs| == n
    ensures forall i :: 0 <= i < n ==> SameJob(r.procs[i], proc[i]) && r.procs[i].remainingTime == 0
    ensures forall i :: 0 <= i < n ==>
      && proc[i].arrivalTime <= r.procs[i].startTime
      && r.procs[i].startTime + proc[i].burstTime <= r.procs[i].completionTime
      && Response(r.procs[i]) >= 0 && Waiting(r.procs[i]) >= 0
    ensures forall k :: 0 <= k < |r.trace| ==> 0 < Length(r.trace[k]) <= q
    ensures Chronological(r.trace)
    ensures forall x :: TimeOf(r.trace, x) == BurstOf(proc[..n], x)
    ensures r.totals == TotalsOf(r.procs)
    ensures exists owners ::
      FullQuanta(r.procs, r.trace, q, owners) && SliceTimes(r.procs, r.trace, owners) && TakesTurns(r.procs, r.trace, owners)
    ensures NeverIdle(r.procs, r.trace)
  {
    var p := Clone(proc, n);
    assert p == proc[..n];
    r := Report(p, q);
    forall i | 0 <= i < n
      ensures SameJob(r.procs[i], proc[i])
      ensures proc[i].arrivalTime <= r.procs[i].startTime
      ensures r.procs[i].startTime + proc[i].burstTime <= r.procs[i].completionTime
    {
      assert p[i] == proc[i];
    }
  }

  /** The reported outcome of a simulation: the final records, the trace
      and the sums, with what the final facts say about them. */
  function Report(input: seq<Process>, q: int): (r: Outcome)
    requires RrInput(input, q)
    ensures |r.procs| == |input|
    ensures forall i :: 0 <= i < |input| ==> SameJob(r.procs[i], input[i]) && r.procs[i].remainingTime == 0
    ensures forall i :: 0 <= i < |input| ==>
      && input[i].arrivalTime <= r.procs[i].startTime
      && r.procs[i].startTime + input[i].burstTime <= r.procs[i].completionTime
      && Response(r.procs[i]) >= 0 && Waiting(r.procs[i]) >= 0
    ensures forall k :: 0 <= k < |r.trace| ==> 0 < Length(r.trace[k]) <= q
    ensures Chronological(r.trace)
    ensures forall x :: TimeOf(r.trace, x) == BurstOf(input, x)
    ensures r.totals == TotalsOf(r.procs)
    ensures NeverIdle(r.procs, r.trace)
    ensures exists owners ::
      FullQuanta(r.procs, r.trace, q, owners) && SliceTimes(r.procs, r.trace, owners) && TakesTurns(r.procs, r.trace, owners)
  {
    var fin := Simulate(input, q);
    Reported(input, q, fin);
    Outcome(fin.procs, fin.trace, fin.totals)
  }

  /** The final facts, read as what the entry point reports: the times
      give non-negative response and waiting times, and the owners the
      final state kept witness the assignment of slices. */
  lemma {:induction false} Reported(input: seq<Process>, q: int, fin: State)
    requires FinalFacts(input, q, fin)
    ensures |fin.procs| == |input|
    ensures forall i :: 0 <= i < |input| ==> SameJob(fin.procs[i], input[i]) && fin.procs[i].remainingTime == 0
    ensures forall i :: 0 <= i < |input| ==>
      && input[i].arrivalTime <= fin.procs[i].startTime
      && fin.procs[i].startTime + input[i].burstTime <= fin.procs[i].completionTime
      && Response(fin.procs[i]) >= 0 && Waiting(fin.procs[i]) >= 0
    ensures forall k :: 0 <= k < |fin.trace| ==> 0 < Length(fin.trace[k]) <= q
    ensures Chronological(fin.trace)
    ensures forall x :: TimeOf(fin.trace, x) == BurstOf(input, x)
    ensures fin.totals == TotalsOf(fin.procs)
    ensures NeverIdle(fin.procs, fin.trace)
    ensures exists owners ::
      FullQuanta(fin.procs, fin.trace, q, owners) && SliceTimes(fin.procs, fin.trace, owners) && TakesTurns(fin.procs, fin.trace, owners)
  {
    assert FullQuanta(fin.procs, fin.trace, q, fin.owners) && SliceTimes(fin.procs, fin.trace, fin.owners);
    assert TakesTurns(fin.procs, fin.trace, fin.owners);
  }
}
