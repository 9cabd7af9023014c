/** Non-preemptive shortest-job-first: at every decision point the
    arrived, unfinished process with the smallest (burst, arrival, pid)
    runs to completion; when none has arrived the clock ticks by one. */
module Sjf {
  import opened Processes
  import opened Accounting
  import opened Traces

  /** `a` is strictly preferred to `b`: shorter burst, then earlier
      arrival, then smaller pid. */
  predicate Precedes(a: Process, b: Process)
  {
    || a.burstTime < b.burstTime
    || (a.burstTime == b.burstTime &&
        (a.arrivalTime < b.arrivalTime || (a.arrivalTime == b.arrivalTime && a.pid < b.pid)))
  }

  /** `Precedes` is a strict total order on (burst, arrival, pid) keys:
      never both ways, always one way between different keys, and
      transitive. */
  lemma {:induction false} PrecedesOrder(a: Process, b: Process, c: Process)
    ensures Precedes(a, b) ==> !Precedes(b, a)
    ensures (a.burstTime, a.arrivalTime, a.pid) != (b.burstTime, b.arrivalTime, b.pid) ==>
      Precedes(a, b) || Precedes(b, a)
    ensures Precedes(a, b) && Precedes(b, c) ==> Precedes(a, c)
  {
  }

  /** Process `i` has arrived by `cur` and is not finished. */
  predicate Eligible(ps: seq<Process>, done: seq<bool>, cur: int, i: int)
    requires |ps| == |done|
  {
    0 <= i < |ps| && !done[i] && ps[i].arrivalTime <= cur
  }

  /** Among the first `bound` processes, `idx` is the one the selection
      scan keeps: it is eligible, strictly preferred to every eligible
      process before it, and no eligible process after it is strictly
      preferred to it (ties keep the earlier index). */
  predicate ChoiceUpTo(ps: seq<Process>, done: seq<bool>, cur: int, idx: int, bound: int)
    requires |ps| == |done|
  {
    && 0 <= idx < bound <= |ps|
    && Eligible(ps, done, cur, idx)
    && forall j :: 0 <= j < bound && Eligible(ps, done, cur, j) ==>
         (j < idx ==> Precedes(ps[idx], ps[j])) && (idx < j ==> !Precedes(ps[j], ps[idx]))
  }

  /** The process SJF must dispatch at clock `cur`. */
  predicate IsChoice(ps: seq<Process>, done: seq<bool>, cur: int, idx: int)
    requires |ps| == |done|
  {
    ChoiceUpTo(ps, done, cur, idx, |ps|)
  }

  /** The selection scan from index `i` on, `idx` being the best so far
      (-1 for none): a finished or not yet arrived process is skipped, and
      the best is replaced only by a strictly preferred one. */
  function SelectFrom(ps: seq<Process>, done: seq<bool>, cur: int, i: int, idx: int): (r: int)
    requires |ps| == |done| && 0 <= i <= |ps|
    requires idx == -1 || ChoiceUpTo(ps, done, cur, idx, i)
    requires idx == -1 ==> forall j :: 0 <= j < i ==> !Eligible(ps, done, cur, j)
    ensures r == -1 || IsChoice(ps, done, cur, r)
    ensures r == -1 <==> forall j :: 0 <= j < |ps| ==> !Eligible(ps, done, cur, j)
    decreases |ps| - i
  {
    if i == |ps| then idx
    else if done[i] || ps[i].arrivalTime > cur then SelectFrom(ps, done, cur, i + 1, idx)
    else if idx == -1 || Precedes(ps[i], ps[idx]) then SelectFrom(ps, done, cur, i + 1, i)
    else SelectFrom(ps, done, cur, i + 1, idx)
  }

  /** One selection scan. It answers -1 exactly when no unfinished process
      has arrived, and otherwise the process SJF must dispatch. */
  function Select(ps: seq<Process>, done: seq<bool>, cur: int): (r: int)
    requires |ps| == |done|
    ensures r == -1 || IsChoice(ps, done, cur, r)
    ensures r == -1 <==> forall j :: 0 <= j < |ps| ==> !Eligible(ps, done, cur, j)
  {
    SelectFrom(ps, done, cur, 0, -1)
  }

  /** At most one process meets the selection rule, so the scan's answer
      is the only correct one. */
  lemma {:induction false} ChoiceUnique(ps: seq<Process>, done: seq<bool>, cur: int, a: int, b: int)
    requires |ps| == |done|
    requires IsChoice(ps, done, cur, a) && IsChoice(ps, done, cur, b)
    ensures a == b
  {
  }

  /** The simulation state: the private copy, the `done` flags, the count
      of finished processes, the clock, and what has been emitted so far. */
  datatype State = State(
    procs: seq<Process>,
    done: seq<bool>,
    finished: int,
    cur: int,
    trace: seq<Segment>,
    totals: Totals)

  /** The one segment a non-preemptive run gives a process. */
  function SegOf(p: Process): Segment
  {
    Segment(p.pid, p.startTime, p.completionTime)
  }

  /** The segments of the processes flagged done. */
  function DoneSegments(ps: seq<Process>, done: seq<bool>): (m: multiset<Segment>)
    requires |ps| == |done|
    ensures |m| == Count(done)
  {
    if |ps| == 0 then multiset{}
    else (if done[0] then multiset{SegOf(ps[0])} else multiset{}) + DoneSegments(ps[1..], done[1..])
  }

  /** The segments of all processes. */
  function AllSegments(ps: seq<Process>): (m: multiset<Segment>)
    ensures |m| == |ps|
    ensures forall i :: 0 <= i < |ps| ==> SegOf(ps[i]) in m
  {
    if |ps| == 0 then multiset{}
    else
      var m := multiset{SegOf(ps[0])} + AllSegments(ps[1..]);
      assert forall i :: 1 <= i < |ps| ==> ps[i] == ps[1..][i - 1];
      m
  }

  lemma {:induction false} DoneSegmentsUpdate(ps: seq<Process>, done: seq<bool>, k: int, p: Process)
    requires |ps| == |done| && 0 <= k < |ps| && !done[k]
    ensures DoneSegments(ps[k := p], done[k := true]) == DoneSegments(ps, done) + multiset{SegOf(p)}
    decreases |ps|
  {
    var ps', done' := ps[k := p], done[k := true];
    var tail := DoneSegments(ps[1..], done[1..]);
    if k == 0 {
      assert ps'[1..] == ps[1..] && done'[1..] == done[1..];
      assert DoneSegments(ps', done') == multiset{SegOf(p)} + tail;
      assert DoneSegments(ps, done) == tail;
    } else {
      var head := if done[0] then multiset{SegOf(ps[0])} else multiset{};
      assert ps'[1..] == ps[1..][k - 1 := p] && done'[1..] == done[1..][k - 1 := true];
      DoneSegmentsUpdate(ps[1..], done[1..], k - 1, p);
      assert DoneSegments(ps', done') == head + (tail + multiset{SegOf(p)});
      assert DoneSegments(ps, done) == head + tail;
    }
  }

  lemma {:induction false} DoneSegmentsNone(ps: seq<Process>, done: seq<bool>)
    requires |ps| == |done|
    requires forall i :: 0 <= i < |done| ==> !done[i]
    ensures DoneSegments(ps, done) == multiset{}
    decreases |ps|
  {
    if |ps| > 0 {
      DoneSegmentsNone(ps[1..], done[1..]);
    }
  }

  lemma {:induction false} DoneSegmentsAll(ps: seq<Process>, done: seq<bool>)
    requires |ps| == |done|
    requires forall i :: 0 <= i < |done| ==> done[i]
    ensures DoneSegments(ps, done) == AllSegments(ps)
    decreases |ps|
  {
    if |ps| > 0 {
      DoneSegmentsAll(ps[1..], done[1..]);
    }
  }

  /** A finished process ran from its start, no earlier than its arrival,
      for exactly its burst, and completed by `cur`. */
  predicate Ran(p: Process, cur: int)
  {
    p.arrivalTime <= p.startTime && p.completionTime == p.startTime + p.burstTime && p.completionTime <= cur
  }

  /** The selection rule, seen from the records: whenever a finished
      process `i` was dispatched, no other process that had arrived by
      then and was still waiting (unfinished, or dispatched later) was
      strictly preferred to it. */
  predicate ShortestFirst(input: seq<Process>, ps: seq<Process>, done: seq<bool>)
    requires |ps| == |done| == |input|
  {
    forall i, j :: 0 <= i < |input| && 0 <= j < |input| && i != j && done[i]
      && input[j].arrivalTime <= ps[i].startTime
      && (!done[j] || ps[i].startTime < ps[j].startTime)
      ==> !Precedes(input[j], input[i])
  }

  /** Some process completes at time `t`. */
  predicate CompletesAt(ps: seq<Process>, t: int)
  {
    exists m :: 0 <= m < |ps| && ps[m].completionTime == t
  }

  /** Some finished process completed at time `t`. */
  predicate FreedAt(ps: seq<Process>, done: seq<bool>, t: int)
    requires |ps| == |done|
  {
    exists m :: 0 <= m < |ps| && done[m] && ps[m].completionTime == t
  }

  /** The processor never idles while a process waits: whenever a
      finished process started after another process (or itself) had
      arrived and before that one completed, some finished process
      completed at that very moment, so the processor was busy until then. */
  predicate NoIdle(input: seq<Process>, ps: seq<Process>, done: seq<bool>)
    requires |ps| == |done| == |input|
  {
    forall i, j :: 0 <= i < |input| && 0 <= j < |input| && done[i]
      && input[j].arrivalTime < ps[i].startTime
      && (!done[j] || ps[i].startTime < ps[j].completionTime)
      ==> FreedAt(ps, done, ps[i].startTime)
  }

  /** What holds at the top of every iteration of the main loop, for the
      private copy `input` made at entry. */
  predicate Inv(input: seq<Process>, st: State)
  {
    && |st.procs| == |st.done| == |input|
    && st.cur >= 0
    && st.finished == Count(st.done)
    && (forall i :: 0 <= i < |input| ==>
          st.procs[i] == input[i].(startTime := st.procs[i].startTime, completionTime := st.procs[i].completionTime))
    && (forall i :: 0 <= i < |input| && !st.done[i] ==> st.procs[i] == input[i])
    && (forall i :: 0 <= i < |input| && st.done[i] ==> Ran(st.procs[i], st.cur))
    && st.totals == Partial(st.procs, st.done, st.done)
    && multiset(st.trace) == DoneSegments(st.procs, st.done)
    && Chronological(st.trace)
    && (forall k :: 0 <= k < |st.trace| ==> Length(st.trace[k]) > 0)
    && (|st.trace| > 0 ==> st.trace[|st.trace| - 1].end <= st.cur)
    && ShortestFirst(input, st.procs, st.done)
    && NoIdle(input, st.procs, st.done)
    && (FreedAt(st.procs, st.done, st.cur) ||
        forall j :: 0 <= j < |input| && !st.done[j] ==> st.cur <= input[j].arrivalTime)
  }

  /** `r` is `st` after dispatching process `i` at the current clock: it
      starts now, completes a burst later, is flagged done and emits its one
      segment; nothing else changes. */
  predicate Dispatched(st: State, r: State, i: int)
    requires 0 <= i < |st.procs| == |st.done|
  {
    var p := st.procs[i];
    var q := p.(startTime := st.cur, completionTime := st.cur + p.burstTime);
    && r.procs == st.procs[i := q]
    && r.done == st.done[i := true]
    && r.finished == st.finished + 1
    && r.cur == st.cur + p.burstTime
    && r.trace == st.trace + [SegOf(q)]
  }

  /** One iteration of the main loop. Either no unfinished process has
      arrived and the clock advances by exactly one with nothing else
      changing, or the process the selection rule demands is dispatched and
      finished. */
  function Step(st: State): (r: State)
    requires |st.procs| == |st.done|
    ensures || (r == st.(cur := st.cur + 1) &&
                forall j :: 0 <= j < |st.procs| ==> !Eligible(st.procs, st.done, st.cur, j))
            || (exists i :: IsChoice(st.procs, st.done, st.cur, i) && Dispatched(st, r, i))
  {
    var idx := Select(st.procs, st.done, st.cur);
    if idx == -1 then
      st.(cur := st.cur + 1)
    else
      var p := st.procs[idx];
      var q := p.(startTime := st.cur, completionTime := st.cur + p.burstTime);
      var tat := q.completionTime - q.arrivalTime;
      var wt := q.startTime - q.arrivalTime;
      var rt := wt;
      var r := State(st.procs[idx := q], st.done[idx := true], st.finished + 1, q.completionTime,
                     st.trace + [Segment(q.pid, q.startTime, q.completionTime)],
                     Totals(st.totals.turnaround + tat, st.totals.waiting + wt, st.totals.response + rt));
      assert Dispatched(st, r, idx);
      r
  }

  /** An idle iteration keeps the invariant and brings the clock one step
      closer to the last arrival. */
  lemma {:induction false} IdleKeepsInv(input: seq<Process>, st: State)
    requires ValidJobs(input) && Inv(input, st) && st.finished < |input|
    requires Select(st.procs, st.done, st.cur) == -1
    ensures Inv(input, Step(st))
    ensures Step(st).finished == st.finished && Gap(input, Step(st).cur) < Gap(input, st.cur)
  {
    assert Step(st) == st.(cur := st.cur + 1);
    TickKeepsInv(input, st);
    IdleProgress(input, st);
  }

  /** Advancing the clock alone, when no unfinished process has arrived,
      keeps the invariant. */
  lemma {:induction false} TickKeepsInv(input: seq<Process>, st: State)
    requires Inv(input, st)
    requires forall j :: 0 <= j < |input| ==> !Eligible(st.procs, st.done, st.cur, j)
    ensures Inv(input, st.(cur := st.cur + 1))
  {
    var r := st.(cur := st.cur + 1);
    assert r.procs == st.procs && r.done == st.done && r.trace == st.trace && r.totals == st.totals;
    forall j | 0 <= j < |input| && !r.done[j]
      ensures r.cur <= input[j].arrivalTime
    {
      assert !Eligible(st.procs, st.done, st.cur, j);
    }
    forall j | 0 <= j < |input| && r.done[j]
      ensures Ran(r.procs[j], r.cur)
    {
      assert Ran(st.procs[j], st.cur);
    }
  }

  /** When nothing is eligible yet something is unfinished, that process
      has not arrived, so the clock is short of the last arrival. */
  lemma {:induction false} IdleProgress(input: seq<Process>, st: State)
    requires Inv(input, st) && st.finished < |input|
    requires Select(st.procs, st.done, st.cur) == -1
    ensures Gap(input, st.cur + 1) < Gap(input, st.cur)
  {
    CountFull(st.done);
    var i :| 0 <= i < |st.done| && !st.done[i];
    assert !Eligible(st.procs, st.done, st.cur, i);
    assert input[i].arrivalTime <= MaxArrival(input);
  }

  /** A dispatching iteration keeps the invariant and finishes one more
      process. */
  lemma {:induction false} DispatchKeepsInv(input: seq<Process>, st: State)
    requires ValidJobs(input) && Inv(input, st)
    requires Select(st.procs, st.done, st.cur) != -1
    ensures Inv(input, Step(st))
    ensures Step(st).finished == st.finished + 1
  {
    var idx := Select(st.procs, st.done, st.cur);
    assert Dispatched(st, Step(st), idx) by {
      var i :| IsChoice(st.procs, st.done, st.cur, i) && Dispatched(st, Step(st), i);
      ChoiceUnique(st.procs, st.done, st.cur, i, idx);
    }
    DispatchedSums(input, st, Step(st), idx);
    DispatchedInv(input, st, Step(st), idx);
  }

  /** Dispatching the process the selection rule picks, with the sums
      kept, keeps the invariant. */
  lemma {:induction false} DispatchedInv(input: seq<Process>, st: State, r: State, idx: int)
    requires ValidJobs(input) && Inv(input, st)
    requires IsChoice(st.procs, st.done, st.cur, idx) && Dispatched(st, r, idx)
    requires r.totals == Partial(r.procs, r.done, r.done)
    ensures Inv(input, r)
  {
    DispatchedProcs(input, st, r, idx);
    DispatchedTrace(input, st, r, idx);
    DoneBy(input, st);
    DispatchedOrder(input, st, r, idx);
    DispatchedBusy(input, st, r, idx);
  }

  /** A dispatch keeps the processor busy: the dispatched process
      completes at the new clock, and if it starts after some process
      still waiting had arrived, the clock was reached by an earlier
      completion, not by an idle tick. */
  lemma {:induction false} DispatchedBusy(input: seq<Process>, st: State, r: State, idx: int)
    requires |st.procs| == |st.done| == |input|
    requires forall j :: 0 <= j < |input| && st.done[j] ==> st.procs[j].completionTime <= st.cur
    requires NoIdle(input, st.procs, st.done)
    requires FreedAt(st.procs, st.done, st.cur) ||
             forall j :: 0 <= j < |input| && !st.done[j] ==> st.cur <= input[j].arrivalTime
    requires 0 <= idx < |input| && !st.done[idx] && Dispatched(st, r, idx)
    ensures NoIdle(input, r.procs, r.done)
    ensures FreedAt(r.procs, r.done, r.cur)
  {
    assert r.done[idx] && r.procs[idx].completionTime == r.cur;
    forall i, j | 0 <= i < |input| && 0 <= j < |input| && r.done[i]
      && input[j].arrivalTime < r.procs[i].startTime
      && (!r.done[j] || r.procs[i].startTime < r.procs[j].completionTime)
      ensures FreedAt(r.procs, r.done, r.procs[i].startTime)
    {
      var t := r.procs[i].startTime;
      if i == idx {
        assert !st.done[j] && input[j].arrivalTime < st.cur;
      } else {
        assert st.done[i] && st.procs[i] == r.procs[i];
      }
      FreedKept(st, r, idx, t);
    }
  }

  /** A dispatch keeps every earlier completion on record. */
  lemma {:induction false} FreedKept(st: State, r: State, idx: int, t: int)
    requires 0 <= idx < |st.procs| == |st.done| && !st.done[idx] && Dispatched(st, r, idx)
    requires FreedAt(st.procs, st.done, t)
    ensures FreedAt(r.procs, r.done, t)
  {
    var m :| 0 <= m < |st.procs| && st.done[m] && st.procs[m].completionTime == t;
    assert r.done[m] && r.procs[m] == st.procs[m];
  }

  /** Every finished process started before the clock and completed by it. */
  lemma {:induction false} DoneBy(input: seq<Process>, st: State)
    requires ValidJobs(input) && Inv(input, st)
    ensures forall j :: 0 <= j < |input| && st.done[j] ==>
      st.procs[j].startTime < st.procs[j].completionTime <= st.cur
  {
    forall j | 0 <= j < |input| && st.done[j]
      ensures st.procs[j].startTime < st.procs[j].completionTime <= st.cur
    {
      assert Ran(st.procs[j], st.cur);
    }
  }

  /** Dispatching the rule's choice keeps the selection rule in the
      records: nothing eligible now is preferred to the choice, and every
      process finished earlier started before the clock, so the choice
      joins their "waiting" side. */
  lemma {:induction false} DispatchedOrder(input: seq<Process>, st: State, r: State, idx: int)
    requires |st.procs| == |st.done| == |input|
    requires forall i :: 0 <= i < |input| && !st.done[i] ==> st.procs[i] == input[i]
    requires forall j :: 0 <= j < |input| && st.done[j] ==> st.procs[j].startTime < st.cur
    requires ShortestFirst(input, st.procs, st.done)
    requires IsChoice(st.procs, st.done, st.cur, idx) && Dispatched(st, r, idx)
    ensures ShortestFirst(input, r.procs, r.done)
  {
    forall i, j | 0 <= i < |input| && 0 <= j < |input| && i != j && r.done[i]
      && input[j].arrivalTime <= r.procs[i].startTime
      && (!r.done[j] || r.procs[i].startTime < r.procs[j].startTime)
      ensures !Precedes(input[j], input[i])
    {
      if i == idx {
        assert Eligible(st.procs, st.done, st.cur, j);
      }
    }
  }

  /** After a dispatch of an eligible process, the per-process facts
      still hold. */
  lemma {:induction false} DispatchedProcs(input: seq<Process>, st: State, r: State, idx: int)
    requires ValidJobs(input) && Inv(input, st)
    requires Eligible(st.procs, st.done, st.cur, idx) && Dispatched(st, r, idx)
    ensures |r.procs| == |r.done| == |input| && r.cur >= 0 && r.finished == Count(r.done)
    ensures forall i :: 0 <= i < |input| ==>
      r.procs[i] == input[i].(startTime := r.procs[i].startTime, completionTime := r.procs[i].completionTime)
    ensures forall i :: 0 <= i < |input| && !r.done[i] ==> r.procs[i] == input[i]
    ensures forall i :: 0 <= i < |input| && r.done[i] ==> Ran(r.procs[i], r.cur)
  {
    assert st.procs[idx] == input[idx];
    CountSet(st.done, idx);
    forall i | 0 <= i < |input| && r.done[i]
      ensures Ran(r.procs[i], r.cur)
    {
      if i != idx {
        assert Ran(st.procs[i], st.cur);
      }
    }
  }

  /** After a dispatch, the running sums are those of the finished
      processes. */
  lemma {:induction false} DispatchedSums(input: seq<Process>, st: State, r: State, idx: int)
    requires Inv(input, st)
    requires Eligible(st.procs, st.done, st.cur, idx) && Dispatched(st, r, idx)
    requires idx == Select(st.procs, st.done, st.cur) && r == Step(st)
    ensures r.totals == Partial(r.procs, r.done, r.done)
  {
    var q := r.procs[idx];
    assert r.totals == Totals(st.totals.turnaround + Turnaround(q), st.totals.waiting + Waiting(q),
                              st.totals.response + Response(q));
    MaskedSumUpdate(st.procs, st.done, idx, q, true, TurnaroundIf);
    MaskedSumUpdate(st.procs, st.done, idx, q, true, WaitingIf);
    MaskedSumUpdate(st.procs, st.done, idx, q, true, ResponseIf);
  }

  /** After a dispatch, the trace holds the finished processes' segments,
      in time order, each non-empty, the last ending no later than the
      clock. */
  lemma {:induction false} DispatchedTrace(input: seq<Process>, st: State, r: State, idx: int)
    requires ValidJobs(input) && |st.procs| == |st.done| == |input|
    requires 0 <= idx < |input| && !st.done[idx] && st.procs[idx] == input[idx] && Dispatched(st, r, idx)
    requires multiset(st.trace) == DoneSegments(st.procs, st.done) && Chronological(st.trace)
    requires forall k :: 0 <= k < |st.trace| ==> Length(st.trace[k]) > 0
    requires |st.trace| > 0 ==> st.trace[|st.trace| - 1].end <= st.cur
    ensures multiset(r.trace) == DoneSegments(r.procs, r.done)
    ensures Chronological(r.trace)
    ensures forall k :: 0 <= k < |r.trace| ==> Length(r.trace[k]) > 0
    ensures |r.trace| > 0 ==> r.trace[|r.trace| - 1].end <= r.cur
  {
    var q := r.procs[idx];
    DoneSegmentsUpdate(st.procs, st.done, idx, q);
    assert multiset(r.trace) == multiset(st.trace) + multiset{SegOf(q)};
    ChronologicalAppend(st.trace, SegOf(q));
    forall k | 0 <= k < |r.trace|
      ensures Length(r.trace[k]) > 0
    {
      if k < |st.trace| {
        assert r.trace[k] == st.trace[k];
      }
    }
  }

  /** An iteration keeps the invariant, and either finishes one more
      process or brings the clock one step closer to the last arrival. */
  lemma {:induction false} StepKeepsInv(input: seq<Process>, st: State)
    requires ValidJobs(input) && Inv(input, st) && st.finished < |input|
    ensures Inv(input, Step(st))
    ensures Step(st).finished > st.finished
         || (Step(st).finished == st.finished && Gap(input, Step(st).cur) < Gap(input, st.cur))
  {
    if Select(st.procs, st.done, st.cur) == -1 {
      IdleKeepsInv(input, st);
    } else {
      DispatchKeepsInv(input, st);
    }
  }

  /** The main loop: iterate until every process is finished. */
  function Loop(input: seq<Process>, st: State): (r: State)
    requires |input| > 0 && ValidJobs(input) && Inv(input, st)
    ensures Inv(input, r) && r.finished == |input|
    decreases |input| - st.finished, Gap(input, st.cur)
  {
    if st.finished >= |input| then st
    else
      StepKeepsInv(input, st);
      Loop(input, Step(st))
  }

  /** The state before the first iteration: nothing done, clock at zero. */
  function Init(input: seq<Process>): (st: State)
    requires ValidJobs(input)
    ensures Inv(input, st)
  {
    var done := seq(|input|, _ => false);
    CountEmpty(done);
    PartialEmpty(input, done, done);
    DoneSegmentsNone(input, done);
    State(input, done, 0, 0, [], Totals(0, 0, 0))
  }

  /** The SJF entry point. Every process in the private copy ends up run
      exactly once, in a single segment that starts no earlier than its
      arrival and lasts its burst; the trace holds exactly these segments,
      in time order; and the reported sums are those of the final times.
      The schedule follows the rule: no process that had arrived when
      another started, and started later itself, is preferred to it; and
      a start that keeps an arrived, unfinished process waiting falls at
      some process's completion, so the processor never idles while a
      process waits. */
  method SjfMetrics(proc: seq<Process>, n: int) returns (r: Outcome)
    requires Admissible(proc, n)
    ensures |r.procs| == n == |r.trace|
    ensures forall i :: 0 <= i < n ==>
      r.procs[i] == proc[i].(startTime := r.procs[i].startTime, completionTime := r.procs[i].completionTime)
    ensures forall i :: 0 <= i < n ==>
      && proc[i].arrivalTime <= r.procs[i].startTime
      && r.procs[i].completionTime == r.procs[i].startTime + proc[i].burstTime
      && Waiting(r.procs[i]) == Response(r.procs[i]) >= 0
    ensures multiset(r.trace) == AllSegments(r.procs)
    ensures Chronological(r.trace)
    ensures r.totals == TotalsOf(r.procs)
    ensures forall i, j ::
              0 <= i < n && 0 <= j < n && proc[j].arrivalTime <= r.procs[i].startTime < r.procs[j].startTime
              ==> !Precedes(proc[j], proc[i])
    ensures forall i, j ::
              0 <= i < n && 0 <= j < n && proc[j].arrivalTime < r.procs[i].startTime < r.procs[j].completionTime
              ==> CompletesAt(r.procs, r.procs[i].startTime)
  {
    var p := Clone(proc, n);
    assert p == proc[..n];
    r := Report(p);
    forall i | 0 <= i < n
      ensures r.procs[i] == proc[i].(startTime := r.procs[i].startTime, completionTime := r.procs[i].completionTime)
      ensures proc[i].arrivalTime <= r.procs[i].startTime
      ensures r.procs[i].completionTime == r.procs[i].startTime + proc[i].burstTime
    {
      assert p[i] == proc[i];
    }
    forall i, j | 0 <= i < n && 0 <= j < n
      ensures proc[j].arrivalTime <= r.procs[i].startTime < r.procs[j].startTime ==> !Precedes(proc[j], proc[i])
      ensures proc[j].arrivalTime < r.procs[i].startTime < r.procs[j].completionTime ==> CompletesAt(r.procs, r.procs[i].startTime)
    {
      assert p[i] == proc[i] && p[j] == proc[j];
    }
  }

  /** The reported outcome of a simulation: the final records, the trace
      and the sums, with what the final facts say about them. */
  function Report(input: seq<Process>): (r: Outcome)
    requires |input| > 0 && ValidJobs(input)
    ensures |r.procs| == |input| == |r.trace|
    ensures forall i :: 0 <= i < |input| ==>
      r.procs[i] == input[i].(startTime := r.procs[i].startTime, completionTime := r.procs[i].completionTime)
    ensures forall i :: 0 <= i < |input| ==>
      && input[i].arrivalTime <= r.procs[i].startTime
      && r.procs[i].completionTime == r.procs[i].startTime + input[i].burstTime
      && Waiting(r.procs[i]) == Response(r.procs[i]) >= 0
    ensures multiset(r.trace) == AllSegments(r.procs)
    ensures Chronological(r.trace)
    ensures r.totals == TotalsOf(r.procs)
    ensures forall i, j :: 0 <= i < |input| && 0 <= j < |input|
              && input[j].arrivalTime <= r.procs[i].startTime < r.procs[j].startTime
              ==> !Precedes(input[j], input[i])
    ensures forall i, j :: 0 <= i < |input| && 0 <= j < |input|
              && input[j].arrivalTime < r.procs[i].startTime < r.procs[j].completionTime
              ==> CompletesAt(r.procs, r.procs[i].startTime)
  {
    var fin := Simulate(input);
    Outcome(fin.procs, fin.trace, fin.totals)
  }

  /** The whole simulation from the initial state, described by what holds
      once every process is done. */
  function Simulate(input: seq<Process>): (fin: State)
    requires |input| > 0 && ValidJobs(input)
    ensures FinalFacts(input, fin)
  {
    var fin := Loop(input, Init(input));
    Finished(input, fin);
    fin
  }

  /** What holds once every process is done: each ran once, in a single
      segment no earlier than its arrival; the trace holds exactly these
      segments in time order; the sums are those of the final records; no
      process preferred to another was kept waiting by it; and the
      processor never idled while a process waited. */
  ghost predicate FinalFacts(input: seq<Process>, fin: State)
  {
    && |fin.procs| == |input| == |fin.trace|
    && (forall i :: 0 <= i < |input| ==>
          fin.procs[i] == input[i].(startTime := fin.procs[i].startTime, completionTime := fin.procs[i].completionTime))
    && (forall i :: 0 <= i < |input| ==>
          && input[i].arrivalTime <= fin.procs[i].startTime
          && fin.procs[i].completionTime == fin.procs[i].startTime + input[i].burstTime
          && Waiting(fin.procs[i]) == Response(fin.procs[i]) >= 0)
    && multiset(fin.trace) == AllSegments(fin.procs)
    && Chronological(fin.trace)
    && fin.totals == TotalsOf(fin.procs)
    && (forall i, j :: 0 <= i < |input| && 0 <= j < |input|
          && input[j].arrivalTime <= fin.procs[i].startTime < fin.procs[j].startTime
          ==> !Precedes(input[j], input[i]))
    && (forall i, j :: 0 <= i < |input| && 0 <= j < |input|
          && input[j].arrivalTime < fin.procs[i].startTime < fin.procs[j].completionTime
          ==> CompletesAt(fin.procs, fin.procs[i].startTime))
  }

  /** The invariant with every process done gives the final facts. */
  lemma {:induction false} Finished(input: seq<Process>, fin: State)
    requires |fin.procs| == |fin.done| == |input| && fin.finished == Count(fin.done) == |input|
    requires forall i :: 0 <= i < |input| ==>
      fin.procs[i] == input[i].(startTime := fin.procs[i].startTime, completionTime := fin.procs[i].completionTime)
    requires forall i :: 0 <= i < |input| && fin.done[i] ==> Ran(fin.procs[i], fin.cur)
    requires fin.totals == Partial(fin.procs, fin.done, fin.done)
    requires multiset(fin.trace) == DoneSegments(fin.procs, fin.done) && Chronological(fin.trace)
    requires ShortestFirst(input, fin.procs, fin.done) && NoIdle(input, fin.procs, fin.done)
    ensures FinalFacts(input, fin)
  {
    CountFull(fin.done);
    FinalRecords(input, fin);
    FinalSchedule(input, fin.procs, fin.done);
  }

  /** With every process done, each record ran once, the trace holds
      exactly the records' segments and the sums are those of the records. */
  lemma {:induction false} FinalRecords(input: seq<Process>, fin: State)
    requires |fin.procs| == |fin.done| == |input|
    requires forall i :: 0 <= i < |fin.done| ==> fin.done[i]
    requires forall i :: 0 <= i < |input| && fin.done[i] ==> Ran(fin.procs[i], fin.cur)
    requires forall i :: 0 <= i < |input| ==>
      fin.procs[i] == input[i].(startTime := fin.procs[i].startTime, completionTime := fin.procs[i].completionTime)
    requires fin.totals == Partial(fin.procs, fin.done, fin.done)
    requires multiset(fin.trace) == DoneSegments(fin.procs, fin.done)
    ensures multiset(fin.trace) == AllSegments(fin.procs) && |fin.trace| == |input|
    ensures fin.totals == TotalsOf(fin.procs)
    ensures forall i :: 0 <= i < |input| ==>
      && input[i].arrivalTime <= fin.procs[i].startTime
      && fin.procs[i].completionTime == fin.procs[i].startTime + input[i].burstTime
      && Waiting(fin.procs[i]) == Response(fin.procs[i]) >= 0
  {
    assert multiset(fin.trace) == AllSegments(fin.procs) && |fin.trace| == |input| by {
      DoneSegmentsAll(fin.procs, fin.done);
      assert |multiset(fin.trace)| == |input|;
    }
    PartialComplete(fin.procs, fin.done, fin.done);
    forall i | 0 <= i < |input|
      ensures && input[i].arrivalTime <= fin.procs[i].startTime
              && fin.procs[i].completionTime == fin.procs[i].startTime + input[i].burstTime
              && Waiting(fin.procs[i]) == Response(fin.procs[i]) >= 0
    {
      assert Ran(fin.procs[i], fin.cur);
    }
  }

  /** With every process done, the two scheduling facts read off the
      records alone: nothing that waited past a dispatch was preferred to
      the dispatched process, and the processor was busy right up to any
      start that kept an arrived process waiting. */
  lemma {:induction false} FinalSchedule(input: seq<Process>, ps: seq<Process>, done: seq<bool>)
    requires |ps| == |done| == |input|
    requires forall i :: 0 <= i < |done| ==> done[i]
    requires ShortestFirst(input, ps, done) && NoIdle(input, ps, done)
    ensures forall i, j ::
              0 <= i < |input| && 0 <= j < |input| && input[j].arrivalTime <= ps[i].startTime < ps[j].startTime
              ==> !Precedes(input[j], input[i])
    ensures forall i, j ::
              0 <= i < |input| && 0 <= j < |input| && input[j].arrivalTime < ps[i].startTime < ps[j].completionTime
              ==> CompletesAt(ps, ps[i].startTime)
  {
    forall i, j | 0 <= i < |input| && 0 <= j < |input|
      && input[j].arrivalTime < ps[i].startTime < ps[j].completionTime
      ensures CompletesAt(ps, ps[i].startTime)
    {
      assert done[i] && done[j];
      var m :| 0 <= m < |ps| && done[m] && ps[m].completionTime == ps[i].startTime;
    }
  }
}
