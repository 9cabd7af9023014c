/** The three-process scenario: P1 arrives at 0 needing 5, P2 at 1 needing
    3, P3 at 2 needing 1; round robin runs with a quantum of 2. Each lemma
    pins down the complete trace and the integer sums (the source divides
    them by 3). The records are parameters constrained to the scenario's
    pid, arrival and burst, so the other fields may be anything the
    scheduler allows. */
module Scenario {
  import opened Processes
  import opened Accounting
  import opened Traces
  import Fcfs
  import Sjf
  import RoundRobin

  /** `a`, `b`, `c` are P1, P2 and P3 of the scenario. */
  predicate Jobs(a: Process, b: Process, c: Process)
  {
    && a.pid == 1 && a.arrivalTime == 0 && a.burstTime == 5
    && b.pid == 2 && b.arrivalTime == 1 && b.burstTime == 3
    && c.pid == 3 && c.arrivalTime == 2 && c.burstTime == 1
  }

  /** A sum over three records. */
  lemma {:induction false} Sum3(a: Process, b: Process, c: Process, f: Process -> int)
    ensures Sum([a, b, c], f) == f(a) + f(b) + f(c)
  {
    assert [a, b, c][1..] == [b, c];
    assert [b, c][1..] == [c];
    assert [c][1..] == [];
    assert Sum([c], f) == f(c);
    assert Sum([b, c], f) == f(b) + f(c);
  }

  /** The insertion sort leaves the scenario as it is: it is already in
      (arrival, pid) order. */
  lemma {:induction false} FcfsSortScenario(a: Process, b: Process, c: Process)
    requires Jobs(a, b, c)
    ensures Fcfs.SortByArrival([a, b, c]) == [a, b, c]
  {
    assert [a, b, c][..2] == [a, b];
    assert [a, b][..1] == [a];
    assert [a][..0] == [];
    assert Fcfs.SortByArrival([a]) == [a];
    assert Fcfs.SortByArrival([a, b]) == [a, b];
  }

  /** The FCFS run over the scenario: 0-5, 5-8, 8-9. */
  lemma {:induction false} FcfsRunScenario(a: Process, b: Process, c: Process)
    requires Jobs(a, b, c)
    ensures var r := Fcfs.Run([a, b, c], 0);
      r.procs == [a.(startTime := 0, completionTime := 5), b.(startTime := 5, completionTime := 8),
                  c.(startTime := 8, completionTime := 9)]
  {
    var r := Fcfs.Run([a, b, c], 0);
    assert r.procs[0].startTime == 0;
    assert r.procs[1].startTime == 5;
    assert r.procs[2].startTime == 8;
  }

  /** FCFS: P1 0-5, P2 5-8, P3 8-9; turnaround 5 + 7 + 7 and waiting =
      response 0 + 4 + 6. */
  lemma {:induction false} FcfsScenario(a: Process, b: Process, c: Process)
    requires Jobs(a, b, c)
    ensures var r := Fcfs.Run(Fcfs.SortByArrival([a, b, c]), 0);
      && r.trace == [Segment(1, 0, 5), Segment(2, 5, 8), Segment(3, 8, 9)]
      && r.totals == Totals(19, 10, 10)
  {
    FcfsSortScenario(a, b, c);
    var r := Fcfs.Run([a, b, c], 0);
    var a', b', c' := a.(startTime := 0, completionTime := 5), b.(startTime := 5, completionTime := 8),
                      c.(startTime := 8, completionTime := 9);
    assert r.procs == [a', b', c'] by {
      FcfsRunScenario(a, b, c);
    }
    assert r.trace == [Segment(1, 0, 5), Segment(2, 5, 8), Segment(3, 8, 9)] by {
      assert r.trace[0] == Segment(1, 0, 5) && r.trace[1] == Segment(2, 5, 8) && r.trace[2] == Segment(3, 8, 9);
    }
    assert r.totals == TotalsOf([a', b', c']);
    assert Sum([a', b', c'], Turnaround) == 19 by {
      Sum3(a', b', c', Turnaround);
      assert Turnaround(a') == 5 && Turnaround(b') == 7 && Turnaround(c') == 7;
    }
    assert Sum([a', b', c'], Waiting) == 10 by {
      Sum3(a', b', c', Waiting);
      assert Waiting(a') == 0 && Waiting(b') == 4 && Waiting(c') == 6;
    }
    assert Sum([a', b', c'], Response) == 10 by {
      Sum3(a', b', c', Response);
      assert Response(a') == 0 && Response(b') == 4 && Response(c') == 6;
    }
  }

  /** Once the selection rule names process `i`, an SJF iteration
      dispatches exactly that process. */
  lemma {:induction false} SjfDispatches(st: Sjf.State, i: int)
    requires |st.procs| == |st.done|
    requires Sjf.IsChoice(st.procs, st.done, st.cur, i)
    ensures Sjf.Dispatched(st, Sjf.Step(st), i)
  {
    assert Sjf.Eligible(st.procs, st.done, st.cur, i);
    var j :| Sjf.IsChoice(st.procs, st.done, st.cur, j) && Sjf.Dispatched(st, Sjf.Step(st), j);
    Sjf.ChoiceUnique(st.procs, st.done, st.cur, i, j);
  }

  /** SJF at time 0: only P1 has arrived; it runs 0-5. */
  lemma {:induction false} SjfFirst(a: Process, b: Process, c: Process)
    requires Jobs(a, b, c)
    ensures var s := Sjf.Step(Sjf.Init([a, b, c]));
      && s.procs == [a.(startTime := 0, completionTime := 5), b, c]
      && s.done == [true, false, false] && s.finished == 1 && s.cur == 5
      && s.trace == [Segment(1, 0, 5)]
  {
    var s0 := Sjf.Init([a, b, c]);
    assert s0.done == [false, false, false];
    assert Sjf.IsChoice(s0.procs, s0.done, 0, 0);
    SjfDispatches(s0, 0);
  }

  /** SJF at time 5: P2 (burst 3) and P3 (burst 1) wait; P3 runs 5-6. */
  lemma {:induction false} SjfSecond(a: Process, b: Process, c: Process, s: Sjf.State)
    requires Jobs(a, b, c)
    requires s.procs == [a.(startTime := 0, completionTime := 5), b, c]
    requires s.done == [true, false, false] && s.finished == 1 && s.cur == 5
    requires s.trace == [Segment(1, 0, 5)]
    ensures var r := Sjf.Step(s);
      && r.procs == [a.(startTime := 0, completionTime := 5), b, c.(startTime := 5, completionTime := 6)]
      && r.done == [true, false, true] && r.finished == 2 && r.cur == 6
      && r.trace == [Segment(1, 0, 5), Segment(3, 5, 6)]
  {
    assert Sjf.IsChoice(s.procs, s.done, 5, 2);
    SjfDispatches(s, 2);
  }

  /** SJF at time 6: only P2 is left; it runs 6-9. */
  lemma {:induction false} SjfThird(a: Process, b: Process, c: Process, s: Sjf.State)
    requires Jobs(a, b, c)
    requires s.procs == [a.(startTime := 0, completionTime := 5), b, c.(startTime := 5, completionTime := 6)]
    requires s.done == [true, false, true] && s.finished == 2 && s.cur == 6
    requires s.trace == [Segment(1, 0, 5), Segment(3, 5, 6)]
    ensures var r := Sjf.Step(s);
      && r.procs == [a.(startTime := 0, completionTime := 5), b.(startTime := 6, completionTime := 9),
                     c.(startTime := 5, completionTime := 6)]
      && r.finished == 3
      && r.trace == [Segment(1, 0, 5), Segment(3, 5, 6), Segment(2, 6, 9)]
  {
    assert Sjf.IsChoice(s.procs, s.done, 6, 1);
    SjfDispatches(s, 1);
  }

  /** The SJF main loop runs one more iteration while some process is
      unfinished. */
  lemma {:induction false} SjfUnfold(input: seq<Process>, st: Sjf.State)
    requires |input| > 0 && ValidJobs(input) && Sjf.Inv(input, st) && st.finished < |input|
    ensures Sjf.Inv(input, Sjf.Step(st)) && Sjf.Loop(input, st) == Sjf.Loop(input, Sjf.Step(st))
  {
    Sjf.StepKeepsInv(input, st);
  }

  /** The SJF run over the scenario: three dispatches, then the loop stops. */
  lemma {:induction false} SjfRunScenario(a: Process, b: Process, c: Process)
    requires Jobs(a, b, c)
    ensures var r := Sjf.Loop([a, b, c], Sjf.Init([a, b, c]));
      && r.procs == [a.(startTime := 0, completionTime := 5), b.(startTime := 6, completionTime := 9),
                     c.(startTime := 5, completionTime := 6)]
      && r.trace == [Segment(1, 0, 5), Segment(3, 5, 6), Segment(2, 6, 9)]
  {
    var input := [a, b, c];
    var s0 := Sjf.Init(input);
    SjfFirst(a, b, c);
    var s1 := Sjf.Step(s0);
    SjfSecond(a, b, c, s1);
    var s2 := Sjf.Step(s1);
    SjfThird(a, b, c, s2);
    var s3 := Sjf.Step(s2);
    SjfUnfold(input, s0);
    SjfUnfold(input, s1);
    SjfUnfold(input, s2);
  }

  /** SJF: P1 0-5, P3 5-6, P2 6-9; turnaround 5 + 8 + 4 and waiting =
      response 0 + 5 + 3. */
  lemma {:induction false} SjfScenario(a: Process, b: Process, c: Process)
    requires Jobs(a, b, c)
    ensures var r := Sjf.Loop([a, b, c], Sjf.Init([a, b, c]));
      && r.trace == [Segment(1, 0, 5), Segment(3, 5, 6), Segment(2, 6, 9)]
      && r.totals == Totals(17, 8, 8)
  {
    SjfRunScenario(a, b, c);
    var r := Sjf.Loop([a, b, c], Sjf.Init([a, b, c]));
    SjfSums(a, b, c, r.procs, r.done, r.totals);
  }

  /** The sums over the SJF records of the scenario. */
  lemma {:induction false} SjfSums(a: Process, b: Process, c: Process, ps: seq<Process>, done: seq<bool>, totals: Totals)
    requires Jobs(a, b, c)
    requires ps == [a.(startTime := 0, completionTime := 5), b.(startTime := 6, completionTime := 9),
                    c.(startTime := 5, completionTime := 6)]
    requires |done| == 3 && Count(done) == 3
    requires totals == Partial(ps, done, done)
    ensures totals == Totals(17, 8, 8)
  {
    CountFull(done);
    PartialComplete(ps, done, done);
    Sum3(ps[0], ps[1], ps[2], Turnaround);
    Sum3(ps[0], ps[1], ps[2], Waiting);
    Sum3(ps[0], ps[1], ps[2], Response);
  }

  // Round robin with a quantum of 2. The states at the top of each
  // iteration, named after the number of slices dispatched so far.

  function A1(a: Process): Process { a.(remainingTime := 3, startTime := 0) }
  function A2(a: Process): Process { a.(remainingTime := 1, startTime := 0) }
  function A3(a: Process): Process { a.(remainingTime := 0, startTime := 0, completionTime := 9) }
  function B1(b: Process): Process { b.(remainingTime := 1, startTime := 2) }
  function B2(b: Process): Process { b.(remainingTime := 0, startTime := 2, completionTime := 8) }
  function C1(c: Process): Process { c.(remainingTime := 0, startTime := 4, completionTime := 5) }

  /** After the admission at time 0: only P1 is queued. */
  function R0(a: Process, b: Process, c: Process): RoundRobin.State
  {
    RoundRobin.State([a, b, c], [0], [true, false, false], [false, false, false], [false, false, false],
                     0, 0, 0, [], [], Totals(0, 0, 0))
  }

  /** P1 ran 0-2; P2 and P3 arrived meanwhile and queue ahead of it. */
  function R1(a: Process, b: Process, c: Process): RoundRobin.State
  {
    RoundRobin.State([A1(a), b, c], [1, 2, 0], [true, true, true], [true, false, false], [false, false, false],
                     2, 2, 0, [Segment(1, 0, 2)], [0], Totals(0, 0, 0))
  }

  /** P2 ran 2-4 and was preempted. */
  function R2(a: Process, b: Process, c: Process): RoundRobin.State
  {
    RoundRobin.State([A1(a), B1(b), c], [2, 0, 1], [true, true, true], [true, true, false],
                     [false, false, false], 4, 4, 0, R1(a, b, c).trace + [Segment(2, 2, 4)], [0, 1],
                     Totals(0, 0, 1))
  }

  /** P3 ran 4-5 and completed. */
  function R3(a: Process, b: Process, c: Process): RoundRobin.State
  {
    RoundRobin.State([A1(a), B1(b), C1(c)], [0, 1], [true, true, true], [true, true, true],
                     [false, false, true], 5, 5, 1,
                     R2(a, b, c).trace + [Segment(3, 4, 5)], [0, 1, 2], Totals(3, 2, 3))
  }

  /** P1 ran 5-7 and was preempted. */
  function R4(a: Process, b: Process, c: Process): RoundRobin.State
  {
    RoundRobin.State([A2(a), B1(b), C1(c)], [1, 0], [true, true, true], [true, true, true],
                     [false, false, true], 7, 7, 1,
                     R3(a, b, c).trace + [Segment(1, 5, 7)], [0, 1, 2, 0], Totals(3, 2, 3))
  }

  /** P2 ran 7-8 and completed. */
  function R5(a: Process, b: Process, c: Process): RoundRobin.State
  {
    RoundRobin.State([A2(a), B2(b), C1(c)], [0], [true, true, true], [true, true, true],
                     [false, true, true], 8, 8, 2,
                     R4(a, b, c).trace + [Segment(2, 7, 8)], [0, 1, 2, 0, 1],
                     Totals(10, 6, 3))
  }

  /** P1 ran 8-9 and completed; every process is done. */
  function R6(a: Process, b: Process, c: Process): RoundRobin.State
  {
    RoundRobin.State([A3(a), B2(b), C1(c)], [], [true, true, true], [true, true, true],
                     [true, true, true], 9, 9, 3,
                     R5(a, b, c).trace + [Segment(1, 8, 9)], [0, 1, 2, 0, 1, 0],
                     Totals(19, 10, 3))
  }

  /** The scenario meets round robin's preconditions with a quantum of 2. */
  predicate RrJobs(a: Process, b: Process, c: Process)
  {
    && Jobs(a, b, c)
    && (a.remainingTime == 0 || a.remainingTime == 5)
    && (b.remainingTime == 0 || b.remainingTime == 3)
    && (c.remainingTime == 0 || c.remainingTime == 1)
  }

  /** At time 0 only P1 has arrived. */
  lemma {:induction false} ArrivalsStart(a: Process, b: Process, c: Process)
    requires RrJobs(a, b, c)
    ensures RoundRobin.Arrivals(RoundRobin.Init([a, b, c]), 0) == [0]
  {
    var st := RoundRobin.Init([a, b, c]);
    assert st.procs == [a, b, c] && st.seen == [false, false, false] && st.cur == 0;
    assert RoundRobin.Arrivals(st, 2) == [];
    assert RoundRobin.Arrivals(st, 1) == [];
  }

  /** The admission at start-up queues P1 alone. */
  lemma {:induction false} RrStart(a: Process, b: Process, c: Process)
    requires RrJobs(a, b, c)
    ensures RoundRobin.Admit(RoundRobin.Init([a, b, c])) == R0(a, b, c)
  {
    var st := RoundRobin.Init([a, b, c]);
    ArrivalsStart(a, b, c);
    var r := RoundRobin.Admit(st);
    assert r.seen == [true, false, false];
    assert r.queue == [] + [0];
  }

  lemma {:induction false} RrStep1(a: Process, b: Process, c: Process)
    requires RrJobs(a, b, c)
    ensures RoundRobin.Step(R0(a, b, c), 2) == R1(a, b, c)
  {
    var st := R0(a, b, c);
    var r := RoundRobin.Step(st, 2);
    assert r == RoundRobin.Dispatch(st, 2);
    Step1Records(a, b, c);
    Step1Queue(a, b, c);
    Step1Output(a, b, c);
    assert r.cur == r.sliceBeg == 2 && r.done == 0;
    assert r.finished == [false, false, false];
  }

  /** The first slice sets P1's start time and leaves it 3 ticks. */
  lemma {:induction false} Step1Records(a: Process, b: Process, c: Process)
    requires RrJobs(a, b, c)
    ensures var r := RoundRobin.Dispatch(R0(a, b, c), 2);
      r.procs == [A1(a), b, c] && r.started == [true, false, false]
  {
    var st := R0(a, b, c);
    AdmitFirst(a, b, c);
    assert RoundRobin.Loaded(a) == a.(remainingTime := 5);
    var r := RoundRobin.Dispatch(st, 2);
    assert r.procs == [a, b, c][0 := A1(a)] == [A1(a), b, c];
    assert r.started == [false, false, false][0 := true];
  }

  /** After the first slice P2 and P3 are admitted and queue ahead of P1. */
  lemma {:induction false} Step1Queue(a: Process, b: Process, c: Process)
    requires RrJobs(a, b, c)
    ensures var r := RoundRobin.Dispatch(R0(a, b, c), 2);
      r.queue == [1, 2, 0] && r.seen == [true, true, true]
  {
    var st := R0(a, b, c);
    var r := RoundRobin.Dispatch(st, 2);
    RoundRobin.DispatchRequeues(st, 2);
    Step1Records(a, b, c);
    assert RoundRobin.Loaded(a) == a.(remainingTime := 5);
    assert r.cur == 2 && r.procs[0].remainingTime == 3;
    AdmitFirst(a, b, c);
    assert r.queue == [1, 2] + [0];
  }

  /** The first slice emits P1 0-2, owned by P1, and adds no time yet. */
  lemma {:induction false} Step1Output(a: Process, b: Process, c: Process)
    requires RrJobs(a, b, c)
    ensures var r := RoundRobin.Dispatch(R0(a, b, c), 2);
      r.trace == [Segment(1, 0, 2)] && r.owners == [0] && r.totals == Totals(0, 0, 0)
  {
    AdmitFirst(a, b, c);
    assert RoundRobin.Loaded(a) == a.(remainingTime := 5);
    var r := RoundRobin.Dispatch(R0(a, b, c), 2);
    assert r.trace == [] + [Segment(1, 0, 2)];
    assert r.owners == [] + [0];
  }

  /** At time 2, after P1's first slice, P2 and P3 are the arrivals, in
      index order. */
  lemma {:induction false} ArrivalsLate(a: Process, b: Process, c: Process)
    requires RrJobs(a, b, c)
    ensures RoundRobin.Arrivals(R0(a, b, c).(queue := [], cur := 2), 0) == [1, 2]
  {
    var popped := R0(a, b, c).(queue := [], cur := 2);
    assert RoundRobin.Arrivals(popped, 3) == [];
    assert RoundRobin.Arrivals(popped, 2) == [2];
    assert RoundRobin.Arrivals(popped, 1) == [1, 2];
  }

  /** ... and they are admitted, which marks every process seen. */
  lemma {:induction false} AdmitLate(a: Process, b: Process, c: Process)
    requires RrJobs(a, b, c)
    ensures var ad := RoundRobin.Admit(R0(a, b, c).(queue := [], cur := 2));
      ad == R0(a, b, c).(queue := [1, 2], seen := [true, true, true], cur := 2)
  {
    var popped := R0(a, b, c).(queue := [], cur := 2);
    ArrivalsLate(a, b, c);
    var ad := RoundRobin.Admit(popped);
    assert ad.seen == [true, true, true];
    assert ad.queue == [] + [1, 2];
  }

  /** The admission after P1's first slice, on the popped state exactly as
      the dispatch builds it. */
  lemma {:induction false} AdmitFirst(a: Process, b: Process, c: Process)
    requires RrJobs(a, b, c)
    ensures var st := R0(a, b, c);
      RoundRobin.Admit(st.(queue := st.queue[1..], cur := st.cur + 2))
        == st.(queue := [1, 2], seen := [true, true, true], cur := 2)
  {
    var st := R0(a, b, c);
    assert st.(queue := st.queue[1..], cur := st.cur + 2) == R0(a, b, c).(queue := [], cur := 2);
    AdmitLate(a, b, c);
  }

  /** With every process seen, the admission scan finds nothing. */
  lemma {:induction false} ArrivalsNone(st: RoundRobin.State, i: int)
    requires RoundRobin.Shaped(st) && 0 <= i <= |st.procs|
    requires forall j :: 0 <= j < |st.seen| ==> st.seen[j]
    ensures RoundRobin.Arrivals(st, i) == []
    decreases |st.procs| - i
  {
    if i < |st.procs| {
      ArrivalsNone(st, i + 1);
    }
  }

  /** Once every process has been admitted, an admission adds nothing. */
  lemma {:induction false} AdmitNone(st: RoundRobin.State)
    requires RoundRobin.Shaped(st) && |st.seen| == 3 && st.seen == [true, true, true]
    ensures RoundRobin.Admit(st) == st
  {
    var r := RoundRobin.Admit(st);
    ArrivalsNone(st, 0);
    assert r.seen == st.seen;
    assert r.queue == st.queue + [];
  }

  /** P2 runs 2-4 and is preempted. */
  lemma {:induction false} RrStep2(a: Process, b: Process, c: Process)
    requires RrJobs(a, b, c)
    ensures RoundRobin.Step(R1(a, b, c), 2) == R2(a, b, c)
  {
    Step2Records(a, b, c);
    Step2Totals(a, b, c);
    Step2Output(a, b, c);
  }

  /** Slice 2: P2 keeps 1 tick and its start time 2. */
  lemma {:induction false} Step2Records(a: Process, b: Process, c: Process)
    requires RrJobs(a, b, c)
    ensures var r := RoundRobin.Step(R1(a, b, c), 2);
      && r.procs == R2(a, b, c).procs && r.started == R2(a, b, c).started
      && r.finished == R2(a, b, c).finished && r.done == R2(a, b, c).done
  {
    var st := R1(a, b, c);
    AdmitNone(st.(queue := st.queue[1..], cur := st.cur + 2));
  }

  /** Slice 2: its response time 1 is added. */
  lemma {:induction false} Step2Totals(a: Process, b: Process, c: Process)
    requires RrJobs(a, b, c)
    ensures RoundRobin.Step(R1(a, b, c), 2).totals == R2(a, b, c).totals
  {
    var st := R1(a, b, c);
    AdmitNone(st.(queue := st.queue[1..], cur := st.cur + 2));
  }

  /** Slice 2: P2 is requeued behind P3 and P1; the slice P2 2-4 is emitted. */
  lemma {:induction false} Step2Output(a: Process, b: Process, c: Process)
    requires RrJobs(a, b, c)
    ensures var r := RoundRobin.Step(R1(a, b, c), 2);
      && r.queue == R2(a, b, c).queue && r.seen == R2(a, b, c).seen
      && r.cur == R2(a, b, c).cur && r.sliceBeg == R2(a, b, c).sliceBeg
      && r.trace == R2(a, b, c).trace && r.owners == R2(a, b, c).owners
  {
    var st := R1(a, b, c);
    AdmitNone(st.(queue := st.queue[1..], cur := st.cur + 2));
  }

  /** P3 runs 4-5 and completes. */
  lemma {:induction false} RrStep3(a: Process, b: Process, c: Process)
    requires RrJobs(a, b, c)
    ensures RoundRobin.Step(R2(a, b, c), 2) == R3(a, b, c)
  {
    Step3Records(a, b, c);
    Step3Totals(a, b, c);
    Step3Output(a, b, c);
  }

  /** Slice 3: P3 starts at 4 and completes at 5. */
  lemma {:induction false} Step3Records(a: Process, b: Process, c: Process)
    requires RrJobs(a, b, c)
    ensures var r := RoundRobin.Step(R2(a, b, c), 2);
      && r.procs == R3(a, b, c).procs && r.started == R3(a, b, c).started
      && r.finished == R3(a, b, c).finished && r.done == R3(a, b, c).done
  {
    var st := R2(a, b, c);
    AdmitNone(st.(queue := st.queue[1..], cur := st.cur + 1));
  }

  /** Slice 3: its turnaround 3, waiting 2 and response 2 are added. */
  lemma {:induction false} Step3Totals(a: Process, b: Process, c: Process)
    requires RrJobs(a, b, c)
    ensures RoundRobin.Step(R2(a, b, c), 2).totals == R3(a, b, c).totals
  {
    var st := R2(a, b, c);
    AdmitNone(st.(queue := st.queue[1..], cur := st.cur + 1));
  }

  /** Slice 3: P3 leaves the queue; the slice P3 4-5 is emitted. */
  lemma {:induction false} Step3Output(a: Process, b: Process, c: Process)
    requires RrJobs(a, b, c)
    ensures var r := RoundRobin.Step(R2(a, b, c), 2);
      && r.queue == R3(a, b, c).queue && r.seen == R3(a, b, c).seen
      && r.cur == R3(a, b, c).cur && r.sliceBeg == R3(a, b, c).sliceBeg
      && r.trace == R3(a, b, c).trace && r.owners == R3(a, b, c).owners
  {
    var st := R2(a, b, c);
    AdmitNone(st.(queue := st.queue[1..], cur := st.cur + 1));
  }

  /** P1 runs 5-7 and is preempted. */
  lemma {:induction false} RrStep4(a: Process, b: Process, c: Process)
    requires RrJobs(a, b, c)
    ensures RoundRobin.Step(R3(a, b, c), 2) == R4(a, b, c)
  {
    Step4Records(a, b, c);
    Step4Totals(a, b, c);
    Step4Output(a, b, c);
  }

  /** Slice 4: P1 keeps 1 tick. */
  lemma {:induction false} Step4Records(a: Process, b: Process, c: Process)
    requires RrJobs(a, b, c)
    ensures var r := RoundRobin.Step(R3(a, b, c), 2);
      && r.procs == R4(a, b, c).procs && r.started == R4(a, b, c).started
      && r.finished == R4(a, b, c).finished && r.done == R4(a, b, c).done
  {
    var st := R3(a, b, c);
    AdmitNone(st.(queue := st.queue[1..], cur := st.cur + 2));
  }

  /** Slice 4: nothing is added. */
  lemma {:induction false} Step4Totals(a: Process, b: Process, c: Process)
    requires RrJobs(a, b, c)
    ensures RoundRobin.Step(R3(a, b, c), 2).totals == R4(a, b, c).totals
  {
    var st := R3(a, b, c);
    AdmitNone(st.(queue := st.queue[1..], cur := st.cur + 2));
  }

  /** Slice 4: P1 is requeued behind P2; the slice P1 5-7 is emitted. */
  lemma {:induction false} Step4Output(a: Process, b: Process, c: Process)
    requires RrJobs(a, b, c)
    ensures var r := RoundRobin.Step(R3(a, b, c), 2);
      && r.queue == R4(a, b, c).queue && r.seen == R4(a, b, c).seen
      && r.cur == R4(a, b, c).cur && r.sliceBeg == R4(a, b, c).sliceBeg
      && r.trace == R4(a, b, c).trace && r.owners == R4(a, b, c).owners
  {
    var st := R3(a, b, c);
    AdmitNone(st.(queue := st.queue[1..], cur := st.cur + 2));
  }

  /** P2 runs 7-8 and completes. */
  lemma {:induction false} RrStep5(a: Process, b: Process, c: Process)
    requires RrJobs(a, b, c)
    ensures RoundRobin.Step(R4(a, b, c), 2) == R5(a, b, c)
  {
    Step5Records(a, b, c);
    Step5Totals(a, b, c);
    Step5Output(a, b, c);
  }

  /** Slice 5: P2 completes at 8. */
  lemma {:induction false} Step5Records(a: Process, b: Process, c: Process)
    requires RrJobs(a, b, c)
    ensures var r := RoundRobin.Step(R4(a, b, c), 2);
      && r.procs == R5(a, b, c).procs && r.started == R5(a, b, c).started
      && r.finished == R5(a, b, c).finished && r.done == R5(a, b, c).done
  {
    var st := R4(a, b, c);
    AdmitNone(st.(queue := st.queue[1..], cur := st.cur + 1));
  }

  /** Slice 5: its turnaround 7 and waiting 4 are added. */
  lemma {:induction false} Step5Totals(a: Process, b: Process, c: Process)
    requires RrJobs(a, b, c)
    ensures RoundRobin.Step(R4(a, b, c), 2).totals == R5(a, b, c).totals
  {
    var st := R4(a, b, c);
    AdmitNone(st.(queue := st.queue[1..], cur := st.cur + 1));
  }

  /** Slice 5: P2 leaves the queue; the slice P2 7-8 is emitted. */
  lemma {:induction false} Step5Output(a: Process, b: Process, c: Process)
    requires RrJobs(a, b, c)
    ensures var r := RoundRobin.Step(R4(a, b, c), 2);
      && r.queue == R5(a, b, c).queue && r.seen == R5(a, b, c).seen
      && r.cur == R5(a, b, c).cur && r.sliceBeg == R5(a, b, c).sliceBeg
      && r.trace == R5(a, b, c).trace && r.owners == R5(a, b, c).owners
  {
    var st := R4(a, b, c);
    AdmitNone(st.(queue := st.queue[1..], cur := st.cur + 1));
  }

  /** P1 runs 8-9 and completes. */
  lemma {:induction false} RrStep6(a: Process, b: Process, c: Process)
    requires RrJobs(a, b, c)
    ensures RoundRobin.Step(R5(a, b, c), 2) == R6(a, b, c)
  {
    Step6Records(a, b, c);
    Step6Totals(a, b, c);
    Step6Output(a, b, c);
  }

  /** Slice 6: P1 completes at 9. */
  lemma {:induction false} Step6Records(a: Process, b: Process, c: Process)
    requires RrJobs(a, b, c)
    ensures var r := RoundRobin.Step(R5(a, b, c), 2);
      && r.procs == R6(a, b, c).procs && r.started == R6(a, b, c).started
      && r.finished == R6(a, b, c).finished && r.done == R6(a, b, c).done
  {
    var st := R5(a, b, c);
    AdmitNone(st.(queue := st.queue[1..], cur := st.cur + 1));
    assert RoundRobin.Step(st, 2).procs == st.procs[0 := A3(a)];
  }

  /** Slice 6: its turnaround 9 and waiting 4 are added. */
  lemma {:induction false} Step6Totals(a: Process, b: Process, c: Process)
    requires RrJobs(a, b, c)
    ensures RoundRobin.Step(R5(a, b, c), 2).totals == R6(a, b, c).totals
  {
    var st := R5(a, b, c);
    AdmitNone(st.(queue := st.queue[1..], cur := st.cur + 1));
  }

  /** Slice 6: the queue is left empty; the slice P1 8-9 is emitted. */
  lemma {:induction false} Step6Output(a: Process, b: Process, c: Process)
    requires RrJobs(a, b, c)
    ensures var r := RoundRobin.Step(R5(a, b, c), 2);
      && r.queue == R6(a, b, c).queue && r.seen == R6(a, b, c).seen
      && r.cur == R6(a, b, c).cur && r.sliceBeg == R6(a, b, c).sliceBeg
      && r.trace == R6(a, b, c).trace && r.owners == R6(a, b, c).owners
  {
    var st := R5(a, b, c);
    AdmitNone(st.(queue := st.queue[1..], cur := st.cur + 1));
  }

  /** The round-robin main loop runs one more iteration while some
      process is unfinished, here from one named state to the next. */
  lemma {:induction false} RrUnfold(input: seq<Process>, q: int, st: RoundRobin.State, next: RoundRobin.State)
    requires RoundRobin.Inv(input, q, st) && st.done < |input| && RoundRobin.Step(st, q) == next
    ensures RoundRobin.Inv(input, q, next)
    ensures RoundRobin.Loop(input, q, st) == RoundRobin.Loop(input, q, next)
  {
    RoundRobin.StepKeepsInv(input, q, st);
  }

  /** The first three slices: P1, P2 and P3, which completes. */
  lemma {:induction false} RrEarly(a: Process, b: Process, c: Process)
    requires RrJobs(a, b, c) && RoundRobin.Inv([a, b, c], 2, R0(a, b, c))
    ensures RoundRobin.Inv([a, b, c], 2, R3(a, b, c))
    ensures RoundRobin.Loop([a, b, c], 2, R0(a, b, c)) == RoundRobin.Loop([a, b, c], 2, R3(a, b, c))
  {
    var input := [a, b, c];
    RrStep1(a, b, c);
    RrUnfold(input, 2, R0(a, b, c), R1(a, b, c));
    RrStep2(a, b, c);
    RrUnfold(input, 2, R1(a, b, c), R2(a, b, c));
    RrStep3(a, b, c);
    RrUnfold(input, 2, R2(a, b, c), R3(a, b, c));
  }

  /** The last three slices: P1, P2 and P1 again, after which the loop
      stops. */
  lemma {:induction false} RrLate(a: Process, b: Process, c: Process)
    requires RrJobs(a, b, c) && RoundRobin.Inv([a, b, c], 2, R3(a, b, c))
    ensures RoundRobin.Loop([a, b, c], 2, R3(a, b, c)) == R6(a, b, c)
  {
    var input := [a, b, c];
    RrStep4(a, b, c);
    RrUnfold(input, 2, R3(a, b, c), R4(a, b, c));
    RrStep5(a, b, c);
    RrUnfold(input, 2, R4(a, b, c), R5(a, b, c));
    RrStep6(a, b, c);
    RrUnfold(input, 2, R5(a, b, c), R6(a, b, c));
    assert RoundRobin.Loop(input, 2, R6(a, b, c)) == R6(a, b, c);
  }

  /** Round robin, quantum 2: P1 0-2, P2 2-4, P3 4-5, P1 5-7, P2 7-8,
      P1 8-9; turnaround 9 + 7 + 3, waiting 4 + 4 + 2 and response
      0 + 1 + 2. */
  lemma {:induction false} RrScenario(a: Process, b: Process, c: Process)
    requires RrJobs(a, b, c)
    ensures var r := RoundRobin.Simulate([a, b, c], 2);
      && r.trace == [Segment(1, 0, 2), Segment(2, 2, 4), Segment(3, 4, 5), Segment(1, 5, 7), Segment(2, 7, 8),
                     Segment(1, 8, 9)]
      && r.totals == Totals(19, 10, 3)
  {
    var input := [a, b, c];
    assert RoundRobin.RrInput(input, 2);
    RoundRobin.StartKeepsInv(input, 2);
    RrStart(a, b, c);
    RrEarly(a, b, c);
    RrLate(a, b, c);
    RrTrace(a, b, c);
  }

  /** The six slices, in order. */
  lemma {:induction false} RrTrace(a: Process, b: Process, c: Process)
    ensures R6(a, b, c).trace == [Segment(1, 0, 2), Segment(2, 2, 4), Segment(3, 4, 5), Segment(1, 5, 7),
                                  Segment(2, 7, 8), Segment(1, 8, 9)]
  {
  }
}
