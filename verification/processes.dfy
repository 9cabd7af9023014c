/** The process record shared by the three schedulers, the preconditions
    their callers must meet, and the private copy each scheduler works on. */
module Processes {

  /** Capacity of every fixed-size array in the simulator. */
  const MAX_N: int := 64

  /** One process. `remainingTime` only matters to round robin;
      `startTime` and `completionTime` are written by the schedulers. */
  datatype Process = Process(
    pid: int,
    arrivalTime: int,
    burstTime: int,
    remainingTime: int,
    startTime: int,
    completionTime: int)

  /** What every entry point relies on without checking it: between one and
      `MAX_N` processes (so the averages never divide by zero and the
      private arrays never overflow), each arriving at a non-negative time
      and needing a positive amount of CPU time. */
  predicate Admissible(proc: seq<Process>, n: int)
  {
    && 0 < n <= MAX_N
    && n <= |proc|
    && ValidJobs(proc[..n])
  }

  /** Every process arrives at a non-negative time and needs positive CPU time. */
  predicate ValidJobs(ps: seq<Process>)
  {
    forall i :: 0 <= i < |ps| ==> ps[i].arrivalTime >= 0 && ps[i].burstTime > 0
  }

  /** The latest arrival time of a non-empty process set. */
  function MaxArrival(ps: seq<Process>): (m: int)
    requires |ps| > 0
    ensures forall i :: 0 <= i < |ps| ==> ps[i].arrivalTime <= m
    ensures exists i :: 0 <= i < |ps| && ps[i].arrivalTime == m
  {
    if |ps| == 1 then ps[0].arrivalTime
    else
      var m' := MaxArrival(ps[1..]);
      assert forall i :: 1 <= i < |ps| ==> ps[i] == ps[1..][i - 1];
      if ps[0].arrivalTime < m' then m' else ps[0].arrivalTime
  }

  /** How far the clock still is from the last arrival: a measure the
      idle branches of SJF and round robin shrink by one tick each. */
  function Gap(input: seq<Process>, cur: int): (g: nat)
    requires |input| > 0
    ensures g == 0 <==> cur >= MaxArrival(input)
  {
    if MaxArrival(input) > cur then MaxArrival(input) - cur else 0
  }

  /** `a` and `b` describe the same job: the fields no scheduler writes agree. */
  predicate SameJob(a: Process, b: Process)
  {
    a.pid == b.pid && a.arrivalTime == b.arrivalTime && a.burstTime == b.burstTime
  }

  /** Time from arrival to completion. */
  function Turnaround(p: Process): int
  {
    p.completionTime - p.arrivalTime
  }

  /** Time spent ready but not running. */
  function Waiting(p: Process): int
  {
    Turnaround(p) - p.burstTime
  }

  /** Time from arrival to first dispatch. */
  function Response(p: Process): int
  {
    p.startTime - p.arrivalTime
  }

  /** The element-wise copy every scheduler makes before touching anything:
      the result is exactly the first `n` records of the caller's array.
      The caller's sequence is a value, so no scheduler can change it. */
  method Clone(src: seq<Process>, n: int) returns (dst: seq<Process>)
    requires 0 <= n <= |src|
    ensures |dst| == n
    ensures forall i :: 0 <= i < n ==> dst[i] == src[i]
  {
    dst := [];
    var i := 0;
    while i < n
      invariant 0 <= i <= n
      invariant |dst| == i
      invariant forall j :: 0 <= j < i ==> dst[j] == src[j]
    {
      dst := dst + [src[i]];
      i := i + 1;
    }
  }
}
