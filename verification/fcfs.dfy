/** First-come-first-served: the private copy is insertion-sorted by
    (arrival time, pid) and then run front to back without preemption,
    the clock jumping forward over idle gaps. */
module Fcfs {
  import opened Processes
  import opened Accounting
  import opened Traces

  /** `a` belongs after `b`: it arrives later, or at the same time with a
      larger pid. This is the condition under which the inner loop of the
      insertion sort shifts a record one place right. */
  predicate After(a: Process, b: Process)
  {
    a.arrivalTime > b.arrivalTime || (a.arrivalTime == b.arrivalTime && a.pid > b.pid)
  }

  /** Non-decreasing in lexicographic (arrival time, pid). */
  predicate Sorted(s: seq<Process>)
  {
    forall i, j :: 0 <= i < j < |s| ==> !After(s[i], s[j])
  }

  /** One pass of the outer sort loop: `key` slides left past every record
      of the sorted prefix that belongs after it, and stops behind the first
      one (scanning from the right) that does not. */
  function Insert(s: seq<Process>, key: Process): (r: seq<Process>)
    requires Sorted(s)
    ensures Sorted(r)
    ensures |r| == |s| + 1
    ensures forall x :: x in r ==> x in s || x == key
    ensures multiset(r) == multiset(s) + multiset{key}
    decreases |s|
  {
    if |s| == 0 || !After(s[|s| - 1], key) then
      s + [key]
    else
      var init := s[..|s| - 1];
      var last := s[|s| - 1];
      assert s == init + [last];
      var r' := Insert(init, key);
      assert forall i :: 0 <= i < |r'| ==> !After(r'[i], last) by {
        forall i | 0 <= i < |r'| ensures !After(r'[i], last) {
          assert r'[i] in r';
        }
      }
      r' + [last]
  }

  /** The insertion sort of the private copy: each record in turn is
      inserted into the already sorted prefix before it. */
  function SortByArrival(s: seq<Process>): (r: seq<Process>)
    ensures Sorted(r)
    ensures |r| == |s|
    ensures multiset(r) == multiset(s)
    decreases |s|
  {
    if |s| == 0 then []
    else
      assert s == s[..|s| - 1] + [s[|s| - 1]];
      Insert(SortByArrival(s[..|s| - 1]), s[|s| - 1])
  }

  function Max(a: int, b: int): int
  {
    if a < b then b else a
  }

  /** The run loop over the sorted copy, with the clock at `cur`: each
      process starts at the later of the clock and its own arrival, holds
      the CPU for its whole burst, and its turnaround, waiting and response
      times are added to the sums (waiting and response coincide). */
  function Run(ps: seq<Process>, cur: int): (r: Outcome)
    ensures |r.procs| == |ps| && |r.trace| == |ps|
    ensures forall i :: 0 <= i < |ps| ==>
      r.procs[i] == ps[i].(startTime := r.procs[i].startTime, completionTime := r.procs[i].completionTime)
    ensures |ps| > 0 ==> r.procs[0].startTime == Max(cur, ps[0].arrivalTime)
    ensures forall i :: 0 < i < |ps| ==>
      r.procs[i].startTime == Max(r.procs[i - 1].completionTime, ps[i].arrivalTime)
    ensures forall i :: 0 <= i < |ps| ==> r.procs[i].completionTime == r.procs[i].startTime + ps[i].burstTime
    ensures forall i :: 0 <= i < |ps| ==>
      r.trace[i] == Segment(ps[i].pid, r.procs[i].startTime, r.procs[i].completionTime)
    ensures r.totals == TotalsOf(r.procs)
    decreases |ps|
  {
    if |ps| == 0 then
      Outcome([], [], Totals(0, 0, 0))
    else
      var p := ps[0];
      var start := if cur < p.arrivalTime then p.arrivalTime else cur;
      var finished := p.(startTime := start, completionTime := start + p.burstTime);
      var rest := Run(ps[1..], finished.completionTime);
      var tat := finished.completionTime - p.arrivalTime;
      var wt := finished.startTime - p.arrivalTime;
      var rt := wt;
      assert ([finished] + rest.procs)[1..] == rest.procs;
      Outcome([finished] + rest.procs,
              [Segment(p.pid, start, finished.completionTime)] + rest.trace,
              Totals(tat + rest.totals.turnaround, wt + rest.totals.waiting, rt + rest.totals.response))
  }

  /** Run from clock zero over processes that arrive at non-negative times:
      no process starts before it arrives, waiting and response coincide and
      are non-negative, and the segments follow one another in time. */
  lemma {:induction false} RunFromZero(ps: seq<Process>)
    requires forall i :: 0 <= i < |ps| ==> ps[i].arrivalTime >= 0
    ensures var r := Run(ps, 0);
      && (|ps| > 0 ==> r.procs[0].startTime == ps[0].arrivalTime)
      && (forall i :: 0 <= i < |ps| ==>
            ps[i].arrivalTime <= r.procs[i].startTime && Waiting(r.procs[i]) == Response(r.procs[i]) >= 0)
      && Chronological(r.trace)
  {
    RunStartsLate(ps, 0);
    RunChronological(ps, 0);
  }

  /** No process starts before it arrives. */
  lemma {:induction false} RunStartsLate(ps: seq<Process>, cur: int)
    ensures forall i :: 0 <= i < |ps| ==> ps[i].arrivalTime <= Run(ps, cur).procs[i].startTime
  {
    var r := Run(ps, cur);
    forall i | 0 <= i < |ps|
      ensures ps[i].arrivalTime <= r.procs[i].startTime
    {
      if i == 0 {
        assert r.procs[0].startTime == Max(cur, ps[0].arrivalTime);
      } else {
        assert r.procs[i].startTime == Max(r.procs[i - 1].completionTime, ps[i].arrivalTime);
      }
    }
  }

  /** Each segment starts no earlier than the previous one ends. */
  lemma {:induction false} RunChronological(ps: seq<Process>, cur: int)
    ensures Chronological(Run(ps, cur).trace)
  {
    var r := Run(ps, cur);
    forall k | 0 < k < |r.trace|
      ensures r.trace[k - 1].end <= r.trace[k].start
    {
      assert r.procs[k].startTime == Max(r.procs[k - 1].completionTime, ps[k].arrivalTime);
    }
  }

  /** Filling in the timing fields keeps a sorted sequence sorted, since the
      order looks only at arrival time and pid. */
  lemma {:induction false} SortedKept(ps: seq<Process>, qs: seq<Process>)
    requires Sorted(ps) && |qs| == |ps|
    requires forall i :: 0 <= i < |ps| ==> SameJob(qs[i], ps[i])
    ensures Sorted(qs)
  {
    forall i, j | 0 <= i < j < |qs|
      ensures !After(qs[i], qs[j])
    {
      assert !After(ps[i], ps[j]);
    }
  }

  /** The FCFS entry point. The private copy ends up sorted by (arrival,
      pid) and is a permutation of the caller's first `n` records; every
      process starts no earlier than it arrives and no earlier than its
      predecessor completes, without needless idling, runs to completion in
      one segment, and the reported sums are those of the resulting times. */
  method FcfsMetrics(proc: seq<Process>, n: int) returns (r: Outcome)
    requires Admissible(proc, n)
    ensures var sorted := SortByArrival(proc[..n]);
      && |r.procs| == n == |r.trace|
      && multiset(sorted) == multiset(proc[..n])
      && forall i :: 0 <= i < n ==>
        r.procs[i] == sorted[i].(startTime := r.procs[i].startTime, completionTime := r.procs[i].completionTime)
    ensures Sorted(r.procs)
    ensures r.procs[0].startTime == r.procs[0].arrivalTime
    ensures forall i :: 0 < i < n ==>
      r.procs[i].startTime == Max(r.procs[i - 1].completionTime, r.procs[i].arrivalTime)
    ensures forall i :: 0 <= i < n ==>
      && 0 <= r.procs[i].arrivalTime <= r.procs[i].startTime
      && r.procs[i].completionTime == r.procs[i].startTime + r.procs[i].burstTime
      && Waiting(r.procs[i]) == Response(r.procs[i]) >= 0
    ensures forall i :: 0 <= i < n ==>
      r.trace[i] == Segment(r.procs[i].pid, r.procs[i].startTime, r.procs[i].completionTime)
    ensures Chronological(r.trace)
    ensures r.totals == TotalsOf(r.procs)
  {
    var p := Clone(proc, n);
    assert p == proc[..n];
    var sorted := SortByArrival(p);
    forall i | 0 <= i < n
      ensures sorted[i].arrivalTime >= 0
    {
      assert sorted[i] in multiset(p);
    }
    r := Run(sorted, 0);
    RunSorted(sorted);
  }

  /** The run over a sorted copy from clock zero, stated over the records
      it returns. */
  lemma {:induction false} RunSorted(ps: seq<Process>)
    requires Sorted(ps) && |ps| > 0
    requires forall i :: 0 <= i < |ps| ==> ps[i].arrivalTime >= 0
    ensures var r := Run(ps, 0);
      && Sorted(r.procs)
      && r.procs[0].startTime == r.procs[0].arrivalTime
      && (forall i :: 0 < i < |ps| ==>
            r.procs[i].startTime == Max(r.procs[i - 1].completionTime, r.procs[i].arrivalTime))
      && (forall i :: 0 <= i < |ps| ==>
            && 0 <= r.procs[i].arrivalTime <= r.procs[i].startTime
            && r.procs[i].completionTime == r.procs[i].startTime + r.procs[i].burstTime
            && Waiting(r.procs[i]) == Response(r.procs[i]) >= 0)
      && (forall i :: 0 <= i < |ps| ==>
            r.trace[i] == Segment(r.procs[i].pid, r.procs[i].startTime, r.procs[i].completionTime))
      && Chronological(r.trace)
  {
    var r := Run(ps, 0);
    RunFromZero(ps);
    assert forall i :: 0 <= i < |ps| ==> SameJob(r.procs[i], ps[i]);
    SortedKept(ps, r.procs);
  }
}
