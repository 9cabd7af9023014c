/** Integer bookkeeping shared by the schedulers: the three running sums
    (turnaround, waiting, response) and counts of flagged processes. The
    source divides each sum by `n` in floating point; the model stops at
    the integer sums. */
module Accounting {
  import opened Processes
  import opened Traces

  datatype Totals = Totals(turnaround: int, waiting: int, response: int)

  /** What a scheduler hands back: its private copy in its final state, the
      Gantt trace and the three sums. */
  datatype Outcome = Outcome(procs: seq<Process>, trace: seq<Segment>, totals: Totals)

  /** Sum of `f` over all processes. */
  function Sum(ps: seq<Process>, f: Process -> int): int
  {
    if |ps| == 0 then 0 else f(ps[0]) + Sum(ps[1..], f)
  }

  /** The three sums a scheduler must report for its final private copy. */
  function TotalsOf(ps: seq<Process>): Totals
  {
    Totals(Sum(ps, Turnaround), Sum(ps, Waiting), Sum(ps, Response))
  }

  /** Sum of `w(p, flag)` over the processes and their flags. */
  function MaskedSum(ps: seq<Process>, flags: seq<bool>, w: (Process, bool) -> int): int
    requires |ps| == |flags|
  {
    if |ps| == 0 then 0 else w(ps[0], flags[0]) + MaskedSum(ps[1..], flags[1..], w)
  }

  /** Contributions of a process once it is flagged (finished, or started). */
  function TurnaroundIf(p: Process, b: bool): int
  {
    if b then Turnaround(p) else 0
  }

  function WaitingIf(p: Process, b: bool): int
  {
    if b then Waiting(p) else 0
  }

  function ResponseIf(p: Process, b: bool): int
  {
    if b then Response(p) else 0
  }

  /** The sums accumulated so far: turnaround and waiting over the
      finished processes, response over the dispatched ones. */
  function Partial(ps: seq<Process>, finished: seq<bool>, started: seq<bool>): Totals
    requires |ps| == |finished| == |started|
  {
    Totals(MaskedSum(ps, finished, TurnaroundIf), MaskedSum(ps, finished, WaitingIf),
           MaskedSum(ps, started, ResponseIf))
  }

  /** Changing one process and its flag changes a masked sum by exactly the
      difference of that one contribution. */
  lemma {:induction false} MaskedSumUpdate(ps: seq<Process>, flags: seq<bool>, k: int, p: Process, b: bool,
                                           w: (Process, bool) -> int)
    requires |ps| == |flags| && 0 <= k < |ps|
    ensures MaskedSum(ps[k := p], flags[k := b], w) == MaskedSum(ps, flags, w) - w(ps[k], flags[k]) + w(p, b)
    decreases |ps|
  {
    if k == 0 {
      assert ps[k := p][1..] == ps[1..];
      assert flags[k := b][1..] == flags[1..];
    } else {
      MaskedSumUpdate(ps[1..], flags[1..], k - 1, p, b, w);
      assert ps[k := p][1..] == ps[1..][k - 1 := p];
      assert flags[k := b][1..] == flags[1..][k - 1 := b];
    }
  }

  /** When every flag is set, a masked sum is the plain sum of the flagged
      contribution. */
  lemma {:induction false} MaskedSumAll(ps: seq<Process>, flags: seq<bool>, w: (Process, bool) -> int,
                                        f: Process -> int)
    requires |ps| == |flags|
    requires forall i :: 0 <= i < |flags| ==> flags[i]
    requires forall i :: 0 <= i < |ps| ==> w(ps[i], true) == f(ps[i])
    ensures MaskedSum(ps, flags, w) == Sum(ps, f)
    decreases |ps|
  {
    if |ps| > 0 {
      MaskedSumAll(ps[1..], flags[1..], w, f);
    }
  }

  /** With no flag set and unflagged processes contributing nothing, a
      masked sum is zero. */
  lemma {:induction false} MaskedSumNone(ps: seq<Process>, flags: seq<bool>, w: (Process, bool) -> int)
    requires |ps| == |flags|
    requires forall i :: 0 <= i < |flags| ==> !flags[i]
    requires forall i :: 0 <= i < |ps| ==> w(ps[i], false) == 0
    ensures MaskedSum(ps, flags, w) == 0
    decreases |ps|
  {
    if |ps| > 0 {
      MaskedSumNone(ps[1..], flags[1..], w);
    }
  }

  /** A masked sum of non-negative contributions is non-negative. */
  lemma {:induction false} MaskedSumNonneg(ps: seq<Process>, flags: seq<bool>, w: (Process, bool) -> int)
    requires |ps| == |flags|
    requires forall i :: 0 <= i < |ps| ==> w(ps[i], flags[i]) >= 0
    ensures MaskedSum(ps, flags, w) >= 0
    decreases |ps|
  {
    if |ps| > 0 {
      MaskedSumNonneg(ps[1..], flags[1..], w);
    }
  }

  /** Once every process is flagged finished and started, the partial sums
      are the totals of the final copy. */
  lemma {:induction false} PartialComplete(ps: seq<Process>, finished: seq<bool>, started: seq<bool>)
    requires |ps| == |finished| == |started|
    requires forall i :: 0 <= i < |ps| ==> finished[i] && started[i]
    ensures Partial(ps, finished, started) == TotalsOf(ps)
  {
    MaskedSumAll(ps, finished, TurnaroundIf, Turnaround);
    MaskedSumAll(ps, finished, WaitingIf, Waiting);
    MaskedSumAll(ps, started, ResponseIf, Response);
  }

  /** Before anything is flagged the partial sums are all zero. */
  lemma {:induction false} PartialEmpty(ps: seq<Process>, finished: seq<bool>, started: seq<bool>)
    requires |ps| == |finished| == |started|
    requires forall i :: 0 <= i < |ps| ==> !finished[i] && !started[i]
    ensures Partial(ps, finished, started) == Totals(0, 0, 0)
  {
    MaskedSumNone(ps, finished, TurnaroundIf);
    MaskedSumNone(ps, finished, WaitingIf);
    MaskedSumNone(ps, started, ResponseIf);
  }

  /** Number of set flags. */
  function Count(flags: seq<bool>): (c: nat)
    ensures c <= |flags|
  {
    if |flags| == 0 then 0 else (if flags[0] then 1 else 0) + Count(flags[1..])
  }

  /** Setting one clear flag raises the count by exactly one. */
  lemma {:induction false} CountSet(flags: seq<bool>, k: int)
    requires 0 <= k < |flags| && !flags[k]
    ensures Count(flags[k := true]) == Count(flags) + 1
    decreases |flags|
  {
    if k == 0 {
      assert flags[k := true][1..] == flags[1..];
    } else {
      CountSet(flags[1..], k - 1);
      assert flags[k := true][1..] == flags[1..][k - 1 := true];
    }
  }

  /** The count reaches the length exactly when every flag is set. */
  lemma {:induction false} CountFull(flags: seq<bool>)
    ensures Count(flags) == |flags| <==> forall i :: 0 <= i < |flags| ==> flags[i]
    decreases |flags|
  {
    if |flags| > 0 {
      CountFull(flags[1..]);
      assert forall i :: 0 < i < |flags| ==> flags[i] == flags[1..][i - 1];
    }
  }

  /** Setting flags never lowers the count, and setting a clear one raises
      it. */
  lemma {:induction false} CountGrows(a: seq<bool>, b: seq<bool>)
    requires |a| == |b|
    requires forall i :: 0 <= i < |a| && a[i] ==> b[i]
    ensures Count(a) <= Count(b)
    ensures (exists i :: 0 <= i < |a| && !a[i] && b[i]) ==> Count(a) < Count(b)
    decreases |a|
  {
    if |a| > 0 {
      CountGrows(a[1..], b[1..]);
      if exists i :: 0 <= i < |a| && !a[i] && b[i] {
        var i :| 0 <= i < |a| && !a[i] && b[i];
        if i > 0 {
          assert !a[1..][i - 1] && b[1..][i - 1];
        }
      }
    }
  }

  /** The count is zero exactly when no flag is set. */
  lemma {:induction false} CountEmpty(flags: seq<bool>)
    ensures Count(flags) == 0 <==> forall i :: 0 <= i < |flags| ==> !flags[i]
    decreases |flags|
  {
    if |flags| > 0 {
      CountEmpty(flags[1..]);
      assert forall i :: 0 < i < |flags| ==> flags[i] == flags[1..][i - 1];
    }
  }
}
