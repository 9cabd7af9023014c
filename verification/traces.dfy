/** The Gantt trace: the segments the schedulers would print, kept as a
    returned sequence instead of being written to standard output. */
module Traces {

  /** Process `pid` held the CPU from `start` up to `end`. */
  datatype Segment = Segment(pid: int, start: int, end: int)

  function Length(s: Segment): int
  {
    s.end - s.start
  }

  /** Segments never overlap and appear in time order. */
  predicate Chronological(trace: seq<Segment>)
  {
    forall k :: 0 < k < |trace| ==> trace[k - 1].end <= trace[k].start
  }

  /** Total CPU time the trace gives to process id `pid`. */
  function TimeOf(trace: seq<Segment>, pid: int): int
  {
    if |trace| == 0 then 0
    else
      var last := trace[|trace| - 1];
      TimeOf(trace[..|trace| - 1], pid) + (if last.pid == pid then Length(last) else 0)
  }

  /** Appending one segment adds its length to its own process only. */
  lemma {:induction false} TimeOfAppend(trace: seq<Segment>, s: Segment, pid: int)
    ensures TimeOf(trace + [s], pid) == TimeOf(trace, pid) + (if s.pid == pid then Length(s) else 0)
  {
    assert (trace + [s])[..|trace|] == trace;
  }

  /** Appending a segment that starts no earlier than the trace's last end
      keeps the trace chronological. */
  lemma {:induction false} ChronologicalAppend(trace: seq<Segment>, s: Segment)
    requires Chronological(trace)
    requires |trace| > 0 ==> trace[|trace| - 1].end <= s.start
    ensures Chronological(trace + [s])
  {
  }
}
