/** The round-robin ready queue. The scheduler itself is modelled over a
    plain sequence of process indices; this module relates that sequence to
    the fixed circular buffer of `MAX_N` slots that holds it in the source,
    both as written (empty when `head == tail`) and with an explicit entry
    count. */
module Fifo {
  import opened Processes

  /** No index occurs twice. */
  predicate Distinct(q: seq<int>)
  {
    forall k, l :: 0 <= k < l < |q| ==> q[k] != q[l]
  }

  /** Every entry is an index below `n`. */
  predicate InRange(q: seq<int>, n: int)
  {
    forall k :: 0 <= k < |q| ==> 0 <= q[k] < n
  }

  function Elements(q: seq<int>): (s: set<int>)
    ensures forall k :: 0 <= k < |q| ==> q[k] in s
    ensures forall x :: x in s ==> x in q
  {
    if |q| == 0 then {} else {q[0]} + Elements(q[1..])
  }

  lemma {:induction false} DistinctElements(q: seq<int>)
    requires Distinct(q)
    ensures |Elements(q)| == |q|
    decreases |q|
  {
    if |q| > 0 {
      DistinctElements(q[1..]);
      assert q[0] !in Elements(q[1..]);
    }
  }

  function Below(n: nat): (s: set<int>)
    ensures |s| == n
    ensures forall x :: x in s <==> 0 <= x < n
  {
    if n == 0 then {} else Below(n - 1) + {n - 1}
  }

  /** A queue of distinct indices below `n` holds at most `n` entries. */
  lemma {:induction false} DistinctBound(q: seq<int>, n: nat)
    requires Distinct(q) && InRange(q, n)
    ensures |q| <= n
  {
    DistinctElements(q);
    assert Elements(q) <= Below(n);
    SubsetCard(Elements(q), Below(n));
  }

  /** A queue of distinct indices below `n` that holds every one of them
      holds exactly `n` entries. */
  lemma {:induction false} Covering(q: seq<int>, n: nat)
    requires Distinct(q) && InRange(q, n)
    requires forall x :: 0 <= x < n ==> x in q
    ensures |q| == n
  {
    DistinctBound(q, n);
    DistinctElements(q);
    forall x | x in Below(n)
      ensures x in Elements(q)
    {
      assert 0 <= x < n;
      assert x in q;
    }
    SubsetCard(Below(n), Elements(q));
  }

  lemma {:induction false} SubsetCard(a: set<int>, b: set<int>)
    requires a <= b
    ensures |a| <= |b|
  {
    assert b == a + (b - a);
  }

  // ---------------------------------------------------------------------
  // The circular buffer as written: MAX_N slots, `head` and `tail` advance
  // modulo MAX_N, and the queue is taken to be empty when `head == tail`.

  datatype Ring = Ring(slots: seq<int>, head: int, tail: int)

  predicate RingShape(r: Ring)
  {
    |r.slots| == MAX_N && 0 <= r.head < MAX_N && 0 <= r.tail < MAX_N
  }

  function EmptyRing(): (r: Ring)
    ensures RingShape(r)
  {
    Ring(seq(MAX_N, _ => 0), 0, 0)
  }

  /** Append at `tail` and advance it, wrapping round: the front stays
      put, the new entry sits just behind the new tail, and no other slot
      changes. */
  function Push(r: Ring, x: int): (r': Ring)
    requires RingShape(r)
    ensures RingShape(r')
    ensures r'.head == r.head
    ensures r'.tail == (r.tail + 1) % MAX_N && r'.slots[r.tail] == x
    ensures forall k :: 0 <= k < MAX_N && k != r.tail ==> r'.slots[k] == r.slots[k]
  {
    Ring(r.slots[r.tail := x], r.head, (r.tail + 1) % MAX_N)
  }

  /** Take the entry at `head` and advance it, wrapping round: the back
      and the slots stay put. */
  function Pop(r: Ring): (res: (int, Ring))
    requires RingShape(r)
    ensures RingShape(res.1)
    ensures res.1.tail == r.tail && res.1.slots == r.slots
    ensures res.0 == r.slots[r.head] && (res.1.head + MAX_N - 1) % MAX_N == r.head
  {
    (r.slots[r.head], Ring(r.slots, (r.head + 1) % MAX_N, r.tail))
  }

  /** The emptiness test the scheduler's idle branch uses. */
  predicate LooksEmpty(r: Ring)
  {
    r.head == r.tail
  }

  /** `r` holds exactly the queue `q`, front at `head`. */
  predicate Represents(r: Ring, q: seq<int>)
  {
    && RingShape(r)
    && |q| <= MAX_N
    && r.tail == (r.head + |q|) % MAX_N
    && forall k :: 0 <= k < |q| ==> r.slots[(r.head + k) % MAX_N] == q[k]
  }

  function PushAll(r: Ring, xs: seq<int>): (r': Ring)
    requires RingShape(r)
    ensures RingShape(r')
    decreases |xs|
  {
    if |xs| == 0 then r else PushAll(Push(r, xs[0]), xs[1..])
  }

  /** Pushing a sequence onto a ring appends it to the queue the ring
      represents, however far the indices wrap. */
  lemma {:induction false} PushAllRepresents(r: Ring, q: seq<int>, xs: seq<int>)
    requires Represents(r, q) && |q| + |xs| <= MAX_N
    ensures Represents(PushAll(r, xs), q + xs)
    decreases |xs|
  {
    if |xs| > 0 {
      PushRepresents(r, q, xs[0]);
      PushAllRepresents(Push(r, xs[0]), q + [xs[0]], xs[1..]);
      assert q + [xs[0]] + xs[1..] == q + xs;
    }
  }

  lemma {:induction false} PushRepresents(r: Ring, q: seq<int>, x: int)
    requires Represents(r, q) && |q| < MAX_N
    ensures Represents(Push(r, x), q + [x])
  {
    var r' := Push(r, x);
    forall k | 0 <= k < |q| + 1
      ensures r'.slots[(r'.head + k) % MAX_N] == (q + [x])[k]
    {
      if k < |q| {
        assert (r.head + k) % MAX_N != r.tail by {
          ModDistinct(r.head, k, |q|);
        }
      }
    }
  }

  /** Distinct offsets below MAX_N from the same base land in distinct slots. */
  lemma {:induction false} ModDistinct(h: int, k: int, m: int)
    requires 0 <= h < MAX_N && 0 <= k < m <= MAX_N - 1
    ensures (h + k) % MAX_N != (h + m) % MAX_N
  {
  }

  /** Popping a ring that represents a non-empty queue yields its front and
      a ring for the rest. */
  lemma {:induction false} PopRepresents(r: Ring, q: seq<int>)
    requires Represents(r, q) && |q| > 0
    ensures Pop(r).0 == q[0] && Represents(Pop(r).1, q[1..])
  {
    assert (r.head + 0) % MAX_N == r.head;
    ModStep(r.head, |q| - 1);
    PopSlots(r.slots, r.head, q);
  }

  /** The entries behind the front sit one slot on from the advanced head. */
  lemma {:induction false} PopSlots(slots: seq<int>, h: int, q: seq<int>)
    requires |slots| == MAX_N && 0 <= h < MAX_N && 0 < |q| <= MAX_N
    requires forall k :: 0 <= k < |q| ==> slots[(h + k) % MAX_N] == q[k]
    ensures forall k :: 0 <= k < |q| - 1 ==> slots[((h + 1) % MAX_N + k) % MAX_N] == q[1..][k]
  {
    forall k | 0 <= k < |q| - 1
      ensures slots[((h + 1) % MAX_N + k) % MAX_N] == q[1..][k]
    {
      ModStep(h, k);
      assert slots[(h + (k + 1)) % MAX_N] == q[k + 1];
    }
  }

  /** Advancing the head by one and then offsetting by `k` lands where
      offsetting the old head by `k + 1` does. */
  lemma {:induction false} ModStep(h: int, k: int)
    requires 0 <= h < MAX_N && 0 <= k < MAX_N
    ensures ((h + 1) % MAX_N + k) % MAX_N == (h + (k + 1)) % MAX_N
  {
    if h + 1 == MAX_N {
      assert (h + 1) % MAX_N == 0;
    } else {
      assert (h + 1) % MAX_N == h + 1;
    }
  }

  /** As long as fewer than MAX_N entries are queued, `head == tail` means
      exactly that the queue is empty. */
  lemma {:induction false} LooksEmptySound(r: Ring, q: seq<int>)
    requires Represents(r, q) && |q| < MAX_N
    ensures LooksEmpty(r) <==> |q| == 0
  {
  }

  /** With MAX_N entries queued the test answers "empty": admitting MAX_N
      processes into an empty ring (all of them arriving at time zero,
      say) leaves `head == tail` with every slot occupied. */
  lemma {:induction false} FullRingLooksEmpty(xs: seq<int>)
    requires |xs| == MAX_N
    ensures Represents(PushAll(EmptyRing(), xs), xs)
    ensures LooksEmpty(PushAll(EmptyRing(), xs))
  {
    var e := EmptyRing();
    assert Represents(e, []);
    PushAllRepresents(e, [], xs);
    assert [] + xs == xs;
    FullLooksEmpty(PushAll(e, xs), xs);
  }

  /** A ring holding MAX_N entries has its tail back at its head. */
  lemma {:induction false} FullLooksEmpty(r: Ring, q: seq<int>)
    requires Represents(r, q) && |q| == MAX_N
    ensures LooksEmpty(r)
  {
    assert (r.head + MAX_N) % MAX_N == r.head;
  }

  // ---------------------------------------------------------------------
  // The circular buffer with an entry count, so that it may hold all
  // MAX_N processes: empty exactly when the count is zero.

  datatype CountedRing = CountedRing(ring: Ring, count: int)

  /** `c` holds exactly the queue `q`. */
  predicate CountedRepresents(c: CountedRing, q: seq<int>)
  {
    Represents(c.ring, q) && c.count == |q|
  }

  function CountedPush(c: CountedRing, x: int): (c': CountedRing)
    requires RingShape(c.ring)
    ensures RingShape(c'.ring)
  {
    CountedRing(Push(c.ring, x), c.count + 1)
  }

  function CountedPop(c: CountedRing): (res: (int, CountedRing))
    requires RingShape(c.ring)
    ensures RingShape(res.1.ring)
  {
    var (x, r) := Pop(c.ring);
    (x, CountedRing(r, c.count - 1))
  }

  predicate CountedEmpty(c: CountedRing)
  {
    c.count == 0
  }

  /** The counted ring implements the queue for every length up to MAX_N:
      its emptiness test is exact, a push appends and a pop takes the front. */
  lemma {:induction false} CountedRingRefines(c: CountedRing, q: seq<int>, x: int)
    requires CountedRepresents(c, q)
    ensures CountedEmpty(c) <==> |q| == 0
    ensures |q| < MAX_N ==> CountedRepresents(CountedPush(c, x), q + [x])
    ensures |q| > 0 ==> CountedPop(c).0 == q[0] && CountedRepresents(CountedPop(c).1, q[1..])
  {
    if |q| < MAX_N {
      PushRepresents(c.ring, q, x);
    }
    if |q| > 0 {
      PopRepresents(c.ring, q);
    }
  }
}
