/**
 * The ring buffers of queue.c: one per thread, fixed capacity, read and written under the
 * ring's own lock.
 */
module WorkQueue {

  const QUEUESIZE: nat := 250000

  /** The content fields of a `queue` structure. */
  datatype Ring<T> = Ring(slots: seq<T>, front: nat, rear: nat, count: nat)

  predicate Valid<T>(r: Ring<T>)
  {
    && |r.slots| == QUEUESIZE && r.front < QUEUESIZE && r.rear < QUEUESIZE && r.count <= QUEUESIZE
    && r.rear == (r.front + r.count + QUEUESIZE - 1) % QUEUESIZE
  }

  /** The queued items, oldest first. */
  ghost function Contents<T>(r: Ring<T>): (s: seq<T>)
    requires Valid(r)
    ensures |s| == r.count
  {
    seq(r.count, i requires 0 <= i < r.count => r.slots[(r.front + i) % QUEUESIZE])
  }

  function Push<T>(r: Ring<T>, x: T): Ring<T>
    requires |r.slots| == QUEUESIZE
  {
    var rear := (r.rear + 1) % QUEUESIZE;
    Ring(r.slots[rear := x], r.front, rear, r.count + 1)
  }

  function Front<T>(r: Ring<T>): T
    requires |r.slots| == QUEUESIZE && r.front < QUEUESIZE
  {
    r.slots[r.front]
  }

  function Pop<T>(r: Ring<T>): Ring<T>
    requires r.count > 0
  {
    Ring(r.slots, (r.front + 1) % QUEUESIZE, r.rear, r.count - 1)
  }

  /** Enqueueing appends, also when the write position wraps around. */
  lemma PushAppends<T>(r: Ring<T>, x: T)
    requires Valid(r) && r.count < QUEUESIZE
    ensures Valid(Push(r, x)) && Contents(Push(r, x)) == Contents(r) + [x]
  {
    var p := Push(r, x);
    assert p.rear == (r.front + r.count) % QUEUESIZE;
    forall i | 0 <= i < p.count
      ensures Contents(p)[i] == (Contents(r) + [x])[i]
    {
      if i < r.count {
        assert (r.front + i) % QUEUESIZE != p.rear;
      }
    }
  }

  /** Dequeueing takes the oldest item, also when the read position wraps around. */
  lemma PopTakesFirst<T>(r: Ring<T>)
    requires Valid(r) && r.count > 0
    ensures Valid(Pop(r)) && Contents(r) == [Front(r)] + Contents(Pop(r))
  {
    var p := Pop(r);
    forall i | 0 <= i < p.count
      ensures Contents(p)[i] == Contents(r)[i + 1]
    {
      assert (p.front + i) % QUEUESIZE == (r.front + (i + 1)) % QUEUESIZE;
    }
    assert Contents(r)[0] == Front(r);
  }

  /** A `queue` structure: ring, start flag and number of tasks its thread has in flight. */
  class Queue<T(0)> {
    const q: array<T>
    var front: nat
    var rear: nat
    var count: nat
    var threadStarted: bool
    var inflight: int

    ghost function State(): Ring<T>
      reads this, q
    {
      Ring(q[..], front, rear, count)
    }

    /** init_queue */
    constructor ()
      ensures fresh(q) && Valid(State()) && Contents(State()) == [] && !threadStarted && inflight == 0
    {
      q := new T[QUEUESIZE];
      front, rear, count := 0, QUEUESIZE - 1, 0;
      threadStarted, inflight := false, 0;
    }

    /** start_dequeue, between lock and unlock */
    method StartDequeue()
      modifies this`threadStarted
      ensures threadStarted
    {
      threadStarted := true;
    }

    /** enqueue, after the lock is taken; a full ring refuses (the source asserts). */
    method Enqueue(x: T) returns (ok: bool)
      requires Valid(State())
      modifies this`rear, this`count, q
      ensures Valid(State())
      ensures ok == (old(count) < QUEUESIZE)
      ensures State() == if ok then Push(old(State()), x) else old(State())
      ensures Contents(State()) == if ok then old(Contents(State())) + [x] else old(Contents(State()))
    {
      if count >= QUEUESIZE {
        return false;
      }
      PushAppends(State(), x);
      rear := (rear + 1) % QUEUESIZE;
      q[rear] := x;
      count := count + 1;
      assert State() == Push(old(State()), x);
      return true;
    }

    /** dequeue, after the lock is taken; the caller's home queue counts the item as in flight. */
    method Dequeue(home: Queue<T>) returns (found: bool, x: T)
      requires Valid(State())
      modifies this`front, this`count, home`inflight
      ensures Valid(State())
      ensures found == (old(count) > 0)
      ensures found ==> State() == Pop(old(State())) && old(Contents(State())) == [x] + Contents(State())
      ensures !found ==> State() == old(State())
      ensures home.inflight == old(home.inflight) + (if found then 1 else 0)
    {
      if count == 0 {
        found, x := false, *;
        return;
      }
      PopTakesFirst(State());
      x := q[front];
      front := (front + 1) % QUEUESIZE;
      count := count - 1;
      home.inflight := home.inflight + 1;
      found := true;
    }

    /** deq_task_finished, between lock and unlock */
    method TaskFinished()
      modifies this`inflight
      ensures inflight == old(inflight) - 1
    {
      inflight := inflight - 1;
    }
  }

  /** lowest: the first queue with the fewest items, or queue 0 when every queue is full. */
  method Lowest(counts: seq<nat>) returns (low: nat)
    requires counts != []
    ensures low < |counts|
    ensures if forall i :: 0 <= i < |counts| ==> counts[i] >= QUEUESIZE then low == 0
            else (forall i :: 0 <= i < |counts| ==> counts[low] <= counts[i])
                 && (forall i :: 0 <= i < low ==> counts[low] < counts[i])
  {
    var lowcount := QUEUESIZE;
    low := 0;
    var i := 0;
    while i < |counts|
      invariant 0 <= i <= |counts| && low < |counts|
      invariant if lowcount == QUEUESIZE then low == 0 && forall k :: 0 <= k < i ==> counts[k] >= QUEUESIZE
                else low < i && lowcount == counts[low] < QUEUESIZE
      invariant forall k :: 0 <= k < i ==> lowcount <= counts[k]
      invariant forall k :: 0 <= k < low ==> lowcount < counts[k]
    {
      if counts[i] < lowcount {
        low, lowcount := i, counts[i];
      }
      i := i + 1;
    }
  }

  /** highest: the first queue with the most items, or queue 0 when every queue is empty. */
  method Highest(counts: seq<nat>) returns (high: nat)
    requires counts != []
    ensures high < |counts|
    ensures forall i :: 0 <= i < |counts| ==> counts[high] >= counts[i]
    ensures forall i :: 0 <= i < high ==> counts[high] > counts[i]
  {
    var highcount := 0;
    high := 0;
    var i := 0;
    while i < |counts|
      invariant 0 <= i <= |counts| && high < |counts|
      invariant if highcount == 0 then high == 0 else high < i && highcount == counts[high]
      invariant forall k :: 0 <= k < i ==> highcount >= counts[k]
      invariant forall k :: 0 <= k < high ==> highcount > counts[k]
    {
      if counts[i] > highcount {
        high, highcount := i, counts[i];
      }
      i := i + 1;
    }
  }
}
