/**
 * The protocol by which the traversal threads share the work queues and detect that all work is
 * done (queue.c, processqueue in transform.c).
 *
 * A state holds the rings, the owner of every queue lock, and for each thread its program counter
 * and its two unlocked counters. A step is one lock operation, one section executed under a lock,
 * or one unlocked read. The theorems hold for any number of threads and any interleaving.
 */
module QueueProtocol {
  import opened WorkQueue

  type Task = nat

  /** On whose behalf a task is being enqueued. */
  datatype Source = FromRoots | FromTask(task: Task)

  /** Where a thread is. A queue index in a constructor is the queue being tried, held or scanned. */
  datatype Pc =
    | Roots                                         // visiting the roots, before processqueue
    | Launch                                        // waiting for the home lock in start_dequeue
    | Starting                                      // holding it
    | DeqTry(q: nat, first: bool)                   // trylock in dequeue; first: the home queue
    | DeqHold(q: nat)
    | Running(task: Task)                           // inside callxformer
    | EnqTry(src: Source, item: Task, q: nat)       // trylock in enqueue
    | EnqHold(src: Source, item: Task, q: nat)
    | Finish(task: Task)                            // waiting for the home lock in deq_task_finished
    | Finishing(task: Task)                         // holding it
    | Check                                         // entering allqempty
    | Scan(i: nat)                                  // the unlocked estimate
    | LockAll(i: nat)                               // holding locks 0..i
    | UnlockAll(i: nat, empty: bool)                // holding locks i..
    | Exited

  datatype Thread = Thread(pc: Pc, inflight: int, started: bool)

  datatype Owner = Free | By(thread: nat)

  datatype State = State(
    rings: seq<Ring<Task>>, locks: seq<Owner>, threads: seq<Thread>,
    allqdone: bool, aborted: bool,
    enqueued: multiset<Task>, finished: multiset<Task>)

  /** What the scheduler or the unlocked reads of `lowest` and `highest` decide. */
  datatype Choice = Go | Add(item: Task, low: nat) | Done | High(q: nat)

  /** The thread holds the lock of queue `q`. */
  predicate Holds(p: Pc, home: nat, q: nat)
  {
    match p
    case Starting => q == home
    case DeqHold(k) => q == k
    case EnqHold(_, _, k) => q == k
    case Finishing(_) => q == home
    case LockAll(i) => q < i
    case UnlockAll(i, _) => i <= q
    case _ => false
  }

  /** The thread is blocked in pthread_mutex_lock, or about to be, on queue `q`. */
  predicate WaitsFor(p: Pc, home: nat, n: nat, q: nat)
  {
    match p
    case Launch => q == home
    case Finish(_) => q == home
    case LockAll(i) => i < n && q == i
    case _ => false
  }

  datatype Load = Nothing | One(task: Task)

  /** The task the thread has taken and not finished. */
  function Carried(p: Pc): Load
  {
    match p
    case Running(x) => One(x)
    case EnqTry(src, _, _) => SourceTask(src)
    case EnqHold(src, _, _) => SourceTask(src)
    case Finish(x) => One(x)
    case Finishing(x) => One(x)
    case _ => Nothing
  }

  function SourceTask(src: Source): Load
  {
    match src
    case FromRoots => Nothing
    case FromTask(x) => One(x)
  }

  function Bag(l: Load): multiset<Task>
  {
    match l
    case Nothing => multiset{}
    case One(x) => multiset{x}
  }

  predicate NotStarted(p: Pc)
  {
    match p
    case Roots => true
    case Launch => true
    case Starting => true
    case EnqTry(src, _, _) => src.FromRoots?
    case EnqHold(src, _, _) => src.FromRoots?
    case _ => false
  }

  predicate PcInRange(p: Pc, n: nat)
  {
    match p
    case DeqTry(q, _) => q < n
    case DeqHold(q) => q < n
    case EnqTry(_, _, q) => q < n
    case EnqHold(_, _, q) => q < n
    case Scan(i) => i <= n
    case LockAll(i) => i <= n
    case UnlockAll(i, _) => i <= n
    case _ => true
  }

  // ----- steps

  predicate Sized(s: State)
  {
    |s.threads| > 0 && |s.rings| == |s.locks| == |s.threads|
  }

  predicate Enabled(s: State, h: nat, c: Choice)
  {
    Sized(s) && h < |s.threads| && !s.aborted && PcInRange(s.threads[h].pc, |s.threads|)
    && Ready(s.locks, s.threads[h].pc, h, c)
  }

  /** A blocking lock must be free; a choice must fit the place it is made at. */
  predicate Ready(locks: seq<Owner>, p: Pc, h: nat, c: Choice)
    requires h < |locks|
  {
    match p
    case Roots => c.Done? || (c.Add? && c.low < |locks|)
    case Launch => c.Go? && locks[h] == Free
    case DeqTry(_, _) => c.High? && c.q < |locks|
    case Running(_) => c.Done? || (c.Add? && c.low < |locks|)
    case Finish(_) => c.Go? && locks[h] == Free
    case LockAll(i) => c.Go? && (i < |locks| ==> locks[i] == Free)
    case Exited => false
    case _ => c.Go?
  }

  /** Everything empty, as allqempty sees it while holding every lock. */
  predicate AllEmpty(s: State)
    requires Sized(s)
  {
    forall i :: 0 <= i < |s.threads| ==>
      s.threads[i].inflight == 0 && s.rings[i].count == 0 && s.threads[i].started
  }

  datatype LockOp = Keep | Take(q: nat) | Drop(q: nat)

  datatype WorkOp = NoWork | Pushed(q: nat,
      item: Task) | Popped(q: nat) | Completed(task: Task) | Latched | Overflow(q: nat)

  /** What a step does: the stepping thread's new state, one lock operation, one effect on the work. */
  datatype Effect = Effect(thread: Thread, lock: LockOp, work: WorkOp)

  function Resume(src: Source): Pc
  {
    match src
    case FromRoots => Roots
    case FromTask(x) => Running(x)
  }

  function Act(s: State, h: nat, c: Choice): Effect
    requires Enabled(s, h, c) && RingsValid(s)
  {
    var n := |s.threads|;
    var t := s.threads[h];
    match t.pc
    case Roots =>
      Effect(t.(pc := if c.Done? then Launch else EnqTry(FromRoots, c.item, c.low)), Keep, NoWork)
    case Launch => Effect(t.(pc := Starting), Take(h), NoWork)
    case Starting => Effect(t.(pc := DeqTry(h, true), started := true), Drop(h), NoWork)
    case DeqTry(q, first) =>
      if s.locks[q] == Free then Effect(t.(pc := DeqHold(q)), Take(q), NoWork)
      else Effect(t.(pc := DeqTry(if first then c.q else (q + 1) % n, false)), Keep, NoWork)
    case DeqHold(q) =>
      if s.rings[q].count == 0 then Effect(t.(pc := Check), Drop(q), NoWork)
      else Effect(t.(pc := Running(Front(s.rings[q])), inflight := t.inflight + 1), Drop(q), Popped(q))
    case Running(x) =>
      Effect(t.(pc := if c.Done? then Finish(x) else EnqTry(FromTask(x), c.item, c.low)), Keep, NoWork)
    case EnqTry(src, item, q) =>
      if s.locks[q] == Free then Effect(t.(pc := EnqHold(src, item, q)), Take(q), NoWork)
      else Effect(t.(pc := EnqTry(src, item, (q + 1) % n)), Keep, NoWork)
    case EnqHold(src, item, q) =>
      if s.rings[q].count >= QUEUESIZE then Effect(t, Keep, Overflow(q))
      else Effect(t.(pc := Resume(src)), Drop(q), Pushed(q, item))
    case Finish(x) => Effect(t.(pc := Finishing(x)), Take(h), NoWork)
    case Finishing(x) => Effect(t.(pc := DeqTry(h, true), inflight := t.inflight - 1), Drop(h), Completed(x))
    case Check => Effect(t.(pc := if s.allqdone then Exited else Scan(0)), Keep, NoWork)
    case Scan(i) =>
      if i >= n then Effect(t.(pc := LockAll(0)), Keep, NoWork)
      else if !s.threads[i].started || s.threads[i].inflight > 0 then Effect(t.(pc := DeqTry(h, true)), Keep, NoWork)
      else Effect(t.(pc := Scan(i + 1)), Keep, NoWork)
    case LockAll(i) =>
      if i < n then Effect(t.(pc := LockAll(i + 1)), Take(i), NoWork)
      else if AllEmpty(s) then Effect(t.(pc := UnlockAll(0, true)), Keep, Latched)
      else Effect(t.(pc := UnlockAll(0, false)), Keep, NoWork)
    case UnlockAll(i, empty) =>
      if i < n then Effect(t.(pc := UnlockAll(i + 1, empty)), Drop(i), NoWork)
      else Effect(t.(pc := if empty then Exited else DeqTry(h, true)), Keep, NoWork)
    case Exited => Effect(t, Keep, NoWork)
  }

  function Relock(locks: seq<Owner>, h: nat, op: LockOp): seq<Owner>
  {
    match op
    case Keep => locks
    case Take(q) => if q < |locks| then locks[q := By(h)] else locks
    case Drop(q) => if q < |locks| then locks[q := Free] else locks
  }

  function Rework(s: State, w: WorkOp): State
    requires RingsValid(s)
  {
    match w
    case NoWork => s
    case Pushed(q, item) =>
      if q < |s.rings| then s.(rings := s.rings[q := Push(s.rings[q], item)], enqueued := s.enqueued + multiset{item})
          else s
    case Popped(q) =>
      if q < |s.rings| && s.rings[q].count > 0 then s.(rings := s.rings[q := Pop(s.rings[q])]) else s
    case Completed(x) => s.(finished := s.finished + multiset{x})
    case Latched => s.(allqdone := true)
    case Overflow(_) => s.(aborted := true)
  }

  function Apply(s: State, h: nat, e: Effect): State
    requires h < |s.threads| && RingsValid(s)
  {
    Rework(s, e.work).(threads := s.threads[h := e.thread], locks := Relock(s.locks, h, e.lock))
  }

  function Step(s: State, h: nat, c: Choice): State
    requires Enabled(s, h, c) && RingsValid(s)
  {
    Apply(s, h, Act(s, h, c))
  }

  /** The main thread visits the roots while the helpers start; every queue is freshly initialised. */
  ghost predicate Init(s: State)
  {
    && Sized(s) && !s.allqdone && !s.aborted
    && s.enqueued == multiset{} && s.finished == multiset{}
    && (forall i :: 0 <= i < |s.threads| ==>
          && Valid(s.rings[i]) && s.rings[i].count == 0 && s.locks[i] == Free
          && s.threads[i] == Thread(if i == |s.threads| - 1 then Roots else Launch, 0, false))
  }

  predicate RingsValid(s: State)
  {
    forall q :: 0 <= q < |s.rings| ==> Valid(s.rings[q])
  }

  ghost predicate Next(s: State, s': State)
  {
    RingsValid(s) && exists h: nat, c: Choice :: Enabled(s, h, c) && s' == Step(s, h, c)
  }

  // ----- the invariant

  /** A lock is owned by exactly the thread whose program counter says so. */
  ghost predicate Owned(locks: seq<Owner>, threads: seq<Thread>)
  {
    && |locks| == |threads|
    && (forall q :: 0 <= q < |locks| && locks[q].By? ==> locks[q].thread < |threads|)
    && (forall h, q :: 0 <= h < |threads| && 0 <= q < |locks| ==>
          (locks[q] == By(h) <==> Holds(threads[h].pc, h, q)))
  }

  /** The counters of a thread reflect where it is. */
  predicate Counted(t: Thread, n: nat)
  {
    match t
    case Thread(p, inflight, started) =>
      PcInRange(p, n) && inflight == (if Carried(p).One? then 1 else 0) && started == !NotStarted(p)
  }

  ghost predicate AllCounted(threads: seq<Thread>)
  {
    forall h :: 0 <= h < |threads| ==> Counted(threads[h], |threads|)
  }

  /** The thread has seen, or itself established, that everything is empty. */
  predicate SawEmpty(p: Pc)
  {
    p.Exited? || (p.UnlockAll? && p.empty)
  }

  /** Once the latch is set nothing is queued, nothing is in flight and every thread has started. */
  ghost predicate LatchSound(s: State)
  {
    match s
    case State(_, _, threads, allqdone, _, _, _) =>
      && Sized(s)
      && (allqdone ==> AllEmpty(s))
      && (forall h :: 0 <= h < |threads| && SawEmpty(threads[h].pc) ==> allqdone)
  }

  ghost function Total(ms: seq<multiset<Task>>): multiset<Task>
  {
    if ms == [] then multiset{} else Total(ms[..|ms| - 1]) + ms[|ms| - 1]
  }

  ghost function RingTasks(rings: seq<Ring<Task>>): seq<multiset<Task>>
    requires forall q :: 0 <= q < |rings| ==> Valid(rings[q])
  {
    seq(|rings|, i requires 0 <= i < |rings| => multiset(Contents(rings[i])))
  }

  ghost function ThreadTasks(threads: seq<Thread>): seq<multiset<Task>>
  {
    seq(|threads|, i requires 0 <= i < |threads| => Bag(Carried(threads[i].pc)))
  }

  /** Every enqueued task is finished, in flight or queued, with multiplicity. */
  ghost predicate Conserved(s: State)
  {
    match s
    case State(rings, _, threads, _, _, enqueued, finished) =>
      RingsValid(s) && enqueued == finished + Total(ThreadTasks(threads)) + Total(RingTasks(rings))
  }

  ghost predicate Inv(s: State)
  {
    match s
    case State(_, locks, threads, _, _, _, _) =>
      Owned(locks, threads) && AllCounted(threads) && LatchSound(s) && Conserved(s)
  }

  // ----- preservation: locks and counters

  /** The locks held before and after differ by the lock operation, which was possible. */
  ghost predicate Fits(locks: seq<Owner>, h: nat, p: Pc, p': Pc, op: LockOp)
  {
    match op
    case Keep => forall q :: 0 <= q < |locks| ==> (Holds(p', h, q) <==> Holds(p, h, q))
    case Take(k) =>
      && k < |locks| && locks[k] == Free
      && (forall q :: 0 <= q < |locks| ==> (Holds(p', h, q) <==> q == k || Holds(p, h, q)))
    case Drop(k) =>
      && k < |locks| && Holds(p, h, k)
      && (forall q :: 0 <= q < |locks| ==> (Holds(p', h, q) <==> q != k && Holds(p, h, q)))
  }

  lemma ActLocks(s: State, h: nat, c: Choice)
    requires Enabled(s, h, c) && RingsValid(s)
    ensures Fits(s.locks, h, s.threads[h].pc, Act(s, h, c).thread.pc, Act(s, h, c).lock)
  {
  }

  lemma Relocked(locks: seq<Owner>, threads: seq<Thread>, h: nat, t: Thread, op: LockOp)
    requires Owned(locks, threads) && h < |threads| && Fits(locks, h, threads[h].pc, t.pc, op)
    ensures Owned(Relock(locks, h, op), threads[h := t])
  {
    var locks', threads' := Relock(locks, h, op), threads[h := t];
    forall g, q | 0 <= g < |threads'| && 0 <= q < |locks'|
      ensures locks'[q] == By(g) <==> Holds(threads'[g].pc, g, q)
    {
      assert locks[q] == By(g) <==> Holds(threads[g].pc, g, q);
      assert locks[q] == By(h) <==> Holds(threads[h].pc, h, q);
    }
  }

  lemma LocksStep(s: State, h: nat, c: Choice)
    requires Owned(s.locks, s.threads) && Enabled(s, h, c) && RingsValid(s)
    ensures Owned(Step(s, h, c).locks, Step(s, h, c).threads)
  {
    ActLocks(s, h, c);
    Relocked(s.locks, s.threads, h, Act(s, h, c).thread, Act(s, h, c).lock);
  }

  lemma ActCounted(s: State, h: nat, c: Choice)
    requires Enabled(s, h, c) && RingsValid(s) && Counted(s.threads[h], |s.threads|)
    ensures Counted(Act(s, h, c).thread, |s.threads|)
  {
  }

  lemma CountersStep(s: State, h: nat, c: Choice)
    requires AllCounted(s.threads) && Enabled(s, h, c) && RingsValid(s)
    ensures AllCounted(Step(s, h, c).threads)
  {
    ActCounted(s, h, c);
  }

  // ----- preservation: the latch

  /** How the work effect of a step relates to the thread that takes it. */
  ghost predicate WorkFits(s: State, t: Thread, e: Effect)
    requires Sized(s) && RingsValid(s)
  {
    match e.work
    case NoWork => Carried(e.thread.pc) == Carried(t.pc) && (t.started ==> e.thread.started)
    case Pushed(q, x) =>
      && q < |s.rings| && s.rings[q].count < QUEUESIZE
      && (Carried(t.pc).One? || !t.started) && Carried(e.thread.pc) == Carried(t.pc)
    case Popped(q) =>
      && q < |s.rings| && s.rings[q].count > 0
      && Carried(t.pc) == Nothing && Carried(e.thread.pc) == One(Front(s.rings[q]))
    case Completed(x) => Carried(t.pc) == One(x) && Carried(e.thread.pc) == Nothing
    case Latched => AllEmpty(s) && e.thread.inflight == t.inflight && e.thread.started == t.started
        && Carried(e.thread.pc) == Carried(t.pc)
    case Overflow(q) => q < |s.rings| && s.rings[q].count >= QUEUESIZE && e.thread == t
  }

  lemma ActWork(s: State, h: nat, c: Choice)
    requires Enabled(s, h, c) && RingsValid(s) && Counted(s.threads[h], |s.threads|)
    ensures WorkFits(s, s.threads[h], Act(s, h, c))
  {
  }

  lemma ActSaw(s: State, h: nat, c: Choice)
    requires Enabled(s, h, c) && RingsValid(s) && SawEmpty(Act(s, h, c).thread.pc)
    ensures s.allqdone || Act(s, h, c).work.Latched? || SawEmpty(s.threads[h].pc)
  {
  }

  lemma LatchApply(s: State, h: nat, e: Effect)
    requires Sized(s) && RingsValid(s) && LatchSound(s) && h < |s.threads|
    requires Counted(s.threads[h], |s.threads|) && Counted(e.thread, |s.threads|)
    requires WorkFits(s, s.threads[h], e)
    requires SawEmpty(e.thread.pc) ==> s.allqdone || e.work.Latched? || SawEmpty(s.threads[h].pc)
    ensures LatchSound(Apply(s, h, e))
    ensures s.allqdone ==> Apply(s, h, e).allqdone && Apply(s, h, e).enqueued == s.enqueued
  {
    var s' := Apply(s, h, e);
    if s.allqdone {
      assert s.threads[h].inflight == 0 && s.threads[h].started;
      assert e.work.NoWork? || e.work.Latched?;
    }
    if s'.allqdone {
      assert AllEmpty(s) && s'.rings == s.rings;
      assert e.thread.inflight == 0 && e.thread.started;
    }
  }

  lemma LatchStep(s: State, h: nat, c: Choice)
    requires Inv(s) && Enabled(s, h, c)
    ensures LatchSound(Step(s, h, c))
    ensures s.allqdone ==> Step(s, h, c).allqdone && Step(s, h, c).enqueued == s.enqueued
  {
    var e := Act(s, h, c);
    assert Counted(s.threads[h], |s.threads|);
    ActWork(s, h, c);
    ActCounted(s, h, c);
    if SawEmpty(e.thread.pc) {
      ActSaw(s, h, c);
    }
    LatchApply(s, h, e);
  }

  // ----- preservation: conservation

  lemma {:induction false} TotalUpdate(ms: seq<multiset<Task>>, i: nat, m: multiset<Task>)
    requires i < |ms|
    ensures Total(ms[i := m]) + ms[i] == Total(ms) + m
  {
    var init, last := ms[..|ms| - 1], ms[|ms| - 1];
    if i == |ms| - 1 {
      assert ms[i := m][..|ms| - 1] == init;
    } else {
      assert ms[i := m][..|ms| - 1] == init[i := m];
      TotalUpdate(init, i, m);
      calc {
        Total(ms[i := m]) + ms[i];
        (Total(init[i := m]) + last) + ms[i];
        (Total(init[i := m]) + init[i]) + last;
        (Total(init) + m) + last;
        (Total(init) + last) + m;
        Total(ms) + m;
      }
    }
  }

  /** What a step moves between queued, in flight and finished. */
  lemma ThreadMoved(s: State, h: nat, t: Thread)
    requires h < |s.threads|
    ensures Total(ThreadTasks(s.threads[h := t])) + Bag(Carried(s.threads[h].pc))
         == Total(ThreadTasks(s.threads)) + Bag(Carried(t.pc))
  {
    assert ThreadTasks(s.threads[h := t]) == ThreadTasks(s.threads)[h := Bag(Carried(t.pc))];
    TotalUpdate(ThreadTasks(s.threads), h, Bag(Carried(t.pc)));
  }

  lemma RingMoved(rings: seq<Ring<Task>>, q: nat, r: Ring<Task>)
    requires forall i :: 0 <= i < |rings| ==> Valid(rings[i])
    requires q < |rings| && Valid(r)
    ensures Total(RingTasks(rings[q := r])) + multiset(Contents(rings[q]))
         == Total(RingTasks(rings)) + multiset(Contents(r))
  {
    assert RingTasks(rings[q := r]) == RingTasks(rings)[q := multiset(Contents(r))];
    TotalUpdate(RingTasks(rings), q, multiset(Contents(r)));
  }

  lemma ConservedPush(s: State, h: nat, e: Effect, q: nat, item: Task)
    requires Sized(s) && Conserved(s) && h < |s.threads| && WorkFits(s, s.threads[h], e) && e.work == Pushed(q, item)
    ensures Conserved(Apply(s, h, e))
  {
    var r := Push(s.rings[q], item);
    ThreadMoved(s, h, e.thread);
    PushAppends(s.rings[q], item);
    RingMoved(s.rings, q, r);
    Balance(s.finished, Total(ThreadTasks(s.threads)), Total(RingTasks(s.rings)),
            Total(ThreadTasks(s.threads[h := e.thread])), Total(RingTasks(s.rings[q := r])),
            Bag(Carried(s.threads[h].pc)), Bag(Carried(e.thread.pc)),
            multiset(Contents(s.rings[q])), multiset(Contents(r)), multiset{item}, multiset{});
    assert s.finished + multiset{} == s.finished;
  }

  lemma ConservedPop(s: State, h: nat, e: Effect, q: nat)
    requires Sized(s) && Conserved(s) && h < |s.threads| && WorkFits(s, s.threads[h], e) && e.work == Popped(q)
    ensures Conserved(Apply(s, h, e))
  {
    var r := Pop(s.rings[q]);
    ThreadMoved(s, h, e.thread);
    PopTakesFirst(s.rings[q]);
    RingMoved(s.rings, q, r);
    Moved(s.finished, Total(ThreadTasks(s.threads)), Total(RingTasks(s.rings)),
          Total(ThreadTasks(s.threads[h := e.thread])), Total(RingTasks(s.rings[q := r])),
          multiset{Front(s.rings[q])}, multiset(Contents(s.rings[q])), multiset(Contents(r)));
  }

  lemma ConservedFinish(s: State, h: nat, e: Effect, x: Task)
    requires Sized(s) && Conserved(s) && h < |s.threads| && WorkFits(s, s.threads[h], e) && e.work == Completed(x)
    ensures Conserved(Apply(s, h, e))
  {
    ThreadMoved(s, h, e.thread);
    Cancel(Total(ThreadTasks(s.threads)), Total(ThreadTasks(s.threads[h := e.thread])) + multiset{x}, multiset{});
  }

  lemma ConservedRest(s: State, h: nat, e: Effect)
    requires Sized(s) && Conserved(s) && h < |s.threads| && WorkFits(s, s.threads[h], e)
    requires !e.work.Pushed? && !e.work.Popped? && !e.work.Completed?
    ensures Conserved(Apply(s, h, e))
  {
    ThreadMoved(s, h, e.thread);
    Cancel(Total(ThreadTasks(s.threads)), Total(ThreadTasks(s.threads[h := e.thread])), Bag(Carried(e.thread.pc)));
  }

  lemma Cancel(x: multiset<Task>, y: multiset<Task>, c: multiset<Task>)
    requires x + c == y + c
    ensures x == y
  {
    forall t: Task
      ensures x[t] == y[t]
    {
      assert (x + c)[t] == (y + c)[t];
    }
  }

  /** A task moves from a ring to the thread that will run it. */
  lemma Moved(fin: multiset<Task>, fly: multiset<Task>, que: multiset<Task>, fly': multiset<Task>, que': multiset<Task>,
              x: multiset<Task>, r: multiset<Task>, r': multiset<Task>)
    requires fly' + multiset{} == fly + x && que' + r == que + r' && r == x + r'
    ensures fin + fly + que == fin + fly' + que'
  {
    forall t: Task
      ensures (fin + fly + que)[t] == (fin + fly' + que')[t]
    {
      assert (fly' + multiset{})[t] == (fly + x)[t];
      assert (que' + r)[t] == (que + r')[t];
    }
  }

  /** Bookkeeping: `a` enters, `f` leaves, `c` becomes `c'` in flight and `r` becomes `r'` in a ring. */
  lemma Balance(fin: multiset<Task>, fly: multiset<Task>, que: multiset<Task>, fly': multiset<Task>,
      que': multiset<Task>,
                c: multiset<Task>, c': multiset<Task>, r: multiset<Task>, r': multiset<Task>, a: multiset<Task>,
                    f: multiset<Task>)
    requires fly' + c == fly + c' && que' + r == que + r' && c + r + a == c' + r' + f
    ensures (fin + fly + que) + a == (fin + f) + fly' + que'
  {
    forall t: Task
      ensures ((fin + fly + que) + a)[t] == ((fin + f) + fly' + que')[t]
    {
      assert (fly' + c)[t] == (fly + c')[t];
      assert (que' + r)[t] == (que + r')[t];
      assert (c + r + a)[t] == (c' + r' + f)[t];
    }
  }

  lemma ConservedStep(s: State, h: nat, c: Choice)
    requires Inv(s) && Enabled(s, h, c)
    ensures Conserved(Step(s, h, c))
  {
    assert Counted(s.threads[h], |s.threads|);
    ActWork(s, h, c);
    var e := Act(s, h, c);
    match e.work
    case Pushed(q, item) => ConservedPush(s, h, e, q, item);
    case Popped(q) => ConservedPop(s, h, e, q);
    case Completed(x) => ConservedFinish(s, h, e, x);
    case _ => ConservedRest(s, h, e);
  }

  lemma InvStep(s: State, h: nat, c: Choice)
    requires Inv(s) && Enabled(s, h, c)
    ensures Inv(Step(s, h, c))
  {
    LocksStep(s, h, c);
    CountersStep(s, h, c);
    LatchStep(s, h, c);
    ConservedStep(s, h, c);
  }

  lemma {:induction false} TotalEmpty(ms: seq<multiset<Task>>)
    requires forall i :: 0 <= i < |ms| ==> ms[i] == multiset{}
    ensures Total(ms) == multiset{}
  {
    if ms != [] {
      TotalEmpty(ms[..|ms| - 1]);
    }
  }

  lemma InvInit(s: State)
    requires Init(s)
    ensures Inv(s)
  {
    TotalEmpty(ThreadTasks(s.threads));
    TotalEmpty(RingTasks(s.rings));
  }

  // ----- theorems about whole runs

  /** A run: any interleaving of enabled steps from an initial state. */
  ghost predicate Run(tr: seq<State>)
  {
    tr != [] && Init(tr[0]) && forall i :: 0 <= i < |tr| - 1 ==> Linked(tr, i)
  }

  ghost predicate Linked(tr: seq<State>, i: nat)
    requires i < |tr| - 1
  {
    Next(tr[i], tr[i + 1])
  }

  lemma NextKeepsInv(s: State, s': State)
    ensures Inv(s) && Next(s, s') ==> Inv(s') && (s.allqdone ==> s'.allqdone && s'.enqueued == s.enqueued)
  {
    if Inv(s) && Next(s, s') {
      var h: nat, c: Choice :| Enabled(s, h, c) && s' == Step(s, h, c);
      InvStep(s, h, c);
      LatchStep(s, h, c);
    }
  }

  lemma LinkKeepsInv(tr: seq<State>, k: nat)
    requires Run(tr) && k + 1 < |tr|
    ensures Inv(tr[k]) ==> Inv(tr[k + 1]) && (tr[k].allqdone ==>
          tr[k + 1].allqdone && tr[k + 1].enqueued == tr[k].enqueued)
  {
    assert Linked(tr, k);
    NextKeepsInv(tr[k], tr[k + 1]);
  }

  lemma {:induction false} InvAlways(tr: seq<State>, k: nat)
    requires Run(tr) && k < |tr|
    ensures Inv(tr[k]) == true
  {
    if k == 0 {
      InvInit(tr[0]);
    } else {
      InvAlways(tr, k - 1);
      LinkKeepsInv(tr, k - 1);
    }
  }

  /** Nothing is queued and no thread carries a task. */
  ghost predicate Quiescent(s: State)
  {
    match s
    case State(rings, _, threads, _, _, _, _) =>
      && (forall q :: 0 <= q < |rings| ==> rings[q].count == 0)
      && (forall h :: 0 <= h < |threads| ==> threads[h].inflight == 0 && Carried(threads[h].pc) == Nothing)
  }

  lemma QuietAt(tr: seq<State>, k: nat)
    requires Run(tr) && k < |tr|
    ensures tr[k].allqdone ==> Quiescent(tr[k])
  {
    InvAlways(tr, k);
    QuiescentWhenDone(tr[k]);
  }

  lemma LatchStays(tr: seq<State>, k: nat)
    requires Run(tr) && k + 1 < |tr|
    ensures tr[k].allqdone ==> tr[k + 1].allqdone && tr[k + 1].enqueued == tr[k].enqueued
  {
    InvAlways(tr, k);
    LinkKeepsInv(tr, k);
  }

  /**
   * Termination detection is safe: from the moment the latch is set, every ring is empty, no task
   * is in flight, and no step ever enqueues again.
   */
  lemma {:induction false} TerminationSafety(tr: seq<State>, i: nat, j: nat)
    requires Run(tr) && i <= j < |tr| && tr[i].allqdone
    ensures tr[j].allqdone && Quiescent(tr[j]) && tr[j].enqueued == tr[i].enqueued
    decreases j
  {
    if i < j {
      TerminationSafety(tr, i, j - 1);
      LatchStays(tr, j - 1);
    }
    QuietAt(tr, j);
  }

  lemma QuiescentWhenDone(s: State)
    ensures Inv(s) && s.allqdone ==> Quiescent(s)
  {
    if Inv(s) && s.allqdone {
      forall h | 0 <= h < |s.threads|
        ensures s.threads[h].inflight == 0 && Carried(s.threads[h].pc) == Nothing
      {
        assert Counted(s.threads[h], |s.threads|);
      }
    }
  }

  /** A thread leaves the loop only when every task ever enqueued has been finished. */
  lemma ExitMeansAllDone(tr: seq<State>, k: nat, h: nat)
    requires Run(tr) && k < |tr| && h < |tr[k].threads| && tr[k].threads[h].pc.Exited?
    ensures tr[k].enqueued == tr[k].finished
  {
    InvAlways(tr, k);
    var s := tr[k];
    assert SawEmpty(s.threads[h].pc);
    QuiescentWhenDone(s);
    TotalEmpty(ThreadTasks(s.threads));
    TotalEmpty(RingTasks(s.rings));
  }

  /**
   * Task conservation: at every point of every run the enqueued tasks are the finished ones plus
   * those in flight plus those queued, so no task is lost and none runs twice.
   */
  lemma TaskConservation(tr: seq<State>, k: nat)
    requires Run(tr) && k < |tr|
    ensures RingsValid(tr[k])
    ensures tr[k].enqueued == tr[k].finished + Total(ThreadTasks(tr[k].threads)) + Total(RingTasks(tr[k].rings))
  {
    InvAlways(tr, k);
  }

  /**
   * The queue locks cannot deadlock: whenever some thread holds or waits for a lock, a thread that
   * holds or waits for one can step.
   */
  lemma DeadlockFreedom(tr: seq<State>, k: nat, h: nat)
    requires Run(tr) && k < |tr| && !tr[k].aborted && h < |tr[k].threads|
    requires Engaged(tr[k], h)
    ensures exists g: nat :: g < |tr[k].threads| && Engaged(tr[k], g) && Enabled(tr[k], g, Go)
  {
    InvAlways(tr, k);
    var g := Unblocked(tr[k], h);
  }

  /** The thread holds a lock or is blocked on one. */
  ghost predicate Engaged(s: State, h: nat)
    requires h < |s.threads|
  {
    exists q: nat :: q < |s.threads| && (Holds(s.threads[h].pc, h, q) || WaitsFor(s.threads[h].pc, h, |s.threads|, q))
  }

  /** Follow the owner of a wanted lock; locks taken in index order bound the chain. */
  lemma Unblocked(s: State, h: nat) returns (g: nat)
    requires Inv(s) && !s.aborted && h < |s.threads| && Engaged(s, h)
    ensures g < |s.threads| && Engaged(s, g) && Enabled(s, g, Go)
  {
    g := h;
    assert Counted(s.threads[g], |s.threads|);
    if !Enabled(s, g, Go) {
      g := OwnerOf(s, if s.threads[g].pc.LockAll? then s.threads[g].pc.i else g);
      if !Enabled(s, g, Go) {
        var i := s.threads[g].pc.i;
        assert s.threads[g].pc == LockAll(i) && 0 < i < |s.threads|;
        var g' := OwnerOf(s, i);
        assert Holds(s.threads[g].pc, g, 0) && s.locks[0] == By(g);
        g := g';
      }
    }
  }

  lemma OwnerOf(s: State, q: nat) returns (g: nat)
    requires Inv(s) && !s.aborted && q < |s.threads| && s.locks[q] != Free
    ensures g < |s.threads| && s.locks[q] == By(g) && Holds(s.threads[g].pc, g, q) && Engaged(s, g)
    ensures Counted(s.threads[g], |s.threads|)
    ensures Enabled(s, g, Go) || (s.threads[g].pc.LockAll? && q < s.threads[g].pc.i < |s.threads|
        && s.locks[s.threads[g].pc.i] != Free)
  {
    g := s.locks[q].thread;
    assert Holds(s.threads[g].pc, g, q);
    assert Counted(s.threads[g], |s.threads|);
  }

  // ----- a traversal with one thread

  /** Where the only thread is, whether it holds the only lock, and the latch. */
  datatype Spot = Spot(pc: Pc, started: bool, locked: bool, done: bool)

  /** The state of the only thread, with these tasks enqueued and finished so far. */
  function Solo(ring: Ring<Task>, p: Spot, inflight: int, enqueued: multiset<Task>, finished: multiset<Task>): State
  {
    State([ring], [if p.locked then By(0) else Free], [Thread(p.pc, inflight, p.started)], p.done, false, enqueued,
        finished)
  }

  /** The way of the only thread from the end of the roots to its exit, when it finds nothing to do. */
  function WayOut(i: nat): Spot
  {
    match i
    case 0 => Spot(Launch, false, false, false)
    case 1 => Spot(Starting, false, true, false)
    case 2 => Spot(DeqTry(0, true), true, false, false)
    case 3 => Spot(DeqHold(0), true, true, false)
    case 4 => Spot(Check, true, false, false)
    case 5 => Spot(Scan(0), true, false, false)
    case 6 => Spot(Scan(1), true, false, false)
    case 7 => Spot(LockAll(0), true, false, false)
    case 8 => Spot(LockAll(1), true, true, false)
    case 9 => Spot(UnlockAll(0, true), true, true, true)
    case 10 => Spot(UnlockAll(1, true), true, false, true)
    case _ => Spot(Exited, true, false, true)
  }

  function WayChoice(i: nat): Choice
  {
    if i == 2 then High(0) else Go
  }

  /** One step of the way; from the first look at the queue on it has to be empty. */
  lemma WayStep(ring: Ring<Task>, i: nat, enqueued: multiset<Task>, finished: multiset<Task>, s: State)
    requires i < 11 && Valid(ring) && (i >= 3 ==> ring.count == 0) && s == Solo(ring, WayOut(i), 0, enqueued, finished)
    ensures Enabled(s, 0, WayChoice(i)) && RingsValid(s)
    ensures Step(s, 0, WayChoice(i)) == Solo(ring, WayOut(i + 1), 0, enqueued, finished)
  {
    assert RingsValid(s);
    assert AllEmpty(s) || i < 8 || i > 8;
  }

  function WayState(ring: Ring<Task>, i: nat): State
  {
    if i == 0 then Solo(ring, Spot(Roots, false, false, false), 0, multiset{}, multiset{})
    else Solo(ring, WayOut(i - 1), 0, multiset{}, multiset{})
  }

  lemma WayLinked(ring: Ring<Task>, i: nat)
    requires i < 12 && Valid(ring) && ring.count == 0
    ensures Next(WayState(ring, i), WayState(ring, i + 1))
  {
    var s := WayState(ring, i);
    if i == 0 {
      assert Enabled(s, 0, Done) && WayState(ring, 1) == Step(s, 0, Done);
    } else {
      WayStep(ring, i - 1, multiset{}, multiset{}, s);
      assert WayState(ring, i + 1) == Step(s, 0, WayChoice(i - 1));
    }
  }

  /** There are runs that set the latch and end: here, one thread that finds nothing to do. */
  lemma SomeRunEnds() returns (tr: seq<State>)
    ensures Run(tr) && tr[|tr| - 1].allqdone && |tr[|tr| - 1].threads| == 1 && tr[|tr| - 1].threads[0].pc == Exited
  {
    var ring := Ring(seq(QUEUESIZE, _ => 0), 0, QUEUESIZE - 1, 0);
    tr := seq(13, i requires 0 <= i < 13 => WayState(ring, i));
    forall i | 0 <= i < 12
      ensures Linked(tr, i)
    {
      WayLinked(ring, i);
    }
    assert WayOut(11).pc == Exited;
  }
}
