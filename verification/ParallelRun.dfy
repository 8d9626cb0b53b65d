/**
 * A whole run of the parallel traversal, so that what is proved about finished runs is not empty: one
 * thread, any heap, and a struct of numbers as root. The struct is queued, taken, visited and
 * finished, and the thread leaves its loop.
 */
module ParallelRun {
  import opened Traversal
  import opened Walk
  import opened WorkQueue
  import opened ParallelTraversal
  import Links

  ghost predicate Asked(i: int) { true }

  /** Some run comes to the state; in view only where `Asked` is mentioned. */
  ghost predicate Attained(w: World, s: State)
  {
    (forall i {:trigger Asked(i)} :: Asked(i) ==> exists run :: Run(w, run) && run[|run| - 1] == s) == true
  }

  lemma Start(w: World, s: State)
    requires Init(w, s)
    ensures Attained(w, s)
  {
    assert Run(w, [s]) && [s][0] == s;
  }

  lemma OneMore(w: World, run: seq<State>, s': State, run': seq<State>)
    requires Run(w, run) && ParallelTraversal.Next(w, run[|run| - 1], s') == true && run' == run + [s']
    ensures Run(w, run') == true
  {
    forall i | 0 < i < |run'|
      ensures Follows1(w, run', i) == true
    {
      if i < |run| {
        assert Follows1(w, run, i) && run'[i - 1] == run[i - 1] && run'[i] == run[i];
      }
    }
  }

  lemma Onwards(w: World, s: State, s': State)
    requires Attained(w, s) == true && ParallelTraversal.Next(w, s, s') == true
    ensures Attained(w, s') == true
  {
    assert Asked(0);
    var run :| Run(w, run) && run[|run| - 1] == s;
    var run' := run + [s'];
    OneMore(w, run, s', run');
    assert run'[|run'| - 1] == s';
  }

  /** A step of the queues that leaves the books alone. */
  lemma Quietly(w: World, q: Q.State, m: M.State, b: Books, c: Q.Choice, q': Q.State)
    requires Attained(w, State(q, m, b)) && Sized(State(q, m, b)) && Q.RingsValid(q)
    requires Q.Enabled(q, 0, c) && q' == Q.Step(q, 0, c)
    requires if Works(q.threads[0].pc) then c.Done? && b.todo[0] == [] && m.pcs[0].Idle?
             else !(q.threads[0].pc.DeqHold? && q'.threads[0].pc.Running?)
    ensures Attained(w, State(q', m, b))
  {
    assert QueueStep(w, State(q, m, b), 0, c, 0, State(q', m, b));
    Onwards(w, State(q, m, b), State(q', m, b));
  }

  // ----- the stations of the run

  /** The books of the only thread. */
  function Alone(todo: seq<Item>, bodies: seq<seq<Item>>, seen: set<Item>): Books
  {
    Books([todo], [false], bodies, seen)
  }

  ghost predicate OneIdle(m: M.State)
  {
    |m.pcs| == 1 && m.pcs[0].Idle?
  }

  /** The thread, not yet started, with this place in the code. */
  function AtStart(pc: Q.Pc, locked: bool): Q.Spot { Q.Spot(pc, false, locked, false) }

  function Later(pc: Q.Pc, locked: bool): Q.Spot { Q.Spot(pc, true, locked, false) }

  /** The root struct is put into the queue. */
  lemma Enqueues(w: World, ring: Ring<Q.Task>, m: M.State, top: Item, body: seq<Item>, b: Books)
    requires Valid(ring) && ring.count == 0 && OneIdle(m) && top.ty.Struct? && body == Members(top.loc, top.ty.fields)
    requires Attained(w, State(Q.Solo(ring, AtStart(Q.Roots, false), 0, multiset{}, multiset{}), m,
        Alone([top], [], {})))
    requires b == Alone([], [body], {top})
    ensures Valid(Push(ring, 0))
    ensures Attained(w, State(Q.Solo(Push(ring, 0), AtStart(Q.Roots, false), 0, multiset{0}, multiset{}), m, b))
  {
    PushAppends(ring, 0);
    var none: multiset<Q.Task> := multiset{};
    var q0 := Q.Solo(ring, AtStart(Q.Roots, false), 0, none, none);
    var q1 := Q.Solo(ring, AtStart(Q.EnqTry(Q.FromRoots, 0, 0), false), 0, none, none);
    var q2 := Q.Solo(ring, AtStart(Q.EnqHold(Q.FromRoots, 0, 0), true), 0, none, none);
    var q3 := Q.Solo(Push(ring, 0), AtStart(Q.Roots, false), 0, multiset{0}, none);
    Deferred(w, q0, m, top, body, b, q1);
    assert q2 == Q.Step(q1, 0, Q.Go);
    Quietly(w, q1, m, b, Q.Go, q2);
    assert q3 == Q.Step(q2, 0, Q.Go);
    Quietly(w, q2, m, b, Q.Go, q3);
  }

  lemma Deferred(w: World, q: Q.State, m: M.State, top: Item, body: seq<Item>, b: Books, q': Q.State)
    requires Attained(w, State(q, m, Alone([top], [], {}))) && OneIdle(m) && Q.RingsValid(q) && |q.threads| == 1
    requires top.ty.Struct? && body == Members(top.loc, top.ty.fields) && b == Alone([], [body], {top})
    requires q.threads[0].pc == Q.Roots && Q.Enabled(q, 0, Q.Add(0, 0)) && q' == Q.Step(q, 0, Q.Add(0, 0))
    ensures Attained(w, State(q', m, b))
  {
    var s := State(q, m, Alone([top], [], {}));
    assert [] + [top][1..] == [] && {} + {top} == {top} && [] + [body] == [body];
    assert Defer(s.b, 0) == b;
    assert QueueStep(w, s, 0, Q.Add(0, 0), 0, State(q', m, b));
    Onwards(w, s, State(q', m, b));
  }

  lemma NoWork(i: nat)
    ensures !Works(Q.WayOut(i).pc) && !Q.WayOut(i).pc.Running?
  {
  }

  lemma Unoccupied(w: World, q: Q.State, m: M.State, b: Books, i: nat, q': Q.State)
    requires Attained(w, State(q, m, b)) == true && Sized(State(q, m, b)) && Q.RingsValid(q) && |q.threads| == 1
    requires Q.Enabled(q, 0, Q.WayChoice(i)) == true && q' == Q.Step(q, 0, Q.WayChoice(i)) && |q'.threads| == 1
    requires q.threads[0].pc == Q.WayOut(i).pc && q'.threads[0].pc == Q.WayOut(i + 1).pc
    ensures Attained(w, State(q', m, b)) == true
  {
    NoWork(i);
    NoWork(i + 1);
    Quietly(w, q, m, b, Q.WayChoice(i), q');
  }

  /** One step of the way out. */
  lemma WayOn(w: World, ring: Ring<Q.Task>, m: M.State, b: Books, enqueued: multiset<Q.Task>,
      finished: multiset<Q.Task>, i: nat, p: Q.Spot, p': Q.Spot)
    requires i < 11 && Valid(ring) && (i >= 3 ==> ring.count == 0) && OneIdle(m) && |b.todo| == |b.first| == 1
    requires p == Q.WayOut(i) && p' == Q.WayOut(i + 1)
    requires Attained(w, State(Q.Solo(ring, p, 0, enqueued, finished), m, b)) == true
    ensures Attained(w, State(Q.Solo(ring, p', 0, enqueued, finished), m, b)) == true
  {
    var q, q' := Q.Solo(ring, p, 0, enqueued, finished), Q.Solo(ring, p', 0, enqueued, finished);
    Q.WayStep(ring, i, enqueued, finished, q);
    Unoccupied(w, q, m, b, i, q');
  }

  /** A stretch of the way out. */
  lemma {:induction false} Way(w: World, ring: Ring<Q.Task>, m: M.State, b: Books, enqueued: multiset<Q.Task>,
      finished: multiset<Q.Task>, from: nat, to: nat)
    requires from <= to <= 11 && Valid(ring) && (to > 3 ==> ring.count == 0) && OneIdle(m) && |b.todo| == |b.first| == 1
    requires Attained(w, State(Q.Solo(ring, Q.WayOut(from), 0, enqueued, finished), m, b)) == true
    ensures Attained(w, State(Q.Solo(ring, Q.WayOut(to), 0, enqueued, finished), m, b)) == true
    decreases 11 - from
  {
    if from < to {
      WayOn(w, ring, m, b, enqueued, finished, from, Q.WayOut(from), Q.WayOut(from + 1));
      Way(w, ring, m, b, enqueued, finished, from + 1, to);
    }
  }

  /** The task is taken from the queue. */
  lemma Takes(w: World, ring: Ring<Q.Task>, m: M.State, body: seq<Item>, seen: set<Item>)
    requires Valid(ring) && ring.count == 1 && Front(ring) == 0 && OneIdle(m)
    requires Attained(w, State(Q.Solo(ring, Q.WayOut(3), 0, multiset{0}, multiset{}), m, Alone([], [body], seen)))
    ensures Valid(Pop(ring))
    ensures Attained(w, State(Q.Solo(Pop(ring), Later(Q.Running(0), false), 1, multiset{0}, multiset{}), m,
        Alone(body, [body], seen)))
  {
    PopTakesFirst(ring);
    var q := Q.Solo(ring, Q.WayOut(3), 0, multiset{0}, multiset{});
    var q' := Q.Solo(Pop(ring), Later(Q.Running(0), false), 1, multiset{0}, multiset{});
    var s, s' := State(q, m, Alone([], [body], seen)), State(q', m, Alone(body, [body], seen));
    assert Q.RingsValid(q) && Q.Enabled(q, 0, Q.Go) && q' == Q.Step(q, 0, Q.Go);
    assert s'.b == s.b.(todo := s.b.todo[0 := Body(s.b, 0)]);
    assert QueueStep(w, s, 0, Q.Go, 0, s');
    Onwards(w, s, s');
  }

  ghost predicate Numbers(items: seq<Item>)
  {
    forall i :: 0 <= i < |items| ==> items[i].ty.Prim?
  }

  /** The numbers of the task are visited one by one. */
  lemma {:induction false} Visits(w: World, q: Q.State, m: M.State, todo: seq<Item>, bodies: seq<seq<Item>>,
      seen: set<Item>) returns (seen': set<Item>)
    requires Numbers(todo) && OneIdle(m) && |q.threads| == 1 && Works(q.threads[0].pc)
    requires Attained(w, State(q, m, Alone(todo, bodies, seen)))
    ensures Attained(w, State(q, m, Alone([], bodies, seen')))
    decreases |todo|
  {
    if todo == [] {
      seen' := seen;
    } else {
      var s, s' := State(q, m, Alone(todo, bodies, seen)), State(q, m, Alone(todo[1..], bodies, seen + {todo[0]}));
      assert [] + todo[1..] == todo[1..];
      assert PlainStep(w, s, 0, s');
      Onwards(w, s, s');
      seen' := Visits(w, q, m, todo[1..], bodies, seen + {todo[0]});
    }
  }

  /** The task is finished. */
  lemma Finishes(w: World, ring: Ring<Q.Task>, m: M.State, b: Books)
    requires Valid(ring) && OneIdle(m) && |b.todo| == |b.first| == 1 && b.todo[0] == []
    requires Attained(w, State(Q.Solo(ring, Later(Q.Running(0), false), 1, multiset{0}, multiset{}), m, b))
    ensures Attained(w, State(Q.Solo(ring, Q.WayOut(2), 0, multiset{0}, multiset{0}), m, b))
  {
    var one: multiset<Q.Task> := multiset{0};
    var q0 := Q.Solo(ring, Later(Q.Running(0), false), 1, one, multiset{});
    var q1 := Q.Solo(ring, Later(Q.Finish(0), false), 1, one, multiset{});
    var q2 := Q.Solo(ring, Later(Q.Finishing(0), true), 1, one, multiset{});
    var q3 := Q.Solo(ring, Q.WayOut(2), 0, one, one);
    assert q1 == Q.Step(q0, 0, Q.Done);
    Quietly(w, q0, m, b, Q.Done, q1);
    assert q2 == Q.Step(q1, 0, Q.Go);
    Quietly(w, q1, m, b, Q.Go, q2);
    assert q3 == Q.Step(q2, 0, Q.Go);
    Quietly(w, q2, m, b, Q.Go, q3);
  }

  /** The thread has visited the roots. */
  lemma Launches(w: World, ring: Ring<Q.Task>, m: M.State, b: Books, enqueued: multiset<Q.Task>)
    requires Valid(ring) && OneIdle(m) && |b.todo| == |b.first| == 1 && b.todo[0] == []
    requires Attained(w, State(Q.Solo(ring, AtStart(Q.Roots, false), 0, enqueued, multiset{}), m, b))
    ensures Attained(w, State(Q.Solo(ring, Q.WayOut(0), 0, enqueued, multiset{}), m, b))
  {
    var q := Q.Solo(ring, AtStart(Q.Roots, false), 0, enqueued, multiset{});
    var q' := Q.Solo(ring, Q.WayOut(0), 0, enqueued, multiset{});
    assert q' == Q.Step(q, 0, Q.Done);
    Quietly(w, q, m, b, Q.Done, q');
  }

  /** The only root is a struct of numbers. */
  ghost predicate NumberRoot(w: World)
  {
    |w.roots| == 1 && w.roots[0].ty.Struct? && forall f :: f in w.roots[0].ty.fields ==> f.ty.Prim?
  }

  lemma {:induction false} NumberTrail(w: World, path: seq<Item>, i: nat)
    requires NumberRoot(w) && Trail(w.c, w.roots, path) && i < |path|
    ensures path[i].ty.Prim? || path[i] == Item(w.roots[0].loc, w.roots[0].ty)
  {
    if i > 0 {
      NumberTrail(w, path, i - 1);
      assert Step(w.c, path, i);
    }
  }

  lemma NumberWorldIsGood(w: World)
    requires NumberRoot(w) && Proper(w.c)
    ensures GoodWorld(w)
  {
    forall it | Walked(w.c, w.roots, it)
      ensures !IsPtr(it.ty)
    {
      var path :| Trail(w.c, w.roots, path) && path[|path| - 1] == it;
      NumberTrail(w, path, |path| - 1);
    }
  }

  /** Whatever the heap, a traversal of a struct of numbers has a run that visits it and ends. */
  lemma SomeTraversalEnds(w: World, num: nat, seed: Links.Node) returns (run: seq<State>)
    requires num > 0 && seed != 0 && forall a :: w.home(a) < num
    requires NumberRoot(w) && Proper(w.c)
    ensures GoodWorld(w) && Run(w, run) && |run[|run| - 1].q.threads| == 1 && run[|run| - 1].q.threads[0].pc.Exited?
  {
    var ring: Ring<Q.Task> := Ring(seq(QUEUESIZE, _ => 0), 0, QUEUESIZE - 1, 0);
    var m := M.Seeded(1, num, seed, w.home);
    var top := Item(w.roots[0].loc, w.roots[0].ty);
    NumberWorldIsGood(w);
    Begins(w, ring, m, top, num, seed);
    var s := Ends(w, ring, m, top);
    run := Witness(w, s);
  }

  lemma Witness(w: World, s: State) returns (run: seq<State>)
    requires Attained(w, s)
    ensures Run(w, run) == true && run != [] && run[|run| - 1] == s
  {
    assert Asked(0);
    run :| Run(w, run) && run[|run| - 1] == s;
  }

  lemma Begins(w: World, ring: Ring<Q.Task>, m: M.State, top: Item, num: nat, seed: Links.Node)
    requires num > 0 && seed != 0 && (forall a :: w.home(a) < num) && m == M.Seeded(1, num, seed, w.home)
    requires Valid(ring) && ring.count == 0 && |w.roots| == 1 && top == Item(w.roots[0].loc, w.roots[0].ty)
    ensures OneIdle(m)
    ensures Attained(w, State(Q.Solo(ring, AtStart(Q.Roots, false), 0, multiset{}, multiset{}), m,
        Alone([top], [], {})))
  {
    M.SeededIsInitial(1, num, seed, w.home);
    assert RootItems(w.roots) == [top];
    Start(w, State(Q.Solo(ring, AtStart(Q.Roots, false), 0, multiset{}, multiset{}), m, Alone([top], [], {})));
  }

  lemma Ends(w: World, ring: Ring<Q.Task>, m: M.State, top: Item) returns (s: State)
    requires Valid(ring) && ring.count == 0 && OneIdle(m) && top.ty.Struct?
    requires forall f :: f in top.ty.fields ==> f.ty.Prim?
    requires Attained(w, State(Q.Solo(ring, AtStart(Q.Roots, false), 0, multiset{}, multiset{}), m,
        Alone([top], [], {})))
    ensures Attained(w, s) && |s.q.threads| == 1 && s.q.threads[0].pc.Exited?
  {
    var body := Members(top.loc, top.ty.fields);
    var seen := Middle(w, ring, m, top, body);
    var q := Q.Solo(Pop(Push(ring, 0)), Q.WayOut(11), 0, multiset{0}, multiset{0});
    s := State(q, m, Alone([], [body], seen));
    Way(w, Pop(Push(ring, 0)), m, Alone([], [body], seen), multiset{0}, multiset{0}, 2, 11);
  }

  lemma Middle(w: World, ring: Ring<Q.Task>, m: M.State, top: Item, body: seq<Item>) returns (seen: set<Item>)
    requires Valid(ring) && ring.count == 0 && OneIdle(m) && top.ty.Struct? && body == Members(top.loc, top.ty.fields)
    requires forall f :: f in top.ty.fields ==> f.ty.Prim?
    requires Attained(w, State(Q.Solo(ring, AtStart(Q.Roots, false), 0, multiset{}, multiset{}), m,
        Alone([top], [], {})))
    ensures Valid(Push(ring, 0)) && Valid(Pop(Push(ring, 0))) && Pop(Push(ring, 0)).count == 0
    ensures Attained(w, State(Q.Solo(Pop(Push(ring, 0)), Q.WayOut(2), 0, multiset{0}, multiset{0}), m,
        Alone([], [body], seen)))
  {
    var full, b := Push(ring, 0), Alone([], [body], {top});
    Enqueues(w, ring, m, top, body, b);
    Launches(w, full, m, b, multiset{0});
    Way(w, full, m, b, multiset{0}, multiset{}, 0, 3);
    FrontOf(ring);
    Takes(w, full, m, body, {top});
    assert Numbers(body);
    seen := Visits(w, Q.Solo(Pop(full), Later(Q.Running(0), false), 1, multiset{0}, multiset{}), m, body, [body],
        {top});
    Finishes(w, Pop(full), m, Alone([], [body], seen));
  }

  lemma FrontOf(ring: Ring<Q.Task>)
    requires Valid(ring) && ring.count == 0
    ensures Front(Push(ring, 0)) == 0 && Push(ring, 0).count == 1
  {
  }
}
