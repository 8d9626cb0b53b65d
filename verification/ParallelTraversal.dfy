/**
 * The whole parallel traversal: threads that take tasks from the shared queues, visit places and
 * record them in the shared address map. Its steps are those of QueueProtocol and ParallelMap, tied
 * together by what each thread still has to visit.
 *
 * Whatever the interleaving, when a thread leaves its loop the address map holds exactly what the
 * serial traversal maps.
 */
module ParallelTraversal {
  import opened Traversal
  import opened Walk
  import WorkQueue
  import M = ParallelMap
  import Q = QueueProtocol

  /** The heap, the roots and the hash function of the address map. */
  datatype World = World(c: Setup, roots: seq<Root>, home: M.Home)

  /**
   * What the threads are doing: the places each has still to visit, the current one first; whether its
   * current visit made the first-visit callback; the places of each task ever queued; and, as an
   * auxiliary record, the places visited.
   */
  datatype Books = Books(todo: seq<seq<Item>>, first: seq<bool>, bodies: seq<seq<Item>>, seen: set<Item>)

  datatype State = State(q: Q.State, m: M.State, b: Books)

  predicate Sized(s: State)
  {
    |s.b.todo| == |s.b.first| == |s.q.threads| == |s.m.pcs|
  }

  /** The thread is visiting the roots or running a task. */
  predicate Works(pc: Q.Pc) { pc.Roots? || pc.Running? }

  /** It is, or it is in the middle of an enqueue. */
  predicate Occupied(pc: Q.Pc) { Works(pc) || pc.EnqTry? || pc.EnqHold? }

  function Elements(l: Loc, base: Ty, n: nat): seq<Item>
  {
    seq(n, k requires 0 <= k < n => Element(l, base, k))
  }

  function Members(l: Loc, fields: seq<Field>): seq<Item>
  {
    seq(|fields|, k requires 0 <= k < |fields| => Member(l, fields, k))
  }

  /** Where a pointer leads. */
  function Entry(c: Setup, it: Item): Item
    requires it.ty.Pointer?
  {
    Item(Loc(PtrAt(c.mem, it.loc), 0), c.env(it.ty.target))
  }

  /** The current place has been visited, and these places take its place. */
  function Replace(b: Books, h: nat, items: seq<Item>): Books
    requires h < |b.todo| && b.todo[h] != []
  {
    b.(todo := b.todo[h := items + b.todo[h][1..]], seen := b.seen + {b.todo[h][0]})
  }

  /** A struct becomes a task of its own. */
  function Defer(b: Books, h: nat): Books
    requires h < |b.todo| && b.todo[h] != [] && b.todo[h][0].ty.Struct?
  {
    var top := b.todo[h][0];
    Replace(b, h, []).(bodies := b.bodies + [Members(top.loc, top.ty.fields)])
  }

  /** The next `n` places, elements of an array being split, become a task of their own. */
  function Offload(b: Books, h: nat, n: nat): Books
    requires h < |b.todo| && n <= |b.todo[h]|
  {
    b.(todo := b.todo[h := b.todo[h][n..]], bodies := b.bodies + [b.todo[h][..n]])
  }

  function Body(b: Books, t: nat): seq<Item>
  {
    if t < |b.bodies| then b.bodies[t] else []
  }

  // ----- steps

  /** A step of the queues; a task is enqueued for the struct on top, or for the next `n` places. */
  ghost predicate QueueStep(w: World, s: State, h: nat, c: Q.Choice, n: nat, s': State)
  {
    && Sized(s) && Q.RingsValid(s.q) && Q.Enabled(s.q, h, c) && s'.q == Q.Step(s.q, h, c) && s'.m == s.m
    && var pc, pc' := s.q.threads[h].pc, s'.q.threads[h].pc;
       if Works(pc) && c.Done? then s.b.todo[h] == [] && s.m.pcs[h].Idle? && s'.b == s.b
       else if Works(pc) then
         && c.Add? && c.item == |s.b.bodies| && s.m.pcs[h].Idle? && s.b.todo[h] != []
         && (if n == 0 then s.b.todo[h][0].ty.Struct? && s'.b == Defer(s.b, h)
             else n <= |s.b.todo[h]| && s'.b == Offload(s.b, h, n))
       else if pc.DeqHold? && pc'.Running? then s'.b == s.b.(todo := s.b.todo[h := Body(s.b, pc'.task)])
       else s'.b == s.b
  }

  /** A visit of a place that is neither a struct nor a pointer. */
  ghost predicate PlainStep(w: World, s: State, h: nat, s': State)
  {
    && Sized(s) && h < |s.b.todo| && Works(s.q.threads[h].pc) && s.m.pcs[h].Idle? && s.b.todo[h] != []
    && s'.q == s.q && s'.m == s.m
    && match s.b.todo[h][0].ty
       case Prim(_) => s'.b == Replace(s.b, h, [])
       case Unknown => s'.b == Replace(s.b, h, [])
       case Array(n, base) => s'.b == Replace(s.b, h, Elements(s.b.todo[h][0].loc, base, n))
       case _ => false
  }

  /** A step of the visit of a pointer. */
  ghost predicate PointerStep(w: World, s: State, h: nat, c: M.Choice, s': State)
  {
    && Sized(s) && h < |s.b.todo| && Works(s.q.threads[h].pc) && s.b.todo[h] != [] && IsPtr(s.b.todo[h][0].ty)
    && M.Enabled(s.m, h, c, w.home) && s'.q == s.q && s'.m == M.Step(s.m, h, c, w.home)
    && var top := s.b.todo[h][0];
       match s.m.pcs[h]
       case Idle =>
         if c.Start? then c.a == PtrAt(w.c.mem, top.loc) && s'.b == s.b.(first := s.b.first[h := false])
         else PtrAt(w.c.mem, top.loc) == 0 && s'.b == Replace(s.b, h, [])
       case Busy(a, Call) => a >= 0 && c.o == w.c.image(a) && s'.b == s.b.(first := s.b.first[h := true])
       case Busy(a, Leave) => s'.b == Replace(s.b, h, if a >= 0 && s.b.first[h]
           && Follows(w.c, top.ty, a) then [Entry(w.c, top)] else [])
       case _ => s'.b == s.b
  }

  ghost predicate Next(w: World, s: State, s': State)
  {
    || (exists h: nat, c: Q.Choice, n: nat :: QueueStep(w, s, h, c, n, s'))
    || (exists h: nat :: PlainStep(w, s, h, s'))
    || (exists h: nat, c: M.Choice :: PointerStep(w, s, h, c, s'))
  }

  function RootItems(roots: seq<Root>): seq<Item>
  {
    seq(|roots|, i requires 0 <= i < |roots| => Item(roots[i].loc, roots[i].ty))
  }

  /** The main thread has the roots before it; nothing has been queued or mapped. */
  ghost predicate Init(w: World, s: State)
  {
    && Sized(s) && Q.Init(s.q) && M.Init(s.m, w.home)
    && s.b.bodies == [] && s.b.seen == {}
    && (forall h :: 0 <= h < |s.b.todo| ==> s.b.todo[h] == if h == |s.b.todo| - 1 then RootItems(w.roots) else [])
  }

  ghost predicate Run(w: World, run: seq<State>)
  {
    run != [] && Init(w, run[0]) && forall i {:trigger Follows1(w, run, i)} :: 0 < i < |run| ==> Follows1(w, run, i)
  }

  ghost predicate Follows1(w: World, run: seq<State>, i: nat)
    requires 0 < i < |run|
  {
    Next(w, run[i - 1], run[i])
  }

  // ----- what the books say

  ghost predicate InTodo(b: Books, it: Item)
  {
    exists h :: 0 <= h < |b.todo| && it in b.todo[h]
  }

  ghost predicate InBody(b: Books, it: Item, from: int)
  {
    exists t :: from <= t < |b.bodies| && 0 <= t && it in b.bodies[t]
  }

  /** The place has been visited, or some thread or task has it. */
  ghost predicate Known(b: Books, it: Item)
  {
    it in b.seen || InTodo(b, it) || InBody(b, it, 0)
  }

  ghost predicate Grown(b: Books, b': Books)
  {
    forall it :: Known(b, it) ==> Known(b', it)
  }

  lemma ReplaceKnows(b: Books, h: nat, items: seq<Item>)
    requires h < |b.todo| && b.todo[h] != []
    ensures Grown(b, Replace(b, h, items)) && forall it :: it in items ==> Known(Replace(b, h, items), it)
  {
    var b' := Replace(b, h, items);
    forall it | Known(b, it)
      ensures Known(b', it)
    {
      if InTodo(b, it) {
        TodoAfter(b, h, it, b');
      }
    }
    forall it | it in items
      ensures Known(b', it)
    {
      assert it in b'.todo[h];
    }
  }

  lemma TodoAfter(b: Books, h: nat, it: Item, b': Books)
    requires h < |b.todo| && InTodo(b, it) && |b'.todo| == |b.todo|
        && forall k :: 0 <= k < |b.todo| && k != h ==> b'.todo[k] == b.todo[k]
    requires it in b.todo[h] ==> it in b'.todo[h] || it in b'.seen || InBody(b', it, 0)
    ensures Known(b', it)
  {
    var k :| 0 <= k < |b.todo| && it in b.todo[k];
    if k != h {
      assert it in b'.todo[k];
    }
  }

  lemma BodiesAppend(b: Books, b': Books, body: seq<Item>, it: Item, from: int)
    requires b'.bodies == b.bodies + [body] && (InBody(b, it, from) || (it in body && from <= |b.bodies|))
    ensures InBody(b', it, from)
  {
    if InBody(b, it, from) {
      var t :| from <= t < |b.bodies| && 0 <= t && it in b.bodies[t];
      assert it in b'.bodies[t];
    } else {
      assert it in b'.bodies[|b.bodies|];
    }
  }

  lemma DeferKnows(b: Books, h: nat)
    requires h < |b.todo| && b.todo[h] != [] && b.todo[h][0].ty.Struct?
    ensures Grown(b, Defer(b, h))
    ensures forall it :: it in Members(b.todo[h][0].loc, b.todo[h][0].ty.fields) ==> Known(Defer(b, h), it)
  {
    var b', body := Defer(b, h), Members(b.todo[h][0].loc, b.todo[h][0].ty.fields);
    forall it | Known(b, it)
      ensures Known(b', it)
    {
      if InTodo(b, it) {
        TodoAfter(b, h, it, b');
      } else if InBody(b, it, 0) {
        BodiesAppend(b, b', body, it, 0);
      }
    }
    forall it | it in body
      ensures Known(b', it)
    {
      BodiesAppend(b, b', body, it, 0);
    }
  }

  lemma OffloadKnows(b: Books, h: nat, n: nat)
    requires h < |b.todo| && n <= |b.todo[h]|
    ensures Grown(b, Offload(b, h, n))
  {
    var b', body := Offload(b, h, n), b.todo[h][..n];
    forall it | Known(b, it)
      ensures Known(b', it)
    {
      if InTodo(b, it) {
        if it in b.todo[h] && it !in b.todo[h][n..] {
          BodiesAppend(b, b', body, it, 0);
        }
        TodoAfter(b, h, it, b');
      } else if InBody(b, it, 0) {
        BodiesAppend(b, b', body, it, 0);
      }
    }
  }

  lemma TakeKnows(b: Books, h: nat, items: seq<Item>)
    requires h < |b.todo| && b.todo[h] == []
    ensures Grown(b, b.(todo := b.todo[h := items]))
  {
    var b' := b.(todo := b.todo[h := items]);
    forall it | Known(b, it)
      ensures Known(b', it)
    {
      if InTodo(b, it) {
        TodoAfter(b, h, it, b');
      }
    }
  }

  // ----- the invariant

  /** Only a thread that works has places to visit, and a pointer visit is that of its current place. */
  ghost predicate ThreadOk(c: Setup, pc: Q.Pc, mpc: M.Pc, todo: seq<Item>)
  {
    && (todo != [] ==> Occupied(pc))
    && (mpc.Busy? ==> Works(pc) && todo != [] && IsPtr(todo[0].ty) && PtrAt(c.mem, todo[0].loc) == mpc.a)
  }

  ghost predicate ThreadsOk(c: Setup, threads: seq<Q.Thread>, pcs: seq<M.Pc>, todo: seq<seq<Item>>)
  {
    |threads| == |pcs| == |todo| && forall h :: 0 <= h < |todo| ==> ThreadOk(c, threads[h].pc, pcs[h], todo[h])
  }

  ghost predicate AllWalked(w: World, b: Books)
  {
    forall it :: Known(b, it) ==> Walked(w.c, w.roots, it)
  }

  ghost predicate RootsKnown(w: World, b: Books)
  {
    forall it :: it in RootItems(w.roots) ==> Known(b, it)
  }

  /** A first-visit callback was on a reachable target and answered with its image. */
  ghost predicate Vouched(w: World, e: M.Event)
  {
    e.First? && e.a != 0 ==> e.a > 0 && Aimed(w.c, w.roots, e.a) && e.o == w.c.image(e.a)
  }

  ghost predicate AllVouched(w: World, log: seq<M.Event>)
  {
    forall i :: 0 <= i < |log| ==> Vouched(w, log[i])
  }

  ghost predicate Called(log: seq<M.Event>, x: Addr)
  {
    M.Firsts(log, x) != []
  }

  /** What a visited place leads to is known; a visited pointer's target had its first visit. */
  ghost predicate Spread(c: Setup, b: Books, log: seq<M.Event>, it: Item)
  {
    if IsPtr(it.ty) then PtrAt(c.mem, it.loc) != 0 ==> Called(log, PtrAt(c.mem, it.loc))
    else forall q :: Onward(c, it, q) ==> Known(b, q)
  }

  ghost predicate SeenSpread(c: Setup, b: Books, log: seq<M.Event>)
  {
    forall it {:trigger Spread(c, b, log, it)} :: it in b.seen ==> Spread(c, b, log, it)
  }

  /** Some thread made the first-visit callback for `x` and has not gone on to the target yet. */
  ghost predicate Entering(pcs: seq<M.Pc>, first: seq<bool>, x: Addr)
  {
    exists h :: 0 <= h < |pcs| && h < |first| && first[h] && pcs[h].Busy? && pcs[h].a == x
  }

  /** The place behind a first visit is known, or its visitor is on the way. */
  ghost predicate TargetsKnown(w: World, b: Books, log: seq<M.Event>, pcs: seq<M.Pc>)
  {
    forall it, x {:trigger Aims(w.c, w.roots, it, x)} ::
      Aims(w.c, w.roots, it, x) && Follows(w.c, it.ty, x) && Called(log, x) ==>
        Known(b, Entry(w.c, it)) || Entering(pcs, b.first, x)
  }

  /** The task is queued, or about to be. */
  ghost predicate Waiting(q: Q.State, t: nat)
  {
    || (Q.RingsValid(q) && exists i :: 0 <= i < |q.rings| && t in WorkQueue.Contents(q.rings[i]))
    || (exists h :: 0 <= h < |q.threads| && Enqueues(q.threads[h].pc, t))
  }

  predicate Enqueues(pc: Q.Pc, t: nat)
  {
    (pc.EnqTry? || pc.EnqHold?) && pc.item == t
  }

  /** The places of a task that is not waiting have been visited, are a thread's, or went to a later task. */
  ghost predicate Handled(b: Books, t: nat, it: Item)
  {
    it in b.seen || InTodo(b, it) || InBody(b, it, t + 1)
  }

  ghost predicate TaskKept(b: Books, q: Q.State, t: nat)
    requires t < |b.bodies|
  {
    Waiting(q, t) || forall it :: it in b.bodies[t] ==> Handled(b, t, it)
  }

  ghost predicate TasksKept(b: Books, q: Q.State)
  {
    forall t {:trigger TaskKept(b, q, t)} :: 0 <= t < |b.bodies| ==> TaskKept(b, q, t)
  }

  ghost predicate Inv(w: World, s: State)
  {
    && Sized(s) && Q.Inv(s.q) && M.Reachable(s.m, w.home)
    && ThreadsOk(w.c, s.q.threads, s.m.pcs, s.b.todo) && AllWalked(w, s.b) && RootsKnown(w, s.b)
    && AllVouched(w, s.m.log) && SeenSpread(w.c, s.b, s.m.log) && TargetsKnown(w, s.b, s.m.log, s.m.pcs)
        && TasksKept(s.b, s.q)
  }

  /** All pointers to an address lead to the same place, and none is the address the map is seeded with. */
  ghost predicate GoodWorld(w: World)
  {
    Proper(w.c) && AimedAlike(w.c, w.roots) && forall it, x :: Aims(w.c, w.roots, it, x) ==> x != M.SEED
  }

  // ----- pieces of the invariant under the changes of the books

  lemma SpreadGrows(c: Setup, b: Books, b': Books, log: seq<M.Event>, log': seq<M.Event>, it: Item)
    requires Spread(c, b, log, it) && Grown(b, b') && forall x: Addr :: Called(log, x) ==> Called(log', x)
    ensures Spread(c, b', log', it)
  {
  }

  lemma SeenGrows(c: Setup, b: Books, b': Books, log: seq<M.Event>, log': seq<M.Event>)
    requires SeenSpread(c, b, log) && Grown(b, b') && forall x: Addr :: Called(log, x) ==> Called(log', x)
    requires forall it :: it in b'.seen ==> it in b.seen || Spread(c, b', log', it)
    ensures SeenSpread(c, b', log')
  {
    forall it | it in b'.seen
      ensures Spread(c, b', log', it)
    {
      if it in b.seen {
        assert Spread(c, b, log, it);
        SpreadGrows(c, b, b', log, log', it);
      }
    }
  }

  lemma TargetsGrow(w: World, b: Books, b': Books, log: seq<M.Event>, log': seq<M.Event>, pcs: seq<M.Pc>,
      pcs': seq<M.Pc>)
    requires TargetsKnown(w, b, log, pcs) && Grown(b, b')
    requires forall x: Addr :: x != 0 && Called(log', x) ==> Called(log, x) || Entering(pcs', b'.first, x)
    requires forall it, x {:trigger Aims(w.c, w.roots, it, x)} ::
          Aims(w.c, w.roots, it, x) && Follows(w.c, it.ty, x) && Entering(pcs, b.first, x) ==>
            Known(b', Entry(w.c, it)) || Entering(pcs', b'.first, x)
    ensures TargetsKnown(w, b', log', pcs')
  {
  }

  lemma RootsGrow(w: World, b: Books, b': Books)
    requires RootsKnown(w, b) && Grown(b, b')
    ensures RootsKnown(w, b')
  {
  }

  /** New places are reached because they are children of a reached one. */
  lemma OnwardAllWalked(w: World, it: Item, items: seq<Item>)
    requires Walked(w.c, w.roots, it) && forall q :: q in items ==> Onward(w.c, it, q)
    ensures forall q :: q in items ==> Walked(w.c, w.roots, q)
  {
    forall q | q in items
      ensures Walked(w.c, w.roots, q)
    {
      OnwardWalked(w.c, w.roots, it, q);
    }
  }

  lemma ReplaceWalked(w: World, b: Books, h: nat, items: seq<Item>)
    requires AllWalked(w, b) && h < |b.todo| && b.todo[h] != []
        && forall q :: q in items ==> Onward(w.c, b.todo[h][0], q)
    ensures AllWalked(w, Replace(b, h, items))
  {
    var b', top := Replace(b, h, items), b.todo[h][0];
    assert top in b.todo[h];
    assert Known(b, top);
    OnwardAllWalked(w, top, items);
    forall it | Known(b', it)
      ensures Walked(w.c, w.roots, it)
    {
      if InTodo(b', it) {
        var k :| 0 <= k < |b'.todo| && it in b'.todo[k];
        if k != h {
          assert it in b.todo[k];
        } else if it !in items {
          assert it in b.todo[h];
        }
      } else if InBody(b', it, 0) {
        assert InBody(b, it, 0);
      }
    }
  }

  lemma BodiesWalked(w: World, b: Books, b': Books, body: seq<Item>)
    requires AllWalked(w, b) && b'.bodies == b.bodies + [body]
    requires forall it :: it in b'.seen || InTodo(b', it) ==> Walked(w.c, w.roots, it)
    requires forall it :: it in body ==> Walked(w.c, w.roots, it)
    ensures AllWalked(w, b')
  {
    forall it | Known(b', it)
      ensures Walked(w.c, w.roots, it)
    {
      if InBody(b', it, 0) && it !in body {
        var t :| 0 <= t < |b'.bodies| && it in b'.bodies[t];
        assert it in b.bodies[t];
        assert InBody(b, it, 0);
      }
    }
  }

  lemma DeferWalked(w: World, b: Books, h: nat)
    requires AllWalked(w, b) && h < |b.todo| && b.todo[h] != [] && b.todo[h][0].ty.Struct?
    ensures AllWalked(w, Defer(b, h))
  {
    var top := b.todo[h][0];
    assert top in b.todo[h];
    assert Known(b, top);
    MembersAreOnward(w.c, top);
    OnwardAllWalked(w, top, Members(top.loc, top.ty.fields));
    ReplaceWalked(w, b, h, []);
    var r := Replace(b, h, []);
    forall it | it in Defer(b, h).seen || InTodo(Defer(b, h), it)
      ensures Walked(w.c, w.roots, it)
    {
      assert Known(r, it);
    }
    BodiesWalked(w, r, Defer(b, h), Members(top.loc, top.ty.fields));
  }

  lemma OffloadWalked(w: World, b: Books, h: nat, n: nat)
    requires AllWalked(w, b) && h < |b.todo| && n <= |b.todo[h]|
    ensures AllWalked(w, Offload(b, h, n))
  {
    var b' := Offload(b, h, n);
    forall it | it in b'.seen || InTodo(b', it)
      ensures Walked(w.c, w.roots, it)
    {
      if InTodo(b', it) {
        var k :| 0 <= k < |b'.todo| && it in b'.todo[k];
        assert it in b.todo[k];
      }
      assert Known(b, it);
    }
    forall it | it in b.todo[h][..n]
      ensures Walked(w.c, w.roots, it)
    {
      assert it in b.todo[h];
      assert Known(b, it);
    }
    BodiesWalked(w, b, b', b.todo[h][..n]);
  }

  lemma TakeWalked(w: World, b: Books, h: nat, t: nat)
    requires AllWalked(w, b) && h < |b.todo|
    ensures AllWalked(w, b.(todo := b.todo[h := Body(b, t)]))
  {
    var b' := b.(todo := b.todo[h := Body(b, t)]);
    forall it | Known(b', it)
      ensures Walked(w.c, w.roots, it)
    {
      if InTodo(b', it) {
        var k :| 0 <= k < |b'.todo| && it in b'.todo[k];
        if k == h {
          assert it in b.bodies[t];
          assert InBody(b, it, 0);
        } else {
          assert it in b.todo[k];
        }
      } else if InBody(b', it, 0) {
        assert InBody(b, it, 0);
      }
      assert Known(b, it);
    }
  }

  lemma MembersAreOnward(c: Setup, it: Item)
    requires it.ty.Struct?
    ensures forall q :: q in Members(it.loc, it.ty.fields) <==> Onward(c, it, q)
  {
    var ms := Members(it.loc, it.ty.fields);
    forall q | Onward(c, it, q)
      ensures q in ms
    {
      var k: nat :| k < |it.ty.fields| && q == Member(it.loc, it.ty.fields, k);
      assert ms[k] == q;
    }
  }

  lemma ElementsAreOnward(c: Setup, it: Item)
    requires it.ty.Array?
    ensures forall q :: q in Elements(it.loc, it.ty.base, it.ty.len) <==> Onward(c, it, q)
  {
    var es := Elements(it.loc, it.ty.base, it.ty.len);
    forall q | Onward(c, it, q)
      ensures q in es
    {
      var k: nat :| k < it.ty.len && q == Element(it.loc, it.ty.base, k);
      assert es[k] == q;
    }
  }

  // ----- tasks under the changes of the books

  lemma HandledAfter(b: Books, b': Books, h: nat, t: nat, it: Item)
    requires Handled(b, t, it) && h < |b.todo| && |b'.todo| == |b.todo|
        && (forall k :: 0 <= k < |b.todo| && k != h ==> b'.todo[k] == b.todo[k])
    requires b.seen <= b'.seen && b.bodies <= b'.bodies
    requires it in b.todo[h] ==> it in b'.todo[h] || it in b'.seen || InBody(b', it, t + 1)
    ensures Handled(b', t, it)
  {
    if InTodo(b, it) {
      var k :| 0 <= k < |b.todo| && it in b.todo[k];
      if k != h {
        assert it in b'.todo[k];
      }
    } else if InBody(b, it, t + 1) {
      var u :| t + 1 <= u < |b.bodies| && 0 <= u && it in b.bodies[u];
      assert it in b'.bodies[u];
    }
  }

  /** Old tasks stay kept when the places that thread `h` gives up are visited or in a new task. */
  lemma OldTasksKept(b: Books, b': Books, q: Q.State, q': Q.State, h: nat)
    requires TasksKept(b, q) && h < |b.todo| && |b'.todo| == |b.todo|
        && (forall k :: 0 <= k < |b.todo| && k != h ==> b'.todo[k] == b.todo[k])
    requires b.seen <= b'.seen && b.bodies <= b'.bodies
    requires forall it :: it in b.todo[h] ==> it in b'.todo[h] || it in b'.seen || InBody(b', it, |b.bodies|)
    requires forall t :: 0 <= t < |b.bodies| && Waiting(q, t) ==> Waiting(q', t) || forall it :: it in b.bodies[t] ==>
          it in b'.todo[h]
    requires forall t :: |b.bodies| <= t < |b'.bodies| ==> Waiting(q', t)
    ensures TasksKept(b', q')
  {
    forall t | 0 <= t < |b'.bodies|
      ensures TaskKept(b', q', t)
    {
      if t < |b.bodies| {
        assert TaskKept(b, q, t) && b'.bodies[t] == b.bodies[t];
        OldTaskKept(b, b', q, q', h, t);
      }
    }
  }

  lemma OldTaskKept(b: Books, b': Books, q: Q.State, q': Q.State, h: nat, t: nat)
    requires t < |b.bodies| <= |b'.bodies| && b'.bodies[t] == b.bodies[t] && TaskKept(b, q, t)
    requires h < |b.todo| && |b'.todo| == |b.todo|
        && (forall k :: 0 <= k < |b.todo| && k != h ==> b'.todo[k] == b.todo[k])
    requires b.seen <= b'.seen && b.bodies <= b'.bodies
    requires forall it :: it in b.todo[h] ==> it in b'.todo[h] || it in b'.seen || InBody(b', it, |b.bodies|)
    requires Waiting(q, t) ==> Waiting(q', t) || forall it :: it in b.bodies[t] ==> it in b'.todo[h]
    ensures TaskKept(b', q', t)
  {
    if !Waiting(q', t) {
      forall it | it in b.bodies[t]
        ensures Handled(b', t, it)
      {
        if Waiting(q, t) {
          assert it in b'.todo[h];
        } else {
          assert Handled(b, t, it);
          if it in b.todo[h] && InBody(b', it, |b.bodies|) {
            var u :| |b.bodies| <= u < |b'.bodies| && 0 <= u && it in b'.bodies[u];
            assert InBody(b', it, t + 1);
          }
          HandledAfter(b, b', h, t, it);
        }
      }
    }
  }

  // ----- facts about the queues

  /** What a step does to the program counters. */
  lemma PcStep(q: Q.State, h: nat, c: Q.Choice, q': Q.State)
    requires Q.RingsValid(q) && Q.Enabled(q, h, c) && q' == Q.Step(q, h, c)
    ensures |q'.threads| == |q.threads| && forall k :: 0 <= k < |q.threads| && k != h ==> q'.threads[k] == q.threads[k]
    ensures Works(q.threads[h].pc) ==> c.Done? || c.Add?
    ensures Works(q.threads[h].pc) && c.Add? ==> Enqueues(q'.threads[h].pc, c.item)
    ensures Occupied(q.threads[h].pc) && !Works(q.threads[h].pc) ==> Occupied(q'.threads[h].pc)
    ensures Works(q'.threads[h].pc) && !Occupied(q.threads[h].pc) ==>
          q.threads[h].pc.DeqHold? && q'.threads[h].pc.Running?
  {
  }

  /** What a step does to the rings, and the program counter that goes with it. */
  lemma RingStep(q: Q.State, h: nat, c: Q.Choice, q': Q.State, e: Q.Effect)
    requires Q.RingsValid(q) && Q.Enabled(q, h, c) && q' == Q.Step(q, h, c) && e == Q.Act(q, h, c)
    ensures q'.threads[h] == e.thread
    ensures e.work.Pushed? ==>
              e.work.q < |q.rings| && q.rings[e.work.q].count < WorkQueue.QUEUESIZE
                  && q'.rings == q.rings[e.work.q := WorkQueue.Push(q.rings[e.work.q], e.work.item)]
    ensures e.work.Popped? ==>
              && e.work.q < |q.rings| && q.rings[e.work.q].count > 0
                  && q'.rings == q.rings[e.work.q := WorkQueue.Pop(q.rings[e.work.q])]
              && q.threads[h].pc.DeqHold? && e.thread.pc == Q.Running(WorkQueue.Front(q.rings[e.work.q]))
    ensures !e.work.Pushed? && !e.work.Popped? ==> q'.rings == q.rings
  {
  }

  lemma InRing(q: Q.State, i: nat, t: nat)
    requires Q.RingsValid(q) && i < |q.rings| && t in WorkQueue.Contents(q.rings[i])
    ensures Waiting(q, t)
  {
  }

  /** A queued task stays queued unless this step takes it. */
  lemma QueuedStays(q: Q.State, h: nat, c: Q.Choice, q': Q.State, t: nat, i: nat)
    requires Q.RingsValid(q) && Q.RingsValid(q') && Q.Enabled(q, h, c) && q' == Q.Step(q, h, c)
    requires i < |q.rings| && t in WorkQueue.Contents(q.rings[i])
    ensures Waiting(q', t) || (q.threads[h].pc.DeqHold? && q'.threads[h].pc == Q.Running(t))
  {
    var e := Q.Act(q, h, c);
    RingStep(q, h, c, q', e);
    if e.work.Pushed? && e.work.q == i {
      WorkQueue.PushAppends(q.rings[i], e.work.item);
    }
    if e.work.Popped? && e.work.q == i {
      WorkQueue.PopTakesFirst(q.rings[i]);
    }
    if t in WorkQueue.Contents(q'.rings[i]) {
      InRing(q', i, t);
    }
  }

  lemma EnqueueAct(q: Q.State, h: nat, c: Q.Choice, e: Q.Effect, t: nat)
    requires Q.RingsValid(q) && Q.Enabled(q, h, c) && e == Q.Act(q, h, c) && Enqueues(q.threads[h].pc, t)
    ensures Enqueues(e.thread.pc, t) || (e.work.Pushed? && e.work.item == t)
  {
  }

  /** A task being enqueued goes on being so, or is in a ring. */
  lemma EnqueueGoesOn(q: Q.State, h: nat, c: Q.Choice, q': Q.State, t: nat)
    requires Q.RingsValid(q) && Q.RingsValid(q') && Q.Enabled(q, h, c) && q' == Q.Step(q, h, c)
        && Enqueues(q.threads[h].pc, t)
    ensures Waiting(q', t)
  {
    var e := Q.Act(q, h, c);
    RingStep(q, h, c, q', e);
    EnqueueAct(q, h, c, e, t);
    if !Enqueues(e.thread.pc, t) {
      var k := e.work.q;
      WorkQueue.PushAppends(q.rings[k], t);
      assert t in WorkQueue.Contents(q'.rings[k]);
      InRing(q', k, t);
    }
  }

  lemma WaitingStays(q: Q.State, h: nat, c: Q.Choice, q': Q.State, t: nat)
    requires Q.Inv(q) && Q.Inv(q') && Q.Enabled(q, h, c) && q' == Q.Step(q, h, c) && Waiting(q, t)
    ensures Waiting(q', t) || (q.threads[h].pc.DeqHold? && q'.threads[h].pc == Q.Running(t))
  {
    if i :| 0 <= i < |q.rings| && t in WorkQueue.Contents(q.rings[i]) {
      QueuedStays(q, h, c, q', t, i);
    } else {
      var k :| 0 <= k < |q.threads| && Enqueues(q.threads[k].pc, t);
      if k == h {
        EnqueueGoesOn(q, h, c, q', t);
      } else {
        PcStep(q, h, c, q');
        assert Enqueues(q'.threads[k].pc, t);
      }
    }
  }

  // ----- steps of the queues keep the invariant

  /** The parts of the invariant that depend on books that only grow. */
  lemma BooksGrow(w: World, s: State, s': State)
    requires RootsKnown(w, s.b) && SeenSpread(w.c, s.b, s.m.log) && TargetsKnown(w, s.b, s.m.log, s.m.pcs)
    requires Grown(s.b, s'.b) && s'.m == s.m && s'.b.first == s.b.first
    requires forall it :: it in s'.b.seen ==> it in s.b.seen || Spread(w.c, s'.b, s.m.log, it)
    ensures RootsKnown(w, s'.b) && SeenSpread(w.c, s'.b, s'.m.log) && TargetsKnown(w, s'.b, s'.m.log, s'.m.pcs)
  {
    RootsGrow(w, s.b, s'.b);
    SeenGrows(w.c, s.b, s'.b, s.m.log, s'.m.log);
    TargetsGrow(w, s.b, s'.b, s.m.log, s'.m.log, s.m.pcs, s'.m.pcs);
  }

  lemma SameBooksKept(w: World, s: State, h: nat, c: Q.Choice, s': State)
    requires Inv(w, s) && Q.Inv(s'.q) && Q.Enabled(s.q, h, c) && s'.q == Q.Step(s.q, h, c) && s'.m == s.m && s'.b == s.b
    requires !(s.q.threads[h].pc.DeqHold? && s'.q.threads[h].pc.Running?)
    requires Works(s.q.threads[h].pc) ==> s.b.todo[h] == [] && s.m.pcs[h].Idle?
    ensures Inv(w, s')
  {
    PcStep(s.q, h, c, s'.q);
    assert ThreadOk(w.c, s.q.threads[h].pc, s.m.pcs[h], s.b.todo[h]);
    forall t | 0 <= t < |s.b.bodies| && Waiting(s.q, t)
      ensures Waiting(s'.q, t)
    {
      WaitingStays(s.q, h, c, s'.q, t);
    }
    OldTasksKept(s.b, s'.b, s.q, s'.q, h);
  }

  lemma TakeKept(w: World, s: State, h: nat, c: Q.Choice, t: nat, s': State)
    requires Inv(w, s) && Q.Inv(s'.q) && Q.Enabled(s.q, h, c) && s'.q == Q.Step(s.q, h, c) && s'.m == s.m
    requires s.q.threads[h].pc.DeqHold? && s'.q.threads[h].pc == Q.Running(t)
        && s'.b == s.b.(todo := s.b.todo[h := Body(s.b, t)])
    ensures Inv(w, s')
  {
    PcStep(s.q, h, c, s'.q);
    assert ThreadOk(w.c, s.q.threads[h].pc, s.m.pcs[h], s.b.todo[h]);
    TakeKnows(s.b, h, Body(s.b, t));
    TakeWalked(w, s.b, h, t);
    BooksGrow(w, s, s');
    TakenTasks(s, h, c, t, s');
  }

  lemma TakenTasks(s: State, h: nat, c: Q.Choice, t: nat, s': State)
    requires TasksKept(s.b, s.q) && Q.Inv(s.q) && Q.Inv(s'.q) && Q.Enabled(s.q, h, c) && s'.q == Q.Step(s.q, h, c)
    requires h < |s.b.todo| && s.b.todo[h] == [] && s'.q.threads[h].pc == Q.Running(t)
        && s'.b == s.b.(todo := s.b.todo[h := Body(s.b, t)])
    ensures TasksKept(s'.b, s'.q)
  {
    forall u | 0 <= u < |s.b.bodies| && Waiting(s.q, u)
      ensures Waiting(s'.q, u) || forall it :: it in s.b.bodies[u] ==> it in s'.b.todo[h]
    {
      WaitingStays(s.q, h, c, s'.q, u);
    }
    OldTasksKept(s.b, s'.b, s.q, s'.q, h);
  }

  lemma AddKept(w: World, s: State, h: nat, c: Q.Choice, n: nat, s': State)
    requires Inv(w, s) && Q.Inv(s'.q) && QueueStep(w, s, h, c, n, s') && Works(s.q.threads[h].pc) && c.Add?
    ensures Inv(w, s')
  {
    PcStep(s.q, h, c, s'.q);
    assert ThreadOk(w.c, s.q.threads[h].pc, s.m.pcs[h], s.b.todo[h]);
    if n == 0 {
      DeferKnows(s.b, h);
      DeferWalked(w, s.b, h);
      MembersAreOnward(w.c, s.b.todo[h][0]);
    } else {
      OffloadKnows(s.b, h, n);
      OffloadWalked(w, s.b, h, n);
    }
    BooksGrow(w, s, s');
    AddedWaits(w, s, h, c, n, s');
  }

  lemma AddedWaits(w: World, s: State, h: nat, c: Q.Choice, n: nat, s': State)
    requires Inv(w, s) && Q.Inv(s'.q) && QueueStep(w, s, h, c, n, s') && Works(s.q.threads[h].pc) && c.Add?
    ensures TasksKept(s'.b, s'.q)
  {
    PcStep(s.q, h, c, s'.q);
    assert Enqueues(s'.q.threads[h].pc, |s.b.bodies|);
    forall t | 0 <= t < |s.b.bodies| && Waiting(s.q, t)
      ensures Waiting(s'.q, t)
    {
      WaitingStays(s.q, h, c, s'.q, t);
    }
    forall it | it in s.b.todo[h]
      ensures it in s'.b.todo[h] || it in s'.b.seen || InBody(s'.b, it, |s.b.bodies|)
    {
      if n > 0 && it !in s'.b.todo[h] {
        assert it in s'.b.bodies[|s.b.bodies|];
      }
    }
    OldTasksKept(s.b, s'.b, s.q, s'.q, h);
  }

  lemma QueueStepKeeps(w: World, s: State, h: nat, c: Q.Choice, n: nat, s': State)
    requires Inv(w, s) && QueueStep(w, s, h, c, n, s')
    ensures Inv(w, s')
  {
    Q.InvStep(s.q, h, c);
    PcStep(s.q, h, c, s'.q);
    if Works(s.q.threads[h].pc) && c.Add? {
      AddKept(w, s, h, c, n, s');
    } else if s.q.threads[h].pc.DeqHold? && s'.q.threads[h].pc.Running? {
      TakeKept(w, s, h, c, s'.q.threads[h].pc.task, s');
    } else {
      SameBooksKept(w, s, h, c, s');
    }
  }

  // ----- visits keep the invariant

  /** Tasks are kept when the current place has been visited. */
  lemma ReplaceTasks(s: State, h: nat, items: seq<Item>, b': Books)
    requires TasksKept(s.b, s.q) && h < |s.b.todo| && s.b.todo[h] != [] && b'.todo == Replace(s.b, h, items).todo
    requires b'.seen == Replace(s.b, h, items).seen && b'.bodies == s.b.bodies
    ensures TasksKept(b', s.q)
  {
    forall it | it in s.b.todo[h]
      ensures it in b'.todo[h] || it in b'.seen
    {
      assert s.b.todo[h] == [s.b.todo[h][0]] + s.b.todo[h][1..];
    }
    OldTasksKept(s.b, b', s.q, s.q, h);
  }

  lemma PlainStepKeeps(w: World, s: State, h: nat, s': State)
    requires Inv(w, s) && PlainStep(w, s, h, s')
    ensures Inv(w, s')
  {
    var top := s.b.todo[h][0];
    var items := if top.ty.Array? then Elements(top.loc, top.ty.base, top.ty.len) else [];
    if top.ty.Array? {
      ElementsAreOnward(w.c, top);
    }
    ReplaceKnows(s.b, h, items);
    ReplaceWalked(w, s.b, h, items);
    BooksGrow(w, s, s');
    ReplaceTasks(s, h, items, s'.b);
  }

  // ----- pointer visits keep the invariant

  /** What a step of the address map does to program counters and log. */
  lemma MapStep(m: M.State, h: nat, c: M.Choice, home: M.Home, m': M.State, e: M.Effect)
    requires M.Enabled(m, h, c, home) && m' == M.Step(m, h, c, home) && e == M.Act(m, h, c, home)
    ensures m'.pcs == m.pcs[h := e.pc] && m'.log == if e.op.Note? then m.log + [e.op.e] else m.log
    ensures m.pcs[h].Busy? && !m.pcs[h].stage.Leave? ==> e.pc.Busy? && e.pc.a == m.pcs[h].a
    ensures m.pcs[h].Busy? && m.pcs[h].stage.Leave? ==> e.pc.Idle? && !e.op.Note?
    ensures m.pcs[h].Idle? && c.Start? ==> e.pc.Busy? && e.pc.a == c.a && !e.op.Note?
    ensures m.pcs[h].Idle? && !c.Start? ==> e.pc.Idle? && e.op.Note? && e.op.e.First? && e.op.e.a == 0
    ensures m.pcs[h].Busy? && e.op.Note? && e.op.e.First? ==>
              m.pcs[h].stage.Call? && e.op.e.a == m.pcs[h].a && e.op.e.o == c.o
    ensures m.pcs[h].Busy? && m.pcs[h].stage.Call? ==> e.op.Note? && e.op.e.First?
  {
    M.MemoryLog(m, h, e.op);
  }

  lemma CalledMore(log: seq<M.Event>, e: M.Event, x: Addr)
    ensures Called(log + [e], x) <==> Called(log, x) || (e.First? && e.a == x)
  {
    M.FirstsMore(log, e, x);
  }

  /** Another thread on its way stays so. */
  lemma EnteringStays(pcs: seq<M.Pc>, first: seq<bool>, pcs': seq<M.Pc>, first': seq<bool>, h: nat, x: Addr)
    requires Entering(pcs, first, x) && |pcs'| == |pcs| && |first'| == |first| && h < |pcs|
    requires forall k :: 0 <= k < |pcs| && k != h ==> pcs'[k] == pcs[k]
    requires forall k :: 0 <= k < |first| && k != h ==> first'[k] == first[k]
    ensures Entering(pcs', first', x) || (h < |first| && first[h] && pcs[h].Busy? && pcs[h].a == x)
  {
    var k :| 0 <= k < |pcs| && k < |first| && first[k] && pcs[k].Busy? && pcs[k].a == x;
    if k != h {
      assert first'[k] && pcs'[k] == pcs[k];
    }
  }

  /** The current place of a thread in a pointer visit points to the visit's address. */
  lemma TopAims(w: World, s: State, h: nat)
    requires Inv(w, s) && h < |s.b.todo| && s.m.pcs[h].Busy?
    ensures s.b.todo[h] != [] && s.m.pcs[h].a > 0 && Aims(w.c, w.roots, s.b.todo[h][0], s.m.pcs[h].a)
  {
    assert ThreadOk(w.c, s.q.threads[h].pc, s.m.pcs[h], s.b.todo[h]);
    var top := s.b.todo[h][0];
    assert top in s.b.todo[h];
    assert Known(s.b, top);
    M.ReachableInv(s.m, w.home);
    M.Holding(s.m, h, w.home);
  }

  lemma VouchedMore(w: World, log: seq<M.Event>, e: M.Event)
    requires AllVouched(w, log) && Vouched(w, e)
    ensures AllVouched(w, log + [e])
  {
  }

  /** A null pointer. */
  lemma NullKept(w: World, s: State, h: nat, c: M.Choice, s': State)
    requires Inv(w, s) && PointerStep(w, s, h, c, s') && s.m.pcs[h].Idle? && !c.Start?
    ensures Inv(w, s')
  {
    var e := M.Act(s.m, h, c, w.home);
    MapStep(s.m, h, c, w.home, s'.m, e);
    M.ReachStep(s.m, w.home, h, c);
    ReplaceKnows(s.b, h, []);
    ReplaceWalked(w, s.b, h, []);
    RootsGrow(w, s.b, s'.b);
    ReplaceTasks(s, h, [], s'.b);
    forall x: Addr
      ensures Called(s'.m.log, x) <==> Called(s.m.log, x) || x == 0
    {
      CalledMore(s.m.log, e.op.e, x);
    }
    SeenGrows(w.c, s.b, s'.b, s.m.log, s'.m.log);
    TargetsGrow(w, s.b, s'.b, s.m.log, s'.m.log, s.m.pcs, s'.m.pcs);
    VouchedMore(w, s.m.log, e.op.e);
    assert s'.m.pcs == s.m.pcs;
  }

  /** The books are the same but for the flag of the thread. */
  lemma SameKnown(b: Books, b': Books)
    requires b' == b.(first := b'.first)
    ensures Grown(b, b') && Grown(b', b)
  {
  }

  lemma FlagKept(w: World, s: State, h: nat, c: M.Choice, s': State)
    requires Inv(w, s) && PointerStep(w, s, h, c, s') && s'.b == s.b.(first := s'.b.first)
        && |s'.b.first| == |s.b.first|
    requires s'.m.pcs[h].Busy? && |s'.m.pcs| == |s.m.pcs|
        && (forall k :: 0 <= k < |s.m.pcs| && k != h ==> s'.m.pcs[k] == s.m.pcs[k])
    requires s'.m.pcs[h].a == PtrAt(w.c.mem, s.b.todo[h][0].loc)
    requires AllVouched(w, s'.m.log) && SeenSpread(w.c, s'.b, s'.m.log) && TargetsKnown(w, s'.b, s'.m.log, s'.m.pcs)
    ensures Inv(w, s')
  {
    M.ReachStep(s.m, w.home, h, c);
    SameKnown(s.b, s'.b);
    RootsGrow(w, s.b, s'.b);
    OldTasksKept(s.b, s'.b, s.q, s'.q, h);
  }

  /** The start of a visit. */
  lemma StartKept(w: World, s: State, h: nat, c: M.Choice, s': State)
    requires Inv(w, s) && PointerStep(w, s, h, c, s') && s.m.pcs[h].Idle? && c.Start?
    ensures Inv(w, s')
  {
    MapStep(s.m, h, c, w.home, s'.m, M.Act(s.m, h, c, w.home));
    SameKnown(s.b, s'.b);
    SeenGrows(w.c, s.b, s'.b, s.m.log, s'.m.log);
    forall x: Addr | Entering(s.m.pcs, s.b.first, x)
      ensures Entering(s'.m.pcs, s'.b.first, x)
    {
      EnteringStays(s.m.pcs, s.b.first, s'.m.pcs, s'.b.first, h, x);
    }
    TargetsGrow(w, s.b, s'.b, s.m.log, s'.m.log, s.m.pcs, s'.m.pcs);
    FlagKept(w, s, h, c, s');
  }

  /** The first-visit callback. */
  lemma CallKept(w: World, s: State, h: nat, c: M.Choice, s': State)
    requires Inv(w, s) && PointerStep(w, s, h, c, s') && s.m.pcs[h].Busy? && s.m.pcs[h].stage.Call?
    ensures Inv(w, s')
  {
    var e := M.Act(s.m, h, c, w.home);
    MapStep(s.m, h, c, w.home, s'.m, e);
    TopAims(w, s, h);
    SameKnown(s.b, s'.b);
    var a := s.m.pcs[h].a;
    assert Aimed(w.c, w.roots, a);
    VouchedMore(w, s.m.log, e.op.e);
    assert s'.b.first[h] && s'.m.pcs[h].Busy? && s'.m.pcs[h].a == a;
    forall x: Addr
      ensures Called(s'.m.log, x) <==> Called(s.m.log, x) || x == a
    {
      CalledMore(s.m.log, e.op.e, x);
    }
    forall x: Addr | Entering(s.m.pcs, s.b.first, x)
      ensures Entering(s'.m.pcs, s'.b.first, x)
    {
      EnteringStays(s.m.pcs, s.b.first, s'.m.pcs, s'.b.first, h, x);
    }
    SeenGrows(w.c, s.b, s'.b, s.m.log, s'.m.log);
    TargetsGrow(w, s.b, s'.b, s.m.log, s'.m.log, s.m.pcs, s'.m.pcs);
    FlagKept(w, s, h, c, s');
  }

  /** Any other step inside a visit. */
  lemma InsideKept(w: World, s: State, h: nat, c: M.Choice, s': State)
    requires Inv(w, s) && PointerStep(w, s, h, c, s') && s.m.pcs[h].Busy? && !s.m.pcs[h].stage.Call?
        && !s.m.pcs[h].stage.Leave?
    ensures Inv(w, s')
  {
    var e := M.Act(s.m, h, c, w.home);
    MapStep(s.m, h, c, w.home, s'.m, e);
    TopAims(w, s, h);
    forall x: Addr
      ensures Called(s'.m.log, x) <==> Called(s.m.log, x)
    {
      if e.op.Note? {
        CalledMore(s.m.log, e.op.e, x);
      }
    }
    forall x: Addr | Entering(s.m.pcs, s.b.first, x)
      ensures Entering(s'.m.pcs, s'.b.first, x)
    {
      EnteringStays(s.m.pcs, s.b.first, s'.m.pcs, s'.b.first, h, x);
      if s.b.first[h] && s.m.pcs[h].a == x {
        assert s'.b.first[h] && s'.m.pcs[h].Busy? && s'.m.pcs[h].a == x;
      }
    }
    SeenGrows(w.c, s.b, s'.b, s.m.log, s'.m.log);
    TargetsGrow(w, s.b, s'.b, s.m.log, s'.m.log, s.m.pcs, s'.m.pcs);
    if e.op.Note? {
      VouchedMore(w, s.m.log, e.op.e);
    }
    FlagKept(w, s, h, c, s');
  }

  /** The place a first visit goes on to is the one every pointer to its address leads to. */
  lemma EntryKnown(w: World, s: State, h: nat, it: Item, x: Addr, b': Books, items: seq<Item>)
    requires GoodWorld(w) && Inv(w, s) && h < |s.b.todo| && s.m.pcs[h].Busy? && s.m.pcs[h].a == x && s.b.first[h]
    requires Aims(w.c, w.roots, it, x) && Follows(w.c, it.ty, x) && s.b.todo[h] != [] && b' == Replace(s.b, h, items)
    requires items == if x >= 0 && s.b.first[h]
        && Follows(w.c, s.b.todo[h][0].ty, x) then [Entry(w.c, s.b.todo[h][0])] else []
    ensures Known(b', Entry(w.c, it))
  {
    TopAims(w, s, h);
    var top := s.b.todo[h][0];
    assert SameEntry(w.c, it.ty, top.ty, x);
    assert Entry(w.c, it) == Entry(w.c, top) && Entry(w.c, top) in items;
    ReplaceKnows(s.b, h, items);
  }

  /** The end of a visit. */
  lemma LeaveKept(w: World, s: State, h: nat, c: M.Choice, s': State)
    requires GoodWorld(w) && Inv(w, s) && PointerStep(w, s, h, c, s') && s.m.pcs[h].Busy? && s.m.pcs[h].stage.Leave?
    ensures Inv(w, s')
  {
    MapStep(s.m, h, c, w.home, s'.m, M.Act(s.m, h, c, w.home));
    M.ReachStep(s.m, w.home, h, c);
    M.ReachableInv(s.m, w.home);
    M.LeavingIsMapped(s.m, w.home, h);
    TopAims(w, s, h);
    var top, a := s.b.todo[h][0], s.m.pcs[h].a;
    var items := if a >= 0 && s.b.first[h] && Follows(w.c, top.ty, a) then [Entry(w.c, top)] else [];
    assert forall q :: q in items ==> Onward(w.c, top, q);
    ReplaceKnows(s.b, h, items);
    ReplaceWalked(w, s.b, h, items);
    RootsGrow(w, s.b, s'.b);
    ReplaceTasks(s, h, items, s'.b);
    SeenGrows(w.c, s.b, s'.b, s.m.log, s'.m.log);
    forall it, x | Aims(w.c, w.roots, it, x) && Follows(w.c, it.ty, x) && Entering(s.m.pcs, s.b.first, x)
      ensures Known(s'.b, Entry(w.c, it)) || Entering(s'.m.pcs, s'.b.first, x)
    {
      EnteringStays(s.m.pcs, s.b.first, s'.m.pcs, s'.b.first, h, x);
      if s.b.first[h] && a == x {
        EntryKnown(w, s, h, it, x, s'.b, items);
      }
    }
    TargetsGrow(w, s.b, s'.b, s.m.log, s'.m.log, s.m.pcs, s'.m.pcs);
  }

  lemma PointerStepKeeps(w: World, s: State, h: nat, c: M.Choice, s': State)
    requires GoodWorld(w) && Inv(w, s) && PointerStep(w, s, h, c, s')
    ensures Inv(w, s')
  {
    match s.m.pcs[h]
    case Idle =>
      if c.Start? {
        StartKept(w, s, h, c, s');
      } else {
        NullKept(w, s, h, c, s');
      }
    case Busy(_, Call) => CallKept(w, s, h, c, s');
    case Busy(_, Leave) => LeaveKept(w, s, h, c, s');
    case Busy(_, _) => InsideKept(w, s, h, c, s');
  }

  // ----- whole runs

  lemma InitInv(w: World, s: State)
    requires Init(w, s)
    ensures Inv(w, s)
  {
    Q.InvInit(s.q);
    assert M.Run([s.m], w.home) && [s.m][0] == s.m;
    var main := |s.b.todo| - 1;
    forall it | Known(s.b, it)
      ensures Walked(w.c, w.roots, it)
    {
      var k :| 0 <= k < |s.b.todo| && it in s.b.todo[k];
      var i :| 0 <= i < |w.roots| && RootItems(w.roots)[i] == it;
      RootWalked(w.c, w.roots, i);
    }
    forall it | it in RootItems(w.roots)
      ensures Known(s.b, it)
    {
      assert it in s.b.todo[main];
    }
  }

  lemma NextKeeps(w: World, s: State, s': State)
    requires GoodWorld(w) && Inv(w, s) && Next(w, s, s')
    ensures Inv(w, s')
  {
    if h: nat, c: Q.Choice, n: nat :| QueueStep(w, s, h, c, n, s') {
      QueueStepKeeps(w, s, h, c, n, s');
    } else if h: nat :| PlainStep(w, s, h, s') {
      PlainStepKeeps(w, s, h, s');
    } else {
      var h: nat, c: M.Choice :| PointerStep(w, s, h, c, s');
      PointerStepKeeps(w, s, h, c, s');
    }
  }

  lemma {:induction false} RunInv(w: World, run: seq<State>, k: nat)
    requires GoodWorld(w) && Run(w, run) && k < |run|
    ensures Inv(w, run[k]) == true
  {
    if k == 0 {
      InitInv(w, run[0]);
    } else {
      RunInv(w, run, k - 1);
      assert Follows1(w, run, k);
      NextKeeps(w, run[k - 1], run[k]);
    }
  }

  // ----- the end of a run

  /** No thread has anything to visit and no task is waiting. */
  ghost predicate AtRest(s: State)
  {
    && (forall h :: 0 <= h < |s.b.todo| ==> s.b.todo[h] == [])
    && (forall h :: 0 <= h < |s.m.pcs| ==> s.m.pcs[h].Idle?)
    && (forall t: nat :: !Waiting(s.q, t))
  }

  /** Once a thread has left its loop, no thread works. */
  lemma NobodyWorks(q: Q.State, g: nat, h: nat)
    requires Q.Inv(q) && g < |q.threads| && q.threads[g].pc.Exited? && h < |q.threads|
    ensures !Occupied(q.threads[h].pc)
  {
    assert Q.SawEmpty(q.threads[g].pc);
    Q.QuiescentWhenDone(q);
    assert Q.Counted(q.threads[h], |q.threads|);
  }

  lemma RingsAreEmpty(q: Q.State, g: nat)
    requires Q.Inv(q) && g < |q.threads| && q.threads[g].pc.Exited?
    ensures forall t: nat :: !Waiting(q, t)
  {
    assert Q.SawEmpty(q.threads[g].pc);
    Q.QuiescentWhenDone(q);
    forall t: nat
      ensures !Waiting(q, t)
    {
      forall h | 0 <= h < |q.threads|
        ensures !Enqueues(q.threads[h].pc, t)
      {
        NobodyWorks(q, g, h);
      }
    }
  }

  lemma ExitIsRest(w: World, s: State, g: nat)
    requires Inv(w, s) && g < |s.q.threads| && s.q.threads[g].pc.Exited?
    ensures AtRest(s)
  {
    RingsAreEmpty(s.q, g);
    forall h | 0 <= h < |s.b.todo|
      ensures s.b.todo[h] == [] && s.m.pcs[h].Idle?
    {
      NobodyWorks(s.q, g, h);
      assert ThreadOk(w.c, s.q.threads[h].pc, s.m.pcs[h], s.b.todo[h]);
    }
  }

  /** The places of all tasks have been visited: those of the last one first. */
  lemma {:induction false} BodySeen(s: State, t: nat, it: Item)
    requires TasksKept(s.b, s.q) && AtRest(s) && t < |s.b.bodies| && it in s.b.bodies[t]
    ensures it in s.b.seen
    decreases |s.b.bodies| - t
  {
    assert TaskKept(s.b, s.q, t);
    assert Handled(s.b, t, it);
    if it !in s.b.seen {
      assert !InTodo(s.b, it);
      var u :| t + 1 <= u < |s.b.bodies| && 0 <= u && it in s.b.bodies[u];
      BodySeen(s, u, it);
    }
  }

  lemma KnownIsSeen(s: State, it: Item)
    requires TasksKept(s.b, s.q) && AtRest(s) && Known(s.b, it)
    ensures it in s.b.seen
  {
    if InBody(s.b, it, 0) {
      var t :| 0 <= t < |s.b.bodies| && it in s.b.bodies[t];
      BodySeen(s, t, it);
    }
  }

  /** The visited places are closed. */
  lemma OnwardSeen(w: World, s: State, p: Item, q: Item)
    requires Inv(w, s) && AtRest(s) && p in s.b.seen && Onward(w.c, p, q)
    ensures q in s.b.seen
  {
    assert Spread(w.c, s.b, s.m.log, p);
    if IsPtr(p.ty) {
      var x := PtrAt(w.c.mem, p.loc);
      assert Known(s.b, p);
      assert Aims(w.c, w.roots, p, x);
      assert q == Entry(w.c, p) && !Entering(s.m.pcs, s.b.first, x);
    }
    KnownIsSeen(s, q);
  }

  lemma {:induction false} PathSeen(w: World, s: State, path: seq<Item>, k: nat)
    requires Inv(w, s) && AtRest(s) && Trail(w.c, w.roots, path) && k < |path|
    ensures path[k] in s.b.seen
  {
    if k == 0 {
      var i :| 0 <= i < |w.roots| && path[0] == Item(w.roots[i].loc, w.roots[i].ty);
      assert RootItems(w.roots)[i] == path[0];
      KnownIsSeen(s, path[0]);
    } else {
      PathSeen(w, s, path, k - 1);
      assert Step(w.c, path, k);
      OnwardSeen(w, s, path[k - 1], path[k]);
    }
  }

  lemma SeenIsWalked(w: World, s: State, it: Item)
    requires Inv(w, s) && AtRest(s)
    ensures it in s.b.seen <==> Walked(w.c, w.roots, it)
  {
    if it in s.b.seen {
      assert Known(s.b, it);
    }
    if Walked(w.c, w.roots, it) {
      var path :| Trail(w.c, w.roots, path) && path[|path| - 1] == it;
      PathSeen(w, s, path, |path| - 1);
    }
  }

  /** A first-visit callback in the log was vouched for. */
  lemma {:induction false} CalledIsAimed(w: World, log: seq<M.Event>, x: Addr)
    requires AllVouched(w, log) && x != 0 && Called(log, x)
    ensures Aimed(w.c, w.roots, x) && M.Firsts(log, x)[0] == w.c.image(x)
  {
    var init, e := log[..|log| - 1], log[|log| - 1];
    assert Vouched(w, e);
    if Called(init, x) {
      assert forall i :: 0 <= i < |init| ==> init[i] == log[i];
      CalledIsAimed(w, init, x);
    }
  }

  /** At rest exactly the reachable targets are mapped, each to its image, after one callback each. */
  lemma MappedAtRest(w: World, s: State, x: Addr)
    requires GoodWorld(w) && Inv(w, s) && AtRest(s) && x != 0
    ensures x != M.SEED ==> (x in s.m.table <==> Aimed(w.c, w.roots, x))
    ensures x != M.SEED && x in s.m.table ==>
          M.Firsts(s.m.log, x) == [w.c.image(x)] && M.Get(s.m.nodes, s.m.table[x]).addr == w.c.image(x)
    ensures x != M.SEED && x !in s.m.table ==> M.Firsts(s.m.log, x) == []
  {
    M.ReachableInv(s.m, w.home);
    var b := w.home(x);
    assert s.m.holders[b] == -1;
    M.FreeBucketExact(s.m, w.home, b);
    if Called(s.m.log, x) {
      CalledIsAimed(w, s.m.log, x);
    }
    if Aimed(w.c, w.roots, x) {
      var it :| Aims(w.c, w.roots, it, x);
      SeenIsWalked(w, s, it);
      assert Spread(w.c, s.b, s.m.log, it);
    }
  }

  /**
   * When a thread of a parallel traversal has left its loop, whatever the number of threads and the
   * interleaving: the places visited are those of the serial traversal, the address map holds the same
   * addresses with the same images, and each had as many first-visit callbacks.
   */
  lemma SameAsSerial(w: World, run: seq<State>, k: nat, g: nat)
    requires GoodWorld(w) && Run(w, run) && k < |run| && g < |run[k].q.threads| && run[k].q.threads[g].pc.Exited?
    ensures forall it :: it in run[k].b.seen <==> Visited(Traverse(w.c, w.roots).log, it)
    ensures forall x: Addr :: x != M.SEED && x != 0 ==> (x in run[k].m.table <==> x in Traverse(w.c, w.roots).mapping)
    ensures forall x: Addr :: x != M.SEED && x != 0 && x in run[k].m.table ==>
              M.Get(run[k].m.nodes, run[k].m.table[x]).addr == w.c.image(x)
    ensures forall x: Addr :: x != M.SEED && x != 0 ==>
          |M.Firsts(run[k].m.log, x)| == FirstCalls(Traverse(w.c, w.roots).log, x)
  {
    var s := run[k];
    RunInv(w, run, k);
    ExitIsRest(w, s, g);
    VisitsExactlyTheWalked(w.c, w.roots);
    forall it
      ensures it in s.b.seen <==> Walked(w.c, w.roots, it)
    {
      SeenIsWalked(w, s, it);
    }
    forall x: Addr | x != M.SEED && x != 0
      ensures x in s.m.table <==> Aimed(w.c, w.roots, x)
      ensures x in s.m.table ==> M.Get(s.m.nodes, s.m.table[x]).addr == w.c.image(x)
      ensures |M.Firsts(s.m.log, x)| == if Aimed(w.c, w.roots, x) then 1 else 0
    {
      MappedAtRest(w, s, x);
    }
  }
}
