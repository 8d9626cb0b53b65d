/**
 * Where the code's walk leads from the roots, with the distances between array elements that it takes
 * from the type table, and that the traversal visits exactly these places. Module Reachability says
 * what is reachable by the layout, and when the two agree.
 */
module Walk {
  import opened Traversal

  /** A typed place in the heap. */
  datatype Item = Item(loc: Loc, ty: Ty)

  /** The places one step away: array elements, fields, and the target of a followed pointer. */
  ghost predicate Onward(c: Setup, p: Item, q: Item)
  {
    match p.ty
    case Pointer(t) => Follows(c, p.ty, PtrAt(c.mem, p.loc)) && q == Item(Loc(PtrAt(c.mem, p.loc), 0), c.env(t))
    case Array(n, b) => exists k: nat :: k < n && q == Element(p.loc, b, k)
    case Struct(_, fields) => exists k: nat :: k < |fields| && q == Member(p.loc, fields, k)
    case _ => false
  }

  function Element(l: Loc, base: Ty, k: nat): Item
  {
    Item(Shift(l, ArraySize(k, Stride(base))), base)
  }

  function Member(l: Loc, fields: seq<Field>, k: nat): Item
    requires k < |fields|
  {
    Item(Shift(l, fields[k].offset), fields[k].ty)
  }

  ghost predicate IsRoot(roots: seq<Root>, it: Item)
  {
    exists i :: 0 <= i < |roots| && it == Item(roots[i].loc, roots[i].ty)
  }

  ghost predicate Trail(c: Setup, roots: seq<Root>, path: seq<Item>)
  {
    path != [] && IsRoot(roots, path[0]) && forall i :: 0 < i < |path| ==> Step(c, path, i)
  }

  ghost predicate Step(c: Setup, path: seq<Item>, i: nat)
    requires 0 < i < |path|
  {
    Onward(c, path[i - 1], path[i])
  }

  ghost predicate Walked(c: Setup, roots: seq<Root>, it: Item)
  {
    exists path :: Trail(c, roots, path) && path[|path| - 1] == it
  }

  /** A non-null value of some pointer the walk leads to. */
  ghost predicate Aimed(c: Setup, roots: seq<Root>, x: Addr)
  {
    exists it :: Aims(c, roots, it, x)
  }

  ghost predicate Aims(c: Setup, roots: seq<Root>, it: Item, x: Addr)
  {
    x != 0 && Walked(c, roots, it) && IsPtr(it.ty) && PtrAt(c.mem, it.loc) == x
  }

  lemma RootWalked(c: Setup, roots: seq<Root>, i: nat)
    requires i < |roots|
    ensures Walked(c, roots, Item(roots[i].loc, roots[i].ty))
  {
    assert Trail(c, roots, [Item(roots[i].loc, roots[i].ty)]);
  }

  lemma OnwardWalked(c: Setup, roots: seq<Root>, p: Item, q: Item)
    requires Walked(c, roots, p) && Onward(c, p, q)
    ensures Walked(c, roots, q)
  {
    var path :| Trail(c, roots, path) && path[|path| - 1] == p;
    var path' := path + [q];
    forall i | 0 < i < |path'|
      ensures Step(c, path', i)
    {
      assert i < |path| ==> Step(c, path, i);
    }
    assert Trail(c, roots, path');
  }

  // ----- nothing but where the walk leads

  ghost predicate TaskWalked(c: Setup, roots: seq<Root>, t: Task)
  {
    FieldsWalked(c, roots, t.loc, t.fields)
  }

  ghost predicate FieldsWalked(c: Setup, roots: seq<Root>, l: Loc, fields: seq<Field>)
  {
    forall k: nat :: k < |fields| ==> Walked(c, roots, Member(l, fields, k))
  }

  ghost predicate ElementsWalked(c: Setup, roots: seq<Root>, l: Loc, base: Ty, n: nat)
  {
    forall k: nat :: k < n ==> Walked(c, roots, Element(l, base, k))
  }

  ghost predicate Sound(c: Setup, roots: seq<Root>, e: Engine)
  {
    && (forall x {:trigger Aimed(c, roots, x)} :: x in e.mapping ==> Aimed(c, roots, x))
    && (forall i :: 0 <= i < |e.queue| ==> TaskWalked(c, roots, e.queue[i]))
    && (forall i {:trigger Place(e.log[i])} :: 0 <= i < |e.log| ==> Walked(c, roots, Place(e.log[i])))
  }

  lemma LoggedSound(c: Setup, roots: seq<Root>, e: Engine, l: Loc, ty: Ty, k: Kind)
    requires Sound(c, roots, e) && Walked(c, roots, Item(l, ty))
    ensures Sound(c, roots, Logged(e, l, ty, k))
  {
  }

  lemma FirstVisitSound(c: Setup, roots: seq<Root>, e: Engine, l: Loc, ty: Ty, out: Loc, x: Addr)
    requires Sound(c, roots, e) && Walked(c, roots, Item(l, ty)) && IsPtr(ty) && PtrAt(c.mem, l) == x
    ensures Sound(c, roots, FirstVisit(c, e, l, ty, out, x))
  {
    assert x != 0 ==> Aims(c, roots, Item(l, ty), x);
  }

  lemma {:induction false} VisitSound(c: Setup, roots: seq<Root>, e: Engine, l: Loc, ty: Ty, out: Loc, r: Engine)
    requires Proper(c) && Sane(c, e) && Sound(c, roots, e) && Walked(c, roots, Item(l, ty))
    requires r == Visit(c, e, l, ty, out)
    ensures Sound(c, roots, r)
    decreases Unmapped(c, e), ty, 1
  {
    match ty
    case Array(n, base) =>
      LoggedSane(c, e, l, ty, Elements);
      forall k: nat | k < n
        ensures Walked(c, roots, Element(l, base, k))
      {
        OnwardWalked(c, roots, Item(l, ty), Element(l, base, k));
      }
      assert Elementwise(c, Logged(e, l, ty, Elements), l, base, n, out, r);
      VisitArraySound(c, roots, Logged(e, l, ty, Elements), l, base, n, out, r);
    case Struct(_, fields) =>
      forall k: nat | k < |fields|
        ensures Walked(c, roots, Member(l, fields, k))
      {
        OnwardWalked(c, roots, Item(l, ty), Member(l, fields, k));
      }
      assert TaskWalked(c, roots, Task(l, fields, out));
    case Pointer(_) => VisitPointerSound(c, roots, e, l, ty, out, r);
    case FunPointer => VisitPointerSound(c, roots, e, l, ty, out, r);
    case _ =>
  }

  lemma {:induction false} VisitPointerSound(c: Setup, roots: seq<Root>, e: Engine, l: Loc, ty: Ty, out: Loc, r: Engine)
    requires Proper(c) && Sane(c, e) && Sound(c, roots, e) && Walked(c, roots, Item(l, ty)) && IsPtr(ty)
    requires r == VisitPointer(c, e, l, ty, out)
    ensures Sound(c, roots, r)
    decreases Unmapped(c, e), ty, 0
  {
    var x := PtrAt(c.mem, l);
    if FindMapping(e.mapping, x) == 0 {
      FirstVisitSane(c, e, l, ty, out, x);
      FirstVisitSound(c, roots, e, l, ty, out, x);
      if Follows(c, ty, x) {
        var e1 := FirstVisit(c, e, l, ty, out, x);
        assert x in Unmapped(c, e) && x !in Unmapped(c, e1);
        OnwardWalked(c, roots, Item(l, ty), Item(Loc(x, 0), c.env(ty.target)));
        VisitSound(c, roots, e1, Loc(x, 0), c.env(ty.target), Loc(c.image(x), 0), r);
      }
    }
  }

  lemma {:induction false} VisitArraySound(c: Setup, roots: seq<Root>, e: Engine, l: Loc, base: Ty, n: nat, out: Loc,
      r: Engine)
    requires Proper(c) && Sane(c, e) == true && Sound(c, roots, e) == true
        && ElementsWalked(c, roots, l, base, n) == true
    requires Elementwise(c, e, l, base, n, out, r) == true
    ensures Sound(c, roots, r) == true
    decreases Unmapped(c, e), base, n + 1
  {
    if n > 0 {
      var e1, l1, n1, out1 := Visit(c, e, l, base, out), Shift(l, Stride(base)), n - 1, Shift(out, Stride(base));
      ElementsTail(c, roots, l, base, n, l1, n1);
      ElementwiseNext(c, e, l, base, n, out, e1, l1, n1, out1, r);
      VisitSound(c, roots, e, l, base, out, e1);
      VisitArraySound(c, roots, e1, l1, base, n1, out1, r);
    } else {
      ElementwiseEnd(c, e, l, base, out, r);
    }
  }

  ghost predicate Opened(i: int) { true }

  /** The visit of `n` elements from `l` on leads from `e` to `r`; in view only where `Opened` is mentioned. */
  ghost predicate Elementwise(c: Setup, e: Engine, l: Loc, base: Ty, n: nat, out: Loc, r: Engine)
  {
    (forall i {:trigger Opened(i)} :: Opened(i) ==>
          Proper(c) && Sane(c, e) && r == VisitArray(c, e, l, base, n, out)) == true
  }

  lemma ArrayTail(c: Setup, e: Engine, l: Loc, base: Ty, n: nat, out: Loc, e1: Engine, l1: Loc, n1: nat, out1: Loc)
    requires Proper(c) && Sane(c, e) && n > 0 && e1 == Visit(c, e, l, base, out)
    requires l1 == Shift(l, Stride(base)) && out1 == Shift(out, Stride(base)) && n1 == n - 1
    ensures VisitArray(c, e, l, base, n, out) == VisitArray(c, e1, l1, base, n1, out1)
  {
  }

  lemma SetElementwise(c: Setup, e: Engine, l: Loc, base: Ty, n: nat, out: Loc, r: Engine)
    requires Proper(c) && Sane(c, e) && r == VisitArray(c, e, l, base, n, out)
    ensures Elementwise(c, e, l, base, n, out, r) == true && Grows(e, r) == true
  {
  }

  lemma ElementwiseNow(c: Setup, e: Engine, l: Loc, base: Ty, n: nat, out: Loc, r: Engine)
    requires Elementwise(c, e, l, base, n, out, r) == true
    ensures Proper(c) && Sane(c, e) == true && r == VisitArray(c, e, l, base, n, out)
  {
    assert Opened(0);
  }

  lemma ElementwiseNext(c: Setup, e: Engine, l: Loc, base: Ty, n: nat, out: Loc, e1: Engine, l1: Loc, n1: nat,
      out1: Loc, r: Engine)
    requires Proper(c) && Sane(c, e) == true && n > 0 && Elementwise(c, e, l, base, n, out, r) == true
        && e1 == Visit(c, e, l, base, out)
    requires l1 == Shift(l, Stride(base)) && out1 == Shift(out, Stride(base)) && n1 == n - 1
    ensures Elementwise(c, e1, l1, base, n1, out1, r) == true
    ensures Unmapped(c, e1) <= Unmapped(c, e) && Grows(e1, r) == true
  {
    ElementwiseNow(c, e, l, base, n, out, r);
    ArrayTail(c, e, l, base, n, out, e1, l1, n1, out1);
    SetElementwise(c, e1, l1, base, n1, out1, r);
  }

  lemma ElementwiseEnd(c: Setup, e: Engine, l: Loc, base: Ty, out: Loc, r: Engine)
    requires Elementwise(c, e, l, base, 0, out, r) == true
    ensures r == e
  {
    ElementwiseNow(c, e, l, base, 0, out, r);
  }

  lemma ElementsTail(c: Setup, roots: seq<Root>, l: Loc, base: Ty, n: nat, l1: Loc, n1: nat)
    requires ElementsWalked(c, roots, l, base, n) && n > 0 && l1 == Shift(l, Stride(base)) && n1 == n - 1
    ensures Walked(c, roots, Item(l, base)) == true && ElementsWalked(c, roots, l1, base, n1) == true
  {
    assert Element(l, base, 0) == Item(l, base);
    forall k: nat | k < n - 1
      ensures Walked(c, roots, Element(l1, base, k))
    {
      assert Element(l1, base, k) == Element(l, base, k + 1);
    }
  }

  lemma {:induction false} VisitFieldsSound(c: Setup, roots: seq<Root>, e: Engine, l: Loc, fields: seq<Field>,
      out: Loc, r: Engine)
    requires Proper(c) && Sane(c, e) && Sound(c, roots, e) && FieldsWalked(c, roots, l, fields)
    requires r == VisitFields(c, e, l, fields, out)
    ensures Sound(c, roots, r)
    decreases |fields|
  {
    if fields != [] {
      var f := fields[0];
      assert Member(l, fields, 0) == Item(Shift(l, f.offset), f.ty);
      var e1 := Visit(c, e, Shift(l, f.offset), f.ty, Shift(out, f.offset));
      VisitSound(c, roots, e, Shift(l, f.offset), f.ty, Shift(out, f.offset), e1);
      forall k: nat | k < |fields[1..]|
        ensures Walked(c, roots, Member(l, fields[1..], k))
      {
        assert Member(l, fields[1..], k) == Member(l, fields, k + 1);
      }
      VisitFieldsSound(c, roots, e1, l, fields[1..], out, r);
    }
  }

  lemma {:induction false} DrainSound(c: Setup, roots: seq<Root>, e: Engine)
    requires Proper(c) && Sane(c, e) && Sound(c, roots, e)
    ensures Sound(c, roots, Drain(c, e))
    decreases Unmapped(c, e), Weight(e.queue)
  {
    if e.queue != [] {
      var t := e.queue[0];
      assert TaskWalked(c, roots, t);
      VisitFieldsSound(c, roots, e.(queue := e.queue[1..]), t.loc, t.fields, t.out, RunTask(c, e));
      RunTaskProgress(c, e);
      DrainSound(c, roots, RunTask(c, e));
    }
  }

  lemma {:induction false} VisitRootsSound(c: Setup, all: seq<Root>, e: Engine, i: nat)
    requires Proper(c) && Sane(c, e) && Sound(c, all, e) && i <= |all|
    ensures Sound(c, all, VisitRoots(c, e, all[i..]))
    decreases |all| - i
  {
    if i < |all| {
      RootWalked(c, all, i);
      var e1 := Visit(c, e, all[i].loc, all[i].ty, all[i].out);
      VisitSound(c, all, e, all[i].loc, all[i].ty, all[i].out, e1);
      assert all[i..][1..] == all[i + 1..];
      VisitRootsSound(c, all, e1, i + 1);
    }
  }

  /** Every call of visit is on a place the walk leads to, and every mapped address is the value of a pointer there. */
  lemma WalkSound(c: Setup, roots: seq<Root>)
    requires Proper(c)
    ensures Sound(c, roots, Traverse(c, roots))
  {
    assert roots[0..] == roots;
    VisitRootsSound(c, roots, Idle, 0);
    DrainSound(c, roots, VisitRoots(c, Idle, roots));
  }

  // ----- everywhere the walk leads

  function Place(ev: Event): Item { Item(ev.loc, ev.ty) }

  ghost predicate Visited(log: seq<Event>, it: Item)
  {
    exists i :: 0 <= i < |log| && Place(log[i]) == it
  }

  /** The event is the first visit of a pointer that leads to `it`. */
  ghost predicate Enters(c: Setup, ev: Event, it: Item)
  {
    && ev.kind.First? && Follows(c, ev.ty, ev.kind.target)
    && it == Item(Loc(ev.kind.target, 0), c.env(ev.ty.target))
  }

  /** Pointers of the two types to `x` lead to the same place, or neither is followed. */
  predicate SameEntry(c: Setup, ty: Ty, ty': Ty, x: Addr)
  {
    Follows(c, ty, x) == Follows(c, ty', x) && (Follows(c, ty, x) ==> c.env(ty.target) == c.env(ty'.target))
  }

  /** All pointers to an address that the walk leads to go to the same place, or none of them is followed. */
  ghost predicate AimedAlike(c: Setup, roots: seq<Root>)
  {
    forall it, it', x :: Aims(c, roots, it, x) && Aims(c, roots, it', x) ==> SameEntry(c, it.ty, it'.ty, x)
  }

  /** The pointer type `typeAt(x)` stands for those of all such pointers to `x`. */
  ghost predicate AimedAs(c: Setup, roots: seq<Root>, typeAt: Addr -> Ty)
  {
    forall it, x :: Aims(c, roots, it, x) ==> SameEntry(c, it.ty, typeAt(x), x)
  }

  /** The type of some such pointer to `x`. */
  ghost function TypeAt(c: Setup, roots: seq<Root>, x: Addr): Ty
  {
    if Aimed(c, roots, x) then var it :| Aims(c, roots, it, x); it.ty else Unknown
  }

  lemma Representative(c: Setup, roots: seq<Root>)
    requires AimedAlike(c, roots)
    ensures AimedAs(c, roots, (x: Addr) => TypeAt(c, roots, x))
  {
    forall it, x | Aims(c, roots, it, x)
      ensures SameEntry(c, it.ty, TypeAt(c, roots, x), x)
    {
      assert Aimed(c, roots, x);
      var it' :| Aims(c, roots, it', x) && it'.ty == TypeAt(c, roots, x);
    }
  }

  ghost predicate FieldsVisited(log: seq<Event>, l: Loc, fields: seq<Field>)
  {
    forall k: nat :: k < |fields| ==> Visited(log, Member(l, fields, k))
  }

  ghost predicate ElementsVisited(log: seq<Event>, l: Loc, base: Ty, n: nat)
  {
    forall k: nat :: k < n ==> Visited(log, Element(l, base, k))
  }

  ghost predicate Queued(queue: seq<Task>, l: Loc, fields: seq<Field>)
  {
    exists i :: 0 <= i < |queue| && queue[i].loc == l && queue[i].fields == fields
  }

  /** The children of a visited place have been visited, or will be when its task runs. */
  ghost predicate Closed(c: Setup, e: Engine, it: Item)
  {
    match it.ty
    case Array(n, base) => ElementsVisited(e.log, it.loc, base, n)
    case Struct(_, fields) => FieldsVisited(e.log, it.loc, fields) || Queued(e.queue, it.loc, fields)
    case Pointer(t) =>
      var x := PtrAt(c.mem, it.loc);
      x != 0 ==> x in e.mapping && (Follows(c, it.ty, x) ==> Visited(e.log, Item(Loc(x, 0), c.env(t))))
    case FunPointer => PtrAt(c.mem, it.loc) != 0 ==> PtrAt(c.mem, it.loc) in e.mapping
    case _ => true
  }

  lemma VisitedGrows(log: seq<Event>, log': seq<Event>, it: Item)
    requires Visited(log, it) && log <= log'
    ensures Visited(log', it)
  {
    var i :| 0 <= i < |log| && Place(log[i]) == it;
    assert Place(log'[i]) == it;
  }

  lemma ClosedGrows(c: Setup, e: Engine, r: Engine, it: Item)
    requires Closed(c, e, it) && Grows(e, r)
    ensures Closed(c, r, it)
  {
    match it.ty
    case Array(n, base) =>
      forall k: nat | k < n
        ensures Visited(r.log, Element(it.loc, base, k))
      {
        VisitedGrows(e.log, r.log, Element(it.loc, base, k));
      }
    case Struct(_, fields) =>
      if FieldsVisited(e.log, it.loc, fields) {
        FieldsVisitedGrows(e.log, r.log, it.loc, fields);
      } else {
        var i :| 0 <= i < |e.queue| && e.queue[i].loc == it.loc && e.queue[i].fields == fields;
        assert r.queue[i] == e.queue[i];
      }
    case Pointer(t) =>
      var x := PtrAt(c.mem, it.loc);
      if Follows(c, it.ty, x) {
        VisitedGrows(e.log, r.log, Item(Loc(x, 0), c.env(t)));
      }
    case _ =>
  }

  lemma FieldsVisitedGrows(log: seq<Event>, log': seq<Event>, l: Loc, fields: seq<Field>)
    requires FieldsVisited(log, l, fields) && log <= log'
    ensures FieldsVisited(log', l, fields)
  {
    forall k: nat | k < |fields|
      ensures Visited(log', Member(l, fields, k))
    {
      VisitedGrows(log, log', Member(l, fields, k));
    }
  }

  /** The events from number `from` on are closed. */
  ghost predicate ClosedFrom(c: Setup, e: Engine, from: nat)
  {
    forall i :: from <= i < |e.log| ==> Closed(c, e, Place(e.log[i]))
  }

  lemma ClosedFromJoin(c: Setup, e: Engine, r: Engine, from: nat)
    requires ClosedFrom(c, e, from) && Grows(e, r) && ClosedFrom(c, r, |e.log|)
    ensures ClosedFrom(c, r, from)
  {
    forall i | from <= i < |r.log|
      ensures Closed(c, r, Place(r.log[i]))
    {
      if i < |e.log| {
        assert r.log[i] == e.log[i];
        ClosedGrows(c, e, r, Place(e.log[i]));
      }
    }
  }

  function Target(c: Setup, typeAt: Addr -> Ty, x: Addr): Item
    requires typeAt(x).Pointer?
  {
    Item(Loc(x, 0), c.env(typeAt(x).target))
  }

  /** Every mapped and followed target has been visited, save possibly the place being entered. */
  ghost predicate MapClosed(c: Setup, typeAt: Addr -> Ty, e: Engine, cur: Item)
  {
    forall x {:trigger Target(c, typeAt, x)} ::
      x in e.mapping && Follows(c, typeAt(x), x) ==> Target(c, typeAt, x) == cur || Visited(e.log, Target(c, typeAt, x))
  }

  ghost predicate MapSettled(c: Setup, typeAt: Addr -> Ty, e: Engine)
  {
    forall x {:trigger Target(c, typeAt, x)} ::
      x in e.mapping && Follows(c, typeAt(x), x) ==> Visited(e.log, Target(c, typeAt, x))
  }

  /** What holds before a visit of `it`. */
  ghost predicate Ready(c: Setup, roots: seq<Root>, typeAt: Addr -> Ty, e: Engine, it: Item)
  {
    && Proper(c) && AimedAs(c, roots, typeAt) && Sane(c, e) && Sound(c, roots, e)
    && MapClosed(c, typeAt, e, it) && Walked(c, roots, it)
  }

  /** What holds between visits. */
  ghost predicate Settled(c: Setup, roots: seq<Root>, typeAt: Addr -> Ty, e: Engine)
  {
    && Proper(c) && AimedAs(c, roots, typeAt) && Sane(c, e) && Sound(c, roots, e)
    && MapSettled(c, typeAt, e)
  }

  /** What a visit of `it` that leads from `e` to `r` achieves. */
  ghost predicate Completes(c: Setup, roots: seq<Root>, typeAt: Addr -> Ty, e: Engine, it: Item, r: Engine)
  {
    Settled(c, roots, typeAt, r) && Visited(r.log, it) && ClosedFrom(c, r, |e.log|)
  }

  lemma MapClosedGrows(c: Setup, typeAt: Addr -> Ty, e: Engine, r: Engine, cur: Item)
    requires MapClosed(c, typeAt, e, cur) && Grows(e, r) && r.mapping == e.mapping && Visited(r.log, cur)
    ensures MapSettled(c, typeAt, r)
  {
    forall x | x in r.mapping && Follows(c, typeAt(x), x)
      ensures Visited(r.log, Target(c, typeAt, x))
    {
      if Target(c, typeAt, x) != cur {
        VisitedGrows(e.log, r.log, Target(c, typeAt, x));
      }
    }
  }

  lemma EntryVisited(e: Engine, l: Loc, ty: Ty, k: Kind)
    ensures Visited(Logged(e, l, ty, k).log, Item(l, ty))
  {
    assert Place((e.log + [Event(l, ty, k)])[|e.log|]) == Item(l, ty);
  }

  lemma {:induction false} VisitCloses(c: Setup, roots: seq<Root>, typeAt: Addr -> Ty, e: Engine, l: Loc, ty: Ty,
      out: Loc, r: Engine)
    requires Ready(c, roots, typeAt, e, Item(l, ty)) == true
    requires r == Visit(c, e, l, ty, out)
    ensures Completes(c, roots, typeAt, e, Item(l, ty), r) == true
    decreases Unmapped(c, e), ty, 1
  {
    VisitSound(c, roots, e, l, ty, out, r);
    match ty
    case Array(n, base) => VisitArrayBranchCloses(c, roots, typeAt, e, l, ty, out, r);
    case Struct(_, fields) =>
      EntryVisited(e, l, ty, Whole);
      MapClosedGrows(c, typeAt, e, r, Item(l, ty));
      assert r.queue[|e.queue|] == Task(l, fields, out);
      assert Queued(r.queue, l, fields);
    case Pointer(_) => VisitPointerCloses(c, roots, typeAt, e, l, ty, out, r);
    case FunPointer => VisitPointerCloses(c, roots, typeAt, e, l, ty, out, r);
    case Unknown =>
      EntryVisited(e, l, ty, Skipped);
      MapClosedGrows(c, typeAt, e, r, Item(l, ty));
    case Prim(_) =>
      EntryVisited(e, l, ty, Scalar);
      MapClosedGrows(c, typeAt, e, r, Item(l, ty));
  }

  lemma {:induction false} VisitArrayBranchCloses(c: Setup, roots: seq<Root>, typeAt: Addr -> Ty, e: Engine, l: Loc,
      ty: Ty, out: Loc, r: Engine)
    requires Ready(c, roots, typeAt, e, Item(l, ty)) == true && ty.Array?
    requires r == Visit(c, e, l, ty, out)
    ensures Completes(c, roots, typeAt, e, Item(l, ty), r) == true
    decreases Unmapped(c, e), ty, 0
  {
    var n, base := ty.len, ty.base;
    var e0 := Logged(e, l, ty, Elements);
    LoggedSane(c, e, l, ty, Elements);
    EntryVisited(e, l, ty, Elements);
    forall k: nat | k < n
      ensures Walked(c, roots, Element(l, base, k))
    {
      OnwardWalked(c, roots, Item(l, ty), Element(l, base, k));
    }
    MapClosedGrows(c, typeAt, e, e0, Item(l, ty));
    assert Elementwise(c, e0, l, base, n, out, r);
    VisitArrayCloses(c, roots, typeAt, e0, l, base, n, out, r);
    assert r.log[|e.log|] == Event(l, ty, Elements);
    VisitedGrows(e0.log, r.log, Item(l, ty));
    assert Closed(c, r, Item(l, ty));
  }

  lemma {:induction false} VisitPointerCloses(c: Setup, roots: seq<Root>, typeAt: Addr -> Ty, e: Engine, l: Loc,
      ty: Ty, out: Loc, r: Engine)
    requires Ready(c, roots, typeAt, e, Item(l, ty)) == true && IsPtr(ty)
    requires r == VisitPointer(c, e, l, ty, out)
    ensures Completes(c, roots, typeAt, e, Item(l, ty), r) == true
    decreases Unmapped(c, e), ty, 0
  {
    VisitPointerSound(c, roots, e, l, ty, out, r);
    var x := PtrAt(c.mem, l);
    assert x != 0 ==> Aims(c, roots, Item(l, ty), x);
    if FindMapping(e.mapping, x) != 0 {
      EntryVisited(e, l, ty, Again(x));
      MapClosedGrows(c, typeAt, e, r, Item(l, ty));
      if Follows(c, ty, x) {
        assert Visited(r.log, Target(c, typeAt, x));
      }
      assert Closed(c, r, Item(l, ty));
    } else {
      var e1 := FirstVisit(c, e, l, ty, out, x);
      FirstVisitSane(c, e, l, ty, out, x);
      FirstVisitSound(c, roots, e, l, ty, out, x);
      EntryVisited(e, l, ty, First(x));
      if Follows(c, ty, x) {
        assert x in Unmapped(c, e) && x !in Unmapped(c, e1);
        OnwardWalked(c, roots, Item(l, ty), Target(c, typeAt, x));
        MapClosedFirst(c, typeAt, e, l, ty, out, x, Target(c, typeAt, x));
        VisitCloses(c, roots, typeAt, e1, Loc(x, 0), c.env(ty.target), Loc(c.image(x), 0), r);
        VisitedGrows(e1.log, r.log, Item(l, ty));
      } else {
        MapSettledFirst(c, typeAt, e, l, ty, out, x);
      }
      assert r.log[|e.log|] == Event(l, ty, First(x));
    }
  }

  lemma MapClosedFirst(c: Setup, typeAt: Addr -> Ty, e: Engine, l: Loc, ty: Ty, out: Loc, x: Addr, next: Item)
    requires MapClosed(c, typeAt, e, Item(l, ty)) && x == PtrAt(c.mem, l)
    requires Follows(c, ty, x) && SameEntry(c, ty, typeAt(x), x) && next == Target(c, typeAt, x)
    ensures MapClosed(c, typeAt, FirstVisit(c, e, l, ty, out, x), next)
  {
    var e1 := FirstVisit(c, e, l, ty, out, x);
    EntryVisited(e, l, ty, First(x));
    forall y | y in e1.mapping && Follows(c, typeAt(y), y)
      ensures Target(c, typeAt, y) == next || Visited(e1.log, Target(c, typeAt, y))
    {
      if y in e.mapping && Target(c, typeAt, y) != Item(l, ty) {
        VisitedGrows(e.log, e1.log, Target(c, typeAt, y));
      }
    }
  }

  lemma MapSettledFirst(c: Setup, typeAt: Addr -> Ty, e: Engine, l: Loc, ty: Ty, out: Loc, x: Addr)
    requires MapClosed(c, typeAt, e, Item(l, ty)) && x == PtrAt(c.mem, l)
    requires !Follows(c, ty, x) && (x != 0 ==> SameEntry(c, ty, typeAt(x), x))
    ensures MapSettled(c, typeAt, FirstVisit(c, e, l, ty, out, x))
  {
    var e1 := FirstVisit(c, e, l, ty, out, x);
    EntryVisited(e, l, ty, First(x));
    forall y | y in e1.mapping && Follows(c, typeAt(y), y)
      ensures Visited(e1.log, Target(c, typeAt, y))
    {
      if Target(c, typeAt, y) != Item(l, ty) {
        VisitedGrows(e.log, e1.log, Target(c, typeAt, y));
      }
    }
  }

  lemma SettledReady(c: Setup, roots: seq<Root>, typeAt: Addr -> Ty, e: Engine, it: Item)
    requires Settled(c, roots, typeAt, e) == true && Walked(c, roots, it) == true
    ensures Ready(c, roots, typeAt, e, it) == true
  {
  }

  lemma CompletesSettled(c: Setup, roots: seq<Root>, typeAt: Addr -> Ty, e: Engine, it: Item, r: Engine)
    requires Completes(c, roots, typeAt, e, it, r) == true
    ensures Settled(c, roots, typeAt, r) == true
  {
  }

  /** What a visit of `n` elements from `l` on achieves. */
  ghost predicate CompletesArray(c: Setup, roots: seq<Root>, typeAt: Addr -> Ty, e: Engine, l: Loc, base: Ty, n: nat,
      r: Engine)
  {
    Settled(c, roots, typeAt, r) && ElementsVisited(r.log, l, base, n) && ClosedFrom(c, r, |e.log|)
  }

  lemma {:induction false} VisitArrayCloses(c: Setup, roots: seq<Root>, typeAt: Addr -> Ty, e: Engine, l: Loc,
      base: Ty, n: nat, out: Loc, r: Engine)
    requires Settled(c, roots, typeAt, e) == true && ElementsWalked(c, roots, l, base, n) == true
    requires Elementwise(c, e, l, base, n, out, r) == true
    ensures CompletesArray(c, roots, typeAt, e, l, base, n, r) == true
    decreases Unmapped(c, e), base, n + 1
  {
    if n > 0 {
      var e1, l1, n1, out1 := Visit(c, e, l, base, out), Shift(l, Stride(base)), n - 1, Shift(out, Stride(base));
      ElementsTail(c, roots, l, base, n, l1, n1);
      ElementwiseNext(c, e, l, base, n, out, e1, l1, n1, out1, r);
      SettledReady(c, roots, typeAt, e, Item(l, base));
      VisitCloses(c, roots, typeAt, e, l, base, out, e1);
      CompletesSettled(c, roots, typeAt, e, Item(l, base), e1);
      VisitArrayCloses(c, roots, typeAt, e1, l1, base, n1, out1, r);
      ArrayJoin(c, roots, typeAt, e, e1, r, l, base, n, l1, n1);
    } else {
      ElementwiseEnd(c, e, l, base, out, r);
    }
  }

  lemma ArrayJoin(c: Setup, roots: seq<Root>, typeAt: Addr -> Ty, e: Engine, e1: Engine, r: Engine, l: Loc, base: Ty,
      n: nat, l1: Loc, n1: nat)
    requires n > 0 && Grows(e1, r) == true && l1 == Shift(l, Stride(base)) && n1 == n - 1
    requires Completes(c, roots, typeAt, e, Item(l, base), e1) == true
    requires CompletesArray(c, roots, typeAt, e1, l1, base, n1, r) == true
    ensures CompletesArray(c, roots, typeAt, e, l, base, n, r) == true
  {
    ClosedFromJoin(c, e1, r, |e.log|);
    ElementsJoin(e1.log, r.log, l, base, n);
  }

  lemma ElementsJoin(log: seq<Event>, log': seq<Event>, l: Loc, base: Ty, n: nat)
    requires n > 0 && Visited(log, Item(l, base)) && log <= log'
    requires ElementsVisited(log', Shift(l, Stride(base)), base, n - 1)
    ensures ElementsVisited(log', l, base, n)
  {
    forall k: nat | k < n
      ensures Visited(log', Element(l, base, k))
    {
      if k == 0 {
        VisitedGrows(log, log', Item(l, base));
        assert Element(l, base, 0) == Item(l, base);
      } else {
        assert Element(l, base, k) == Element(Shift(l, Stride(base)), base, k - 1);
      }
    }
  }

  lemma {:induction false} VisitFieldsCloses(c: Setup, roots: seq<Root>, typeAt: Addr -> Ty, e: Engine, l: Loc,
      fields: seq<Field>, out: Loc)
    requires Settled(c, roots, typeAt, e) && FieldsWalked(c, roots, l, fields)
    ensures var r := VisitFields(c, e, l, fields, out);
            Settled(c, roots, typeAt, r) && FieldsVisited(r.log, l, fields) && ClosedFrom(c, r, |e.log|)
    decreases |fields|
  {
    if fields != [] {
      var f, rest := fields[0], fields[1..];
      assert Member(l, fields, 0) == Item(Shift(l, f.offset), f.ty);
      forall k: nat | k < |rest|
        ensures Walked(c, roots, Member(l, rest, k))
      {
        assert Member(l, rest, k) == Member(l, fields, k + 1);
      }
      var e1 := Visit(c, e, Shift(l, f.offset), f.ty, Shift(out, f.offset));
      VisitCloses(c, roots, typeAt, e, Shift(l, f.offset), f.ty, Shift(out, f.offset), e1);
      VisitFieldsCloses(c, roots, typeAt, e1, l, rest, out);
      var r := VisitFields(c, e1, l, rest, out);
      ClosedFromJoin(c, e1, r, |e.log|);
      FieldsJoin(e1.log, r.log, l, fields);
    }
  }

  lemma FieldsJoin(log: seq<Event>, log': seq<Event>, l: Loc, fields: seq<Field>)
    requires fields != [] && Visited(log, Member(l, fields, 0)) && log <= log'
    requires FieldsVisited(log', l, fields[1..])
    ensures FieldsVisited(log', l, fields)
  {
    forall k: nat | k < |fields|
      ensures Visited(log', Member(l, fields, k))
    {
      if k == 0 {
        VisitedGrows(log, log', Member(l, fields, 0));
      } else {
        assert Member(l, fields, k) == Member(l, fields[1..], k - 1);
      }
    }
  }

  /** Once the queued visit of a struct has run, the struct is closed without it. */
  lemma TaskCloses(c: Setup, e: Engine, r: Engine)
    requires e.queue != [] && ClosedFrom(c, e, 0)
    requires Grows(e.(queue := e.queue[1..]), r)
    requires FieldsVisited(r.log, e.queue[0].loc, e.queue[0].fields) && ClosedFrom(c, r, |e.log|)
    ensures ClosedFrom(c, r, 0)
  {
    var e' := e.(queue := e.queue[1..]);
    forall i | 0 <= i < |r.log|
      ensures Closed(c, r, Place(r.log[i]))
    {
      if i < |e.log| {
        var it := Place(e.log[i]);
        assert r.log[i] == e.log[i] && Closed(c, e, it);
        if it.ty.Struct? && !FieldsVisited(e.log, it.loc, it.ty.fields) {
          var q :| 0 <= q < |e.queue| && e.queue[q].loc == it.loc && e.queue[q].fields == it.ty.fields;
          if q > 0 {
            assert e'.queue[q - 1] == e.queue[q];
            assert Closed(c, e', it);
            ClosedGrows(c, e', r, it);
          }
        } else {
          assert Closed(c, e', it);
          ClosedGrows(c, e', r, it);
        }
      }
    }
  }

  lemma {:induction false} DrainCloses(c: Setup, roots: seq<Root>, typeAt: Addr -> Ty, e: Engine)
    requires Settled(c, roots, typeAt, e) && ClosedFrom(c, e, 0)
    ensures ClosedFrom(c, Drain(c, e), 0)
    decreases Unmapped(c, e), Weight(e.queue)
  {
    if e.queue != [] {
      var t := e.queue[0];
      assert TaskWalked(c, roots, t);
      VisitFieldsCloses(c, roots, typeAt, e.(queue := e.queue[1..]), t.loc, t.fields, t.out);
      TaskCloses(c, e, RunTask(c, e));
      RunTaskProgress(c, e);
      DrainCloses(c, roots, typeAt, RunTask(c, e));
    }
  }

  lemma {:induction false} VisitRootsCloses(c: Setup, all: seq<Root>, typeAt: Addr -> Ty, e: Engine, i: nat)
    requires Settled(c, all, typeAt, e) && ClosedFrom(c, e, 0) && i <= |all|
    ensures var r := VisitRoots(c, e, all[i..]);
            && Settled(c, all, typeAt, r) && ClosedFrom(c, r, 0)
            && (forall k :: i <= k < |all| ==> Visited(r.log, Item(all[k].loc, all[k].ty)))
    decreases |all| - i
  {
    if i < |all| {
      RootWalked(c, all, i);
      var e1 := Visit(c, e, all[i].loc, all[i].ty, all[i].out);
      VisitCloses(c, all, typeAt, e, all[i].loc, all[i].ty, all[i].out, e1);
      ClosedFromJoin(c, e, e1, 0);
      assert all[i..][1..] == all[i + 1..];
      VisitRootsCloses(c, all, typeAt, e1, i + 1);
      VisitedGrows(e1.log, VisitRoots(c, e1, all[i + 1..]).log, Item(all[i].loc, all[i].ty));
    }
  }

  /** In a finished traversal the visited places are closed under Onward. */
  lemma OnwardVisited(c: Setup, r: Engine, p: Item, q: Item)
    requires r.queue == [] && ClosedFrom(c, r, 0) && Visited(r.log, p) && Onward(c, p, q)
    ensures Visited(r.log, q)
  {
    var i :| 0 <= i < |r.log| && Place(r.log[i]) == p;
    assert Closed(c, r, p);
  }

  lemma {:induction false} PathVisited(c: Setup, roots: seq<Root>, r: Engine, path: seq<Item>, k: nat)
    requires r.queue == [] && ClosedFrom(c, r, 0) && Trail(c, roots, path) && k < |path|
    requires forall i :: 0 <= i < |roots| ==> Visited(r.log, Item(roots[i].loc, roots[i].ty))
    ensures Visited(r.log, path[k])
  {
    if k > 0 {
      PathVisited(c, roots, r, path, k - 1);
      assert Step(c, path, k);
      OnwardVisited(c, r, path[k - 1], path[k]);
    }
  }

  lemma WalkCloses(c: Setup, roots: seq<Root>)
    requires Proper(c) && AimedAlike(c, roots)
    ensures ClosedFrom(c, Traverse(c, roots), 0)
    ensures forall i :: 0 <= i < |roots| ==> Visited(Traverse(c, roots).log, Item(roots[i].loc, roots[i].ty))
  {
    var typeAt := (x: Addr) => TypeAt(c, roots, x);
    Representative(c, roots);
    assert roots[0..] == roots;
    VisitRootsCloses(c, roots, typeAt, Idle, 0);
    var e := VisitRoots(c, Idle, roots);
    DrainCloses(c, roots, typeAt, e);
    forall i | 0 <= i < |roots|
      ensures Visited(Traverse(c, roots).log, Item(roots[i].loc, roots[i].ty))
    {
      VisitedGrows(e.log, Drain(c, e).log, Item(roots[i].loc, roots[i].ty));
    }
  }

  lemma WalkedIsVisited(c: Setup, roots: seq<Root>, it: Item)
    requires Proper(c) && AimedAlike(c, roots) && Walked(c, roots, it)
    ensures Visited(Traverse(c, roots).log, it) && Closed(c, Traverse(c, roots), it)
  {
    var r := Traverse(c, roots);
    WalkCloses(c, roots);
    var path :| Trail(c, roots, path) && path[|path| - 1] == it;
    PathVisited(c, roots, r, path, |path| - 1);
    var i :| 0 <= i < |r.log| && Place(r.log[i]) == it;
    assert Closed(c, r, Place(r.log[i]));
  }

  lemma AimedIsMapped(c: Setup, roots: seq<Root>, x: Addr)
    requires Proper(c) && AimedAlike(c, roots) && Aimed(c, roots, x)
    ensures x in Traverse(c, roots).mapping
  {
    var it :| Aims(c, roots, it, x);
    WalkedIsVisited(c, roots, it);
  }

  /**
   * A traversal of any finite heap, cyclic or shared, visits exactly the places its walk leads to, maps
   * exactly the non-null values of the pointers there, each to its image, and makes the first-visit
   * callback exactly once on each of them, provided that all pointers to an address lead to the same place.
   */
  lemma VisitsExactlyTheWalked(c: Setup, roots: seq<Root>)
    requires Proper(c) && AimedAlike(c, roots)
    ensures forall it :: Visited(Traverse(c, roots).log, it) <==> Walked(c, roots, it)
    ensures forall x :: x in Traverse(c, roots).mapping <==> Aimed(c, roots, x)
    ensures forall x :: x in Traverse(c, roots).mapping ==> Traverse(c, roots).mapping[x] == c.image(x)
    ensures forall x :: x != 0 ==> FirstCalls(Traverse(c, roots).log, x) == if Aimed(c, roots, x) then 1 else 0
  {
    WalkSound(c, roots);
    forall it | Walked(c, roots, it)
      ensures Visited(Traverse(c, roots).log, it)
    {
      WalkedIsVisited(c, roots, it);
    }
    forall x | Aimed(c, roots, x)
      ensures x in Traverse(c, roots).mapping
    {
      AimedIsMapped(c, roots, x);
    }
  }
}
