/**
 * How the traversal gets to a place: it is a root, it lies in a place that is visited, or it is
 * behind a pointer that is followed when its address is first met. So of two places behind one
 * address it gets to one only, unless another way leads there.
 */
module Entries {
  import opened Traversal
  import opened Walk

  /** `q` is an element or a field of `p`. */
  ghost predicate Holds(p: Item, q: Item)
  {
    match p.ty
    case Array(n, b) => exists k: nat :: k < n && q == Element(p.loc, b, k)
    case Struct(_, fields) => exists k: nat :: k < |fields| && q == Member(p.loc, fields, k)
    case _ => false
  }

  /** A root, or a part of a place the walk leads to. */
  ghost predicate Held(c: Setup, roots: seq<Root>, it: Item)
  {
    IsRoot(roots, it) || exists p :: Walked(c, roots, p) && Holds(p, it)
  }

  ghost predicate Behind(c: Setup, log: seq<Event>, it: Item)
  {
    exists i :: 0 <= i < |log| && Enters(c, log[i], it)
  }

  ghost predicate Started(c: Setup, roots: seq<Root>, log: seq<Event>, it: Item)
  {
    Held(c, roots, it) || Behind(c, log, it)
  }

  ghost predicate FieldsHeld(c: Setup, roots: seq<Root>, l: Loc, fields: seq<Field>)
  {
    forall k: nat :: k < |fields| ==> Held(c, roots, Member(l, fields, k))
  }

  ghost predicate ElementsHeld(c: Setup, roots: seq<Root>, l: Loc, base: Ty, n: nat)
  {
    forall k: nat :: k < n ==> Held(c, roots, Element(l, base, k))
  }

  ghost predicate AllStarted(c: Setup, roots: seq<Root>, log: seq<Event>)
  {
    forall i {:trigger Place(log[i])} :: 0 <= i < |log| ==> Started(c, roots, log, Place(log[i]))
  }

  ghost predicate AllHeld(c: Setup, roots: seq<Root>, queue: seq<Task>)
  {
    forall i :: 0 <= i < |queue| ==> FieldsHeld(c, roots, queue[i].loc, queue[i].fields)
  }

  /** What holds at every point of a traversal. */
  ghost predicate Begun(c: Setup, roots: seq<Root>, e: Engine)
  {
    AllStarted(c, roots, e.log) && AllHeld(c, roots, e.queue)
  }

  lemma HeldIsWalked(c: Setup, roots: seq<Root>, it: Item)
    requires Held(c, roots, it)
    ensures Walked(c, roots, it)
  {
    if IsRoot(roots, it) {
      assert Trail(c, roots, [it]);
    } else {
      var p :| Walked(c, roots, p) && Holds(p, it);
      assert Onward(c, p, it);
      OnwardWalked(c, roots, p, it);
    }
  }

  lemma BehindGrows(c: Setup, log: seq<Event>, log': seq<Event>, it: Item)
    requires Behind(c, log, it) && log <= log'
    ensures Behind(c, log', it)
  {
    var i :| 0 <= i < |log| && Enters(c, log[i], it);
    assert Enters(c, log'[i], it);
  }

  lemma LogStarted(c: Setup, roots: seq<Root>, log: seq<Event>, ev: Event)
    requires AllStarted(c, roots, log) && Started(c, roots, log, Place(ev))
    ensures AllStarted(c, roots, log + [ev])
  {
    forall i | 0 <= i < |log + [ev]|
      ensures Started(c, roots, log + [ev], Place((log + [ev])[i]))
    {
      var it := Place((log + [ev])[i]);
      assert i < |log| ==> it == Place(log[i]);
      if Behind(c, log, it) {
        BehindGrows(c, log, log + [ev], it);
      }
    }
  }

  lemma QueueHeld(c: Setup, roots: seq<Root>, queue: seq<Task>, l: Loc, ty: Ty, out: Loc)
    requires AllHeld(c, roots, queue) && Walked(c, roots, Item(l, ty)) && ty.Struct?
    ensures AllHeld(c, roots, queue + [Task(l, ty.fields, out)])
  {
    forall k: nat | k < |ty.fields|
      ensures Held(c, roots, Member(l, ty.fields, k))
    {
      assert Holds(Item(l, ty), Member(l, ty.fields, k));
    }
  }

  lemma ArrayHeld(c: Setup, roots: seq<Root>, l: Loc, ty: Ty)
    requires Walked(c, roots, Item(l, ty)) && ty.Array?
    ensures ElementsHeld(c, roots, l, ty.base, ty.len)
  {
    forall k: nat | k < ty.len
      ensures Held(c, roots, Element(l, ty.base, k))
    {
      assert Holds(Item(l, ty), Element(l, ty.base, k));
    }
  }

  lemma {:induction false} VisitBegun(c: Setup, roots: seq<Root>, e: Engine, l: Loc, ty: Ty, out: Loc, r: Engine)
    requires Proper(c) && Sane(c, e) && Begun(c, roots, e) == true && Walked(c, roots, Item(l, ty)) == true
    requires Started(c, roots, e.log, Item(l, ty)) == true && r == Visit(c, e, l, ty, out)
    ensures Begun(c, roots, r) == true
    decreases Unmapped(c, e), ty, 1
  {
    match ty
    case Array(n, base) =>
      LoggedSane(c, e, l, ty, Elements);
      LogStarted(c, roots, e.log, Event(l, ty, Elements));
      ArrayHeld(c, roots, l, ty);
      assert Elementwise(c, Logged(e, l, ty, Elements), l, base, n, out, r);
      VisitArrayBegun(c, roots, Logged(e, l, ty, Elements), l, base, n, out, r);
    case Struct(_, fields) =>
      LogStarted(c, roots, e.log, Event(l, ty, Whole));
      QueueHeld(c, roots, e.queue, l, ty, out);
    case Pointer(_) => VisitPointerBegun(c, roots, e, l, ty, out, r);
    case FunPointer => VisitPointerBegun(c, roots, e, l, ty, out, r);
    case Unknown => LogStarted(c, roots, e.log, Event(l, ty, Skipped));
    case Prim(_) => LogStarted(c, roots, e.log, Event(l, ty, Scalar));
  }

  lemma {:induction false} VisitPointerBegun(c: Setup, roots: seq<Root>, e: Engine, l: Loc, ty: Ty, out: Loc, r: Engine)
    requires Proper(c) && Sane(c, e) && Begun(c, roots, e) == true && Walked(c, roots, Item(l, ty)) == true
    requires Started(c, roots, e.log, Item(l, ty)) == true && IsPtr(ty) && r == VisitPointer(c, e, l, ty, out)
    ensures Begun(c, roots, r) == true
    decreases Unmapped(c, e), ty, 0
  {
    var x := PtrAt(c.mem, l);
    if FindMapping(e.mapping, x) != 0 {
      LogStarted(c, roots, e.log, Event(l, ty, Again(x)));
    } else {
      var e1 := FirstVisit(c, e, l, ty, out, x);
      FirstVisitSane(c, e, l, ty, out, x);
      LogStarted(c, roots, e.log, Event(l, ty, First(x)));
      if Follows(c, ty, x) {
        var next := Item(Loc(x, 0), c.env(ty.target));
        assert x in Unmapped(c, e) && x !in Unmapped(c, e1);
        assert Onward(c, Item(l, ty), next);
        OnwardWalked(c, roots, Item(l, ty), next);
        assert Enters(c, e1.log[|e.log|], next);
        VisitBegun(c, roots, e1, Loc(x, 0), c.env(ty.target), Loc(c.image(x), 0), r);
      }
    }
  }

  lemma {:induction false} VisitArrayBegun(c: Setup, roots: seq<Root>, e: Engine, l: Loc, base: Ty, n: nat, out: Loc,
      r: Engine)
    requires Proper(c) && Sane(c, e) == true && Begun(c, roots, e) == true
        && ElementsHeld(c, roots, l, base, n) == true
    requires Elementwise(c, e, l, base, n, out, r) == true
    ensures Begun(c, roots, r) == true
    decreases Unmapped(c, e), base, n + 1
  {
    if n > 0 {
      var e1, l1, n1, out1 := Visit(c, e, l, base, out), Shift(l, Stride(base)), n - 1, Shift(out, Stride(base));
      HeldTail(c, roots, l, base, n, l1, n1);
      ElementwiseNext(c, e, l, base, n, out, e1, l1, n1, out1, r);
      VisitBegun(c, roots, e, l, base, out, e1);
      VisitArrayBegun(c, roots, e1, l1, base, n1, out1, r);
    } else {
      ElementwiseEnd(c, e, l, base, out, r);
    }
  }

  lemma HeldTail(c: Setup, roots: seq<Root>, l: Loc, base: Ty, n: nat, l1: Loc, n1: nat)
    requires ElementsHeld(c, roots, l, base, n) && n > 0 && l1 == Shift(l, Stride(base)) && n1 == n - 1
    ensures Held(c, roots, Item(l, base)) == true && Walked(c, roots, Item(l, base)) == true
        && ElementsHeld(c, roots, l1, base, n1) == true
  {
    assert Element(l, base, 0) == Item(l, base);
    HeldIsWalked(c, roots, Item(l, base));
    forall k: nat | k < n - 1
      ensures Held(c, roots, Element(l1, base, k))
    {
      assert Element(l1, base, k) == Element(l, base, k + 1);
    }
  }

  lemma {:induction false} VisitFieldsBegun(c: Setup, roots: seq<Root>, e: Engine, l: Loc, fields: seq<Field>,
      out: Loc, r: Engine)
    requires Proper(c) && Sane(c, e) && Begun(c, roots, e) == true && FieldsHeld(c, roots, l, fields)
    requires r == VisitFields(c, e, l, fields, out)
    ensures Begun(c, roots, r) == true
    decreases |fields|
  {
    if fields != [] {
      var f := fields[0];
      assert Member(l, fields, 0) == Item(Shift(l, f.offset), f.ty);
      HeldIsWalked(c, roots, Item(Shift(l, f.offset), f.ty));
      var e1 := Visit(c, e, Shift(l, f.offset), f.ty, Shift(out, f.offset));
      VisitBegun(c, roots, e, Shift(l, f.offset), f.ty, Shift(out, f.offset), e1);
      forall k: nat | k < |fields[1..]|
        ensures Held(c, roots, Member(l, fields[1..], k))
      {
        assert Member(l, fields[1..], k) == Member(l, fields, k + 1);
      }
      VisitFieldsBegun(c, roots, e1, l, fields[1..], out, r);
    }
  }

  lemma {:induction false} DrainBegun(c: Setup, roots: seq<Root>, e: Engine)
    requires Proper(c) && Sane(c, e) && Begun(c, roots, e)
    ensures Begun(c, roots, Drain(c, e))
    decreases Unmapped(c, e), Weight(e.queue)
  {
    if e.queue != [] {
      var t := e.queue[0];
      VisitFieldsBegun(c, roots, e.(queue := e.queue[1..]), t.loc, t.fields, t.out, RunTask(c, e));
      RunTaskProgress(c, e);
      DrainBegun(c, roots, RunTask(c, e));
    }
  }

  lemma {:induction false} VisitRootsBegun(c: Setup, all: seq<Root>, e: Engine, i: nat)
    requires Proper(c) && Sane(c, e) && Begun(c, all, e) && i <= |all|
    ensures Begun(c, all, VisitRoots(c, e, all[i..]))
    decreases |all| - i
  {
    if i < |all| {
      RootWalked(c, all, i);
      assert IsRoot(all, Item(all[i].loc, all[i].ty));
      var e1 := Visit(c, e, all[i].loc, all[i].ty, all[i].out);
      VisitBegun(c, all, e, all[i].loc, all[i].ty, all[i].out, e1);
      assert all[i..][1..] == all[i + 1..];
      VisitRootsBegun(c, all, e1, i + 1);
    }
  }

  /** Every visited place is a root, a part of one the walk leads to, or behind the first pointer met to its address. */
  lemma TraverseBegun(c: Setup, roots: seq<Root>)
    requires Proper(c)
    ensures Begun(c, roots, Traverse(c, roots))
  {
    assert roots[0..] == roots;
    VisitRootsBegun(c, roots, Idle, 0);
    DrainBegun(c, roots, VisitRoots(c, Idle, roots));
  }

  // ----- two places behind one address

  lemma {:induction false} OnlyFirst(log: seq<Event>, x: Addr, i: nat, j: nat)
    requires i < j < |log| && log[i].kind == First(x) && log[j].kind == First(x)
    ensures FirstCalls(log, x) >= 2
  {
    var init := log[..|log| - 1];
    if j < |log| - 1 {
      OnlyFirst(init, x, i, j);
    } else {
      CalledAt(init, x, i);
    }
  }

  /** At most one place behind an address is entered. */
  lemma OneEntry(c: Setup, e: Engine, p: Item, q: Item)
    requires Sane(c, e) && Behind(c, e.log, p) && Behind(c, e.log, q) && p.loc == q.loc
    ensures p == q
  {
    var i :| 0 <= i < |e.log| && Enters(c, e.log[i], p);
    var j :| 0 <= j < |e.log| && Enters(c, e.log[j], q);
    var x := p.loc.base;
    assert FirstCalls(e.log, x) <= 1;
    if i < j {
      OnlyFirst(e.log, x, i, j);
    } else if j < i {
      OnlyFirst(e.log, x, j, i);
    }
  }

  /** Of two different places behind an address, to which nothing else leads, one is not visited. */
  lemma OneIsMissed(c: Setup, roots: seq<Root>, p: Item, q: Item)
    requires Proper(c) && p != q && p.loc == q.loc && !Held(c, roots, p) && !Held(c, roots, q)
    ensures !Visited(Traverse(c, roots).log, p) || !Visited(Traverse(c, roots).log, q)
  {
    var r := Traverse(c, roots);
    TraverseBegun(c, roots);
    if Visited(r.log, p) && Visited(r.log, q) {
      var i :| 0 <= i < |r.log| && Place(r.log[i]) == p;
      var j :| 0 <= j < |r.log| && Place(r.log[j]) == q;
      assert Started(c, roots, r.log, Place(r.log[i])) && Started(c, roots, r.log, Place(r.log[j]));
      OneEntry(c, r, p, q);
    }
  }
}
