/**
 * Where a traversal writes, and what: the image of every pointer it visits goes to the cell that lies
 * in the image of the object where the pointer lies in the object, or likewise in the place that a root
 * is written to.
 */
module OutPlaces {
  import opened Traversal
  import opened CellLayout

  /** The place of a root's image for a place in the root. */
  predicate InRoot(r: Root, l: Loc, o: Loc)
  {
    l.base == r.loc.base && l.off >= r.loc.off && o == Shift(r.out, l.off - r.loc.off)
  }

  /** The place in the image of a pointer's target. */
  predicate InImage(c: Setup, l: Loc, o: Loc)
  {
    l.base != 0 && l.base in c.mem.ptrs.Values && o == Loc(c.image(l.base), l.off)
  }

  ghost predicate Opened(i: int) { true }

  /** `o` is where `l` is written to; in view only where `Opened` is mentioned. */
  ghost predicate Goes(c: Setup, roots: seq<Root>, l: Loc, o: Loc)
  {
    (forall i {:trigger Opened(i)} :: Opened(i) ==>
       (exists k :: 0 <= k < |roots| && InRoot(roots[k], l, o)) || InImage(c, l, o)) == true
  }

  /** Different roots are different objects, and so are their images and those of different addresses. */
  ghost predicate OutsApart(c: Setup, roots: seq<Root>)
  {
    && (forall i, j :: 0 <= i < j < |roots| ==>
          roots[i].loc.base != roots[j].loc.base && roots[i].out.base != roots[j].out.base)
    && (forall x, y :: x in c.mem.ptrs.Values && y in c.mem.ptrs.Values && c.image(x) == c.image(y) ==> x == y)
    && (forall i, x :: 0 <= i < |roots| && x in c.mem.ptrs.Values && x != 0 ==> roots[i].out.base != c.image(x))
  }

  /** A traversal that writes every pointer back where it is, as the serializer's does. */
  lemma InPlaceApart(c: Setup, roots: seq<Root>)
    requires SeparateRoots(c, roots) && (forall x :: c.image(x) == x)
    requires forall i :: 0 <= i < |roots| ==> roots[i].out == roots[i].loc
    ensures OutsApart(c, roots)
  {
  }

  lemma GoesRoot(c: Setup, roots: seq<Root>, k: nat)
    requires k < |roots|
    ensures Goes(c, roots, roots[k].loc, roots[k].out)
  {
    assert InRoot(roots[k], roots[k].loc, roots[k].out);
  }

  lemma GoesTarget(c: Setup, roots: seq<Root>, x: Addr)
    requires x != 0 && x in c.mem.ptrs.Values
    ensures Goes(c, roots, Loc(x, 0), Loc(c.image(x), 0))
  {
  }

  /** A part of a place goes to the same part of where the place goes. */
  lemma GoesShift(c: Setup, roots: seq<Root>, l: Loc, o: Loc, n: nat)
    requires Goes(c, roots, l, o)
    ensures Goes(c, roots, Shift(l, n), Shift(o, n))
  {
    assert Opened(0);
    if k :| 0 <= k < |roots| && InRoot(roots[k], l, o) {
      assert InRoot(roots[k], Shift(l, n), Shift(o, n));
    }
  }

  /** Two places do not go to the same place. */
  lemma GoesApart(c: Setup, roots: seq<Root>, l: Loc, l': Loc, o: Loc)
    requires OutsApart(c, roots) && Goes(c, roots, l, o) && Goes(c, roots, l', o)
    ensures l == l'
  {
    assert Opened(0);
  }

  /** What is written for a pointer at `l`. */
  function ImageAt(c: Setup, l: Loc): Addr { c.image(PtrAt(c.mem, l)) }

  /** Every visit has a place to write to, every pointer visited is written there, and nothing else is. */
  ghost predicate Written(c: Setup, roots: seq<Root>, log: seq<Event>, written: map<Loc, Addr>, outs: seq<Loc>)
  {
    && |outs| == |log|
    && (forall i {:trigger outs[i]} :: 0 <= i < |log| ==> Goes(c, roots, log[i].loc, outs[i]))
    && (forall i {:trigger outs[i]} :: 0 <= i < |log| && IsPtr(log[i].ty) ==>
          outs[i] in written && written[outs[i]] == ImageAt(c, log[i].loc))
    && (forall o :: o in written ==> exists i :: 0 <= i < |log| && IsPtr(log[i].ty) && outs[i] == o)
  }

  lemma WriteNothing(c: Setup, roots: seq<Root>, log: seq<Event>, written: map<Loc, Addr>, outs: seq<Loc>,
      ev: Event, out: Loc)
    requires Written(c, roots, log, written, outs) && Goes(c, roots, ev.loc, out) && !IsPtr(ev.ty)
    ensures Written(c, roots, log + [ev], written, outs + [out])
  {
    forall o | o in written
      ensures exists i :: 0 <= i < |log + [ev]| && IsPtr((log + [ev])[i].ty) && (outs + [out])[i] == o
    {
      var i :| 0 <= i < |log| && IsPtr(log[i].ty) && outs[i] == o;
      assert (outs + [out])[i] == o;
    }
  }

  lemma WriteOne(c: Setup, roots: seq<Root>, log: seq<Event>, written: map<Loc, Addr>, outs: seq<Loc>,
      ev: Event, out: Loc)
    requires OutsApart(c, roots)
    requires Written(c, roots, log, written, outs) && Goes(c, roots, ev.loc, out) && IsPtr(ev.ty)
    ensures Written(c, roots, log + [ev], written[out := ImageAt(c, ev.loc)], outs + [out])
  {
    var log', outs', written' := log + [ev], outs + [out], written[out := ImageAt(c, ev.loc)];
    forall i | 0 <= i < |log'| && IsPtr(log'[i].ty)
      ensures outs'[i] in written' && written'[outs'[i]] == ImageAt(c, log'[i].loc)
    {
      if i < |log| && outs[i] == out {
        GoesApart(c, roots, log[i].loc, ev.loc, out);
      }
    }
    forall o | o in written'
      ensures exists i :: 0 <= i < |log'| && IsPtr(log'[i].ty) && outs'[i] == o
    {
      if o == out {
        assert outs'[|log|] == o;
      } else {
        var i :| 0 <= i < |log| && IsPtr(log[i].ty) && outs[i] == o;
        assert outs'[i] == o;
      }
    }
  }

  /** Queued structs go to their places too. */
  ghost predicate QueueGoes(c: Setup, roots: seq<Root>, queue: seq<Task>)
  {
    forall i {:trigger queue[i]} :: 0 <= i < |queue| ==> Goes(c, roots, queue[i].loc, queue[i].out)
  }

  ghost predicate Looked(i: int) { true }

  /** What holds at every point of a traversal; in view only where `Looked` is mentioned. */
  ghost predicate Kept(c: Setup, roots: seq<Root>, e: Engine, outs: seq<Loc>)
  {
    (forall i {:trigger Looked(i)} :: Looked(i) ==>
       Written(c, roots, e.log, e.written, outs) && QueueGoes(c, roots, e.queue)) == true
  }

  /** A visit that writes no pointer. */
  lemma KeptLogged(c: Setup, roots: seq<Root>, e: Engine, outs: seq<Loc>, l: Loc, ty: Ty, k: Kind, out: Loc)
    requires Kept(c, roots, e, outs) && Goes(c, roots, l, out) && !IsPtr(ty)
    ensures Kept(c, roots, Logged(e, l, ty, k), outs + [out])
  {
    assert Looked(0);
    WriteNothing(c, roots, e.log, e.written, outs, Event(l, ty, k), out);
  }

  lemma KeptQueued(c: Setup, roots: seq<Root>, e: Engine, outs: seq<Loc>, l: Loc, fields: seq<Field>, out: Loc)
    requires Kept(c, roots, e, outs) && Goes(c, roots, l, out)
    ensures Kept(c, roots, e.(queue := e.queue + [Task(l, fields, out)]), outs)
  {
    assert Looked(0);
  }

  /** A visit that writes the image of a pointer. */
  lemma KeptWritten(c: Setup, roots: seq<Root>, e: Engine, outs: seq<Loc>, l: Loc, ty: Ty, k: Kind, out: Loc,
      m: map<Addr, Addr>)
    requires OutsApart(c, roots) && Kept(c, roots, e, outs) && Goes(c, roots, l, out) && IsPtr(ty)
    ensures Kept(c, roots, Logged(e, l, ty, k).(written := e.written[out := ImageAt(c, l)], mapping := m), outs + [out])
  {
    assert Looked(0);
    WriteOne(c, roots, e.log, e.written, outs, Event(l, ty, k), out);
  }

  lemma {:induction false} VisitKept(c: Setup, roots: seq<Root>, e: Engine, outs: seq<Loc>, l: Loc, ty: Ty, out: Loc)
      returns (outs': seq<Loc>)
    requires Proper(c) && Sane(c, e) && OutsApart(c, roots) && Kept(c, roots, e, outs) && Goes(c, roots, l, out)
    ensures Kept(c, roots, Visit(c, e, l, ty, out), outs')
    decreases Unmapped(c, e), ty, 1
  {
    match ty
    case Unknown => KeptLogged(c, roots, e, outs, l, ty, Skipped, out); outs' := outs + [out];
    case Prim(_) => KeptLogged(c, roots, e, outs, l, ty, Scalar, out); outs' := outs + [out];
    case Array(len, base) =>
      LoggedSane(c, e, l, ty, Elements);
      KeptLogged(c, roots, e, outs, l, ty, Elements, out);
      outs' := VisitArrayKept(c, roots, Logged(e, l, ty, Elements), outs + [out], l, base, len, out);
    case Struct(_, fields) =>
      LoggedSane(c, e, l, ty, Whole);
      KeptLogged(c, roots, e, outs, l, ty, Whole, out);
      KeptQueued(c, roots, Logged(e, l, ty, Whole), outs + [out], l, fields, out);
      outs' := outs + [out];
    case Pointer(_) => outs' := VisitPointerKept(c, roots, e, outs, l, ty, out);
    case FunPointer => outs' := VisitPointerKept(c, roots, e, outs, l, ty, out);
  }

  lemma {:induction false} VisitPointerKept(c: Setup, roots: seq<Root>, e: Engine, outs: seq<Loc>, l: Loc, ty: Ty,
      out: Loc) returns (outs': seq<Loc>)
    requires Proper(c) && Sane(c, e) && OutsApart(c, roots) && Kept(c, roots, e, outs) && Goes(c, roots, l, out)
    requires IsPtr(ty)
    ensures Kept(c, roots, VisitPointer(c, e, l, ty, out), outs')
    decreases Unmapped(c, e), ty, 0
  {
    var x := PtrAt(c.mem, l);
    outs' := outs + [out];
    if FindMapping(e.mapping, x) != 0 {
      KeptWritten(c, roots, e, outs, l, ty, Again(x), out, e.mapping);
    } else {
      var e1 := FirstVisit(c, e, l, ty, out, x);
      FirstVisitSane(c, e, l, ty, out, x);
      KeptWritten(c, roots, e, outs, l, ty, First(x), out, e1.mapping);
      if Follows(c, ty, x) {
        GoesTarget(c, roots, x);
        outs' := VisitKept(c, roots, e1, outs', Loc(x, 0), c.env(ty.target), Loc(c.image(x), 0));
      }
    }
  }

  lemma {:induction false} VisitArrayKept(c: Setup, roots: seq<Root>, e: Engine, outs: seq<Loc>, l: Loc, base: Ty,
      n: nat, out: Loc) returns (outs': seq<Loc>)
    requires Proper(c) && Sane(c, e) && OutsApart(c, roots) && Kept(c, roots, e, outs) && Goes(c, roots, l, out)
    ensures Kept(c, roots, VisitArray(c, e, l, base, n, out), outs')
    decreases Unmapped(c, e), base, n + 1
  {
    outs' := outs;
    if n > 0 {
      var e1 := Visit(c, e, l, base, out);
      outs' := VisitKept(c, roots, e, outs, l, base, out);
      GoesShift(c, roots, l, out, Stride(base));
      outs' := VisitArrayKept(c, roots, e1, outs', Shift(l, Stride(base)), base, n - 1, Shift(out, Stride(base)));
    }
  }

  lemma {:induction false} VisitFieldsKept(c: Setup, roots: seq<Root>, e: Engine, outs: seq<Loc>, l: Loc,
      fields: seq<Field>, out: Loc) returns (outs': seq<Loc>)
    requires Proper(c) && Sane(c, e) && OutsApart(c, roots) && Kept(c, roots, e, outs) && Goes(c, roots, l, out)
    ensures Kept(c, roots, VisitFields(c, e, l, fields, out), outs')
    decreases |fields|
  {
    outs' := outs;
    if fields != [] {
      var f := fields[0];
      GoesShift(c, roots, l, out, f.offset);
      outs' := VisitKept(c, roots, e, outs, Shift(l, f.offset), f.ty, Shift(out, f.offset));
      var e1 := Visit(c, e, Shift(l, f.offset), f.ty, Shift(out, f.offset));
      outs' := VisitFieldsKept(c, roots, e1, outs', l, fields[1..], out);
    }
  }

  lemma KeptTaken(c: Setup, roots: seq<Root>, e: Engine, outs: seq<Loc>)
    requires Kept(c, roots, e, outs) && e.queue != []
    ensures Kept(c, roots, e.(queue := e.queue[1..]), outs) && Goes(c, roots, e.queue[0].loc, e.queue[0].out)
  {
    assert Looked(0);
  }

  lemma {:induction false} DrainKept(c: Setup, roots: seq<Root>, e: Engine, outs: seq<Loc>) returns (outs': seq<Loc>)
    requires Proper(c) && Sane(c, e) && OutsApart(c, roots) && Kept(c, roots, e, outs)
    ensures Kept(c, roots, Drain(c, e), outs')
    decreases Unmapped(c, e), Weight(e.queue)
  {
    outs' := outs;
    if e.queue != [] {
      var t := e.queue[0];
      KeptTaken(c, roots, e, outs);
      outs' := VisitFieldsKept(c, roots, e.(queue := e.queue[1..]), outs, t.loc, t.fields, t.out);
      RunTaskProgress(c, e);
      outs' := DrainKept(c, roots, RunTask(c, e), outs');
    }
  }

  lemma {:induction false} RootsKept(c: Setup, roots: seq<Root>, e: Engine, outs: seq<Loc>, k: nat)
      returns (outs': seq<Loc>)
    requires Proper(c) && Sane(c, e) && OutsApart(c, roots) && Kept(c, roots, e, outs) && k <= |roots|
    ensures Kept(c, roots, VisitRoots(c, e, roots[k..]), outs')
    decreases |roots| - k
  {
    outs' := outs;
    if k < |roots| {
      var r := roots[k];
      assert roots[k..][1..] == roots[k + 1..];
      GoesRoot(c, roots, k);
      outs' := VisitKept(c, roots, e, outs, r.loc, r.ty, r.out);
      outs' := RootsKept(c, roots, Visit(c, e, r.loc, r.ty, r.out), outs', k + 1);
    }
  }

  /**
   * After a traversal the cells written are those that the visited pointer cells go to, and each holds the image
   * of the pointer.
   */
  lemma WritesExact(c: Setup, roots: seq<Root>) returns (outs: seq<Loc>)
    requires Proper(c) && OutsApart(c, roots)
    ensures var r := Traverse(c, roots); Written(c, roots, r.log, r.written, outs)
  {
    assert roots[0..] == roots;
    outs := RootsKept(c, roots, Idle, [], 0);
    outs := DrainKept(c, roots, VisitRoots(c, Idle, roots), outs);
    assert Looked(0);
  }

  // ----- the one place of a pointer, when no pointer leads into a root

  /** Where a place is written to: in the place of its root's image, or in the image of its object. */
  function OutOf(c: Setup, roots: seq<Root>, l: Loc): Loc
  {
    if roots == [] then Loc(c.image(l.base), l.off)
    else if l.base == roots[0].loc.base && l.off >= roots[0].loc.off then Shift(roots[0].out, l.off - roots[0].loc.off)
    else OutOf(c, roots[1..], l)
  }

  lemma {:induction false} OutInRoot(c: Setup, roots: seq<Root>, l: Loc, o: Loc, k: nat)
    requires forall i, j :: 0 <= i < j < |roots| ==> roots[i].loc.base != roots[j].loc.base
    requires k < |roots| && InRoot(roots[k], l, o)
    ensures OutOf(c, roots, l) == o
    decreases |roots|
  {
    if k > 0 {
      assert roots[0].loc.base != roots[k].loc.base;
      OutInRoot(c, roots[1..], l, o, k - 1);
    }
  }

  lemma {:induction false} OutInImage(c: Setup, roots: seq<Root>, l: Loc)
    requires forall i :: 0 <= i < |roots| ==> roots[i].loc.base != l.base
    ensures OutOf(c, roots, l) == Loc(c.image(l.base), l.off)
    decreases |roots|
  {
    if roots != [] {
      OutInImage(c, roots[1..], l);
    }
  }

  lemma GoesToOut(c: Setup, roots: seq<Root>, l: Loc, o: Loc)
    requires SeparateRoots(c, roots) && Goes(c, roots, l, o)
    ensures o == OutOf(c, roots, l)
  {
    assert Opened(0);
    if k :| 0 <= k < |roots| && InRoot(roots[k], l, o) {
      OutInRoot(c, roots, l, o, k);
    } else {
      OutInImage(c, roots, l);
    }
  }

  /** A pointer cell was visited at `l`. */
  ghost predicate PointerVisited(log: seq<Event>, l: Loc)
  {
    exists i :: 0 <= i < |log| && IsPtr(log[i].ty) && log[i].loc == l
  }

  ghost predicate PlacesHold(c: Setup, roots: seq<Root>, log: seq<Event>, written: map<Loc, Addr>)
  {
    && (forall l :: PointerVisited(log, l) ==>
          OutOf(c, roots, l) in written && written[OutOf(c, roots, l)] == ImageAt(c, l))
    && (forall o :: o in written ==> exists l :: PointerVisited(log, l) && o == OutOf(c, roots, l))
  }

  lemma WrittenPlaces(c: Setup, roots: seq<Root>, log: seq<Event>, written: map<Loc, Addr>, outs: seq<Loc>)
    requires SeparateRoots(c, roots) && Written(c, roots, log, written, outs)
    ensures PlacesHold(c, roots, log, written)
  {
    forall i | 0 <= i < |log|
      ensures outs[i] == OutOf(c, roots, log[i].loc)
    {
      GoesToOut(c, roots, log[i].loc, outs[i]);
    }
    forall o | o in written
      ensures exists l :: PointerVisited(log, l) && o == OutOf(c, roots, l)
    {
      var i :| 0 <= i < |log| && IsPtr(log[i].ty) && outs[i] == o;
      assert PointerVisited(log, log[i].loc);
    }
  }

  /** The one place of every visited pointer cell holds the pointer's image, and no other cell is written. */
  lemma WrittenOnly(c: Setup, roots: seq<Root>)
    requires Proper(c) && OutsApart(c, roots) && SeparateRoots(c, roots)
    ensures PlacesHold(c, roots, Traverse(c, roots).log, Traverse(c, roots).written)
  {
    var outs := WritesExact(c, roots);
    WrittenPlaces(c, roots, Traverse(c, roots).log, Traverse(c, roots).written, outs);
  }
}
