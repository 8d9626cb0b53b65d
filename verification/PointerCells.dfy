/**
 * The traversal visits every pointer cell at most once: objects are laid out without overlap, an
 * object is entered only when its address is first mapped, and a struct is queued exactly once.
 *
 * The argument counts, for one arbitrary cell `p`, how often it has been visited, how often it is
 * still owed by queued structs, and how often the objects entered so far contain it.
 */
module PointerCells {
  import opened Traversal
  import opened Walk
  import opened Layout

  // ----- layout

  /** The fields of every struct lie one after another, and every array that holds a pointer has a right stride. */
  ghost predicate Tidy(ty: Ty)
  {
    Straight(ty) && Apart(ty)
  }

  ghost predicate Apart(ty: Ty)
    decreases ty, 0
  {
    match ty
    case Array(_, base) => Apart(base)
    case Struct(size, fields) => FieldsApart(fields, 0, size)
    case _ => true
  }

  /** The fields lie one after another between `from` and `size`. */
  ghost predicate FieldsApart(fields: seq<Field>, from: nat, size: nat)
    decreases fields, 0
  {
    if fields == [] then from <= size
    else
      var f := fields[0];
      assert f.ty < f;
      from <= f.offset && Apart(f.ty) && FieldsApart(fields[1..], f.offset + Size(f.ty), size)
  }

  /** Besides, every array has a right stride. */
  ghost predicate ValidTy(ty: Ty)
    decreases ty, 0
  {
    match ty
    case Array(n, base) => RightStride(base, n) && ValidTy(base)
    case Struct(size, fields) => ValidFields(fields, 0, size)
    case _ => true
  }

  ghost predicate ValidFields(fields: seq<Field>, from: nat, size: nat)
    decreases fields, 0
  {
    if fields == [] then from <= size
    else
      var f := fields[0];
      assert f.ty < f;
      from <= f.offset && ValidTy(f.ty) && ValidFields(fields[1..], f.offset + Size(f.ty), size)
  }

  lemma {:induction false} ValidIsTidy(ty: Ty)
    requires ValidTy(ty)
    ensures Tidy(ty)
    decreases ty, 0
  {
    match ty
    case Array(_, base) => ValidIsTidy(base);
    case Struct(size, fields) => ValidFieldsTidy(fields, 0, size);
    case _ =>
  }

  lemma {:induction false} ValidFieldsTidy(fields: seq<Field>, from: nat, size: nat)
    requires ValidFields(fields, from, size)
    ensures FieldsStraight(fields) && FieldsApart(fields, from, size)
    decreases fields, 0
  {
    if fields != [] {
      var f := fields[0];
      assert f.ty < f;
      ValidIsTidy(f.ty);
      ValidFieldsTidy(fields[1..], f.offset + Size(f.ty), size);
    }
  }

  /** `p` lies in the `size` bytes at `l`. */
  predicate Within(p: Loc, l: Loc, size: nat)
  {
    p.base == l.base && l.off <= p.off < l.off + size
  }

  lemma {:induction false} CellsOnce(p: Loc, l: Loc, ty: Ty)
    requires Tidy(ty)
    ensures CellsAt(Strided, p, l, ty) <= if Within(p, l, Size(ty)) then 1 else 0
    decreases ty, 0
  {
    match ty
    case Array(n, base) =>
      if Cells(ty) == 0 {
        CellsBound(Strided, p, l, ty);
      } else {
        ArrayCellsOnce(p, l, base, n);
      }
    case Struct(size, fields) => FieldCellsOnce(p, l, fields, 0, size);
    case _ =>
  }

  lemma {:induction false} ArrayCellsOnce(p: Loc, l: Loc, base: Ty, n: nat)
    requires Tidy(base) && RightStride(base, n)
    ensures ArrayCellsAt(Strided, p, l, base, n) <= if Within(p, l, ArraySize(n, Size(base))) then 1 else 0
    decreases base, n + 1
  {
    if n > 0 {
      CellsOnce(p, l, base);
      ArrayCellsOnce(p, Shift(l, Stride(base)), base, n - 1);
    }
  }

  lemma {:induction false} FieldCellsOnce(p: Loc, l: Loc, fields: seq<Field>, from: nat, size: nat)
    requires FieldsStraight(fields) && FieldsApart(fields, from, size)
    ensures from <= size
    ensures FieldCellsAt(Strided, p, l, fields) <= if Within(p, Shift(l, from), size - from) then 1 else 0
    decreases fields, 0
  {
    if fields != [] {
      var f := fields[0];
      assert f.ty < f;
      CellsOnce(p, Shift(l, f.offset), f.ty);
      FieldCellsOnce(p, l, fields[1..], f.offset + Size(f.ty), size);
    }
  }

  // ----- counting over a traversal

  ghost function OwedAt(p: Loc, queue: seq<Task>): nat
  {
    if queue == [] then 0 else FieldCellsAt(Strided, p, queue[0].loc, queue[0].fields) + OwedAt(p, queue[1..])
  }

  /** How often the pointer cell `p` has been visited. */
  ghost function SeenAt(p: Loc, log: seq<Event>): nat
  {
    if log == [] then 0 else SeenAt(p, log[..|log| - 1]) + SeenBy(p, log[|log| - 1])
  }

  function SeenBy(p: Loc, ev: Event): nat
  {
    if IsPtr(ev.ty) && ev.loc == p then 1 else 0
  }

  /** How often `p` occurs in the objects entered. */
  ghost function OpenedAt(c: Setup, p: Loc, log: seq<Event>): nat
  {
    if log == [] then 0 else OpenedAt(c, p, log[..|log| - 1]) + OpenedBy(c, p, log[|log| - 1])
  }

  ghost function OpenedBy(c: Setup, p: Loc, ev: Event): nat
  {
    if ev.kind.First? && Follows(c, ev.ty,
        ev.kind.target) then CellsAt(Strided, p, Loc(ev.kind.target, 0), c.env(ev.ty.target)) else 0
  }

  lemma LogAppend(c: Setup, p: Loc, log: seq<Event>, ev: Event)
    ensures SeenAt(p, log + [ev]) == SeenAt(p, log) + SeenBy(p, ev)
    ensures OpenedAt(c, p, log + [ev]) == OpenedAt(c, p, log) + OpenedBy(c, p, ev)
  {
    assert (log + [ev])[..|log|] == log;
  }

  lemma {:induction false} OwedAppend(p: Loc, queue: seq<Task>, t: Task)
    ensures OwedAt(p, queue + [t]) == OwedAt(p, queue) + FieldCellsAt(Strided, p, t.loc, t.fields)
  {
    if queue == [] {
      assert (queue + [t])[1..] == [];
    } else {
      assert (queue + [t])[1..] == queue[1..] + [t];
      OwedAppend(p, queue[1..], t);
    }
  }

  /** Visited plus owed minus entered. */
  ghost function Balance(c: Setup, p: Loc, e: Engine): int
  {
    SeenAt(p, e.log) + OwedAt(p, e.queue) - OpenedAt(c, p, e.log)
  }

  /** A visit that is no pointer's leaves the balance. */
  lemma LoggedBalance(c: Setup, p: Loc, e: Engine, l: Loc, ty: Ty, k: Kind)
    requires !IsPtr(ty) && !k.First?
    ensures Balance(c, p, Logged(e, l, ty, k)) == Balance(c, p, e)
  {
    LogAppend(c, p, e.log, Event(l, ty, k));
  }

  lemma {:induction false} VisitBalance(c: Setup, p: Loc, e: Engine, l: Loc, ty: Ty, out: Loc, r: Engine)
    requires Proper(c) && Sane(c, e) && r == Visit(c, e, l, ty, out)
    ensures Balance(c, p, r) == Balance(c, p, e) + CellsAt(Strided, p, l, ty)
    decreases Unmapped(c, e), ty, 1
  {
    match ty
    case Array(n, base) =>
      LoggedSane(c, e, l, ty, Elements);
      LoggedBalance(c, p, e, l, ty, Elements);
      assert Elementwise(c, Logged(e, l, ty, Elements), l, base, n, out, r);
      VisitArrayBalance(c, p, Logged(e, l, ty, Elements), l, base, n, out, r);
    case Struct(_, fields) =>
      LoggedBalance(c, p, e, l, ty, Whole);
      OwedAppend(p, e.queue, Task(l, fields, out));
    case Pointer(_) => VisitPointerBalance(c, p, e, l, ty, out, r);
    case FunPointer => VisitPointerBalance(c, p, e, l, ty, out, r);
    case Unknown => LoggedBalance(c, p, e, l, ty, Skipped);
    case Prim(_) => LoggedBalance(c, p, e, l, ty, Scalar);
  }

  lemma {:induction false} VisitPointerBalance(c: Setup, p: Loc, e: Engine, l: Loc, ty: Ty, out: Loc, r: Engine)
    requires Proper(c) && Sane(c, e) && IsPtr(ty) && r == VisitPointer(c, e, l, ty, out)
    ensures Balance(c, p, r) == Balance(c, p, e) + CellsAt(Strided, p, l, ty)
    decreases Unmapped(c, e), ty, 0
  {
    var x := PtrAt(c.mem, l);
    if FindMapping(e.mapping, x) != 0 {
      LogAppend(c, p, e.log, Event(l, ty, Again(x)));
    } else {
      var e1 := FirstVisit(c, e, l, ty, out, x);
      FirstVisitSane(c, e, l, ty, out, x);
      LogAppend(c, p, e.log, Event(l, ty, First(x)));
      if Follows(c, ty, x) {
        assert x in Unmapped(c, e) && x !in Unmapped(c, e1);
        VisitBalance(c, p, e1, Loc(x, 0), c.env(ty.target), Loc(c.image(x), 0), r);
      }
    }
  }

  lemma {:induction false} VisitArrayBalance(c: Setup, p: Loc, e: Engine, l: Loc, base: Ty, n: nat, out: Loc, r: Engine)
    requires Proper(c) && Sane(c, e) == true && Elementwise(c, e, l, base, n, out, r) == true
    ensures Balance(c, p, r) == Balance(c, p, e) + ArrayCellsAt(Strided, p, l, base, n)
    decreases Unmapped(c, e), base, n + 1
  {
    if n > 0 {
      var e1, l1, n1, out1 := Visit(c, e, l, base, out), Shift(l, Stride(base)), n - 1, Shift(out, Stride(base));
      ElementwiseNext(c, e, l, base, n, out, e1, l1, n1, out1, r);
      VisitBalance(c, p, e, l, base, out, e1);
      VisitArrayBalance(c, p, e1, l1, base, n1, out1, r);
    } else {
      ElementwiseEnd(c, e, l, base, out, r);
    }
  }

  lemma {:induction false} VisitFieldsBalance(c: Setup, p: Loc, e: Engine, l: Loc, fields: seq<Field>, out: Loc,
      r: Engine)
    requires Proper(c) && Sane(c, e) && r == VisitFields(c, e, l, fields, out)
    ensures Balance(c, p, r) == Balance(c, p, e) + FieldCellsAt(Strided, p, l, fields)
    decreases |fields|
  {
    if fields != [] {
      var f := fields[0];
      var e1 := Visit(c, e, Shift(l, f.offset), f.ty, Shift(out, f.offset));
      VisitBalance(c, p, e, Shift(l, f.offset), f.ty, Shift(out, f.offset), e1);
      VisitFieldsBalance(c, p, e1, l, fields[1..], out, r);
    }
  }

  lemma {:induction false} DrainBalance(c: Setup, p: Loc, e: Engine, r: Engine)
    requires Proper(c) && Sane(c, e) && r == Drain(c, e)
    ensures Balance(c, p, r) == Balance(c, p, e)
    decreases Unmapped(c, e), Weight(e.queue)
  {
    if e.queue != [] {
      var t := e.queue[0];
      VisitFieldsBalance(c, p, e.(queue := e.queue[1..]), t.loc, t.fields, t.out, RunTask(c, e));
      RunTaskProgress(c, e);
      DrainBalance(c, p, RunTask(c, e), r);
    }
  }

  ghost function RootCellsAt(p: Loc, roots: seq<Root>): nat
  {
    if roots == [] then 0 else CellsAt(Strided, p, roots[0].loc, roots[0].ty) + RootCellsAt(p, roots[1..])
  }

  lemma {:induction false} VisitRootsBalance(c: Setup, p: Loc, e: Engine, roots: seq<Root>, r: Engine)
    requires Proper(c) && Sane(c, e) && r == VisitRoots(c, e, roots)
    ensures Balance(c, p, r) == Balance(c, p, e) + RootCellsAt(p, roots)
    decreases |roots|
  {
    if roots != [] {
      var e1 := Visit(c, e, roots[0].loc, roots[0].ty, roots[0].out);
      VisitBalance(c, p, e, roots[0].loc, roots[0].ty, roots[0].out, e1);
      VisitRootsBalance(c, p, e1, roots[1..], r);
    }
  }

  /** The visits of `p` are its occurrences in the roots and in the objects entered. */
  lemma SeenBalance(c: Setup, p: Loc, roots: seq<Root>)
    requires Proper(c)
    ensures SeenAt(p, Traverse(c, roots).log) == RootCellsAt(p, roots) + OpenedAt(c, p, Traverse(c, roots).log)
  {
    var e := VisitRoots(c, Idle, roots);
    VisitRootsBalance(c, p, Idle, roots, e);
    DrainBalance(c, p, e, Drain(c, e));
  }

  // ----- at most once

  /** Roots are separate variables, each laid out validly, and no followed pointer leads into one. */
  ghost predicate ValidRoots(c: Setup, roots: seq<Root>)
  {
    && (forall i :: 0 <= i < |roots| ==> Tidy(roots[i].ty))
    && (forall i, j :: 0 <= i < j < |roots| ==> roots[i].loc.base != roots[j].loc.base)
    && (forall i, it ::
          0 <= i < |roots| && Walked(c, roots, it) && it.ty.Pointer? && Follows(c, it.ty, PtrAt(c.mem, it.loc))
          ==> PtrAt(c.mem, it.loc) != roots[i].loc.base)
  }

  lemma {:induction false} OpenedOnce(c: Setup, p: Loc, log: seq<Event>)
    requires forall t :: Tidy(c.env(t))
    ensures OpenedAt(c, p, log) <= FirstCalls(log, p.base)
  {
    if log != [] {
      var ev := log[|log| - 1];
      OpenedOnce(c, p, log[..|log| - 1]);
      if ev.kind.First? && Follows(c, ev.ty, ev.kind.target) {
        CellsOnce(p, Loc(ev.kind.target, 0), c.env(ev.ty.target));
      }
    }
  }

  /** A cell of an object entered lies in the object of some followed pointer of the log. */
  lemma {:induction false} OpenedFrom(c: Setup, p: Loc, log: seq<Event>) returns (i: nat)
    requires (forall t :: Tidy(c.env(t))) && OpenedAt(c, p, log) > 0
    ensures i < |log| && log[i].kind == First(p.base) && Follows(c, log[i].ty, p.base)
  {
    var ev := log[|log| - 1];
    if OpenedBy(c, p, ev) > 0 {
      CellsOnce(p, Loc(ev.kind.target, 0), c.env(ev.ty.target));
      i := |log| - 1;
    } else {
      i := OpenedFrom(c, p, log[..|log| - 1]);
    }
  }

  lemma {:induction false} RootsOnce(p: Loc, roots: seq<Root>)
    requires forall i :: 0 <= i < |roots| ==> Tidy(roots[i].ty)
    requires forall i, j :: 0 <= i < j < |roots| ==> roots[i].loc.base != roots[j].loc.base
    ensures RootCellsAt(p, roots) <= 1
    ensures RootCellsAt(p, roots) > 0 ==> exists i :: 0 <= i < |roots| && roots[i].loc.base == p.base
  {
    if roots != [] {
      CellsOnce(p, roots[0].loc, roots[0].ty);
      RootsOnce(p, roots[1..]);
    }
  }

  /** Every pointer cell is visited at most once. */
  lemma PointerCellsOnce(c: Setup, roots: seq<Root>, p: Loc)
    requires Proper(c) && ValidRoots(c, roots) && forall t :: Tidy(c.env(t))
    ensures SeenAt(p, Traverse(c, roots).log) <= 1
  {
    var r := Traverse(c, roots);
    SeenBalance(c, p, roots);
    OpenedOnce(c, p, r.log);
    RootsOnce(p, roots);
    if OpenedAt(c, p, r.log) > 0 {
      var i := OpenedFrom(c, p, r.log);
      WalkSound(c, roots);
      var it := Place(r.log[i]);
      assert EventFits(c, r.log[i]) && Walked(c, roots, it);
      assert FirstCalls(r.log, p.base) <= 1;
    }
  }

  lemma {:induction false} SeenGrows(p: Loc, log: seq<Event>, log': seq<Event>)
    requires log <= log'
    ensures SeenAt(p, log) <= SeenAt(p, log')
    decreases |log'|
  {
    if log != log' {
      assert log <= log'[..|log'| - 1];
      SeenGrows(p, log, log'[..|log'| - 1]);
    }
  }
}
