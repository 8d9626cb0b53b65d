/**
 * Where the traversal finds the pointer cells of a value, of any type: at their places exactly when
 * every array that holds a pointer has a right stride.
 *
 * A stride that is not right is too short, so the sum of the offsets of all cells is then smaller
 * than it should be.
 */
module CellLayout {
  import opened Traversal
  import opened Walk
  import opened Layout
  import opened PointerCells

  // ----- right strides find the cells

  lemma {:induction false} SameSpots(p: Loc, l: Loc, ty: Ty)
    requires Straight(ty)
    ensures CellsAt(Sized, p, l, ty) == CellsAt(Strided, p, l, ty)
    decreases ty, 0
  {
    match ty
    case Array(n, base) =>
      if Cells(ty) == 0 {
        CellsBound(Sized, p, l, ty);
        CellsBound(Strided, p, l, ty);
      } else {
        SameArraySpots(p, l, base, n);
      }
    case Struct(_, fields) => SameFieldSpots(p, l, fields);
    case _ =>
  }

  lemma {:induction false} SameArraySpots(p: Loc, l: Loc, base: Ty, n: nat)
    requires Straight(base) && RightStride(base, n)
    ensures ArrayCellsAt(Sized, p, l, base, n) == ArrayCellsAt(Strided, p, l, base, n)
    decreases base, n + 1
  {
    if n > 0 {
      SameSpots(p, l, base);
      if n == 1 {
        assert ArrayCellsAt(Sized, p, Shift(l, Size(base)), base, 0) == 0;
        assert ArrayCellsAt(Strided, p, Shift(l, Stride(base)), base, 0) == 0;
      } else {
        SameArraySpots(p, Shift(l, Stride(base)), base, n - 1);
      }
    }
  }

  lemma {:induction false} SameFieldSpots(p: Loc, l: Loc, fields: seq<Field>)
    requires FieldsStraight(fields)
    ensures FieldCellsAt(Sized, p, l, fields) == FieldCellsAt(Strided, p, l, fields)
    decreases fields, 0
  {
    if fields != [] {
      var f := fields[0];
      assert f.ty < f;
      SameSpots(p, Shift(l, f.offset), f.ty);
      SameFieldSpots(p, l, fields[1..]);
    }
  }

  // ----- the sum of the offsets

  /** The sum of the offsets of all pointer cells of a `ty` at offset `o`. */
  function Sum(pace: Pace, o: nat, ty: Ty): nat
    decreases ty, 0
  {
    match ty
    case Pointer(_) => o
    case FunPointer => o
    case Array(n, base) => ArraySum(pace, o, base, n)
    case Struct(_, fields) => FieldSum(pace, o, fields)
    case _ => 0
  }

  function ArraySum(pace: Pace, o: nat, base: Ty, n: nat): nat
    decreases base, n + 1
  {
    if n == 0 then 0 else Sum(pace, o, base) + ArraySum(pace, o + Pitch(pace, base), base, n - 1)
  }

  function FieldSum(pace: Pace, o: nat, fields: seq<Field>): nat
    decreases fields, 0
  {
    if fields == [] then 0
    else
      var f := fields[0];
      assert f.ty < f;
      Sum(pace, o + f.offset, f.ty) + FieldSum(pace, o, fields[1..])
  }

  /** Farther on, the offsets add up to more. */
  lemma {:induction false} SumGrows(pace: Pace, o: nat, o': nat, ty: Ty)
    requires o <= o'
    ensures Sum(pace, o, ty) <= Sum(pace, o', ty) && (o < o' && Cells(ty) > 0 ==> Sum(pace, o, ty) < Sum(pace, o', ty))
    decreases ty, 0
  {
    match ty
    case Array(n, base) =>
      ArraySumGrows(pace, o, o', base, n);
      if Cells(base) == 0 {
        SizeIsProduct(n, 0);
      }
    case Struct(_, fields) => FieldSumGrows(pace, o, o', fields);
    case _ =>
  }

  lemma {:induction false} ArraySumGrows(pace: Pace, o: nat, o': nat, base: Ty, n: nat)
    requires o <= o'
    ensures ArraySum(pace, o, base, n) <= ArraySum(pace, o', base, n)
    ensures o < o' && n > 0 && Cells(base) > 0 ==> ArraySum(pace, o, base, n) < ArraySum(pace, o', base, n)
    decreases base, n + 1
  {
    if n > 0 {
      var p := Pitch(pace, base);
      SumGrows(pace, o, o', base);
      ArraySumGrows(pace, o + p, o' + p, base, n - 1);
    }
  }

  lemma {:induction false} FieldSumGrows(pace: Pace, o: nat, o': nat, fields: seq<Field>)
    requires o <= o'
    ensures FieldSum(pace, o, fields) <= FieldSum(pace, o', fields)
    ensures o < o' && FieldCells(fields) > 0 ==> FieldSum(pace, o, fields) < FieldSum(pace, o', fields)
    decreases fields, 0
  {
    if fields != [] {
      var f := fields[0];
      assert f.ty < f;
      SumGrows(pace, o + f.offset, o' + f.offset, f.ty);
      FieldSumGrows(pace, o, o', fields[1..]);
    }
  }

  lemma Distribute(d: nat, a: nat, b: nat)
    ensures d * (a + b) == d * a + d * b
  {
  }

  /** A value that holds a pointer has no stride longer than its size. */
  lemma {:induction false} StrideFits(base: Ty)
    requires Cells(base) > 0
    ensures Stride(base) <= Size(base)
  {
    if base.Array? {
      assert base.len > 0;
      SizeIsProduct(base.len, Cells(base.base));
      StrideFits(base.base);
      SizeIsProduct(base.len, Size(base.base));
      assert base.len * Size(base.base) >= Size(base.base);
    }
  }

  /** The walk never adds up to more, and to as much only when every array with a pointer has a right stride. */
  lemma {:induction false} SumsDiffer(o: nat, ty: Ty)
    ensures Sum(Strided, o, ty) <= Sum(Sized, o, ty)
    ensures Sum(Strided, o, ty) == Sum(Sized, o, ty) ==> Straight(ty)
    decreases ty, 0
  {
    match ty
    case Array(n, base) =>
      ArraySumsDiffer(o, base, n);
      if n > 0 {
        SizeIsProduct(n, Cells(base));
      }
    case Struct(_, fields) => FieldSumsDiffer(o, fields);
    case _ =>
  }

  lemma {:induction false} ArraySumsDiffer(o: nat, base: Ty, n: nat)
    ensures ArraySum(Strided, o, base, n) <= ArraySum(Sized, o, base, n)
    ensures ArraySum(Strided, o, base, n) == ArraySum(Sized, o, base, n) && Cells(base) > 0 && n > 0 ==>
              RightStride(base, n) && Straight(base)
    decreases base, n + 1
  {
    if n > 0 {
      var s, z := Stride(base), Size(base);
      SumsDiffer(o, base);
      ArraySumsDiffer(o + s, base, n - 1);
      if Cells(base) > 0 {
        StrideFits(base);
        ArraySumGrows(Sized, o + s, o + z, base, n - 1);
      } else {
        ArraySumEmpty(Sized, o + z, base, n - 1);
        ArraySumEmpty(Strided, o + s, base, n - 1);
      }
    }
  }

  lemma {:induction false} ArraySumEmpty(pace: Pace, o: nat, base: Ty, n: nat)
    requires Cells(base) == 0
    ensures ArraySum(pace, o, base, n) == 0
    decreases base, n + 1
  {
    if n > 0 {
      SumEmpty(pace, o, base);
      ArraySumEmpty(pace, o + Pitch(pace, base), base, n - 1);
    }
  }

  lemma {:induction false} SumEmpty(pace: Pace, o: nat, ty: Ty)
    requires Cells(ty) == 0
    ensures Sum(pace, o, ty) == 0
    decreases ty, 0
  {
    match ty
    case Array(n, base) =>
      SizeIsProduct(n, Cells(base));
      if n > 0 {
        ArraySumEmpty(pace, o, base, n);
      }
    case Struct(_, fields) => FieldSumEmpty(pace, o, fields);
    case _ =>
  }

  lemma {:induction false} FieldSumEmpty(pace: Pace, o: nat, fields: seq<Field>)
    requires FieldCells(fields) == 0
    ensures FieldSum(pace, o, fields) == 0
    decreases fields, 0
  {
    if fields != [] {
      var f := fields[0];
      assert f.ty < f;
      SumEmpty(pace, o + f.offset, f.ty);
      FieldSumEmpty(pace, o, fields[1..]);
    }
  }

  lemma {:induction false} FieldSumsDiffer(o: nat, fields: seq<Field>)
    ensures FieldSum(Strided, o, fields) <= FieldSum(Sized, o, fields)
    ensures FieldSum(Strided, o, fields) == FieldSum(Sized, o, fields) ==> FieldsStraight(fields)
    decreases fields, 0
  {
    if fields != [] {
      var f := fields[0];
      assert f.ty < f;
      SumsDiffer(o + f.offset, f.ty);
      FieldSumsDiffer(o, fields[1..]);
    }
  }

  // ----- the sum, counted place by place

  /** The sum of o * f(o) for o below `bound`. */
  ghost function Moment(f: nat -> nat, bound: nat): nat
  {
    if bound == 0 then 0 else Moment(f, bound - 1) + (bound - 1) * f(bound - 1)
  }

  lemma {:induction false} MomentAdds(f: nat -> nat, g: nat -> nat, h: nat -> nat, bound: nat)
    requires forall o :: h(o) == f(o) + g(o)
    ensures Moment(h, bound) == Moment(f, bound) + Moment(g, bound)
  {
    if bound > 0 {
      MomentAdds(f, g, h, bound - 1);
      Distribute(bound - 1, f(bound - 1), g(bound - 1));
    }
  }

  lemma {:induction false} MomentSame(f: nat -> nat, g: nat -> nat, bound: nat)
    requires forall o :: f(o) == g(o)
    ensures Moment(f, bound) == Moment(g, bound)
  {
    if bound > 0 {
      MomentSame(f, g, bound - 1);
    }
  }

  lemma {:induction false} MomentOfOne(f: nat -> nat, at: nat, bound: nat)
    requires forall o :: f(o) == if o == at then 1 else 0
    ensures Moment(f, bound) == if at < bound then at else 0
  {
    if bound > 0 {
      MomentOfOne(f, at, bound - 1);
    }
  }

  lemma {:induction false} MomentOfNone(f: nat -> nat, bound: nat)
    requires forall o :: f(o) == 0
    ensures Moment(f, bound) == 0
  {
    if bound > 0 {
      MomentOfNone(f, bound - 1);
    }
  }

  ghost function Spots(pace: Pace, l: Loc, ty: Ty): nat -> nat
  {
    (o: nat) => CellsAt(pace, Loc(l.base, o), l, ty)
  }

  ghost function ArraySpots(pace: Pace, l: Loc, base: Ty, n: nat): nat -> nat
  {
    (o: nat) => ArrayCellsAt(pace, Loc(l.base, o), l, base, n)
  }

  ghost function FieldSpots(pace: Pace, l: Loc, fields: seq<Field>): nat -> nat
  {
    (o: nat) => FieldCellsAt(pace, Loc(l.base, o), l, fields)
  }

  /** No cell at `bound` or after it. */
  ghost predicate Below(f: nat -> nat, bound: nat)
  {
    forall o :: o >= bound ==> f(o) == 0
  }

  lemma {:induction false} MomentIsSum(pace: Pace, l: Loc, ty: Ty, bound: nat)
    requires Below(Spots(pace, l, ty), bound)
    ensures Moment(Spots(pace, l, ty), bound) == Sum(pace, l.off, ty)
    decreases ty, 0
  {
    var f := Spots(pace, l, ty);
    match ty
    case Array(n, base) =>
      MomentSame(f, ArraySpots(pace, l, base, n), bound);
      assert forall o :: ArraySpots(pace, l, base, n)(o) == f(o);
      ArrayMomentIsSum(pace, l, base, n, bound);
    case Struct(_, fields) =>
      MomentSame(f, FieldSpots(pace, l, fields), bound);
      assert forall o :: FieldSpots(pace, l, fields)(o) == f(o);
      FieldMomentIsSum(pace, l, fields, bound);
    case Pointer(_) =>
      MomentOfOne(f, l.off, bound);
      assert f(l.off) == 1;
    case FunPointer =>
      MomentOfOne(f, l.off, bound);
      assert f(l.off) == 1;
    case _ => MomentOfNone(f, bound);
  }

  lemma ArraySpotsSplit(pace: Pace, l: Loc, base: Ty, n: nat, l1: Loc, n1: nat)
    requires n > 0 && l1 == Shift(l, Pitch(pace, base)) && n1 == n - 1
    ensures forall o :: ArraySpots(pace, l, base, n)(o) == Spots(pace, l, base)(o) + ArraySpots(pace, l1, base, n1)(o)
  {
  }

  lemma {:induction false} ArrayMomentIsSum(pace: Pace, l: Loc, base: Ty, n: nat, bound: nat)
    requires Below(ArraySpots(pace, l, base, n), bound)
    ensures Moment(ArraySpots(pace, l, base, n), bound) == ArraySum(pace, l.off, base, n)
    decreases base, n + 1
  {
    var h := ArraySpots(pace, l, base, n);
    if n == 0 {
      MomentOfNone(h, bound);
    } else {
      var l1, n1 := Shift(l, Pitch(pace, base)), n - 1;
      var f, g := Spots(pace, l, base), ArraySpots(pace, l1, base, n1);
      ArraySpotsSplit(pace, l, base, n, l1, n1);
      Parts(f, g, h, bound);
      MomentIsSum(pace, l, base, bound);
      ArrayMomentIsSum(pace, l1, base, n1, bound);
      MomentAdds(f, g, h, bound);
    }
  }

  lemma Parts(f: nat -> nat, g: nat -> nat, h: nat -> nat, bound: nat)
    requires (forall o :: h(o) == f(o) + g(o)) && Below(h, bound)
    ensures Below(f, bound) && Below(g, bound)
  {
    forall o: nat | o >= bound
      ensures f(o) == 0 && g(o) == 0
    {
      assert h(o) == 0;
    }
  }

  lemma {:induction false} FieldMomentIsSum(pace: Pace, l: Loc, fields: seq<Field>, bound: nat)
    requires Below(FieldSpots(pace, l, fields), bound)
    ensures Moment(FieldSpots(pace, l, fields), bound) == FieldSum(pace, l.off, fields)
    decreases fields, 0
  {
    var h := FieldSpots(pace, l, fields);
    if fields == [] {
      MomentOfNone(h, bound);
    } else {
      var fd := fields[0];
      assert fd.ty < fd;
      var f, g := Spots(pace, Shift(l, fd.offset), fd.ty), FieldSpots(pace, l, fields[1..]);
      assert forall o :: h(o) == f(o) + g(o);
      Parts(f, g, h, bound);
      MomentIsSum(pace, Shift(l, fd.offset), fd.ty, bound);
      FieldMomentIsSum(pace, l, fields[1..], bound);
      MomentAdds(f, g, h, bound);
    }
  }

  function Max(a: nat, b: nat): nat { if a < b then b else a }

  lemma {:induction false} SpotsEnd(pace: Pace, l: Loc, ty: Ty) returns (bound: nat)
    ensures Below(Spots(pace, l, ty), bound)
    decreases ty, 0
  {
    match ty
    case Array(n, base) =>
      bound := ArraySpotsEnd(pace, l, base, n);
      assert forall o :: Spots(pace, l, ty)(o) == ArraySpots(pace, l, base, n)(o);
    case Struct(_, fields) =>
      bound := FieldSpotsEnd(pace, l, fields);
      assert forall o :: Spots(pace, l, ty)(o) == FieldSpots(pace, l, fields)(o);
    case _ => bound := l.off + 1;
  }

  lemma {:induction false} ArraySpotsEnd(pace: Pace, l: Loc, base: Ty, n: nat) returns (bound: nat)
    ensures Below(ArraySpots(pace, l, base, n), bound)
    decreases base, n + 1
  {
    if n == 0 {
      bound := 0;
    } else {
      var l1, n1 := Shift(l, Pitch(pace, base)), n - 1;
      var b := SpotsEnd(pace, l, base);
      var b' := ArraySpotsEnd(pace, l1, base, n1);
      bound := Max(b, b');
      ArraySpotsSplit(pace, l, base, n, l1, n1);
    }
  }

  lemma {:induction false} FieldSpotsEnd(pace: Pace, l: Loc, fields: seq<Field>) returns (bound: nat)
    ensures Below(FieldSpots(pace, l, fields), bound)
    decreases fields, 0
  {
    if fields == [] {
      bound := 0;
    } else {
      var f := fields[0];
      assert f.ty < f;
      var b := SpotsEnd(pace, Shift(l, f.offset), f.ty);
      var b' := FieldSpotsEnd(pace, l, fields[1..]);
      bound := Max(b, b');
      var first, rest := Spots(pace, Shift(l, f.offset), f.ty), FieldSpots(pace, l, fields[1..]);
      assert forall o :: FieldSpots(pace, l, fields)(o) == first(o) + rest(o);
    }
  }

  /** The walk over a value of any type finds its pointer cells exactly when the type is straight. */
  lemma CellsExact(l: Loc, ty: Ty)
    ensures (forall p: Loc | p.base == l.base :: CellsAt(Strided, p, l, ty) == CellsAt(Sized, p, l, ty)) <==>
          Straight(ty)
  {
    if Straight(ty) {
      forall p: Loc
        ensures CellsAt(Sized, p, l, ty) == CellsAt(Strided, p, l, ty)
      {
        SameSpots(p, l, ty);
      }
    } else if forall p: Loc | p.base == l.base :: CellsAt(Strided, p, l, ty) == CellsAt(Sized, p, l, ty) {
      SameSpotsStraight(l, ty);
    }
  }

  lemma SameSpotsStraight(l: Loc, ty: Ty)
    requires forall o :: Spots(Sized, l, ty)(o) == Spots(Strided, l, ty)(o)
    ensures Straight(ty)
  {
    var bound := SpotsEnd(Sized, l, ty);
    assert Below(Spots(Strided, l, ty), bound);
    MomentIsSum(Sized, l, ty, bound);
    MomentIsSum(Strided, l, ty, bound);
    MomentSame(Spots(Sized, l, ty), Spots(Strided, l, ty), bound);
    SumsDiffer(l.off, ty);
  }

  // ----- over a whole traversal

  lemma {:induction false} CellsInObject(pace: Pace, p: Loc, l: Loc, ty: Ty)
    requires p.base != l.base
    ensures CellsAt(pace, p, l, ty) == 0
    decreases ty, 0
  {
    match ty
    case Array(n, base) => ArrayCellsInObject(pace, p, l, base, n);
    case Struct(_, fields) => FieldCellsInObject(pace, p, l, fields);
    case _ =>
  }

  lemma {:induction false} ArrayCellsInObject(pace: Pace, p: Loc, l: Loc, base: Ty, n: nat)
    requires p.base != l.base
    ensures ArrayCellsAt(pace, p, l, base, n) == 0
    decreases base, n + 1
  {
    if n > 0 {
      CellsInObject(pace, p, l, base);
      ArrayCellsInObject(pace, p, Shift(l, Pitch(pace, base)), base, n - 1);
    }
  }

  lemma {:induction false} FieldCellsInObject(pace: Pace, p: Loc, l: Loc, fields: seq<Field>)
    requires p.base != l.base
    ensures FieldCellsAt(pace, p, l, fields) == 0
    decreases fields, 0
  {
    if fields != [] {
      var f := fields[0];
      assert f.ty < f;
      CellsInObject(pace, p, Shift(l, f.offset), f.ty);
      FieldCellsInObject(pace, p, l, fields[1..]);
    }
  }

  /** The roots are separate variables into which no pointer leads. */
  ghost predicate SeparateRoots(c: Setup, roots: seq<Root>)
  {
    && (forall i, j :: 0 <= i < j < |roots| ==> roots[i].loc.base != roots[j].loc.base)
    && (forall i :: 0 <= i < |roots| ==> roots[i].loc.base !in c.mem.ptrs.Values)
  }

  /** A root, or the object behind a pointer that was followed when it was first met. */
  ghost predicate Entered(c: Setup, roots: seq<Root>, log: seq<Event>, it: Item)
  {
    IsRoot(roots, it) || exists i :: 0 <= i < |log| && Enters(c, log[i], it)
  }

  lemma {:induction false} NotInRoots(p: Loc, roots: seq<Root>)
    requires forall i :: 0 <= i < |roots| ==> roots[i].loc.base != p.base
    ensures RootCellsAt(p, roots) == 0
  {
    if roots != [] {
      CellsInObject(Strided, p, roots[0].loc, roots[0].ty);
      NotInRoots(p, roots[1..]);
    }
  }

  lemma {:induction false} InOneRoot(p: Loc, roots: seq<Root>, i: nat)
    requires i < |roots| && roots[i].loc.base == p.base
    requires forall i, j :: 0 <= i < j < |roots| ==> roots[i].loc.base != roots[j].loc.base
    ensures RootCellsAt(p, roots) == CellsAt(Strided, p, roots[i].loc, roots[i].ty)
  {
    if i == 0 {
      NotInRoots(p, roots[1..]);
    } else {
      CellsInObject(Strided, p, roots[0].loc, roots[0].ty);
      InOneRoot(p, roots[1..], i - 1);
    }
  }

  lemma {:induction false} NeverOpened(c: Setup, p: Loc, log: seq<Event>)
    requires p.base == 0 || FirstCalls(log, p.base) == 0
    ensures OpenedAt(c, p, log) == 0
  {
    if log != [] {
      var ev := log[|log| - 1];
      NeverOpened(c, p, log[..|log| - 1]);
      if ev.kind.First? && Follows(c, ev.ty, ev.kind.target) {
        CellsInObject(Strided, p, Loc(ev.kind.target, 0), c.env(ev.ty.target));
      }
    }
  }

  lemma {:induction false} OpenedThere(c: Setup, p: Loc, log: seq<Event>, i: nat)
    requires FirstCalls(log, p.base) == 1 && i < |log| && log[i].kind == First(p.base)
    ensures OpenedAt(c, p, log) == OpenedBy(c, p, log[i])
  {
    var init, ev := log[..|log| - 1], log[|log| - 1];
    if i == |log| - 1 {
      NeverOpened(c, p, init);
    } else {
      CalledAt(init, p.base, i);
      assert init[i] == log[i];
      OpenedThere(c, p, init, i);
      if ev.kind.First? && Follows(c, ev.ty, ev.kind.target) {
        CellsInObject(Strided, p, Loc(ev.kind.target, 0), c.env(ev.ty.target));
      }
    }
  }

  /** The visits of the cells of an object are those of the walk over its type. */
  lemma SeenInObject(c: Setup, roots: seq<Root>, it: Item, p: Loc)
    requires Proper(c) && SeparateRoots(c, roots) && Entered(c, roots, Traverse(c, roots).log, it)
    requires p.base == it.loc.base
    ensures SeenAt(p, Traverse(c, roots).log) == CellsAt(Strided, p, it.loc, it.ty)
  {
    var r := Traverse(c, roots);
    SeenBalance(c, p, roots);
    if IsRoot(roots, it) {
      var i :| 0 <= i < |roots| && it == Item(roots[i].loc, roots[i].ty);
      InOneRoot(p, roots, i);
      NoPointerThere(c, r, p.base);
      NeverOpened(c, p, r.log);
    } else {
      var i :| 0 <= i < |r.log| && Enters(c, r.log[i], it);
      assert EventFits(c, r.log[i]);
      NotInRoots(p, roots);
      CalledAt(r.log, p.base, i);
      OpenedThere(c, p, r.log, i);
    }
  }

  lemma {:induction false} NotCalled(log: seq<Event>, x: Addr)
    requires forall i :: 0 <= i < |log| ==> log[i].kind != First(x)
    ensures FirstCalls(log, x) == 0
  {
    if log != [] {
      NotCalled(log[..|log| - 1], x);
    }
  }

  lemma NoPointerThere(c: Setup, r: Engine, x: Addr)
    requires Sane(c, r) && x !in c.mem.ptrs.Values
    ensures x == 0 || FirstCalls(r.log, x) == 0
  {
    if x != 0 {
      forall i | 0 <= i < |r.log|
        ensures r.log[i].kind != First(x)
      {
        assert EventFits(c, r.log[i]);
      }
      NotCalled(r.log, x);
    }
  }

  /** The cells of the object `it` are visited as often as they lie there, and nothing else in it is. */
  ghost predicate SeenAsLaid(log: seq<Event>, it: Item)
  {
    forall p: Loc | p.base == it.loc.base :: SeenAt(p, log) == CellsAt(Sized, p, it.loc, it.ty)
  }

  lemma ObjectExact(c: Setup, roots: seq<Root>, it: Item)
    requires Proper(c) && SeparateRoots(c, roots) && Entered(c, roots, Traverse(c, roots).log, it)
    ensures SeenAsLaid(Traverse(c, roots).log, it) <==> Straight(it.ty)
  {
    CellsExact(it.loc, it.ty);
    forall p: Loc | p.base == it.loc.base
      ensures SeenAt(p, Traverse(c, roots).log) == CellsAt(Strided, p, it.loc, it.ty)
    {
      SeenInObject(c, roots, it, p);
    }
  }

  /**
   * Every pointer cell of the roots and of the objects entered is visited as often as it lies there,
   * and nothing else in them, exactly when every array with pointers in these types has a right stride.
   */
  lemma SeenExact(c: Setup, roots: seq<Root>)
    requires Proper(c) && SeparateRoots(c, roots)
    ensures var log := Traverse(c, roots).log;
            (forall it :: Entered(c, roots, log, it) ==> SeenAsLaid(log, it)) <==>
            (forall it :: Entered(c, roots, log, it) ==> Straight(it.ty))
  {
    forall it | Entered(c, roots, Traverse(c, roots).log, it)
      ensures SeenAsLaid(Traverse(c, roots).log, it) <==> Straight(it.ty)
    {
      ObjectExact(c, roots, it);
    }
  }
}
