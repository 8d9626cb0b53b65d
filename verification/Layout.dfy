/**
 * Where the parts of a value lie in memory, and where the traversal looks for the elements of an
 * array: the two agree exactly when the element size in the type table is that of the elements.
 */
module Layout {
  import opened Traversal
  import opened Walk

  /** Element `k` of an array at `l`: the elements lie one after another. */
  function Laid(l: Loc, base: Ty, k: nat): Item
  {
    Item(Shift(l, ArraySize(k, Size(base))), base)
  }

  /** The walk over an array of `n` elements goes from one element to the next. */
  predicate RightStride(base: Ty, n: nat)
  {
    n <= 1 || Stride(base) == Size(base)
  }

  lemma SizeOfOne(elem: nat)
    ensures ArraySize(1, elem) == elem
  {
    assert ArraySize(0, elem) == 0;
  }

  /** The elements are visited where they lie exactly when there is at most one, or the stride is their size. */
  lemma StrideExact(l: Loc, base: Ty, n: nat)
    ensures (forall k: nat :: k < n ==> Element(l, base, k) == Laid(l, base, k)) <==> RightStride(base, n)
  {
    if n > 1 && Stride(base) != Size(base) {
      SizeOfOne(Stride(base));
      SizeOfOne(Size(base));
      assert Element(l, base, 1) != Laid(l, base, 1);
    }
  }

  lemma {:induction false} SizeIsProduct(n: nat, elem: nat)
    ensures ArraySize(n, elem) == n * elem
  {
    if n > 0 {
      SizeIsProduct(n - 1, elem);
    }
  }

  /** A stride is never too long, unless the elements are empty. */
  lemma {:induction false} StrideAtMostSize(base: Ty)
    ensures Size(base) == 0 || Stride(base) <= Size(base)
    ensures Stride(base) == 0 ==> Size(base) == 0
  {
    if base.Array? {
      StrideAtMostSize(base.base);
      SizeIsProduct(base.len, Size(base.base));
      if base.len > 0 {
        assert base.len * Size(base.base) >= Size(base.base);
      }
    }
  }

  /** With a wrong stride the element places are not even the same as a set. */
  lemma WrongStride(l: Loc, base: Ty, n: nat) returns (q: Item)
    requires !RightStride(base, n)
    ensures (exists k: nat :: k < n && q == Element(l, base, k)) != (exists k: nat :: k < n && q == Laid(l, base, k))
  {
    var s, z := Stride(base), Size(base);
    StrideAtMostSize(base);
    if z == 0 {
      q := Element(l, base, 1);
      SizeOfOne(s);
      forall k: nat | k < n
        ensures q != Laid(l, base, k)
      {
        SizeIsProduct(k, z);
      }
    } else {
      q := Laid(l, base, n - 1);
      forall k: nat | k < n
        ensures q != Element(l, base, k)
      {
        SizeIsProduct(k, s);
        SizeIsProduct(n - 1, z);
        Farther(k, n - 1, s, z);
      }
    }
  }

  lemma Farther(k: nat, m: nat, s: nat, z: nat)
    requires k <= m && m > 0 && s < z
    ensures k * s < m * z
  {
    assert k * s <= m * s && m * s < m * z;
  }

  // ----- pointer cells

  /** The number of pointer cells in a value. */
  function Cells(ty: Ty): nat
    decreases ty, 0
  {
    match ty
    case Pointer(_) => 1
    case FunPointer => 1
    case Array(n, base) => ArraySize(n, Cells(base))
    case Struct(_, fields) => FieldCells(fields)
    case _ => 0
  }

  function FieldCells(fields: seq<Field>): nat
    decreases fields, 0
  {
    if fields == [] then 0
    else
      var f := fields[0];
      assert f.ty < f;
      Cells(f.ty) + FieldCells(fields[1..])
  }

  /** Two ways to go through the elements of an array: as they lie, or as the code walks. */
  datatype Pace = Sized | Strided

  /** The distance between elements, in the layout or in the walk. */
  function Pitch(pace: Pace, base: Ty): nat
  {
    match pace
    case Sized => Size(base)
    case Strided => Stride(base)
  }

  /** How often `p` occurs among the pointer cells of a `ty` at `l`, in the layout or in the walk. */
  ghost function CellsAt(pace: Pace, p: Loc, l: Loc, ty: Ty): nat
    decreases ty, 0
  {
    match ty
    case Pointer(_) => if p == l then 1 else 0
    case FunPointer => if p == l then 1 else 0
    case Array(n, base) => ArrayCellsAt(pace, p, l, base, n)
    case Struct(_, fields) => FieldCellsAt(pace, p, l, fields)
    case _ => 0
  }

  ghost function ArrayCellsAt(pace: Pace, p: Loc, l: Loc, base: Ty, n: nat): nat
    decreases base, n + 1
  {
    if n == 0 then 0
    else CellsAt(pace, p, l, base) + ArrayCellsAt(pace, p, Shift(l, Pitch(pace, base)), base, n - 1)
  }

  ghost function FieldCellsAt(pace: Pace, p: Loc, l: Loc, fields: seq<Field>): nat
    decreases fields, 0
  {
    if fields == [] then 0
    else
      var f := fields[0];
      assert f.ty < f;
      CellsAt(pace, p, Shift(l, f.offset), f.ty) + FieldCellsAt(pace, p, l, fields[1..])
  }

  /** The number of cells bounds the occurrences of each. */
  lemma {:induction false} CellsBound(pace: Pace, p: Loc, l: Loc, ty: Ty)
    ensures CellsAt(pace, p, l, ty) <= Cells(ty)
    decreases ty, 0
  {
    match ty
    case Array(n, base) => ArrayCellsBound(pace, p, l, base, n);
    case Struct(_, fields) => FieldCellsBound(pace, p, l, fields);
    case _ =>
  }

  lemma {:induction false} ArrayCellsBound(pace: Pace, p: Loc, l: Loc, base: Ty, n: nat)
    ensures ArrayCellsAt(pace, p, l, base, n) <= ArraySize(n, Cells(base))
    decreases base, n + 1
  {
    if n > 0 {
      CellsBound(pace, p, l, base);
      ArrayCellsBound(pace, p, Shift(l, Pitch(pace, base)), base, n - 1);
    }
  }

  lemma {:induction false} FieldCellsBound(pace: Pace, p: Loc, l: Loc, fields: seq<Field>)
    ensures FieldCellsAt(pace, p, l, fields) <= FieldCells(fields)
    decreases fields, 0
  {
    if fields != [] {
      var f := fields[0];
      assert f.ty < f;
      CellsBound(pace, p, Shift(l, f.offset), f.ty);
      FieldCellsBound(pace, p, l, fields[1..]);
    }
  }

  /** Every array that holds a pointer has a right stride. */
  predicate Straight(ty: Ty)
    decreases ty, 0
  {
    match ty
    case Array(n, base) => Cells(ty) == 0 || (RightStride(base, n) && Straight(base))
    case Struct(_, fields) => FieldsStraight(fields)
    case _ => true
  }

  predicate FieldsStraight(fields: seq<Field>)
    decreases fields, 0
  {
    if fields == [] then true
    else
      var f := fields[0];
      assert f.ty < f;
      Straight(f.ty) && FieldsStraight(fields[1..])
  }
}
