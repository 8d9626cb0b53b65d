/**
 * Inputs at the edge of the theorems: what the code does where an assumption of the traversal or of
 * the serializer is dropped.
 */
module Limits {
  import opened Bytes
  import opened Traversal
  import opened Serializer
  import opened Walk
  import opened Layout
  import opened Reachability
  import opened PointerCells
  import opened CellLayout
  import opened RoundTrip

  // ----- an address reached at two types

  const TWO_TYPES: Setup := Setup(
    Memory(map[Loc(100, 0) := 1000, Loc(200, 0) := 1000, Loc(1000, 0) := 2000], map[], map[]),
    (t: TypeId) => if t == 1 then Pointer(0) else Prim(8), (x, ty) => true, x => x)

  const TWO_ROOTS: seq<Root> := [Root(Loc(100, 0), Pointer(0), Loc(100, 0)), Root(Loc(200, 0), Pointer(1), Loc(200, 0))]

  /**
   * The first pointer to 1000 takes it for a number, so the pointer that the second one sees there is
   * never followed: its target is reachable and not mapped.
   */
  lemma TwoTypesMissATarget()
    ensures Proper(TWO_TYPES) && Targeted(TWO_TYPES, TWO_ROOTS, 2000) && 2000 !in Traverse(TWO_TYPES, TWO_ROOTS).mapping
    ensures !EnteredAlike(TWO_TYPES, TWO_ROOTS)
  {
    var c, roots := TWO_TYPES, TWO_ROOTS;
    var o, p, q := Item(Loc(100, 0), Pointer(0)), Item(Loc(200, 0), Pointer(1)), Item(Loc(1000, 0), Pointer(0));
    assert o == Item(roots[0].loc, roots[0].ty) && p == Item(roots[1].loc, roots[1].ty);
    RootReached(c, roots, o);
    RootReached(c, roots, p);
    assert Child(c, p, q);
    ChildReached(c, roots, p, q);
    assert Points(c, roots, q, 2000);
    assert Points(c, roots, o, 1000) && Points(c, roots, p, 1000);
    TwoTypesRun();
  }

  lemma TwoTypesRun()
    ensures Proper(TWO_TYPES) && Traverse(TWO_TYPES, TWO_ROOTS).mapping == map[1000 := 1000]
  {
    var c, roots := TWO_TYPES, TWO_ROOTS;
    var e1 := Visit(c, Idle, Loc(100, 0), Pointer(0), Loc(100, 0));
    assert e1.mapping == map[1000 := 1000] && e1.queue == [];
    assert PtrAt(c.mem, Loc(200, 0)) == 1000 && FindMapping(e1.mapping, 1000) == 1000;
    var e2 := VisitPointer(c, e1, Loc(200, 0), Pointer(1), Loc(200, 0));
    assert e2 == Visit(c, e1, Loc(200, 0), Pointer(1), Loc(200, 0));
    assert e2.mapping == map[1000 := 1000] && e2.queue == [];
    assert roots[1..] == [roots[1]] && roots[1..][1..] == [];
    assert VisitRoots(c, e2, []) == e2;
    assert VisitRoots(c, e1, roots[1..]) == e2;
  }

  /** Two pointers to 1000, of types that lead to different places, and a root at one of these. */
  const THREE_WAYS: Setup := Setup(
    Memory(map[Loc(100, 0) := 1000, Loc(200, 0) := 1000], map[], map[]),
    (t: TypeId) => if t == 1 then Prim(4) else Prim(8), (x, ty) => true, x => x)

  const THREE_ROOTS: seq<Root> := TWO_ROOTS + [Root(Loc(1000, 0), Prim(4), Loc(1000, 0))]

  ghost predicate ThreeWaysPlace(it: Item)
  {
    || it == Item(Loc(100, 0), Pointer(0)) || it == Item(Loc(200, 0), Pointer(1))
    || it == Item(Loc(1000, 0), Prim(4)) || it == Item(Loc(1000, 0), Prim(8))
  }

  lemma {:induction false} ThreeWaysPath(path: seq<Item>, i: nat)
    requires Path(THREE_WAYS, THREE_ROOTS, path) && i < |path|
    ensures ThreeWaysPlace(path[i])
  {
    if i > 0 {
      ThreeWaysPath(path, i - 1);
      assert Leads(THREE_WAYS, path, i);
    }
  }

  /** A condition on the other ways to a place is needed: here the types differ and nothing is missed. */
  lemma ThreeWaysMissNothing()
    ensures Proper(THREE_WAYS) && !EnteredAlike(THREE_WAYS, THREE_ROOTS)
    ensures forall it :: Reached(THREE_WAYS, THREE_ROOTS, it) ==> Visited(Traverse(THREE_WAYS, THREE_ROOTS).log, it)
  {
    ThreeWaysDiffer(THREE_WAYS, THREE_ROOTS);
    ThreeWaysRun(THREE_WAYS, THREE_ROOTS);
    forall it | Reached(THREE_WAYS, THREE_ROOTS, it)
      ensures ThreeWaysPlace(it)
    {
      ThreeWaysReached(it);
    }
  }

  lemma ThreeWaysReached(it: Item)
    requires Reached(THREE_WAYS, THREE_ROOTS, it)
    ensures ThreeWaysPlace(it)
  {
    var path :| Path(THREE_WAYS, THREE_ROOTS, path) && path[|path| - 1] == it;
    ThreeWaysPath(path, |path| - 1);
  }

  lemma ThreeWaysDiffer(c: Setup, roots: seq<Root>)
    requires c == THREE_WAYS && roots == THREE_ROOTS
    ensures !EnteredAlike(c, roots)
  {
    var p, q := Item(Loc(100, 0), Pointer(0)), Item(Loc(200, 0), Pointer(1));
    assert p == Item(roots[0].loc, roots[0].ty) && q == Item(roots[1].loc, roots[1].ty);
    RootReached(c, roots, p);
    RootReached(c, roots, q);
    assert Points(c, roots, p, 1000) && Points(c, roots, q, 1000);
    assert !SameEntry(c, p.ty, q.ty, 1000);
  }

  lemma ThreeWaysRun(c: Setup, roots: seq<Root>)
    requires c == THREE_WAYS && roots == THREE_ROOTS
    ensures Proper(c)
    ensures forall it :: ThreeWaysPlace(it) ==> Visited(Traverse(c, roots).log, it)
  {
    var e1 := ThreeWaysFirst(c);
    var e2 := VisitPointer(c, e1, Loc(200, 0), Pointer(1), Loc(200, 0));
    assert PtrAt(c.mem, Loc(200, 0)) == 1000 && FindMapping(e1.mapping, 1000) == 1000;
    assert e2.queue == [] && e2.log == e1.log + [Event(Loc(200, 0), Pointer(1), Again(1000))];
    var e3 := Visit(c, e2, Loc(1000, 0), Prim(4), Loc(1000, 0));
    assert e3.queue == [] && e3.log == e2.log + [Event(Loc(1000, 0), Prim(4), Scalar)];
    ThreeRoots(c, roots, e1, e2, e3);
    ThreeWaysLog(e3.log);
  }

  lemma ThreeWaysLog(log: seq<Event>)
    requires |log| == 4 && log[0] == Event(Loc(100, 0), Pointer(0), First(1000))
    requires log[1] == Event(Loc(1000, 0), Prim(8), Scalar)
    requires log[2] == Event(Loc(200, 0), Pointer(1), Again(1000)) && log[3] == Event(Loc(1000, 0), Prim(4), Scalar)
    ensures forall it :: ThreeWaysPlace(it) ==> Visited(log, it)
  {
    forall i | 0 <= i < 4
      ensures Visited(log, Place(log[i]))
    {
    }
    assert Visited(log, Place(log[0])) && Visited(log, Place(log[1]));
    assert Visited(log, Place(log[2])) && Visited(log, Place(log[3]));
  }

  lemma ThreeWaysFirst(c: Setup) returns (e: Engine)
    requires c == THREE_WAYS
    ensures Proper(c) && e == Visit(c, Idle, Loc(100, 0), Pointer(0), Loc(100, 0))
    ensures e.mapping == map[1000 := 1000] && e.queue == []
    ensures e.log == [Event(Loc(100, 0), Pointer(0), First(1000)), Event(Loc(1000, 0), Prim(8), Scalar)]
  {
    assert PtrAt(c.mem, Loc(100, 0)) == 1000;
    var e1 := FirstVisit(c, Idle, Loc(100, 0), Pointer(0), Loc(100, 0), 1000);
    FirstVisitSane(c, Idle, Loc(100, 0), Pointer(0), Loc(100, 0), 1000);
    e := Logged(e1, Loc(1000, 0), Prim(8), Scalar);
    assert e == Visit(c, e1, Loc(1000, 0), Prim(8), Loc(1000, 0));
  }

  lemma ThreeRoots(c: Setup, roots: seq<Root>, e1: Engine, e2: Engine, e3: Engine)
    requires Proper(c) && |roots| == 3 && e1 == Visit(c, Idle, roots[0].loc, roots[0].ty, roots[0].out)
    requires e2 == Visit(c, e1, roots[1].loc, roots[1].ty, roots[1].out)
    requires e3 == Visit(c, e2, roots[2].loc, roots[2].ty, roots[2].out) && e3.queue == []
    ensures Traverse(c, roots) == e3
  {
    assert roots[1..][1..] == [roots[2]] && roots[1..][1..][1..] == [];
    assert VisitRoots(c, e2, roots[1..][1..]) == VisitRoots(c, e3, []);
    assert VisitRoots(c, e1, roots[1..]) == e3;
  }

  // ----- arrays of arrays

  /** A table of `n` rows of `m` pointers. */
  function Rows(n: nat, m: nat, t: TypeId): Ty { Array(n, Array(m, Pointer(t))) }

  /** Cell `k` of a row of `m` is its own, once. */
  lemma {:induction false} RowCells(l: Loc, m: nat, t: TypeId, k: int, p: Loc)
    requires p.base == l.base && p.off == l.off + 8 * k
    ensures ArrayCellsAt(Strided, p, l, Pointer(t), m) == if 0 <= k < m then 1 else 0
    decreases m
  {
    if m > 0 {
      RowCells(Shift(l, 8), m - 1, t, k - 1, p);
    }
  }

  /** The second cell of the first row is also taken for the first cell of the second row. */
  lemma RowsOverlap(l: Loc, n: nat, m: nat, t: TypeId)
    requires n >= 2 && m >= 2
    ensures CellsAt(Strided, Shift(l, 8), l, Rows(n, m, t)) >= 2
  {
    var row, p := Array(m, Pointer(t)), Shift(l, 8);
    RowCells(l, m, t, 1, p);
    RowCells(Shift(l, 8), m, t, 0, p);
    assert CellsAt(Strided, p, l, row) >= 1 && CellsAt(Strided, p, Shift(l, 8), row) >= 1;
    assert Stride(row) == 8;
    assert ArrayCellsAt(Strided, p, Shift(l, 8), row, n - 1) >= 1;
  }

  /** Whatever the heap holds, a traversal from such a table visits that cell at least twice. */
  lemma RowsSeenTwice(c: Setup, l: Loc, n: nat, m: nat, t: TypeId, roots: seq<Root>)
    requires Proper(c) && n >= 2 && m >= 2 && roots == [Root(l, Rows(n, m, t), l)]
    ensures SeenAt(Shift(l, 8), Traverse(c, roots).log) >= 2
  {
    RowsOverlap(l, n, m, t);
    SeenBalance(c, Shift(l, 8), roots);
    assert RootCellsAt(Shift(l, 8), roots) >= CellsAt(Strided, Shift(l, 8), l, Rows(n, m, t));
  }

  /** The walk over a table of `n` rows of `m` goes no farther than cell n + m - 2. */
  lemma {:induction false} RowsEnd(l: Loc, n: nat, m: nat, t: TypeId, k: int, p: Loc)
    requires p.base == l.base && p.off == l.off + 8 * k && k >= n + m - 1
    ensures ArrayCellsAt(Strided, p, l, Array(m, Pointer(t)), n) == 0
    decreases n
  {
    if n > 0 {
      RowCells(l, m, t, k, p);
      assert Stride(Array(m, Pointer(t))) == 8;
      RowsEnd(Shift(l, 8), n - 1, m, t, k - 1, p);
    }
  }

  lemma LastCell(n: nat, m: nat)
    requires n >= 2 && m >= 2
    ensures n * m - 1 >= n + m - 1
  {
    assert (n - 1) * (m - 1) >= 1;
    assert n * m - n - m + 1 == (n - 1) * (m - 1);
  }

  /** Whatever the heap holds, the last cell of such a table is not visited. */
  lemma RowsMissTheLast(c: Setup, l: Loc, n: nat, m: nat, t: TypeId, roots: seq<Root>)
    requires Proper(c) && n >= 2 && m >= 2 && roots == [Root(l, Rows(n, m, t), l)] && l.base !in c.mem.ptrs.Values
    ensures n * m >= 1 && SeenAt(Shift(l, 8 * (n * m - 1)), Traverse(c, roots).log) == 0
  {
    LastCell(n, m);
    var p := Shift(l, 8 * (n * m - 1));
    RowsEnd(l, n, m, t, n * m - 1, p);
    SeenInTable(c, l, Rows(n, m, t), roots, p);
  }

  /** The cells of a sole root are visited as the walk over its type says. */
  lemma SeenInTable(c: Setup, l: Loc, ty: Ty, roots: seq<Root>, p: Loc)
    requires Proper(c) && roots == [Root(l, ty, l)] && l.base !in c.mem.ptrs.Values && p.base == l.base
    ensures SeenAt(p, Traverse(c, roots).log) == CellsAt(Strided, p, l, ty)
  {
    assert IsRoot(roots, Item(roots[0].loc, roots[0].ty));
    SeenInObject(c, roots, Item(l, ty), p);
  }

  /** One column: the rows lie where the walk looks for them. */
  lemma {:induction false} ColumnCells(l: Loc, n: nat, t: TypeId, k: int, p: Loc)
    requires p.base == l.base && p.off == l.off + 8 * k
    ensures ArrayCellsAt(Strided, p, l, Array(1, Pointer(t)), n) == if 0 <= k < n then 1 else 0
    decreases n
  {
    if n > 0 {
      RowCells(l, 1, t, k, p);
      assert Stride(Array(1, Pointer(t))) == 8;
      ColumnCells(Shift(l, 8), n - 1, t, k - 1, p);
    }
  }

  /** A table of at most one row or one column has each of its cells once. */
  lemma FlatCells(l: Loc, n: nat, m: nat, t: TypeId, k: nat)
    requires k < n * m && (n <= 1 || m <= 1)
    ensures CellsAt(Strided, Shift(l, 8 * k), l, Rows(n, m, t)) == 1
  {
    var p, row := Shift(l, 8 * k), Array(m, Pointer(t));
    if n == 1 {
      assert n * m == m && Stride(row) == 8;
      RowCells(l, m, t, k, p);
      assert CellsAt(Strided, p, l, row) == 1;
      assert ArrayCellsAt(Strided, p, Shift(l, 8), row, 0) == 0;
    } else {
      Flat(n, m, k);
      ColumnCells(l, n, t, k, p);
    }
  }

  lemma Flat(n: nat, m: nat, k: nat)
    requires k < n * m && m <= 1
    ensures m == 1 && k < n
  {
  }

  /** Every cell of a table is visited once, whatever the heap holds, exactly for one row or one column. */
  lemma RowsExact(c: Setup, l: Loc, n: nat, m: nat, t: TypeId, roots: seq<Root>)
    requires Proper(c) && roots == [Root(l, Rows(n, m, t), l)] && l.base !in c.mem.ptrs.Values
    ensures (forall k: nat :: k < n * m ==> SeenAt(Shift(l, 8 * k), Traverse(c, roots).log) == 1) <==> n <= 1 || m <= 1
  {
    if n <= 1 || m <= 1 {
      forall k: nat | k < n * m
        ensures SeenAt(Shift(l, 8 * k), Traverse(c, roots).log) == 1
      {
        FlatCells(l, n, m, t, k);
        SeenInTable(c, l, Rows(n, m, t), roots, Shift(l, 8 * k));
      }
    } else {
      RowsMissTheLast(c, l, n, m, t, roots);
    }
  }

  /** An address held by the last cell of a table alone is reachable and not mapped. */
  lemma RowsLoseATarget(c: Setup, l: Loc, n: nat, m: nat, t: TypeId, roots: seq<Root>, x: Addr)
    requires Proper(c) && n >= 2 && m >= 2 && roots == [Root(l, Rows(n, m, t), l)] && l.base !in c.mem.ptrs.Values
    requires x != 0 && n * m >= 1 && forall p :: PtrAt(c.mem, p) == x <==> p == Shift(l, 8 * (n * m - 1))
    ensures Targeted(c, roots, x) && x !in Traverse(c, roots).mapping
  {
    LastIsReached(c, l, n, m, t, roots);
    assert Points(c, roots, Item(Shift(l, 8 * (n * m - 1)), Pointer(t)), x);
    RowsMissTheLast(c, l, n, m, t, roots);
    var r := Traverse(c, roots);
    if x in r.mapping {
      var i := FirstEvent(r.log, x);
      assert EventFits(c, r.log[i]);
      SeenOnce(r.log, i);
    }
  }

  lemma {:induction false} SeenOnce(log: seq<Event>, i: nat)
    requires i < |log| && IsPtr(log[i].ty)
    ensures SeenAt(log[i].loc, log) >= 1
  {
    if i < |log| - 1 {
      SeenOnce(log[..|log| - 1], i);
    }
  }

  lemma LastIsReached(c: Setup, l: Loc, n: nat, m: nat, t: TypeId, roots: seq<Root>)
    requires n >= 1 && m >= 1 && roots == [Root(l, Rows(n, m, t), l)]
    ensures n * m >= 1 && Reached(c, roots, Item(Shift(l, 8 * (n * m - 1)), Pointer(t)))
  {
    var row := Array(m, Pointer(t));
    var table, last := Item(l, Rows(n, m, t)), Laid(l, row, n - 1);
    assert table == Item(roots[0].loc, roots[0].ty);
    RootReached(c, roots, table);
    assert Child(c, table, last);
    ChildReached(c, roots, table, last);
    var cell := Laid(last.loc, Pointer(t), m - 1);
    assert Child(c, last, cell);
    ChildReached(c, roots, last, cell);
    SizeIsProduct(m - 1, 8);
    SizeIsProduct(m, 8);
    SizeIsProduct(n - 1, Size(row));
    LastOffset(n, m);
  }

  lemma LastOffset(n: nat, m: nat)
    requires n >= 1 && m >= 1
    ensures n * m >= 1 && (n - 1) * (m * 8) + (m - 1) * 8 == 8 * (n * m - 1)
  {
    assert (n - 1) * (m * 8) == 8 * (n * m) - 8 * m;
  }

  /** Two rows of two pointers, of which the last points to a number. */
  const LAST: Setup := Setup(Memory(map[Loc(100, 24) := 2000], map[], map[]), (t: TypeId) => Prim(8), (x, ty) => true,
      x => x)

  /** Although the only pointers to the address are of one type, it is reachable and not mapped. */
  lemma LastMissed()
    ensures Proper(LAST) && EnteredAlike(LAST, TABLE_ROOTS) && !StridesRight(LAST, TABLE_ROOTS)
    ensures Targeted(LAST, TABLE_ROOTS, 2000) && 2000 !in Traverse(LAST, TABLE_ROOTS).mapping
  {
    LastLost(LAST, TABLE_ROOTS);
    LastStride();
    LastAlike();
  }

  lemma LastLost(c: Setup, roots: seq<Root>)
    requires c == LAST && roots == TABLE_ROOTS
    ensures Proper(c) && Targeted(c, roots, 2000) && 2000 !in Traverse(c, roots).mapping
  {
    var l := Loc(100, 0);
    assert Shift(l, 8 * (2 * 2 - 1)) == Loc(100, 24);
    assert forall p :: PtrAt(c.mem, p) == 2000 <==> p == Loc(100, 24);
    RowsLoseATarget(c, l, 2, 2, 0, roots, 2000);
  }

  lemma LastAlike()
    ensures EnteredAlike(LAST, TABLE_ROOTS)
  {
    forall it | Reached(LAST, TABLE_ROOTS, it) && IsPtr(it.ty)
      ensures it.ty == Pointer(0)
    {
      TablePlace(it);
    }
  }

  lemma LastStride()
    ensures !StridesRight(LAST, TABLE_ROOTS)
  {
    var row := Array(2, Pointer(0));
    var table := Item(Loc(100, 0), Array(2, row));
    assert table == Item(TABLE_ROOTS[0].loc, TABLE_ROOTS[0].ty);
    RootReached(LAST, TABLE_ROOTS, table);
    SizeIsProduct(2, 8);
    assert Size(row) == 16 && Stride(row) == 8;
    assert !RightStride(row, 2);
  }

  predicate TableTy(ty: Ty)
  {
    ty == Rows(2, 2, 0) || ty == Array(2, Pointer(0)) || ty == Pointer(0) || ty == Prim(8)
  }

  lemma {:induction false} TablePath(path: seq<Item>, i: nat)
    requires Path(LAST, TABLE_ROOTS, path) && i < |path|
    ensures TableTy(path[i].ty)
  {
    if i > 0 {
      TablePath(path, i - 1);
      assert Leads(LAST, path, i);
    }
  }

  lemma TablePlace(it: Item)
    requires Reached(LAST, TABLE_ROOTS, it)
    ensures TableTy(it.ty)
  {
    var path :| Path(LAST, TABLE_ROOTS, path) && path[|path| - 1] == it;
    TablePath(path, |path| - 1);
  }

  /** A pointer cell that has been read and is not null holds a mapped address. */
  lemma ReadIsMapped(t: Target, r: Reader, l: Loc, ty: Ty, r1: Reader)
    requires IsPtr(ty) && ReadPointer(t, r, l, ty) == Ok(r1)
    ensures PtrAt(r1.mem, l) == 0 || FindMapping(r1.mapping, PtrAt(r1.mem, l)) != 0
  {
  }

  /** Reading such a cell again meets the failing assertion of deserial_ptr_mapped. */
  lemma ReadAgainSticks(t: Target, r: Reader, l: Loc, ty: Ty, r1: Reader, ty': Ty)
    requires IsPtr(ty) && IsPtr(ty') && ReadPointer(t, r, l, ty) == Ok(r1) && PtrAt(r1.mem, l) != 0
    ensures ReadPointer(t, r1, l, ty') == Stuck
  {
    ReadIsMapped(t, r, l, ty, r1);
  }

  /** A row is its cells. */
  lemma RowRead(t: Target, r: Reader, l: Loc, ty: TypeId, r1: Reader, r2: Reader)
    requires ReadPointer(t, r, l, Pointer(ty)) == Ok(r1) && ReadPointer(t, r1, Shift(l, 8), Pointer(ty)) == Ok(r2)
    ensures ReadVisit(t, r, l, Array(2, Pointer(ty))) == Ok(r2)
  {
    var l1 := Shift(l, 8);
    assert Stride(Pointer(ty)) == 8;
    assert ReadArray(t, r2, Shift(l1, 8), Pointer(ty), 0) == Ok(r2);
    assert ReadVisit(t, r1, l1, Pointer(ty)) == Ok(r2);
    assert ReadArray(t, r1, l1, Pointer(ty), 1) == Ok(r2);
    assert ReadVisit(t, r, l, Pointer(ty)) == Ok(r1);
  }

  lemma RowStuck(t: Target, r: Reader, l: Loc, m: nat, ty: TypeId)
    requires m > 0 && ReadPointer(t, r, l, Pointer(ty)) == Stuck
    ensures ReadVisit(t, r, l, Array(m, Pointer(ty))) == Stuck
  {
    assert ReadVisit(t, r, l, Pointer(ty)) == Stuck;
    assert ReadArray(t, r, l, Pointer(ty), m) == Stuck;
  }

  lemma RowsUnfold(t: Target, r: Reader, l: Loc, n: nat, row: Ty, r2: Reader)
    requires n >= 2 && ReadVisit(t, r, l, row) == Ok(r2) && ReadVisit(t, r2, Shift(l, Stride(row)), row) == Stuck
    ensures ReadVisit(t, r, l, Array(n, row)) == Stuck
  {
    assert ReadArray(t, r2, Shift(l, Stride(row)), row, n - 1) == Stuck;
  }

  /** The reader fails on every table of rows of two pointers, from any stream, once the second pointer is not null. */
  lemma RowsStick(t: Target, r: Reader, l: Loc, n: nat, ty: TypeId, r1: Reader, r2: Reader)
    requires n >= 2 && ReadPointer(t, r, l, Pointer(ty)) == Ok(r1)
        && ReadPointer(t, r1, Shift(l, 8), Pointer(ty)) == Ok(r2)
    requires PtrAt(r2.mem, Shift(l, 8)) != 0
    ensures ReadVisit(t, r, l, Rows(n, 2, ty)) == Stuck
  {
    var row, l1 := Array(2, Pointer(ty)), Shift(l, 8);
    assert Stride(row) == Stride(Pointer(ty)) == 8;
    RowRead(t, r, l, ty, r1, r2);
    ReadAgainSticks(t, r1, l1, Pointer(ty), r2, Pointer(ty));
    RowStuck(t, r2, l1, 2, ty);
    RowsUnfold(t, r, l, n, row, r2);
  }

  // ----- a stream that cannot be read back

  const TABLE_TYPES: Types := Types((t: TypeId) => Prim(8), 1)

  /** Two rows of two pointers, of which the second points to a number. */
  const TABLE: Writer := Writer(
    Memory(map[Loc(100, 8) := 1000], map[Loc(1000, 0) := [7, 0, 0, 0, 0, 0, 0, 0]], map[]), TABLE_TYPES, map[])

  const TABLE_ROOTS: seq<Root> := [Root(Loc(100, 0), Rows(2, 2, 0), Loc(100, 0))]

  const TABLE_READER: Serializer.Target := Serializer.Target(TABLE_TYPES, map[], (i: nat) => 5000 + i)

  /** The first events of the writer. */
  function TableEvents(): seq<Event>
  {
    [Event(Loc(100, 0), Rows(2, 2, 0), Elements), Event(Loc(100, 0), Array(2, Pointer(0)), Elements),
     Event(Loc(100, 0), Pointer(0), First(0)), Event(Loc(100, 8), Pointer(0), First(1000)),
         Event(Loc(1000, 0), Prim(8), Scalar)]
  }

  /** The writer after the first row. */
  lemma TableFirstRow(c: Setup, e: Engine) returns (r: Engine)
    requires Proper(c) && c == WriterSetup(TABLE) && Sane(c, e)
    requires e == Logged(Logged(Idle, Loc(100, 0), Rows(2, 2, 0), Elements), Loc(100, 0), Array(2, Pointer(0)),
        Elements)
    ensures r == VisitArray(c, e, Loc(100, 0), Pointer(0), 2, Loc(100, 0)) && r.log == TableEvents()
  {
    var e1 := VisitPointer(c, e, Loc(100, 0), Pointer(0), Loc(100, 0));
    assert e1 == FirstVisit(c, e, Loc(100, 0), Pointer(0), Loc(100, 0), 0);
    r := TableCell(c, e1);
    assert r.log == TableEvents();
    assert VisitArray(c, r, Loc(100, 16), Pointer(0), 0, Loc(100, 16)) == r;
    assert VisitArray(c, e1, Loc(100, 8), Pointer(0), 1, Loc(100, 8)) == r;
  }

  lemma TableCell(c: Setup, e: Engine) returns (r: Engine)
    requires Proper(c) && c == WriterSetup(TABLE) && Sane(c, e) && 1000 !in e.mapping
    ensures r == VisitPointer(c, e, Loc(100, 8), Pointer(0), Loc(100, 8))
    ensures r.log == e.log + [Event(Loc(100, 8), Pointer(0), First(1000)), Event(Loc(1000, 0), Prim(8), Scalar)]
  {
    assert PtrAt(c.mem, Loc(100, 8)) == 1000;
    assert c.env(0) == Prim(8) && c.image(1000) == 1000 && c.follow(1000, Pointer(0));
    var e1 := FirstVisit(c, e, Loc(100, 8), Pointer(0), Loc(100, 8), 1000);
    FirstVisitSane(c, e, Loc(100, 8), Pointer(0), Loc(100, 8), 1000);
    r := Logged(e1, Loc(1000, 0), Prim(8), Scalar);
    assert r == Visit(c, e1, Loc(1000, 0), Prim(8), Loc(1000, 0));
  }

  lemma TableEventsFirst(c: Setup)
    requires Proper(c) && c == WriterSetup(TABLE)
    ensures TableEvents() <= Traverse(c, TABLE_ROOTS).log
  {
    var l, row := Loc(100, 0), Array(2, Pointer(0));
    var e0 := Logged(Idle, l, Rows(2, 2, 0), Elements);
    LoggedSane(c, Idle, l, Rows(2, 2, 0), Elements);
    LoggedSane(c, e0, l, row, Elements);
    var r := TableFirstRow(c, Logged(e0, l, row, Elements));
    FirstRowFirst(c, TABLE_ROOTS, l, 2, 2, Pointer(0), e0, Logged(e0, l, row, Elements), r);
  }

  /** What the first row of a table wrote comes first in the log. */
  lemma FirstRowFirst(c: Setup, roots: seq<Root>, l: Loc, n: nat, m: nat, cell: Ty, e0: Engine, e1: Engine, r: Engine)
    requires Proper(c) && roots == [Root(l, Array(n, Array(m, cell)), l)] && n > 0
    requires e0 == Logged(Idle, l, Array(n, Array(m, cell)), Elements) && e1 == Logged(e0, l, Array(m, cell), Elements)
    requires Sane(c, e0) && Sane(c, e1) && r == VisitArray(c, e1, l, cell, m, l)
    ensures r.log <= Traverse(c, roots).log
  {
    var row := Array(m, cell);
    assert r == Visit(c, e0, l, row, l);
    var all := VisitArray(c, e0, l, row, n, l);
    RowsGoOn(c, e0, l, row, n, r);
    assert all == Visit(c, Idle, l, Array(n, row), l);
    RootsGoOn(c, roots, all);
  }

  lemma RowsGoOn(c: Setup, e: Engine, l: Loc, row: Ty, n: nat, r: Engine)
    requires Proper(c) && Sane(c, e) && n > 0 && r == Visit(c, e, l, row, l)
    ensures r.log <= VisitArray(c, e, l, row, n, l).log
  {
    var l1 := Shift(l, Stride(row));
    assert VisitArray(c, e, l, row, n, l) == VisitArray(c, r, l1, row, n - 1, l1);
  }

  lemma RootsGoOn(c: Setup, roots: seq<Root>, e: Engine)
    requires Proper(c) && |roots| == 1 && e == Visit(c, Idle, roots[0].loc, roots[0].ty, roots[0].out)
    ensures e.log <= Traverse(c, roots).log
  {
    assert VisitRoots(c, Idle, roots) == VisitRoots(c, e, roots[1..]);
  }

  lemma StreamNext(w: Writer, ev: seq<Event>, i: nat, before: seq<Byte>, x: seq<Byte>)
    requires i < |ev| && Stream(w, ev[..i]) == before && Emit(w, ev[i]) == x
    ensures Stream(w, ev[..i + 1]) == before + x
  {
    StreamAppend(w, ev[..i], ev[i]);
    assert ev[..i + 1] == ev[..i] + [ev[i]];
  }

  lemma StreamStart(w: Writer, ev: seq<Event>)
    ensures Stream(w, ev[..0]) == []
  {
  }

  /** Five events of which two write nothing. */
  lemma StreamOfFive(w: Writer, ev: seq<Event>, x: seq<Byte>, y: seq<Byte>, z: seq<Byte>)
    requires |ev| == 5 && Emit(w, ev[0]) == [] && Emit(w, ev[1]) == []
    requires Emit(w, ev[2]) == x && Emit(w, ev[3]) == y && Emit(w, ev[4]) == z
    ensures Stream(w, ev) == x + (y + z)
  {
    StreamStart(w, ev);
    StreamNext(w, ev, 0, [], []);
    StreamNext(w, ev, 1, [], []);
    StreamNext(w, ev, 2, [], x);
    StreamNext(w, ev, 3, x, y);
    StreamNext(w, ev, 4, x + y, z);
    assert ev[..5] == ev;
  }

  const SEVEN: seq<Byte> := [7, 0, 0, 0, 0, 0, 0, 0]

  /** What the writer puts first into the stream: a null pointer, a pointer, and the number behind it. */
  lemma TableStream(w: Writer, ev: seq<Event>)
    requires w == TABLE && ev == TableEvents()
    ensures Stream(w, ev) == WordBytes(0) + (WordBytes(1000) + SEVEN)
  {
    assert Emit(w, ev[2]) == WordBytes(0);
    assert Emit(w, ev[3]) == WordBytes(1000);
    assert Emit(w, ev[4]) == SEVEN;
    StreamOfFive(w, ev, WordBytes(0), WordBytes(1000), SEVEN);
  }

  lemma WordFits()
    ensures 1000 < Pow256(8)
  {
    assert Pow256(2) == 65536;
    assert Pow256(5) >= Pow256(4) >= Pow256(3) >= Pow256(2);
    assert Pow256(8) >= Pow256(7) >= Pow256(6) >= Pow256(5);
  }

  /** Reading the first row of the table. */
  lemma ReadFirstRow(t: Target, r: Reader, l: Loc, rest: seq<Byte>) returns (r1: Reader, r2: Reader)
    requires t == TABLE_READER && r.mem.ptrs == map[] && r.mapping == map[] && r.allocs == 0 && l.base != 5000
    requires r.input == WordBytes(0) + (WordBytes(1000) + rest) && |rest| >= 8
    ensures ReadPointer(t, r, l, Pointer(0)) == Ok(r1) && ReadPointer(t, r1, Shift(l, 8), Pointer(0)) == Ok(r2)
    ensures PtrAt(r2.mem, Shift(l, 8)) == 5000
  {
    var l1 := Shift(l, 8);
    ReadNull(t, r, l, Pointer(0), WordBytes(1000) + rest);
    r1 := Stored(r, WordBytes(1000) + rest, l, 0);
    var a := Allocated(t, r1.(input := rest), l1, 1000);
    assert t.types.env(0) == Prim(8) && t.alloc(0) == 5000;
    var r' := ReadVisit(t, a, Loc(5000, 0), Prim(8)).st;
    WordFits();
    ReadNewObject(t, r1, l1, Pointer(0), 1000, rest, r');
    r2 := SelfMapped(r', l1);
  }

  lemma Continued(all: seq<Byte>, x: seq<Byte>, y: seq<Byte>, z: seq<Byte>) returns (rest: seq<Byte>)
    requires x + (y + z) <= all
    ensures all == x + (y + rest) && |rest| >= |z|
  {
    rest := z + all[|x| + |y| + |z|..];
    assert all == x + (y + z) + all[|x| + |y| + |z|..];
  }

  /** Reading anything that starts like the stream of the table. */
  lemma TableSticks(t: Target, all: seq<Byte>)
    requires t == TABLE_READER && WordBytes(0) + (WordBytes(1000) + SEVEN) <= all
    ensures Deserialize(t, all, TABLE_ROOTS) == Stuck
  {
    var rest := Continued(all, WordBytes(0), WordBytes(1000), SEVEN);
    var r := Reader(all, Memory(map[], map[], map[]), map[], [], 0);
    var r1, r2 := ReadFirstRow(t, r, Loc(100, 0), rest);
    RowsStick(t, r, Loc(100, 0), 2, 0, r1, r2);
    assert ReadRoots(t, r, TABLE_ROOTS) == Stuck;
  }

  /** The table is written, and reading it back meets the failing assertion. */
  lemma TableCannotBeRead()
    ensures Deserialize(TABLE_READER, Serialize(TABLE, TABLE_ROOTS), TABLE_ROOTS) == Stuck
  {
    WriterProper(TABLE);
    var log := Traverse(WriterSetup(TABLE), TABLE_ROOTS).log;
    TableEventsFirst(WriterSetup(TABLE));
    StreamGrows(TABLE, TableEvents(), log);
    TableStream(TABLE, TableEvents());
    TableSticks(TABLE_READER, Stream(TABLE, log));
  }
}
