/**
 * The assumptions of the serializer's theorem can be met, here by a cyclic heap.
 */
module Instances {
  import opened Bytes
  import opened Traversal
  import opened Serializer
  import opened Walk
  import opened Reachability
  import opened PointerCells
  import opened RoundTrip

  // ----- two nodes that point to each other, and a root that points to the first

  const NODE: Ty := Struct(16, [Field(0, Prim(8)), Field(8, Pointer(0))])

  const TYPES: Types := Types((t: TypeId) => if t == 0 then NODE else Prim(1), 1)

  const HEAP: Memory := Memory(
    map[Loc(100, 0) := 1000, Loc(1000, 8) := 2000, Loc(2000, 8) := 1000],
    map[Loc(1000, 0) := [1, 0, 0, 0, 0, 0, 0, 0], Loc(2000, 0) := [2, 0, 0, 0, 0, 0, 0, 0]],
    map[])

  const WRITER: Writer := Writer(HEAP, TYPES, map[])

  const READER: Serializer.Target := Serializer.Target(TYPES, map[], (i: nat) => 5000 + i)

  const ROOTS: seq<Root> := [Root(Loc(100, 0), Pointer(0), Loc(100, 0))]

  function CyclicWorld(): World
  {
    World(WRITER, READER, ROOTS, map[100 := 200], WriterSetup(WRITER))
  }

  /** The places of the cyclic heap. */
  ghost predicate Listed(it: Item)
  {
    || it == Item(Loc(100, 0), Pointer(0))
    || it == Item(Loc(1000, 0), NODE) || it == Item(Loc(1000, 0), Prim(8)) || it == Item(Loc(1000, 8), Pointer(0))
    || it == Item(Loc(2000, 0), NODE) || it == Item(Loc(2000, 0), Prim(8)) || it == Item(Loc(2000, 8), Pointer(0))
  }

  lemma ListedChild(p: Item, q: Item)
    requires Listed(p) && Child(WriterSetup(WRITER), p, q)
    ensures Listed(q)
  {
    if p.ty == NODE {
      var k: nat :| k < |NODE.fields| && q == Member(p.loc, NODE.fields, k);
      assert k == 0 || k == 1;
    }
  }

  lemma {:induction false} ListedPath(path: seq<Item>, i: nat)
    requires Path(WriterSetup(WRITER), ROOTS, path) && i < |path|
    ensures Listed(path[i])
  {
    if i > 0 {
      ListedPath(path, i - 1);
      assert Leads(WriterSetup(WRITER), path, i);
      ListedChild(path[i - 1], path[i]);
    }
  }

  lemma ReachedIsListed(it: Item)
    requires Reached(WriterSetup(WRITER), ROOTS, it)
    ensures Listed(it)
  {
    var path :| Path(WriterSetup(WRITER), ROOTS, path) && path[|path| - 1] == it;
    ListedPath(path, |path| - 1);
  }

  lemma NodeIsValid()
    ensures ValidTy(NODE)
  {
    TwoFieldsValid(NODE.fields, 16);
  }

  lemma TwoFieldsValid(fields: seq<Field>, size: nat)
    requires |fields| == 2 && ValidTy(fields[0].ty) && ValidTy(fields[1].ty)
    requires fields[0].offset + Size(fields[0].ty) <= fields[1].offset && fields[1].offset + Size(fields[1].ty) <= size
    ensures ValidFields(fields, 0, size)
  {
    var rest := fields[1..];
    assert rest[1..] == [] && rest[0] == fields[1];
    assert ValidFields(rest[1..], rest[0].offset + Size(rest[0].ty), size);
    assert ValidFields(rest, fields[0].offset + Size(fields[0].ty), size);
  }

  lemma TargetsOfHeap(x: Addr)
    requires x in HEAP.ptrs.Values
    ensures x == 1000 || x == 2000
  {
  }

  lemma AddressesFit(x: Addr)
    requires x in HEAP.ptrs.Values
    ensures x < Pow256(8) && x != SER_SYMBOL
  {
    TargetsOfHeap(x);
    assert Pow256(2) == 65536;
    assert Pow256(5) >= Pow256(4) >= Pow256(3) >= Pow256(2);
    assert Pow256(8) >= Pow256(7) >= Pow256(6) >= Pow256(5);
  }

  lemma HeapIsGood()
    ensures GoodHeap(CyclicWorld())
  {
    var k := CyclicWorld();
    forall x | x in HEAP.ptrs.Values
      ensures x < Pow256(8) && x != SER_SYMBOL
    {
      AddressesFit(x);
    }
    forall it | Reached(k.c, k.roots, it)
      ensures GoodItem(k, it)
    {
      ReachedIsListed(it);
    }
  }

  lemma AllocIsGood()
    ensures GoodAlloc(CyclicWorld())
  {
    forall x | x in HEAP.ptrs.Values
      ensures x < 5000
    {
      TargetsOfHeap(x);
    }
  }

  /** The serializer's theorem applies to the cyclic heap. */
  lemma CyclicWorldIsGood()
    ensures GoodWorld(CyclicWorld()) && GoodRoots(CyclicWorld())
  {
    var k := CyclicWorld();
    NodeIsValid();
    HeapIsGood();
    AllocIsGood();
    forall it | Reached(k.c, k.roots, it) && IsPtr(it.ty)
      ensures it.ty == Pointer(0)
    {
      ReachedIsListed(it);
    }
    assert EnteredAlike(k.c, k.roots);
  }
}
