/**
 * What is reachable from the roots, by the types and the layout of the heap alone, and when the
 * traversal visits exactly that.
 */
module Reachability {
  import opened Traversal
  import opened Walk
  import opened Layout
  import opened Entries

  /** The places one step away: array elements, fields, and the target of a followed pointer. */
  ghost predicate Child(c: Setup, p: Item, q: Item)
  {
    match p.ty
    case Pointer(t) => Follows(c, p.ty, PtrAt(c.mem, p.loc)) && q == Item(Loc(PtrAt(c.mem, p.loc), 0), c.env(t))
    case Array(n, b) => exists k: nat :: k < n && q == Laid(p.loc, b, k)
    case Struct(_, fields) => exists k: nat :: k < |fields| && q == Member(p.loc, fields, k)
    case _ => false
  }

  ghost predicate Path(c: Setup, roots: seq<Root>, path: seq<Item>)
  {
    path != [] && IsRoot(roots, path[0]) && forall i :: 0 < i < |path| ==> Leads(c, path, i)
  }

  ghost predicate Leads(c: Setup, path: seq<Item>, i: nat)
    requires 0 < i < |path|
  {
    Child(c, path[i - 1], path[i])
  }

  ghost predicate Reached(c: Setup, roots: seq<Root>, it: Item)
  {
    exists path :: Path(c, roots, path) && path[|path| - 1] == it
  }

  ghost predicate Points(c: Setup, roots: seq<Root>, it: Item, x: Addr)
  {
    x != 0 && Reached(c, roots, it) && IsPtr(it.ty) && PtrAt(c.mem, it.loc) == x
  }

  /** A non-null value of some reachable pointer. */
  ghost predicate Targeted(c: Setup, roots: seq<Root>, x: Addr)
  {
    exists it :: Points(c, roots, it, x)
  }

  /** All reachable pointers to an address lead to the same place, or none of them is followed. */
  ghost predicate EnteredAlike(c: Setup, roots: seq<Root>)
  {
    forall it, it', x :: Points(c, roots, it, x) && Points(c, roots, it', x) ==> SameEntry(c, it.ty, it'.ty, x)
  }

  /** The stride of an array is right wherever it is reachable. */
  ghost predicate StridesRight(c: Setup, roots: seq<Root>)
  {
    forall it :: Reached(c, roots, it) && it.ty.Array? ==> RightStride(it.ty.base, it.ty.len)
  }

  lemma RootReached(c: Setup, roots: seq<Root>, it: Item)
    requires IsRoot(roots, it)
    ensures Reached(c, roots, it)
  {
    assert Path(c, roots, [it]);
  }

  lemma ChildReached(c: Setup, roots: seq<Root>, p: Item, q: Item)
    requires Reached(c, roots, p) && Child(c, p, q)
    ensures Reached(c, roots, q)
  {
    var path :| Path(c, roots, path) && path[|path| - 1] == p;
    var path' := path + [q];
    forall i | 0 < i < |path'|
      ensures Leads(c, path', i)
    {
      assert i < |path| ==> Leads(c, path, i);
    }
    assert Path(c, roots, path');
  }

  // ----- the walk and the layout

  /** The code steps from `p` as the layout says. */
  ghost predicate SameSteps(c: Setup, p: Item)
  {
    forall q :: Child(c, p, q) <==> Onward(c, p, q)
  }

  lemma RightSteps(c: Setup, p: Item)
    ensures SameSteps(c, p) <==> (p.ty.Array? ==> RightStride(p.ty.base, p.ty.len))
  {
    if p.ty.Array? {
      var n, base := p.ty.len, p.ty.base;
      StrideExact(p.loc, base, n);
      if RightStride(base, n) {
        forall q
          ensures Child(c, p, q) <==> Onward(c, p, q)
        {
        }
      } else {
        var q := WrongStride(p.loc, base, n);
        assert Child(c, p, q) != Onward(c, p, q);
      }
    }
  }

  /** From reachable places the code steps as the layout says exactly when all their arrays have right strides. */
  lemma StepsExact(c: Setup, roots: seq<Root>)
    ensures (forall p :: Reached(c, roots, p) ==> SameSteps(c, p)) <==> StridesRight(c, roots)
  {
    forall p | Reached(c, roots, p)
      ensures SameSteps(c, p) <==> (p.ty.Array? ==> RightStride(p.ty.base, p.ty.len))
    {
      RightSteps(c, p);
    }
  }

  lemma {:induction false} TrailReached(c: Setup, roots: seq<Root>, path: seq<Item>, k: nat)
    requires StridesRight(c, roots) && Trail(c, roots, path) && k < |path|
    ensures Reached(c, roots, path[k])
  {
    if k == 0 {
      RootReached(c, roots, path[0]);
    } else {
      TrailReached(c, roots, path, k - 1);
      RightSteps(c, path[k - 1]);
      assert Step(c, path, k);
      ChildReached(c, roots, path[k - 1], path[k]);
    }
  }

  lemma {:induction false} PathWalked(c: Setup, roots: seq<Root>, path: seq<Item>, k: nat)
    requires StridesRight(c, roots) && Path(c, roots, path) && k < |path|
    ensures Walked(c, roots, path[k]) && Reached(c, roots, path[k])
  {
    if k == 0 {
      RootReached(c, roots, path[0]);
      assert Trail(c, roots, [path[0]]);
    } else {
      PathWalked(c, roots, path, k - 1);
      RightSteps(c, path[k - 1]);
      assert Leads(c, path, k);
      ChildReached(c, roots, path[k - 1], path[k]);
      OnwardWalked(c, roots, path[k - 1], path[k]);
    }
  }

  /** With right strides the code walks where the layout leads. */
  lemma SameReach(c: Setup, roots: seq<Root>)
    requires StridesRight(c, roots)
    ensures forall it :: Reached(c, roots, it) <==> Walked(c, roots, it)
  {
    forall it
      ensures Reached(c, roots, it) <==> Walked(c, roots, it)
    {
      if Reached(c, roots, it) {
        var path :| Path(c, roots, path) && path[|path| - 1] == it;
        PathWalked(c, roots, path, |path| - 1);
      }
      if Walked(c, roots, it) {
        var path :| Trail(c, roots, path) && path[|path| - 1] == it;
        TrailReached(c, roots, path, |path| - 1);
      }
    }
  }

  lemma SameTargets(c: Setup, roots: seq<Root>)
    requires StridesRight(c, roots)
    ensures forall it, x :: Points(c, roots, it, x) <==> Aims(c, roots, it, x)
    ensures forall x :: Targeted(c, roots, x) <==> Aimed(c, roots, x)
    ensures EnteredAlike(c, roots) <==> AimedAlike(c, roots)
  {
    SameReach(c, roots);
    forall it, x
      ensures Points(c, roots, it, x) <==> Aims(c, roots, it, x)
    {
    }
    forall x
      ensures Targeted(c, roots, x) <==> Aimed(c, roots, x)
    {
      if Targeted(c, roots, x) {
        var it :| Points(c, roots, it, x);
        assert Aims(c, roots, it, x);
      }
      if Aimed(c, roots, x) {
        var it :| Aims(c, roots, it, x);
        assert Points(c, roots, it, x);
      }
    }
  }

  // ----- what is visited

  /** Every call of visit is on a reachable place and every mapped address is a reachable target. */
  lemma TraverseSound(c: Setup, roots: seq<Root>)
    requires Proper(c) && StridesRight(c, roots)
    ensures forall it :: Visited(Traverse(c, roots).log, it) ==> Reached(c, roots, it)
    ensures forall x :: x in Traverse(c, roots).mapping ==> Targeted(c, roots, x)
  {
    WalkSound(c, roots);
    SameReach(c, roots);
    SameTargets(c, roots);
  }

  /** The roots and whatever a visited place leads to are visited. */
  lemma TraverseCloses(c: Setup, roots: seq<Root>)
    requires Proper(c) && StridesRight(c, roots) && EnteredAlike(c, roots)
    ensures forall it :: IsRoot(roots, it) ==> Visited(Traverse(c, roots).log, it)
    ensures forall p, q :: Visited(Traverse(c, roots).log, p) && Child(c, p, q) ==> Visited(Traverse(c, roots).log, q)
  {
    var r := Traverse(c, roots);
    SameTargets(c, roots);
    WalkCloses(c, roots);
    TraverseSound(c, roots);
    forall p, q | Visited(r.log, p) && Child(c, p, q)
      ensures Visited(r.log, q)
    {
      RightSteps(c, p);
      OnwardVisited(c, r, p, q);
    }
  }

  /**
   * A traversal of any finite heap, cyclic or shared, visits exactly the reachable places, maps
   * exactly the reachable non-null targets, each to its image, and makes the first-visit callback
   * exactly once on each of them, provided that the arrays have right strides and all pointers to an
   * address lead to the same place.
   */
  lemma VisitsExactlyTheReachable(c: Setup, roots: seq<Root>)
    requires Proper(c) && StridesRight(c, roots) && EnteredAlike(c, roots)
    ensures forall it :: Visited(Traverse(c, roots).log, it) <==> Reached(c, roots, it)
    ensures forall x :: x in Traverse(c, roots).mapping <==> Targeted(c, roots, x)
    ensures forall x :: x in Traverse(c, roots).mapping ==> Traverse(c, roots).mapping[x] == c.image(x)
    ensures forall x :: x != 0 ==> FirstCalls(Traverse(c, roots).log, x) == if Targeted(c, roots, x) then 1 else 0
  {
    SameReach(c, roots);
    SameTargets(c, roots);
    VisitsExactlyTheWalked(c, roots);
  }

  // ----- addresses with more than one place behind them

  /** A root, or an element or field of a reachable place. */
  ghost predicate Part(c: Setup, roots: seq<Root>, it: Item)
  {
    IsRoot(roots, it) || exists p :: Reached(c, roots, p) && !p.ty.Pointer? && Child(c, p, it)
  }

  /** The place that a pointer of type `ty` to `x` leads to. */
  function Entry(c: Setup, ty: Ty, x: Addr): Item
    requires ty.Pointer?
  {
    Item(Loc(x, 0), c.env(ty.target))
  }

  /** Nothing but pointers leads to the places behind reachable pointers. */
  ghost predicate Detached(c: Setup, roots: seq<Root>)
  {
    forall it, x :: Points(c, roots, it, x) && Follows(c, it.ty, x) ==> !Part(c, roots, Entry(c, it.ty, x))
  }

  /** Of the reachable pointers to an address all are followed, or none. */
  ghost predicate FollowedAlike(c: Setup, roots: seq<Root>)
  {
    forall it, it', x :: Points(c, roots, it, x) && Points(c, roots, it', x) ==>
      Follows(c, it.ty, x) == Follows(c, it'.ty, x)
  }

  lemma HeldIsPart(c: Setup, roots: seq<Root>, it: Item)
    requires StridesRight(c, roots) && Held(c, roots, it)
    ensures Part(c, roots, it)
  {
    if !IsRoot(roots, it) {
      SameReach(c, roots);
      var p :| Walked(c, roots, p) && Holds(p, it);
      assert Onward(c, p, it);
      RightSteps(c, p);
    }
  }

  lemma EntryReached(c: Setup, roots: seq<Root>, it: Item, x: Addr)
    requires Points(c, roots, it, x) && Follows(c, it.ty, x)
    ensures Reached(c, roots, Entry(c, it.ty, x))
  {
    assert Child(c, it, Entry(c, it.ty, x));
    ChildReached(c, roots, it, Entry(c, it.ty, x));
  }

  /** Of two places behind an address, to which nothing else leads, one is reachable and not visited. */
  lemma PlaceMissed(c: Setup, roots: seq<Root>, it: Item, it': Item, x: Addr) returns (q: Item)
    requires Proper(c) && StridesRight(c, roots) && Points(c, roots, it, x) && Points(c, roots, it', x)
    requires Follows(c, it.ty, x) && Follows(c, it'.ty, x) && c.env(it.ty.target) != c.env(it'.ty.target)
    requires !Part(c, roots, Entry(c, it.ty, x)) && !Part(c, roots, Entry(c, it'.ty, x))
    ensures Reached(c, roots, q) && !Visited(Traverse(c, roots).log, q)
  {
    var p, p' := Entry(c, it.ty, x), Entry(c, it'.ty, x);
    EntryReached(c, roots, it, x);
    EntryReached(c, roots, it', x);
    assert !Held(c, roots, p) by {
      if Held(c, roots, p) {
        HeldIsPart(c, roots, p);
      }
    }
    assert !Held(c, roots, p') by {
      if Held(c, roots, p') {
        HeldIsPart(c, roots, p');
      }
    }
    OneIsMissed(c, roots, p, p');
    q := if Visited(Traverse(c, roots).log, p) then p' else p;
  }

  /**
   * In heaps where only pointers lead to the objects, and the pointers to an address are all followed
   * or none is, exactly the reachable places are visited if and only if the pointers to an address all
   * lead to the same place.
   */
  lemma ExactlyWhenAlike(c: Setup, roots: seq<Root>)
    requires Proper(c) && StridesRight(c, roots) && Detached(c, roots) && FollowedAlike(c, roots)
    ensures (forall it :: Visited(Traverse(c, roots).log, it) <==> Reached(c, roots, it)) <==> EnteredAlike(c, roots)
  {
    if EnteredAlike(c, roots) {
      VisitsExactlyTheReachable(c, roots);
    } else {
      var it, it', x :| Points(c, roots, it, x) && Points(c, roots, it', x) && !SameEntry(c, it.ty, it'.ty, x);
      var q := PlaceMissed(c, roots, it, it', x);
    }
  }
}
