/**
 * The bottom-up merge sort behind HASH_SRT, on sequences: one pass merges neighbouring blocks,
 * and passes with doubled block size are made until one merge covers the list.
 */
module StableSort {
  import opened Ordering

  /** The merge of two sorted runs; on a tie the left one goes first. */
  function Merge<T>(p: seq<T>, q: seq<T>, cmp: (T, T) -> int): (r: seq<T>)
    ensures |r| == |p| + |q|
    decreases |p| + |q|
  {
    if p == [] then q
    else if q == [] then p
    else if cmp(p[0], q[0]) <= 0 then [p[0]] + Merge(p[1..], q, cmp)
    else [q[0]] + Merge(p, q[1..], cmp)
  }

  function Min(a: nat, b: nat): nat { if a < b then a else b }

  /** One pass: merge each pair of neighbouring blocks of `k`. */
  function Pass<T>(s: seq<T>, k: nat, cmp: (T, T) -> int): (r: seq<T>)
    requires k > 0
    ensures |r| == |s|
    decreases |s|
  {
    if |s| <= k then s
    else Merge(s[..k], s[k..Min(2 * k, |s|)], cmp) + Pass(s[Min(2 * k, |s|)..], k, cmp)
  }

  /** All passes, from block size `k` on. */
  function Sort<T>(s: seq<T>, k: nat, cmp: (T, T) -> int): (r: seq<T>)
    requires k > 0
    ensures |r| == |s|
    decreases if |s| <= 2 * k then 0 else |s| - k
  {
    if |s| <= 2 * k then Pass(s, k, cmp) else Sort(Pass(s, k, cmp), 2 * k, cmp)
  }

  /** Every block of `k` is sorted. */
  ghost predicate Blocks<T>(s: seq<T>, k: nat, cmp: (T, T) -> int)
    requires k > 0
    decreases |s|
  {
    if |s| <= k then Sorted(s, cmp) else Sorted(s[..k], cmp) && Blocks(s[k..], k, cmp)
  }

  /** The elements that compare equal to `x`, in order. */
  ghost function Class<T>(s: seq<T>, x: T, cmp: (T, T) -> int): seq<T>
  {
    if s == [] then [] else (if cmp(s[0], x) == 0 then [s[0]] else []) + Class(s[1..], x, cmp)
  }

  /** `r` is the stable sort of `s`: sorted, and each class of equal elements in its old order. */
  ghost predicate StablySorted<T(!new)>(s: seq<T>, r: seq<T>, cmp: (T, T) -> int)
  {
    Sorted(r, cmp) && multiset(r) == multiset(s) && forall x :: Class(r, x, cmp) == Class(s, x, cmp)
  }

  // ----- classes

  lemma {:induction false} ClassConcat<T>(a: seq<T>, b: seq<T>, x: T, cmp: (T, T) -> int)
    ensures Class(a + b, x, cmp) == Class(a, x, cmp) + Class(b, x, cmp)
  {
    if a == [] {
      assert a + b == b;
    } else {
      assert (a + b)[1..] == a[1..] + b;
      ClassConcat(a[1..], b, x, cmp);
      var h := if cmp(a[0], x) == 0 then [a[0]] else [];
      assert Class(a + b, x, cmp) == h + (Class(a[1..], x, cmp) + Class(b, x, cmp));
    }
  }

  lemma {:induction false} ClassEmpty<T>(s: seq<T>, x: T, cmp: (T, T) -> int)
    requires forall i :: 0 <= i < |s| ==> cmp(s[i], x) != 0
    ensures Class(s, x, cmp) == []
  {
    if s != [] {
      ClassEmpty(s[1..], x, cmp);
    }
  }

  // ----- merging

  lemma {:induction false} MergeBag<T>(p: seq<T>, q: seq<T>, cmp: (T, T) -> int)
    ensures multiset(Merge(p, q, cmp)) == multiset(p) + multiset(q)
    decreases |p| + |q|
  {
    if p != [] && q != [] {
      if cmp(p[0], q[0]) <= 0 {
        assert p == [p[0]] + p[1..];
        MergeBag(p[1..], q, cmp);
      } else {
        assert q == [q[0]] + q[1..];
        MergeBag(p, q[1..], cmp);
      }
    }
  }

  /** A lower bound of both runs is a lower bound of the merge. */
  lemma {:induction false} MergeBound<T>(p: seq<T>, q: seq<T>, cmp: (T, T) -> int, x: T)
    requires forall i :: 0 <= i < |p| ==> cmp(x, p[i]) <= 0
    requires forall i :: 0 <= i < |q| ==> cmp(x, q[i]) <= 0
    ensures forall i :: 0 <= i < |Merge(p, q, cmp)| ==> cmp(x, Merge(p, q, cmp)[i]) <= 0
    decreases |p| + |q|
  {
    if p != [] && q != [] {
      if cmp(p[0], q[0]) <= 0 {
        MergeBound(p[1..], q, cmp, x);
      } else {
        MergeBound(p, q[1..], cmp, x);
      }
    }
  }

  lemma SortedCons<T>(x: T, s: seq<T>, cmp: (T, T) -> int)
    requires Sorted(s, cmp) && forall i :: 0 <= i < |s| ==> cmp(x, s[i]) <= 0
    ensures Sorted([x] + s, cmp)
  {
  }

  lemma SortedTail<T>(s: seq<T>, cmp: (T, T) -> int)
    requires Sorted(s, cmp) && s != []
    ensures Sorted(s[1..], cmp) && forall i :: 0 < i < |s| ==> cmp(s[0], s[i]) <= 0
  {
  }

  /** The smaller head of two sorted runs is a lower bound of both. */
  lemma HeadBound<T(!new)>(p: seq<T>, q: seq<T>, cmp: (T, T) -> int)
    requires Preorder(cmp) && Sorted(p, cmp) && Sorted(q, cmp) && p != [] && q != [] && cmp(p[0], q[0]) <= 0
    ensures forall i :: 0 <= i < |p| ==> cmp(p[0], p[i]) <= 0
    ensures forall i :: 0 <= i < |q| ==> cmp(p[0], q[i]) <= 0
  {
    Flip(cmp, p[0], p[0]);
    forall i | 0 <= i < |q|
      ensures cmp(p[0], q[i]) <= 0
    {
      if i > 0 {
        Trans(cmp, p[0], q[0], q[i]);
      }
    }
  }

  lemma {:induction false} MergeSorted<T(!new)>(p: seq<T>, q: seq<T>, cmp: (T, T) -> int)
    requires Preorder(cmp) && Sorted(p, cmp) && Sorted(q, cmp)
    ensures Sorted(Merge(p, q, cmp), cmp)
    decreases |p| + |q|
  {
    if p != [] && q != [] {
      Flip(cmp, p[0], q[0]);
      if cmp(p[0], q[0]) <= 0 {
        HeadBound(p, q, cmp);
        MergeSorted(p[1..], q, cmp);
        MergeBound(p[1..], q, cmp, p[0]);
        SortedCons(p[0], Merge(p[1..], q, cmp), cmp);
      } else {
        HeadBound(q, p, cmp);
        MergeSorted(p, q[1..], cmp);
        MergeBound(p, q[1..], cmp, q[0]);
        SortedCons(q[0], Merge(p, q[1..], cmp), cmp);
      }
    }
  }

  /** When the right head goes first, nothing in the left run is equal to it. */
  lemma RightFirst<T(!new)>(p: seq<T>, y: T, x: T, cmp: (T, T) -> int)
    requires Preorder(cmp) && Sorted(p, cmp) && p != [] && cmp(p[0], y) > 0 && cmp(y, x) == 0
    ensures Class(p, x, cmp) == []
  {
    forall i | 0 <= i < |p|
      ensures cmp(p[i], x) != 0
    {
      Flip(cmp, p[0], y);
      Flip(cmp, x, y);
      Flip(cmp, p[0], p[0]);
      Trans(cmp, y, p[0], p[i]);
      Trans(cmp, x, y, p[i]);
      Flip(cmp, x, p[i]);
    }
    ClassEmpty(p, x, cmp);
  }

  lemma {:induction false} ClassMerge<T(!new)>(p: seq<T>, q: seq<T>, x: T, cmp: (T, T) -> int)
    requires Preorder(cmp) && Sorted(p, cmp) && Sorted(q, cmp)
    ensures Class(Merge(p, q, cmp), x, cmp) == Class(p, x, cmp) + Class(q, x, cmp)
    decreases |p| + |q|
  {
    if p != [] && q != [] {
      var r := Merge(p, q, cmp);
      if cmp(p[0], q[0]) <= 0 {
        assert r[1..] == Merge(p[1..], q, cmp);
        ClassMerge(p[1..], q, x, cmp);
      } else {
        assert r[1..] == Merge(p, q[1..], cmp);
        ClassMerge(p, q[1..], x, cmp);
        if cmp(q[0], x) == 0 {
          RightFirst(p, q[0], x, cmp);
        }
      }
    }
  }

  // ----- passes

  lemma ThreeParts<T>(s: seq<T>, k: nat, m: nat)
    requires k <= m <= |s|
    ensures s == s[..k] + s[k..m] + s[m..]
    ensures multiset(s) == multiset(s[..k]) + multiset(s[k..m]) + multiset(s[m..])
  {
    assert s == s[..k] + s[k..m] + s[m..];
  }

  lemma SumBag<T>(a: seq<T>, b: seq<T>)
    ensures multiset(a + b) == multiset(a) + multiset(b)
  {
  }

  /** The first pair of blocks and the rest. */
  lemma BlocksSplit<T>(s: seq<T>, k: nat, cmp: (T, T) -> int)
    requires k > 0 && |s| > k && Blocks(s, k, cmp)
    ensures var m := Min(2 * k, |s|);
            Sorted(s[..k], cmp) && Sorted(s[k..m], cmp) && Blocks(s[m..], k, cmp) && s == s[..k] + s[k..m] + s[m..]
  {
    var m := Min(2 * k, |s|);
    ThreeParts(s, k, m);
    if |s| <= 2 * k {
      assert s[k..m] == s[k..] && s[m..] == [];
    } else {
      assert s[k..][..k] == s[k..m] && s[k..][k..] == s[m..];
    }
  }

  lemma {:induction false} PassSorts<T(!new)>(s: seq<T>, k: nat, cmp: (T, T) -> int)
    requires Preorder(cmp) && k > 0 && Blocks(s, k, cmp)
    ensures Blocks(Pass(s, k, cmp), 2 * k, cmp)
    decreases |s|
  {
    if |s| > k {
      var m := Min(2 * k, |s|);
      BlocksSplit(s, k, cmp);
      MergeSorted(s[..k], s[k..m], cmp);
      var a, b := Merge(s[..k], s[k..m], cmp), Pass(s[m..], k, cmp);
      PassSorts(s[m..], k, cmp);
      if |s| <= 2 * k {
        assert a + b == a;
      } else {
        assert (a + b)[..2 * k] == a && (a + b)[2 * k..] == b;
      }
    }
  }

  lemma {:induction false} PassStable<T(!new)>(s: seq<T>, k: nat, x: T, cmp: (T, T) -> int)
    requires Preorder(cmp) && k > 0 && Blocks(s, k, cmp)
    ensures Class(Pass(s, k, cmp), x, cmp) == Class(s, x, cmp)
    decreases |s|
  {
    if |s| > k {
      var m := Min(2 * k, |s|);
      BlocksSplit(s, k, cmp);
      ClassMerge(s[..k], s[k..m], x, cmp);
      ClassConcat(Merge(s[..k], s[k..m], cmp), Pass(s[m..], k, cmp), x, cmp);
      PassStable(s[m..], k, x, cmp);
      ClassConcat(s[..k], s[k..m], x, cmp);
      ClassConcat(s[..k] + s[k..m], s[m..], x, cmp);
    }
  }

  lemma {:induction false} PassBag<T>(s: seq<T>, k: nat, cmp: (T, T) -> int)
    requires k > 0
    ensures multiset(Pass(s, k, cmp)) == multiset(s)
    decreases |s|
  {
    if |s| > k {
      var m := Min(2 * k, |s|);
      MergeBag(s[..k], s[k..m], cmp);
      PassBag(s[m..], k, cmp);
      ThreeParts(s, k, m);
      SumBag(Merge(s[..k], s[k..m], cmp), Pass(s[m..], k, cmp));
    }
  }

  lemma {:induction false} OnesAreBlocks<T>(s: seq<T>, cmp: (T, T) -> int)
    ensures Blocks(s, 1, cmp)
    decreases |s|
  {
    if |s| > 1 {
      OnesAreBlocks(s[1..], cmp);
    }
  }

  lemma {:induction false} SortIsStable<T(!new)>(s: seq<T>, k: nat, cmp: (T, T) -> int)
    requires Preorder(cmp) && k > 0 && Blocks(s, k, cmp)
    ensures StablySorted(s, Sort(s, k, cmp), cmp)
    decreases if |s| <= 2 * k then 0 else |s| - k
  {
    var r := Pass(s, k, cmp);
    PassSorts(s, k, cmp);
    PassBag(s, k, cmp);
    forall x
      ensures Class(r, x, cmp) == Class(s, x, cmp)
    {
      PassStable(s, k, x, cmp);
    }
    if |s| > 2 * k {
      SortIsStable(r, 2 * k, cmp);
    }
  }

  /** The merge sort yields the stable sort of its input. */
  lemma SortCorrect<T(!new)>(s: seq<T>, cmp: (T, T) -> int)
    requires Preorder(cmp)
    ensures StablySorted(s, Sort(s, 1, cmp), cmp)
  {
    OnesAreBlocks(s, cmp);
    SortIsStable(s, 1, cmp);
  }

  // ----- a stable sort is unique

  lemma {:induction false} ClassMember<T>(s: seq<T>, x: T, cmp: (T, T) -> int, y: T)
    ensures y in Class(s, x, cmp) <==> y in s && cmp(y, x) == 0
  {
    if s != [] {
      assert s == [s[0]] + s[1..];
      ClassMember(s[1..], x, cmp, y);
    }
  }

  lemma SameHead<T(!new)>(r: seq<T>, t: seq<T>, cmp: (T, T) -> int)
    requires Preorder(cmp) && Sorted(r, cmp) && Sorted(t, cmp) && r != []
    requires forall x :: Class(r, x, cmp) == Class(t, x, cmp)
    ensures t != [] && r[0] == t[0]
  {
    Flip(cmp, r[0], r[0]);
    assert r[0] in Class(r, r[0], cmp);
    ClassMember(t, r[0], cmp, r[0]);
    var j :| 0 <= j < |t| && t[j] == r[0];
    Flip(cmp, t[0], t[0]);
    ClassMember(r, t[0], cmp, t[0]);
    assert t[0] in Class(t, t[0], cmp);
    var i :| 0 <= i < |r| && r[i] == t[0];
    Flip(cmp, t[0], r[0]);
    assert cmp(t[0], r[0]) == 0;
    assert Class(r, r[0], cmp)[0] == r[0] && Class(t, r[0], cmp)[0] == t[0];
  }

  lemma {:induction false} StableSortUnique<T(!new)>(r: seq<T>, t: seq<T>, cmp: (T, T) -> int)
    requires Preorder(cmp) && Sorted(r, cmp) && Sorted(t, cmp)
    requires forall x :: Class(r, x, cmp) == Class(t, x, cmp)
    ensures r == t
    decreases |r|
  {
    if r == [] {
      if t != [] {
        SameHead(t, r, cmp);
      }
    } else {
      SameHead(r, t, cmp);
      forall x
        ensures Class(r[1..], x, cmp) == Class(t[1..], x, cmp)
      {
        assert Class(r, x, cmp) == Class(t, x, cmp);
        var h := if cmp(r[0], x) == 0 then [r[0]] else [];
        assert Class(r, x, cmp) == h + Class(r[1..], x, cmp) && Class(t, x, cmp) == h + Class(t[1..], x, cmp);
        DropHead(h, Class(r[1..], x, cmp), Class(t[1..], x, cmp));
      }
      SortedTail(r, cmp);
      SortedTail(t, cmp);
      StableSortUnique(r[1..], t[1..], cmp);
      assert r == [r[0]] + r[1..] && t == [t[0]] + t[1..];
    }
  }

  lemma DropHead<T>(h: seq<T>, a: seq<T>, b: seq<T>)
    requires h + a == h + b
    ensures a == b
  {
    assert a == (h + a)[|h|..] && b == (h + b)[|h|..];
  }
}
