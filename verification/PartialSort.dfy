/**
 * The partial quicksort of pqsort.c, with elements as units: three-way partitioning in place, a
 * switch to insertion sort, and no work on parts that lie outside the wanted range.
 */
module PartialSort {

  import opened Ordering

  /** Everything before position `i` is no greater than its element, everything after no smaller. */
  ghost predicate Placed<T>(s: seq<T>, cmp: (T, T) -> int, i: nat)
    requires i < |s|
  {
    && (forall j :: 0 <= j < i ==> cmp(s[j], s[i]) <= 0)
    && (forall j :: i < j < |s| ==> cmp(s[i], s[j]) <= 0)
  }

  // ----- a placed element is what a full sort puts there

  /** How many elements are smaller than `x`. */
  ghost function Below<T>(s: seq<T>, cmp: (T, T) -> int, x: T): nat
  {
    if s == [] then 0 else Below(s[..|s| - 1], cmp, x) + if cmp(s[|s| - 1], x) < 0 then 1 else 0
  }

  lemma {:induction false} BelowConcat<T>(a: seq<T>, b: seq<T>, cmp: (T, T) -> int, x: T)
    ensures Below(a + b, cmp, x) == Below(a, cmp, x) + Below(b, cmp, x)
  {
    if b == [] {
      assert a + b == a;
    } else {
      assert (a + b)[..|a + b| - 1] == a + b[..|b| - 1];
      BelowConcat(a, b[..|b| - 1], cmp, x);
    }
  }

  lemma {:induction false} BelowBound<T>(s: seq<T>, cmp: (T, T) -> int, x: T)
    ensures Below(s, cmp, x) <= |s|
    ensures (forall i :: 0 <= i < |s| ==> cmp(s[i], x) >= 0) ==> Below(s, cmp, x) == 0
    ensures (forall i :: 0 <= i < |s| ==> cmp(s[i], x) < 0) ==> Below(s, cmp, x) == |s|
  {
    if s != [] {
      BelowBound(s[..|s| - 1], cmp, x);
    }
  }

  /** The sequence without its element at `j`. */
  function Without<T>(t: seq<T>, j: nat): seq<T>
    requires j < |t|
  {
    t[..j] + t[j + 1..]
  }

  lemma WithoutBag<T>(t: seq<T>, j: nat)
    requires j < |t|
    ensures multiset(Without(t, j)) == multiset(t) - multiset{t[j]}
  {
    assert t == t[..j] + [t[j]] + t[j + 1..];
  }

  lemma BelowWithout<T>(t: seq<T>, j: nat, cmp: (T, T) -> int, x: T)
    requires j < |t|
    ensures Below(t, cmp, x) == Below(Without(t, j), cmp, x) + if cmp(t[j], x) < 0 then 1 else 0
  {
    var a, y, b := t[..j], t[j], t[j + 1..];
    TakeApart(t, j);
    BelowInsert(a, y, b, cmp, x);
    assert Below(t, cmp, x) == Below(a + ([y] + b), cmp, x);
  }

  lemma TakeApart<T>(t: seq<T>, j: nat)
    requires j < |t|
    ensures t == t[..j] + ([t[j]] + t[j + 1..])
  {
  }

  lemma BelowInsert<T>(a: seq<T>, y: T, b: seq<T>, cmp: (T, T) -> int, x: T)
    ensures Below(a + ([y] + b), cmp, x) == Below(a + b, cmp, x) + if cmp(y, x) < 0 then 1 else 0
  {
    BelowOne(y, cmp, x);
    BelowConcat([y], b, cmp, x);
    BelowConcat(a, [y] + b, cmp, x);
    BelowConcat(a, b, cmp, x);
  }

  lemma BelowOne<T>(y: T, cmp: (T, T) -> int, x: T)
    ensures Below([y], cmp, x) == if cmp(y, x) < 0 then 1 else 0
  {
    assert [y][..0] == [];
  }

  /** Counting does not depend on the order. */
  lemma {:induction false} BelowPermuted<T>(s: seq<T>, t: seq<T>, cmp: (T, T) -> int, x: T)
    requires multiset(s) == multiset(t)
    ensures Below(s, cmp, x) == Below(t, cmp, x)
    decreases |s|
  {
    if s == [] {
      assert |multiset(t)| == 0;
    } else {
      var n := |s| - 1;
      assert s[n] in multiset(t);
      var j :| 0 <= j < |t| && t[j] == s[n];
      WithoutBag(s, n);
      WithoutBag(t, j);
      BelowPermuted(Without(s, n), Without(t, j), cmp, x);
      BelowWithout(s, n, cmp, x);
      BelowWithout(t, j, cmp, x);
    }
  }

  /** More than `i` elements are smaller than anything above the element placed at `i`. */
  lemma RankAbove<T(!new)>(s: seq<T>, cmp: (T, T) -> int, i: nat, x: T)
    requires Preorder(cmp) && i < |s| && Placed(s, cmp, i) && cmp(s[i], x) < 0
    ensures Below(s, cmp, x) > i
  {
    var c := s[..i + 1];
    assert s == c + s[i + 1..];
    BelowConcat(c, s[i + 1..], cmp, x);
    forall j | 0 <= j < |c|
      ensures cmp(c[j], x) < 0
    {
      Flip(cmp, s[j], s[i]);
      Trans(cmp, s[j], s[i], x);
    }
    BelowBound(c, cmp, x);
  }

  /** At most `i` elements are smaller than anything not above the element placed at `i`. */
  lemma RankBelow<T(!new)>(s: seq<T>, cmp: (T, T) -> int, i: nat, x: T)
    requires Preorder(cmp) && i < |s| && Placed(s, cmp, i) && cmp(x, s[i]) <= 0
    ensures Below(s, cmp, x) <= i
  {
    var a, b := s[..i], s[i..];
    assert s == a + b;
    BelowConcat(a, b, cmp, x);
    forall j | 0 <= j < |b|
      ensures cmp(b[j], x) >= 0
    {
      Flip(cmp, s[i], s[i]);
      Trans(cmp, x, s[i], s[i + j]);
      Flip(cmp, x, s[i + j]);
    }
    BelowBound(a, cmp, x);
    BelowBound(b, cmp, x);
  }

  /** A placed element compares equal to the element any sorted permutation has at that position. */
  lemma PlacedIsSorted<T(!new)>(s: seq<T>, t: seq<T>, cmp: (T, T) -> int, i: nat)
    requires Preorder(cmp) && multiset(s) == multiset(t) && Sorted(t, cmp) && i < |s| && Placed(s, cmp, i)
    ensures i < |t| && cmp(s[i], t[i]) == 0
  {
    assert |multiset(s)| == |multiset(t)|;
    Flip(cmp, s[i], t[i]);
    Flip(cmp, t[i], s[i]);
    if cmp(s[i], t[i]) < 0 {
      BelowPermuted(s, t, cmp, t[i]);
      RankAbove(s, cmp, i, t[i]);
      RankBelow(t, cmp, i, t[i]);
    } else if cmp(t[i], s[i]) < 0 {
      BelowPermuted(s, t, cmp, s[i]);
      RankAbove(t, cmp, i, s[i]);
      RankBelow(s, cmp, i, s[i]);
    }
  }

  // ----- rearranging a segment

  ghost predicate Mixed(i: int) { true }

  /** `t` is `s` with the elements of the segment from `lo` to `hi` rearranged. */
  ghost predicate Rearranges<T>(s: seq<T>, t: seq<T>, lo: nat, hi: nat)
  {
    && lo <= hi <= |s| && |t| == |s|
    && t[..lo] == s[..lo] && t[hi..] == s[hi..] && multiset(t[lo..hi]) == multiset(s[lo..hi])
  }

  /** `Rearranges`, in view only where `Mixed` is mentioned. */
  ghost predicate Shuffled<T>(s: seq<T>, t: seq<T>, lo: nat, hi: nat)
  {
    (forall i {:trigger Mixed(i)} :: Mixed(i) ==> Rearranges(s, t, lo, hi)) == true
  }

  lemma ShuffleRefl<T>(s: seq<T>, lo: nat, hi: nat)
    requires lo <= hi <= |s|
    ensures Shuffled(s, s, lo, hi)
  {
  }

  lemma ShuffleTrans<T>(s: seq<T>, t: seq<T>, u: seq<T>, lo: nat, hi: nat)
    requires Shuffled(s, t, lo, hi) && Shuffled(t, u, lo, hi)
    ensures Shuffled(s, u, lo, hi)
  {
    assert Mixed(0);
  }

  lemma SplitSegment<T>(s: seq<T>, lo: nat, a: nat, b: nat, hi: nat)
    requires lo <= a <= b <= hi <= |s|
    ensures multiset(s[lo..hi]) == multiset(s[lo..a]) + multiset(s[a..b]) + multiset(s[b..hi])
  {
    assert s[lo..hi] == s[lo..a] + s[a..b] + s[b..hi];
  }

  /** A rearrangement of a segment is one of every longer segment. */
  lemma ShuffleWiden<T>(s: seq<T>, t: seq<T>, a: nat, b: nat, lo: nat, hi: nat)
    requires Shuffled(s, t, a, b) && lo <= a <= b <= hi <= |s|
    ensures Shuffled(s, t, lo, hi)
  {
    assert Mixed(0);
    SplitSegment(s, lo, a, b, hi);
    SplitSegment(t, lo, a, b, hi);
    SliceBefore(s, t, a, lo);
    SliceAfter(s, t, b, hi);
  }

  lemma SliceBefore<T>(s: seq<T>, t: seq<T>, a: nat, lo: nat)
    requires lo <= a <= |s| && |t| == |s| && t[..a] == s[..a]
    ensures t[..lo] == s[..lo] && t[lo..a] == s[lo..a]
  {
    assert t[..lo] == t[..a][..lo] && s[..lo] == s[..a][..lo];
    assert t[lo..a] == t[..a][lo..] && s[lo..a] == s[..a][lo..];
  }

  lemma SliceAfter<T>(s: seq<T>, t: seq<T>, b: nat, hi: nat)
    requires b <= hi <= |s| && |t| == |s| && t[b..] == s[b..]
    ensures t[hi..] == s[hi..] && t[b..hi] == s[b..hi]
  {
    assert t[hi..] == t[b..][hi - b..] && s[hi..] == s[b..][hi - b..];
    assert t[b..hi] == t[b..][..hi - b] && s[b..hi] == s[b..][..hi - b];
  }

  /** The lengths agree, and positions outside the segment keep their elements. */
  lemma ShuffleFrame<T>(s: seq<T>, t: seq<T>, lo: nat, hi: nat, k: nat)
    requires Shuffled(s, t, lo, hi)
    ensures |t| == |s| && lo <= hi <= |s|
    ensures k < |s| && !(lo <= k < hi) ==> t[k] == s[k]
  {
    assert Mixed(0);
    if k < lo {
      assert t[k] == t[..lo][k] && s[k] == s[..lo][k];
    } else if hi <= k < |s| {
      assert t[k] == t[hi..][k - hi] && s[k] == s[hi..][k - hi];
    }
  }

  /** An element of the rearranged segment was in the segment before. */
  lemma ShuffleFrom<T>(s: seq<T>, t: seq<T>, lo: nat, hi: nat, k: nat) returns (j: nat)
    requires Shuffled(s, t, lo, hi) && lo <= k < hi
    ensures |t| == |s| && hi <= |s| && lo <= j < hi && t[k] == s[j]
  {
    assert Mixed(0);
    assert t[k] == t[lo..hi][k - lo];
    assert t[k] in multiset(t[lo..hi]);
    assert t[k] in s[lo..hi];
    var i :| 0 <= i < |s[lo..hi]| && s[lo..hi][i] == t[k];
    j := lo + i;
  }

  function Swapped<T>(s: seq<T>, i: nat, j: nat): seq<T>
    requires i < |s| && j < |s|
  {
    s[i := s[j]][j := s[i]]
  }

  lemma ShuffleSwap<T>(s: seq<T>, i: nat, j: nat, lo: nat, hi: nat)
    requires lo <= i < hi <= |s| && lo <= j < hi
    ensures Shuffled(s, Swapped(s, i, j), lo, hi)
  {
    SwapSlice(s, i, j, lo, hi, Swapped(s, i, j));
    SwapBag(s[lo..hi], i - lo, j - lo);
  }

  lemma SwapSlice<T>(s: seq<T>, i: nat, j: nat, lo: nat, hi: nat, t: seq<T>)
    requires lo <= i < hi <= |s| && lo <= j < hi && t == Swapped(s, i, j)
    ensures |t| == |s| && t[..lo] == s[..lo] && t[hi..] == s[hi..]
    ensures var u := s[lo..hi]; t[lo..hi] == u[i - lo := u[j - lo]][j - lo := u[i - lo]]
  {
  }

  lemma SwapBag<T>(u: seq<T>, i: nat, j: nat)
    requires i < |u| && j < |u|
    ensures multiset(u[i := u[j]][j := u[i]]) == multiset(u)
  {
  }

  // ----- the building blocks

  method Swap<T>(a: array<T>, i: nat, j: nat, ghost lo: nat, ghost hi: nat)
    requires lo <= i < hi <= a.Length && lo <= j < hi
    modifies a
    ensures a[..] == Swapped(old(a[..]), i, j) && Shuffled(old(a[..]), a[..], lo, hi)
  {
    ghost var s := a[..];
    a[i], a[j] := a[j], a[i];
    assert a[..] == Swapped(s, i, j);
    ShuffleSwap(s, i, j, lo, hi);
  }

  /** med3: the position among three that holds the middle element. */
  function Med3<T>(s: seq<T>, cmp: (T, T) -> int, a: nat, b: nat, c: nat): (m: nat)
    requires a < |s| && b < |s| && c < |s|
    ensures m == a || m == b || m == c
  {
    if cmp(s[a], s[b]) < 0 then
      (if cmp(s[b], s[c]) < 0 then b else if cmp(s[a], s[c]) < 0 then c else a)
    else
      (if cmp(s[b], s[c]) > 0 then b else if cmp(s[a], s[c]) < 0 then a else c)
  }

  /** The second of three elements lies between the others. */
  ghost predicate Between<T>(cmp: (T, T) -> int, x: T, m: T, y: T)
  {
    (cmp(x, m) <= 0 && cmp(m, y) <= 0) || (cmp(y, m) <= 0 && cmp(m, x) <= 0)
  }

  lemma Med3IsMiddle<T(!new)>(s: seq<T>, cmp: (T, T) -> int, a: nat, b: nat, c: nat, m: nat)
    requires Preorder(cmp) && a < |s| && b < |s| && c < |s| && m == Med3(s, cmp, a, b, c)
    ensures (m == a && Between(cmp, s[b], s[a], s[c])) || (m == b && Between(cmp, s[a], s[b], s[c]))
            || (m == c && Between(cmp, s[a], s[c], s[b]))
  {
    Flip(cmp, s[a], s[b]);
    Flip(cmp, s[b], s[c]);
    Flip(cmp, s[a], s[c]);
  }

  // ----- insertion sort

  ghost predicate SortedIn<T>(s: seq<T>, cmp: (T, T) -> int, lo: nat, hi: nat)
  {
    lo <= hi <= |s| && forall i, j :: lo <= i < j < hi ==> cmp(s[i], s[j]) <= 0
  }

  /** Sorted, but for the element at `p`, which may be too far right. */
  ghost predicate Sinking<T>(s: seq<T>, cmp: (T, T) -> int, lo: nat, hi: nat, p: nat)
  {
    lo <= p < hi <= |s| && forall i, j :: lo <= i < j < hi && j != p ==> cmp(s[i], s[j]) <= 0
  }

  lemma SinkStep<T(!new)>(s: seq<T>, cmp: (T, T) -> int, lo: nat, hi: nat, p: nat)
    requires Preorder(cmp) && Sinking(s, cmp, lo, hi, p) && lo < p && cmp(s[p - 1], s[p]) > 0
    ensures Sinking(Swapped(s, p, p - 1), cmp, lo, hi, p - 1)
  {
    Flip(cmp, s[p - 1], s[p]);
  }

  lemma SinkEnd<T(!new)>(s: seq<T>, cmp: (T, T) -> int, lo: nat, hi: nat, p: nat)
    requires Preorder(cmp) && Sinking(s, cmp, lo, hi, p) && (p == lo || cmp(s[p - 1], s[p]) <= 0)
    ensures SortedIn(s, cmp, lo, hi)
  {
    forall i, j | lo <= i < j < hi
      ensures cmp(s[i], s[j]) <= 0
    {
      if j == p && i < p - 1 {
        Trans(cmp, s[i], s[p - 1], s[p]);
      }
    }
  }

  /** The inner loop: let the element at `p` sink to its place. */
  method Sink<T(!new)>(a: array<T>, cmp: (T, T) -> int, lo: nat, p: nat, ghost hi: nat)
    requires Preorder(cmp) && lo <= p < hi <= a.Length && SortedIn(a[..], cmp, lo, p)
    modifies a
    ensures SortedIn(a[..], cmp, lo, p + 1) && Shuffled(old(a[..]), a[..], lo, hi)
  {
    ghost var s := a[..];
    var pl := p;
    ShuffleRefl(s, lo, hi);
    while pl > lo && cmp(a[pl - 1], a[pl]) > 0
      invariant lo <= pl <= p && Sinking(a[..], cmp, lo, p + 1, pl) && Shuffled(s, a[..], lo, hi)
    {
      ghost var t := a[..];
      SinkStep(t, cmp, lo, p + 1, pl);
      Swap(a, pl, pl - 1, lo, hi);
      ShuffleTrans(s, t, a[..], lo, hi);
      pl := pl - 1;
    }
    SinkEnd(a[..], cmp, lo, p + 1, pl);
  }

  method InsertionSort<T(!new)>(a: array<T>, cmp: (T, T) -> int, lo: nat, hi: nat)
    requires Preorder(cmp) && lo <= hi <= a.Length
    modifies a
    ensures SortedIn(a[..], cmp, lo, hi) && Shuffled(old(a[..]), a[..], lo, hi)
  {
    ghost var s := a[..];
    ShuffleRefl(s, lo, hi);
    var pm := lo + 1;
    while pm < hi
      invariant lo < pm && (pm <= hi || pm == lo + 1) && Shuffled(s, a[..], lo, hi)
      invariant SortedIn(a[..], cmp, lo, if pm <= hi then pm else hi)
    {
      ghost var t := a[..];
      Sink(a, cmp, lo, pm, hi);
      ShuffleTrans(s, t, a[..], lo, hi);
      pm := pm + 1;
    }
  }

  // ----- the three-way partition

  /** The moving pointers of the partition. */
  datatype Marks = Marks(pa: int, pb: int, pc: int, pd: int)

  /** Equal up to pa, smaller up to pb, unknown up to pc, greater up to pd, equal to the end. */
  ghost predicate Parted<T>(s: seq<T>, cmp: (T, T) -> int, v: T, lo: nat, hi: nat, m: Marks)
  {
    match m
    case Marks(pa, pb, pc, pd) =>
      && lo < pa <= pb <= pc + 1 && pc <= pd < hi <= |s| && s[lo] == v
      && (forall k :: lo <= k < pa ==> cmp(s[k], v) == 0)
      && (forall k :: pa <= k < pb ==> cmp(s[k], v) < 0)
      && (forall k :: pc < k <= pd ==> cmp(s[k], v) > 0)
      && (forall k :: pd < k < hi ==> cmp(s[k], v) == 0)
  }

  lemma StepUp<T>(s: seq<T>, cmp: (T, T) -> int, v: T, lo: nat, hi: nat, m: Marks)
    requires Parted(s, cmp, v, lo, hi, m) && m.pb <= m.pc && cmp(s[m.pb], v) <= 0
    ensures if cmp(s[m.pb], v) == 0
            then Parted(Swapped(s, m.pa, m.pb), cmp, v, lo, hi, m.(pa := m.pa + 1, pb := m.pb + 1))
            else Parted(s, cmp, v, lo, hi, m.(pb := m.pb + 1))
  {
  }

  lemma StepDown<T>(s: seq<T>, cmp: (T, T) -> int, v: T, lo: nat, hi: nat, m: Marks)
    requires Parted(s, cmp, v, lo, hi, m) && m.pb <= m.pc && cmp(s[m.pc], v) >= 0
    ensures if cmp(s[m.pc], v) == 0
            then Parted(Swapped(s, m.pc, m.pd), cmp, v, lo, hi, m.(pc := m.pc - 1, pd := m.pd - 1))
            else Parted(s, cmp, v, lo, hi, m.(pc := m.pc - 1))
  {
  }

  lemma StepCross<T>(s: seq<T>, cmp: (T, T) -> int, v: T, lo: nat, hi: nat, m: Marks)
    requires Parted(s, cmp, v, lo, hi, m) && m.pb < m.pc && cmp(s[m.pb], v) > 0 && cmp(s[m.pc], v) < 0
    ensures Parted(Swapped(s, m.pb, m.pc), cmp, v, lo, hi, m.(pb := m.pb + 1, pc := m.pc - 1))
  {
  }

  /** The first inner loop: elements no greater than the pivot, the equal ones to the left. */
  method ScanUp<T(!new)>(a: array<T>, cmp: (T, T) -> int, lo: nat, hi: nat, m: Marks, ghost v: T)
      returns (r: Marks, swaps: bool)
    requires hi <= a.Length && Parted(a[..], cmp, v, lo, hi, m)
    modifies a
    ensures Parted(a[..], cmp, v, lo, hi, r) && Shuffled(old(a[..]), a[..], lo, hi)
    ensures r.pb >= m.pb && r.pc == m.pc && r.pd == m.pd && (r.pb <= r.pc ==> cmp(a[r.pb], v) > 0)
  {
    r, swaps := m, false;
    ghost var s := a[..];
    ShuffleRefl(s, lo, hi);
    while r.pb <= r.pc && cmp(a[r.pb], a[lo]) <= 0
      invariant Parted(a[..], cmp, v, lo, hi, r) && Shuffled(s, a[..], lo, hi)
      invariant r.pb >= m.pb && r.pc == m.pc && r.pd == m.pd
      decreases r.pc - r.pb
    {
      ghost var t := a[..];
      StepUp(t, cmp, v, lo, hi, r);
      if cmp(a[r.pb], a[lo]) == 0 {
        swaps := true;
        Swap(a, r.pa, r.pb, lo, hi);
        ShuffleTrans(s, t, a[..], lo, hi);
        r := r.(pa := r.pa + 1);
      }
      r := r.(pb := r.pb + 1);
    }
  }

  /** The second inner loop: elements no smaller than the pivot, the equal ones to the right. */
  method ScanDown<T(!new)>(a: array<T>, cmp: (T, T) -> int, lo: nat, hi: nat, m: Marks, ghost v: T)
      returns (r: Marks, swaps: bool)
    requires hi <= a.Length && Parted(a[..], cmp, v, lo, hi, m)
    modifies a
    ensures Parted(a[..], cmp, v, lo, hi, r) && Shuffled(old(a[..]), a[..], lo, hi)
    ensures r.pc <= m.pc && r.pa == m.pa && r.pb == m.pb && (r.pb <= r.pc ==> cmp(a[r.pc], v) < 0)
    ensures forall k :: 0 <= k <= r.pc ==> a[k] == old(a[k])
  {
    r, swaps := m, false;
    ghost var s := a[..];
    ShuffleRefl(s, lo, hi);
    while r.pb <= r.pc && cmp(a[r.pc], a[lo]) >= 0
      invariant Parted(a[..], cmp, v, lo, hi, r) && Shuffled(s, a[..], lo, hi)
      invariant r.pc <= m.pc && r.pa == m.pa && r.pb == m.pb
      invariant forall k :: 0 <= k <= r.pc ==> a[k] == old(a[k])
      decreases r.pc - r.pb
    {
      ghost var t := a[..];
      StepDown(t, cmp, v, lo, hi, r);
      if cmp(a[r.pc], a[lo]) == 0 {
        swaps := true;
        Swap(a, r.pc, r.pd, lo, hi);
        ShuffleTrans(s, t, a[..], lo, hi);
        assert forall k :: 0 <= k < r.pc ==> a[..][k] == t[k];
        r := r.(pd := r.pd - 1);
      }
      r := r.(pc := r.pc - 1);
    }
  }

  /** The partition loop around the pivot at `lo`. */
  method Partition<T(!new)>(a: array<T>, cmp: (T, T) -> int, lo: nat, hi: nat) returns (m: Marks, swaps: bool)
    requires Preorder(cmp) && lo < hi <= a.Length
    modifies a
    ensures Parted(a[..], cmp, old(a[lo]), lo, hi, m) && m.pb == m.pc + 1 && Shuffled(old(a[..]), a[..], lo, hi)
  {
    ghost var s, v := a[..], a[lo];
    ShuffleRefl(s, lo, hi);
    Flip(cmp, v, v);
    m, swaps := Marks(lo + 1, lo + 1, hi - 1, hi - 1), false;
    while true
      invariant Parted(a[..], cmp, v, lo, hi, m) && Shuffled(s, a[..], lo, hi)
      decreases m.pc - m.pb + 1
    {
      ghost var m0, t := m, a[..];
      var up, down;
      m, up := ScanUp(a, cmp, lo, hi, m, v);
      ghost var t1 := a[..];
      ShuffleTrans(s, t, t1, lo, hi);
      m, down := ScanDown(a, cmp, lo, hi, m, v);
      ghost var t2 := a[..];
      ShuffleTrans(s, t1, t2, lo, hi);
      swaps := swaps || up || down;
      if m.pb > m.pc {
        break;
      }
      assert cmp(t2[m.pb], v) > 0;
      StepCross(t2, cmp, v, lo, hi, m);
      Swap(a, m.pb, m.pc, lo, hi);
      ShuffleTrans(s, t2, a[..], lo, hi);
      swaps := true;
      m := m.(pb := m.pb + 1, pc := m.pc - 1);
    }
  }

  /** vecswap: exchange two blocks of `n` elements that do not overlap. */
  method VecSwap<T>(a: array<T>, i: nat, j: nat, n: nat, ghost lo: nat, ghost hi: nat)
    requires lo <= i && i + n <= j && j + n <= hi <= a.Length
    modifies a
    ensures Shuffled(old(a[..]), a[..], lo, hi)
    ensures forall k :: i <= k < i + n ==> a[k] == old(a[j + (k - i)])
    ensures forall k :: j <= k < j + n ==> a[k] == old(a[i + (k - j)])
    ensures forall k :: 0 <= k < a.Length && !(i <= k < i + n) && !(j <= k < j + n) ==> a[k] == old(a[k])
  {
    ghost var s := a[..];
    ShuffleRefl(s, lo, hi);
    var r := 0;
    while r < n
      invariant 0 <= r <= n && Shuffled(s, a[..], lo, hi)
      invariant forall k :: i <= k < i + r ==> a[k] == old(a[j + (k - i)])
      invariant forall k :: j <= k < j + r ==> a[k] == old(a[i + (k - j)])
      invariant forall k :: 0 <= k < a.Length && !(i <= k < i + r) && !(j <= k < j + r) ==> a[k] == old(a[k])
    {
      ghost var t := a[..];
      Swap(a, i + r, j + r, lo, hi);
      ShuffleTrans(s, t, a[..], lo, hi);
      assert forall k :: 0 <= k < a.Length ==> a[k] == a[..][k];
      r := r + 1;
    }
  }

  /** Smaller, equal and greater elements, in this order. */
  ghost predicate Gathered<T>(s: seq<T>, cmp: (T, T) -> int, v: T, lo: nat, m1: int, m2: int, hi: nat)
  {
    && lo <= m1 <= m2 <= hi <= |s|
    && (forall k :: lo <= k < m1 ==> cmp(s[k], v) < 0)
    && (forall k :: m1 <= k < m2 ==> cmp(s[k], v) == 0)
    && (forall k :: m2 <= k < hi ==> cmp(s[k], v) > 0)
  }

  function Min(x: int, y: int): int { if x < y then x else y }

  /** Bring the equal elements from both ends to the middle. */
  method Gather<T>(a: array<T>, cmp: (T, T) -> int, lo: nat, hi: nat, m: Marks, ghost v: T)
    requires hi <= a.Length && Parted(a[..], cmp, v, lo, hi, m) && m.pb == m.pc + 1
    modifies a
    ensures Gathered(a[..], cmp, v, lo, lo + (m.pb - m.pa), hi - (m.pd - m.pc), hi)
    ensures Shuffled(old(a[..]), a[..], lo, hi)
  {
    ghost var s := a[..];
    GatherLeft(a, cmp, lo, hi, m, v);
    ghost var t := a[..];
    var r := Min(m.pd - m.pc, hi - m.pd - 1);
    VecSwap(a, m.pb, hi - r, r, lo, hi);
    ShuffleTrans(s, t, a[..], lo, hi);
  }

  method GatherLeft<T>(a: array<T>, cmp: (T, T) -> int, lo: nat, hi: nat, m: Marks, ghost v: T)
    requires hi <= a.Length && Parted(a[..], cmp, v, lo, hi, m) && m.pb == m.pc + 1
    modifies a
    ensures forall k :: lo <= k < lo + (m.pb - m.pa) ==> cmp(a[k], v) < 0
    ensures forall k :: lo + (m.pb - m.pa) <= k < m.pb ==> cmp(a[k], v) == 0
    ensures forall k :: m.pb <= k < hi ==> a[k] == old(a[k])
    ensures Shuffled(old(a[..]), a[..], lo, hi)
  {
    var r := Min(m.pa - lo, m.pb - m.pa);
    VecSwap(a, lo, m.pb - r, r, lo, hi);
  }

  // ----- the sort

  /** Placed with respect to the elements of a segment. */
  ghost predicate PlacedIn<T>(s: seq<T>, cmp: (T, T) -> int, lo: nat, hi: nat, i: int)
  {
    && lo <= i < hi <= |s|
    && (forall j :: lo <= j < i ==> cmp(s[j], s[i]) <= 0)
    && (forall j :: i < j < hi ==> cmp(s[i], s[j]) <= 0)
  }

  /** Every wanted position of the segment holds the right element. */
  ghost predicate RangePlaced<T>(s: seq<T>, cmp: (T, T) -> int, lo: nat, hi: nat, l: int, r: int)
  {
    forall i :: lo <= i < hi && l <= i <= r ==> PlacedIn(s, cmp, lo, hi, i)
  }

  lemma SortedPlaced<T>(s: seq<T>, cmp: (T, T) -> int, lo: nat, hi: nat, l: int, r: int)
    requires SortedIn(s, cmp, lo, hi)
    ensures RangePlaced(s, cmp, lo, hi, l, r)
  {
  }

  /** Rearranging the smaller or the greater part keeps the three parts. */
  lemma GatheredLeft<T>(s: seq<T>, t: seq<T>, cmp: (T, T) -> int, v: T, lo: nat, m1: nat, m2: nat, hi: nat)
    requires Gathered(s, cmp, v, lo, m1, m2, hi) && Shuffled(s, t, lo, m1)
    ensures Gathered(t, cmp, v, lo, m1, m2, hi)
  {
    ShuffleFrame(s, t, lo, m1, 0);
    forall k | lo <= k < hi
      ensures k < m1 ==> cmp(t[k], v) < 0
      ensures m1 <= k ==> t[k] == s[k]
    {
      if k < m1 {
        var _ := ShuffleFrom(s, t, lo, m1, k);
      } else {
        ShuffleFrame(s, t, lo, m1, k);
      }
    }
  }

  lemma GatheredRight<T>(s: seq<T>, t: seq<T>, cmp: (T, T) -> int, v: T, lo: nat, m1: nat, m2: nat, hi: nat)
    requires Gathered(s, cmp, v, lo, m1, m2, hi) && Shuffled(s, t, m2, hi)
    ensures Gathered(t, cmp, v, lo, m1, m2, hi)
    ensures forall k :: lo <= k < m2 ==> t[k] == s[k]
  {
    ShuffleFrame(s, t, m2, hi, 0);
    forall k | lo <= k < hi
      ensures k < m2 ==> t[k] == s[k]
      ensures m2 <= k ==> cmp(t[k], v) > 0
    {
      if k < m2 {
        ShuffleFrame(s, t, m2, hi, k);
      } else {
        var _ := ShuffleFrom(s, t, m2, hi, k);
      }
    }
  }

  /** Positions placed within their part are placed within the whole segment. */
  lemma PlacedOverall<T(!new)>(s: seq<T>, cmp: (T, T) -> int, v: T, lo: nat, m1: nat, m2: nat, hi: nat, l: int, r: int)
    requires Preorder(cmp) && Gathered(s, cmp, v, lo, m1, m2, hi)
    requires RangePlaced(s, cmp, lo, m1, l, r) && RangePlaced(s, cmp, m2, hi, l, r)
    ensures RangePlaced(s, cmp, lo, hi, l, r)
  {
    forall i | lo <= i < hi && l <= i <= r
      ensures PlacedIn(s, cmp, lo, hi, i)
    {
      forall j | lo <= j < hi
        ensures j < i ==> cmp(s[j], s[i]) <= 0
        ensures i < j ==> cmp(s[i], s[j]) <= 0
      {
        assert i < m1 ==> PlacedIn(s, cmp, lo, m1, i);
        assert i >= m2 ==> PlacedIn(s, cmp, m2, hi, i);
        Flip(cmp, s[i], v);
        Flip(cmp, s[j], v);
        if j < i && cmp(s[j], v) <= 0 && cmp(v, s[i]) <= 0 {
          Trans(cmp, s[j], v, s[i]);
        }
        if i < j && cmp(s[i], v) <= 0 && cmp(v, s[j]) <= 0 {
          Trans(cmp, s[i], v, s[j]);
        }
      }
    }
  }

  /** The segment from `first` to `last` lies outside the wanted range. */
  predicate Outside(first: int, last: int, l: int, r: int)
  {
    (l < first && r < first) || (l > last && r > last)
  }

  /** A part that is not sorted holds no wanted position, or just one element. */
  lemma SkippedPlaced<T>(s: seq<T>, cmp: (T, T) -> int, lo: nat, hi: nat, l: int, r: int)
    requires lo <= hi <= |s| && (hi - lo <= 1 || Outside(lo, hi - 1, l, r))
    ensures RangePlaced(s, cmp, lo, hi, l, r)
  {
  }

  lemma StillPlaced<T>(s: seq<T>, t: seq<T>, cmp: (T, T) -> int, lo: nat, hi: nat, l: int, r: int)
    requires RangePlaced(s, cmp, lo, hi, l, r) && hi <= |s| && hi <= |t| && forall k :: lo <= k < hi ==> t[k] == s[k]
    ensures RangePlaced(t, cmp, lo, hi, l, r)
  {
    forall i | lo <= i < hi && l <= i <= r
      ensures PlacedIn(t, cmp, lo, hi, i)
    {
      assert PlacedIn(s, cmp, lo, hi, i);
    }
  }

  /** The choice of the pivot. */
  method Pivot<T>(a: array<T>, cmp: (T, T) -> int, lo: nat, hi: nat) returns (pm: nat)
    requires lo + 7 <= hi <= a.Length
    ensures lo <= pm < hi
  {
    var n := hi - lo;
    pm := lo + n / 2;
    if n > 7 {
      var pl, pn := lo, lo + n - 1;
      if n > 40 {
        var d := n / 8;
        pl := Med3(a[..], cmp, pl, pl + d, pl + 2 * d);
        pm := Med3(a[..], cmp, pm - d, pm, pm + d);
        pn := Med3(a[..], cmp, pn - 2 * d, pn - d, pn);
      }
      pm := Med3(a[..], cmp, pl, pm, pn);
    }
  }

  /** Choose a pivot, partition, and gather; `done` when the segment has been insertion sorted instead. */
  method Divide<T(!new)>(a: array<T>, cmp: (T, T) -> int, lo: nat, hi: nat)
      returns (done: bool, m1: nat, m2: nat, ghost v: T)
    requires Preorder(cmp) && lo + 7 <= hi <= a.Length
    modifies a
    ensures Shuffled(old(a[..]), a[..], lo, hi)
    ensures if done then SortedIn(a[..], cmp, lo, hi) else Gathered(a[..], cmp, v, lo, m1, m2, hi) && m1 < m2
  {
    ghost var s := a[..];
    var pm := Pivot(a, cmp, lo, hi);
    Swap(a, lo, pm, lo, hi);
    ghost var t := a[..];
    v := a[lo];
    var m, swaps := Partition(a, cmp, lo, hi);
    ghost var u := a[..];
    ShuffleTrans(s, t, u, lo, hi);
    done, m1, m2 := !swaps, lo + (m.pb - m.pa), hi - (m.pd - m.pc);
    if done {
      InsertionSort(a, cmp, lo, hi);
    } else {
      Gather(a, cmp, lo, hi, m, v);
    }
    ShuffleTrans(s, u, a[..], lo, hi);
  }

  /** _pqsort; the jump back to the start for the right part is a call. */
  method SortRange<T(!new)>(a: array<T>, cmp: (T, T) -> int, lo: nat, hi: nat, l: int, r: int)
    requires Preorder(cmp) && lo <= hi <= a.Length
    modifies a
    ensures Shuffled(old(a[..]), a[..], lo, hi) && RangePlaced(a[..], cmp, lo, hi, l, r)
    decreases hi - lo
  {
    if hi - lo < 7 {
      InsertionSort(a, cmp, lo, hi);
      SortedPlaced(a[..], cmp, lo, hi, l, r);
      return;
    }
    ghost var s := a[..];
    var done, m1, m2;
    ghost var v;
    done, m1, m2, v := Divide(a, cmp, lo, hi);
    if done {
      SortedPlaced(a[..], cmp, lo, hi, l, r);
      return;
    }
    ghost var t := a[..];
    SortParts(a, cmp, lo, m1, m2, hi, l, r, v);
    ShuffleTrans(s, t, a[..], lo, hi);
  }

  /** Sort the smaller and the greater part where they meet the wanted range. */
  method SortParts<T(!new)>(a: array<T>, cmp: (T, T) -> int, lo: nat, m1: nat, m2: nat, hi: nat, l: int, r: int,
      ghost v: T)
    requires Preorder(cmp) && hi <= a.Length && Gathered(a[..], cmp, v, lo, m1, m2, hi) && m1 < m2
    modifies a
    ensures Shuffled(old(a[..]), a[..], lo, hi) && RangePlaced(a[..], cmp, lo, hi, l, r)
    decreases hi - lo, 0
  {
    ghost var s := a[..];
    ShuffleRefl(s, lo, m1);
    if m1 - lo > 1 && !Outside(lo, m1 - 1, l, r) {
      SortRange(a, cmp, lo, m1, l, r);
    } else {
      SkippedPlaced(a[..], cmp, lo, m1, l, r);
    }
    ghost var t := a[..];
    GatheredLeft(s, t, cmp, v, lo, m1, m2, hi);
    ShuffleRefl(t, m2, hi);
    if hi - m2 > 1 && !Outside(m2, hi - 1, l, r) {
      SortRange(a, cmp, m2, hi, l, r);
    } else {
      SkippedPlaced(a[..], cmp, m2, hi, l, r);
    }
    ghost var u := a[..];
    GatheredRight(t, u, cmp, v, lo, m1, m2, hi);
    StillPlaced(t, u, cmp, lo, m1, l, r);
    PlacedOverall(u, cmp, v, lo, m1, m2, hi, l, r);
    ShuffleWiden(s, t, lo, m1, lo, hi);
    ShuffleWiden(t, u, m2, hi, lo, hi);
    ShuffleTrans(s, t, u, lo, hi);
  }

  /**
   * pqsort: a permutation in which every position from lrange to rrange holds, up to the order,
   * what a full sort would put there.
   */
  method Pqsort<T(!new)>(a: array<T>, cmp: (T, T) -> int, lrange: nat, rrange: nat)
    requires Preorder(cmp)
    modifies a
    ensures multiset(a[..]) == multiset(old(a[..]))
    ensures forall i :: lrange <= i <= rrange && i < a.Length ==> Placed(a[..], cmp, i)
    ensures forall t: seq<T> :: multiset(t) == multiset(old(a[..])) && Sorted(t, cmp) ==>
              |t| == a.Length && forall i :: lrange <= i <= rrange && i < a.Length ==> cmp(a[i], t[i]) == 0
  {
    ghost var s := a[..];
    SortRange(a, cmp, 0, a.Length, lrange, rrange);
    WholeShuffle(s, a[..]);
    forall i | lrange <= i <= rrange && i < a.Length
      ensures Placed(a[..], cmp, i)
    {
      assert PlacedIn(a[..], cmp, 0, a.Length, i);
    }
    forall t: seq<T> | multiset(t) == multiset(s) && Sorted(t, cmp)
      ensures |t| == a.Length && forall i :: lrange <= i <= rrange && i < a.Length ==> cmp(a[i], t[i]) == 0
    {
      assert |multiset(t)| == |multiset(s)|;
      forall i | lrange <= i <= rrange && i < a.Length
        ensures cmp(a[i], t[i]) == 0
      {
        PlacedIsSorted(a[..], t, cmp, i);
      }
    }
  }

  lemma WholeShuffle<T>(s: seq<T>, t: seq<T>)
    requires Shuffled(s, t, 0, |s|)
    ensures multiset(t) == multiset(s)
  {
    assert Mixed(0);
    assert s[0..|s|] == s && t[0..|s|] == t;
  }
}
