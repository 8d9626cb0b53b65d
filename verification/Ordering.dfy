/** Comparison functions whose sign orders a total preorder, as the sorts of the sources take them. */
module Ordering {

  /** A comparison function of qsort's kind: the sign of the result orders a total preorder. */
  ghost predicate Orders<T(!new)>(cmp: (T, T) -> int)
  {
    && (forall x, y :: cmp(x, y) < 0 <==> cmp(y, x) > 0)
    && (forall x, y, z :: cmp(x, y) <= 0 && cmp(y, z) <= 0 ==> cmp(x, z) <= 0)
  }

  ghost predicate Opened(i: int) { true }

  /** `Orders`, in view only where `Opened` is mentioned. */
  ghost predicate Preorder<T(!new)>(cmp: (T, T) -> int)
  {
    (forall i {:trigger Opened(i)} :: Opened(i) ==> Orders(cmp)) == true
  }

  lemma Flip<T(!new)>(cmp: (T, T) -> int, x: T, y: T)
    requires Preorder(cmp)
    ensures (cmp(x, y) < 0 <==> cmp(y, x) > 0) && (cmp(y, x) < 0 <==> cmp(x, y) > 0) && cmp(x, x) == 0
  {
    assert Opened(0);
  }

  /** Transitivity, also of the strict order. */
  lemma Trans<T(!new)>(cmp: (T, T) -> int, x: T, y: T, z: T)
    requires Preorder(cmp) && cmp(x, y) <= 0 && cmp(y, z) <= 0
    ensures cmp(x, z) <= 0 && (cmp(x, y) < 0 || cmp(y, z) < 0 ==> cmp(x, z) < 0)
  {
    assert Opened(0);
    if cmp(x, z) == 0 {
      assert cmp(z, x) <= 0;
      assert cmp(z, y) <= 0 && cmp(y, x) <= 0;
    }
  }

  ghost predicate Sorted<T>(s: seq<T>, cmp: (T, T) -> int)
  {
    forall i, j :: 0 <= i < j < |s| ==> cmp(s[i], s[j]) <= 0
  }
}
