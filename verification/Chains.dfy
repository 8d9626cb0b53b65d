/** The chains of a hash table as sequences, and the multiset of everything chained. */
module Chains {

  ghost function Bag<T>(chains: seq<seq<T>>): multiset<T>
  {
    if chains == [] then multiset{} else Bag(chains[..|chains| - 1]) + multiset(chains[|chains| - 1])
  }

  /** Replacing one chain exchanges its items. */
  lemma {:induction false} BagUpdate<T>(chains: seq<seq<T>>, i: nat, c: seq<T>)
    requires i < |chains|
    ensures Bag(chains[i := c]) + multiset(chains[i]) == Bag(chains) + multiset(c)
  {
    var init, last := chains[..|chains| - 1], multiset(chains[|chains| - 1]);
    if i == |chains| - 1 {
      assert chains[i := c][..|chains| - 1] == init;
    } else {
      assert chains[i := c][..|chains| - 1] == init[i := c];
      BagUpdate(init, i, c);
      calc {
        Bag(chains[i := c]) + multiset(chains[i]);
        (Bag(init[i := c]) + last) + multiset(init[i]);
        (Bag(init[i := c]) + multiset(init[i])) + last;
        (Bag(init) + multiset(c)) + last;
        Bag(chains) + multiset(c);
      }
    }
  }

  /** Pushing an item on the front of a chain adds the item. */
  lemma BagPush<T>(chains: seq<seq<T>>, i: nat, x: T)
    requires i < |chains|
    ensures Bag(chains[i := [x] + chains[i]]) == Bag(chains) + multiset{x}
  {
    var c := [x] + chains[i];
    BagUpdate(chains, i, c);
    assert multiset(c) == multiset{x} + multiset(chains[i]);
    CancelRight(Bag(chains[i := c]), Bag(chains) + multiset{x}, multiset(chains[i]));
  }

  /** Cutting an item out of a chain removes the item. */
  lemma BagCut<T>(chains: seq<seq<T>>, i: nat, p: nat)
    requires i < |chains| && p < |chains[i]|
    ensures Bag(chains[i := chains[i][..p] + chains[i][p + 1..]]) == Bag(chains) - multiset{chains[i][p]}
    ensures chains[i][p] in Bag(chains)
  {
    var old_, c, x := chains[i], chains[i][..p] + chains[i][p + 1..], chains[i][p];
    assert old_ == old_[..p] + [x] + old_[p + 1..];
    assert multiset(old_) == multiset(c) + multiset{x};
    BagUpdate(chains, i, c);
    CancelRight(Bag(chains[i := c]) + multiset{x}, Bag(chains), multiset(c));
  }

  lemma CancelRight<T>(x: multiset<T>, y: multiset<T>, c: multiset<T>)
    requires x + c == y + c
    ensures x == y
  {
    forall t: T | t in x + y
      ensures x[t] == y[t]
    {
      assert (x + c)[t] == (y + c)[t];
    }
  }

  lemma {:induction false} BagHas<T>(chains: seq<seq<T>>, x: T)
    ensures x in Bag(chains) <==> exists i :: 0 <= i < |chains| && x in chains[i]
  {
    if chains != [] {
      var init := chains[..|chains| - 1];
      BagHas(init, x);
      if x in Bag(init) {
        var i :| 0 <= i < |init| && x in init[i];
        assert x in chains[i];
      }
    }
  }

  lemma {:induction false} BagEmpty<T>(chains: seq<seq<T>>)
    requires forall i :: 0 <= i < |chains| ==> chains[i] == []
    ensures Bag(chains) == multiset{}
  {
    if chains != [] {
      BagEmpty(chains[..|chains| - 1]);
    }
  }

  lemma {:induction false} BagConcat<T>(a: seq<seq<T>>, b: seq<seq<T>>)
    ensures Bag(a + b) == Bag(a) + Bag(b)
  {
    if b == [] {
      assert a + b == a;
    } else {
      assert (a + b)[..|a + b| - 1] == a + b[..|b| - 1];
      BagConcat(a, b[..|b| - 1]);
    }
  }

  /** Nothing is chained exactly when every chain is empty. */
  lemma BagSomewhere<T>(chains: seq<seq<T>>, from: nat) returns (i: nat)
    requires from <= |chains| && Bag(chains) != multiset{}
    requires forall k :: 0 <= k < from ==> chains[k] == []
    ensures from <= i < |chains| && chains[i] != []
  {
    if forall k :: from <= k < |chains| ==> chains[k] == [] {
      BagEmpty(chains);
      assert false;
    }
    i :| from <= i < |chains| && chains[i] != [];
  }

  lemma BagIncludes<T>(chains: seq<seq<T>>, i: nat)
    requires i < |chains|
    ensures multiset(chains[i]) <= Bag(chains)
  {
    BagUpdate(chains, i, []);
    assert Bag(chains[i := []]) + multiset(chains[i]) == Bag(chains);
  }

  lemma BagTail<T>(chains: seq<seq<T>>, i: nat)
    requires i < |chains|
    ensures Bag(chains[i..]) == multiset(chains[i]) + Bag(chains[i + 1..])
  {
    assert chains[i..] == [chains[i]] + chains[i + 1..];
    BagConcat([chains[i]], chains[i + 1..]);
    assert [chains[i]][..0] == [];
    assert Bag([chains[i]]) == multiset(chains[i]);
  }

  /** An item in two chains counts twice. */
  lemma BagTwice<T>(chains: seq<seq<T>>, i: nat, j: nat, x: T)
    requires i < |chains| && j < |chains| && i != j && x in chains[i] && x in chains[j]
    ensures Bag(chains)[x] >= 2
  {
    var rest := chains[i := []];
    BagUpdate(chains, i, []);
    BagIncludes(rest, j);
    assert multiset(chains[j])[x] <= Bag(rest)[x];
    assert Bag(chains) == Bag(rest) + multiset(chains[i]);
  }
}
