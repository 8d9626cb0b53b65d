/** Concatenations of byte strings, taken apart and put together. */
module Concat {

  function Flat<T>(parts: seq<seq<T>>): seq<T>
  {
    if parts == [] then [] else Flat(parts[..|parts| - 1]) + parts[|parts| - 1]
  }

  lemma FlatSnoc<T>(s: seq<seq<T>>, x: seq<T>)
    ensures Flat(s + [x]) == Flat(s) + x
  {
    assert (s + [x])[..|s|] == s;
  }

  lemma {:induction false} FlatConcat<T>(a: seq<seq<T>>, b: seq<seq<T>>)
    ensures Flat(a + b) == Flat(a) + Flat(b)
  {
    if b == [] {
      assert a + b == a;
    } else {
      var init, x := b[..|b| - 1], b[|b| - 1];
      assert a + b == (a + init) + [x];
      FlatSnoc(a + init, x);
      FlatConcat(a, init);
      Assoc(Flat(a), Flat(init), x);
    }
  }

  lemma FlatOne<T>(x: seq<T>)
    ensures Flat([x]) == x
  {
    assert [x][..0] == [];
  }

  /** The concatenation of a list, split around one of its parts. */
  lemma FlatSplit<T>(parts: seq<seq<T>>, i: nat)
    requires i < |parts|
    ensures Flat(parts) == Flat(parts[..i]) + parts[i] + Flat(parts[i + 1..])
  {
    var a, x, b := parts[..i], parts[i], parts[i + 1..];
    ThreeParts(parts, i);
    FlatThree(parts, a, x, b);
  }

  lemma ThreeParts<T>(s: seq<T>, i: nat)
    requires i < |s|
    ensures s == s[..i] + [s[i]] + s[i + 1..]
  {
  }

  lemma FlatThree<T>(parts: seq<seq<T>>, a: seq<seq<T>>, x: seq<T>, b: seq<seq<T>>)
    requires parts == a + [x] + b
    ensures Flat(parts) == Flat(a) + x + Flat(b)
  {
    FlatConcat(a + [x], b);
    FlatSnoc(a, x);
  }

  lemma Assoc<T>(a: seq<T>, b: seq<T>, c: seq<T>)
    ensures a + (b + c) == a + b + c
  {
  }

  lemma FlatNext<T>(parts: seq<seq<T>>, i: nat)
    requires i < |parts|
    ensures Flat(parts[..i + 1]) == Flat(parts[..i]) + parts[i]
  {
    assert parts[..i + 1][..i] == parts[..i];
  }

  /** The piece `x` of `a + (x + r) + z`, and the rest with `x` counted among what precedes it. */
  lemma Peel<T>(zm: seq<T>, a: seq<T>, x: seq<T>, r: seq<T>, z: seq<T>)
    requires zm == a + (x + r) + z
    ensures zm == (a + x) + r + z
    ensures |a| + |x| <= |zm| && zm[|a|..|a| + |x|] == x
  {
  }

  /** Overwrite the bytes from `p` on. */
  function Put<T>(s: seq<T>, p: nat, b: seq<T>): (r: seq<T>)
    requires p + |b| <= |s|
    ensures |r| == |s|
  {
    s[..p] + b + s[p + |b|..]
  }

  lemma PutPut<T>(s: seq<T>, p: nat, a: seq<T>, b: seq<T>)
    requires p + |a| + |b| <= |s|
    ensures Put(Put(s, p, a), p + |a|, b) == Put(s, p, a + b)
  {
  }
}
