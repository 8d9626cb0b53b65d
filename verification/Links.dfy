/** Doubly linked lists in a store: each link field is a map from nodes to nodes, 0 is NULL. */
module Links {

  type Node = int

  type Field = map<Node, Node>

  /** The value of a link field; one never written is NULL. */
  function At(f: Field, n: Node): Node
  {
    if n in f then f[n] else 0
  }

  /** Element `i` of a list, NULL before the first and after the last. */
  function Nth(s: seq<Node>, i: int): Node
  {
    if 0 <= i < |s| then s[i] else 0
  }

  /** NULL is met only at the end. */
  lemma NthNull(c: seq<Node>, p: nat)
    requires 0 !in c && p <= |c| && Nth(c, p) == 0
    ensures p == |c|
  {
    assert forall i :: 0 <= i < |c| ==> c[i] != 0;
  }

  ghost predicate LinkAt(next: Field, prev: Field, s: seq<Node>, i: nat)
    requires i < |s|
  {
    At(next, s[i]) == Nth(s, i + 1) && At(prev, s[i]) == Nth(s, i - 1)
  }

  ghost predicate Distinct(s: seq<Node>)
  {
    forall i, j :: 0 <= i < j < |s| ==> s[i] != s[j]
  }

  /** The nodes of `s`, in this order, are linked in both directions. */
  ghost predicate ListOf(next: Field, prev: Field, s: seq<Node>)
  {
    && Distinct(s) && 0 !in s
    && (forall i {:trigger LinkAt(next, prev, s, i)} :: 0 <= i < |s| ==> LinkAt(next, prev, s, i)) == true
  }

  lemma LinksHere(next: Field, prev: Field, s: seq<Node>, i: nat)
    requires ListOf(next, prev, s) && i < |s|
    ensures At(next, s[i]) == Nth(s, i + 1) && At(prev, s[i]) == Nth(s, i - 1) && s[i] != 0
  {
    assert LinkAt(next, prev, s, i);
  }

  /** Only the links of its own nodes matter to a list. */
  lemma ListFrame(next: Field, prev: Field, next': Field, prev': Field, s: seq<Node>)
    requires ListOf(next, prev, s)
    requires forall n :: n in s ==> At(next', n) == At(next, n) && At(prev', n) == At(prev, n)
    ensures ListOf(next', prev', s)
  {
    forall i | 0 <= i < |s|
      ensures LinkAt(next', prev', s, i)
    {
      assert LinkAt(next, prev, s, i) && s[i] in s;
    }
  }

  /** Append a node after the last one. */
  lemma AppendKeeps(next: Field, prev: Field, s: seq<Node>, n: Node, last: Node)
    requires ListOf(next, prev, s) && n != 0 && n !in s && s != [] && last == s[|s| - 1]
    ensures ListOf(next[n := 0][last := n], prev[n := last], s + [n])
  {
    var next', prev', s' := next[n := 0][last := n], prev[n := last], s + [n];
    forall i | 0 <= i < |s'|
      ensures LinkAt(next', prev', s', i)
    {
      if i < |s| {
        assert LinkAt(next, prev, s, i) && s'[i] == s[i] && s[i] in s;
      }
    }
  }

  /** Put a node before the first one. */
  lemma PushKeeps(next: Field, prev: Field, s: seq<Node>, n: Node)
    requires ListOf(next, prev, s) && n != 0 && n !in s
    ensures ListOf(next[n := Nth(s, 0)], if s == [] then prev[n := 0] else prev[n := 0][s[0] := n], [n] + s)
  {
    var next', prev', s' := next[n := Nth(s, 0)], if s == [] then prev[n := 0] else prev[n := 0][s[0] := n], [n] + s;
    forall i | 0 <= i < |s'|
      ensures LinkAt(next', prev', s', i)
    {
      if i > 0 {
        assert LinkAt(next, prev, s, i - 1) && s'[i] == s[i - 1] && s[i - 1] in s;
      }
    }
  }

  function Cut(s: seq<Node>, i: nat): seq<Node>
    requires i < |s|
  {
    s[..i] + s[i + 1..]
  }

  function CutNext(next: Field, s: seq<Node>, i: nat): Field
    requires i < |s|
  {
    if i > 0 then next[s[i - 1] := Nth(s, i + 1)] else next
  }

  function CutPrev(prev: Field, s: seq<Node>, i: nat): Field
    requires i < |s|
  {
    if i + 1 < |s| then prev[s[i + 1] := Nth(s, i - 1)] else prev
  }

  /** Unlink a node: its neighbours point past it. */
  lemma CutKeeps(next: Field, prev: Field, s: seq<Node>, i: nat)
    requires ListOf(next, prev, s) && i < |s|
    ensures ListOf(CutNext(next, s, i), CutPrev(prev, s, i), Cut(s, i))
  {
    var next', prev', s' := CutNext(next, s, i), CutPrev(prev, s, i), Cut(s, i);
    forall j | 0 <= j < |s'|
      ensures LinkAt(next', prev', s', j)
    {
      var k := if j < i then j else j + 1;
      assert s'[j] == s[k] && LinkAt(next, prev, s, k);
    }
  }
}
