/**
 * The in-place merge of linked runs inside HASH_SRT. Items already put out are linked in both
 * directions; the items still to come are only reached by following `next`.
 */
module ListMerge {
  import opened Links

  /** Item `i` of a pending run leads to item `i + 1`; the last one leads anywhere. */
  ghost predicate Leads(next: Field, s: seq<Node>, i: nat)
    requires i < |s|
  {
    i + 1 < |s| ==> At(next, s[i]) == s[i + 1]
  }

  ghost predicate Path(next: Field, s: seq<Node>)
  {
    forall i {:trigger Leads(next, s, i)} :: 0 <= i < |s| ==> Leads(next, s, i)
  }

  /** Following `next` from the first item leads through the run and ends. */
  ghost predicate Walk(next: Field, s: seq<Node>)
  {
    Path(next, s) && (s != [] ==> At(next, s[|s| - 1]) == 0)
  }

  /** The items put out so far are linked in both directions, save the last one's `next`. */
  ghost predicate Out(next: Field, prev: Field, done: seq<Node>, list: Node, tail: Node)
  {
    && Path(next, done) && list == Nth(done, 0) && tail == Nth(done, |done| - 1)
    && (forall i {:trigger Back(prev, done, i)} :: 0 <= i < |done| ==> Back(prev, done, i))
  }

  ghost predicate Back(prev: Field, s: seq<Node>, i: nat)
    requires i < |s|
  {
    At(prev, s[i]) == Nth(s, i - 1)
  }

  ghost predicate Apart(s: seq<Node>)
  {
    Distinct(s) && 0 !in s
  }

  ghost predicate Opened(i: int) { true }

  /**
   * In the middle of a merge: `done` is out, the left run has `p` left, the right run `q`, and `rest`
   * comes after both.
   */
  ghost predicate Merging(next: Field, prev: Field, list: Node, tail: Node, done: seq<Node>, p: seq<Node>,
      q: seq<Node>, rest: seq<Node>)
  {
    (forall i {:trigger Opened(i)} :: Opened(i) ==>
      Apart(done + p + q + rest) && Out(next, prev, done, list, tail) && Path(next, p) && Walk(next, q + rest)) == true
  }

  lemma PathTail(next: Field, s: seq<Node>)
    requires Path(next, s) && s != []
    ensures Path(next, s[1..])
  {
    forall i | 0 <= i < |s[1..]|
      ensures Leads(next, s[1..], i)
    {
      assert Leads(next, s, i + 1);
    }
  }

  lemma WalkTail(next: Field, s: seq<Node>)
    requires Walk(next, s) && s != []
    ensures Walk(next, s[1..]) && At(next, s[0]) == Nth(s, 1)
  {
    PathTail(next, s);
    assert Leads(next, s, 0);
  }

  lemma PathFrame(next: Field, next': Field, s: seq<Node>)
    requires Path(next, s) && forall n :: n in s ==> At(next', n) == At(next, n)
    ensures Path(next', s)
  {
    forall i | 0 <= i < |s|
      ensures Leads(next', s, i)
    {
      assert Leads(next, s, i) && s[i] in s;
    }
  }

  lemma WalkFrame(next: Field, next': Field, s: seq<Node>)
    requires Walk(next, s) && forall n :: n in s ==> At(next', n) == At(next, n)
    ensures Walk(next', s)
  {
    PathFrame(next, next', s);
    assert s != [] ==> s[|s| - 1] in s;
  }

  /** Put out one more item. */
  lemma OutMore(next: Field, prev: Field, done: seq<Node>, list: Node, tail: Node, e: Node)
    requires Out(next, prev, done, list, tail) && Apart(done + [e])
    ensures Out(if tail != 0 then next[tail := e] else next, prev[e := tail], done + [e], if tail != 0 then list
        else e, e)
  {
    var next', prev', done' := if tail != 0 then next[tail := e] else next, prev[e := tail], done + [e];
    assert done'[|done|] == e;
    assert forall i :: 0 <= i < |done| ==> done'[i] == done[i];
    assert done != [] ==> done[|done| - 1] in done';
    forall i | 0 <= i < |done'|
      ensures Leads(next', done', i) && Back(prev', done', i)
    {
      if i < |done| {
        assert Leads(next, done, i) && Back(prev, done, i);
        assert i < |done| - 1 ==> done'[i] != tail;
      }
    }
  }

  /** A write to the last item put out does not concern the items to come. */
  lemma PendingKept(next: Field, tail: Node, e: Node, done: seq<Node>, s: seq<Node>)
    requires Apart(done + s) && tail == Nth(done, |done| - 1)
    ensures tail != 0 ==> forall n :: n in s ==> At(next[tail := e], n) == At(next, n)
  {
    if tail != 0 {
      forall n | n in s
        ensures n != tail
      {
        var i :| 0 <= i < |s| && s[i] == n;
        assert (done + s)[|done| + i] == n && (done + s)[|done| - 1] == tail;
      }
    }
  }

  lemma ApartMove(done: seq<Node>, p: seq<Node>, q: seq<Node>, rest: seq<Node>)
    requires Apart(done + p + q + rest) && p != []
    ensures Apart((done + [p[0]]) + p[1..] + q + rest) && Apart(done + [p[0]]) && Apart(done + p)
        && Apart(done + (q + rest))
  {
    var s := done + p + q + rest;
    assert (done + [p[0]]) + p[1..] + q + rest == s;
    assert done + [p[0]] == s[..|done| + 1];
    assert done + p == s[..|done| + |p|];
    assert s[|done| + |p|..] == q + rest;
    SubApart(s, |done|, |done| + |p|);
    assert done + (q + rest) == s[..|done|] + s[|done| + |p|..];
  }

  lemma SubApart(s: seq<Node>, a: nat, b: nat)
    requires Apart(s) && a <= b <= |s|
    ensures Apart(s[..a] + s[b..])
  {
    var t := s[..a] + s[b..];
    forall i | 0 <= i < |t|
      ensures t[i] == s[if i < a then i else i + (b - a)]
    {
    }
    forall i, j | 0 <= i < j < |t|
      ensures t[i] != t[j]
    {
      assert s[if i < a then i else i + (b - a)] != s[if j < a then j else j + (b - a)];
    }
  }

  /** Moving the first item of the right run ahead of the left run keeps all items apart. */
  lemma ApartRight(done: seq<Node>, p: seq<Node>, q: seq<Node>, rest: seq<Node>)
    requires Apart(done + p + q + rest) && q != []
    ensures Apart((done + [q[0]]) + p + q[1..] + rest)
  {
    var d, k := |done|, |done| + |p|;
    var s, t := done + p + q + rest, (done + [q[0]]) + p + q[1..] + rest;
    forall i | 0 <= i < |t|
      ensures t[i] == s[From(d, k, i)]
    {
    }
    forall i, j | 0 <= i < j < |t|
      ensures t[i] != t[j]
    {
      assert From(d, k, i) != From(d, k, j);
    }
  }

  function From(d: nat, k: nat, i: nat): nat
  {
    if i < d then i else if i == d then k else if i <= k then i - 1 else i
  }

  /** The left run gives its first item. */
  lemma TakeLeft(next: Field, prev: Field, list: Node, tail: Node, done: seq<Node>, p: seq<Node>, q: seq<Node>,
      rest: seq<Node>)
    requires Merging(next, prev, list, tail, done, p, q, rest) && p != []
    ensures Merging(if tail != 0 then next[tail := p[0]] else next, prev[p[0] := tail], if tail != 0 then list
        else p[0], p[0],
                    done + [p[0]], p[1..], q, rest)
    ensures |p| > 1 ==> At(next, p[0]) == p[1]
    ensures p[0] != 0
  {
    assert Opened(0);
    ApartMove(done, p, q, rest);
    OutMore(next, prev, done, list, tail, p[0]);
    PendingKept(next, tail, p[0], done, p);
    PendingKept(next, tail, p[0], done, q + rest);
    PathTail(next, p);
    assert Leads(next, p, 0);
    var next' := if tail != 0 then next[tail := p[0]] else next;
    PathFrame(next, next', p[1..]);
    WalkFrame(next, next', q + rest);
  }

  /** The right run gives its first item. */
  lemma TakeRight(next: Field, prev: Field, list: Node, tail: Node, done: seq<Node>, p: seq<Node>, q: seq<Node>,
      rest: seq<Node>)
    requires Merging(next, prev, list, tail, done, p, q, rest) && q != []
    ensures Merging(if tail != 0 then next[tail := q[0]] else next, prev[q[0] := tail], if tail != 0 then list
        else q[0], q[0],
                    done + [q[0]], p, q[1..], rest)
    ensures At(next, q[0]) == Nth(q[1..] + rest, 0) && q[0] != 0
  {
    assert Opened(0);
    ApartRight(done, p, q, rest);
    RightParts(done, p, q, rest);
    OutMore(next, prev, done, list, tail, q[0]);
    PendingKept(next, tail, q[0], done, p);
    PendingKept(next, tail, q[0], done, q + rest);
    WalkTail(next, q + rest);
    assert (q + rest)[1..] == q[1..] + rest;
    var next' := if tail != 0 then next[tail := q[0]] else next;
    PathFrame(next, next', p);
    WalkFrame(next, next', q[1..] + rest);
  }

  lemma RightParts(done: seq<Node>, p: seq<Node>, q: seq<Node>, rest: seq<Node>)
    requires Apart(done + p + q + rest) && q != [] && Apart((done + [q[0]]) + p + q[1..] + rest)
    ensures Apart(done + [q[0]]) && Apart(done + p) && Apart(done + (q + rest)) && q[0] != 0
  {
    var s, t := done + p + q + rest, (done + [q[0]]) + p + q[1..] + rest;
    assert done + [q[0]] == t[..|done| + 1];
    assert done + p == s[..|done| + |p|];
    SubApart(s, |done|, |done| + |p|);
    assert s[|done| + |p|..] == q + rest;
    assert done + (q + rest) == s[..|done|] + s[|done| + |p|..];
    assert q[0] in q + rest;
  }

  ghost predicate Watched(i: int) { true }

  /** Between merges: `done` is out and `s` is still to come. */
  ghost predicate Idle(next: Field, prev: Field, list: Node, tail: Node, done: seq<Node>, s: seq<Node>)
  {
    (forall i {:trigger Watched(i)} :: Watched(i) ==>
          Apart(done + s) && Out(next, prev, done, list, tail) && Walk(next, s)) == true
  }

  /** Before the first merge of a pass. */
  lemma PassStart(next: Field, prev: Field, s: seq<Node>)
    requires ListOf(next, prev, s)
    ensures Idle(next, prev, 0, 0, [], s)
  {
    forall i | 0 <= i < |s|
      ensures Leads(next, s, i)
    {
      LinksHere(next, prev, s, i);
    }
    if s != [] {
      LinksHere(next, prev, s, |s| - 1);
    }
    assert [] + s == s;
  }

  /** The pending items split into two runs and the rest. */
  lemma MergeStart(next: Field, prev: Field, list: Node, tail: Node, done: seq<Node>, s: seq<Node>, k: nat, m: nat)
    requires Idle(next, prev, list, tail, done, s) && k <= m <= |s|
    ensures Merging(next, prev, list, tail, done, s[..k], s[k..m], s[m..])
  {
    assert Watched(0);
    Regroup(done, s, k, m);
    PathSlice(next, s, 0, k);
    PathSlice(next, s, k, |s|);
    assert s[0..k] == s[..k] && s[k..|s|] == s[k..];
  }

  lemma Regroup(done: seq<Node>, s: seq<Node>, k: nat, m: nat)
    requires k <= m <= |s|
    ensures done + s == done + s[..k] + s[k..m] + s[m..] && s[k..m] + s[m..] == s[k..]
  {
  }

  lemma PathSlice(next: Field, s: seq<Node>, a: nat, b: nat)
    requires Path(next, s) && a <= b <= |s|
    ensures Path(next, s[a..b])
  {
    forall i | 0 <= i < |s[a..b]|
      ensures Leads(next, s[a..b], i)
    {
      assert Leads(next, s, a + i);
    }
  }

  /** Both runs are used up. */
  lemma MergeEnd(next: Field, prev: Field, list: Node, tail: Node, done: seq<Node>, p: seq<Node>, q: seq<Node>,
      rest: seq<Node>)
    requires Merging(next, prev, list, tail, done, p, q, rest) && p == [] && q == []
    ensures Idle(next, prev, list, tail, done, rest)
  {
    assert Opened(0);
    assert done + p + q + rest == done + rest && q + rest == rest;
  }

  /** After the last merge of a pass, once the last item's `next` is cleared. */
  lemma PassEnd(next: Field, prev: Field, list: Node, tail: Node, done: seq<Node>)
    requires Idle(next, prev, list, tail, done, []) && done != []
    ensures ListOf(next[tail := 0], prev, done) && list == Nth(done, 0) && tail == done[|done| - 1]
  {
    assert Watched(0);
    assert done + [] == done;
    var next' := next[tail := 0];
    forall i | 0 <= i < |done|
      ensures LinkAt(next', prev, done, i)
    {
      assert Leads(next, done, i) && Back(prev, done, i);
    }
  }

  /** Following `next` through pending items. */
  lemma PendingNext(next: Field, prev: Field, list: Node, tail: Node, done: seq<Node>, s: seq<Node>, i: nat)
    requires Idle(next, prev, list, tail, done, s) && i < |s|
    ensures At(next, s[i]) == Nth(s, i + 1) && s[i] != 0
  {
    assert Watched(0);
    assert Leads(next, s, i);
    assert (done + s)[|done| + i] == s[i];
    assert s[i] in done + s;
  }
}
