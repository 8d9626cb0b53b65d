/**
 * The hash table of uthash.h: bucket chains and an insertion-order list threaded through the items,
 * automatic doubling, deletion, and a stable merge sort of the insertion-order list.
 *
 * The links of all items live in a store (module Links). The invariant is the one HASH_FSCK checks.
 */
module UtHash {
  import opened Bits
  import opened Chains
  import opened Links
  import opened Ordering
  import opened StableSort
  import opened ListMerge

  const INITIAL_LOG2: nat := 5
  const BKT_CAPACITY_THRESH: nat := 10

  datatype Bucket = Bucket(hhHead: Node, count: nat, expandMult: nat)

  /** The insertion-order list: its links and ends. */
  datatype App = App(next: Field, prev: Field, head: Node, tail: Node)

  ghost predicate AppOk(a: App, order: seq<Node>)
  {
    match a
    case App(next, prev, head, tail) =>
      ListOf(next, prev, order) && head == Nth(order, 0) && (order != [] ==> tail == order[|order| - 1])
  }

  /** The buckets and the links of their chains. */
  datatype Table = Table(hhNext: Field, hhPrev: Field, buckets: seq<Bucket>)

  /** HASH_TO_BKT */
  function ToBucket(hashv: nat, num: nat): nat
    requires num > 0
  {
    And(hashv, num - 1)
  }

  /** The mask takes the remainder. */
  lemma BucketIsRemainder(hashv: nat, num: nat)
    requires IsPow2(num)
    ensures ToBucket(hashv, num) == hashv % num
  {
    MaskInRange(hashv, num);
  }

  /** Bucket `i` counts and heads its chain, whose items hash to it. */
  ghost predicate ChainOk(t: Table, chains: seq<seq<Node>>, hashv: map<Node, nat>, i: nat)
    requires i < |chains| == |t.buckets|
  {
    && ListOf(t.hhNext, t.hhPrev, chains[i])
    && t.buckets[i].hhHead == Nth(chains[i], 0) && t.buckets[i].count == |chains[i]|
    && (forall n :: n in chains[i] ==> n in hashv && ToBucket(hashv[n], |chains|) == i)
  }

  ghost predicate TableOk(t: Table, chains: seq<seq<Node>>, hashv: map<Node, nat>)
  {
    match t
    case Table(_, _, buckets) =>
      && |buckets| == |chains| > 0
      && (forall i {:trigger ChainOk(t, chains, hashv, i)} :: 0 <= i < |chains| ==> ChainOk(t, chains, hashv, i))
  }

  ghost predicate Once(bag: multiset<Node>)
  {
    forall n :: n in bag ==> bag[n] == 1
  }

  /** No item is in two chains. */
  lemma ChainsDisjoint(chains: seq<seq<Node>>, i: nat, j: nat, n: Node)
    requires Once(Bag(chains)) && i < |chains| && j < |chains| && i != j && n in chains[i]
    ensures n !in chains[j]
  {
    if n in chains[j] {
      BagTwice(chains, i, j, n);
    }
  }

  /** A write to the links of items of one chain leaves the other chains as they are. */
  lemma OtherChain(t: Table, t': Table, chains: seq<seq<Node>>, chains': seq<seq<Node>>, hashv: map<Node, nat>,
      i: nat, k: nat)
    requires |chains'| == |chains| == |t.buckets| == |t'.buckets| && k < |chains| && i < |chains| && k != i
    requires ChainOk(t, chains, hashv, k) && chains'[k] == chains[k] && t'.buckets[k] == t.buckets[k]
    requires forall n :: n in chains[k] ==> At(t'.hhNext, n) == At(t.hhNext, n) && At(t'.hhPrev, n) == At(t.hhPrev, n)
    ensures ChainOk(t', chains', hashv, k)
  {
    ListFrame(t.hhNext, t.hhPrev, t'.hhNext, t'.hhPrev, chains[k]);
  }

  /** HASH_ADD_TO_BKT, without the expansion. */
  function PushBucket(t: Table, i: nat, n: Node): Table
    requires i < |t.buckets|
  {
    var b := t.buckets[i];
    Table(t.hhNext[n := b.hhHead],
          if b.hhHead == 0 then t.hhPrev[n := 0] else t.hhPrev[n := 0][b.hhHead := n],
          t.buckets[i := b.(hhHead := n, count := b.count + 1)])
  }

  lemma PushBucketKeeps(t: Table, chains: seq<seq<Node>>, hashv: map<Node, nat>, i: nat, n: Node, t': Table)
    requires TableOk(t, chains, hashv) && Once(Bag(chains)) && i < |chains| && n != 0 && n !in Bag(chains)
    requires n in hashv && ToBucket(hashv[n], |chains|) == i && t' == PushBucket(t, i, n)
    ensures TableOk(t', chains[i := [n] + chains[i]], hashv)
  {
    var c, chains' := chains[i], chains[i := [n] + chains[i]];
    assert ChainOk(t, chains, hashv, i);
    forall k | 0 <= k < |chains|
      ensures n !in chains[k]
    {
      BagHas(chains, n);
    }
    PushKeeps(t.hhNext, t.hhPrev, c, n);
    forall k | 0 <= k < |chains'|
      ensures ChainOk(t', chains', hashv, k)
    {
      assert ChainOk(t, chains, hashv, k);
      if k != i {
        if c != [] {
          ChainsDisjoint(chains, i, k, c[0]);
        }
        OtherChain(t, t', chains, chains', hashv, i, k);
      }
    }
  }

  /** The expansion multiplier plays no part in the chains. */
  lemma SetMultiplier(t: Table, chains: seq<seq<Node>>, hashv: map<Node, nat>, i: nat, b: Bucket, t': Table)
    requires TableOk(t, chains, hashv) && i < |t.buckets| && b.hhHead == t.buckets[i].hhHead
        && b.count == t.buckets[i].count
    requires t' == t.(buckets := t.buckets[i := b])
    ensures TableOk(t', chains, hashv)
  {
    forall k | 0 <= k < |chains|
      ensures ChainOk(t', chains, hashv, k)
    {
      assert ChainOk(t, chains, hashv, k);
    }
  }

  /** HASH_DEL_IN_BKT of the item at position `p` of its chain. */
  function CutBucket(t: Table, c: seq<Node>, i: nat, p: nat): Table
    requires i < |t.buckets| && p < |c| && t.buckets[i].count > 0
  {
    var b := t.buckets[i];
    Table(CutNext(t.hhNext, c, p), CutPrev(t.hhPrev, c, p),
          t.buckets[i := b.(count := b.count - 1, hhHead := if p == 0 then Nth(c, 1) else b.hhHead)])
  }

  lemma CutBucketKeeps(t: Table, chains: seq<seq<Node>>, hashv: map<Node, nat>, i: nat, p: nat, t': Table)
    requires TableOk(t, chains, hashv) && Once(Bag(chains)) && i < |chains| && p < |chains[i]| && t.buckets[i].count > 0
    requires t' == CutBucket(t, chains[i], i, p)
    ensures TableOk(t', chains[i := Cut(chains[i], p)], hashv)
  {
    var c, chains' := chains[i], chains[i := Cut(chains[i], p)];
    assert ChainOk(t, chains, hashv, i);
    CutKeeps(t.hhNext, t.hhPrev, c, p);
    assert forall n :: n in Cut(c, p) ==> n in c;
    forall k | 0 <= k < |chains'|
      ensures ChainOk(t', chains', hashv, k)
    {
      assert ChainOk(t, chains, hashv, k);
      if k != i {
        if p > 0 {
          ChainsDisjoint(chains, i, k, c[p - 1]);
        }
        if p + 1 < |c| {
          ChainsDisjoint(chains, i, k, c[p + 1]);
        }
        OtherChain(t, t', chains, chains', hashv, i, k);
      }
    }
  }

  /** New hash values for items outside the table change nothing. */
  lemma NewHash(t: Table, chains: seq<seq<Node>>, hashv: map<Node, nat>, n: Node, h: nat)
    requires TableOk(t, chains, hashv) && n !in Bag(chains)
    ensures TableOk(t, chains, hashv[n := h])
  {
    var hashv' := hashv[n := h];
    forall k | 0 <= k < |chains|
      ensures ChainOk(t, chains, hashv', k)
    {
      assert ChainOk(t, chains, hashv, k);
      BagHas(chains, n);
    }
  }

  // ----- expansion

  /** The shift-and-mask form of the ideal chain length is the quotient rounded up. */
  lemma IdealIsCeiling(items: nat, lb: nat, b: nat, mask: nat, q: nat)
    requires b == Pow2(lb) && mask == And(items, b - 1) && q == items / b
    ensures q + (if mask != 0 then 1 else 0) == (items + b - 1) / b
  {
    MaskIsRemainder(items, lb, b, mask);
    Ceiling(items, b, q, mask);
  }

  lemma MaskIsRemainder(items: nat, lb: nat, b: nat, mask: nat)
    requires b == Pow2(lb) && mask == And(items, b - 1)
    ensures mask == items % b
  {
    AndMask(items, lb);
  }

  lemma Ceiling(n: nat, b: nat, q: nat, r: nat)
    requires b > 0 && q == n / b && r == n % b
    ensures (n + b - 1) / b == if r != 0 then q + 1 else q
  {
    DivMod(n, b);
    if r == 0 {
      QuotientUnique(n + b - 1, b, q, b - 1);
    } else {
      Distribute(q, b);
      QuotientUnique(n + b - 1, b, q + 1, r - 1);
    }
  }

  lemma DivMod(n: nat, b: nat)
    requires b > 0
    ensures n == (n / b) * b + n % b
  {
  }

  lemma Distribute(q: nat, b: nat)
    ensures (q + 1) * b == q * b + b
  {
  }

  /** The items beyond the ideal chain length, over all chains. */
  ghost function Excess(chains: seq<seq<Node>>, ideal: nat): nat
  {
    if chains == [] then 0
    else Excess(chains[..|chains| - 1], ideal) + Over(|chains[|chains| - 1]|, ideal)
  }

  function Over(n: nat, ideal: nat): nat { if n > ideal then n - ideal else 0 }

  lemma {:induction false} ExcessUpdate(chains: seq<seq<Node>>, ideal: nat, i: nat, c: seq<Node>)
    requires i < |chains|
    ensures Excess(chains[i := c], ideal) + Over(|chains[i]|, ideal) == Excess(chains, ideal) + Over(|c|, ideal)
  {
    var init := chains[..|chains| - 1];
    if i == |chains| - 1 {
      assert chains[i := c][..|chains| - 1] == init;
    } else {
      assert chains[i := c][..|chains| - 1] == init[i := c];
      ExcessUpdate(init, ideal, i, c);
    }
  }

  lemma {:induction false} NoExcess(chains: seq<seq<Node>>, ideal: nat)
    requires forall i :: 0 <= i < |chains| ==> chains[i] == []
    ensures Excess(chains, ideal) == 0
  {
    if chains != [] {
      NoExcess(chains[..|chains| - 1], ideal);
    }
  }

  /** The multiplier of a bucket: its load in ideal chain lengths when it is overloaded. */
  function Multiplier(n: nat, ideal: nat): nat
    requires ideal > 0
  {
    if n > ideal then n / ideal else 0
  }

  ghost predicate Multiplied(buckets: seq<Bucket>, chains: seq<seq<Node>>, ideal: nat)
  {
    ideal > 0 && |buckets| == |chains| && forall i :: 0 <= i < |chains| ==>
          buckets[i].expandMult == Multiplier(|chains[i]|, ideal)
  }

  /** Moving one item to its new bucket, whose multiplier is set to `mult` when it is overloaded. */
  function MoveTo(t: Table, b: nat, n: Node, ideal: nat, mult: nat): Table
    requires b < |t.buckets|
  {
    var t' := PushBucket(t, b, n);
    var k := t'.buckets[b];
    if k.count > ideal then t'.(buckets := t'.buckets[b := k.(expandMult := mult)]) else t'
  }

  lemma MoveToKeeps(t: Table, chains: seq<seq<Node>>, hashv: map<Node, nat>, b: nat, n: Node, ideal: nat, mult: nat,
      t': Table)
    requires TableOk(t, chains, hashv) && Once(Bag(chains)) && b < |chains| && n != 0 && n !in Bag(chains)
    requires n in hashv && ToBucket(hashv[n], |chains|) == b && t' == MoveTo(t, b, n, ideal, mult)
    ensures TableOk(t', chains[b := [n] + chains[b]], hashv)
  {
    var p, chains' := PushBucket(t, b, n), chains[b := [n] + chains[b]];
    PushBucketKeeps(t, chains, hashv, b, n, p);
    if p.buckets[b].count > ideal {
      SetMultiplier(p, chains', hashv, b, p.buckets[b].(expandMult := mult), t');
    }
  }

  lemma MultipliedMore(t: Table, chains: seq<seq<Node>>, b: nat, n: Node, ideal: nat, mult: nat)
    requires Multiplied(t.buckets, chains, ideal) && b < |chains| && t.buckets[b].count == |chains[b]|
    requires mult == (|chains[b]| + 1) / ideal
    ensures Multiplied(MoveTo(t, b, n, ideal, mult).buckets, chains[b := [n] + chains[b]], ideal)
  {
  }

  /** The items of later chains are not among those moved. */
  lemma NotMoved(chains: seq<seq<Node>>, i: nat, n: Node)
    requires Once(Bag(chains)) && i < |chains| && n in chains[i]
    ensures n !in Bag(chains[..i])
  {
    BagHas(chains[..i], n);
    if n in Bag(chains[..i]) {
      var j :| 0 <= j < |chains[..i]| && n in chains[..i][j];
      ChainsDisjoint(chains, i, j, n);
    }
  }

  // ----- the whole table

  /** Everything an application sees or could see of a hash: HASH_FSCK's view, with keys and hash values. */
  datatype Snapshot<K> = Snapshot(app: App, table: Table, keys: map<Node, K>, hashv: map<Node, nat>, numItems: nat,
      log2: nat)

  /** Each item is filed under its key, and each key names an item. */
  ghost predicate Named<K>(keys: map<Node, K>, hashv: map<Node, nat>, hash: K -> nat, order: seq<Node>,
      content: map<K, Node>)
  {
    && (forall n :: n in order ==>
          n in keys && n in hashv && hashv[n] == hash(keys[n]) && keys[n] in content && content[keys[n]] == n)
    && (forall k :: k in content ==> content[k] in order && content[k] in keys && keys[content[k]] == k)
  }

  ghost predicate Coherent<K>(u: Snapshot<K>, hash: K -> nat, order: seq<Node>, chains: seq<seq<Node>>,
      content: map<K, Node>)
  {
    match u
    case Snapshot(app, table, keys, hashv, numItems, log2) =>
      && AppOk(app, order) && Named(keys, hashv, hash, order, content)
      && (order != [] ==>
            && TableOk(table, chains, hashv) && |chains| == Pow2(log2)
            && multiset(order) == Bag(chains) && numItems == |order|)
  }

  ghost predicate Opened(i: int) { true }

  /** `Coherent`, in view only where `Opened` is mentioned. */
  ghost predicate Valid<K>(u: Snapshot<K>, hash: K -> nat, order: seq<Node>, chains: seq<seq<Node>>, content: map<K,
      Node>)
  {
    (forall i {:trigger Opened(i)} :: Opened(i) ==> Coherent(u, hash, order, chains, content)) == true
  }

  lemma {:induction false} DistinctOnce(s: seq<Node>)
    requires Distinct(s)
    ensures Once(multiset(s))
  {
    if s != [] {
      var init := s[..|s| - 1];
      assert s == init + [s[|s| - 1]];
      DistinctOnce(init);
      forall n | n in multiset(s)
        ensures multiset(s)[n] == 1
      {
        if n == s[|s| - 1] {
          assert n !in init;
        }
      }
    }
  }

  /** The bucket an item or a key belongs to, and its chain. */
  lemma HomeBucket<K>(u: Snapshot<K>, hash: K -> nat, order: seq<Node>, chains: seq<seq<Node>>, content: map<K, Node>,
      h: nat)
    requires Valid(u, hash, order, chains, content) && order != []
    ensures |u.table.buckets| == |chains| > 0 && ToBucket(h, |chains|) < |chains|
    ensures ChainOk(u.table, chains, u.hashv, ToBucket(h, |chains|))
  {
    assert Opened(0);
    assert IsPow2(|chains|);
    MaskInRange(h, |chains|);
    assert ChainOk(u.table, chains, u.hashv, ToBucket(h, |chains|));
  }

  lemma BucketInRange<K>(u: Snapshot<K>, hash: K -> nat, order: seq<Node>, chains: seq<seq<Node>>, content: map<K,
      Node>, h: nat)
    requires Valid(u, hash, order, chains, content) && order != []
    ensures |u.table.buckets| == |chains| > 0 && ToBucket(h, |chains|) < |chains|
  {
    HomeBucket(u, hash, order, chains, content, h);
  }

  /** An item is in the chain its hash value selects. */
  lemma InHome<K>(u: Snapshot<K>, hash: K -> nat, order: seq<Node>, chains: seq<seq<Node>>, content: map<K, Node>,
      n: Node)
    requires Valid(u, hash, order, chains, content) && n in order
    ensures n in u.hashv && n in u.keys && u.hashv[n] == hash(u.keys[n]) && |chains| > 0
    ensures ToBucket(u.hashv[n], |chains|) < |chains| && n in chains[ToBucket(u.hashv[n], |chains|)]
  {
    assert Opened(0);
    HomeBucket(u, hash, order, chains, content, u.hashv[n]);
    assert n in multiset(order);
    BagHas(chains, n);
    var i :| 0 <= i < |chains| && n in chains[i];
    assert ChainOk(u.table, chains, u.hashv, i);
  }

  /** An item in some chain is one of the items. */
  lemma ChainedIsItem<K>(u: Snapshot<K>, hash: K -> nat, order: seq<Node>, chains: seq<seq<Node>>, content: map<K,
      Node>, i: nat, n: Node)
    requires Valid(u, hash, order, chains, content) && order != [] && i < |chains| && n in chains[i]
    ensures n in order && n in u.keys && u.keys[n] in content && content[u.keys[n]] == n
  {
    assert Opened(0);
    BagHas(chains, n);
    assert n in multiset(order);
  }

  lemma ContentItem<K>(u: Snapshot<K>, hash: K -> nat, order: seq<Node>, chains: seq<seq<Node>>, content: map<K,
      Node>, key: K)
    requires Valid(u, hash, order, chains, content) && key in content
    ensures content[key] in order && content[key] in u.keys && u.keys[content[key]] == key
  {
    assert Opened(0);
  }

  lemma HeadOf<K>(u: Snapshot<K>, hash: K -> nat, order: seq<Node>, chains: seq<seq<Node>>, content: map<K, Node>)
    requires Valid(u, hash, order, chains, content)
    ensures (u.app.head == 0 <==> order == []) && (order == [] ==> content == map[])
    ensures order != [] ==> u.numItems == |order| && |chains| == |u.table.buckets| == Pow2(u.log2)
  {
    assert Opened(0);
    if order != [] {
      LinksHere(u.app.next, u.app.prev, order, 0);
    }
  }

  // ----- adding

  /** The first item of a hash: the table is made for it. */
  lemma ValidFirst<K>(hash: K -> nat, n: Node, key: K, lb: nat, t0: Table, i: nat, u: Snapshot<K>)
      returns (chains: seq<seq<Node>>)
    requires n != 0 && t0.buckets != [] && forall k :: 0 <= k < |t0.buckets| ==> t0.buckets[k] == Bucket(0, 0, 0)
    requires |t0.buckets| == Pow2(lb) && i == ToBucket(hash(key), |t0.buckets|) && i < |t0.buckets|
    requires At(u.app.next, n) == 0 && At(u.app.prev, n) == 0 && u.app.head == u.app.tail == n
        && u.table == PushBucket(t0, i, n)
    requires n in u.keys && u.keys[n] == key && n in u.hashv && u.hashv[n] == hash(key) && u.numItems == 1
        && u.log2 == lb
    ensures Valid(u, hash, [n], chains, map[key := n])
  {
    var empty: seq<seq<Node>> := seq(|t0.buckets|, _ => []);
    EmptyTable(t0, u.hashv);
    BagEmpty(empty);
    PushBucketKeeps(t0, empty, u.hashv, i, n, u.table);
    chains := empty[i := [n] + empty[i]];
    BagPush(empty, i, n);
    assert AppOk(u.app, [n]) by {
      assert LinkAt(u.app.next, u.app.prev, [n], 0);
    }
    assert multiset([n]) == Bag(chains);
    assert Named(u.keys, u.hashv, hash, [n], map[key := n]);
  }

  lemma EmptyTable(t: Table, hashv: map<Node, nat>)
    requires t.buckets != [] && forall i :: 0 <= i < |t.buckets| ==> t.buckets[i] == Bucket(0, 0, 0)
    ensures TableOk(t, seq(|t.buckets|, _ => []), hashv)
  {
    var chains: seq<seq<Node>> := seq(|t.buckets|, _ => []);
    forall i | 0 <= i < |chains|
      ensures ChainOk(t, chains, hashv, i)
    {
    }
  }

  /** A further item: appended to the list, pushed on its bucket. */
  lemma ValidAdd<K>(u: Snapshot<K>, hash: K -> nat, order: seq<Node>, chains: seq<seq<Node>>, content: map<K, Node>,
      n: Node, key: K, i: nat, u': Snapshot<K>)
    requires Valid(u, hash, order, chains, content) && order != [] && n != 0 && n !in order && key !in content
    requires |u.table.buckets| > 0 && i == ToBucket(hash(key), |u.table.buckets|) && i < |u.table.buckets|
    requires u'.app == App(u.app.next[n := 0][u.app.tail := n], u.app.prev[n := u.app.tail], u.app.head, n)
    requires u'.table == PushBucket(u.table, i, n) && u'.keys == u.keys[n := key] && u'.hashv == u.hashv[n := hash(key)]
    requires u'.numItems == u.numItems + 1 && u'.log2 == u.log2 && i < |chains|
    ensures Valid(u', hash, order + [n], chains[i := [n] + chains[i]], content[key := n])
  {
    assert Opened(0);
    AppendKeeps(u.app.next, u.app.prev, order, n, u.app.tail);
    assert n !in multiset(order);
    NewHash(u.table, chains, u.hashv, n, hash(key));
    DistinctOnce(order);
    PushBucketKeeps(u.table, chains, u'.hashv, i, n, u'.table);
    BagPush(chains, i, n);
    assert multiset(order + [n]) == multiset(order) + multiset{n};
    NamedAdd(u.keys, u.hashv, hash, order, content, n, key);
  }

  lemma NamedAdd<K>(keys: map<Node, K>, hashv: map<Node, nat>, hash: K -> nat, order: seq<Node>, content: map<K,
      Node>, n: Node, key: K)
    requires Named(keys, hashv, hash, order, content) && n !in order && key !in content
    ensures Named(keys[n := key], hashv[n := hash(key)], hash, order + [n], content[key := n])
  {
  }

  // ----- deleting, expanding, reordering

  lemma CutBag(s: seq<Node>, i: nat)
    requires i < |s|
    ensures multiset(Cut(s, i)) == multiset(s) - multiset{s[i]} && s[i] in multiset(s)
  {
    var a, b := s[..i], s[i + 1..];
    assert s == a + [s[i]] + b;
    assert multiset(s) == multiset(a) + multiset{s[i]} + multiset(b);
    assert multiset(Cut(s, i)) == multiset(a) + multiset(b);
  }

  /** The list without the item at position `a`. */
  lemma AppDelete(app: App, order: seq<Node>, a: nat, app': App)
    requires AppOk(app, order) && a < |order| && |order| > 1
    requires app' == App(CutNext(app.next, order, a), CutPrev(app.prev, order, a),
                         if a == 0 then Nth(order, 1) else app.head, if a == |order| - 1 then Nth(order, a - 1)
                             else app.tail)
    ensures AppOk(app', Cut(order, a))
  {
    CutKeeps(app.next, app.prev, order, a);
  }

  lemma NamedDelete<K>(keys: map<Node, K>, hashv: map<Node, nat>, hash: K -> nat, order: seq<Node>, content: map<K,
      Node>, a: nat)
    requires Named(keys, hashv, hash, order, content) && Distinct(order) && a < |order| && order[a] in keys
    ensures Named(keys, hashv, hash, Cut(order, a), content - {keys[order[a]]})
  {
    var order', content' := Cut(order, a), content - {keys[order[a]]};
    forall n | n in order'
      ensures n in order && n != order[a]
    {
      var j :| 0 <= j < |order'| && order'[j] == n;
      assert n == order[if j < a then j else j + 1];
    }
    forall k | k in content'
      ensures content'[k] in order'
    {
      var j :| 0 <= j < |order| && order[j] == content[k];
      assert content[k] == order'[if j < a then j else j - 1];
    }
  }

  lemma ValidDelete<K>(u: Snapshot<K>, hash: K -> nat, order: seq<Node>, chains: seq<seq<Node>>, content: map<K,
      Node>, a: nat, i: nat, p: nat, u': Snapshot<K>)
    requires Valid(u, hash, order, chains, content) && a < |order| && |order| > 1 && i < |chains| && p < |chains[i]|
        && chains[i][p] == order[a]
    requires i < |u.table.buckets| && u.table.buckets[i].count > 0 && order[a] in u.keys && u.numItems > 0
    requires u'.app == App(CutNext(u.app.next, order, a), CutPrev(u.app.prev, order, a),
                           if a == 0 then Nth(order, 1) else u.app.head, if a == |order| - 1 then Nth(order, a - 1)
                               else u.app.tail)
    requires u' == Snapshot(u'.app, CutBucket(u.table, chains[i], i, p), u.keys, u.hashv, u.numItems - 1, u.log2)
    ensures Valid(u', hash, Cut(order, a), chains[i := Cut(chains[i], p)], content - {u.keys[order[a]]})
  {
    assert Opened(0);
    DistinctOnce(order);
    AppDelete(u.app, order, a, u'.app);
    CutBucketKeeps(u.table, chains, u.hashv, i, p, u'.table);
    BagCut(chains, i, p);
    CutBag(order, a);
    NamedDelete(u.keys, u.hashv, hash, order, content, a);
  }

  lemma ValidExpand<K>(u: Snapshot<K>, hash: K -> nat, order: seq<Node>, chains: seq<seq<Node>>, content: map<K,
      Node>, t: Table, chains': seq<seq<Node>>)
    requires Valid(u, hash, order, chains, content) && order != []
    requires TableOk(t, chains', u.hashv) && |chains'| == 2 * |chains| && Bag(chains') == Bag(chains)
    ensures Valid(u.(table := t, log2 := u.log2 + 1), hash, order, chains', content)
  {
    assert Opened(0);
    assert Pow2(u.log2 + 1) == 2 * Pow2(u.log2);
  }

  lemma ValidReorder<K>(u: Snapshot<K>, hash: K -> nat, order: seq<Node>, chains: seq<seq<Node>>, content: map<K,
      Node>, app: App, order': seq<Node>)
    requires Valid(u, hash, order, chains, content) && AppOk(app, order') && multiset(order') == multiset(order)
    ensures Valid(u.(app := app), hash, order', chains, content)
  {
    assert Opened(0);
    SameMembers(order, order');
  }

  lemma SameMembers(s: seq<Node>, t: seq<Node>)
    requires multiset(s) == multiset(t)
    ensures |s| == |t| && forall n :: n in s <==> n in t
  {
    assert |multiset(s)| == |multiset(t)|;
    forall n
      ensures n in s <==> n in t
    {
      assert n in s <==> n in multiset(s);
      assert n in t <==> n in multiset(t);
    }
  }

  class Hash<K(==)> {
    const hash: K -> nat
    // the handles of the items
    var next: Field
    var prev: Field
    var hhNext: Field
    var hhPrev: Field
    var keys: map<Node, K>
    var hashv: map<Node, nat>
    // the head pointer and the table
    var head: Node
    var tail: Node
    var buckets: seq<Bucket>
    var log2: nat
    var numItems: nat
    var ideal: nat
    var nonideal: nat
    var ineffExpands: nat
    var noexpand: bool
    // what they stand for
    ghost var order: seq<Node>
    ghost var chains: seq<seq<Node>>
    ghost var content: map<K, Node>

    ghost function View(): Snapshot<K>
      reads this
    {
      Snapshot(App(next, prev, head, tail), Table(hhNext, hhPrev, buckets), keys, hashv, numItems, log2)
    }

    ghost predicate Ok()
      reads this
    {
      Valid(View(), hash, order, chains, content)
    }

    constructor (hash: K -> nat)
      ensures Ok() && order == [] && content == map[] && this.hash == hash
    {
      this.hash := hash;
      next, prev, hhNext, hhPrev, keys, hashv := map[], map[], map[], map[], map[], map[];
      head, tail, buckets, log2, numItems := 0, 0, [], 0, 0;
      ideal, nonideal, ineffExpands, noexpand := 0, 0, 0, false;
      order, chains, content := [], [], map[];
    }

    /** The fields stand for a new list, new chains and a new map. */
    ghost method Adopt(order': seq<Node>, chains': seq<seq<Node>>, content': map<K, Node>)
      requires Valid(View(), hash, order', chains', content')
      modifies `order, `chains, `content
      ensures Ok() && order == order' && chains == chains' && content == content' && View() == old(View())
    {
      order, chains, content := order', chains', content';
    }

    /** HASH_FIND_IN_BKT: walk a chain for the key. */
    method FindInBucket(first: Node, key: K, ghost c: seq<Node>) returns (out: Node)
      requires ListOf(hhNext, hhPrev, c) && first == Nth(c, 0) && forall n :: n in c ==> n in keys
      ensures out == 0 ==> forall n :: n in c ==> keys[n] != key
      ensures out != 0 ==> out in c && keys[out] == key
    {
      out := first;
      ghost var p := 0;
      while out != 0
        invariant 0 <= p <= |c| && out == Nth(c, p) && forall j :: 0 <= j < p ==> keys[c[j]] != key
        decreases |c| - p
      {
        assert p < |c| && out in c;
        if keys[out] == key {
          return;
        }
        LinksHere(hhNext, hhPrev, c, p);
        out := At(hhNext, out);
        p := p + 1;
      }
      NthNull(c, p);
    }

    /** HASH_FIND: the item with the key, or NULL. */
    method Find(key: K) returns (out: Node)
      requires Ok()
      ensures out == if key in content then content[key] else 0
    {
      HeadOf(View(), hash, order, chains, content);
      if head == 0 {
        return 0;
      }
      var i := ToBucket(hash(key), |buckets|);
      HomeBucket(View(), hash, order, chains, content, hash(key));
      ghost var c := chains[i];
      forall n | n in c
        ensures n in keys && keys[n] in content && content[keys[n]] == n
      {
        ChainedIsItem(View(), hash, order, chains, content, i, n);
      }
      out := FindInBucket(buckets[i].hhHead, key, c);
      if key in content {
        ContentItem(View(), hash, order, chains, content, key);
        InHome(View(), hash, order, chains, content, content[key]);
      }
    }

    /** With one more item the bucket of the key reaches ten times its multiplier and one, and expansion is allowed. */
    ghost predicate Crowded(key: K)
      reads this
    {
      !noexpand && buckets != [] && var i := ToBucket(hash(key), |buckets|);
      i < |buckets| && buckets[i].count + 1 >= (buckets[i].expandMult + 1) * BKT_CAPACITY_THRESH
    }

    /** The chain of the key is shorter than ten times its multiplier and one. */
    ghost predicate Bounded(key: K)
      reads this
    {
      buckets != [] && var i := ToBucket(hash(key), |buckets|);
      i < |buckets| && buckets[i].count < (buckets[i].expandMult + 1) * BKT_CAPACITY_THRESH
    }

    /**
     * HASH_ADD_KEYPTR of an item that is in no hash, under a key that is not present: a first table has 32
     * buckets, and a crowded bucket doubles them.
     */
    method Add(n: Node, key: K)
      requires Ok() && n != 0 && n !in order && key !in content
      modifies this
      ensures Ok() && order == old(order) + [n] && content == old(content)[key := n]
      ensures old(order) == [] ==> |buckets| == 32
      ensures old(order) != [] ==> |buckets| == if old(Crowded(key)) then 2 * old(|buckets|) else old(|buckets|)
      ensures old(order) != [] && !old(noexpand) && |buckets| == old(|buckets|) ==> Bounded(key)
    {
      HeadOf(View(), hash, order, chains, content);
      if head == 0 {
        AddFirst(n, key);
      } else {
        AddNext(n, key);
      }
    }

    /** The first item: make the table. */
    method AddFirst(n: Node, key: K)
      requires Ok() && n != 0 && order == [] && content == map[]
      modifies this
      ensures Ok() && order == [n] && content == map[key := n] && |buckets| == 32
    {
      ghost var t0 := PlaceFirst(n, key);
      var i := ToBucket(hash(key), |buckets|);
      MaskInRange(hash(key), |buckets|);
      AddToBucket(i, n);
      ghost var u := View();
      ghost var cs := ValidFirst(hash, n, key, log2, t0, i, u);
      Adopt([n], cs, map[key := n]);
    }

    /** Make the first item the head, with a new table. */
    method PlaceFirst(n: Node, key: K) returns (ghost t0: Table)
      modifies `next, `prev, `keys, `hashv, `head, `tail, `log2, `numItems, `ideal, `nonideal, `ineffExpands,
          `noexpand, `buckets
      ensures head == tail == n && At(next, n) == 0 && At(prev, n) == 0 && numItems == 1
      ensures n in keys && keys[n] == key && n in hashv && hashv[n] == hash(key)
      ensures t0 == Table(hhNext, hhPrev, buckets) && |buckets| == 32 == Pow2(log2) && IsPow2(|buckets|)
      ensures forall k :: 0 <= k < |buckets| ==> buckets[k] == Bucket(0, 0, 0)
    {
      head := n;
      next, prev := next[n := 0], prev[n := 0];
      MakeTable();
      numItems := numItems + 1;
      keys, hashv := keys[n := key], hashv[n := hash(key)];
      t0 := Table(hhNext, hhPrev, buckets);
    }

    /** HASH_MAKE_TABLE */
    method MakeTable()
      modifies `tail, `log2, `numItems, `ideal, `nonideal, `ineffExpands, `noexpand, `buckets
      ensures tail == head && numItems == 0 && !noexpand && |buckets| == 32 == Pow2(log2) && IsPow2(|buckets|)
      ensures forall k :: 0 <= k < |buckets| ==> buckets[k] == Bucket(0, 0, 0)
    {
      tail := head;
      log2, numItems, ideal, nonideal, ineffExpands, noexpand := INITIAL_LOG2, 0, 0, 0, 0, false;
      assert Pow2(2) == 4 && Pow2(4) == 16;
      buckets := seq(Pow2(INITIAL_LOG2), _ => Bucket(0, 0, 0));
    }

    /** A further item, and the expansion it may trigger. */
    method AddNext(n: Node, key: K)
      requires Ok() && n != 0 && n !in order && key !in content && order != []
      modifies this
      ensures Ok() && order == old(order) + [n] && content == old(content)[key := n]
      ensures |buckets| == if old(Crowded(key)) then 2 * old(|buckets|) else old(|buckets|)
      ensures !old(noexpand) && |buckets| == old(|buckets|) ==> Bounded(key)
    {
      HeadOf(View(), hash, order, chains, content);
      var i := LinkItem(n, key);
      HeadOf(View(), hash, order, chains, content);
      if buckets[i].count >= (buckets[i].expandMult + 1) * BKT_CAPACITY_THRESH && !noexpand {
        ExpandBuckets();
      }
    }

    /** HASH_ADD_TO_BKT without the expansion. */
    method AddToBucket(i: nat, n: Node)
      requires i < |buckets|
      modifies `hhNext, `hhPrev, `buckets
      ensures Table(hhNext, hhPrev, buckets) == PushBucket(old(Table(hhNext, hhPrev, buckets)), i, n)
    {
      var b := buckets[i];
      hhNext := hhNext[n := b.hhHead];
      hhPrev := hhPrev[n := 0];
      if b.hhHead != 0 {
        hhPrev := hhPrev[b.hhHead := n];
      }
      buckets := buckets[i := b.(hhHead := n, count := b.count + 1)];
    }

    /** Append an item to the insertion-order list. */
    method Append(n: Node)
      modifies `next, `prev, `tail, `numItems
      ensures App(next, prev, head, tail) == App(old(next)[n := 0][old(tail) := n], old(prev)[n := old(tail)], head, n)
      ensures numItems == old(numItems) + 1
    {
      next := next[n := 0];
      next := next[tail := n];
      prev := prev[n := tail];
      tail := n;
      numItems := numItems + 1;
    }

    /** The writes for a further item. */
    method PlaceNext(n: Node, key: K, i: nat)
      requires i < |buckets|
      modifies `next, `prev, `tail, `numItems, `keys, `hashv, `hhNext, `hhPrev, `buckets
      ensures View() == Snapshot(App(old(next)[n := 0][old(tail) := n], old(prev)[n := old(tail)], head, n),
                                 PushBucket(old(Table(hhNext, hhPrev, buckets)), i, n),
                                 old(keys)[n := key], old(hashv)[n := hash(key)], old(numItems) + 1, log2)
    {
      Append(n);
      keys, hashv := keys[n := key], hashv[n := hash(key)];
      AddToBucket(i, n);
    }

    /** Link a further item into the list and its bucket. */
    method LinkItem(n: Node, key: K) returns (i: nat)
      requires Ok() && n != 0 && n !in order && key !in content && order != []
      modifies this
      ensures Ok() && order == old(order) + [n] && content == old(content)[key := n] && i < |buckets|
      ensures noexpand == old(noexpand) && |buckets| == old(|buckets|) > 0 && i == ToBucket(hash(key), |buckets|)
      ensures buckets[i] == old(buckets)[i].(hhHead := n, count := old(buckets)[i].count + 1)
    {
      ghost var u := View();
      BucketInRange(u, hash, order, chains, content, hash(key));
      i := ToBucket(hash(key), |buckets|);
      PlaceNext(n, key, i);
      ValidAdd(u, hash, order, chains, content, n, key, i, View());
      Adopt(order + [n], chains[i := [n] + chains[i]], content[key := n]);
    }

    /** Count the item in its new bucket and put it at the head of the chain. */
    method PushInto(nb: seq<Bucket>, i: nat, n: Node) returns (nb': seq<Bucket>)
      requires i < |nb|
      modifies `hhNext, `hhPrev
      ensures Table(hhNext, hhPrev, nb') == PushBucket(old(Table(hhNext, hhPrev, nb)), i, n)
      ensures forall k :: k != n ==> At(hhNext, k) == old(At(hhNext, k))
    {
      var b := nb[i];
      hhPrev := hhPrev[n := 0];
      hhNext := hhNext[n := b.hhHead];
      if b.hhHead != 0 {
        hhPrev := hhPrev[b.hhHead := n];
      }
      nb' := nb[i := b.(hhHead := n, count := b.count + 1)];
    }

    /** Move one item to its new bucket. */
    method MoveOne(n: Node, nb: seq<Bucket>, ghost cs: seq<seq<Node>>) returns (nb': seq<Bucket>, ghost b: nat)
      requires Spread(Table(hhNext, hhPrev, nb), cs, hashv, ideal, nonideal) && n != 0 && n in hashv
      requires n !in Bag(cs) && Once(Bag(cs))
      modifies `hhNext, `hhPrev, `nonideal
      ensures b < |cs| && Spread(Table(hhNext, hhPrev, nb'), cs[b := [n] + cs[b]], hashv, ideal, nonideal)
      ensures forall k :: k != n ==> At(hhNext, k) == old(At(hhNext, k))
    {
      ghost var t := Table(hhNext, hhPrev, nb);
      SpreadFacts(t, cs, hashv, ideal, nonideal);
      MaskInRange(hashv[n], |nb|);
      var i := ToBucket(hashv[n], |nb|);
      b := i;
      nb' := PushInto(nb, i, n);
      var mult := nb'[i].count / ideal;
      if nb'[i].count > ideal {
        nonideal := nonideal + 1;
        nb' := nb'[i := nb'[i].(expandMult := mult)];
      }
      ghost var t' := Table(hhNext, hhPrev, nb');
      SpreadMore(t, cs, hashv, ideal, old(nonideal), b, n, mult, t', nonideal);
    }

    /** Move the items of one old chain to the new buckets. */
    method Redistribute(first: Node, nb: seq<Bucket>, ghost c: seq<Node>, ghost cs: seq<seq<Node>>)
      returns (nb': seq<Bucket>, ghost cs': seq<seq<Node>>)
      requires Spread(Table(hhNext, hhPrev, nb), cs, hashv, ideal, nonideal)
      requires Once(Bag(cs) + multiset(c)) && first == Nth(c, 0) && Walkable(hhNext, hashv, c, 0)
      modifies `hhNext, `hhPrev, `nonideal
      ensures Spread(Table(hhNext, hhPrev, nb'), cs', hashv, ideal, nonideal) && |cs'| == |cs|
      ensures Bag(cs') == Bag(cs) + multiset(c)
      ensures forall n :: n !in c ==> At(hhNext, n) == old(At(hhNext, n))
    {
      nb', cs' := nb, cs;
      var thh := first;
      ghost var p := 0;
      while thh != 0
        invariant 0 <= p <= |c| && thh == Nth(c, p) && Walkable(hhNext, hashv, c, p)
        invariant Spread(Table(hhNext, hhPrev, nb'), cs', hashv, ideal, nonideal) && |cs'| == |cs|
        invariant Bag(cs') == Bag(cs) + multiset(c[..p])
        invariant forall n :: n !in c ==> At(hhNext, n) == old(At(hhNext, n))
        decreases |c| - p
      {
        assert Steps(hhNext, hashv, c, p);
        var nxt := At(hhNext, thh);
        OnceSplit(Bag(cs), c, p);
        ghost var before, b := hhNext, 0;
        nb', b := MoveOne(thh, nb', cs');
        BagPush(cs', b, thh);
        cs' := cs'[b := [thh] + cs'[b]];
        WalkOn(before, hhNext, hashv, c, p);
        thh, p := nxt, p + 1;
      }
      WalkEnd(hhNext, hashv, c, p);
      assert c[..p] == c;
    }

    /** The loop over the old buckets. */
    method Rebuild() returns (nb: seq<Bucket>, ghost cs: seq<seq<Node>>)
      requires Ok() && order != [] && ideal > 0 && nonideal == 0
      modifies `hhNext, `hhPrev, `nonideal
      ensures Spread(Table(hhNext, hhPrev, nb), cs, hashv, ideal, nonideal)
      ensures |cs| == 2 * |chains| && Bag(cs) == Bag(chains)
    {
      HeadOf(View(), hash, order, chains, content);
      ghost var u := View();
      nb := seq(2 * |buckets|, _ => Bucket(0, 0, 0));
      cs := seq(2 * |buckets|, _ => []);
      SpreadEmpty(hhNext, hhPrev, nb, hashv, ideal, log2);
      BagEmpty(cs);
      var i := 0;
      while i < |buckets|
        invariant 0 <= i <= |buckets| && |cs| == 2 * |buckets| && Bag(cs) == Bag(chains[..i])
        invariant Spread(Table(hhNext, hhPrev, nb), cs, hashv, ideal, nonideal)
        invariant forall n :: n !in Bag(chains[..i]) ==> At(hhNext, n) == At(u.table.hhNext, n)
      {
        ghost var c := chains[i];
        OldChain(u, hash, order, chains, content, hhNext, i);
        nb, cs := Redistribute(buckets[i].hhHead, nb, c, cs);
        BagNext(chains, i);
        i := i + 1;
      }
      assert chains[..i] == chains;
    }

    /** The ideal chain length for the doubled number of buckets. */
    method SetIdeal()
      requires |buckets| == Pow2(log2) && numItems > 0
      modifies `ideal, `nonideal
      ensures ideal == (numItems + 2 * |buckets| - 1) / (2 * |buckets|) && ideal > 0 && nonideal == 0
    {
      var num := 2 * |buckets|;
      assert num == Pow2(log2 + 1);
      var mask, quotient := And(numItems, num - 1), Shr(numItems, log2 + 1);
      ideal := quotient + (if mask != 0 then 1 else 0);
      nonideal := 0;
      IdealIsCeiling(numItems, log2 + 1, num, mask, quotient);
      IdealPositive(numItems, num);
    }

    /** HASH_EXPAND_BUCKETS: twice the buckets, the same items. */
    method ExpandBuckets()
      requires Ok() && order != []
      modifies `hhNext, `hhPrev, `buckets, `log2, `ideal, `nonideal, `ineffExpands, `noexpand, `order, `chains, `content
      ensures Ok() && |buckets| == 2 * old(|buckets|) && order == old(order) && content == old(content)
      ensures |buckets| > 0 && ideal == (numItems + |buckets| - 1) / |buckets| && Multiplied(buckets, chains, ideal)
          && nonideal == Excess(chains, ideal)
      ensures ineffExpands == if nonideal > numItems / 2 then old(ineffExpands) + 1 else 0
      ensures noexpand == (old(noexpand) || ineffExpands > 1)
    {
      HeadOf(View(), hash, order, chains, content);
      SetIdeal();
      Install();
      JudgeExpansion();
    }

    /** Build the new buckets and put them in place of the old ones. */
    method Install()
      requires Ok() && order != [] && ideal > 0 && nonideal == 0
      modifies `hhNext, `hhPrev, `buckets, `log2, `nonideal, `order, `chains, `content
      ensures Ok() && |buckets| == 2 * old(|buckets|) && order == old(order) && content == old(content)
      ensures Multiplied(buckets, chains, ideal) && nonideal == Excess(chains, ideal)
    {
      HeadOf(View(), hash, order, chains, content);
      ghost var u := View();
      var nb;
      ghost var cs;
      nb, cs := Rebuild();
      ghost var t := Table(hhNext, hhPrev, nb);
      SpreadParts(t, cs, hashv, ideal, nonideal);
      ValidExpand(u, hash, order, chains, content, t, cs);
      SwapBuckets(nb);
      Adopt(order, cs, content);
    }

    /** HASH_DELETE of an item of the hash. */
    method Delete(n: Node)
      requires Ok() && n in order
      modifies this
      ensures Ok() && n in old(keys) && content == old(content) - {old(keys)[n]}
      ensures exists a :: 0 <= a < old(|order|) && old(order)[a] == n && order == Cut(old(order), a)
    {
      ghost var u := View();
      ghost var a :| 0 <= a < |order| && order[a] == n;
      InHome(u, hash, order, chains, content, n);
      NeighboursOf(u, hash, order, chains, content, a);
      if At(prev, n) == 0 && At(next, n) == 0 {
        ValidEmpty(u, hash, order, chains, content);
        head := 0;
        Adopt([], [], map[]);
        assert Cut(old(order), a) == [];
      } else {
        Unlink(n, a);
      }
    }

    method Unlink(n: Node, ghost a: nat)
      requires Ok() && a < |order| && order[a] == n && |order| > 1 && n in keys
      modifies this
      ensures Ok() && content == old(content) - {old(keys)[n]} && order == Cut(old(order), a)
    {
      ghost var u := View();
      ghost var p := Whereabouts(u, hash, order, chains, content, a);
      var i := ToBucket(hashv[n], |buckets|);
      UnlinkBoth(n, i, order, a, chains[i], p);
      ValidDelete(u, hash, order, chains, content, a, i, p, View());
      Adopt(Cut(order, a), chains[i := Cut(chains[i], p)], content - {keys[n]});
    }

    /** Take an item out of the list and out of its bucket. */
    method UnlinkBoth(n: Node, i: nat, ghost s: seq<Node>, ghost a: nat, ghost c: seq<Node>, ghost p: nat)
      requires a < |s| && s[a] == n && 0 !in s && At(prev, n) == Nth(s, a - 1) && At(next, n) == Nth(s, a + 1)
      requires (n == tail <==> a == |s| - 1) && numItems > 0
      requires i < |buckets| && buckets[i].count > 0 && p < |c| && c[p] == n && 0 !in c
      requires At(hhPrev, n) == Nth(c, p - 1) && At(hhNext, n) == Nth(c, p + 1) && (buckets[i].hhHead == n <==> p == 0)
      modifies `next, `prev, `head, `tail, `hhNext, `hhPrev, `buckets, `numItems
      ensures View() == Snapshot(App(CutNext(old(next), s, a), CutPrev(old(prev), s, a),
          if a == 0 then Nth(s, 1) else old(head), if a == |s| - 1 then Nth(s, a - 1) else old(tail)),
                                 CutBucket(old(Table(hhNext, hhPrev, buckets)), c, i, p), keys, hashv,
                                     old(numItems) - 1, log2)
    {
      UnlinkItem(n, s, a);
      UnlinkInBucket(i, n, c, p);
      numItems := numItems - 1;
    }

    /** Take an item out of the insertion-order list. */
    method UnlinkItem(n: Node, ghost s: seq<Node>, ghost a: nat)
      requires a < |s| && s[a] == n && 0 !in s && At(prev, n) == Nth(s, a - 1) && At(next, n) == Nth(s, a + 1)
      requires n == tail <==> a == |s| - 1
      modifies `next, `prev, `head, `tail
      ensures App(next, prev, head, tail) ==
              App(CutNext(old(next), s, a), CutPrev(old(prev), s, a),
                  if a == 0 then Nth(s, 1) else old(head), if a == |s| - 1 then Nth(s, a - 1) else old(tail))
    {
      var before, after := At(prev, n), At(next, n);
      assert (a > 0 ==> s[a - 1] in s) && (a + 1 < |s| ==> s[a + 1] in s);
      if n == tail {
        tail := before;
      }
      if before != 0 {
        next := next[before := after];
      } else {
        head := after;
      }
      if after != 0 {
        prev := prev[after := before];
      }
    }

    /** HASH_DEL_IN_BKT */
    method UnlinkInBucket(i: nat, n: Node, ghost c: seq<Node>, ghost p: nat)
      requires i < |buckets| && buckets[i].count > 0 && p < |c| && c[p] == n && 0 !in c
      requires At(hhPrev, n) == Nth(c, p - 1) && At(hhNext, n) == Nth(c, p + 1) && (buckets[i].hhHead == n <==> p == 0)
      modifies `hhNext, `hhPrev, `buckets
      ensures Table(hhNext, hhPrev, buckets) == CutBucket(old(Table(hhNext, hhPrev, buckets)), c, i, p)
    {
      var b := buckets[i].(count := buckets[i].count - 1);
      var before, after := At(hhPrev, n), At(hhNext, n);
      assert (p > 0 ==> c[p - 1] in c) && (p + 1 < |c| ==> c[p + 1] in c);
      if b.hhHead == n {
        b := b.(hhHead := after);
      }
      buckets := buckets[i := b];
      if before != 0 {
        hhNext := hhNext[before := after];
      }
      if after != 0 {
        hhPrev := hhPrev[after := before];
      }
    }

    // HASH_SRT

    /** Step over a run of at most `insize` items. */
    method StepOver(p: Node, insize: nat, ghost list: Node, ghost tl: Node, ghost done: seq<Node>, ghost s: seq<Node>)
      returns (q: Node, psize: nat)
      requires ListMerge.Idle(next, prev, list, tl, done, s) && p == Nth(s, 0) && s != [] && insize > 0
      ensures psize == Min(insize, |s|) && q == Nth(s, psize)
    {
      q, psize := p, 0;
      var i := 0;
      while i < insize
        invariant 0 <= i <= insize && psize == i <= |s| && q == Nth(s, i) && (i < |s| || q == 0)
        invariant i < insize ==> i < |s|
      {
        PendingNext(next, prev, list, tl, done, s, i);
        psize := psize + 1;
        q := At(next, q);
        if q == 0 {
          assert psize == |s| by {
            if psize < |s| {
              PendingNext(next, prev, list, tl, done, s, psize);
            }
          }
          return;
        }
        i := i + 1;
      }
    }

    /** Put out one item. */
    method PutOut(e: Node, list: Node, tl: Node) returns (list': Node)
      modifies `next, `prev
      ensures next == (if tl != 0 then old(next)[tl := e] else old(next)) && prev == old(prev)[e := tl]
      ensures list' == if tl != 0 then list else e
    {
      list' := list;
      if tl != 0 {
        next := next[tl := e];
      } else {
        list' := e;
      }
      prev := prev[e := tl];
    }

    /** Merge two neighbouring runs at the end of what is out. */
    method MergeRuns(first: Node, second: Node, size: nat, insize: nat, list0: Node, tail0: Node,
        cmp: (Node, Node) -> int,
                     ghost done0: seq<Node>, ghost p0: seq<Node>, ghost q0: seq<Node>, ghost rest: seq<Node>)
      returns (q: Node, list: Node, tl: Node)
      requires Merging(next, prev, list0, tail0, done0, p0, q0, rest) && size == |p0| && first == Nth(p0, 0)
      requires second == Nth(q0 + rest, 0) && (|q0| == insize || (|q0| < insize && rest == [])) && 0 !in q0 + rest
      modifies `next, `prev
      ensures ListMerge.Idle(next, prev, list, tl, done0 + Merge(p0, q0, cmp), rest) && q == Nth(rest, 0)
    {
      var p, psize, qsize := first, size, insize;
      q, list, tl := second, list0, tail0;
      ghost var done, pp, qq := done0, p0, q0;
      while psize > 0 || (qsize > 0 && q != 0)
        invariant Merging(next, prev, list, tl, done, pp, qq, rest)
        invariant psize == |pp| && (pp != [] ==> p == pp[0]) && q == Nth(qq + rest, 0) && qsize == insize - |q0| + |qq|
        invariant |qq| <= |q0| && 0 !in qq + rest
        invariant done + Merge(pp, qq, cmp) == done0 + Merge(p0, q0, cmp)
        decreases psize + |qq|
      {
        assert qq != [] <==> qsize > 0 && q != 0;
        var e;
        if psize == 0 || (qsize > 0 && q != 0 && cmp(p, q) > 0) {
          TakeRight(next, prev, list, tl, done, pp, qq, rest);
          MergeRight(done, pp, qq, cmp);
          e, q, qsize := q, At(next, q), qsize - 1;
          done, qq := done + [qq[0]], qq[1..];
        } else {
          TakeLeft(next, prev, list, tl, done, pp, qq, rest);
          MergeLeft(done, pp, qq, cmp);
          e, p, psize := p, At(next, p), psize - 1;
          done, pp := done + [pp[0]], pp[1..];
        }
        list := PutOut(e, list, tl);
        tl := e;
      }
      assert qq == [];
      MergeEnd(next, prev, list, tl, done, pp, qq, rest);
      assert done + Merge(pp, qq, cmp) == done;
    }

    /** Merge the next two runs of at most `insize` items. */
    method MergeNext(p: Node, insize: nat, list0: Node, tail0: Node, cmp: (Node, Node) -> int, ghost done: seq<Node>,
        ghost rest: seq<Node>)
      returns (q: Node, list: Node, tl: Node)
      requires ListMerge.Idle(next, prev, list0, tail0, done, rest) && p == Nth(rest, 0) && rest != [] && insize > 0
      modifies `next, `prev
      ensures var k, m := Min(insize, |rest|), Min(2 * insize, |rest|);
              && ListMerge.Idle(next, prev, list, tl, done + Merge(rest[..k], rest[k..m], cmp), rest[m..])
              && q == Nth(rest[m..], 0)
    {
      var psize;
      q, psize := StepOver(p, insize, list0, tail0, done, rest);
      ghost var m := Min(2 * insize, |rest|);
      MergeStart(next, prev, list0, tail0, done, rest, psize, m);
      SecondRun(next, prev, list0, tail0, done, rest, psize, m);
      q, list, tl := MergeRuns(p, q, psize, insize, list0, tail0, cmp, done, rest[..psize], rest[psize..m], rest[m..]);
    }

    /** One pass over the list: merge neighbouring runs of `insize`. */
    method SortPass(start: Node, insize: nat, cmp: (Node, Node) -> int, ghost s: seq<Node>)
        returns (list: Node, tl: Node, nmerges: nat)
      requires ListOf(next, prev, s) && start == Nth(s, 0) && s != [] && insize > 0
      modifies `next, `prev
      ensures ListOf(next, prev, Pass(s, insize, cmp)) && list == Nth(Pass(s, insize, cmp), 0)
      ensures tl == Pass(s, insize, cmp)[|s| - 1] && (nmerges <= 1 <==> |s| <= 2 * insize)
    {
      var p := start;
      list, tl, nmerges := 0, 0, 0;
      ghost var done, rest := [], s;
      PassStart(next, prev, s);
      assert [] + Pass(s, insize, cmp) == Pass(s, insize, cmp);
      while p != 0
        invariant ListMerge.Idle(next, prev, list, tl, done, rest) && p == Nth(rest, 0)
        invariant done + Pass(rest, insize, cmp) == Pass(s, insize, cmp)
        invariant Counted(nmerges, insize, |s|, |rest|)
        decreases |rest|
      {
        p, list, tl := MergeNext(p, insize, list, tl, cmp, done, rest);
        PassOn(done, rest, insize, cmp);
        done, rest := done + FirstMerge(rest, insize, cmp), rest[Min(2 * insize, |rest|)..];
        nmerges := nmerges + 1;
      }
      AllOut(next, prev, list, tl, done, rest);
      assert done + Pass(rest, insize, cmp) == done;
      PassEnd(next, prev, list, tl, done);
      next := next[tl := 0];
    }

    /** The passes of HASH_SRT, with doubling run length. */
    method SortPasses(cmp: (Node, Node) -> int) returns (list: Node, tl: Node)
      requires ListOf(next, prev, order) && head == Nth(order, 0) && order != []
      modifies `next, `prev
      ensures ListOf(next, prev, Sort(order, 1, cmp)) && list == Sort(order, 1, cmp)[0]
          && tl == Sort(order, 1, cmp)[|order| - 1]
    {
      list, tl := head, 0;
      var insize, looping := 1, true;
      ghost var s := order;
      while looping
        invariant insize > 0 && |s| == |order| && ListOf(next, prev, s) && list == Nth(s, 0)
        invariant looping ==> Sort(s, insize, cmp) == Sort(order, 1, cmp)
        invariant !looping ==> s == Sort(order, 1, cmp) && tl == s[|s| - 1]
        decreases looping, |s| - insize
      {
        var nmerges;
        list, tl, nmerges := SortPass(list, insize, cmp, s);
        s := Pass(s, insize, cmp);
        if nmerges <= 1 {
          looping := false;
        }
        insize := insize * 2;
      }
    }

    /** HASH_SRT: a stable sort of the insertion-order list; the buckets stay as they are. */
    method SortList(cmp: (Node, Node) -> int)
      requires Ok() && Preorder(cmp)
      modifies `next, `prev, `head, `tail, `order, `chains, `content
      ensures Ok() && StablySorted(old(order), order, cmp) && content == old(content) && chains == old(chains)
    {
      ghost var u, s := View(), order;
      HeadOf(u, hash, order, chains, content);
      SortCorrect(s, cmp);
      if head != 0 {
        ListParts(u, hash, order, chains, content);
        var list, tl := SortPasses(cmp);
        tail := tl;
        head := list;
        s := Sort(order, 1, cmp);
        ValidReorder(u, hash, order, chains, content, App(next, prev, head, tail), s);
        Adopt(s, chains, content);
      }
    }

    /** Replace the buckets. */
    method SwapBuckets(nb: seq<Bucket>)
      modifies `buckets, `log2
      ensures View() == old(View()).(table := Table(hhNext, hhPrev, nb), log2 := old(log2) + 1)
    {
      log2 := log2 + 1;
      buckets := nb;
    }

    /** Two ineffective expansions in a row stop further ones. */
    method JudgeExpansion()
      modifies `ineffExpands, `noexpand
      ensures View() == old(View()) && ineffExpands == if nonideal > numItems / 2 then old(ineffExpands) + 1 else 0
      ensures noexpand == (old(noexpand) || ineffExpands > 1)
    {
      ineffExpands := if nonideal > numItems / 2 then ineffExpands + 1 else 0;
      if ineffExpands > 1 {
        noexpand := true;
      }
    }
  }

  lemma NeighboursOf<K>(u: Snapshot<K>, hash: K -> nat, order: seq<Node>, chains: seq<seq<Node>>, content: map<K,
      Node>, a: nat)
    requires Valid(u, hash, order, chains, content) && a < |order|
    ensures At(u.app.next, order[a]) == Nth(order, a + 1) && At(u.app.prev, order[a]) == Nth(order, a - 1)
        && 0 !in order
    ensures (At(u.app.prev, order[a]) == 0 && At(u.app.next, order[a]) == 0 <==> |order| == 1)
    ensures order[a] == u.app.tail <==> a == |order| - 1
  {
    assert Opened(0);
    LinksHere(u.app.next, u.app.prev, order, a);
    assert a > 0 ==> order[a - 1] in order;
    assert a + 1 < |order| ==> order[a + 1] in order;
  }

  lemma ChainNeighbours<K>(u: Snapshot<K>, hash: K -> nat, order: seq<Node>, chains: seq<seq<Node>>, content: map<K,
      Node>, i: nat, p: nat)
    requires Valid(u, hash, order, chains, content) && order != [] && i < |chains| && p < |chains[i]|
        && i < |u.table.buckets|
    ensures var c := chains[i];
            && At(u.table.hhNext, c[p]) == Nth(c, p + 1) && At(u.table.hhPrev, c[p]) == Nth(c, p - 1) && 0 !in c
            && u.table.buckets[i].count > 0 && (u.table.buckets[i].hhHead == c[p] <==> p == 0)
  {
    assert Opened(0);
    assert ChainOk(u.table, chains, u.hashv, i);
    LinksHere(u.table.hhNext, u.table.hhPrev, chains[i], p);
  }

  /** Everything HASH_DELETE reads about an item. */
  lemma Whereabouts<K>(u: Snapshot<K>, hash: K -> nat, order: seq<Node>, chains: seq<seq<Node>>, content: map<K,
      Node>, a: nat) returns (p: nat)
    requires Valid(u, hash, order, chains, content) && a < |order|
    ensures order[a] in u.hashv && order[a] in u.keys && |u.table.buckets| == |chains| > 0 && u.numItems == |order|
        && 0 !in order
    ensures At(u.app.next, order[a]) == Nth(order, a + 1) && At(u.app.prev, order[a]) == Nth(order, a - 1)
    ensures order[a] == u.app.tail <==> a == |order| - 1
    ensures var i := ToBucket(u.hashv[order[a]], |chains|);
            && i < |chains| && p < |chains[i]| && chains[i][p] == order[a] && 0 !in chains[i]
            && At(u.table.hhNext, order[a]) == Nth(chains[i], p + 1)
                && At(u.table.hhPrev, order[a]) == Nth(chains[i], p - 1)
            && u.table.buckets[i].count > 0 && (u.table.buckets[i].hhHead == order[a] <==> p == 0)
  {
    var n := order[a];
    InHome(u, hash, order, chains, content, n);
    BucketInRange(u, hash, order, chains, content, u.hashv[n]);
    HeadOf(u, hash, order, chains, content);
    NeighboursOf(u, hash, order, chains, content, a);
    var i := ToBucket(u.hashv[n], |chains|);
    p :| 0 <= p < |chains[i]| && chains[i][p] == n;
    ChainNeighbours(u, hash, order, chains, content, i, p);
  }

  /** Deleting the only item leaves nothing. */
  lemma ValidEmpty<K>(u: Snapshot<K>, hash: K -> nat, order: seq<Node>, chains: seq<seq<Node>>, content: map<K, Node>)
    requires Valid(u, hash, order, chains, content) && |order| == 1
    ensures Valid(u.(app := u.app.(head := 0)), hash, [], [], map[])
    ensures order[0] in u.keys && content - {u.keys[order[0]]} == map[]
  {
    assert Opened(0);
    var n := order[0];
    assert n in order;
    forall k | k in content
      ensures k == u.keys[n]
    {
      assert content[k] == n;
    }
  }

  lemma IdealPositive(items: nat, num: nat)
    requires items > 0 && num > 0
    ensures (items + num - 1) / num > 0
  {
  }

  ghost predicate Spanned(i: int) { true }

  /** A table under construction: sound chains, exact multipliers and an exact count of the excess. */
  ghost predicate Spread(t: Table, cs: seq<seq<Node>>, hashv: map<Node, nat>, ideal: nat, nonideal: nat)
  {
    (forall i {:trigger Spanned(i)} :: Spanned(i) ==>
      TableOk(t, cs, hashv) && IsPow2(|cs|) && Multiplied(t.buckets, cs, ideal)
          && nonideal == Excess(cs, ideal)) == true
  }

  lemma SpreadFacts(t: Table, cs: seq<seq<Node>>, hashv: map<Node, nat>, ideal: nat, nonideal: nat)
    requires Spread(t, cs, hashv, ideal, nonideal)
    ensures |t.buckets| == |cs| > 0 && IsPow2(|cs|) && ideal > 0
  {
    assert Spanned(0);
  }

  lemma SpreadParts(t: Table, cs: seq<seq<Node>>, hashv: map<Node, nat>, ideal: nat, nonideal: nat)
    requires Spread(t, cs, hashv, ideal, nonideal)
    ensures TableOk(t, cs, hashv) && Multiplied(t.buckets, cs, ideal) && nonideal == Excess(cs, ideal)
  {
    assert Spanned(0);
  }

  lemma NumbersMore(t: Table, cs: seq<seq<Node>>, ideal: nat, nonideal: nat, b: nat, n: Node, mult: nat, nonideal': nat)
    requires Multiplied(t.buckets, cs, ideal) && nonideal == Excess(cs, ideal) && b < |cs|
        && t.buckets[b].count == |cs[b]|
    requires mult == (t.buckets[b].count + 1) / ideal
    requires nonideal' == if t.buckets[b].count + 1 > ideal then nonideal + 1 else nonideal
    ensures Multiplied(MoveTo(t, b, n, ideal, mult).buckets, cs[b := [n] + cs[b]], ideal)
    ensures nonideal' == Excess(cs[b := [n] + cs[b]], ideal)
  {
    MultipliedMore(t, cs, b, n, ideal, mult);
    ExcessUpdate(cs, ideal, b, [n] + cs[b]);
  }

  lemma SpreadMore(t: Table, cs: seq<seq<Node>>, hashv: map<Node, nat>, ideal: nat, nonideal: nat, b: nat, n: Node,
      mult: nat, t': Table, nonideal': nat)
    requires Spread(t, cs, hashv, ideal, nonideal) && Once(Bag(cs)) && b < |cs| && n != 0 && n !in Bag(cs)
    requires n in hashv && ToBucket(hashv[n], |cs|) == b && b < |t.buckets| && t' == MoveTo(t, b, n, ideal, mult)
    requires ideal > 0 && mult == (t.buckets[b].count + 1) / ideal
    requires nonideal' == if t.buckets[b].count + 1 > ideal then nonideal + 1 else nonideal
    ensures Spread(t', cs[b := [n] + cs[b]], hashv, ideal, nonideal')
  {
    SpreadParts(t, cs, hashv, ideal, nonideal);
    SpreadFacts(t, cs, hashv, ideal, nonideal);
    MoveToKeeps(t, cs, hashv, b, n, ideal, mult, t');
    assert ChainOk(t, cs, hashv, b);
    NumbersMore(t, cs, ideal, nonideal, b, n, mult, nonideal');
  }

  lemma SpreadEmpty(hhNext: Field, hhPrev: Field, nb: seq<Bucket>, hashv: map<Node, nat>, ideal: nat, lb: nat)
    requires |nb| == 2 * Pow2(lb) && ideal > 0 && forall k :: 0 <= k < |nb| ==> nb[k] == Bucket(0, 0, 0)
    ensures Spread(Table(hhNext, hhPrev, nb), seq(|nb|, _ => []), hashv, ideal, 0)
  {
    EmptyTable(Table(hhNext, hhPrev, nb), hashv);
    NoExcess(seq(|nb|, _ => []), ideal);
    assert |nb| == Pow2(lb + 1);
  }

  /** Following hh_next from item `p` of the chain on leads through the chain. */
  ghost predicate Walkable(hhNext: Field, hashv: map<Node, nat>, c: seq<Node>, p: nat)
  {
    forall q {:trigger Steps(hhNext, hashv, c, q)} :: p <= q < |c| ==> Steps(hhNext, hashv, c, q)
  }

  ghost predicate Steps(hhNext: Field, hashv: map<Node, nat>, c: seq<Node>, q: nat)
    requires q < |c|
  {
    c[q] != 0 && c[q] in hashv && At(hhNext, c[q]) == Nth(c, q + 1)
  }

  lemma WalkEnd(f: Field, hashv: map<Node, nat>, c: seq<Node>, p: nat)
    requires Walkable(f, hashv, c, p) && p <= |c| && Nth(c, p) == 0
    ensures p == |c|
  {
    assert p < |c| ==> Steps(f, hashv, c, p);
  }

  lemma WalkOn(f: Field, f': Field, hashv: map<Node, nat>, c: seq<Node>, p: nat)
    requires Walkable(f, hashv, c, p) && p < |c| && Once(multiset(c)) && forall k :: k != c[p] ==> At(f', k) == At(f, k)
    ensures Walkable(f', hashv, c, p + 1)
  {
    forall q | p + 1 <= q < |c|
      ensures Steps(f', hashv, c, q)
    {
      assert Steps(f, hashv, c, q);
      OnceApart(c, p, q);
    }
  }

  lemma OnceApart(c: seq<Node>, p: nat, q: nat)
    requires Once(multiset(c)) && p < q < |c|
    ensures c[p] != c[q]
  {
    assert c == c[..q] + [c[q]] + c[q + 1..];
    assert multiset(c) == multiset(c[..q]) + multiset{c[q]} + multiset(c[q + 1..]);
    var x := c[q];
    assert x in multiset(c);
    assert multiset(c)[x] == multiset(c[..q])[x] + 1 + multiset(c[q + 1..])[x];
    assert c[p] in c[..q];
  }

  /** The next item to move is not among those moved. */
  lemma OnceSplit(bag: multiset<Node>, c: seq<Node>, p: nat)
    requires Once(bag + multiset(c)) && p < |c|
    ensures c[p] !in bag + multiset(c[..p]) && Once(bag + multiset(c[..p])) && Once(multiset(c))
    ensures multiset(c[..p + 1]) == multiset(c[..p]) + multiset{c[p]}
  {
    assert c == c[..p] + [c[p]] + c[p + 1..];
    assert c[..p + 1] == c[..p] + [c[p]];
    assert multiset(c) == multiset(c[..p]) + multiset{c[p]} + multiset(c[p + 1..]);
    forall n | n in bag + multiset(c[..p])
      ensures (bag + multiset(c[..p]))[n] == 1 && n != c[p]
    {
      assert (bag + multiset(c))[n] == 1;
    }
    forall n | n in multiset(c)
      ensures multiset(c)[n] == 1
    {
      assert (bag + multiset(c))[n] == 1;
    }
  }

  lemma BagNext(chains: seq<seq<Node>>, i: nat)
    requires i < |chains|
    ensures Bag(chains[..i + 1]) == Bag(chains[..i]) + multiset(chains[i])
  {
    assert chains[..i + 1][..i] == chains[..i];
  }

  /** An old chain whose items have not been moved can still be walked. */
  lemma OldChain<K>(u: Snapshot<K>, hash: K -> nat, order: seq<Node>, chains: seq<seq<Node>>, content: map<K, Node>,
      hhNext: Field, i: nat)
    requires Valid(u, hash, order, chains, content) && order != [] && i < |chains| && i < |u.table.buckets|
    requires forall n :: n !in Bag(chains[..i]) ==> At(hhNext, n) == At(u.table.hhNext, n)
    ensures u.table.buckets[i].hhHead == Nth(chains[i], 0) && Walkable(hhNext, u.hashv, chains[i], 0)
    ensures Once(Bag(chains[..i]) + multiset(chains[i]))
  {
    assert Opened(0);
    var c := chains[i];
    assert ChainOk(u.table, chains, u.hashv, i);
    DistinctOnce(order);
    forall q | 0 <= q < |c|
      ensures Steps(hhNext, u.hashv, c, q)
    {
      LinksHere(u.table.hhNext, u.table.hhPrev, c, q);
      NotMoved(chains, i, c[q]);
    }
    OncePart(chains, i);
  }

  lemma OncePart(chains: seq<seq<Node>>, i: nat)
    requires Once(Bag(chains)) && i < |chains|
    ensures Once(Bag(chains[..i]) + multiset(chains[i]))
  {
    var a, b := chains[..i + 1], chains[i + 1..];
    assert chains == a + b;
    BagConcat(a, b);
    BagNext(chains, i);
    forall n | n in Bag(a)
      ensures Bag(a)[n] == 1
    {
      assert Bag(chains)[n] == 1;
    }
  }

  /** What a pass puts out first. */
  ghost function FirstMerge(s: seq<Node>, k: nat, cmp: (Node, Node) -> int): seq<Node>
  {
    var a, m := Min(k, |s|), Min(2 * k, |s|);
    Merge(s[..a], s[a..m], cmp)
  }

  /** A pass is its first merge and a pass over the rest, also when only one run is left. */
  lemma PassUnfold(s: seq<Node>, k: nat, cmp: (Node, Node) -> int)
    requires k > 0
    ensures Pass(s, k, cmp) == FirstMerge(s, k, cmp) + Pass(s[Min(2 * k, |s|)..], k, cmp)
  {
    if |s| <= k {
      assert s[..|s|] == s && s[|s|..|s|] == [] && s[|s|..] == [];
      assert Merge(s, [], cmp) == s;
    }
  }

  lemma PassOn(done: seq<Node>, s: seq<Node>, k: nat, cmp: (Node, Node) -> int)
    requires k > 0
    ensures (done + FirstMerge(s, k, cmp)) + Pass(s[Min(2 * k, |s|)..], k, cmp) == done + Pass(s, k, cmp)
  {
    PassUnfold(s, k, cmp);
  }

  /** The number of merges so far, as far as the end of the sort depends on it. */
  ghost predicate Counted(nmerges: nat, insize: nat, all: nat, left: nat)
  {
    if nmerges == 0 then left == all
    else if nmerges == 1 then left == all - Min(2 * insize, all)
    else all > 2 * insize
  }

  lemma AllOut(next: Field, prev: Field, list: Node, tail: Node, done: seq<Node>, rest: seq<Node>)
    requires ListMerge.Idle(next, prev, list, tail, done, rest) && Nth(rest, 0) == 0
    ensures rest == []
  {
    if rest != [] {
      PendingNext(next, prev, list, tail, done, rest, 0);
    }
  }

  /** Where the second run starts and ends. */
  lemma SecondRun(next: Field, prev: Field, list: Node, tail: Node, done: seq<Node>, s: seq<Node>, k: nat, m: nat)
    requires ListMerge.Idle(next, prev, list, tail, done, s) && k <= m <= |s|
    ensures 0 !in s[k..m] + s[m..] && Nth(s, k) == Nth(s[k..m] + s[m..], 0) && (k > 0 ==> Nth(s, 0) == Nth(s[..k], 0))
  {
    assert s[k..m] + s[m..] == s[k..];
    forall i | 0 <= i < |s|
      ensures s[i] != 0
    {
      PendingNext(next, prev, list, tail, done, s, i);
    }
  }

  lemma ListParts<K>(u: Snapshot<K>, hash: K -> nat, order: seq<Node>, chains: seq<seq<Node>>, content: map<K, Node>)
    requires Valid(u, hash, order, chains, content)
    ensures ListOf(u.app.next, u.app.prev, order) && u.app.head == Nth(order, 0)
  {
    assert Opened(0);
  }

  lemma MergeRight(done: seq<Node>, p: seq<Node>, q: seq<Node>, cmp: (Node, Node) -> int)
    requires q != [] && (p == [] || cmp(p[0], q[0]) > 0)
    ensures (done + [q[0]]) + Merge(p, q[1..], cmp) == done + Merge(p, q, cmp)
  {
    assert p == [] ==> q == [q[0]] + q[1..];
    assert Merge(p, q, cmp) == [q[0]] + Merge(p, q[1..], cmp);
    OneMore(done, q[0], Merge(p, q[1..], cmp));
  }

  lemma MergeLeft(done: seq<Node>, p: seq<Node>, q: seq<Node>, cmp: (Node, Node) -> int)
    requires p != [] && (q == [] || cmp(p[0], q[0]) <= 0)
    ensures (done + [p[0]]) + Merge(p[1..], q, cmp) == done + Merge(p, q, cmp)
  {
    if q == [] {
      assert p == [p[0]] + p[1..] && Merge(p[1..], q, cmp) == p[1..];
    }
    assert Merge(p, q, cmp) == [p[0]] + Merge(p[1..], q, cmp);
    OneMore(done, p[0], Merge(p[1..], q, cmp));
  }

  lemma OneMore(done: seq<Node>, x: Node, r: seq<Node>)
    ensures (done + [x]) + r == done + ([x] + r)
  {
  }
}
