/**
 * The chains of dict.c as linked cells: what dictAdd, dictReplace, dictGenericDelete, dictExpand and
 * dictRehash do to the next pointers. The buckets of both tables, one after the other, stand for the
 * sequences of entries that module Dict works on. A freed cell leaves the heap, so no pointer to one is
 * ever followed.
 */
module DictLinks {
  import opened Chains
  import opened Links
  import opened Dict

  datatype Cell<K, V> = Cell(key: K, val: V, next: Node)

  type Heap<K, V> = map<Node, Cell<K, V>>

  /** Cell `i` of a chain leads to cell `i + 1`. */
  ghost predicate Leads<K, V>(heap: Heap<K, V>, c: seq<Node>, i: nat)
    requires i < |c|
  {
    c[i] in heap && heap[c[i]].next == Nth(c, i + 1)
  }

  ghost predicate ChainAt<K, V>(heap: Heap<K, V>, head: Node, c: seq<Node>)
  {
    && Distinct(c) && 0 !in c && head == Nth(c, 0)
    && (forall i {:trigger Leads(heap, c, i)} :: 0 <= i < |c| ==> Leads(heap, c, i)) == true
  }

  /** No cell is in two chains. */
  ghost predicate Apart(chains: seq<seq<Node>>)
  {
    forall i, j, n :: 0 <= i < |chains| && 0 <= j < |chains| && i != j && n in chains[i] ==> n !in chains[j]
  }

  ghost predicate Held<K, V>(heap: Heap<K, V>, heads: seq<Node>, chains: seq<seq<Node>>)
  {
    |heads| == |chains| && Apart(chains) && forall i :: 0 <= i < |chains| ==> ChainAt(heap, heads[i], chains[i])
  }

  function EntryAt<K, V>(heap: Heap<K, V>, n: Node): Entry<K, V>
    requires n in heap
  {
    Entry(heap[n].key, heap[n].val)
  }

  /** The cells of a chain hold these entries. */
  ghost predicate Stored<K, V>(heap: Heap<K, V>, c: seq<Node>, s: Chain<K, V>)
  {
    |s| == |c| && forall i {:trigger c[i]} {:trigger s[i]} :: 0 <= i < |c| ==>
          c[i] in heap && EntryAt(heap, c[i]) == s[i]
  }

  /** The chains hold these buckets. */
  ghost predicate Filled<K, V>(heap: Heap<K, V>, heads: seq<Node>, chains: seq<seq<Node>>, buckets: seq<Chain<K, V>>)
  {
    && Held(heap, heads, chains) && |buckets| == |chains|
    && forall i :: 0 <= i < |chains| ==> Stored(heap, chains[i], buckets[i])
  }

  ghost predicate Opened(i: int) { true }

  /** `Filled`, in view only where `Opened` is mentioned. */
  ghost predicate Holds<K, V>(heap: Heap<K, V>, heads: seq<Node>, chains: seq<seq<Node>>, buckets: seq<Chain<K, V>>)
  {
    (forall i {:trigger Opened(i)} :: Opened(i) ==> Filled(heap, heads, chains, buckets)) == true
  }

  lemma Here<K, V>(heap: Heap<K, V>, heads: seq<Node>, chains: seq<seq<Node>>, buckets: seq<Chain<K, V>>, i: nat)
    requires Holds(heap, heads, chains, buckets) && i < |heads|
    ensures |heads| == |chains| == |buckets| && ChainAt(heap, heads[i], chains[i])
        && Stored(heap, chains[i], buckets[i])
  {
    assert Opened(0);
  }

  lemma Sizes<K, V>(heap: Heap<K, V>, heads: seq<Node>, chains: seq<seq<Node>>, buckets: seq<Chain<K, V>>)
    requires Holds(heap, heads, chains, buckets)
    ensures |heads| == |chains| == |buckets|
  {
    assert Opened(0);
  }

  lemma LeadsOn<K, V>(heap: Heap<K, V>, head: Node, c: seq<Node>, i: nat)
    requires ChainAt(heap, head, c) && i < |c|
    ensures c[i] in heap && heap[c[i]].next == Nth(c, i + 1) && c[i] != 0
  {
    assert Leads(heap, c, i);
  }

  /** Only a chain's own cells matter to it. */
  lemma ChainFrame<K, V>(heap: Heap<K, V>, heap': Heap<K, V>, head: Node, c: seq<Node>, s: Chain<K, V>)
    requires ChainAt(heap, head, c) && Stored(heap, c, s)
        && forall n :: n in c ==> n in heap && n in heap' && heap'[n] == heap[n]
    ensures ChainAt(heap', head, c) && Stored(heap', c, s)
  {
    forall i | 0 <= i < |c|
      ensures Leads(heap', c, i)
    {
      assert Leads(heap, c, i) && c[i] in c;
    }
  }

  /** The cells of the other chains are untouched. */
  ghost predicate OthersKept<K, V>(heap: Heap<K, V>, heap': Heap<K, V>, chains: seq<seq<Node>>, i: nat)
  {
    forall k, n :: 0 <= k < |chains| && k != i && n in chains[k] ==> n in heap && n in heap' && heap'[n] == heap[n]
  }

  /** None of the cells is in another chain. */
  ghost predicate Foreign(c: seq<Node>, chains: seq<seq<Node>>, i: nat)
  {
    forall k, n :: 0 <= k < |chains| && k != i && n in chains[k] ==> n !in c
  }

  /** Chain `i` changes; the other chains stay. */
  lemma OneChanges<K, V>(heap: Heap<K, V>, heads: seq<Node>, chains: seq<seq<Node>>, buckets: seq<Chain<K, V>>, i: nat,
                         heap': Heap<K, V>, head: Node, c: seq<Node>, s: Chain<K, V>)
    requires Holds(heap, heads, chains, buckets) && i < |heads| == |chains| == |buckets|
    requires ChainAt(heap', head, c) && Stored(heap', c, s) && Foreign(c, chains, i)
        && OthersKept(heap, heap', chains, i)
    ensures Holds(heap', heads[i := head], chains[i := c], buckets[i := s])
  {
    assert Opened(0);
    forall k | 0 <= k < |chains| && k != i
      ensures ChainAt(heap', heads[k], chains[k]) && Stored(heap', chains[k], buckets[k])
    {
      ChainFrame(heap, heap', heads[k], chains[k], buckets[k]);
    }
  }

  /** A write to cells of chain `i`, or outside all chains, leaves the others. */
  lemma Elsewhere<K, V>(heap: Heap<K, V>, heads: seq<Node>, chains: seq<seq<Node>>, buckets: seq<Chain<K, V>>, i: nat,
      heap': Heap<K, V>)
    requires Holds(heap, heads, chains, buckets) && i < |heads| == |chains|
    requires forall n :: n in heap && n !in chains[i] ==> n in heap' && heap'[n] == heap[n]
    ensures OthersKept(heap, heap', chains, i)
  {
    assert Opened(0);
    forall k, n | 0 <= k < |chains| && k != i && n in chains[k]
      ensures n in heap && n !in chains[i]
    {
      var j :| 0 <= j < |chains[k]| && chains[k][j] == n;
      assert Stored(heap, chains[k], buckets[k]);
    }
  }

  lemma Own<K, V>(heap: Heap<K, V>, heads: seq<Node>, chains: seq<seq<Node>>, buckets: seq<Chain<K, V>>, i: nat,
      c: seq<Node>)
    requires Holds(heap, heads, chains, buckets) && i < |heads| == |chains|
        && forall n :: n in c ==> n in chains[i] || n !in heap
    ensures Foreign(c, chains, i)
  {
    assert Opened(0);
    forall k, n | 0 <= k < |chains| && k != i && n in chains[k]
      ensures n !in c
    {
      var j :| 0 <= j < |chains[k]| && chains[k][j] == n;
      assert Stored(heap, chains[k], buckets[k]);
    }
  }

  function Without<T>(s: seq<T>, p: nat): seq<T>
    requires p < |s|
  {
    s[..p] + s[p + 1..]
  }

  // ----- inserting at the head

  lemma PushChain<K, V>(heap: Heap<K, V>, head: Node, c: seq<Node>, s: Chain<K, V>, n: Node, key: K, val: V)
    requires ChainAt(heap, head, c) && Stored(heap, c, s) && n != 0 && n !in c
    ensures ChainAt(heap[n := Cell(key, val, head)], n, [n] + c)
        && Stored(heap[n := Cell(key, val, head)], [n] + c, [Entry(key, val)] + s)
  {
    var heap', c' := heap[n := Cell(key, val, head)], [n] + c;
    forall i | 0 <= i < |c'|
      ensures Leads(heap', c', i)
    {
      if i > 0 {
        assert Leads(heap, c, i - 1) && c'[i] == c[i - 1] && c[i - 1] in c;
      }
    }
  }

  // ----- unlinking

  /** The heap once the cell at `p` has been unlinked and freed. */
  function Unlinked<K, V>(heap: Heap<K, V>, prev: Node, he: Node): Heap<K, V>
    requires he in heap && (prev != 0 ==> prev in heap)
  {
    (if prev != 0 then heap[prev := heap[prev].(next := heap[he].next)] else heap) - {he}
  }

  lemma CutChain<K, V>(heap: Heap<K, V>, head: Node, c: seq<Node>, s: Chain<K, V>, p: nat, heap': Heap<K, V>,
      head': Node)
    requires ChainAt(heap, head, c) && Stored(heap, c, s) && p < |c| && c[p] in heap && (p > 0 ==> c[p - 1] in heap)
    requires heap' == Unlinked(heap, Nth(c, p - 1), c[p]) && head' == if p > 0 then head else heap[c[p]].next
    ensures ChainAt(heap', head', Without(c, p)) && Stored(heap', Without(c, p), Without(s, p))
  {
    var c' := Without(c, p);
    assert Leads(heap, c, p);
    forall i | 0 <= i < |c'|
      ensures Leads(heap', c', i) && EntryAt(heap', c'[i]) == Without(s, p)[i]
    {
      var k := if i < p then i else i + 1;
      assert c'[i] == c[k] && Leads(heap, c, k);
    }
  }

  /** Overwriting a value leaves the pointers alone. */
  lemma SetChain<K, V>(heap: Heap<K, V>, head: Node, c: seq<Node>, s: Chain<K, V>, p: nat, val: V, heap': Heap<K, V>)
    requires ChainAt(heap, head, c) && Stored(heap, c, s) && p < |c| && c[p] in heap
    requires heap' == heap[c[p] := heap[c[p]].(val := val)]
    ensures ChainAt(heap', head, c) && Stored(heap', c, s[p := s[p].(val := val)])
  {
    forall i | 0 <= i < |c|
      ensures Leads(heap', c, i) && EntryAt(heap', c[i]) == s[p := s[p].(val := val)][i]
    {
      assert Leads(heap, c, i);
    }
  }

  /** The cells of a chain without that of the key. */
  ghost function CutNodes<K, V>(c: seq<Node>, s: Chain<K, V>, key: K): seq<Node>
  {
    var p := Scan(s, key);
    if p < |c| then Without(c, p) else c
  }

  /** The same chains, save that the cell of `key` is cut out. */
  ghost predicate CutChains<K, V>(chains: seq<seq<Node>>, chains': seq<seq<Node>>, buckets: seq<Chain<K, V>>, key: K)
  {
    && |chains'| == |chains| == |buckets|
    && forall i :: 0 <= i < |chains| ==> chains'[i] == CutNodes(chains[i], buckets[i], key)
  }

  lemma ScanBefore<K, V>(s: Chain<K, V>, k: K, p: nat, q: nat)
    requires q == Scan(s, k) < p < |s|
    ensures Scan(Without(s, p), k) == q
  {
    ScanIs(Without(s, p), k, q);
  }

  lemma ScanBehind<K, V>(s: Chain<K, V>, k: K, p: nat, q: nat)
    requires p < q == Scan(s, k) < |s|
    ensures Scan(Without(s, p), k) == q - 1
  {
    ScanIs(Without(s, p), k, q - 1);
  }

  /** The cell of another key, found by its key, is the same cell after the cut: a saved pointer stays right. */
  lemma SavedNextSurvives<K, V>(c: seq<Node>, s: Chain<K, V>, key: K, k: K)
    requires |c| == |s| && k != key && Scan(s, k) < |s|
    ensures Nth(CutNodes(c, s, key), Scan(Dict.Cut(s, key), k)) == c[Scan(s, k)]
  {
    var p, q := Scan(s, key), Scan(s, k);
    if p < |s| {
      assert Dict.Cut(s, key) == Without(s, p) && CutNodes(c, s, key) == Without(c, p);
      if q < p {
        ScanBefore(s, k, p, q);
      } else {
        ScanBehind(s, k, p, q);
      }
    }
  }

  lemma CutNothingThere<K, V>(s: Chain<K, V>, key: K)
    requires Dict.Cut(s, key) == s
    ensures Scan(s, key) == |s|
  {
    assert Scan(s, key) < |s| ==> |Dict.Cut(s, key)| == |s| - 1;
  }

  /** The rest of a chain is a chain. */
  lemma SuffixChain<K, V>(heap: Heap<K, V>, head: Node, c: seq<Node>, s: Chain<K, V>, p: nat)
    requires ChainAt(heap, head, c) && Stored(heap, c, s) && p <= |c|
    ensures ChainAt(heap, Nth(c, p), c[p..]) && Stored(heap, c[p..], s[p..])
  {
    var rest := c[p..];
    forall i | 0 <= i < |rest|
      ensures Leads(heap, rest, i)
    {
      assert Leads(heap, c, p + i);
    }
  }

  // ----- moving a chain to the other table

  /** The bucket of a key in the table of `size` buckets that starts at bucket `base`. */
  function Home<K>(hash: K -> nat, key: K, base: nat, size: nat): (t: nat)
    requires size > 0
    ensures base <= t < base + size
  {
    Bits.AndAtMost(hash(key), size - 1);
    base + Slot(hash(key), size)
  }

  /** What dictRehash makes of the buckets when it moves these entries, one by one, to that table. */
  ghost function Moved<K, V>(buckets: seq<Chain<K, V>>, entries: Chain<K, V>, hash: K -> nat, base: nat,
      size: nat): (r: seq<Chain<K, V>>)
    requires size > 0 && base + size <= |buckets|
    ensures |r| == |buckets|
    decreases |entries|
  {
    if entries == [] then buckets
    else
      var e, t := entries[0], Home(hash, entries[0].key, base, size);
      Moved(buckets[t := [e] + buckets[t]], entries[1..], hash, base, size)
  }

  /** The table of `t` after these entries have moved to it. */
  ghost function MoveInto<K, V>(t: Table<K, V>, entries: Chain<K, V>, hash: K -> nat): (r: Table<K, V>)
    requires t.buckets != []
    ensures |r.buckets| == |t.buckets|
    decreases |entries|
  {
    if entries == [] then t
    else
      var h := Home(hash, entries[0].key, 0, |t.buckets|);
      MoveInto(PushAt(t, h, entries[0]), entries[1..], hash)
  }

  /** The move loses no entry, makes no second one, and puts each into the bucket of its hash. */
  lemma {:induction false} MoveIntoKeeps<K, V>(t: Table<K, V>, entries: Chain<K, V>, hash: K -> nat)
    requires Sound(t, hash) && t.buckets != []
    ensures var r := MoveInto(t, entries, hash);
            && Sound(r, hash) && Bag(r.buckets) == Bag(t.buckets) + multiset(entries) && r.used == t.used + |entries|
    decreases |entries|
  {
    if entries != [] {
      var h := Home(hash, entries[0].key, 0, |t.buckets|);
      Dict.PushKeeps(t, hash, h, entries[0]);
      MoveIntoKeeps(PushAt(t, h, entries[0]), entries[1..], hash);
      assert entries == [entries[0]] + entries[1..];
    }
  }

  /** The move to the second of two tables, as they lie one after the other. */
  lemma {:induction false} MovedJoined<K, V>(b: seq<Chain<K, V>>, t: Table<K, V>, entries: Chain<K, V>, hash: K -> nat)
    requires t.buckets != []
    ensures Moved(b + t.buckets, entries, hash, |b|, |t.buckets|) == b + MoveInto(t, entries, hash).buckets
    decreases |entries|
  {
    if entries != [] {
      var e, h := entries[0], Home(hash, entries[0].key, 0, |t.buckets|);
      assert (b + t.buckets)[|b| + h := [e] + (b + t.buckets)[|b| + h]] == b + PushAt(t, h, e).buckets;
      MovedJoined(b, PushAt(t, h, e), entries[1..], hash);
    }
  }

  /** One cell changes from the front of chain `i` to the front of chain `t`. */
  lemma MoveOne<K, V>(heap: Heap<K, V>, heads: seq<Node>, chains: seq<seq<Node>>, buckets: seq<Chain<K, V>>, i: nat,
      t: nat, de: Node)
    requires Holds(heap, heads, chains, buckets) && i < |heads| == |chains| == |buckets| && t < |heads| && t != i
    requires chains[i] != [] && de == chains[i][0] && de in heap
    ensures buckets[i] != [] && de == heads[i]
    ensures Holds(heap[de := heap[de].(next := heads[t])], heads[i := heap[de].next][t := de],
                  chains[i := chains[i][1..]][t := [de] + chains[t]],
                      buckets[i := buckets[i][1..]][t := [buckets[i][0]] + buckets[t]])
  {
    Here(heap, heads, chains, buckets, i);
    Here(heap, heads, chains, buckets, t);
    var c, s := chains[i], buckets[i];
    LeadsOn(heap, heads[i], c, 0);
    SuffixChain(heap, heads[i], c, s, 1);
    Own(heap, heads, chains, buckets, i, c[1..]);
    Elsewhere(heap, heads, chains, buckets, i, heap);
    OneChanges(heap, heads, chains, buckets, i, heap, heap[de].next, c[1..], s[1..]);
    var heads1, chains1, buckets1 := heads[i := heap[de].next], chains[i := c[1..]], buckets[i := s[1..]];
    MoveIn(heap, heads, chains, buckets, i, t, de);
    OneChanges(heap, heads1, chains1, buckets1, t, heap[de := heap[de].(next := heads[t])], de, [de] + chains[t],
        [s[0]] + buckets[t]);
  }

  /** The cell joins chain `t`, and no other chain has it. */
  lemma MoveIn<K, V>(heap: Heap<K, V>, heads: seq<Node>, chains: seq<seq<Node>>, buckets: seq<Chain<K, V>>, i: nat,
      t: nat, de: Node)
    requires Holds(heap, heads, chains, buckets) && i < |heads| == |chains| == |buckets| && t < |heads| && t != i
    requires chains[i] != [] && de == chains[i][0] && de in heap && buckets[i] != []
    ensures var heap' := heap[de := heap[de].(next := heads[t])];
            && ChainAt(heap', de, [de] + chains[t]) && Stored(heap', [de] + chains[t], [buckets[i][0]] + buckets[t])
            && Foreign([de] + chains[t], chains[i := chains[i][1..]], t)
                && OthersKept(heap, heap', chains[i := chains[i][1..]], t)
  {
    assert Opened(0);
    assert ChainAt(heap, heads[i], chains[i]) && ChainAt(heap, heads[t], chains[t]);
    assert Stored(heap, chains[i], buckets[i]) && Stored(heap, chains[t], buckets[t]);
    PushChain(heap, heads[t], chains[t], buckets[t], de, heap[de].key, heap[de].val);
    var rest := chains[i := chains[i][1..]];
    assert de in chains[i];
    forall k, n | 0 <= k < |rest| && k != t && n in rest[k]
      ensures n in heap && n != de && n !in chains[t]
    {
      assert n in chains[k];
      var j :| 0 <= j < |chains[k]| && chains[k][j] == n;
      assert Stored(heap, chains[k], buckets[k]);
    }
  }

  lemma GrownHolds<K, V>(heap: Heap<K, V>, heads: seq<Node>, chains: seq<seq<Node>>, buckets: seq<Chain<K, V>>, n: nat)
    requires Holds(heap, heads, chains, buckets)
    ensures Holds(heap, heads + seq(n, _ => 0), chains + seq(n, _ => []), buckets + seq(n, _ => []))
  {
    assert Opened(0);
    var cs := chains + seq(n, _ => []);
    forall i | 0 <= i < |cs|
      ensures ChainAt(heap, (heads + seq(n, _ => 0))[i], cs[i]) && Stored(heap, cs[i], (buckets + seq(n, _ => []))[i])
    {
      assert i < |chains| ==> ChainAt(heap, heads[i], chains[i]) && Stored(heap, chains[i], buckets[i]);
    }
  }

  lemma DroppedHolds<K, V>(heap: Heap<K, V>, heads: seq<Node>, chains: seq<seq<Node>>, buckets: seq<Chain<K, V>>,
      n: nat)
    requires Holds(heap, heads, chains, buckets) && n <= |heads|
    ensures n <= |chains| == |buckets| && Holds(heap, heads[n..], chains[n..], buckets[n..])
  {
    assert Opened(0);
    forall i | 0 <= i < |heads| - n
      ensures ChainAt(heap, heads[n..][i], chains[n..][i]) && Stored(heap, chains[n..][i], buckets[n..][i])
    {
      assert ChainAt(heap, heads[n + i], chains[n + i]) && Stored(heap, chains[n + i], buckets[n + i]);
    }
  }

  class LinkedChains<K(==), V> {
    var heap: Heap<K, V>
    var heads: seq<Node>
    ghost var chains: seq<seq<Node>>
    ghost var buckets: seq<Chain<K, V>>

    ghost predicate Ok()
      reads this
    {
      Holds(heap, heads, chains, buckets)
    }

    /** Tables of NULL pointers. */
    constructor (size: nat)
      ensures Ok() && heap == map[] && |heads| == size && buckets == seq(size, _ => [])
    {
      heap, heads := map[], seq(size, _ => 0);
      chains, buckets := seq(size, _ => []), seq(size, _ => []);
    }

    /** The loop over a chain of dictFind and dictGenericDelete: the cell of the key and the one before it. */
    method Search(i: nat, key: K) returns (prev: Node, he: Node, ghost p: nat)
      requires Ok() && i < |heads|
      ensures |heads| == |chains| == |buckets| && p == Scan(buckets[i], key)
      ensures he == Nth(chains[i], p) && prev == Nth(chains[i], p - 1) && (he == 0 <==> p == |chains[i]|)
      ensures |chains[i]| == |buckets[i]| && (he != 0 ==> he in heap && EntryAt(heap, he) == buckets[i][p])
    {
      Here(heap, heads, chains, buckets, i);
      ghost var c, s := chains[i], buckets[i];
      prev, he, p := 0, heads[i], 0;
      while he != 0
        invariant 0 <= p <= |c| && he == Nth(c, p) && prev == Nth(c, p - 1)
            && forall j :: 0 <= j < p ==> s[j].key != key
        decreases |c| - p
      {
        LeadsOn(heap, heads[i], c, p);
        if heap[he].key == key {
          ScanIs(s, key, p);
          return;
        }
        prev := he;
        he := heap[he].next;
        p := p + 1;
      }
      NthNull(c, p);
      ScanIs(s, key, p);
    }

    /** zmalloc: any address that is not in use. */
    method Alloc() returns (n: Node)
      ensures n != 0 && n !in heap
    {
      n := 1;
      ghost var tried: set<Node> := {};
      while n in heap
        invariant n > 0 && forall k :: k in tried ==> k < n
        decreases heap.Keys - tried
      {
        assert n in heap.Keys - tried;
        tried := tried + {n};
        n := n + 1;
      }
    }

    /** dictExpand: `n` more NULL pointers. */
    method Grow(n: nat)
      requires Ok()
      modifies this
      ensures Ok() && |heads| == old(|heads|) + n && heap == old(heap)
      ensures buckets == old(buckets) + seq(n, _ => []) && chains == old(chains) + seq(n, _ => [])
    {
      GrownHolds(heap, heads, chains, buckets, n);
      heads := heads + seq(n, _ => 0);
      chains, buckets := chains + seq(n, _ => []), buckets + seq(n, _ => []);
    }

    /** The end of dictRehash: the first `n` buckets, all empty, are given up. */
    method DropFront(n: nat)
      requires Ok() && n <= |heads|
      modifies this
      ensures Ok() && n <= |old(buckets)| && |heads| == old(|heads|) - n && heap == old(heap)
      ensures buckets == old(buckets)[n..]
    {
      DroppedHolds(heap, heads, chains, buckets, n);
      heads, chains, buckets := heads[n..], chains[n..], buckets[n..];
    }

    /** The value of the cell at position `p` of its chain is overwritten. */
    method SetValue(i: nat, he: Node, val: V, ghost p: nat)
      requires Ok() && i < |heads| == |chains| == |buckets| && p < |chains[i]| && he == chains[i][p]
      modifies this
      ensures Ok() && |heads| == old(|heads|) && chains == old(chains) && p < |old(buckets)[i]|
      ensures buckets == old(buckets)[i := old(buckets)[i][p := old(buckets)[i][p].(val := val)]]
    {
      Here(heap, heads, chains, buckets, i);
      ghost var h0, c, s := heap, chains[i], buckets[i];
      LeadsOn(heap, heads[i], c, p);
      heap := heap[he := heap[he].(val := val)];
      SetChain(h0, heads[i], c, s, p, val, heap);
      Own(h0, heads, chains, buckets, i, c);
      Elsewhere(h0, heads, chains, buckets, i, heap);
      OneChanges(h0, heads, chains, buckets, i, heap, heads[i], c, s[p := s[p].(val := val)]);
      assert heads[i := heads[i]] == heads && chains[i := c] == chains;
      buckets := buckets[i := s[p := s[p].(val := val)]];
    }

    /** dictAdd: a new cell at the head of a bucket. */
    method Insert(i: nat, n: Node, key: K, val: V)
      requires Ok() && i < |heads| && n != 0 && n !in heap
      modifies this
      ensures Ok() && |heads| == old(|heads|) && i < |old(buckets)|
          && buckets == old(buckets)[i := [Entry(key, val)] + old(buckets)[i]]
      ensures heap.Keys == old(heap.Keys) + {n}
    {
      Here(heap, heads, chains, buckets, i);
      ghost var h0, c, s := heap, chains[i], buckets[i];
      NotThere(heap, c, s, n);
      PushChain(heap, heads[i], c, s, n, key, val);
      heap := heap[n := Cell(key, val, heads[i])];
      Own(h0, heads, chains, buckets, i, [n] + c);
      Elsewhere(h0, heads, chains, buckets, i, heap);
      OneChanges(h0, heads, chains, buckets, i, heap, n, [n] + c, [Entry(key, val)] + s);
      heads := heads[i := n];
      chains, buckets := chains[i := [n] + c], buckets[i := [Entry(key, val)] + s];
    }

    /** dictGenericDelete: unlink the cell at position `p` of its chain and free it. */
    method Free(i: nat, prev: Node, he: Node, ghost p: nat)
      requires Ok() && i < |heads| == |chains| == |buckets| && p < |chains[i]| && he == chains[i][p]
          && prev == Nth(chains[i], p - 1)
      modifies this
      ensures Ok() && |heads| == old(|heads|) && p < |old(buckets)[i]|
      ensures buckets == old(buckets)[i := Without(old(buckets)[i], p)]
      ensures chains == old(chains)[i := Without(old(chains)[i], p)]
      ensures he in old(heap) && (prev != 0 ==> prev in old(heap)) && heap == Unlinked(old(heap), prev, he)
    {
      Here(heap, heads, chains, buckets, i);
      ghost var h0, c, s := heap, chains[i], buckets[i];
      LeadsOn(heap, heads[i], c, p);
      if p > 0 {
        LeadsOn(heap, heads[i], c, p - 1);
      }
      var head := heads[i];
      if prev != 0 {
        heap := heap[prev := heap[prev].(next := heap[he].next)];
      } else {
        head := heap[he].next;
      }
      heap := heap - {he};
      CutChain(h0, heads[i], c, s, p, heap, head);
      CutFrame(h0, c, p, heap);
      Own(h0, heads, chains, buckets, i, Without(c, p));
      Elsewhere(h0, heads, chains, buckets, i, heap);
      OneChanges(h0, heads, chains, buckets, i, heap, head, Without(c, p), Without(s, p));
      heads := heads[i := head];
      chains, buckets := chains[i := Without(c, p)], buckets[i := Without(s, p)];
    }

    /** One step of dictRehash: every cell of bucket `i` is relinked into its bucket of the other table. */
    method MoveBucket(i: nat, hash: K -> nat, base: nat, size: nat) returns (moved: nat)
      requires Ok() && size > 0 && base + size <= |heads| && i < |heads| && !(base <= i < base + size)
      modifies this
      ensures Ok() && |heads| == old(|heads|) == |old(buckets)| && heap.Keys == old(heap.Keys)
      ensures buckets == Moved(old(buckets)[i := []], old(buckets)[i], hash, base, size) && moved == |old(buckets)[i]|
    {
      Here(heap, heads, chains, buckets, i);
      ghost var bs := buckets;
      var de := heads[i];
      moved := 0;
      assert heads[i := de] == heads;
      while de != 0
        invariant |heads| == |chains| == |buckets| == |bs| && Holds(heap, heads[i := de], chains, buckets)
            && heap.Keys == old(heap.Keys)
        invariant de == Nth(chains[i], 0) && moved + |chains[i]| == |bs[i]|
        invariant Moved(buckets[i := []], buckets[i], hash, base, size) == Moved(bs[i := []], bs[i], hash, base, size)
        decreases |chains[i]|
      {
        de := MoveCell(i, hash, base, size, de);
        moved := moved + 1;
      }
      EmptyChain(heap, heads[i := de], chains, buckets, i);
      heads := heads[i := 0];
    }

    /** Relink one cell; the head of bucket `i` is still the old one and `de` stands for it. */
    method MoveCell(i: nat, hash: K -> nat, base: nat, size: nat, de: Node) returns (nextde: Node)
      requires size > 0 && base + size <= |heads| && i < |heads| && !(base <= i < base + size)
      requires |heads| == |chains| == |buckets| && Holds(heap, heads[i := de], chains, buckets) && de != 0
      modifies this
      ensures i < |heads| == |chains| == |buckets| == old(|heads|) && Holds(heap, heads[i := nextde], chains, buckets)
          && heap.Keys == old(heap.Keys)
      ensures nextde == Nth(chains[i], 0) && |chains[i]| + 1 == |old(chains)[i]|
      ensures Moved(buckets[i := []], buckets[i], hash, base, size) == Moved(old(buckets)[i := []], old(buckets)[i],
          hash, base, size)
    {
      ghost var h0, hs, cs, bs := heap, heads[i := de], chains, buckets;
      Here(heap, hs, cs, bs, i);
      LeadsOn(heap, de, cs[i], 0);
      nextde := heap[de].next;
      var t := Home(hash, heap[de].key, base, size);
      MoveOne(heap, hs, cs, bs, i, t, de);
      heap := heap[de := heap[de].(next := heads[t])];
      heads := heads[t := de];
      chains, buckets := cs[i := cs[i][1..]][t := [de] + cs[t]], bs[i := bs[i][1..]][t := [bs[i][0]] + bs[t]];
      assert heads[i := nextde] == hs[i := nextde][t := de];
      Swapped(bs, i, t);
      assert heap.Keys == h0.Keys;
    }
  }

  /** Moving the front entry: the buckets without bucket `i`. */
  lemma Swapped<K, V>(bs: seq<Chain<K, V>>, i: nat, t: nat)
    requires i < |bs| && t < |bs| && i != t && bs[i] != []
    ensures bs[i := bs[i][1..]][t := [bs[i][0]] + bs[t]][i := []] == bs[i := []][t := [bs[i][0]] + bs[i := []][t]]
    ensures bs[i := bs[i][1..]][t := [bs[i][0]] + bs[t]][i] == bs[i][1..]
  {
  }

  lemma EmptyChain<K, V>(heap: Heap<K, V>, heads: seq<Node>, chains: seq<seq<Node>>, buckets: seq<Chain<K, V>>, i: nat)
    requires Holds(heap, heads, chains, buckets) && i < |heads| && heads[i] == 0
    ensures |heads| == |chains| == |buckets| && chains[i] == [] && buckets[i] == [] && buckets[i := []] == buckets
  {
    Here(heap, heads, chains, buckets, i);
    if chains[i] != [] {
      LeadsOn(heap, heads[i], chains[i], 0);
    }
  }

  lemma NotThere<K, V>(heap: Heap<K, V>, c: seq<Node>, s: Chain<K, V>, n: Node)
    requires Stored(heap, c, s) && n !in heap
    ensures n !in c
  {
  }

  lemma CutFrame<K, V>(heap: Heap<K, V>, c: seq<Node>, p: nat, heap': Heap<K, V>)
    requires p < |c| && c[p] in heap && (p > 0 ==> c[p - 1] in heap) && heap' == Unlinked(heap, Nth(c, p - 1), c[p])
    ensures forall n :: n in heap && n !in c ==> n in heap' && heap'[n] == heap[n]
    ensures forall n :: n in Without(c, p) ==> n in c
  {
    assert c[p] in c;
  }

  lemma {:induction false} ScanIs<K, V>(s: Chain<K, V>, key: K, p: nat)
    requires p <= |s| && (p < |s| ==> s[p].key == key) && forall j :: 0 <= j < p ==> s[j].key != key
    ensures Scan(s, key) == p
  {
  }
}
