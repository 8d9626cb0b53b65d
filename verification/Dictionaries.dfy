/**
 * The dictionary of dict.c over linked cells: two tables of chains, rehashed step by step.
 *
 * The entries are in the cells of a heap; the tables that module Dict speaks of are what these cells
 * stand for.
 */
module Dictionaries {
  import opened Bits
  import opened Chains
  import opened Options
  import opened Links
  import opened Dict
  import opened DictLinks

  /** The `size` and `used` of a `dictht`. */
  datatype Header = Header(size: nat, used: int)

  function Used<K, V>(t: Table<K, V>): Header { Header(|t.buckets|, t.used) }

  /** The buckets are those of the two tables, one after the other, and the headers say how many. */
  ghost predicate Joins<K, V>(buckets: seq<Chain<K, V>>, h0: Header, h1: Header, s: State<K, V>)
  {
    match s
    case State(ht0, ht1, _) => buckets == ht0.buckets + ht1.buckets && h0 == Used(ht0) && h1 == Used(ht1)
  }

  /** The cells of a dictionary: heap, heads and headers, with the chains they make and the buckets they hold. */
  datatype Store<K, V> = Store(heap: Heap<K, V>, heads: seq<Node>, chains: seq<seq<Node>>, buckets: seq<Chain<K, V>>,
                               h0: Header, h1: Header)

  /** The cells stand for the tables. */
  ghost predicate Stands<K, V>(st: Store<K, V>, s: State<K, V>)
  {
    match st
    case Store(heap, heads, chains, buckets, h0, h1) =>
      DictLinks.Holds(heap, heads, chains, buckets) && Joins(buckets, h0, h1, s)
  }

  /** The number of bucket `idx` of a table among all. */
  function Number(h0: Header, table: nat, idx: nat): nat
  {
    if table == 0 then idx else h0.size + idx
  }

  lemma JoinAt<K, V>(buckets: seq<Chain<K, V>>, h0: Header, h1: Header, s: State<K, V>, table: nat, idx: nat)
    requires Joins(buckets, h0, h1, s) && idx < |Side(s, table).buckets|
    ensures Number(h0, table, idx) < |buckets| && buckets[Number(h0, table, idx)] == Side(s, table).buckets[idx]
  {
  }

  /** One bucket of one table changes. */
  lemma JoinSide<K, V>(buckets: seq<Chain<K, V>>, h0: Header, h1: Header, s: State<K, V>, table: nat, idx: nat,
      c: Chain<K, V>, used: int)
    requires Joins(buckets, h0, h1, s) && idx < |Side(s, table).buckets|
    ensures var t := Table(Side(s, table).buckets[idx := c], used);
            && Number(h0, table, idx) < |buckets|
            && Joins(buckets[Number(h0, table, idx) := c], if table == 0 then h0.(used := used) else h0,
                     if table == 0 then h1 else h1.(used := used), WithSide(s, table, t))
  {
  }

  /** One entry leaves its bucket. */
  lemma JoinCut<K, V>(buckets: seq<Chain<K, V>>, h0: Header, h1: Header, s: State<K, V>, table: nat, t: Table<K, V>,
      idx: nat, pos: nat)
    requires Joins(buckets, h0, h1, s) && t == Side(s, table) && idx < |t.buckets| && pos < |t.buckets[idx]|
    ensures Number(h0, table, idx) < |buckets| && buckets[Number(h0, table, idx)] == t.buckets[idx]
    ensures Joins(buckets[Number(h0, table, idx) := Without(t.buckets[idx], pos)],
                  if table == 0 then h0.(used := h0.used - 1) else h0,
                  if table == 0 then h1 else h1.(used := h1.used - 1), WithSide(s, table, CutAt(t, idx, pos))) == true
  {
    JoinAt(buckets, h0, h1, s, table, idx);
    JoinSide(buckets, h0, h1, s, table, idx, Without(t.buckets[idx], pos), t.used - 1);
  }

  /** A NULL head is an empty bucket. */
  lemma NullIsEmpty<K, V>(heap: Heap<K, V>, heads: seq<Node>, chains: seq<seq<Node>>, buckets: seq<Chain<K, V>>, i: nat)
    requires DictLinks.Holds(heap, heads, chains, buckets) && i < |heads|
    ensures |heads| == |chains| == |buckets| && (heads[i] == 0 <==> buckets[i] == [])
  {
    Here(heap, heads, chains, buckets, i);
    if chains[i] != [] {
      LeadsOn(heap, heads[i], chains[i], 0);
    }
  }

  /** The new table is the only one, or the one that the entries of the first are to move to. */
  ghost predicate Installed<K, V>(s: State<K, V>, s': State<K, V>)
  {
    if s.ht0.buckets == [] then s'.rehashidx == -1 else s'.rehashidx == 0 && s'.ht0 == s.ht0
  }

  /** Twice the larger number is twice the entries, and less than the entries where it wraps around. */
  lemma Doubled(size: nat, used: nat)
    requires size <= used < ULONG && 0 < used
    ensures var n := (if size > used then size else used) * 2 % ULONG;
            if 2 * used < ULONG then n == 2 * used else n < used
  {
  }

  lemma DoubledGrows(size: nat, used: nat, n: nat)
    requires 0 < size <= used && LeastPower(2 * used, n)
    ensures n > size || size >= LONG_MAX
  {
  }

  /** A `dict`, with the setting of the global `dict_can_resize`. */
  class Dictionary<K(==), V> {
    const hash: K -> nat
    const links: LinkedChains<K, V>
    var h0: Header
    var h1: Header
    var rehashidx: int
    var iterators: int
    var canResize: bool
    ghost var ht0: Table<K, V>
    ghost var ht1: Table<K, V>
    ghost var content: map<K, V>

    ghost function Value(): State<K, V>
      reads this
    {
      State(ht0, ht1, rehashidx)
    }

    ghost function Cells(): Store<K, V>
      reads this, links
    {
      Store(links.heap, links.heads, links.chains, links.buckets, h0, h1)
    }

    ghost predicate Joined()
      reads this, links
    {
      Stands(Cells(), Value())
    }

    /** The tables are in order and hold `content`. */
    ghost predicate Ok()
      reads this, links
    {
      Valid(Value(), hash, content) && Joined()
    }

    /** Fewer entries than would make twice their number wrap around. */
    ghost predicate Roomy()
      reads this
    {
      2 * |content| < ULONG
    }

    /** dictCreate */
    constructor (hash: K -> nat)
      ensures Ok() && content == map[] && iterators == 0 && this.hash == hash && fresh(links)
    {
      this.hash := hash;
      links := new LinkedChains(0);
      h0, h1 := Header(0, 0), Header(0, 0);
      ht0, ht1, rehashidx, iterators := Table([], 0), Table([], 0), -1, 0;
      canResize := true;
      content := map[];
    }

    /** dictExpand */
    method Expand(size: nat) returns (ok: bool)
      requires Ok()
      modifies `h0, `h1, `ht0, `ht1, `rehashidx, links
      ensures Ok()
      ensures ok == (old(rehashidx) == -1 && old(ht0.used) <= size)
      ensures !ok ==> Value() == old(Value())
      ensures ok ==> ht0.buckets != [] && |Target(Value()).buckets| >= INITIAL_SIZE
      ensures ok ==> LeastPower(size, |Target(Value()).buckets|) == true
      ensures ok ==> Installed(old(Value()), Value())
    {
      var realsize := NextPower(size);
      if rehashidx != -1 || h0.used > size {
        return false;
      }
      Install(realsize);
      return true;
    }

    /** Install an empty table as the first one, or as the target of a rehash. */
    method Install(size: nat)
      requires Ok() && rehashidx == -1 && size > 0
      modifies `h0, `h1, `ht0, `ht1, `rehashidx, links
      ensures Ok() && |Target(Value()).buckets| == size && ht0.buckets != [] && Installed(old(Value()), Value())
    {
      ghost var n := FreshTable<K, V>(size, hash);
      ValidExpand(Value(), hash, content, n);
      Counters(Value(), hash, content);
      links.Grow(size);
      if h0.size == 0 {
        ht0, h0 := n, Header(size, 0);
      } else {
        ht1, h1 := n, Header(size, 0);
        rehashidx := 0;
      }
    }

    /** Advance the rehash index to the next non-empty bucket, which exists because entries are left. */
    method SkipEmpty()
      requires Ok() && rehashidx != -1 && ht0.used != 0
      modifies `rehashidx
      ensures Joined() && 0 <= old(rehashidx) <= rehashidx < |ht0.buckets| && ht0.buckets[rehashidx] != []
      ensures forall k :: 0 <= k < rehashidx ==> ht0.buckets[k] == []
    {
      ghost var i := NextBucket(Value(), hash, content);
      Sizes(links.heap, links.heads, links.chains, links.buckets);
      NullIsEmpty(links.heap, links.heads, links.chains, links.buckets, rehashidx);
      while links.heads[rehashidx] == 0
        invariant old(rehashidx) <= rehashidx <= i && |links.heads| == |links.buckets|
        invariant links.heads[rehashidx] == 0 <==> ht0.buckets[rehashidx] == []
        invariant forall k :: 0 <= k < rehashidx ==> ht0.buckets[k] == []
        decreases i - rehashidx
      {
        rehashidx := rehashidx + 1;
        NullIsEmpty(links.heap, links.heads, links.chains, links.buckets, rehashidx);
      }
    }

    /** Relink the cells of bucket `i` of the old table into the new one. */
    method MoveCells(i: nat)
      requires Joined() && i < |ht0.buckets| && ht1.buckets != [] && Sound(ht1, hash)
      modifies `h0, `h1, `ht0, `ht1, links
      ensures Joined() && Sound(ht1, hash) && |ht1.buckets| == |old(ht1).buckets|
      ensures Bag(ht1.buckets) == Bag(old(ht1).buckets) + multiset(old(ht0).buckets[i])
      ensures ht0 == Table(old(ht0).buckets[i := []], old(ht0).used - |old(ht0).buckets[i]|)
    {
      ghost var c, b := ht0.buckets[i], ht0.buckets[i := []];
      Sizes(links.heap, links.heads, links.chains, links.buckets);
      assert links.buckets[i] == c && links.buckets[i := []] == b + ht1.buckets;
      MoveIntoKeeps(ht1, c, hash);
      MovedJoined(b, ht1, c, hash);
      var moved := links.MoveBucket(i, hash, h0.size, h1.size);
      h0, h1 := h0.(used := h0.used - moved), h1.(used := h1.used + moved);
      ht0, ht1 := Table(b, ht0.used - |c|), MoveInto(ht1, c, hash);
    }

    /** One step of dictRehash: move the next non-empty bucket. */
    method MoveBucket()
      requires Ok() && rehashidx != -1 && ht0.used != 0
      modifies `h0, `h1, `ht0, `ht1, `rehashidx, links
      ensures Ok() && MovedOn(PhaseOf(old(Value())), PhaseOf(Value())) && ht0.used < old(ht0.used)
    {
      ghost var s := Value();
      ghost var _ := NextBucket(s, hash, content);
      SkipEmpty();
      var i := rehashidx;
      MoveCells(i);
      rehashidx := i + 1;
      ValidMove(s, hash, content, i, ht1);
      assert Value() == State(Table(s.ht0.buckets[i := []], s.ht0.used - |s.ht0.buckets[i]|), ht1, i + 1);
    }

    /** The end of a rehash: the new table becomes the only one. */
    method FinishRehash()
      requires Ok() && rehashidx != -1 && ht0.used == 0
      modifies `h0, `h1, `ht0, `ht1, `rehashidx, links
      ensures Ok() && ht0 == old(ht1) && ht1 == Table([], 0) && rehashidx == -1
    {
      ValidFinish(Value(), hash, content);
      Sizes(links.heap, links.heads, links.chains, links.buckets);
      links.DropFront(h0.size);
      h0, h1 := h1, Header(0, 0);
      ht0, ht1, rehashidx := ht1, Table([], 0), -1;
    }

    ghost predicate Untouched(chains: seq<seq<Node>>, buckets: seq<Chain<K, V>>)
      reads links
    {
      links.chains == chains && links.buckets == buckets
    }

    /** dictRehash: up to `n` steps; every step advances, so enough of them finish. */
    method Rehash(n: nat) returns (more: bool)
      requires Ok()
      modifies `h0, `h1, `ht0, `ht1, `rehashidx, links
      ensures Ok()
      ensures more == (rehashidx != -1)
      ensures more ==> old(rehashidx) >= 0 && rehashidx >= old(rehashidx) + n && ht0.used <= old(ht0.used) - n
      ensures more ==> |ht0.buckets| == old(|ht0.buckets|) && |ht1.buckets| == old(|ht1.buckets|)
      ensures !more && old(rehashidx) != -1 ==> |ht0.buckets| == old(|ht1.buckets|) && n > 0
      ensures n == 1 && old(rehashidx) != -1 ==> more == (old(ht0.used) != 0)
      ensures n > old(|ht0.buckets|) ==> !more
      ensures old(rehashidx) == -1 ==> Value() == old(Value()) && Untouched(old(links.chains), old(links.buckets))
      ensures old(ht0.buckets) != [] ==> ht0.buckets != []
    {
      Counters(Value(), hash, content);
      if rehashidx == -1 {
        return false;
      }
      var k := n;
      while k > 0
        invariant 0 <= k <= n && Ok() && rehashidx >= old(rehashidx) + (n - k) && ht0.used <= old(ht0.used) - (n - k)
        invariant k == n ==> ht0.used == old(ht0.used)
        invariant |ht0.buckets| == old(|ht0.buckets|) && |ht1.buckets| == old(|ht1.buckets|)
      {
        k := k - 1;
        if h0.used == 0 {
          FinishRehash();
          Counters(Value(), hash, content);
          return false;
        }
        MoveBucket();
      }
      Counters(Value(), hash, content);
      return true;
    }

    /** _dictRehashStep: rehashing pauses while iterators are running. */
    method RehashStep()
      requires Ok()
      modifies `h0, `h1, `ht0, `ht1, `rehashidx, links
      ensures Ok()
      ensures iterators > 0 || old(rehashidx) == -1 ==>
            Value() == old(Value()) && Untouched(old(links.chains), old(links.buckets))
      ensures iterators == 0 && old(rehashidx) != -1 ==>
            OneStep(PhaseOf(old(Value())), old(ht0.used), PhaseOf(Value()))
            && (rehashidx != -1 ==> ht0.used < old(ht0.used))
      ensures old(ht0.buckets) != [] ==> ht0.buckets != []
    {
      if iterators == 0 {
        var _ := Rehash(1);
      }
    }

    /** A cell of the entry at a position of a bucket, and the cell before it. */
    ghost predicate CellOf(b: nat, pos: nat, prev: Node, he: Node)
      reads links
    {
      && b < |links.heads| == |links.chains| == |links.buckets| && pos < |links.chains[b]|
      && he == links.chains[b][pos] && prev == Nth(links.chains[b], pos - 1)
    }

    /** The search through both tables that find, delete and insert share. */
    method Locate(key: K) returns (found: bool, table: nat, idx: nat, prev: Node, he: Node, ghost pos: nat)
      requires Ok() && ht0.buckets != []
      ensures found == (key in content)
      ensures table <= 1 && idx < |Side(Value(), table).buckets|
          && idx == Slot(hash(key), |Side(Value(), table).buckets|)
      ensures found ==> pos == Scan(Side(Value(), table).buckets[idx], key) < |Side(Value(), table).buckets[idx]|
                        && Side(Value(), table).buckets[idx][pos] == Entry(key, content[key])
                        && CellOf(Number(h0, table, idx), pos, prev, he)
                        && he in links.heap && links.heap[he].val == content[key]
      ensures !found ==> Side(Value(), table) == Target(Value())
    {
      table, idx := 0, Slot(hash(key), h0.size);
      found, prev, he, pos := Look(key, 0, idx);
      if found {
        return;
      }
      if rehashidx != -1 {
        Counters(Value(), hash, content);
        table, idx := 1, Slot(hash(key), h1.size);
        found, prev, he, pos := Look(key, 1, idx);
        if found {
          return;
        }
      }
      ScanMisses(Value(), hash, content, key);
    }

    /** The search through the chain of the key in one table. */
    method Look(key: K, table: nat, idx: nat) returns (found: bool, prev: Node, he: Node, ghost pos: nat)
      requires Ok() && table <= 1 && Side(Value(), table).buckets != []
          && idx == Slot(hash(key), |Side(Value(), table).buckets|)
      ensures idx < |Side(Value(), table).buckets| && pos == Scan(Side(Value(), table).buckets[idx], key)
      ensures found == (pos < |Side(Value(), table).buckets[idx]|)
      ensures found ==> key in content && Side(Value(), table).buckets[idx][pos] == Entry(key, content[key])
                        && CellOf(Number(h0, table, idx), pos, prev, he)
                        && he in links.heap && links.heap[he].val == content[key]
    {
      ScanFinds(Value(), hash, content, key, table);
      JoinAt(links.buckets, h0, h1, Value(), table, idx);
      Sizes(links.heap, links.heads, links.chains, links.buckets);
      prev, he, pos := links.Search(Number(h0, table, idx), key);
      found := he != 0;
    }

    /** There are as many entries as buckets, and the table may be resized or is too full by far. */
    ghost predicate Due()
      reads this
    {
      && rehashidx == -1 && ht0.buckets != [] && ht0.used >= |ht0.buckets|
      && (canResize || ht0.used / |ht0.buckets| > FORCE_RESIZE_RATIO)
    }

    /** Twice the number of entries, which the table is to grow to, is not an unsigned long. */
    ghost predicate Overfull()
      reads this
    {
      Due() && 2 * ht0.used >= ULONG
    }

    /**
     * _dictExpandIfNeeded fails exactly when the new size would wrap around, so never with fewer than 2^63 entries.
     * A first table has four buckets; one that is due gets company of at least twice as many buckets as it has entries.
     */
    method ExpandIfNeeded() returns (ok: bool)
      requires Ok() && |content| < ULONG
      modifies `h0, `h1, `ht0, `ht1, `rehashidx, links
      ensures Ok() && ok == !old(Overfull()) && (Roomy() ==> ok)
      ensures ok ==> ht0.buckets != [] && Target(Value()).buckets != []
      ensures old(rehashidx) == -1 && old(ht0.buckets) == [] ==> |ht0.buckets| == INITIAL_SIZE && rehashidx == -1
      ensures ok && old(Due()) ==> rehashidx == 0 && ht0 == old(ht0) && LeastPower(2 * ht0.used, |ht1.buckets|) == true
      ensures !old(Due()) && old(ht0.buckets) != [] ==> Value() == old(Value())
    {
      Counters(Value(), hash, content);
      if rehashidx != -1 {
        return true;
      }
      if h0.size == 0 {
        ok := Expand(INITIAL_SIZE);
        return;
      }
      if h0.used >= h0.size && (canResize || h0.used / h0.size > FORCE_RESIZE_RATIO) {
        Doubled(h0.size, h0.used);
        ok := Expand((if h0.size > h0.used then h0.size else h0.used) * 2 % ULONG);
        return;
      }
      return true;
    }

    /** A rehash has just begun. */
    ghost predicate StartsGrowing()
      reads this
    {
      rehashidx == 0 && ht0.used > 0 && Grown(PhaseOf(Value()))
    }

    /** _dictKeyIndex: the bucket for a new key in the insertion table, or -1 when the key exists. */
    method KeyIndex(key: K) returns (index: int)
      requires Ok() && Roomy()
      modifies `h0, `h1, `ht0, `ht1, `rehashidx, links
      ensures Ok() && (index == -1 <==> key in content)
      ensures index != -1 ==>
            0 <= index < |Target(Value()).buckets| && index == Slot(hash(key), |Target(Value()).buckets|)
      ensures old(rehashidx) != -1 ==> Value() == old(Value())
      ensures old(rehashidx) == -1 && rehashidx != -1 ==> ht0 == old(ht0) && StartsGrowing()
      ensures old(rehashidx) == -1 && old(ht0.buckets) != [] ==> ht0 == old(ht0)
    {
      Counters(Value(), hash, content);
      ghost var due := Due();
      var ok := ExpandIfNeeded();
      if !ok {
        return -1;
      }
      if due {
        DoubledGrows(h0.size, h0.used, |ht1.buckets|);
      }
      var found, table, idx, prev, he;
      ghost var pos;
      found, table, idx, prev, he, pos := Locate(key);
      return if found then -1 else idx;
    }

    /** dictAdd: fails exactly when the key is present. */
    method Add(key: K, val: V) returns (ok: bool)
      requires Ok() && Roomy()
      modifies `h0, `h1, `ht0, `ht1, `rehashidx, links, `content
      ensures Ok() && ok == (key !in old(content))
      ensures content == if ok then old(content)[key := val] else old(content)
      ensures !ok ==> ht0.buckets != []
      ensures iterators == 0 ==> AdvancesOnce(PhaseOf(old(Value())), PhaseOf(Value()), ht0.used)
    {
      Counters(Value(), hash, content);
      if rehashidx != -1 {
        RehashStep();
      }
      var index := KeyIndex(key);
      if index == -1 {
        Counters(Value(), hash, content);
        return false;
      }
      Link(index, key, val);
      return true;
    }

    /** dictFind and dictFetchValue */
    method Find(key: K) returns (r: Option<V>)
      requires Ok()
      modifies `h0, `h1, `ht0, `ht1, `rehashidx, links
      ensures Ok() && r == if key in content then Some(content[key]) else None
      ensures iterators > 0 ==> Value() == old(Value())
      ensures iterators == 0 ==> Advances(PhaseOf(old(Value())), PhaseOf(Value()))
    {
      if h0.size == 0 {
        Counters(Value(), hash, content);
        return None;
      }
      if rehashidx != -1 {
        RehashStep();
      }
      var found, table, idx, prev, he;
      ghost var pos;
      found, table, idx, prev, he, pos := Locate(key);
      if !found {
        return None;
      }
      return Some(links.heap[he].val);
    }

    /** dictReplace: add the key or overwrite its value in place. */
    method Replace(key: K, val: V) returns (isNew: bool)
      requires Ok() && Roomy()
      modifies `h0, `h1, `ht0, `ht1, `rehashidx, links, `content
      ensures Ok() && content == old(content)[key := val] && isNew == (key !in old(content))
      ensures iterators == 0 ==> Advances(PhaseOf(old(Value())), PhaseOf(Value()))
    {
      isNew := Add(key, val);
      if isNew {
        return;
      }
      Counters(Value(), hash, content);
      ghost var q, left := PhaseOf(Value()), ht0.used;
      if rehashidx != -1 {
        RehashStep();
      }
      if iterators == 0 {
        AdvancesTwice(PhaseOf(old(Value())), q, left, PhaseOf(Value()));
      }
      var found, table, idx, prev, he;
      ghost var pos;
      found, table, idx, prev, he, pos := Locate(key);
      Overwrite(table, idx, prev, he, val, pos);
    }

    /** Set the value of the entry at a position. */
    method Overwrite(table: nat, idx: nat, prev: Node, he: Node, val: V, ghost pos: nat)
      requires Ok() && table <= 1 && idx < |Side(Value(), table).buckets| && pos < |Side(Value(), table).buckets[idx]|
      requires CellOf(Number(h0, table, idx), pos, prev, he)
      modifies `h0, `h1, `ht0, `ht1, `content, links
      ensures Ok() && content == old(content)[old(Side(Value(), table).buckets[idx][pos].key) := val]
      ensures PhaseOf(Value()) == PhaseOf(old(Value()))
    {
      ghost var s := Value();
      ghost var t := Side(s, table);
      ghost var c := t.buckets[idx][pos := t.buckets[idx][pos].(val := val)];
      ValidSet(s, hash, content, table, t, idx, pos, val);
      JoinAt(links.buckets, h0, h1, s, table, idx);
      JoinSide(links.buckets, h0, h1, s, table, idx, c, t.used);
      links.SetValue(Number(h0, table, idx), he, val, pos);
      if table == 0 {
        ht0 := SetAt(ht0, idx, pos, val);
      } else {
        ht1 := SetAt(ht1, idx, pos, val);
      }
      assert Value() == WithSide(s, table, SetAt(t, idx, pos, val));
      content := content[t.buckets[idx][pos].key := val];
    }

    /** Unlink the entry at a position. */
    method Unlink(table: nat, idx: nat, prev: Node, he: Node, ghost pos: nat)
      requires Ok() && table <= 1 && idx < |Side(Value(), table).buckets| && pos < |Side(Value(), table).buckets[idx]|
      requires CellOf(Number(h0, table, idx), pos, prev, he)
      modifies `h0, `h1, `ht0, `ht1, `content, links
      ensures Ok() && content == old(content) - {old(Side(Value(), table).buckets[idx][pos].key)}
      ensures Value() == WithSide(old(Value()), table, CutAt(old(Side(Value(), table)), idx, pos))
      ensures Number(old(h0), table, idx) < |old(links.chains)|
          && pos < |old(links.chains)[Number(old(h0), table, idx)]|
      ensures links.chains == old(links.chains)[Number(old(h0), table, idx) :=
                  Without(old(links.chains)[Number(old(h0), table, idx)], pos)]
    {
      ghost var s := Value();
      ghost var t := Side(s, table);
      ghost var key := t.buckets[idx][pos].key;
      ValidCut(s, hash, content, table, t, idx, pos);
      JoinCut(links.buckets, h0, h1, s, table, t, idx, pos);
      links.Free(Number(h0, table, idx), prev, he, pos);
      if table == 0 {
        ht0, h0 := CutAt(ht0, idx, pos), h0.(used := h0.used - 1);
      } else {
        ht1, h1 := CutAt(ht1, idx, pos), h1.(used := h1.used - 1);
      }
      assert Value() == WithSide(s, table, CutAt(t, idx, pos));
      content := content - {key};
    }

    /** Link a new entry at the head of a bucket of the insertion table. */
    method Link(index: nat, key: K, val: V)
      requires Ok() && key !in content && index < |Target(Value()).buckets|
          && index == Slot(hash(key), |Target(Value()).buckets|)
      modifies `h0, `h1, `ht0, `ht1, `content, links
      ensures Ok() && content == old(content)[key := val]
      ensures PhaseOf(Value()) == PhaseOf(old(Value())) && ht0.used >= old(ht0.used)
    {
      ghost var s := Value();
      ghost var t := Target(s);
      ValidPush(s, hash, content, t, index, Entry(key, val));
      var table := if rehashidx != -1 then 1 else 0;
      JoinAt(links.buckets, h0, h1, s, table, index);
      JoinSide(links.buckets, h0, h1, s, table, index, [Entry(key, val)] + t.buckets[index], t.used + 1);
      Sizes(links.heap, links.heads, links.chains, links.buckets);
      var n := links.Alloc();
      links.Insert(Number(h0, table, index), n, key, val);
      if table == 1 {
        ht1, h1 := PushAt(ht1, index, Entry(key, val)), h1.(used := h1.used + 1);
      } else {
        ht0, h0 := PushAt(ht0, index, Entry(key, val)), h0.(used := h0.used + 1);
      }
      assert Value() == WithTarget(s, PushAt(t, index, Entry(key, val)));
      content := content[key := val];
    }

    /** dictGenericDelete */
    method Delete(key: K) returns (ok: bool)
      requires Ok()
      modifies `h0, `h1, `ht0, `ht1, `rehashidx, `content, links
      ensures Ok() && ok == (key in old(content)) && content == old(content) - {key}
      ensures iterators == 0 ==> Advances(PhaseOf(old(Value())), PhaseOf(Value()))
      ensures iterators > 0 ==> CutFrom(old(Value()), Value(), hash, key)
      ensures iterators > 0 ==> CutChains(old(links.chains), links.chains, old(links.buckets), key)
    {
      if h0.size == 0 {
        Counters(Value(), hash, content);
        NothingCut(key);
        return false;
      }
      if rehashidx != -1 {
        RehashStep();
      }
      var found, table, idx, prev, he;
      ghost var pos;
      found, table, idx, prev, he, pos := Locate(key);
      if !found {
        NothingCut(key);
        return false;
      }
      Remove(key, table, idx, prev, he, pos);
      return true;
    }

    /** A key that is not there is cut from every chain as it is. */
    lemma NothingCut(key: K)
      requires Ok() && key !in content
      ensures CutFrom(Value(), Value(), hash, key) && CutChains(links.chains, links.chains, links.buckets, key)
      ensures content - {key} == content
    {
      CutNothing(Value(), hash, content, key);
      JoinedCut(links.heap, links.heads, links.chains, links.buckets, h0, h1, Value(), hash, key);
    }

    /** Remove the entry of the key, found at a position. */
    method Remove(key: K, table: nat, idx: nat, prev: Node, he: Node, ghost pos: nat)
      requires Ok() && table <= 1 && idx < |Side(Value(), table).buckets|
      requires pos == Scan(Side(Value(), table).buckets[idx], key) < |Side(Value(), table).buckets[idx]|
      requires CellOf(Number(h0, table, idx), pos, prev, he)
      modifies `h0, `h1, `ht0, `ht1, `content, links
      ensures Ok() && content == old(content) - {key} && CutFrom(old(Value()), Value(), hash, key)
          && CutChains(old(links.chains), links.chains, old(links.buckets), key)
      ensures PhaseOf(Value()) == PhaseOf(old(Value()))
    {
      ghost var s, b := Value(), Number(h0, table, idx);
      ghost var s' := WithSide(s, table, CutAt(Side(s, table), idx, pos));
      CutOne(s, hash, content, table, Side(s, table), idx, pos);
      JoinAt(links.buckets, h0, h1, s, table, idx);
      CellsCut(links.heap, links.heads, links.chains, links.buckets, h0, h1, s, s', hash, key, b, pos);
      Unlink(table, idx, prev, he, pos);
    }
  }

  lemma JoinedCut<K, V>(heap: Heap<K, V>, heads: seq<Node>, chains: seq<seq<Node>>, buckets: seq<Chain<K, V>>,
      h0: Header, h1: Header, s: State<K, V>, hash: K -> nat, key: K)
    requires DictLinks.Holds(heap, heads, chains, buckets) && Joins(buckets, h0, h1, s) && CutFrom(s, s, hash, key)
    ensures CutChains(chains, chains, buckets, key)
  {
    Sizes(heap, heads, chains, buckets);
    forall i | 0 <= i < |chains|
      ensures chains[i] == CutNodes(chains[i], buckets[i], key)
    {
      Here(heap, heads, chains, buckets, i);
      CutNothingThere(buckets[i], key);
    }
  }

  /** Cutting one cell out of its chain, when no other bucket has the key. */
  lemma CellsCut<K, V>(heap: Heap<K, V>, heads: seq<Node>, chains: seq<seq<Node>>, buckets: seq<Chain<K, V>>,
      h0: Header, h1: Header, s: State<K, V>, s': State<K, V>, hash: K -> nat, key: K, b: nat, pos: nat)
    requires DictLinks.Holds(heap, heads, chains, buckets) && Joins(buckets, h0, h1, s)
    requires b < |chains| == |buckets| && pos == Scan(buckets[b], key) < |chains[b]| && CutFrom(s, s', hash, key)
    requires s'.ht0.buckets + s'.ht1.buckets == buckets[b := Dict.Cut(buckets[b], key)]
    ensures CutChains(chains, chains[b := Without(chains[b], pos)], buckets, key)
  {
    forall i | 0 <= i < |chains| && i != b
      ensures chains[i] == CutNodes(chains[i], buckets[i], key)
    {
      Sizes(heap, heads, chains, buckets);
      Here(heap, heads, chains, buckets, i);
      var b' := s'.ht0.buckets + s'.ht1.buckets;
      assert b'[i] == buckets[i] && b'[i] == Dict.Cut(buckets[i], key);
      CutNothingThere(buckets[i], key);
    }
  }

  // ----- whole histories

  datatype Op<K, V> = OpAdd(key: K, val: V) | OpReplace(key: K,
      val: V) | OpFind(key: K) | OpDelete(key: K) | OpRehash(n: nat)

  datatype Answer<V> = Done(ok: bool) | Found(r: Option<V>) | Quiet

  /** What each operation does to a plain map, and what it answers. */
  function MapStep<K, V>(m: map<K, V>, op: Op<K, V>): (map<K, V>, Answer<V>)
  {
    match op
    case OpAdd(k, v) => if k in m then (m, Done(false)) else (m[k := v], Done(true))
    case OpReplace(k, v) => (m[k := v], Done(k !in m))
    case OpFind(k) => (m, Found(if k in m then Some(m[k]) else None))
    case OpDelete(k) => (m - {k}, Done(k in m))
    case OpRehash(_) => (m, Quiet)
  }

  ghost function MapAfter<K, V>(m: map<K, V>, ops: seq<Op<K, V>>): map<K, V>
  {
    if ops == [] then m else MapStep(MapAfter(m, ops[..|ops| - 1]), ops[|ops| - 1]).0
  }

  ghost function MapAnswers<K, V>(m: map<K, V>, ops: seq<Op<K, V>>): seq<Answer<V>>
  {
    if ops == [] then []
    else MapAnswers(m, ops[..|ops| - 1]) + [MapStep(MapAfter(m, ops[..|ops| - 1]), ops[|ops| - 1]).1]
  }

  /** One operation on the dictionary. */
  method Perform<K(==), V>(d: Dictionary<K, V>, op: Op<K, V>) returns (a: Answer<V>)
    requires d.Ok() && d.Roomy()
    modifies d, d.links
    ensures d.Ok() && (d.content, a) == MapStep(old(d.content), op) && d.iterators == old(d.iterators)
    ensures d.iterators == 0 && Active(op) ==> Advances(PhaseOf(old(d.Value())), PhaseOf(d.Value()))
  {
    match op {
      case OpAdd(k, v) =>
        var ok := d.Add(k, v);
        a := Done(ok);
      case OpReplace(k, v) =>
        var ok := d.Replace(k, v);
        a := Done(ok);
      case OpFind(k) =>
        var r := d.Find(k);
        a := Found(r);
      case OpDelete(k) =>
        var ok := d.Delete(k);
        a := Done(ok);
      case OpRehash(n) =>
        var _ := d.Rehash(n);
        a := Quiet;
    }
  }

  /** Every operation is a step of a rehash, except a call for no steps. */
  predicate Active<K, V>(op: Op<K, V>) { op.OpRehash? ==> op.n > 0 }

  /**
   * Every history of operations, with rehash steps anywhere, answers as a plain map does; and without an iterator,
   * a rehash ends within one operation more than the old table has buckets.
   */
  method History<K(==), V>(d: Dictionary<K, V>, ops: seq<Op<K, V>>)
    returns (answers: seq<Answer<V>>, ghost phases: seq<Phase>)
    requires d.Ok() && 2 * (|d.content| + |ops|) < ULONG
    modifies d, d.links
    ensures d.Ok() && d.content == MapAfter(old(d.content), ops) && answers == MapAnswers(old(d.content), ops)
    ensures |phases| == |ops| + 1 && phases[0] == PhaseOf(old(d.Value())) && phases[|ops|] == PhaseOf(d.Value())
    ensures d.iterators == 0 && phases[0].index != -1 && |ops| > phases[0].size0
            && (forall op :: op in ops ==> Active(op))
            ==> exists k :: 0 < k <= phases[0].size0 + 1 && Ended(phases[0], phases[k])
  {
    answers, phases := [], [PhaseOf(d.Value())];
    Counters(d.Value(), d.hash, d.content);
    var i := 0;
    while i < |ops|
      invariant 0 <= i <= |ops| && d.Ok() && |d.content| <= old(|d.content|) + i && d.iterators == old(d.iterators)
      invariant d.content == MapAfter(old(d.content), ops[..i]) && answers == MapAnswers(old(d.content), ops[..i])
      invariant Recorded(phases, ops[..i], d.iterators == 0)
      invariant phases[0] == PhaseOf(old(d.Value())) && phases[i] == PhaseOf(d.Value())
    {
      AfterOneMore(old(d.content), ops, i);
      GrowsByOne(d.content, ops[i]);
      var a := Perform(d, ops[i]);
      answers := answers + [a];
      Counters(d.Value(), d.hash, d.content);
      RecordOneMore(phases, ops, i, d.iterators == 0, PhaseOf(d.Value()));
      phases := phases + [PhaseOf(d.Value())];
      i := i + 1;
    }
    assert ops[..i] == ops;
    RecordedEnds(phases, ops, d.iterators == 0);
  }

  /** The phases before and after each operation. */
  ghost predicate Recorded<K, V>(phases: seq<Phase>, ops: seq<Op<K, V>>, free: bool)
  {
    && |phases| == |ops| + 1
    && (forall i :: 0 <= i < |phases| ==> -1 <= phases[i].index <= phases[i].size0)
    && (forall i {:trigger phases[i]} :: 0 < i < |phases| && free && Active(ops[i - 1])
          ==> Advances(phases[i - 1], phases[i]))
  }

  lemma RecordOneMore<K, V>(phases: seq<Phase>, ops: seq<Op<K, V>>, i: nat, free: bool, q: Phase)
    requires i < |ops| && Recorded(phases, ops[..i], free) && -1 <= q.index <= q.size0
    requires free && Active(ops[i]) ==> Advances(phases[i], q)
    ensures Recorded(phases + [q], ops[..i + 1], free)
  {
  }

  lemma RecordedEnds<K, V>(phases: seq<Phase>, ops: seq<Op<K, V>>, free: bool)
    requires Recorded(phases, ops, free)
    ensures free && phases[0].index != -1 && |ops| > phases[0].size0 && (forall op :: op in ops ==> Active(op))
            ==> exists k :: 0 < k <= phases[0].size0 + 1 && Ended(phases[0], phases[k])
  {
    if free && phases[0].index != -1 && |ops| > phases[0].size0 && (forall op :: op in ops ==> Active(op)) {
      var _ := RehashEnds(phases);
    }
  }

  lemma AfterOneMore<K, V>(m: map<K, V>, ops: seq<Op<K, V>>, i: nat)
    requires i < |ops|
    ensures MapAfter(m, ops[..i + 1]) == MapStep(MapAfter(m, ops[..i]), ops[i]).0
    ensures MapAnswers(m, ops[..i + 1]) == MapAnswers(m, ops[..i]) + [MapStep(MapAfter(m, ops[..i]), ops[i]).1]
  {
    assert ops[..i + 1][..i] == ops[..i];
  }

  lemma GrowsByOne<K, V>(m: map<K, V>, op: Op<K, V>)
    ensures |MapStep(m, op).0| <= |m| + 1
  {
    if op.OpAdd? || op.OpReplace? {
      assert m[op.key := op.val].Keys == m.Keys + {op.key};
    } else if op.OpDelete? {
      assert (m - {op.key}).Keys <= m.Keys;
      Subset((m - {op.key}).Keys, m.Keys);
    }
  }

  lemma Subset<T>(a: set<T>, b: set<T>)
    requires a <= b
    ensures |a| <= |b|
  {
    assert b == a + (b - a);
  }
}
