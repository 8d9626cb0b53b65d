/**
 * The incrementally rehashing hash table of Redis (dict.c).
 *
 * A chain is the sequence of its entries from the head on. Keys are distinct, so a key names an
 * entry, and the abstract content of a dictionary is a finite map however far a rehash has got.
 */
module Dict {
  import opened Bits
  import opened Chains

  const INITIAL_SIZE: nat := 4
  const FORCE_RESIZE_RATIO: nat := 5
  const LONG_MAX: nat := 0x7FFF_FFFF_FFFF_FFFF
  const ULONG: nat := 0x1_0000_0000_0000_0000     // unsigned long is modulo this

  datatype Entry<K, V> = Entry(key: K, val: V)

  type Chain<K, V> = seq<Entry<K, V>>

  /** A `dictht`: the size is the number of buckets, a table pointer of NULL is size 0. */
  datatype Table<K, V> = Table(buckets: seq<Chain<K, V>>, used: int)

  /** `h & sizemask` */
  function Slot(h: nat, size: nat): nat
  {
    if size == 0 then 0 else And(h, size - 1)
  }

  /** In a table of a power of two the mask takes the remainder. */
  lemma SlotIsRemainder(h: nat, size: nat)
    requires IsPow2(size)
    ensures Slot(h, size) == h % size
  {
    MaskInRange(h, size);
  }

  /** The position of the first entry with the key, or the length of the chain. */
  function Scan<K(==), V>(c: Chain<K, V>, key: K): (p: nat)
    ensures p <= |c|
    ensures p < |c| ==> c[p].key == key
    ensures forall i :: 0 <= i < p ==> c[i].key != key
  {
    if c == [] || c[0].key == key then 0 else 1 + Scan(c[1..], key)
  }

  /** The chain without the entry of the key. */
  function Cut<K(==), V>(c: Chain<K, V>, key: K): Chain<K, V>
  {
    var p := Scan(c, key);
    if p < |c| then c[..p] + c[p + 1..] else c
  }

  // ----- what every operation keeps

  /** Entries are in the bucket their hash selects, and the used count is exact. */
  ghost predicate Sound<K, V>(t: Table<K, V>, hash: K -> nat)
  {
    match t
    case Table(buckets, used) =>
      && used == |Bag(buckets)|
      && (forall i {:trigger Placed(buckets, i, hash)} :: 0 <= i < |buckets| ==> Placed(buckets, i, hash))
  }

  ghost predicate Placed<K, V>(buckets: seq<Chain<K, V>>, i: nat, hash: K -> nat)
    requires i < |buckets|
  {
    forall e :: e in buckets[i] ==> Slot(hash(e.key), |buckets|) == i
  }

  /** The entries stand for the finite map `m`: no key occurs twice, and all keys occur. */
  ghost predicate Represents<K, V>(all: multiset<Entry<K, V>>, m: map<K, V>)
  {
    && ((forall e :: e in all ==> all[e] == 1 && e.key in m && m[e.key] == e.val) == true)
    && ((forall k :: k in m ==> Entry(k, m[k]) in all) == true)
  }

  /** The two tables of a `dict` and how far a rehash has got, -1 when none is going on. */
  datatype State<K, V> = State(ht0: Table<K, V>, ht1: Table<K, V>, rehashidx: int)

  ghost function All<K, V>(s: State<K, V>): multiset<Entry<K, V>>
  {
    Bag(s.ht0.buckets) + Bag(s.ht1.buckets)
  }

  /** During a rehash both tables exist and the buckets before the rehash index are empty. */
  ghost predicate Phased<K, V>(s: State<K, V>)
  {
    match s
    case State(ht0, ht1, idx) =>
      if idx == -1 then ht1 == Table([], 0)
      else
        && 0 <= idx <= |ht0.buckets| && 0 < |ht0.buckets| && 0 < |ht1.buckets|
        && (forall i :: 0 <= i < idx ==> ht0.buckets[i] == [])
  }

  ghost predicate Coherent<K, V>(s: State<K, V>, hash: K -> nat, m: map<K, V>)
  {
    match s
    case State(ht0, ht1, _) => Sound(ht0, hash) && Sound(ht1, hash) && Phased(s) && Represents(All(s), m)
  }

  ghost predicate Opened(i: int) { true }

  /** The state is coherent and holds the map `m`; proofs that need the details say `Opened(0)`. */
  ghost predicate Valid<K, V>(s: State<K, V>, hash: K -> nat, m: map<K, V>)
  {
    (forall i {:trigger Opened(i)} :: Opened(i) ==> Coherent(s, hash, m)) == true
  }

  // ----- chains and tables

  lemma SlotInRange<K, V>(t: Table<K, V>, hash: K -> nat, h: nat)
    requires Sound(t, hash) && t.buckets != []
    ensures Slot(h, |t.buckets|) < |t.buckets|
  {
    AndAtMost(h, |t.buckets| - 1);
  }

  /** A key of a sound table is in the chain its hash selects. */
  lemma HomeChain<K, V>(t: Table<K, V>, hash: K -> nat, e: Entry<K, V>)
    requires Sound(t, hash) && e in Bag(t.buckets)
    ensures Slot(hash(e.key), |t.buckets|) < |t.buckets| && e in t.buckets[Slot(hash(e.key), |t.buckets|)]
  {
    BagHas(t.buckets, e);
    var i :| 0 <= i < |t.buckets| && e in t.buckets[i];
    assert Placed(t.buckets, i, hash);
  }

  /** What a scan of the home chain says about the table. */
  lemma ScanDecides<K, V>(t: Table<K, V>, hash: K -> nat, key: K)
    requires Sound(t, hash) && t.buckets != []
    ensures var i := Slot(hash(key), |t.buckets|);
            && i < |t.buckets|
            && var p := Scan(t.buckets[i], key);
               if p < |t.buckets[i]| then t.buckets[i][p] in Bag(t.buckets)
               else forall e :: e in Bag(t.buckets) ==> e.key != key
  {
    SlotInRange(t, hash, hash(key));
    var i := Slot(hash(key), |t.buckets|);
    var p := Scan(t.buckets[i], key);
    if p < |t.buckets[i]| {
      BagHas(t.buckets, t.buckets[i][p]);
    } else {
      forall e | e in Bag(t.buckets)
        ensures e.key != key
      {
        HomeChain(t, hash, e);
      }
    }
  }

  /** Replacing a chain by entries of the same bucket keeps every entry placed. */
  lemma PlacedUpdate<K, V>(t: Table<K, V>, hash: K -> nat, i: nat, c: Chain<K, V>)
    requires Sound(t, hash) && i < |t.buckets|
    requires forall e :: e in c ==> e in t.buckets[i] || Slot(hash(e.key), |t.buckets|) == i
    ensures Sound(Table(t.buckets[i := c], |Bag(t.buckets[i := c])|), hash)
  {
    var b := t.buckets[i := c];
    forall k | 0 <= k < |b|
      ensures Placed(b, k, hash)
    {
      assert Placed(t.buckets, k, hash);
    }
  }

  function PushAt<K, V>(t: Table<K, V>, i: nat, e: Entry<K, V>): Table<K, V>
    requires i < |t.buckets|
  {
    Table(t.buckets[i := [e] + t.buckets[i]], t.used + 1)
  }

  lemma PushKeeps<K, V>(t: Table<K, V>, hash: K -> nat, i: nat, e: Entry<K, V>)
    requires Sound(t, hash) && i < |t.buckets| && Slot(hash(e.key), |t.buckets|) == i
    ensures Sound(PushAt(t, i, e), hash) && Bag(PushAt(t, i, e).buckets) == Bag(t.buckets) + multiset{e}
  {
    BagPush(t.buckets, i, e);
    PlacedUpdate(t, hash, i, [e] + t.buckets[i]);
  }

  function CutAt<K, V>(t: Table<K, V>, i: nat, p: nat): Table<K, V>
    requires i < |t.buckets| && p < |t.buckets[i]|
  {
    Table(t.buckets[i := t.buckets[i][..p] + t.buckets[i][p + 1..]], t.used - 1)
  }

  lemma CutKeeps<K, V>(t: Table<K, V>, hash: K -> nat, i: nat, p: nat)
    requires Sound(t, hash) && i < |t.buckets| && p < |t.buckets[i]|
    ensures Sound(CutAt(t, i, p), hash)
    ensures t.buckets[i][p] in Bag(t.buckets)
        && Bag(CutAt(t, i, p).buckets) == Bag(t.buckets) - multiset{t.buckets[i][p]}
  {
    BagCut(t.buckets, i, p);
    PlacedUpdate(t, hash, i, t.buckets[i][..p] + t.buckets[i][p + 1..]);
  }

  function SetAt<K, V>(t: Table<K, V>, i: nat, p: nat, v: V): Table<K, V>
    requires i < |t.buckets| && p < |t.buckets[i]|
  {
    Table(t.buckets[i := t.buckets[i][p := t.buckets[i][p].(val := v)]], t.used)
  }

  lemma SetKeeps<K, V>(t: Table<K, V>, hash: K -> nat, i: nat, p: nat, v: V)
    requires Sound(t, hash) && i < |t.buckets| && p < |t.buckets[i]|
    ensures var e := t.buckets[i][p];
            && Sound(SetAt(t, i, p, v), hash) && e in Bag(t.buckets)
            && Bag(SetAt(t, i, p, v).buckets) == Bag(t.buckets) - multiset{e} + multiset{e.(val := v)}
  {
    var c, e := t.buckets[i], t.buckets[i][p];
    var c' := c[p := e.(val := v)];
    assert Placed(t.buckets, i, hash) && e in c;
    assert forall f :: f in c' ==> f in c || f == e.(val := v);
    PlacedUpdate(t, hash, i, c');
    SetBag(t.buckets, i, p, c', e.(val := v));
  }

  lemma SetBag<K, V>(buckets: seq<Chain<K, V>>, i: nat, p: nat, c: Chain<K, V>, e: Entry<K, V>)
    requires i < |buckets| && p < |buckets[i]| && c == buckets[i][p := e]
    ensures buckets[i][p] in Bag(buckets)
        && Bag(buckets[i := c]) == Bag(buckets) - multiset{buckets[i][p]} + multiset{e}
    ensures |Bag(buckets[i := c])| == |Bag(buckets)|
  {
    BagUpdate(buckets, i, c);
    BagHas(buckets, buckets[i][p]);
    Exchange(Bag(buckets[i := c]), Bag(buckets), multiset(buckets[i]), buckets[i][p], e);
  }

  lemma Exchange<T>(b': multiset<T>, b: multiset<T>, c: multiset<T>, e: T, e': T)
    requires e in c && e in b && b' + c == b + (c - multiset{e} + multiset{e'})
    ensures b' == b - multiset{e} + multiset{e'} && |b'| == |b|
  {
    CancelRight(b', b - multiset{e} + multiset{e'}, c);
  }

  // ----- sets of entries as maps

  lemma AddRepresents<K, V>(all: multiset<Entry<K, V>>, m: map<K, V>, e: Entry<K, V>)
    requires Represents(all, m) && e.key !in m
    ensures Represents(all + multiset{e}, m[e.key := e.val])
  {
    var m' := m[e.key := e.val];
    forall k | k in m'
      ensures Entry(k, m'[k]) in all + multiset{e}
    {
      assert k != e.key ==> Entry(k, m[k]) in all;
    }
  }

  lemma DropRepresents<K, V>(all: multiset<Entry<K, V>>, m: map<K, V>, e: Entry<K, V>)
    requires Represents(all, m) && e in all
    ensures Represents(all - multiset{e}, m - {e.key})
  {
    var m' := m - {e.key};
    forall k | k in m'
      ensures Entry(k, m'[k]) in all - multiset{e}
    {
      assert Entry(k, m[k]) in all;
    }
  }

  lemma SetRepresents<K, V>(all: multiset<Entry<K, V>>, m: map<K, V>, e: Entry<K, V>, v: V)
    requires Represents(all, m) && e in all
    ensures Represents(all - multiset{e} + multiset{e.(val := v)}, m[e.key := v])
  {
    DropRepresents(all, m, e);
    AddRepresents(all - multiset{e}, m - {e.key}, e.(val := v));
    assert (m - {e.key})[e.key := v] == m[e.key := v];
  }

  /** dictSize counts the keys of the map. */
  lemma {:induction false} SizeOfMap<K, V>(all: multiset<Entry<K, V>>, m: map<K, V>)
    requires Represents(all, m)
    ensures |m| == |all|
    decreases |m|
  {
    if m == map[] {
      assert forall e :: e !in all;
      assert all == multiset{};
    } else {
      var k :| k in m;
      var e := Entry(k, m[k]);
      DropRepresents(all, m, e);
      assert m.Keys == (m - {k}).Keys + {k};
      SizeOfMap(all - multiset{e}, m - {k});
    }
  }

  /** A key is in at most one of the two tables. */
  lemma NeverInBoth<K, V>(s: State<K, V>, hash: K -> nat, m: map<K, V>, e: Entry<K, V>, f: Entry<K, V>)
    requires Valid(s, hash, m) && e in Bag(s.ht0.buckets) && f in Bag(s.ht1.buckets)
    ensures e.key != f.key
  {
    assert Opened(0);
    assert e in All(s) && f in All(s);
    assert e == f ==> All(s)[e] >= 2;
  }

  /** A set of entries stands for one map only. */
  lemma OneMap<K, V>(all: multiset<Entry<K, V>>, m: map<K, V>, n: map<K, V>)
    requires Represents(all, m) && Represents(all, n)
    ensures m == n
  {
    forall k
      ensures k in m <==> k in n
      ensures k in m ==> m[k] == n[k]
    {
      if k in m { assert Entry(k, m[k]) in all; }
      if k in n { assert Entry(k, n[k]) in all; }
    }
  }

  // ----- the operations, as changes of state

  /** The table an insertion goes to. */
  function Target<K, V>(s: State<K, V>): Table<K, V>
  {
    if s.rehashidx == -1 then s.ht0 else s.ht1
  }

  function WithTarget<K, V>(s: State<K, V>, t: Table<K, V>): State<K, V>
  {
    if s.rehashidx == -1 then s.(ht0 := t) else s.(ht1 := t)
  }

  lemma ValidPush<K, V>(s: State<K, V>, hash: K -> nat, m: map<K, V>, t: Table<K, V>, i: nat, e: Entry<K, V>)
    requires Valid(s, hash, m) && e.key !in m && t == Target(s)
    requires i < |t.buckets| && Slot(hash(e.key), |t.buckets|) == i
    ensures Valid(WithTarget(s, PushAt(t, i, e)), hash, m[e.key := e.val])
  {
    if s.rehashidx == -1 {
      PushGrown(s, hash, m, t, i, e, PushAt(t, i, e));
    } else {
      PushNew(s, hash, m, t, i, e, PushAt(t, i, e));
    }
  }

  lemma PushGrown<K, V>(s: State<K, V>, hash: K -> nat, m: map<K, V>, t: Table<K, V>, i: nat, e: Entry<K, V>,
      t': Table<K, V>)
    requires Valid(s, hash, m) && e.key !in m && t == s.ht0 && s.rehashidx == -1
    requires i < |t.buckets| && Slot(hash(e.key), |t.buckets|) == i && t' == PushAt(t, i, e)
    ensures Valid(State(t', s.ht1, s.rehashidx), hash, m[e.key := e.val])
  {
    Contents(s, hash, m);
    PushKeeps(t, hash, i, e);
    AddRepresents(All(s), m, e);
    assert Bag(t'.buckets) + Bag(s.ht1.buckets) == All(s) + multiset{e};
    ValidGrown(s, hash, m, t', m[e.key := e.val]);
  }

  lemma PushNew<K, V>(s: State<K, V>, hash: K -> nat, m: map<K, V>, t: Table<K, V>, i: nat, e: Entry<K, V>,
      t': Table<K, V>)
    requires Valid(s, hash, m) && e.key !in m && t == s.ht1 && s.rehashidx != -1
    requires i < |t.buckets| && Slot(hash(e.key), |t.buckets|) == i && t' == PushAt(t, i, e)
    ensures Valid(State(s.ht0, t', s.rehashidx), hash, m[e.key := e.val])
  {
    Contents(s, hash, m);
    PushKeeps(t, hash, i, e);
    AddRepresents(All(s), m, e);
    assert Bag(t'.buckets) + Bag(s.ht0.buckets) == All(s) + multiset{e};
    ValidNew(s, hash, m, t', All(s) + multiset{e}, m[e.key := e.val]);
  }

  lemma ValidGrown<K, V>(s: State<K, V>, hash: K -> nat, m: map<K, V>, t: Table<K, V>, m': map<K, V>)
    requires Valid(s, hash, m) && s.rehashidx == -1 && Sound(t, hash)
        && Represents(Bag(t.buckets) + Bag(s.ht1.buckets), m')
    ensures Valid(State(t, s.ht1, s.rehashidx), hash, m')
  {
    assert Opened(0);
  }

  /** Table 0 or table 1. */
  function Side<K, V>(s: State<K, V>, table: nat): Table<K, V>
  {
    if table == 0 then s.ht0 else s.ht1
  }

  function WithSide<K, V>(s: State<K, V>, table: nat, t: Table<K, V>): State<K, V>
  {
    if table == 0 then s.(ht0 := t) else s.(ht1 := t)
  }

  /** The same number of buckets, empty where they were empty. */
  ghost predicate SameGaps<K, V>(b: seq<Chain<K, V>>, b': seq<Chain<K, V>>)
  {
    |b'| == |b| && (forall k :: 0 <= k < |b| && b[k] == [] ==> b'[k] == []) == true
  }

  lemma ValidOld<K, V>(s: State<K, V>, hash: K -> nat, m: map<K, V>, t: Table<K, V>, all: multiset<Entry<K, V>>,
      m': map<K, V>)
    requires Valid(s, hash, m) && Sound(t, hash) && SameGaps(s.ht0.buckets, t.buckets)
    requires all == Bag(t.buckets) + Bag(s.ht1.buckets) && Represents(all, m')
    ensures Valid(State(t, s.ht1, s.rehashidx), hash, m')
  {
    assert Opened(0);
  }

  lemma ValidNew<K, V>(s: State<K, V>, hash: K -> nat, m: map<K, V>, t: Table<K, V>, all: multiset<Entry<K, V>>,
      m': map<K, V>)
    requires Valid(s, hash, m) && Sound(t, hash) && |t.buckets| == |s.ht1.buckets| && |t.buckets| > 0
    requires all == Bag(t.buckets) + Bag(s.ht0.buckets) && Represents(all, m')
    ensures Valid(State(s.ht0, t, s.rehashidx), hash, m')
  {
    assert Opened(0);
    assert all == Bag(s.ht0.buckets) + Bag(t.buckets);
  }

  /** Replacing one table by another with the same buckets empty and the entries of `m'`. */
  lemma ValidSide<K, V>(s: State<K, V>, hash: K -> nat, m: map<K, V>, table: nat, t: Table<K, V>,
      all: multiset<Entry<K, V>>, m': map<K, V>)
    requires Valid(s, hash, m) && Sound(t, hash) && table <= 1
    requires SameGaps(Side(s, table).buckets, t.buckets) && |t.buckets| > 0
    requires all == Bag(t.buckets) + Bag(Side(s, 1 - table).buckets) && Represents(all, m')
    ensures Valid(WithSide(s, table, t), hash, m')
  {
    if table == 0 {
      ValidOld(s, hash, m, t, all, m');
    } else {
      ValidNew(s, hash, m, t, all, m');
    }
  }

  /** What a valid state says about its tables. */
  lemma Contents<K, V>(s: State<K, V>, hash: K -> nat, m: map<K, V>)
    requires Valid(s, hash, m)
    ensures Sound(s.ht0, hash) && Sound(s.ht1, hash) && Represents(All(s), m)
  {
    assert Opened(0);
  }

  lemma CutSum<T>(a: multiset<T>, b: multiset<T>, e: T)
    requires e in a
    ensures e in a + b && (a - multiset{e}) + b == (a + b) - multiset{e}
  {
  }

  lemma AllSides<K, V>(s: State<K, V>, table: nat)
    requires table <= 1
    ensures All(s) == Bag(Side(s, table).buckets) + Bag(Side(s, 1 - table).buckets)
  {
  }

  lemma CutAll<K, V>(t: Table<K, V>, rest: multiset<Entry<K, V>>, hash: K -> nat, m: map<K, V>, i: nat, p: nat)
    requires Sound(t, hash) && Represents(Bag(t.buckets) + rest, m) && i < |t.buckets| && p < |t.buckets[i]|
    ensures t.buckets[i][p].key in m && m[t.buckets[i][p].key] == t.buckets[i][p].val
    ensures Sound(CutAt(t, i, p), hash) && Represents(Bag(CutAt(t, i, p).buckets) + rest, m - {t.buckets[i][p].key})
    ensures SameGaps(t.buckets, CutAt(t, i, p).buckets)
  {
    var e := t.buckets[i][p];
    CutKeeps(t, hash, i, p);
    CutSum(Bag(t.buckets), rest, e);
    DropRepresents(Bag(t.buckets) + rest, m, e);
  }

  lemma SetAll<K, V>(t: Table<K, V>, rest: multiset<Entry<K, V>>, hash: K -> nat, m: map<K, V>, i: nat, p: nat, v: V)
    requires Sound(t, hash) && Represents(Bag(t.buckets) + rest, m) && i < |t.buckets| && p < |t.buckets[i]|
    ensures Sound(SetAt(t, i, p, v), hash)
        && Represents(Bag(SetAt(t, i, p, v).buckets) + rest, m[t.buckets[i][p].key := v])
    ensures SameGaps(t.buckets, SetAt(t, i, p, v).buckets)
  {
    var e := t.buckets[i][p];
    SetKeeps(t, hash, i, p, v);
    CutSum(Bag(t.buckets), rest, e);
    SetRepresents(Bag(t.buckets) + rest, m, e, v);
    assert Bag(SetAt(t, i, p, v).buckets) + rest == (Bag(t.buckets) + rest) - multiset{e} + multiset{e.(val := v)};
  }

  lemma ValidCut<K, V>(s: State<K, V>, hash: K -> nat, m: map<K, V>, table: nat, t: Table<K, V>, i: nat, p: nat)
    requires Valid(s, hash, m) && table <= 1 && t == Side(s, table) && i < |t.buckets| && p < |t.buckets[i]|
    ensures t.buckets[i][p].key in m && m[t.buckets[i][p].key] == t.buckets[i][p].val
    ensures Valid(WithSide(s, table, CutAt(t, i, p)), hash, m - {t.buckets[i][p].key})
  {
    Contents(s, hash, m);
    var rest := Bag(Side(s, 1 - table).buckets);
    AllSides(s, table);
    CutAll(t, rest, hash, m, i, p);
    var t' := CutAt(t, i, p);
    ValidSide(s, hash, m, table, t', Bag(t'.buckets) + rest, m - {t.buckets[i][p].key});
  }

  lemma ValidSet<K, V>(s: State<K, V>, hash: K -> nat, m: map<K, V>, table: nat, t: Table<K, V>, i: nat, p: nat, v: V)
    requires Valid(s, hash, m) && table <= 1 && t == Side(s, table) && i < |t.buckets| && p < |t.buckets[i]|
    ensures Valid(WithSide(s, table, SetAt(t, i, p, v)), hash, m[t.buckets[i][p].key := v])
  {
    Contents(s, hash, m);
    var rest := Bag(Side(s, 1 - table).buckets);
    AllSides(s, table);
    SetAll(t, rest, hash, m, i, p, v);
    var t' := SetAt(t, i, p, v);
    ValidSide(s, hash, m, table, t', Bag(t'.buckets) + rest, m[t.buckets[i][p].key := v]);
  }

  /** dictExpand: a fresh table becomes the first or the second table. */
  lemma ValidExpand<K, V>(s: State<K, V>, hash: K -> nat, m: map<K, V>, t: Table<K, V>)
    requires Valid(s, hash, m) && s.rehashidx == -1 && Sound(t, hash) && Bag(t.buckets) == multiset{} && t.buckets != []
    ensures s.ht0.buckets == [] ==> Valid(s.(ht0 := t), hash, m)
    ensures s.ht0.buckets != [] ==> Valid(s.(ht1 := t, rehashidx := 0), hash, m)
  {
    assert Opened(0);
    assert s.ht0.buckets == [] ==> All(s.(ht0 := t)) == All(s);
    assert All(s.(ht1 := t, rehashidx := 0)) == All(s);
  }

  lemma {:induction false} FreshTable<K, V>(n: nat, hash: K -> nat) returns (t: Table<K, V>)
    requires n > 0
    ensures t == Table(seq(n, _ => []), 0) && Sound(t, hash) && Bag(t.buckets) == multiset{}
  {
    t := Table(seq(n, _ => []), 0);
    BagEmpty(t.buckets);
    assert forall i {:trigger Placed(t.buckets, i, hash)} :: 0 <= i < n ==> Placed(t.buckets, i, hash);
  }

  // ----- how far a rehash has got

  /** The sizes of the two tables and the rehash index. */
  datatype Phase = Phase(size0: nat, size1: nat, index: int)

  function PhaseOf<K, V>(s: State<K, V>): Phase
  {
    Phase(|s.ht0.buckets|, |s.ht1.buckets|, s.rehashidx)
  }

  /** The rehash goes on, further than before. */
  predicate MovedOn(p: Phase, q: Phase)
  {
    q.size0 == p.size0 && q.size1 == p.size1 && q.index > p.index
  }

  /** The new table is larger, unless the old one could not be. */
  predicate Grown(q: Phase)
  {
    q.size1 > q.size0 || q.size0 >= LONG_MAX
  }

  /** The second table has become the first; the table may have started to grow again. */
  predicate Ended(p: Phase, q: Phase)
  {
    q.size0 == p.size1 && (q.index == -1 || Grown(q))
  }

  predicate Advances(p: Phase, q: Phase)
  {
    p.index != -1 ==> MovedOn(p, q) || Ended(p, q)
  }

  /** As one step does, perhaps followed by the start of a new rehash of `left` entries. */
  predicate AdvancesOnce(p: Phase, q: Phase, left: int)
  {
    Advances(p, q) && (q.index == 0 ==> left > 0) && (p.index != -1 && q.index > 0 ==> MovedOn(p, q))
  }

  /** What one step does when `left` entries are to be moved. */
  predicate OneStep(p: Phase, left: int, q: Phase)
  {
    if left == 0 then q.index == -1 && q.size0 == p.size1 else MovedOn(p, q)
  }

  /** One more step. */
  lemma AdvancesTwice(p: Phase, q: Phase, left: int, r: Phase)
    requires AdvancesOnce(p, q, left) && q.index >= -1 && if q.index == -1 then r == q else OneStep(q, left, r)
    ensures Advances(p, r)
  {
  }

  /** Steps that all advance bring a rehash to its end within one step more than the old table has buckets. */
  lemma RehashEnds(ps: seq<Phase>) returns (k: nat)
    requires |ps| >= 1 && ps[0].index >= 0 && |ps| >= ps[0].size0 + 2
    requires forall i :: 0 <= i < |ps| ==> ps[i].index <= ps[i].size0
    requires forall i {:trigger ps[i]} :: 0 < i < |ps| ==> Advances(ps[i - 1], ps[i])
    ensures 0 < k <= ps[0].size0 + 1 && Ended(ps[0], ps[k])
  {
    k := 0;
    while k == 0 || !Ended(ps[0], ps[k])
      invariant 0 <= k <= ps[0].size0 + 1
      invariant (k > 0 && Ended(ps[0], ps[k])) || (ps[k] == ps[0].(index := ps[k].index) && ps[k].index >= k)
      decreases |ps| - k
    {
      k := k + 1;
      assert Advances(ps[k - 1], ps[k]);
    }
  }

  /** The state after the old table has been emptied. */
  lemma ValidFinish<K, V>(s: State<K, V>, hash: K -> nat, m: map<K, V>)
    requires Valid(s, hash, m) && s.rehashidx != -1 && s.ht0.used == 0
    ensures Valid(State(s.ht1, Table([], 0), -1), hash, m)
  {
    assert Opened(0);
    assert Bag(s.ht0.buckets) == multiset{};
    assert All(State(s.ht1, Table([], 0), -1)) == All(s);
  }

  /** While entries are left in the old table, some bucket from the rehash index on is not empty. */
  lemma NextBucket<K, V>(s: State<K, V>, hash: K -> nat, m: map<K, V>) returns (i: nat)
    requires Valid(s, hash, m) && s.rehashidx != -1 && s.ht0.used != 0
    ensures 0 <= s.rehashidx <= i < |s.ht0.buckets| && s.ht0.buckets[i] != []
    ensures forall k :: 0 <= k < s.rehashidx ==> s.ht0.buckets[k] == []
    ensures Sound(s.ht1, hash) && s.ht1.buckets != []
  {
    assert Opened(0);
    i := BagSomewhere(s.ht0.buckets, s.rehashidx);
  }

  /** The sizes and counters of a valid state. */
  lemma Counters<K, V>(s: State<K, V>, hash: K -> nat, m: map<K, V>)
    requires Valid(s, hash, m)
    ensures s.ht0.used >= 0 && s.ht1.used >= 0 && s.ht0.used + s.ht1.used == |m|
    ensures s.rehashidx == -1 ==> s.ht1 == Table([], 0)
    ensures s.rehashidx != -1 ==> 0 <= s.rehashidx <= |s.ht0.buckets| && s.ht0.buckets != [] && s.ht1.buckets != []
    ensures s.ht0.buckets == [] ==> s.ht0.used == 0 && m == map[]
  {
    assert Opened(0);
    SizeOfMap(All(s), m);
    if s.ht0.buckets == [] {
      assert Bag(s.ht0.buckets) == multiset{};
    }
  }

  lemma Emptied<K, V>(t: Table<K, V>, hash: K -> nat, i: nat)
    requires Sound(t, hash) && i < |t.buckets|
    ensures Sound(Table(t.buckets[i := []], t.used - |t.buckets[i]|), hash)
    ensures Bag(t.buckets[i := []]) + multiset(t.buckets[i]) == Bag(t.buckets)
  {
    BagUpdate(t.buckets, i, []);
    PlacedUpdate(t, hash, i, []);
    assert Bag(t.buckets[i := []]) + multiset(t.buckets[i]) == Bag(t.buckets);
    assert |Bag(t.buckets[i := []])| == t.used - |t.buckets[i]|;
  }

  lemma MoveSum<T>(a: multiset<T>, c: multiset<T>, b: multiset<T>)
    ensures a + (b + c) == (a + c) + b
  {
  }

  lemma MakeValid<K, V>(s: State<K, V>, hash: K -> nat, m: map<K, V>, all: multiset<Entry<K, V>>)
    requires Sound(s.ht0, hash) && Sound(s.ht1, hash) && Phased(s) && all == All(s) && Represents(all, m)
    ensures Valid(s, hash, m)
  {
  }

  /** The state after bucket `i` has moved to table `t`. */
  lemma ValidMove<K, V>(s: State<K, V>, hash: K -> nat, m: map<K, V>, i: nat, t: Table<K, V>)
    requires Valid(s, hash, m) && s.rehashidx != -1 && s.rehashidx <= i < |s.ht0.buckets|
    requires forall k :: 0 <= k < i ==> s.ht0.buckets[k] == []
    requires Sound(t, hash) && |t.buckets| == |s.ht1.buckets|
        && Bag(t.buckets) == Bag(s.ht1.buckets) + multiset(s.ht0.buckets[i])
    ensures Valid(State(Table(s.ht0.buckets[i := []], s.ht0.used - |s.ht0.buckets[i]|), t, i + 1), hash, m)
  {
    Contents(s, hash, m);
    Counters(s, hash, m);
    var t0 := Table(s.ht0.buckets[i := []], s.ht0.used - |s.ht0.buckets[i]|);
    Emptied(s.ht0, hash, i);
    MoveSum(Bag(t0.buckets), multiset(s.ht0.buckets[i]), Bag(s.ht1.buckets));
    MakeValid(State(t0, t, i + 1), hash, m, All(s));
  }

  /** The least power of two from 4 on that is at least `size`, or LONG_MAX for a size from there on. */
  ghost predicate LeastPower(size: nat, i: nat)
  {
    if size >= LONG_MAX then i == LONG_MAX
    else IsPow2(i) && i >= size && i >= INITIAL_SIZE && (i > INITIAL_SIZE ==> i < 2 * size && size > INITIAL_SIZE)
  }

  /** _dictNextPower */
  method NextPower(size: nat) returns (i: nat)
    ensures LeastPower(size, i)
  {
    if size >= LONG_MAX {
      return LONG_MAX;
    }
    i := INITIAL_SIZE;
    assert INITIAL_SIZE == Pow2(2);
    while i < size
      invariant IsPow2(i) && i >= INITIAL_SIZE && (i > INITIAL_SIZE ==> i < 2 * size && size > INITIAL_SIZE)
      decreases 2 * size - i
    {
      DoublePow2(i);
      i := i * 2;
    }
  }

  /** What the scans of the home chains say: found in table `table`, or absent. */
  lemma ScanFinds<K, V>(s: State<K, V>, hash: K -> nat, m: map<K, V>, key: K, table: nat)
    requires Valid(s, hash, m) && table <= 1 && Side(s, table).buckets != []
    ensures var t := Side(s, table);
            var i := Slot(hash(key), |t.buckets|);
            i < |t.buckets| && (Scan(t.buckets[i], key) < |t.buckets[i]| ==>
              key in m && t.buckets[i][Scan(t.buckets[i], key)] == Entry(key, m[key]))
  {
    assert Opened(0);
    var t := Side(s, table);
    ScanDecides(t, hash, key);
    AllSides(s, table);
    var i := Slot(hash(key), |t.buckets|);
    assert Scan(t.buckets[i], key) < |t.buckets[i]| ==> t.buckets[i][Scan(t.buckets[i], key)] in All(s);
  }

  ghost predicate Missing<K, V>(t: Table<K, V>, hash: K -> nat, key: K)
  {
    var i := Slot(hash(key), |t.buckets|);
    i < |t.buckets| ==> Scan(t.buckets[i], key) == |t.buckets[i]|
  }

  lemma ScanMisses<K, V>(s: State<K, V>, hash: K -> nat, m: map<K, V>, key: K)
    requires Valid(s, hash, m) && s.ht0.buckets != []
    requires Missing(s.ht0, hash, key) && (s.rehashidx == -1 || Missing(s.ht1, hash, key))
    ensures key !in m
  {
    assert Opened(0);
    ScanDecides(s.ht0, hash, key);
    if s.rehashidx != -1 {
      ScanDecides(s.ht1, hash, key);
    }
    assert forall e :: e in All(s) ==> e.key != key;
  }

  /** The same tables, save that the entry of `key` is cut from its chain. */
  ghost predicate CutFrom<K, V>(s: State<K, V>, s': State<K, V>, hash: K -> nat, key: K)
  {
    && s'.rehashidx == s.rehashidx
    && CutTable(s.ht0.buckets, s'.ht0.buckets, key) && CutTable(s.ht1.buckets, s'.ht1.buckets, key)
  }

  ghost predicate CutTable<K, V>(b: seq<Chain<K, V>>, b': seq<Chain<K, V>>, key: K)
  {
    |b'| == |b| && forall i :: 0 <= i < |b| ==> b'[i] == Cut(b[i], key)
  }

  lemma CutAbsent<K, V>(t: Table<K, V>, key: K)
    requires forall e :: e in Bag(t.buckets) ==> e.key != key
    ensures CutTable(t.buckets, t.buckets, key)
  {
    forall i | 0 <= i < |t.buckets|
      ensures Cut(t.buckets[i], key) == t.buckets[i]
    {
      var p := Scan(t.buckets[i], key);
      if p < |t.buckets[i]| {
        BagHas(t.buckets, t.buckets[i][p]);
      }
    }
  }

  lemma CutNothing<K, V>(s: State<K, V>, hash: K -> nat, m: map<K, V>, key: K)
    requires Valid(s, hash, m) && key !in m
    ensures CutFrom(s, s, hash, key)
  {
    assert Opened(0);
    forall e | e in Bag(s.ht0.buckets) || e in Bag(s.ht1.buckets)
      ensures e.key != key
    {
      assert e in All(s);
    }
    CutAbsent(s.ht0, key);
    CutAbsent(s.ht1, key);
  }

  lemma CutOther<K, V>(s: State<K, V>, hash: K -> nat, m: map<K, V>, table: nat, e: Entry<K, V>)
    requires Valid(s, hash, m) && table <= 1 && e in Bag(Side(s, table).buckets)
    ensures CutTable(Side(s, 1 - table).buckets, Side(s, 1 - table).buckets, e.key)
  {
    var other := Side(s, 1 - table);
    forall f | f in Bag(other.buckets)
      ensures f.key != e.key
    {
      if table == 0 {
        NeverInBoth(s, hash, m, e, f);
      } else {
        NeverInBoth(s, hash, m, f, e);
      }
    }
    CutAbsent(other, e.key);
  }

  lemma CutSame<K, V>(t: Table<K, V>, hash: K -> nat, i: nat, p: nat)
    requires Sound(t, hash) && i < |t.buckets| && p < |t.buckets[i]| && p == Scan(t.buckets[i], t.buckets[i][p].key)
    ensures CutTable(t.buckets, CutAt(t, i, p).buckets, t.buckets[i][p].key)
  {
    var e, b' := t.buckets[i][p], CutAt(t, i, p).buckets;
    assert Placed(t.buckets, i, hash) && e in t.buckets[i];
    forall k | 0 <= k < |t.buckets|
      ensures b'[k] == Cut(t.buckets[k], e.key)
    {
      if k != i {
        assert Placed(t.buckets, k, hash);
        assert forall f :: f in t.buckets[k] ==> f.key != e.key;
        assert Scan(t.buckets[k], e.key) == |t.buckets[k]|;
      }
    }
  }

  lemma CutOne<K, V>(s: State<K, V>, hash: K -> nat, m: map<K, V>, table: nat, t: Table<K, V>, i: nat, p: nat)
    requires Valid(s, hash, m) && table <= 1 && t == Side(s, table) && i < |t.buckets| && p < |t.buckets[i]|
    requires p == Scan(t.buckets[i], t.buckets[i][p].key)
    ensures CutFrom(s, WithSide(s, table, CutAt(t, i, p)), hash, t.buckets[i][p].key)
  {
    assert Opened(0);
    BagHas(t.buckets, t.buckets[i][p]);
    CutOther(s, hash, m, table, t.buckets[i][p]);
    CutSame(t, hash, i, p);
  }
}
