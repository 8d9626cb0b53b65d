/**
 * The iterator of dict.c. It walks both tables bucket by bucket while rehash steps are paused, and
 * remembers the next entry before it hands one out, so that the caller may delete what it got.
 */
module DictIterator {
  import opened Chains
  import opened Options
  import opened Dict
  import opened DictLinks
  import opened Dictionaries

  /** The part of a chain from the entry of `next` on. */
  function From<K(==), V>(c: Chain<K, V>, next: Option<K>): Chain<K, V>
  {
    match next
    case None => []
    case Some(k) => c[Scan(c, k)..]
  }

  /** The entry after position `p`, as a pointer. */
  function After<K, V>(c: Chain<K, V>, p: nat): Option<K>
  {
    if p + 1 < |c| then Some(c[p + 1].key) else None
  }

  /** Where an iterator is. An entry is named by its key; `index` -1 in table 0 is the start. */
  datatype Cursor<K> = Cursor(table: nat, index: int, entry: Option<K>, next: Option<K>)

  /** The buckets of the current table after the current one. */
  ghost function Ahead<K, V>(s: State<K, V>, c: Cursor<K>): seq<Chain<K, V>>
  {
    var b := Side(s, c.table).buckets;
    if 0 <= c.index + 1 <= |b| then b[c.index + 1..] else []
  }

  /** The rest of the current chain. */
  ghost function Here<K, V>(s: State<K, V>, c: Cursor<K>): Chain<K, V>
  {
    var b := Side(s, c.table).buckets;
    if c.entry.Some? && 0 <= c.index < |b| then From(b[c.index], c.next) else []
  }

  ghost function Later<K, V>(s: State<K, V>, c: Cursor<K>): multiset<Entry<K, V>>
  {
    if c.table == 0 && s.rehashidx != -1 then Bag(s.ht1.buckets) else multiset{}
  }

  /** The entries the iterator has still to return. */
  ghost function Remaining<K, V>(s: State<K, V>, c: Cursor<K>): multiset<Entry<K, V>>
  {
    multiset(Here(s, c)) + Bag(Ahead(s, c)) + Later(s, c)
  }

  /** The cursor is inside the tables. */
  ghost predicate Inside<K, V>(s: State<K, V>, c: Cursor<K>)
  {
    match c
    case Cursor(table, index, entry, next) =>
      var b := Side(s, table).buckets;
      && table <= 1 && -1 <= index && (table == 1 ==> s.rehashidx != -1)
      && (entry.Some? ==> index < |b| && 0 <= index && (next.Some? ==> Scan(b[index], next.value) < |b[index]|))
  }

  ghost predicate Looked(i: int) { true }

  /** A cursor from which exactly `rest` remains to be returned. */
  ghost predicate Left<K, V>(s: State<K, V>, c: Cursor<K>, rest: multiset<Entry<K, V>>)
  {
    (forall i {:trigger Looked(i)} :: Looked(i) ==> Inside(s, c) && rest == Remaining(s, c)) == true
  }

  ghost predicate Poised<K, V>(s: State<K, V>, hash: K -> nat, m: map<K, V>, c: Cursor<K>, rest: multiset<Entry<K, V>>)
  {
    Valid(s, hash, m) && Left(s, c, rest)
  }

  // ----- the steps of dictNext

  /** Before the first step everything remains. */
  lemma StartRemaining<K, V>(s: State<K, V>, hash: K -> nat, m: map<K, V>)
    requires Valid(s, hash, m)
    ensures Remaining(s, Cursor(0, -1, None, None)) == All(s)
  {
    Counters(s, hash, m);
    assert Ahead(s, Cursor(0, -1, None, None)) == s.ht0.buckets;
  }

  function Head<K, V>(c: Chain<K, V>): Option<K>
  {
    if c == [] then None else Some(c[0].key)
  }

  /** A later bucket, inside its table. */
  ghost predicate Beyond<K, V>(s: State<K, V>, was: Cursor<K>, now: Cursor<K>)
  {
    now.index < |Side(s, now.table).buckets|
        && (was.table < now.table <= 1 || (was.table == now.table && was.index < now.index))
  }

  lemma EnterPieces<K, V>(s: State<K, V>, c: Cursor<K>, b: Chain<K, V>, c': Cursor<K>)
    requires Inside(s, c) && c.entry == None && c.index + 1 < |Side(s, c.table).buckets|
    requires b == Side(s, c.table).buckets[c.index + 1] && c' == Cursor(c.table, c.index + 1, Head(b), Head(b))
    ensures Inside(s, c') && Here(s, c) == [] && Here(s, c') == b && Later(s, c') == Later(s, c)
    ensures Bag(Ahead(s, c)) == multiset(b) + Bag(Ahead(s, c'))
  {
    BagTail(Side(s, c.table).buckets, c.index + 1);
    assert b != [] ==> Scan(b, b[0].key) == 0 && b[0..] == b;
    assert Ahead(s, c') == Side(s, c.table).buckets[c.index + 2..];
  }

  /** Entering the next bucket of the table. */
  lemma EnterBucket<K, V>(s: State<K, V>, c: Cursor<K>, rest: multiset<Entry<K, V>>, b: Chain<K, V>, c': Cursor<K>)
    requires Left(s, c, rest) && c.entry == None && 0 <= c.index + 1 < |Side(s, c.table).buckets|
    requires b == Side(s, c.table).buckets[c.index + 1] && c' == Cursor(c.table, c.index + 1, Head(b), Head(b))
    ensures Left(s, c', rest) && c.table <= 1
  {
    assert Looked(0);
    EnterPieces(s, c, b, c');
  }

  /** Past the last bucket of table 0 the iterator goes on with table 1. */
  lemma SwitchTable<K, V>(s: State<K, V>, c: Cursor<K>, rest: multiset<Entry<K, V>>)
    requires Left(s, c, rest) && c.entry == None && c.index + 1 >= |Side(s, c.table).buckets|
    requires c.table == 0 && s.rehashidx != -1
    ensures Left(s, Cursor(1, -1, None, None), rest)
  {
    assert Looked(0);
    assert Ahead(s, c) == [];
    assert Ahead(s, Cursor(1, -1, None, None)) == s.ht1.buckets;
  }

  /** Past the last bucket of the last table nothing remains. */
  lemma NothingLeft<K, V>(s: State<K, V>, c: Cursor<K>, rest: multiset<Entry<K, V>>)
    requires Left(s, c, rest) && c.entry == None && c.index + 1 >= |Side(s, c.table).buckets|
    requires !(c.table == 0 && s.rehashidx != -1)
    ensures rest == multiset{} && Left(s, c.(index := c.index + 1), rest)
  {
    assert Looked(0);
    assert Ahead(s, c) == [] && Ahead(s, c.(index := c.index + 1)) == [];
  }

  /** The next bucket to look into, if any: of the same table, or the first of table 1 during a rehash. */
  function Advance<K, V>(s: State<K, V>, c: Cursor<K>): (r: (bool, nat, int))
  {
    if c.index + 1 < |Side(s, c.table).buckets| then (true, c.table, c.index + 1)
    else if c.table == 0 && s.rehashidx != -1 then (true, 1, 0)
    else (false, c.table, c.index + 1)
  }

  /** The cursor after looking into the next bucket. */
  function Entered<K, V>(s: State<K, V>, c: Cursor<K>): Cursor<K>
  {
    var r := Advance(s, c);
    if r.0 && 0 <= r.2 < |Side(s, r.1).buckets| then
      var h := Head(Side(s, r.1).buckets[r.2]);
      Cursor(r.1, r.2, h, h)
    else c.(index := r.2)
  }

  lemma PoisedFacts<K, V>(s: State<K, V>, hash: K -> nat, m: map<K, V>, c: Cursor<K>, rest: multiset<Entry<K, V>>)
    requires Poised(s, hash, m, c, rest)
    ensures -1 <= c.index && c.table <= 1 && (c.entry.Some? ==> 0 <= c.index < |Side(s, c.table).buckets|)
    ensures s.rehashidx != -1 ==> s.ht1.buckets != []
  {
    assert Looked(0);
    Counters(s, hash, m);
  }

  lemma EnteredIs<K, V>(s: State<K, V>, c: Cursor<K>, c': Cursor<K>)
    requires -1 <= c.index && c.table <= 1 && (s.rehashidx != -1 ==> s.ht1.buckets != []) && c' == Entered(s, c)
    ensures if c.index + 1 < |Side(s, c.table).buckets| then
              var b := Side(s, c.table).buckets[c.index + 1];
              Advance(s, c).0 && c' == Cursor(c.table, c.index + 1, Head(b), Head(b))
            else if c.table == 0 && s.rehashidx != -1 then
              Advance(s, c).0 && c' == Cursor(1, 0, Head(s.ht1.buckets[0]), Head(s.ht1.buckets[0]))
            else !Advance(s, c).0 && c' == c.(index := c.index + 1)
    ensures Advance(s, c).0 ==> c'.next == c'.entry && Beyond(s, c, c')
  {
  }

  /** Looking into the next bucket loses nothing. */
  lemma AdvanceKeeps<K, V>(s: State<K, V>, c: Cursor<K>, rest: multiset<Entry<K, V>>, c': Cursor<K>)
    requires Left(s, c, rest) && c.entry == None && -1 <= c.index && c.table <= 1
    requires s.rehashidx != -1 ==> s.ht1.buckets != []
    requires c' == Entered(s, c)
    ensures Left(s, c', rest) && (!Advance(s, c).0 ==> rest == multiset{})
  {
    EnteredIs(s, c, c');
    if c.index + 1 < |Side(s, c.table).buckets| {
      EnterBucket(s, c, rest, Side(s, c.table).buckets[c.index + 1], c');
    } else if c.table == 0 && s.rehashidx != -1 {
      SwitchTable(s, c, rest);
      EnterBucket(s, Cursor(1, -1, None, None), rest, s.ht1.buckets[0], c');
    } else {
      NothingLeft(s, c, rest);
    }
  }

  /** The saved successor becomes the entry. */
  lemma FollowNext<K, V>(s: State<K, V>, c: Cursor<K>, rest: multiset<Entry<K, V>>)
    requires Left(s, c, rest) && c.entry.Some?
    ensures Left(s, c.(entry := c.next), rest)
  {
    assert Looked(0);
    assert Here(s, c.(entry := c.next)) == Here(s, c);
    assert Ahead(s, c.(entry := c.next)) == Ahead(s, c);
  }

  /** Keys are distinct within a chain. */
  lemma DistinctKeys<K, V>(s: State<K, V>, hash: K -> nat, m: map<K, V>, table: nat, i: nat)
    requires Valid(s, hash, m) && table <= 1 && i < |Side(s, table).buckets|
    ensures forall p, q :: 0 <= p < q < |Side(s, table).buckets[i]| ==>
              Side(s, table).buckets[i][p].key != Side(s, table).buckets[i][q].key
  {
    Contents(s, hash, m);
    AllSides(s, table);
    var c := Side(s, table).buckets[i];
    BagIncludes(Side(s, table).buckets, i);
    forall p, q | 0 <= p < q < |c|
      ensures c[p].key != c[q].key
    {
      Twice(c, p, q);
      assert c[p] in All(s) && c[q] in All(s);
    }
  }

  lemma Twice<T>(c: seq<T>, p: nat, q: nat)
    requires p < q < |c|
    ensures c[p] == c[q] ==> multiset(c)[c[p]] >= 2
  {
    assert c == c[..q] + [c[q]] + c[q + 1..];
    assert c[p] in c[..q];
    assert multiset(c) == multiset(c[..q]) + multiset{c[q]} + multiset(c[q + 1..]);
  }

  /** Handing out an entry and saving its successor takes exactly that entry from what remains. */
  lemma TakeEntry<K, V>(s: State<K, V>, hash: K -> nat, m: map<K, V>, c: Cursor<K>, rest: multiset<Entry<K, V>>,
      b: Chain<K, V>, p: nat)
    requires Poised(s, hash, m, c, rest) && c.entry.Some? && c.next == c.entry
        && 0 <= c.index < |Side(s, c.table).buckets|
    requires b == Side(s, c.table).buckets[c.index] && p == Scan(b, c.entry.value)
    ensures p < |b| && b[p] in rest && Left(s, c.(next := After(b, p)), rest - multiset{b[p]})
  {
    assert Looked(0);
    DistinctKeys(s, hash, m, c.table, c.index);
    SuffixStep(b, p);
    TakePieces(s, c, c.(next := After(b, p)), b, p);
  }

  lemma TakePieces<K, V>(s: State<K, V>, c: Cursor<K>, c': Cursor<K>, b: Chain<K, V>, p: nat)
    requires Inside(s, c) && c.entry.Some? && c.next == c.entry && b == Side(s, c.table).buckets[c.index]
    requires p == Scan(b, c.entry.value) && c' == c.(next := After(b, p))
    requires From(b, After(b, p)) == b[p + 1..] && multiset(b[p..]) == multiset{b[p]} + multiset(b[p + 1..])
    requires p + 1 < |b| ==> Scan(b, b[p + 1].key) < |b|
    ensures Inside(s, c') && b[p] in Remaining(s, c) && Remaining(s, c') == Remaining(s, c) - multiset{b[p]}
  {
    assert Here(s, c) == b[p..] && Here(s, c') == b[p + 1..];
    assert Ahead(s, c') == Ahead(s, c) && Later(s, c') == Later(s, c);
    LessOne(multiset(b[p..]), multiset(b[p + 1..]), Bag(Ahead(s, c)), Later(s, c), b[p]);
  }

  lemma LessOne<T>(h: multiset<T>, h': multiset<T>, a: multiset<T>, l: multiset<T>, e: T)
    requires h == multiset{e} + h'
    ensures e in h + a + l && h' + a + l == (h + a + l) - multiset{e}
  {
  }

  lemma SuffixStep<K, V>(b: Chain<K, V>, p: nat)
    requires p < |b| && forall i, j :: 0 <= i < j < |b| ==> b[i].key != b[j].key
    ensures From(b, After(b, p)) == b[p + 1..] && multiset(b[p..]) == multiset{b[p]} + multiset(b[p + 1..])
    ensures p + 1 < |b| ==> Scan(b, b[p + 1].key) < |b|
  {
    assert b[p..] == [b[p]] + b[p + 1..];
    if p + 1 < |b| {
      assert Scan(b, b[p + 1].key) == p + 1;
    }
  }

  // ----- deleting the entry just handed out

  lemma {:induction false} CutSplits<K, V>(a: Chain<K, V>, z: Chain<K, V>, key: K)
    requires forall e :: e in z ==> e.key != key
    ensures Cut(a + z, key) == Cut(a, key) + z
  {
    if a == [] {
      assert a + z == z;
      assert Scan(z, key) == |z|;
    } else if a[0].key == key {
      assert Scan(a + z, key) == 0 == Scan(a, key);
      assert (a + z)[1..] == a[1..] + z;
    } else {
      assert (a + z)[1..] == a[1..] + z;
      CutSplits(a[1..], z, key);
      CutHead(a, key);
      CutHead(a + z, key);
    }
  }

  lemma CutHead<K, V>(c: Chain<K, V>, key: K)
    requires c != [] && c[0].key != key
    ensures Cut(c, key) == [c[0]] + Cut(c[1..], key)
  {
    var p := Scan(c[1..], key);
    assert Scan(c, key) == p + 1;
    if p < |c[1..]| {
      assert c[..p + 1] == [c[0]] + c[1..][..p];
      assert c[p + 2..] == c[1..][p + 1..];
    }
  }

  /** The saved successor still starts the same rest of the chain. */
  lemma RestAfterCut<K, V>(c: Chain<K, V>, key: K, k: K)
    requires Scan(c, k) < |c| && forall e :: e in c[Scan(c, k)..] ==> e.key != key
    ensures Scan(Cut(c, key), k) < |Cut(c, key)| && Cut(c, key)[Scan(Cut(c, key), k)..] == c[Scan(c, k)..]
  {
    var p := Scan(c, k);
    var a, z := c[..p], c[p..];
    assert c == a + z && z[0].key == k;
    CutSplits(a, z, key);
    var a' := Cut(a, key);
    assert forall e :: e in a' ==> e in a;
    assert forall e :: e in a ==> e.key != k;
    ScanPast(a', z, k);
  }

  lemma {:induction false} ScanPast<K, V>(a: Chain<K, V>, z: Chain<K, V>, k: K)
    requires z != [] && z[0].key == k && forall e :: e in a ==> e.key != k
    ensures Scan(a + z, k) == |a| && (a + z)[|a|..] == z
  {
    if a == [] {
      assert a + z == z;
    } else {
      assert (a + z)[1..] == a[1..] + z;
      ScanPast(a[1..], z, k);
    }
  }

  /** A table cut of a key that a stretch of buckets does not hold leaves the stretch as it is. */
  lemma StretchKept<K, V>(b: seq<Chain<K, V>>, b': seq<Chain<K, V>>, key: K, i: nat)
    requires CutTable(b, b', key) && i <= |b| && forall e :: e in Bag(b[i..]) ==> e.key != key
    ensures b'[i..] == b[i..]
  {
    forall k | i <= k < |b|
      ensures b'[k] == b[k]
    {
      var p := Scan(b[k], key);
      if p < |b[k]| {
        assert b[k] == b[i..][k - i];
        BagHas(b[i..], b[k][p]);
      }
    }
  }

  lemma HereKept<K, V>(s: State<K, V>, s': State<K, V>, hash: K -> nat, key: K, c: Cursor<K>)
    requires CutFrom(s, s', hash, key) && Inside(s, c) && forall e :: e in multiset(Here(s, c)) ==> e.key != key
    ensures Inside(s', c) && Here(s', c) == Here(s, c)
  {
    if c.entry.Some? && c.next.Some? {
      var b := Side(s, c.table).buckets[c.index];
      forall e | e in b[Scan(b, c.next.value)..]
        ensures e.key != key
      {
        assert e in multiset(Here(s, c));
      }
      RestAfterCut(b, key, c.next.value);
    }
  }

  lemma AheadKept<K, V>(s: State<K, V>, s': State<K, V>, hash: K -> nat, key: K, c: Cursor<K>)
    requires CutFrom(s, s', hash, key) && Inside(s, c)
    requires forall e :: e in Bag(Ahead(s, c)) ==> e.key != key
    ensures Ahead(s', c) == Ahead(s, c)
  {
    var b, b' := Side(s, c.table).buckets, Side(s', c.table).buckets;
    if c.index + 1 <= |b| {
      StretchKept(b, b', key, c.index + 1);
    }
  }

  lemma LaterKept<K, V>(s: State<K, V>, s': State<K, V>, hash: K -> nat, key: K, c: Cursor<K>)
    requires CutFrom(s, s', hash, key) && forall e :: e in Later(s, c) ==> e.key != key
    ensures Later(s', c) == Later(s, c)
  {
    if c.table == 0 && s.rehashidx != -1 {
      assert s.ht1.buckets[0..] == s.ht1.buckets;
      StretchKept(s.ht1.buckets, s'.ht1.buckets, key, 0);
      assert s'.ht1.buckets[0..] == s'.ht1.buckets;
    }
  }

  /** Deleting an entry that does not remain to be returned changes nothing for the iterator. */
  lemma DeleteKeepsLeft<K, V>(s: State<K, V>, s': State<K, V>, hash: K -> nat, key: K, c: Cursor<K>,
      rest: multiset<Entry<K, V>>)
    requires Left(s, c, rest) && CutFrom(s, s', hash, key) && forall e :: e in rest ==> e.key != key
    ensures Left(s', c, rest)
  {
    assert Looked(0);
    HereKept(s, s', hash, key, c);
    AheadKept(s, s', hash, key, c);
    LaterKept(s, s', hash, key, c);
  }

  /** The cell of a key in bucket number `b`, NULL for none. */
  ghost function NodeOf<K, V>(chains: seq<seq<Links.Node>>, buckets: seq<Chain<K, V>>, b: int, k: Option<K>): Links.Node
  {
    if k.Some? && 0 <= b < |chains| && b < |buckets| then Links.Nth(chains[b], Scan(buckets[b], k.value)) else 0
  }

  /** The bucket a cursor is in, among those of both tables. */
  function BucketOf<K>(h0: Header, c: Cursor<K>): int
  {
    if c.table == 0 then c.index else h0.size + c.index
  }

  /** The pointers are those to the cells of the two keys; the first may dangle. */
  ghost predicate Pointed<K, V>(st: Store<K, V>, c: Cursor<K>, entry: Links.Node, next: Links.Node)
  {
    match st
    case Store(_, _, chains, buckets, h0, _) =>
      && (entry == 0 <==> c.entry == None) && (c.entry == None ==> c.next == None)
      && next == NodeOf(chains, buckets, BucketOf(h0, c), c.next)
  }

  ghost predicate Peeked(i: int) { true }

  /** An iterator over these cells with `rest` still to return; in view only where `Peeked` is mentioned. */
  ghost predicate Running<K, V>(st: Store<K, V>, s: State<K, V>, hash: K -> nat, m: map<K, V>, c: Cursor<K>,
      rest: multiset<Entry<K, V>>, entry: Links.Node, next: Links.Node)
  {
    (forall i {:trigger Peeked(i)} :: Peeked(i) ==>
      Poised(s, hash, m, c, rest) && Stands(st, s) && Pointed(st, c, entry, next)) == true
  }

  lemma RunningNow<K, V>(st: Store<K, V>, s: State<K, V>, hash: K -> nat, m: map<K, V>, c: Cursor<K>,
      rest: multiset<Entry<K, V>>, entry: Links.Node, next: Links.Node)
    requires Running(st, s, hash, m, c, rest, entry, next)
    ensures Valid(s, hash, m) && Left(s, c, rest) && Stands(st, s) == true && Pointed(st, c, entry, next) == true
  {
    assert Peeked(0);
  }

  lemma SetRunning<K, V>(st: Store<K, V>, s: State<K, V>, hash: K -> nat, m: map<K, V>, c: Cursor<K>,
      rest: multiset<Entry<K, V>>, entry: Links.Node, next: Links.Node)
    requires Valid(s, hash, m) && Left(s, c, rest) && Stands(st, s) == true && Pointed(st, c, entry, next) == true
    ensures Running(st, s, hash, m, c, rest, entry, next)
  {
  }

  /** The saved pointer is right after the entry just returned has been unlinked and freed. */
  lemma SavedNextKept<K, V>(chains: seq<seq<Links.Node>>, chains': seq<seq<Links.Node>>, buckets: seq<Chain<K, V>>,
      buckets': seq<Chain<K, V>>, key: K, b: int, k: Option<K>)
    requires CutChains(chains, chains', buckets, key) == true && CutTable(buckets, buckets', key) == true
    requires k.Some? ==> k.value != key && 0 <= b < |chains| && |chains[b]| == |buckets[b]|
                         && Scan(buckets[b], k.value) < |buckets[b]|
    ensures NodeOf(chains', buckets', b, k) == NodeOf(chains, buckets, b, k)
  {
    if k.Some? {
      SavedNextSurvives(chains[b], buckets[b], key, k.value);
    }
  }

  class Iterator<K(==), V> {
    const d: Dictionary<K, V>
    var table: nat
    var index: int
    var entry: Links.Node
    var nextEntry: Links.Node
    ghost var entryKey: Option<K>
    ghost var nextKey: Option<K>
    ghost var rest: multiset<Entry<K, V>>

    ghost function At(): Cursor<K>
      reads this
    {
      Cursor(table, index, entryKey, nextKey)
    }

    /** The iterator has exactly `rest` still to return. */
    ghost predicate Ok()
      reads this, d, d.links
    {
      Running(d.Cells(), d.Value(), d.hash, d.content, At(), rest, entry, nextEntry)
    }

    /** The iterator counts as running once it has been advanced. */
    ghost predicate Fresh()
      reads this
    {
      index == -1 && table == 0
    }

    /** dictGetIterator */
    constructor (d: Dictionary<K, V>)
      requires d.Ok()
      ensures this.d == d && Ok() && rest == All(d.Value()) && Fresh()
    {
      this.d := d;
      table, index, entry, nextEntry := 0, -1, 0, 0;
      entryKey, nextKey := None, None;
      rest := All(d.Value());
      new;
      StartRemaining(d.Value(), d.hash, d.content);
      SetRunning(d.Cells(), d.Value(), d.hash, d.content, At(), rest, entry, nextEntry);
    }

    /** The part of an iteration of dictNext that moves to the next bucket; false at the end. */
    method NextBucket() returns (more: bool)
      requires -1 <= index && (d.rehashidx != -1 ==> d.ht1.buckets != []) && d.Joined()
      requires Pointed(d.Cells(), At(), entry, nextEntry) && entryKey == None
      modifies `table, `index, `entry, `nextEntry, `entryKey, `nextKey, d`iterators
      ensures d.iterators == old(d.iterators) + (if old(Fresh()) then 1 else 0) && !Fresh()
      ensures d.Value() == old(d.Value()) && d.content == old(d.content) && d.Cells() == old(d.Cells())
      ensures more == Advance(old(d.Value()), old(At())).0 && At() == Entered(old(d.Value()), old(At()))
      ensures Pointed(d.Cells(), At(), entry, nextEntry) && (more ==> nextEntry == entry)
    {
      if index == -1 && table == 0 {
        d.iterators := d.iterators + 1;
      }
      index := index + 1;
      if index >= (if table == 0 then d.h0 else d.h1).size {
        if d.rehashidx != -1 && table == 0 {
          table, index := 1, 0;
        } else {
          return false;
        }
      }
      TakeHead();
      return true;
    }

    /** The head of the bucket at the index becomes the entry, and the saved one. */
    method TakeHead()
      requires d.Joined() && 0 <= index < |Side(d.Value(), table).buckets|
      modifies `entry, `nextEntry, `entryKey, `nextKey
      ensures Pointed(d.Cells(), At(), entry, nextEntry) && nextEntry == entry
      ensures entryKey == nextKey == Head(Side(d.Value(), table).buckets[index])
    {
      var b := Number(d.h0, table, index);
      FirstNode(d.Cells(), d.Value(), table, index, b);
      entry := d.links.heads[b];
      nextEntry := entry;
      entryKey := Head(Side(d.Value(), table).buckets[index]);
      nextKey := entryKey;
    }

    /** An iteration of dictNext without a current entry: look into the next bucket. */
    method EnterNext() returns (more: bool)
      requires Ok() && entry == 0
      modifies `table, `index, `entry, `nextEntry, `entryKey, `nextKey, d`iterators
      ensures Ok() && d.iterators == old(d.iterators) + (if old(Fresh()) then 1 else 0) && !Fresh()
      ensures if more then Beyond(d.Value(), old(At()), At()) && nextKey == entryKey && nextEntry == entry
              else rest == multiset{}
    {
      ghost var s, was := d.Value(), At();
      ghost var next := Entered(s, was);
      RunningNow(d.Cells(), s, d.hash, d.content, was, rest, entry, nextEntry);
      PoisedFacts(s, d.hash, d.content, was, rest);
      EnteredIs(s, was, next);
      AdvanceKeeps(s, was, rest, next);
      more := NextBucket();
      SetRunning(d.Cells(), d.Value(), d.hash, d.content, At(), rest, entry, nextEntry);
    }

    /** An iteration with a current entry: go on to the saved successor. */
    method UseSaved()
      requires Ok() && entry != 0
      modifies `entry, `entryKey
      ensures Ok() && entryKey == nextKey && entry == nextEntry
    {
      SavedUsed(d.Cells(), d.Value(), d.hash, d.content, At(), rest, entry, nextEntry);
      entry := nextEntry;
      entryKey := nextKey;
    }

    /** Save the successor of the entry about to be returned. */
    method HandOut() returns (e: Entry<K, V>)
      requires Ok() && entry != 0 && nextKey == entryKey && nextEntry == entry
      modifies `nextEntry, `nextKey, `rest
      ensures Ok() && old(rest) == rest + multiset{e} && entryKey == Some(e.key)
    {
      ghost var was, all := At(), rest;
      ghost var next := HandedOut(d.Cells(), d.Value(), d.hash, d.content, was, all, entry);
      e := EntryAt(d.links.heap, entry);
      nextEntry := d.links.heap[entry].next;
      nextKey, rest := next, all - multiset{e};
      assert At() == was.(next := next);
    }

    /** dictNext: one of the entries that remain, or none when nothing remains. */
    method Next() returns (r: Option<Entry<K, V>>)
      requires Ok()
      modifies this, d`iterators
      ensures Ok() && d.iterators == old(d.iterators) + (if old(Fresh()) then 1 else 0) && !Fresh()
      ensures d.Value() == old(d.Value())
      ensures match r
              case None => old(rest) == multiset{} && rest == multiset{}
              case Some(e) => old(rest) == rest + multiset{e}
    {
      while true
        invariant Ok() && rest == old(rest)
        invariant d.iterators == old(d.iterators) + (if old(Fresh()) && !Fresh() then 1 else 0)
            && (!old(Fresh()) ==> !Fresh())
        decreases 1 - table, |Side(d.Value(), table).buckets| - index, entry != 0
      {
        RunningFacts(d.Cells(), d.Value(), d.hash, d.content, At(), rest, entry, nextEntry);
        if entry == 0 {
          var more := EnterNext();
          if !more {
            return None;
          }
        } else {
          UseSaved();
        }
        if entry != 0 {
          var e := HandOut();
          return Some(e);
        }
      }
    }

    /** dictReleaseIterator */
    method Release()
      modifies d`iterators
      ensures d.iterators == old(d.iterators) - (if Fresh() then 0 else 1)
    {
      if !(index == -1 && table == 0) {
        d.iterators := d.iterators - 1;
      }
    }
  }

  lemma RunningFacts<K, V>(st: Store<K, V>, s: State<K, V>, hash: K -> nat, m: map<K, V>, c: Cursor<K>,
      rest: multiset<Entry<K, V>>, entry: Links.Node, next: Links.Node)
    requires Running(st, s, hash, m, c, rest, entry, next)
    ensures -1 <= c.index && c.table <= 1 && (entry != 0 ==> 0 <= c.index < |Side(s, c.table).buckets|)
  {
    RunningNow(st, s, hash, m, c, rest, entry, next);
    PoisedFacts(s, hash, m, c, rest);
  }

  /** The chain of a bucket of the tables. */
  lemma BucketCells<K, V>(st: Store<K, V>, s: State<K, V>, table: nat, index: nat, b: nat)
    requires Stands(st, s) == true && index < |Side(s, table).buckets| && b == Number(st.h0, table, index)
    ensures b < |st.heads| == |st.chains| == |st.buckets| && st.buckets[b] == Side(s, table).buckets[index]
    ensures ChainAt(st.heap, st.heads[b], st.chains[b]) && Stored(st.heap, st.chains[b], st.buckets[b])
  {
    JoinAt(st.buckets, st.h0, st.h1, s, table, index);
    Sizes(st.heap, st.heads, st.chains, st.buckets);
    DictLinks.Here(st.heap, st.heads, st.chains, st.buckets, b);
  }

  /** The head of a bucket is the cell of its first entry. */
  lemma FirstNode<K, V>(st: Store<K, V>, s: State<K, V>, table: nat, index: nat, b: nat)
    requires Stands(st, s) == true && index < |Side(s, table).buckets| && b == Number(st.h0, table, index)
    ensures b < |st.heads|
    ensures st.heads[b] == NodeOf(st.chains, st.buckets, b, Head(Side(s, table).buckets[index]))
    ensures st.heads[b] == 0 <==> Head(Side(s, table).buckets[index]) == None
  {
    BucketCells(st, s, table, index, b);
    var c := st.buckets[b];
    if c != [] {
      LeadsOn(st.heap, st.heads[b], st.chains[b], 0);
      assert Scan(c, c[0].key) == 0;
    }
  }

  /** The cell of the entry at a position: what it holds and where it leads. */
  lemma CellThere<K, V>(st: Store<K, V>, s: State<K, V>, hash: K -> nat, m: map<K, V>, table: nat, index: nat,
      b: Chain<K, V>, p: nat, n: Links.Node)
    requires Stands(st, s) == true && Valid(s, hash, m) && table <= 1 && index < |Side(s, table).buckets|
    requires b == Side(s, table).buckets[index] && p < |b|
    requires n == NodeOf(st.chains, st.buckets, Number(st.h0, table, index), Some(b[p].key))
    ensures n in st.heap && n != 0 && EntryAt(st.heap, n) == b[p]
    ensures st.heap[n].next == NodeOf(st.chains, st.buckets, Number(st.h0, table, index), After(b, p))
  {
    var i := Number(st.h0, table, index);
    BucketCells(st, s, table, index, i);
    DistinctKeys(s, hash, m, table, index);
    ScanIs(b, b[p].key, p);
    LeadsOn(st.heap, st.heads[i], st.chains[i], p);
    if p + 1 < |b| {
      ScanIs(b, b[p + 1].key, p + 1);
    }
  }

  /** Going on to the saved pointer. */
  lemma SavedUsed<K, V>(st: Store<K, V>, s: State<K, V>, hash: K -> nat, m: map<K, V>, c: Cursor<K>,
      rest: multiset<Entry<K, V>>, entry: Links.Node, next: Links.Node)
    requires Running(st, s, hash, m, c, rest, entry, next) && entry != 0
    ensures Running(st, s, hash, m, c.(entry := c.next), rest, next, next)
  {
    RunningNow(st, s, hash, m, c, rest, entry, next);
    PoisedFacts(s, hash, m, c, rest);
    FollowNext(s, c, rest);
    if c.next.Some? {
      NextRemains(s, hash, m, c, rest);
      var b := Side(s, c.table).buckets[c.index];
      CellThere(st, s, hash, m, c.table, c.index, b, Scan(b, c.next.value), next);
    }
    SetRunning(st, s, hash, m, c.(entry := c.next), rest, next, next);
  }

  /** Handing out the entry of the current cell and saving where it leads. */
  lemma HandedOut<K, V>(st: Store<K, V>, s: State<K, V>, hash: K -> nat, m: map<K, V>, c: Cursor<K>,
      rest: multiset<Entry<K, V>>, entry: Links.Node) returns (next: Option<K>)
    requires Running(st, s, hash, m, c, rest, entry, entry) && entry != 0 && c.next == c.entry
    ensures entry in st.heap && c.entry == Some(st.heap[entry].key)
    ensures rest == rest - multiset{EntryAt(st.heap, entry)} + multiset{EntryAt(st.heap, entry)}
    ensures Running(st, s, hash, m, c.(next := next), rest - multiset{EntryAt(st.heap, entry)}, entry,
                st.heap[entry].next)
  {
    RunningNow(st, s, hash, m, c, rest, entry, entry);
    PoisedFacts(s, hash, m, c, rest);
    var b := Side(s, c.table).buckets[c.index];
    var p := Scan(b, c.entry.value);
    TakeEntry(s, hash, m, c, rest, b, p);
    CellThere(st, s, hash, m, c.table, c.index, b, p, entry);
    next := After(b, p);
    SetRunning(st, s, hash, m, c.(next := next), rest - multiset{b[p]}, entry, st.heap[entry].next);
  }

  /** The entries of `out` whose key is not doomed. */
  ghost function Kept<K, V>(out: seq<Entry<K, V>>, doomed: K -> bool): multiset<Entry<K, V>>
  {
    if out == [] then multiset{}
    else
      var e := out[|out| - 1];
      Kept(out[..|out| - 1], doomed) + if doomed(e.key) then multiset{} else multiset{e}
  }

  lemma {:induction false} KeptCount<K, V>(out: seq<Entry<K, V>>, doomed: K -> bool, e: Entry<K, V>)
    ensures Kept(out, doomed)[e] == if doomed(e.key) then 0 else multiset(out)[e]
  {
    if out != [] {
      assert out == out[..|out| - 1] + [out[|out| - 1]];
      KeptCount(out[..|out| - 1], doomed, e);
    }
  }

  /** What remains has other keys than the entry just returned. */
  lemma OtherKeys<K, V>(all: multiset<Entry<K, V>>, m: map<K, V>, rest: multiset<Entry<K, V>>, e: Entry<K, V>)
    requires Represents(all, m) && rest + multiset{e} <= all
    ensures forall f :: f in rest ==> f.key != e.key
  {
    forall f | f in rest
      ensures f.key != e.key
    {
      assert f in all && e in all && (rest + multiset{e})[e] <= all[e];
    }
  }


  /** The map without the doomed keys. */
  ghost function Spared<K, V>(m: map<K, V>, doomed: K -> bool): map<K, V>
  {
    map k | k in m && !doomed(k) :: m[k]
  }

  lemma SparedRepresents<K, V>(all: multiset<Entry<K, V>>, m: map<K, V>, out: seq<Entry<K, V>>, doomed: K -> bool,
      n: map<K, V>)
    requires Represents(all, m) && multiset(out) == all && Represents(Kept(out, doomed), n)
    ensures n == Spared(m, doomed)
  {
    forall k
      ensures k in n <==> k in m && !doomed(k)
      ensures k in n ==> n[k] == m[k]
    {
      if k in n {
        assert Entry(k, n[k]) in Kept(out, doomed);
        KeptCount(out, doomed, Entry(k, n[k]));
      }
      if k in m {
        assert Entry(k, m[k]) in all;
        KeptCount(out, doomed, Entry(k, m[k]));
      }
    }
  }

  /**
   * Half way through: `out` has been returned, `rest` has not, and what is left of `out` and `rest`
   * is in the table.
   */
  ghost predicate Halfway<K, V>(all: multiset<Entry<K, V>>, now: multiset<Entry<K, V>>, out: seq<Entry<K, V>>,
      rest: multiset<Entry<K, V>>, doomed: K -> bool)
  {
    (multiset(out) + rest == all && Kept(out, doomed) + rest == now) == true
  }

  lemma HalfwayNext<K, V>(all: multiset<Entry<K, V>>, now: multiset<Entry<K, V>>, out: seq<Entry<K, V>>,
      rest: multiset<Entry<K, V>>, doomed: K -> bool, e: Entry<K, V>)
    requires Halfway(all, now, out, rest + multiset{e}, doomed)
    ensures rest + multiset{e} <= now
    ensures Halfway(all, if doomed(e.key) then now - multiset{e} else now, out + [e], rest, doomed)
  {
    assert (out + [e])[..|out|] == out;
    assert multiset(out + [e]) == multiset(out) + multiset{e};
    var now' := if doomed(e.key) then now - multiset{e} else now;
    assert Kept(out + [e], doomed) == Kept(out, doomed) + if doomed(e.key) then multiset{} else multiset{e};
    assert Kept(out + [e], doomed) + rest == now';
  }

  lemma OneBag<K, V>(a: multiset<Entry<K, V>>, b: multiset<Entry<K, V>>, m: map<K, V>)
    requires Represents(a, m) && Represents(b, m)
    ensures a == b
  {
    forall e | e in a || e in b
      ensures a[e] == b[e]
    {
      assert e == Entry(e.key, m[e.key]);
    }
  }

  /** The effect of deleting the entry the iterator just returned. */
  lemma ReturnedDeleted<K, V>(s: State<K, V>, s': State<K, V>, hash: K -> nat, m: map<K, V>, c: Cursor<K>,
      rest: multiset<Entry<K, V>>, e: Entry<K, V>)
    requires Poised(s, hash, m, c, rest) && CutFrom(s, s', hash, e.key) && Valid(s', hash, m - {e.key})
    requires rest + multiset{e} <= All(s)
    ensures Poised(s', hash, m - {e.key}, c, rest) && All(s') == All(s) - multiset{e}
  {
    Contents(s, hash, m);
    Contents(s', hash, m - {e.key});
    OtherKeys(All(s), m, rest, e);
    DeleteKeepsLeft(s, s', hash, e.key, c, rest);
    assert e in rest + multiset{e};
    DropRepresents(All(s), m, e);
    OneBag(All(s'), All(s) - multiset{e}, m - {e.key});
  }

  /** Deleting the entry the iterator just returned; its cell is freed, and the saved pointer stays right. */
  method DeleteReturned<K(==), V>(d: Dictionary<K, V>, it: Iterator<K, V>, e: Entry<K, V>)
    requires it.d == d && it.Ok() && d.iterators > 0 && it.rest + multiset{e} <= All(d.Value())
    modifies d`h0, d`h1, d`ht0, d`ht1, d`rehashidx, d`content, d.links
    ensures it.Ok() && All(d.Value()) == old(All(d.Value())) - multiset{e}
  {
    ghost var s, m, st := d.Value(), d.content, d.Cells();
    RunningNow(st, s, d.hash, m, it.At(), it.rest, it.entry, it.nextEntry);
    var _ := d.Delete(e.key);
    RunsOn(st, s, d.hash, m, it.At(), it.rest, it.entry, it.nextEntry, e, d.Cells(), d.Value());
  }

  /** The iterator after the entry just returned has been deleted. */
  lemma RunsOn<K, V>(st: Store<K, V>, s: State<K, V>, hash: K -> nat, m: map<K, V>, c: Cursor<K>,
      rest: multiset<Entry<K, V>>, entry: Links.Node, next: Links.Node, e: Entry<K, V>, st': Store<K, V>,
      s': State<K, V>)
    requires Running(st, s, hash, m, c, rest, entry, next) && rest + multiset{e} <= All(s)
    requires CutFrom(s, s', hash, e.key) == true && CutChains(st.chains, st'.chains, st.buckets, e.key) == true
    requires Valid(s', hash, m - {e.key}) && Stands(st', s') == true
    ensures Running(st', s', hash, m - {e.key}, c, rest, entry, next) && All(s') == All(s) - multiset{e}
  {
    RunningNow(st, s, hash, m, c, rest, entry, next);
    ReturnedDeleted(s, s', hash, m, c, rest, e);
    Contents(s, hash, m);
    OtherKeys(All(s), m, rest, e);
    SavedAfterDelete(st, s, hash, m, c, rest, e.key, st', s');
    SetRunning(st', s', hash, m - {e.key}, c, rest, entry, next);
  }

  lemma SavedAfterDelete<K, V>(st: Store<K, V>, s: State<K, V>, hash: K -> nat, m: map<K, V>, c: Cursor<K>,
      rest: multiset<Entry<K, V>>, key: K, st': Store<K, V>, s': State<K, V>)
    requires Stands(st, s) == true && Poised(s, hash, m, c, rest) && (c.next.Some? ==> c.entry.Some?)
    requires CutFrom(s, s', hash, key) == true && CutChains(st.chains, st'.chains, st.buckets, key) == true
    requires Stands(st', s') == true && forall f :: f in rest ==> f.key != key
    ensures NodeOf(st'.chains, st'.buckets, BucketOf(st'.h0, c), c.next) ==
            NodeOf(st.chains, st.buckets, BucketOf(st.h0, c), c.next)
  {
    TablesCut(st, s, hash, key, st', s');
    if c.next.Some? {
      NextRemains(s, hash, m, c, rest);
      BucketCells(st, s, c.table, c.index, BucketOf(st.h0, c));
    }
    SavedNextKept(st.chains, st'.chains, st.buckets, st'.buckets, key, BucketOf(st.h0, c), c.next);
  }

  lemma TablesCut<K, V>(st: Store<K, V>, s: State<K, V>, hash: K -> nat, key: K, st': Store<K, V>, s': State<K, V>)
    requires Stands(st, s) && Stands(st', s') && CutFrom(s, s', hash, key) == true
    ensures CutTable(st.buckets, st'.buckets, key) == true && st'.h0.size == st.h0.size
  {
    CutConcat(s.ht0.buckets, s'.ht0.buckets, s.ht1.buckets, s'.ht1.buckets, key);
  }

  lemma CutConcat<K, V>(a: seq<Chain<K, V>>, a': seq<Chain<K, V>>, b: seq<Chain<K, V>>, b': seq<Chain<K, V>>, key: K)
    requires CutTable(a, a', key) && CutTable(b, b', key)
    ensures CutTable(a + b, a' + b', key) == true
  {
    EachConcat(a, a', b, b', (c: Chain<K, V>) => Dict.Cut(c, key));
  }

  lemma EachConcat<T>(a: seq<T>, a': seq<T>, b: seq<T>, b': seq<T>, f: T -> T)
    requires |a'| == |a| && |b'| == |b|
    requires (forall i :: 0 <= i < |a| ==> a'[i] == f(a[i])) && forall i :: 0 <= i < |b| ==> b'[i] == f(b[i])
    ensures forall i :: 0 <= i < |a + b| ==> (a' + b')[i] == f((a + b)[i])
  {
  }

  /** The entry of the saved pointer is still to be returned. */
  lemma NextRemains<K, V>(s: State<K, V>, hash: K -> nat, m: map<K, V>, c: Cursor<K>, rest: multiset<Entry<K, V>>)
    requires Poised(s, hash, m, c, rest) && c.entry.Some? && c.next.Some?
    ensures c.table <= 1 && 0 <= c.index < |Side(s, c.table).buckets|
    ensures var b := Side(s, c.table).buckets[c.index];
            Scan(b, c.next.value) < |b| && b[Scan(b, c.next.value)] in rest
  {
    assert Looked(0);
    var b := Side(s, c.table).buckets[c.index];
    var p := Scan(b, c.next.value);
    assert Here(s, c) == b[p..] && b[p..][0] == b[p];
    assert b[p] in multiset(b[p..]);
  }

  /**
   * A whole iteration in which every doomed entry is deleted as soon as it is returned: each entry
   * of both tables is returned exactly once, exactly the doomed ones are gone afterwards, and the
   * iterator count is restored.
   */
  method IterateAll<K(==), V>(d: Dictionary<K, V>, doomed: K -> bool) returns (out: seq<Entry<K, V>>)
    requires d.Ok() && d.iterators >= 0
    modifies d, d.links
    ensures d.Ok() && d.iterators == old(d.iterators)
    ensures multiset(out) == old(All(d.Value()))
    ensures d.content == Spared(old(d.content), doomed)
  {
    out := [];
    ghost var all := All(d.Value());
    Contents(d.Value(), d.hash, d.content);
    var it := new Iterator(d);
    assert Halfway(all, All(d.Value()), out, it.rest, doomed);
    out := Drain(d, it, doomed, all);
    RunningNow(d.Cells(), d.Value(), d.hash, d.content, it.At(), it.rest, it.entry, it.nextEntry);
    it.Release();
    AllReturned(d.Value(), d.hash, d.content, all, old(d.content), out, doomed);
  }

  lemma AllReturned<K, V>(s: State<K, V>, hash: K -> nat, n: map<K, V>, all: multiset<Entry<K, V>>, m: map<K, V>,
      out: seq<Entry<K, V>>, doomed: K -> bool)
    requires Valid(s, hash, n) && Represents(all, m) && Halfway(all, All(s), out, multiset{}, doomed)
    ensures multiset(out) == all && n == Spared(m, doomed)
  {
    Contents(s, hash, n);
    assert Kept(out, doomed) + multiset{} == Kept(out, doomed) && multiset(out) + multiset{} == multiset(out);
    SparedRepresents(all, m, out, doomed, n);
  }

  /** The caller deletes a returned entry if it is doomed. */
  method Dispose<K(==), V>(d: Dictionary<K, V>, it: Iterator<K, V>, e: Entry<K, V>, doomed: K -> bool,
      ghost all: multiset<Entry<K, V>>, ghost out: seq<Entry<K, V>>)
    requires it.d == d && it.Ok() && d.iterators > 0 && Halfway(all, All(d.Value()), out, it.rest + multiset{e}, doomed)
    modifies d`h0, d`h1, d`ht0, d`ht1, d`rehashidx, d`content, d.links
    ensures it.Ok() && Halfway(all, All(d.Value()), out + [e], it.rest, doomed)
  {
    HalfwayNext(all, All(d.Value()), out, it.rest, doomed, e);
    if doomed(e.key) {
      DeleteReturned(d, it, e);
    }
  }

  /** The caller's loop. */
  method Drain<K(==), V>(d: Dictionary<K, V>, it: Iterator<K, V>, doomed: K -> bool, ghost all: multiset<Entry<K, V>>)
    returns (out: seq<Entry<K, V>>)
    requires it.d == d && it.Ok() && it.Fresh() && d.iterators >= 0 && Halfway(all, All(d.Value()), [], it.rest, doomed)
    modifies d, d.links, it
    ensures it.Ok() && !it.Fresh() && d.iterators == old(d.iterators) + 1 && it.rest == multiset{}
    ensures Halfway(all, All(d.Value()), out, multiset{}, doomed)
  {
    out := [];
    ghost var left := it.rest;
    var r := it.Next();
    while r.Some?
      invariant it.Ok() && !it.Fresh() && d.iterators == old(d.iterators) + 1
      invariant Halfway(all, All(d.Value()), out, left, doomed)
      invariant if r.Some? then left == it.rest + multiset{r.value} else left == it.rest == multiset{}
      decreases |left|
    {
      Dispose(d, it, r.value, doomed, all, out);
      out := out + [r.value];
      left := it.rest;
      r := it.Next();
    }
  }
}
