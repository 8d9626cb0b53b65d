/**
 * The byte-packed string map of Redis (zipmap.c).
 *
 * `Encoding` gives the bytes of a list of items. Every operation is proved to keep the buffer the
 * encoding of a list of items with distinct keys, and to change the map it stands for as it should.
 */
module Zipmap {
  import opened Bytes
  import opened Concat

  const BIGLEN: nat := 254
  const END: nat := 255
  const VALUE_MAX_FREE: nat := 4

  type Text = seq<Byte>

  /** A key, its value and the unused bytes after the value. */
  datatype Item = Item(key: Text, val: Text, free: Text)

  /** <len> */
  function LenBytes(n: nat): (s: seq<Byte>)
    ensures |s| == LenSize(n)
  {
    if n < BIGLEN then [n] else [BIGLEN] + EncodeLE(n, 4)
  }

  /** ZIPMAP_LEN_BYTES */
  function LenSize(n: nat): nat
  {
    if n < BIGLEN then 1 else 5
  }

  /** <len> key <len> <free> value, and whatever follows the value. */
  function PairBytes(key: Text, val: Text, free: Byte, rest: Text): seq<Byte>
  {
    LenBytes(|key|) + (key + (LenBytes(|val|) + ([free] + (val + rest))))
  }

  predicate Sized(it: Item)
  {
    |it.key| < Pow256(4) && |it.val| < Pow256(4) && |it.free| < VALUE_MAX_FREE
  }

  function ItemBytes(it: Item): seq<Byte>
  {
    PairBytes(it.key, it.val, |it.free| % 256, it.free)
  }

  /** Length of an item in bytes. */
  function ItemSize(it: Item): (n: nat)
    ensures n == |ItemBytes(it)|
  {
    LenSize(|it.key|) + |it.key| + LenSize(|it.val|) + 1 + |it.val| + |it.free|
  }

  function Parts(items: seq<Item>): (p: seq<seq<Byte>>)
    ensures |p| == |items| && forall i :: 0 <= i < |items| ==> p[i] == ItemBytes(items[i])
  {
    seq(|items|, i requires 0 <= i < |items| => ItemBytes(items[i]))
  }

  predicate AllSized(items: seq<Item>)
  {
    forall i :: 0 <= i < |items| ==> Sized(items[i])
  }

  function Encoding(items: seq<Item>): seq<Byte>
  {
    Flat(Parts(items))
  }

  /** The length byte is the number of items, or 254 when it says nothing. */
  predicate Counts(c: Byte, n: nat)
  {
    c == BIGLEN || (c == n && n < BIGLEN)
  }

  /** <zmlen> items END, where a length byte of 254 says nothing. */
  ghost predicate Buffer(zm: seq<Byte>, items: seq<Item>)
  {
    && AllSized(items) && |zm| == |Encoding(items)| + 2
    && Counts(zm[0], |items|)
    && zm[1..] == Encoding(items) + [END]
  }

  ghost predicate Distinct(items: seq<Item>)
  {
    forall i, j :: 0 <= i < j < |items| ==> items[i].key != items[j].key
  }

  /** The map a list of items stands for. */
  ghost predicate Denotes(items: seq<Item>, m: map<Text, Text>)
  {
    && Distinct(items)
    && (forall i :: 0 <= i < |items| ==> items[i].key in m && m[items[i].key] == items[i].val)
    && (forall k :: k in m ==> Present(items, k))
  }

  ghost predicate Present(items: seq<Item>, k: Text)
  {
    exists i :: 0 <= i < |items| && items[i].key == k
  }

  // ----- reading lengths and items

  /** zipmapDecodeLength at `p`; bytes beyond the buffer are not read by a well-formed buffer. */
  function DecodeLength(zm: seq<Byte>, p: nat): nat
    requires p < |zm|
  {
    if zm[p] < BIGLEN || |zm| < p + 5 then zm[p] else DecodeLE(zm[p + 1..p + 5])
  }

  lemma LengthThere(zm: seq<Byte>, p: nat, n: nat)
    requires n < Pow256(4) && p + LenSize(n) <= |zm| && zm[p..p + LenSize(n)] == LenBytes(n)
    ensures DecodeLength(zm, p) == n && zm[p] != END
  {
    assert zm[p] == LenBytes(n)[0];
    if n >= BIGLEN {
      assert zm[p + 1..p + 5] == LenBytes(n)[1..] == EncodeLE(n, 4);
      DecodeEncode(n, 4);
    }
  }

  /** zipmapRawKeyLength */
  function RawKeyLength(zm: seq<Byte>, p: nat): nat
    requires p < |zm|
  {
    LenSize(DecodeLength(zm, p)) + DecodeLength(zm, p)
  }

  /** zipmapRawValueLength */
  function RawValueLength(zm: seq<Byte>, p: nat): nat
    requires p < |zm| && p + LenSize(DecodeLength(zm, p)) < |zm|
  {
    var l := DecodeLength(zm, p);
    LenSize(l) + zm[p + LenSize(l)] as int + 1 + l
  }

  ghost predicate KeyAt(zm: seq<Byte>, p: nat, key: Text)
  {
    && p + LenSize(|key|) + |key| < |zm| && zm[p] != END && DecodeLength(zm, p) == |key|
    && zm[p + LenSize(|key|)..p + LenSize(|key|) + |key|] == key
  }

  ghost predicate ValueAt(zm: seq<Byte>, p: nat, val: Text, free: Text)
  {
    var w := p + LenSize(|val|) + 1;
    && w + |val| + |free| < |zm| && DecodeLength(zm, p) == |val| && zm[w - 1] == |free|
    && zm[w..w + |val|] == val && zm[w + |val|..w + |val| + |free|] == free
  }

  ghost predicate Shown(i: int) { true }

  /** The item is in the buffer at `p`; the details come into view where `Shown` is mentioned. */
  ghost predicate ItemAt(zm: seq<Byte>, p: nat, it: Item)
  {
    (forall i {:trigger Shown(i)} :: Shown(i) ==>
      KeyAt(zm, p, it.key) && ValueAt(zm, p + LenSize(|it.key|) + |it.key|, it.val, it.free)) == true
  }

  lemma ReadsKey(zm: seq<Byte>, a: seq<Byte>, key: Text, r: seq<Byte>, z: seq<Byte>)
    requires |key| < Pow256(4) && z != [] && zm == a + (LenBytes(|key|) + (key + r)) + z
    ensures KeyAt(zm, |a|, key) && zm == (a + LenBytes(|key|) + key) + r + z
  {
    Peel(zm, a, LenBytes(|key|), key + r, z);
    LengthThere(zm, |a|, |key|);
    Peel(zm, a + LenBytes(|key|), key, r, z);
  }

  lemma ReadsValue(zm: seq<Byte>, a: seq<Byte>, val: Text, f: Byte, free: Text, z: seq<Byte>)
    requires |val| < Pow256(4) && f == |free| && z != [] && zm == a + (LenBytes(|val|) + ([f] + (val + free))) + z
    ensures ValueAt(zm, |a|, val, free)
  {
    var v := LenBytes(|val|);
    Peel(zm, a, v, [f] + (val + free), z);
    LengthThere(zm, |a|, |val|);
    Peel(zm, a + v, [f], val + free, z);
    assert zm[|a + v|] == f;
    Peel(zm, a + v + [f], val, free, z);
    assert zm[|a + v + [f] + val|..|a + v + [f] + val| + |free|] == free;
  }

  /** An item between other bytes is found there. */
  lemma ReadsItem(zm: seq<Byte>, a: seq<Byte>, it: Item, z: seq<Byte>)
    requires Sized(it) && z != [] && zm == a + ItemBytes(it) + z
    ensures ItemAt(zm, |a|, it)
  {
    var r := LenBytes(|it.val|) + ([|it.free| as Byte] + (it.val + it.free));
    var head := a + LenBytes(|it.key|) + it.key;
    ReadsKey(zm, a, it.key, r, z);
    assert |head| == |a| + LenSize(|it.key|) + |it.key|;
    ReadsValue(zm, head, it.val, |it.free|, it.free, z);
    assert ValueAt(zm, |a| + LenSize(|it.key|) + |it.key|, it.val, it.free);
  }

  function Offset(items: seq<Item>, i: nat): nat
    requires i <= |items|
  {
    1 + |Flat(Parts(items)[..i])|
  }

  lemma BufferSplit(zm: seq<Byte>, c: Byte, parts: seq<seq<Byte>>, i: nat)
    requires zm == [c] + (Flat(parts) + [END]) && i < |parts|
    ensures zm == ([c] + Flat(parts[..i])) + parts[i] + (Flat(parts[i + 1..]) + [END])
  {
    FlatSplit(parts, i);
    Regroup(c, Flat(parts[..i]), parts[i], Flat(parts[i + 1..]), END);
  }

  lemma Regroup(c: Byte, a: seq<Byte>, x: seq<Byte>, b: seq<Byte>, e: Byte)
    ensures [c] + ((a + x + b) + [e]) == ([c] + a) + x + (b + [e])
  {
  }

  /** Item `i` of a buffer is at its offset. */
  lemma ItemInBuffer(zm: seq<Byte>, items: seq<Item>, i: nat, p: nat)
    requires Buffer(zm, items) && i < |items| && p == Offset(items, i)
    ensures ItemAt(zm, p, items[i])
  {
    assert zm == [zm[0]] + zm[1..];
    var parts := Parts(items);
    var a := [zm[0]] + Flat(parts[..i]);
    BufferSplit(zm, zm[0], parts, i);
    assert Sized(items[i]) && |a| == p;
    ReadsItem(zm, a, items[i], Flat(parts[i + 1..]) + [END]);
  }

  /** The next offset follows the item. */
  lemma NextOffset(items: seq<Item>, i: nat)
    requires i < |items|
    ensures Offset(items, i + 1) == Offset(items, i) + ItemSize(items[i])
  {
    FlatNext(Parts(items), i);
  }

  lemma EndOfBuffer(zm: seq<Byte>, items: seq<Item>)
    requires Buffer(zm, items)
    ensures Offset(items, 0) == 1 && Offset(items, |items|) == |zm| - 1 && zm[|zm| - 1] == END
  {
    assert Parts(items)[..|items|] == Parts(items);
    assert zm[|zm| - 1] == zm[1..][|zm| - 2];
  }

  /** The end byte is found exactly after the last item. */
  lemma AtEnd(zm: seq<Byte>, items: seq<Item>, i: nat, p: nat)
    requires Buffer(zm, items) && i <= |items| && p == Offset(items, i)
    ensures p < |zm| && (zm[p] == END <==> i == |items|)
  {
    EndOfBuffer(zm, items);
    if i < |items| {
      ItemInBuffer(zm, items, i, p);
      assert Shown(0);
    }
  }

  // ----- a buffer stands for one list of items only

  lemma SameOffset(a: seq<Item>, b: seq<Item>, i: nat)
    requires i <= |a| && i <= |b| && a[..i] == b[..i]
    ensures Offset(a, i) == Offset(b, i)
  {
    forall k | 0 <= k < i
      ensures a[k] == b[k]
    {
      assert a[..i][k] == b[..i][k];
    }
    assert Parts(a)[..i] == Parts(b)[..i];
  }

  lemma SameItem(zm: seq<Byte>, p: nat, x: Item, y: Item)
    requires ItemAt(zm, p, x) && ItemAt(zm, p, y)
    ensures x == y
  {
    assert Shown(0);
  }

  ghost predicate Opened(i: int) { true }

  /** Both lists are in the buffer; the details come into view where `Opened` is mentioned. */
  ghost predicate BothParse(zm: seq<Byte>, a: seq<Item>, b: seq<Item>)
  {
    (forall i {:trigger Opened(i)} :: Opened(i) ==> Buffer(zm, a) && Buffer(zm, b)) == true
  }

  /** Where the items before number `i` agree, the next ones agree too. */
  lemma NextAgrees(zm: seq<Byte>, a: seq<Item>, b: seq<Item>, i: nat)
    requires BothParse(zm, a, b) && i <= |a| && i <= |b| && a[..i] == b[..i]
    ensures (i < |a| <==> i < |b|) && (i < |a| && i < |b| ==> a[i] == b[i])
  {
    assert Opened(0);
    var p := Offset(a, i);
    SameOffset(a, b, i);
    AtEnd(zm, a, i, p);
    AtEnd(zm, b, i, p);
    if i < |a| {
      ItemInBuffer(zm, a, i, p);
      ItemInBuffer(zm, b, i, p);
      SameItem(zm, p, a[i], b[i]);
    }
  }

  lemma {:induction false} ParseFrom(zm: seq<Byte>, a: seq<Item>, b: seq<Item>, i: nat)
    requires BothParse(zm, a, b) && i <= |a| && i <= |b| && a[..i] == b[..i]
    ensures a == b
    decreases |a| - i
  {
    NextAgrees(zm, a, b, i);
    if i < |a| {
      assert a[..i + 1] == a[..i] + [a[i]] && b[..i + 1] == b[..i] + [b[i]];
      ParseFrom(zm, a, b, i + 1);
    }
  }

  /** A buffer stands for one list of items only. */
  lemma UniqueParse(zm: seq<Byte>, a: seq<Item>, b: seq<Item>)
    requires Buffer(zm, a) && Buffer(zm, b)
    ensures a == b
  {
    ParseFrom(zm, a, b, 0);
  }

  // ----- what the operations do to the bytes and to the items

  /** The bytes before and after item `i`. */
  lemma Around(zm: seq<Byte>, items: seq<Item>, i: nat, p: nat)
    requires Buffer(zm, items) && i < |items| && p == Offset(items, i)
    ensures 0 < p && p + ItemSize(items[i]) < |zm|
    ensures zm[..p] == [zm[0]] + Flat(Parts(items)[..i])
    ensures zm[p + ItemSize(items[i])..] == Flat(Parts(items)[i + 1..]) + [END]
  {
    assert zm == [zm[0]] + zm[1..];
    BufferSplit(zm, zm[0], Parts(items), i);
    Cut3(zm, [zm[0]] + Flat(Parts(items)[..i]), Parts(items)[i], Flat(Parts(items)[i + 1..]) + [END]);
  }

  lemma Cut3(s: seq<Byte>, a: seq<Byte>, b: seq<Byte>, c: seq<Byte>)
    requires s == a + b + c
    ensures |s| == |a| + |b| + |c| && s[..|a|] == a && s[|a|..|a| + |b|] == b && s[|a| + |b|..] == c
  {
  }

  lemma BufferOf(zm: seq<Byte>, c: Byte, items: seq<Item>)
    requires AllSized(items) && Counts(c, |items|) && zm == [c] + (Encoding(items) + [END])
    ensures Buffer(zm, items)
  {
    assert zm[1..] == Encoding(items) + [END];
  }

  /** Bytes that hold another item in place of item `i`. */
  lemma BufferReplace(zm: seq<Byte>, items: seq<Item>, i: nat, p: nat, it: Item, zm': seq<Byte>)
    requires Buffer(zm, items) && i < |items| && p == Offset(items, i) && Sized(it)
    requires p + ItemSize(items[i]) < |zm| && zm' == zm[..p] + ItemBytes(it) + zm[p + ItemSize(items[i])..]
    ensures Buffer(zm', items[i := it])
  {
    var parts := Parts(items);
    var parts' := parts[i := ItemBytes(it)];
    Around(zm, items, i, p);
    assert Parts(items[i := it]) == parts';
    FlatSplit(parts', i);
    assert parts'[..i] == parts[..i] && parts'[i + 1..] == parts[i + 1..];
    Regroup(zm[0], Flat(parts[..i]), ItemBytes(it), Flat(parts[i + 1..]), END);
    BufferOf(zm', zm[0], items[i := it]);
  }

  /** Bytes with one more item at the end. */
  lemma BufferAppend(zm: seq<Byte>, items: seq<Item>, it: Item, c: Byte, zm': seq<Byte>)
    requires Buffer(zm, items) && Sized(it) && Counts(c, |items| + 1)
    requires zm' == [c] + (zm[1..|zm| - 1] + ItemBytes(it) + [END])
    ensures Buffer(zm', items + [it])
  {
    assert Parts(items + [it]) == Parts(items) + [ItemBytes(it)];
    FlatConcat(Parts(items), [ItemBytes(it)]);
    FlatOne(ItemBytes(it));
    assert zm[1..|zm| - 1] == Encoding(items) by {
      assert zm[1..|zm| - 1] == zm[1..][..|zm| - 2];
    }
    BufferOf(zm', c, items + [it]);
  }

  lemma RemovedBytes(zm: seq<Byte>, p: nat, q: nat, c0: Byte, c: Byte, x: seq<Byte>, y: seq<Byte>)
    requires 0 < p <= q <= |zm| && zm[..p] == [c0] + x && zm[q..] == y + [END]
    ensures [c] + (zm[1..p] + zm[q..]) == [c] + ((x + y) + [END])
  {
    assert zm[1..p] == zm[..p][1..] == x;
    Assoc(x, y, [END as Byte]);
  }

  lemma RemovedParts(items: seq<Item>, i: nat)
    requires i < |items|
    ensures Encoding(items[..i] + items[i + 1..]) == Flat(Parts(items)[..i]) + Flat(Parts(items)[i + 1..])
  {
    assert Parts(items[..i] + items[i + 1..]) == Parts(items)[..i] + Parts(items)[i + 1..];
    FlatConcat(Parts(items)[..i], Parts(items)[i + 1..]);
  }

  /** Bytes without item `i`. */
  lemma BufferRemove(zm: seq<Byte>, items: seq<Item>, i: nat, p: nat, c: Byte, zm': seq<Byte>)
    requires Buffer(zm, items) && i < |items| && p == Offset(items, i) && Counts(c, |items| - 1)
    requires 0 < p && p + ItemSize(items[i]) < |zm| && zm' == [c] + (zm[1..p] + zm[p + ItemSize(items[i])..])
    ensures Buffer(zm', items[..i] + items[i + 1..])
  {
    Around(zm, items, i, p);
    RemovedParts(items, i);
    RemovedBytes(zm, p, p + ItemSize(items[i]), zm[0], c, Flat(Parts(items)[..i]), Flat(Parts(items)[i + 1..]));
    BufferOf(zm', c, items[..i] + items[i + 1..]);
  }

  // ----- what the operations do to the map

  lemma DenotesAppend(items: seq<Item>, m: map<Text, Text>, it: Item)
    requires Denotes(items, m) && it.key !in m
    ensures Denotes(items + [it], m[it.key := it.val])
  {
    var items', m' := items + [it], m[it.key := it.val];
    forall k | k in m'
      ensures Present(items', k)
    {
      if k == it.key {
        assert items'[|items|].key == k;
      } else {
        assert Present(items, k);
        var i :| 0 <= i < |items| && items[i].key == k;
        assert items'[i].key == k;
      }
    }
  }

  lemma DenotesReplace(items: seq<Item>, m: map<Text, Text>, i: nat, it: Item)
    requires Denotes(items, m) && i < |items| && it.key == items[i].key
    ensures Denotes(items[i := it], m[it.key := it.val])
  {
    var items', m' := items[i := it], m[it.key := it.val];
    forall j | 0 <= j < |items'|
      ensures items'[j].key in m' && m'[items'[j].key] == items'[j].val
    {
      if j != i {
        assert items[j].key != items[i].key;
      }
    }
    forall k | k in m'
      ensures Present(items', k)
    {
      assert k in m;
      var j :| 0 <= j < |items| && items[j].key == k;
      assert items'[j].key == k;
    }
  }

  lemma DenotesRemove(items: seq<Item>, m: map<Text, Text>, i: nat)
    requires Denotes(items, m) && i < |items|
    ensures Denotes(items[..i] + items[i + 1..], m - {items[i].key})
  {
    var items', m' := items[..i] + items[i + 1..], m - {items[i].key};
    forall j | 0 <= j < |items'|
      ensures items'[j].key in m' && m'[items'[j].key] == items'[j].val
    {
      var j' := if j < i then j else j + 1;
      assert items'[j] == items[j'] && items[j'].key != items[i].key;
    }
    forall k | k in m'
      ensures Present(items', k)
    {
      var j :| 0 <= j < |items| && items[j].key == k;
      assert items'[if j < i then j else j - 1].key == k;
    }
  }

  // ----- the buffer in memory

  /** The buffer holds items with distinct keys, which stand for `m`, in fewer than 2^32 bytes. */
  ghost predicate Valid(zm: seq<Byte>, items: seq<Item>, m: map<Text, Text>)
  {
    (forall i {:trigger Unpacked(i)} :: Unpacked(i) ==>
          Buffer(zm, items) && Denotes(items, m) && |zm| < Pow256(4)) == true
  }

  ghost predicate Unpacked(i: int) { true }

  lemma ValidItem(zm: seq<Byte>, items: seq<Item>, m: map<Text, Text>, i: nat, p: nat)
    requires Valid(zm, items, m) && i <= |items| && p == Offset(items, i)
    ensures p < |zm| && (zm[p] == END <==> i == |items|)
    ensures i < |items| ==> ItemAt(zm, p, items[i]) && Offset(items, i + 1) == p + ItemSize(items[i]) < |zm|
    ensures 0 < p
    ensures i == |items| ==> p == |zm| - 1
  {
    assert Unpacked(0);
    AtEnd(zm, items, i, p);
    EndOfBuffer(zm, items);
    if i < |items| {
      ItemInBuffer(zm, items, i, p);
      NextOffset(items, i);
      AtEnd(zm, items, i + 1, p + ItemSize(items[i]));
    }
  }

  /** zipmapRequiredLength */
  function RequiredLength(key: Text, val: Text): (n: nat)
    ensures n == |PairBytes(key, val, 0, [])|
  {
    var l := |key| + |val| + 3;
    var l1 := if |key| >= BIGLEN then l + 4 else l;
    if |val| >= BIGLEN then l1 + 4 else l1
  }

  /** The index of the item with the key, or the number of items. */
  ghost function Find(items: seq<Item>, key: Text): (i: nat)
    ensures i <= |items| && (i < |items| ==> items[i].key == key)
    ensures forall j :: 0 <= j < i ==> items[j].key != key
  {
    if items == [] || items[0].key == key then 0 else 1 + Find(items[1..], key)
  }

  lemma FindOnly(zm: seq<Byte>, items: seq<Item>, m: map<Text, Text>, key: Text)
    requires Valid(zm, items, m)
    ensures Find(items, key) < |items| <==> key in m
    ensures Find(items, key) < |items| ==> m[key] == items[Find(items, key)].val
    ensures forall j :: 0 <= j < |items| && items[j].key == key ==> j == Find(items, key)
  {
    assert Unpacked(0);
    if key in m {
      assert Present(items, key);
    }
  }

  ghost predicate Stood(i: int) { true }

  /** The pointer `p` is at item `i`; in view only where `Stood` is mentioned. */
  ghost predicate Stands(zm: seq<Byte>, items: seq<Item>, i: nat, p: nat)
  {
    (forall j {:trigger Stood(j)} :: Stood(j) ==> i <= |items| && p == Offset(items, i)) == true
  }

  lemma Stand(zm: seq<Byte>, items: seq<Item>, m: map<Text, Text>, i: nat, p: nat)
    requires Valid(zm, items, m) && i <= |items| && p == Offset(items, i)
    ensures Stands(zm, items, i, p) && p < |zm| && (zm[p] == END <==> i == |items|)
  {
    ValidItem(zm, items, m, i, p);
  }

  lemma StandNext(zm: seq<Byte>, items: seq<Item>, m: map<Text, Text>, i: nat, p: nat) returns (q: nat)
    requires Valid(zm, items, m) && Stands(zm, items, i, p) && i < |items|
    ensures ItemAt(zm, p, items[i]) && q == p + ItemSize(items[i])
    ensures Stands(zm, items, i + 1, q) && q < |zm| && (zm[q] == END <==> i + 1 == |items|)
  {
    assert Stood(0);
    ValidItem(zm, items, m, i, p);
    q := p + ItemSize(items[i]);
    Stand(zm, items, m, i + 1, q);
  }

  lemma StandsAt(zm: seq<Byte>, items: seq<Item>, i: nat, p: nat)
    requires Stands(zm, items, i, p)
    ensures i <= |items| && p == Offset(items, i)
  {
    assert Stood(0);
  }

  lemma StandEnd(zm: seq<Byte>, items: seq<Item>, m: map<Text, Text>, i: nat, p: nat)
    requires Valid(zm, items, m) && Stands(zm, items, i, p) && i == |items|
    ensures p == |zm| - 1
  {
    assert Stood(0);
    ValidItem(zm, items, m, i, p);
  }

  class Zipmap {
    var zm: seq<Byte>
    ghost var items: seq<Item>
    ghost var content: map<Text, Text>

    ghost predicate Ok()
      reads this
    {
      Valid(zm, items, content)
    }

    /** zipmapNew */
    constructor ()
      ensures Ok() && content == map[]
    {
      zm := [0, END];
      items, content := [], map[];
      new;
      assert Pow256(4) == 256 * Pow256(3);
    }

    /** One turn of the loop of zipmapLookupRaw: does the key match, and where does the next item begin? */
    method Inspect(p: nat, key: Text, ghost it: Item) returns (matches: bool, next: nat)
      requires ItemAt(zm, p, it)
      ensures matches == (it.key == key) && next == p + ItemSize(it)
    {
      assert Shown(0);
      var l := DecodeLength(zm, p);
      var llen := LenSize(l);
      matches := l == |key| && zm[p + llen..p + llen + l] == key;
      var q := p + llen + l;
      l := DecodeLength(zm, q);
      q := q + LenSize(l);
      var free := zm[q];
      next := q + l + 1 + free as int;
    }

    /** zipmapLookupRaw: the offset of the item or -1 for NULL; with `total`, also the size of the buffer. */
    method LookupRaw(key: Text, total: bool) returns (k: int, totlen: nat)
      requires Ok()
      ensures if key in content then Find(items, key) < |items| && k == Offset(items, Find(items, key)) else k == -1
      ensures total ==> totlen == |zm|
    {
      var p: nat := 1;
      k, totlen := -1, 0;
      ghost var i, f := 0, Find(items, key);
      ghost var goal := Offset(items, f);
      FindOnly(zm, items, content, key);
      Stand(zm, items, content, 0, p);
      while zm[p] != END
        invariant Stands(zm, items, i, p) && p < |zm| && i <= |items| && (zm[p] == END <==> i == |items|)
        invariant k == if f < i then goal else -1
        decreases |items| - i
      {
        ghost var _ := StandNext(zm, items, content, i, p);
        var matches, next := Inspect(p, key, items[i]);
        if k == -1 && matches {
          StandsAt(zm, items, i, p);
          if !total {
            return p, 0;
          }
          k := p;
        }
        p, i := next, i + 1;
      }
      StandEnd(zm, items, content, i, p);
      totlen := p + 1;
    }

    /** zipmapResize: zrealloc, whose new bytes are arbitrary, and the end byte. */
    method Resize(len: nat)
      requires 0 < len
      modifies `zm
      ensures |zm| == len && zm[len - 1] == END
      ensures forall j :: 0 <= j < len - 1 && j < old(|zm|) ==> zm[j] == old(zm)[j]
    {
      if len <= |zm| {
        zm := zm[..len];
      } else {
        assert |seq(len - |zm|, _ => 0 as Byte)| == len - |zm|;
        var more: seq<Byte> :| |more| == len - |zm|;
        zm := zm + more;
      }
      zm := zm[len - 1 := END];
    }

    /** Move the tail back so that `freelen` bytes at `p` become `reqlen`, more than before. */
    method Enlarge(p: nat, freelen: nat, reqlen: nat, zmlen: nat)
      requires zmlen == |zm| && p + freelen < |zm| && freelen < reqlen && zm[|zm| - 1] == END
      modifies `zm
      ensures |zm| == zmlen - freelen + reqlen && zm[..p] == old(zm)[..p] && zm[p + reqlen..] == old(zm)[p + freelen..]
    {
      Resize(zmlen - freelen + reqlen);
      var n := zmlen - (p + freelen + 1);
      assert zm[p + freelen..p + freelen + n] == old(zm)[p + freelen..p + freelen + n];
      zm := Put(zm, p + reqlen, zm[p + freelen..p + freelen + n]);
    }

    /** Move the tail to the front so that `freelen` bytes at `p` become `reqlen`, fewer than before. */
    method Shrink(p: nat, freelen: nat, reqlen: nat, zmlen: nat)
      requires zmlen == |zm| && p + freelen < |zm| && reqlen < freelen && zm[|zm| - 1] == END
      modifies `zm
      ensures |zm| == zmlen - freelen + reqlen && zm[..p] == old(zm)[..p] && zm[p + reqlen..] == old(zm)[p + freelen..]
    {
      var n := zmlen - (p + freelen + 1);
      zm := Put(zm, p + reqlen, zm[p + freelen..p + freelen + n]);
      Resize(zmlen - (freelen - reqlen));
    }

    /** memcpy into the buffer. */
    method PutBytes(p: nat, b: seq<Byte>)
      requires p + |b| <= |zm|
      modifies `zm
      ensures |zm| == old(|zm|) && Wrote(old(zm), p, b, zm)
    {
      zm := Put(zm, p, b);
    }

    /** memcpy of one piece after another. */
    method PutPieces(p: nat, pieces: seq<seq<Byte>>)
      requires p + |Chain(pieces)| <= |zm|
      modifies `zm
      ensures |zm| == old(|zm|) && Wrote(old(zm), p, Chain(pieces), zm)
      decreases |pieces|
    {
      if pieces == [] {
        return;
      }
      ghost var s0 := zm;
      PutBytes(p, pieces[0]);
      ghost var s1 := zm;
      PutPieces(p + |pieces[0]|, pieces[1..]);
      WroteBoth(s0, p, pieces[0], s1, Chain(pieces[1..]), zm);
    }

    /** Write key and value with a free count of `vempty`. */
    method WritePair(p: nat, key: Text, val: Text, vempty: Byte)
      requires p + RequiredLength(key, val) <= |zm|
      modifies `zm
      ensures |zm| == old(|zm|) && Wrote(old(zm), p, PairBytes(key, val, vempty, []), zm)
    {
      PairPieces(key, val, vempty);
      PutPieces(p, [LenBytes(|key|), key, LenBytes(|val|), [vempty], val]);
    }

    /** zipmapRawEntryLength */
    method RawEntryLength(p: nat, ghost it: Item) returns (n: nat)
      requires ItemAt(zm, p, it)
      ensures n == ItemSize(it)
    {
      assert Shown(0);
      var l := RawKeyLength(zm, p);
      n := l + RawValueLength(zm, p + l);
    }

    /** zipmapSet */
    method Set(key: Text, val: Text) returns (update: bool)
      requires Ok() && |zm| + RequiredLength(key, val) < Pow256(4)
      modifies this
      ensures Ok() && content == old(content)[key := val] && update == (key in old(content))
      ensures if update then |items| == old(|items|) && forall j :: 0 <= j < |items| && j != Find(old(items), key) ==>
            items[j] == old(items)[j]
              else |items| == old(|items|) + 1 && items[..old(|items|)] == old(items)
    {
      var reqlen := RequiredLength(key, val);
      var p, zmlen := LookupRaw(key, true);
      update := p != -1;
      if p == -1 {
        Insert(key, val, zmlen, reqlen);
      } else {
        Update(key, val, p, zmlen, reqlen);
      }
    }

    /** zipmapSet when the key is new: grow the buffer and write the pair at its end. */
    method Insert(key: Text, val: Text, zmlen: nat, reqlen: nat)
      requires Ok() && key !in content && zmlen == |zm| && reqlen == RequiredLength(key, val)
          && zmlen + reqlen < Pow256(4)
      modifies this
      ensures Ok() && content == old(content)[key := val] && items == old(items) + [Item(key, val, [])]
    {
      ghost var before := zm;
      Facts(zm, items, content);
      InsertBuffer(key, val, zmlen, reqlen);
      ValidInsert(before, items, content, key, val, zm[0], zm);
      items, content := items + [Item(key, val, [])], content[key := val];
    }

    /** The bytes of an insertion: the length byte counts one more, the pair comes before the end byte. */
    method InsertBuffer(key: Text, val: Text, zmlen: nat, reqlen: nat)
      requires zmlen == |zm| >= 2 && reqlen == RequiredLength(key, val)
      modifies `zm
      ensures |zm| == zmlen + reqlen
          && zm[0] as int == (if old(zm)[0] < BIGLEN then old(zm)[0] as int + 1 else old(zm)[0] as int)
      ensures zm == [zm[0]] + (old(zm)[1..zmlen - 1] + PairBytes(key, val, 0, []) + [END])
    {
      ghost var before := zm;
      Resize(zmlen + reqlen);
      var p := zmlen - 1;
      if zm[0] < BIGLEN {
        zm := zm[0 := zm[0] + 1];
      }
      ghost var gapped := zm;
      WritePair(p, key, val, 0);
      InsertBytes(before, gapped, PairBytes(key, val, 0, []), zm);
    }

    /** zipmapSet when the key exists: make the space fit, then overwrite the pair. */
    method Update(key: Text, val: Text, p: nat, zmlen: nat, reqlen: nat)
      requires Ok() && key in content && zmlen == |zm| && reqlen == RequiredLength(key, val)
          && zmlen + reqlen < Pow256(4)
      requires Find(items, key) < |items| && p == Offset(items, Find(items, key))
      modifies this
      ensures Ok() && content == old(content)[key := val] && |items| == old(|items|)
      ensures forall j :: 0 <= j < |items| && j != Find(old(items), key) ==> items[j] == old(items)[j]
    {
      ghost var before, i := zm, Find(items, key);
      ghost var it := items[i];
      BeforeUpdate(zm, items, content, i, p);
      var freelen := RawEntryLength(p, it);
      ghost var free := Rewrite(p, freelen, reqlen, zmlen, key, val);
      ValidUpdate(before, items, content, i, p, Item(key, val, free), zm);
      items, content := items[i := Item(key, val, free)], content[key := val];
    }

    /** The bytes of an update: everything before and after the item stays. */
    method Rewrite(p: nat, freelen: nat, reqlen: nat, zmlen: nat, key: Text, val: Text) returns (ghost free: Text)
      requires zmlen == |zm| && p + freelen < |zm| && zm[|zm| - 1] == END && reqlen == RequiredLength(key, val)
      modifies `zm
      ensures |free| < VALUE_MAX_FREE && |zm| <= zmlen + reqlen
      ensures zm == old(zm)[..p] + ItemBytes(Item(key, val, free)) + old(zm)[p + freelen..]
    {
      ghost var before := zm;
      var vempty := Fit(p, freelen, reqlen, zmlen);
      ghost var gapped := zm;
      WritePair(p, key, val, vempty);
      free := gapped[p + reqlen..p + reqlen + vempty as int];
      PairRest(key, val, vempty, free);
      UpdateBytes(before, gapped, p, freelen, PairBytes(key, val, vempty, []), free, zm);
    }

    /** Turn the `freelen` bytes at `p` into `reqlen` plus fewer than four free bytes. */
    method Fit(p: nat, freelen: nat, reqlen: nat, zmlen: nat) returns (vempty: Byte)
      requires zmlen == |zm| && p + freelen < |zm| && zm[|zm| - 1] == END
      modifies `zm
      ensures vempty as int < VALUE_MAX_FREE && |zm| == zmlen - freelen + reqlen + vempty as int <= zmlen + reqlen
      ensures zm[..p] == old(zm)[..p] && zm[p + reqlen + vempty as int..] == old(zm)[p + freelen..]
    {
      var free, len := freelen, zmlen;
      if free < reqlen {
        Enlarge(p, free, reqlen, len);
        len, free := len - free + reqlen, reqlen;
      }
      var empty := free - reqlen;
      if empty >= VALUE_MAX_FREE {
        Shrink(p, free, reqlen, len);
        vempty := 0;
      } else {
        vempty := empty;
      }
    }

    /** zipmapDel */
    method Del(key: Text) returns (deleted: bool)
      requires Ok()
      modifies this
      ensures Ok() && content == old(content) - {key} && deleted == (key in old(content))
      ensures if deleted then
                var i := Find(old(items), key);
                i < old(|items|) && items == old(items)[..i] + old(items)[i + 1..]
              else items == old(items) && zm == old(zm)
    {
      var p, zmlen := LookupRaw(key, true);
      deleted := p != -1;
      if deleted {
        FindOnly(zm, items, content, key);
        Remove(p, zmlen, Find(items, key));
      } else {
        assert content - {key} == content;
      }
    }

    method Remove(p: nat, zmlen: nat, ghost i: nat)
      requires Ok() && zmlen == |zm| && i < |items| && p == Offset(items, i)
      modifies this
      ensures Ok() && content == old(content) - {old(items)[i].key} && items == old(items)[..i] + old(items)[i + 1..]
    {
      ghost var before, it := zm, items[i];
      Facts(zm, items, content);
      ValidItem(zm, items, content, i, p);
      var freelen := RawEntryLength(p, it);
      RemoveBuffer(p, freelen, zmlen);
      ValidRemove(before, items, content, i, p, zm[0], zm);
      items, content := items[..i] + items[i + 1..], content - {it.key};
    }

    /** The bytes of a deletion: the tail moves to the front, the length byte counts one less. */
    method RemoveBuffer(p: nat, freelen: nat, zmlen: nat)
      requires zmlen == |zm| && 0 < p && p + freelen < |zm| && zm[|zm| - 1] == END && 0 != zm[0]
      modifies `zm
      ensures |zm| == zmlen - freelen
      ensures zm[0] as int == if old(zm)[0] < BIGLEN then old(zm)[0] as int - 1 else old(zm)[0] as int
      ensures zm == [zm[0]] + (old(zm)[1..p] + old(zm)[p + freelen..])
    {
      ghost var before := zm;
      var n := zmlen - (p + freelen + 1);
      zm := Put(zm, p, zm[p + freelen..p + freelen + n]);
      ghost var moved := zm;
      Resize(zmlen - freelen);
      if zm[0] < BIGLEN {
        zm := zm[0 := zm[0] - 1];
      }
      RemoveBytes(before, moved, p, freelen, zm);
    }

    /** zipmapGet */
    method Get(key: Text) returns (found: bool, val: Text)
      requires Ok()
      ensures found == (key in content) && (found ==> val == content[key])
    {
      var p, _ := LookupRaw(key, false);
      if p == -1 {
        return false, [];
      }
      ghost var i := Find(items, key);
      FindOnly(zm, items, content, key);
      ValidItem(zm, items, content, i, p);
      val := ValueOf(p, items[i]);
      return true, val;
    }

    /** The value of the item at `p`. */
    method ValueOf(p: nat, ghost it: Item) returns (val: Text)
      requires ItemAt(zm, p, it)
      ensures val == it.val
    {
      assert Shown(0);
      var q := p + RawKeyLength(zm, p);
      var vlen := DecodeLength(zm, q);
      var start := q + LenSize(vlen) + 1;
      val := zm[start..start + vlen];
    }

    /** zipmapNext: key and value of the item at `p` and the place of the next, or the end. */
    method Next(p: nat, ghost i: nat) returns (more: bool, key: Text, val: Text, next: nat)
      requires Ok() && i <= |items| && p == Offset(items, i)
      ensures more == (i < |items|)
      ensures more ==> key == items[i].key && val == items[i].val && next == Offset(items, i + 1)
    {
      ValidItem(zm, items, content, i, p);
      more, key, val, next := zm[p] != END, [], [], p;
      if more {
        key, val, next := ReadItem(p, items[i]);
      }
    }

    method ReadItem(p: nat, ghost it: Item) returns (key: Text, val: Text, next: nat)
      requires ItemAt(zm, p, it)
      ensures key == it.key && val == it.val && next == p + ItemSize(it)
    {
      assert Shown(0);
      var klen := DecodeLength(zm, p);
      key := zm[p + LenSize(klen)..p + LenSize(klen) + klen];
      var q := p + RawKeyLength(zm, p);
      var vlen := DecodeLength(zm, q);
      val := zm[q + 1 + LenSize(vlen)..q + 1 + LenSize(vlen) + vlen];
      next := q + RawValueLength(zm, q);
    }

    /** zipmapLen: the length byte when it says something, else a count, stored again when small. */
    method Len() returns (len: nat)
      requires Ok()
      modifies `zm
      ensures Ok() && len == |items| == |content|
      ensures |zm| == old(|zm|) && forall j :: 0 < j < |zm| ==> zm[j] == old(zm)[j]
    {
      Facts(zm, items, content);
      if zm[0] < BIGLEN {
        len := zm[0];
      } else {
        var p := 1;
        len := 0;
        while true
          invariant zm == old(zm) && len <= |items| && p == Offset(items, len)
          decreases |items| - len
        {
          var more, _, _, next := Next(p, len);
          if !more {
            break;
          }
          p, len := next, len + 1;
        }
        if len < BIGLEN {
          Recount(zm, items, content, len);
          zm := zm[0 := len];
        }
      }
    }
  }

  lemma Facts(zm: seq<Byte>, items: seq<Item>, m: map<Text, Text>)
    requires Valid(zm, items, m)
    ensures |zm| >= 2 && zm[|zm| - 1] == END && |zm| < Pow256(4) && |items| == |m|
    ensures Counts(zm[0], |items|)
  {
    assert Unpacked(0);
    EndOfBuffer(zm, items);
    CountsKeys(items, m);
  }

  lemma BeforeUpdate(zm: seq<Byte>, items: seq<Item>, m: map<Text, Text>, i: nat, p: nat)
    requires Valid(zm, items, m) && i < |items| && p == Offset(items, i)
    ensures ItemAt(zm, p, items[i]) && p + ItemSize(items[i]) < |zm| && zm[|zm| - 1] == END
  {
    Facts(zm, items, m);
    ValidItem(zm, items, m, i, p);
  }

  /** The number of items is the number of keys. */
  lemma {:induction false} CountsKeys(items: seq<Item>, m: map<Text, Text>)
    requires Denotes(items, m)
    ensures |items| == |m|
  {
    if items == [] {
      assert m.Keys == {} by {
        assert forall k :: k in m ==> Present(items, k);
      }
    } else {
      var n := |items| - 1;
      DenotesRemove(items, m, n);
      assert items[..n] + items[n + 1..] == items[..n];
      CountsKeys(items[..n], m - {items[n].key});
      assert m.Keys == (m - {items[n].key}).Keys + {items[n].key};
    }
  }

  lemma Recount(zm: seq<Byte>, items: seq<Item>, m: map<Text, Text>, n: Byte)
    requires Valid(zm, items, m) && n == |items| < BIGLEN && |zm| > 0
    ensures Valid(zm[0 := n], items, m) && zm[0 := n][1..] == zm[1..]
  {
    assert Unpacked(0);
    assert zm[0 := n][1..] == zm[1..];
  }

  ghost predicate Spelled(i: int) { true }

  /** `r` is `s` with `b` written at `p`; the details come into view where `Spelled` is mentioned. */
  ghost predicate Wrote(s: seq<Byte>, p: nat, b: seq<Byte>, r: seq<Byte>)
  {
    (forall i {:trigger Spelled(i)} :: Spelled(i) ==> p + |b| <= |s| && r == Put(s, p, b)) == true
  }

  lemma WroteBoth(s: seq<Byte>, p: nat, a: seq<Byte>, r: seq<Byte>, b: seq<Byte>, t: seq<Byte>)
    requires Wrote(s, p, a, r) && Wrote(r, p + |a|, b, t)
    ensures Wrote(s, p, a + b, t)
  {
    assert Spelled(0);
    PutPut(s, p, a, b);
  }

  function Chain(pieces: seq<seq<Byte>>): seq<Byte>
  {
    if pieces == [] then [] else pieces[0] + Chain(pieces[1..])
  }

  lemma PairPieces(key: Text, val: Text, f: Byte)
    ensures Chain([LenBytes(|key|), key, LenBytes(|val|), [f], val]) == PairBytes(key, val, f, [])
  {
    var k, v := LenBytes(|key|), LenBytes(|val|);
    ChainOf([], val, []);
    ChainOf([val], [f], val + []);
    ChainOf([[f], val], v, [f] + (val + []));
    ChainOf([v, [f], val], key, v + ([f] + (val + [])));
    ChainOf([key, v, [f], val], k, key + (v + ([f] + (val + []))));
  }

  lemma ChainOf(rest: seq<seq<Byte>>, x: seq<Byte>, c: seq<Byte>)
    requires Chain(rest) == c
    ensures Chain([x] + rest) == x + c
  {
    assert ([x] + rest)[1..] == rest;
  }

  lemma InsertBytes(before: seq<Byte>, gapped: seq<Byte>, pair: seq<Byte>, after: seq<Byte>)
    requires |before| >= 2 && |gapped| == |before| + |pair| && gapped[|gapped| - 1] == END
    requires forall j :: 1 <= j < |before| - 1 ==> gapped[j] == before[j]
    requires Wrote(gapped, |before| - 1, pair, after)
    ensures after == [gapped[0]] + (before[1..|before| - 1] + pair + [END])
  {
    assert Spelled(0);
    assert gapped[..|before| - 1] == [gapped[0]] + before[1..|before| - 1];
    assert gapped[|before| - 1 + |pair|..] == [END];
  }

  lemma UpdateBytes(before: seq<Byte>, gapped: seq<Byte>, p: nat, size: nat, pair: seq<Byte>, free: seq<Byte>,
      after: seq<Byte>)
    requires p + size <= |before| && p + |pair| + |free| <= |gapped| && free == gapped[p + |pair|..p + |pair| + |free|]
    requires gapped[..p] == before[..p] && gapped[p + |pair| + |free|..] == before[p + size..]
    requires Wrote(gapped, p, pair, after)
    ensures after == before[..p] + (pair + free) + before[p + size..]
  {
    assert Spelled(0);
    assert gapped[p + |pair|..] == free + gapped[p + |pair| + |free|..];
  }

  lemma RemoveBytes(before: seq<Byte>, moved: seq<Byte>, p: nat, size: nat, after: seq<Byte>)
    requires 0 < p && p + size < |before| && before[|before| - 1] == END
    requires moved == Put(before, p, before[p + size..|before| - 1])
    requires |after| == |before| - size && after[|after| - 1] == END
        && forall j :: 1 <= j < |after| - 1 ==> after[j] == moved[j]
    ensures after == [after[0]] + (before[1..p] + before[p + size..])
  {
    var tail := before[p + size..|before| - 1];
    assert before[p + size..] == tail + [END];
    assert moved[..p + |tail|] == before[..p] + tail;
    assert after[1..|after| - 1] == before[1..p] + tail by {
      assert forall j :: 1 <= j < |after| - 1 ==> after[j] == (before[..p] + tail)[j];
    }
    assert after == [after[0]] + after[1..|after| - 1] + [END];
  }

  lemma PairRest(key: Text, val: Text, f: Byte, rest: Text)
    ensures PairBytes(key, val, f, []) + rest == PairBytes(key, val, f, rest)
  {
    var k, v := LenBytes(|key|), LenBytes(|val|);
    assert val + [] == val;
    Assoc([f], val, rest);
    Assoc(v, [f] + val, rest);
    Assoc(key, v + ([f] + val), rest);
    Assoc(k, key + (v + ([f] + val)), rest);
  }

  lemma ValidInsert(zm: seq<Byte>, items: seq<Item>, m: map<Text, Text>, key: Text, val: Text, c: Byte, zm': seq<Byte>)
    requires Valid(zm, items, m) && key !in m && |zm| >= 2 && |zm'| < Pow256(4) && |key| < Pow256(4)
        && |val| < Pow256(4)
    requires c as int == if zm[0] < BIGLEN then zm[0] as int + 1 else zm[0] as int
    requires zm' == [c] + (zm[1..|zm| - 1] + ItemBytes(Item(key, val, [])) + [END])
    ensures Valid(zm', items + [Item(key, val, [])], m[key := val])
  {
    assert Unpacked(0);
    BufferAppend(zm, items, Item(key, val, []), c, zm');
    DenotesAppend(items, m, Item(key, val, []));
  }

  lemma ValidUpdate(zm: seq<Byte>, items: seq<Item>, m: map<Text, Text>, i: nat, p: nat, it: Item, zm': seq<Byte>)
    requires Valid(zm, items, m) && i < |items| && p == Offset(items, i) && Sized(it) && it.key == items[i].key
        && |zm'| < Pow256(4)
    requires p + ItemSize(items[i]) < |zm| && zm' == zm[..p] + ItemBytes(it) + zm[p + ItemSize(items[i])..]
    ensures Valid(zm', items[i := it], m[it.key := it.val])
  {
    assert Unpacked(0);
    BufferReplace(zm, items, i, p, it, zm');
    DenotesReplace(items, m, i, it);
  }

  lemma ValidRemove(zm: seq<Byte>, items: seq<Item>, m: map<Text, Text>, i: nat, p: nat, c: Byte, zm': seq<Byte>)
    requires Valid(zm, items, m) && i < |items| && p == Offset(items, i) && |zm'| < Pow256(4) && |zm| >= 2
    requires c as int == if zm[0] < BIGLEN then zm[0] as int - 1 else zm[0] as int
    requires 0 < p && p + ItemSize(items[i]) < |zm| && zm' == [c] + (zm[1..p] + zm[p + ItemSize(items[i])..])
    ensures Valid(zm', items[..i] + items[i + 1..], m - {items[i].key})
  {
    assert Unpacked(0);
    BufferRemove(zm, items, i, p, c, zm');
    DenotesRemove(items, m, i);
  }
}
