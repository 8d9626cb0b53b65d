/**
 * How far LZF compresses an input of equal octets: two literals, and then copies as long as the
 * format allows, whatever the hash table held before.
 */
module Repeats {
  import opened Bytes
  import opened Lzf

  predicate Equal(src: seq<Byte>)
  {
    forall i :: 0 <= i < |src| ==> src[i] == src[0]
  }

  lemma SameSlot(src: seq<Byte>, p: nat, q: nat)
    requires Equal(src) && p + 2 < |src| && q + 2 < |src|
    ensures Slot(src, p) == Slot(src, q)
  {
  }

  /** The position entered last is what every search finds. */
  lemma LastIsFound(src: seq<Byte>, h0: seq<int>, entries: seq<nat>, q: nat, p: nat)
    requires Equal(src) && |h0| == HSIZE && entries != [] && entries[|entries| - 1] == q
    requires q + 2 < |src| && p + 2 < |src|
    ensures LastEntry(src, h0, entries, Slot(src, p)) == q
  {
    SameSlot(src, q, p);
  }

  lemma AlwaysUsable(src: seq<Byte>, ref: nat, p: nat)
    requires Equal(src) && 0 < ref < p <= ref + MAX_OFF && p + 4 < |src|
    ensures Usable(src, ref, p)
  {
  }

  /** A copy goes on to the limit, and so over 264 octets or to the last two. */
  lemma CopyToLimit(src: seq<Byte>, ref: nat, p: nat, len: nat)
    requires Equal(src) && p + 4 < |src| && Longest(src, ref, p, len)
    ensures len <= MAX_REF && (len == MAX_REF || p + len >= |src| - 2)
  {
    assert len == Limit(src, p);
  }

  lemma PushLength(toks: seq<Token>)
    requires toks != [] && WellFormed(toks)
    ensures var init, t := toks[..|toks| - 1], toks[|toks| - 1];
            && WellFormed(init) && Fits(t) && |Encoding(toks)| == |Encoding(init)| + |TokenBytes(t)|
            && |TokenBytes(t)| <= (if t.Literals? then 1 + |t.run| else 3)
            && |Text(toks)| == |Text(init)| + (if t.Literals? then |t.run| else t.count)
  {
  }

  /** The shapes of the tokens chosen so far, after `j` copies. */
  ghost predicate Shaped(src: seq<Byte>, toks: seq<Token>, j: nat, k: nat, size: nat)
  {
    if toks == [] then j == k == size == 0
    else
      var t := toks[|toks| - 1];
      if t.Copy? then
        j > 0 && size <= 3 + 3 * j && 264 * (j - 1) + 2 < k && (k >= |src| - 2 || k == 264 * j + 2)
      else if j == 0 then
        |toks| == 1 && k == |t.run| <= 6 && (|src| > 6 ==> k <= 2) && size <= k + 1
      else
        |t.run| <= 4 && |t.run| <= k && 264 * (j - 1) + 2 < k && size <= 3 + 3 * j + 1 + |t.run|
        && k - |t.run| + 4 >= |src|
  }

  lemma {:induction false} EqualShaped(src: seq<Byte>, h0: seq<int>, toks: seq<Token>) returns (j: nat)
    requires Equal(src) && |h0| == HSIZE && Greedy(src, h0, toks) == true
    ensures WellFormed(toks) == true
    ensures Shaped(src, toks, j, |Text(toks)|, |Encoding(toks)|) == true && |Text(toks)| <= |src|
  {
    GreedyWellFormed(src, h0, toks);
    j := 0;
    if toks != [] {
      var init, t := toks[..|toks| - 1], toks[|toks| - 1];
      j := EqualShaped(src, h0, init);
      PushLength(toks);
      var k := |Text(init)|;
      if t.Literals? {
        LiteralsShaped(src, h0, init, t, j, k);
      } else {
        CopyShaped(src, h0, init, t, j, k);
        j := j + 1;
      }
    }
  }

  /** After a copy the search goes on from its last octet. */
  lemma AfterCopy(src: seq<Byte>, h0: seq<int>, toks: seq<Token>, k: nat)
    requires Equal(src) && |h0| == HSIZE && Greedy(src, h0, toks) && toks != [] && toks[|toks| - 1].Copy?
    requires k == |Text(toks)| && k + 4 < |src|
    ensures k > 1 && LastEntry(src, h0, Entries(src, toks), Slot(src, k)) == k - 1
  {
    GreedyWellFormed(src, h0, toks);
    PushLength(toks);
    var entries := Entries(src, toks);
    assert entries[|entries| - 1] == k - 1;
    LastIsFound(src, h0, entries, k - 1, k);
  }

  lemma LiteralsShaped(src: seq<Byte>, h0: seq<int>, init: seq<Token>, t: Token, j: nat, k: nat)
    requires Equal(src) && |h0| == HSIZE && Greedy(src, h0, init) && t.Literals? && Fits(t) && Chosen(src, h0, init, t)
    requires WellFormed(init) && k == |Text(init)| && Shaped(src, init, j, k, |Encoding(init)|) == true
    ensures init == [] || (init[|init| - 1].Copy? && k + 4 >= |src|)
    ensures k + |t.run| <= |src| && (init == [] && |src| > 6 ==> |t.run| <= 2)
  {
    var entries := Entries(src, init);
    if init == [] && |src| > 6 && |t.run| > 2 {
      assert entries + RunEntries(src, 0, 2) == [0, 1];
      LastIsFound(src, h0, [0, 1], 1, 2);
      OffersMatch(src, h0, entries, 0, 2);
    } else if init != [] && init[|init| - 1].Copy? && k + 4 < |src| {
      assert entries + RunEntries(src, k, k) == entries;
      AfterCopy(src, h0, init, k);
      OffersMatch(src, h0, entries, k, k);
    }
  }

  /** The octet before, if it was entered, offers a match. */
  lemma OffersMatch(src: seq<Byte>, h0: seq<int>, entries: seq<nat>, p: nat, q: nat)
    requires Equal(src) && |h0| == HSIZE && 1 < q && q + 4 < |src|
    requires LastEntry(src, h0, entries + RunEntries(src, p, q), Slot(src, q)) == q - 1
    ensures !NoMatch(src, h0, entries, p, q)
  {
    AlwaysUsable(src, q - 1, q);
  }

  lemma CopyShaped(src: seq<Byte>, h0: seq<int>, init: seq<Token>, t: Token, j: nat, k: nat)
    requires Equal(src) && |h0| == HSIZE && Greedy(src, h0, init) && t.Copy? && Chosen(src, h0, init, t)
    requires WellFormed(init) && k == |Text(init)| && Shaped(src, init, j, k, |Encoding(init)|) == true
    ensures |Encoding(init)| <= 3 + 3 * j && k == 264 * j + 2
    ensures t.count == 264 || k + t.count >= |src| - 2
    ensures 0 < t.count && k + t.count <= |src|
  {
    var ref := LastEntry(src, h0, Entries(src, init), Slot(src, k));
    CopyToLimit(src, ref, k, t.count);
  }

  lemma ShapedSize(src: seq<Byte>, toks: seq<Token>, j: nat, k: nat, size: nat)
    requires Shaped(src, toks, j, k, size) == true && k <= |src|
    ensures size <= 8 + 3 * ((|src| + 263) / 264)
  {
    Blocks(|src|, j);
  }

  /** The tokens chosen for any part of `n` equal octets take at most 8 bytes and 3 for every 264 octets. */
  lemma EqualShort(src: seq<Byte>, h0: seq<int>, toks: seq<Token>)
    requires Equal(src) && |h0| == HSIZE && Greedy(src, h0, toks) == true
    ensures WellFormed(toks) == true && |Encoding(toks)| <= 8 + 3 * ((|src| + 263) / 264)
  {
    var j := EqualShaped(src, h0, toks);
    ShapedSize(src, toks, j, |Text(toks)|, |Encoding(toks)|);
  }

  lemma Blocks(n: nat, j: nat)
    requires j == 0 || 264 * (j - 1) < n
    ensures j <= (n + 263) / 264
  {
  }

  /** Equal octets are compressed so far, from any table, as soon as there is room for that. */
  method CompressEqual(src: seq<Byte>, dst: array<Byte>, outLen: nat, htab: array<int>) returns (n: nat)
    requires htab.Length == HSIZE && outLen < dst.Length && Equal(src)
    modifies dst, htab
    ensures n <= 8 + 3 * ((|src| + 263) / 264)
    ensures src != [] && outLen > 12 + 3 * ((|src| + 263) / 264) ==> n > 0 && Expand(dst[..n], [], |src|) == Plain(src)
  {
    ghost var h0 := htab[..];
    ghost var toks;
    n, toks := Compress(src, dst, outLen, htab);
    EqualShort(src, h0, toks);
    assert Opened(0) && Counted(0);
  }
}
