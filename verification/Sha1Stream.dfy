/** SHA1Init, SHA1Update and SHA1Final: a context that takes the message in pieces. */
module Sha1Stream {
  import opened Bits
  import opened SecureHash
  import opened Sha1
  import opened Concat

  const TWO64: nat := 0x1_0000_0000_0000_0000

  ghost predicate Opened(i: int) { true }

  ghost predicate Looked(i: int) { true }

  /** `h` is the hash value after the whole blocks of `m`. */
  ghost predicate Hashed(h: Regs, m: seq<Octet>)
  {
    (forall i {:trigger Looked(i)} :: Looked(i) ==> h == Absorb(INITIAL, m)) == true
  }

  lemma HashedNow(h: Regs, m: seq<Octet>)
    requires Hashed(h, m)
    ensures h == Absorb(INITIAL, m)
  {
    assert Looked(0);
  }

  /** One more block. */
  lemma HashedMore(h: Regs, a: seq<Octet>, b: Block, m: seq<Octet>)
    requires Hashed(h, a) && |a| % 64 == 0 && m == a + b
    ensures Hashed(Compress(h, b), m)
  {
    HashedNow(h, a);
    AbsorbBlock(INITIAL, a, b, m);
  }

  /** Bytes after the last whole block do not matter. */
  lemma HashedRest(h: Regs, m: seq<Octet>, k: nat)
    requires k <= |m| < k + 64 && k % 64 == 0
    ensures Hashed(h, m) <==> Hashed(h, m[..k])
  {
    AbsorbWhole(INITIAL, m, k);
  }

  /** What a context holds after the message `m`: hash value, live part of the buffer and bit count. */
  ghost predicate Holds(h: Regs, low: nat, high: nat, buf: seq<Octet>, m: seq<Octet>)
  {
    (forall i {:trigger Opened(i)} :: Opened(i) ==>
      && Hashed(h, m) && Counts(low, high, 8 * |m|)
      && |buf| == 64 && buf[..|m| % 64] == m[|m| - |m| % 64..]) == true
  }

  /** The 64-bit count, in two words. */
  ghost predicate Counts(low: nat, high: nat, bits: nat)
  {
    low < TWO32 && high < TWO32 && low + TWO32 * high == bits % TWO64
  }

  lemma HoldsNow(h: Regs, low: nat, high: nat, buf: seq<Octet>, m: seq<Octet>)
    requires Holds(h, low, high, buf, m)
    ensures Hashed(h, m) && Counts(low, high, 8 * |m|) && |buf| == 64 && buf[..|m| % 64] == m[|m| - |m| % 64..]
  {
    assert Opened(0);
  }

  lemma TakeDone(h: Regs, low: nat, high: nat, buf: seq<Octet>, m: seq<Octet>, r: nat)
    requires Hashed(h, m) && Counts(low, high, 8 * |m|) && |buf| == 64 && r == |m| % 64 && buf[..r] == m[|m| - r..]
    ensures Holds(h, low, high, buf, m)
  {
  }

  // ----- the bit count

  lemma Quotient64(a: nat, q: nat, r: nat)
    requires a == q * TWO64 + r && r < TWO64
    ensures a % TWO64 == r
  {
    QuotientUnique(a, TWO64, q, r);
  }

  /** Adding to the low word with a carry, and the bits shifted out to the high word, adds to the count. */
  lemma CountUp(low: nat, high: nat, bits: nat, len: nat, low': nat, carried: nat, high': nat)
    requires Counts(low, high, bits) && len < TWO32
    requires low' == (low + (8 * len) % TWO32) % TWO32
    requires carried == if low' < low then (high + 1) % TWO32 else high
    requires high' == (carried + len / 0x2000_0000) % TWO32
    ensures Counts(low', high', bits + 8 * len)
  {
    var c := if low' < low then 1 else 0;
    LowWord(low, len, low');
    HighWord(high, c, len / 0x2000_0000, carried, high');
    var d := if high + c + len / 0x2000_0000 >= TWO32 then 1 else 0;
    assert bits % TWO64 + 8 * len == low' + TWO32 * (high' + TWO32 * d);
    Quotient64(bits + 8 * len, bits / TWO64 + d, low' + TWO32 * high');
  }

  lemma LowWord(low: nat, len: nat, low': nat)
    requires low < TWO32 && low' == (low + (8 * len) % TWO32) % TWO32
    ensures low + 8 * len == low' + TWO32 * (len / 0x2000_0000) + (if low' < low then TWO32 else 0)
  {
    var part := (8 * len) % TWO32;
    assert 8 * len == TWO32 * (len / 0x2000_0000) + part;
  }

  lemma HighWord(high: nat, c: nat, more: nat, carried: nat, high': nat)
    requires high < TWO32 && c <= 1 && more < 8
    requires carried == if c == 1 then (high + 1) % TWO32 else high
    requires high' == (carried + more) % TWO32
    ensures high + c + more == high' + (if high + c + more >= TWO32 then TWO32 else 0)
  {
  }

  lemma LowPart(low: nat, high: nat, n: nat)
    requires Counts(low, high, 8 * n)
    ensures low / 8 % 64 == n % 64
  {
    var d := (8 * n) / TWO64;
    assert 8 * n == low + TWO32 * high + TWO64 * d;
    Eighth(n, low, 0x80_0000 * high + 0x80_0000_0000_0000 * d);
  }

  lemma Eighth(n: nat, low: nat, e: nat)
    requires 8 * n == low + 512 * e
    ensures low / 8 % 64 == n % 64
  {
    assert n == low / 8 + 64 * e;
  }

  lemma CountsUnique(low: nat, high: nat, low': nat, high': nat, bits: nat)
    requires Counts(low, high, bits) && Counts(low', high', bits)
    ensures low == low' && high == high'
  {
  }

  /** The position in the buffer, from the low word of the count. */
  lemma Position(low: nat, high: nat, n: nat)
    requires Counts(low, high, 8 * n)
    ensures And(Shr(low, 3), 63) == n % 64
  {
    LowPart(low, high, n);
    ShiftMask(low);
  }

  lemma ShiftMask(low: nat)
    ensures Shr(low, 3) == low / 8 && And(Shr(low, 3), 63) == low / 8 % 64
  {
    assert Pow2(3) == 8 && Pow2(6) == 64;
    AndMask(Shr(low, 3), 6);
  }

  /** The test of SHA1Final for the last eight bytes of a block. */
  lemma Mask504(x: nat)
    ensures And(x, 504) == 8 * And(x / 8, 63)
  {
    assert And(x, 504) == 2 * And(x / 2, 252);
    assert And(x / 2, 252) == 2 * And(x / 4, 126);
    assert And(x / 4, 126) == 2 * And(x / 8, 63);
  }

  lemma LastEight(low: nat, high: nat, n: nat)
    requires Counts(low, high, 8 * n)
    ensures And(low, 504) == 448 <==> n % 64 == 56
  {
    Mask504(low);
    Position(low, high, n);
    ShiftMask(low);
  }

  /** The eight bytes of the count are the length of section 4. */
  lemma CountBytes(low: nat, high: nat, bits: nat)
    requires Counts(low, high, bits)
    ensures NumberBytes(high) + NumberBytes(low) == LengthBytes(bits)
  {
    TwoWords(low, high, bits, bits / TWO64);
  }

  lemma TwoWords(low: nat, high: nat, bits: nat, d: nat)
    requires low < TWO32 && high < TWO32 && bits == low + TWO32 * high + TWO64 * d
    ensures bits % TWO32 == low && bits / TWO32 % TWO32 == high
  {
    QuotientUnique(bits, TWO32, high + TWO32 * d, low);
    QuotientUnique(high + TWO32 * d, TWO32, d, high);
  }

  // ----- blocks across calls

  lemma WholePart(n: nat, r: nat)
    requires r == n % 64
    ensures n >= r && (n - r) % 64 == 0 && (n + (64 - r)) % 64 == 0
  {
  }

  /** The live buffer and the first new bytes make a block. */
  lemma FirstBlock(h: Regs, m: seq<Octet>, d: seq<Octet>, r: nat, b: seq<Octet>)
    requires Hashed(h, m) && r == |m| % 64 && r + |d| == 64 && b == m[|m| - r..] + d
    ensures |b| == 64 && Hashed(Compress(h, b), m + d) && (|m| + |d|) % 64 == 0
  {
    WholePart(|m|, r);
    JoinBlock(m, d, |m| - r, b);
    HashedRest(h, m, |m| - r);
    HashedMore(h, m[..|m| - r], b, m + d);
  }

  lemma JoinBlock(m: seq<Octet>, d: seq<Octet>, k: nat, b: seq<Octet>)
    requires k <= |m| && b == m[k..] + d
    ensures m + d == m[..k] + b
  {
  }

  lemma NextBlock(h: Regs, m: seq<Octet>, data: seq<Octet>, i: nat, b: Block)
    requires i + 64 <= |data| && Hashed(h, m + data[..i]) && (|m| + i) % 64 == 0 && b == data[i..i + 64]
    ensures Hashed(Compress(h, b), m + data[..i + 64])
  {
    assert m + data[..i + 64] == (m + data[..i]) + b;
    HashedMore(h, m + data[..i], b, m + data[..i + 64]);
  }

  lemma Remainder(n: nat, k: nat)
    requires n % 64 == 0 && k < 64
    ensures (n + k) % 64 == k
  {
  }

  /** What is left after the whole blocks stays in the buffer. */
  lemma Leftover(h: Regs, m: seq<Octet>, data: seq<Octet>, i: nat)
    requires i <= |data| < i + 64 && (|m| + i) % 64 == 0 && Hashed(h, m + data[..i])
    ensures Hashed(h, m + data) && |m + data| % 64 == |data| - i && (m + data)[|m| + i..] == data[i..]
  {
    var k := |m| + i;
    Remainder(k, |data| - i);
    assert (m + data)[..k] == m + data[..i];
    HashedRest(h, m + data, k);
  }

  /** Nothing new is absorbed while the block is not full. */
  lemma NotYet(h: Regs, m: seq<Octet>, data: seq<Octet>, r: nat)
    requires r == |m| % 64 && r + |data| < 64 && Hashed(h, m)
    ensures Hashed(h, m + data) && |m + data| % 64 == r + |data| && (m + data)[|m| - r..] == m[|m| - r..] + data
  {
    var k := |m| - r;
    WholePart(|m|, r);
    Remainder(k, r + |data|);
    assert (m + data)[..k] == m[..k];
    HashedRest(h, m, k);
    HashedRest(h, m + data, k);
  }

  /** Two contexts that took the same message agree in hash value, count and live buffer. */
  lemma SplitsAgree(h: Regs, low: nat, high: nat, buf: seq<Octet>, h': Regs, low': nat, high': nat, buf': seq<Octet>,
      m: seq<Octet>)
    requires Holds(h, low, high, buf, m) && Holds(h', low', high', buf', m)
    ensures h == h' && low == low' && high == high' && |buf| == |buf'| == 64 && buf[..|m| % 64] == buf'[..|m| % 64]
  {
    HoldsNow(h, low, high, buf, m);
    HoldsNow(h', low', high', buf', m);
    CountsUnique(low, high, low', high', 8 * |m|);
    HashedNow(h, m);
    HashedNow(h', m);
  }

  /** The whole buffer after an update, dead bytes included, from position `r` of it. */
  function BufferAfter(buf: seq<Octet>, r: nat, data: seq<Octet>): (after: seq<Octet>)
    requires |buf| == 64 && r < 64
    ensures |after| == 64
  {
    if r + |data| < 64 then Put(buf, r, data)
    else Put(buf[..r] + data[..64 - r], 0, data[|data| - (r + |data|) % 64..])
  }

  /** The dead bytes depend on the split: two blocks at once leave the first one behind, one by one the second. */
  lemma DeadBytesDiffer(buf: seq<Octet>, data: seq<Octet>)
    requires |buf| == 64 && |data| == 128
    ensures BufferAfter(buf, 0, data) == data[..64]
    ensures BufferAfter(BufferAfter(buf, 0, data[..64]), 0, data[64..]) == data[64..]
  {
  }

  /** The buffer of an update that completes a block: the rest of the data, then what the first block left. */
  lemma BufferFull(buf: seq<Octet>, r: nat, data: seq<Octet>, n: nat)
    requires |buf| == 64 && r < 64 <= r + |data| && n == (r + |data|) % 64
    ensures n <= |data| && BufferAfter(buf, r, data) == data[|data| - n..] + (buf[..r] + data[..64 - r])[n..]
  {
    RestFits(r, |data|, n);
    PutAtStart(buf[..r] + data[..64 - r], data[|data| - n..]);
  }

  lemma RestFits(r: nat, len: nat, n: nat)
    requires r < 64 <= r + len && n == (r + len) % 64
    ensures n <= len
  {
  }

  lemma PutAtStart(b: seq<Octet>, src: seq<Octet>)
    requires |src| <= |b|
    ensures Put(b, 0, src) == src + b[|src|..]
  {
  }

  lemma Positions(r: nat, a: nat, b: nat, k: nat, n: nat)
    requires k == (r + a) % 64 && n == (r + a + b) % 64
    ensures n == (k + b) % 64
  {
  }

  /** The first piece completes no block. */
  lemma SplitEarly(buf: seq<Octet>, r: nat, a: seq<Octet>, b: seq<Octet>, k: nat, n: nat, once: seq<Octet>)
    requires |buf| == 64 && r + |a| < 64 && k == r + |a| && n == (k + |b|) % 64 && once == Put(buf, r, a)
    ensures BufferAfter(once, k, b) == BufferAfter(buf, r, a + b)
  {
    if k + |b| < 64 {
      PutPut(buf, r, a, b);
    } else {
      BufferFull(once, k, b, n);
      BufferFull(buf, r, a + b, n);
      PutFront(buf, r, a);
      assert (a + b)[..64 - r] == a + b[..64 - k];
      assert once[..k] + b[..64 - k] == buf[..r] + (a + b)[..64 - r];
      assert (a + b)[|a + b| - n..] == b[|b| - n..];
    }
  }

  /** The second piece completes no block. */
  lemma SplitLate(buf: seq<Octet>, r: nat, a: seq<Octet>, b: seq<Octet>, k: nat, n: nat, once: seq<Octet>)
    requires |buf| == 64 && r < 64 <= r + |a| && k == (r + |a|) % 64 && n == k + |b| < 64
    requires n == (r + |a| + |b|) % 64 && once == BufferAfter(buf, r, a)
    ensures BufferAfter(once, k, b) == BufferAfter(buf, r, a + b)
  {
    var h := buf[..r] + a[..64 - r];
    BufferFull(buf, r, a, k);
    BufferFull(buf, r, a + b, n);
    assert (a + b)[..64 - r] == a[..64 - r];
    assert (a + b)[|a + b| - n..] == a[|a| - k..] + b;
    PutAfter(a[|a| - k..], h[k..], b);
    assert h[k..][|b|..] == h[n..];
  }

  lemma PutAfter(front: seq<Octet>, back: seq<Octet>, src: seq<Octet>)
    requires |src| <= |back|
    ensures Put(front + back, |front|, src) == front + src + back[|src|..]
  {
  }

  /** Both pieces complete a block. */
  lemma SplitBoth(buf: seq<Octet>, r: nat, a: seq<Octet>, b: seq<Octet>, k: nat, n: nat, once: seq<Octet>)
    requires |buf| == 64 && r < 64 <= r + |a| && k == (r + |a|) % 64 && k + |b| >= 64 && n == (k + |b|) % 64
    requires n == (r + |a| + |b|) % 64 && once == BufferAfter(buf, r, a)
    ensures k <= |a| && n <= |b|
    ensures BufferAfter(once, k, b) == b[|b| - n..] + (a[|a| - k..] + b[..64 - k])[n..]
    ensures BufferAfter(buf, r, a + b) == b[|b| - n..] + (buf[..r] + a[..64 - r])[n..]
  {
    BufferFull(buf, r, a, k);
    BufferFull(once, k, b, n);
    BufferFull(buf, r, a + b, n);
    assert (a + b)[..64 - r] == a[..64 - r];
    assert (a + b)[|a + b| - n..] == b[|b| - n..];
    assert once[..k] == a[|a| - k..];
  }

  /** A piece completes no block, or the first blocks completed agree where the buffer is dead. */
  predicate SplitHidden(buf: seq<Octet>, r: nat, a: seq<Octet>, b: seq<Octet>)
    requires |buf| == 64 && r < 64
  {
    var k, n := (r + |a|) % 64, (r + |a| + |b|) % 64;
    || r + |a| < 64 || k + |b| < 64
    || (buf[..r] + a[..64 - r])[n..] == (a[|a| - k..] + b[..64 - k])[n..]
  }

  /**
   * Whether the whole buffer tells a split: two pieces leave the buffer of their concatenation
   * exactly when one of them completes no block, or the first blocks that each of them completes have
   * the same bytes after the live part.
   */
  lemma DeadBytesExact(buf: seq<Octet>, r: nat, a: seq<Octet>, b: seq<Octet>)
    requires |buf| == 64 && r < 64
    ensures BufferAfter(BufferAfter(buf, r, a), (r + |a|) % 64, b) == BufferAfter(buf, r, a + b) <==>
            SplitHidden(buf, r, a, b)
  {
    var k, n, once := (r + |a|) % 64, (r + |a| + |b|) % 64, BufferAfter(buf, r, a);
    Positions(r, |a|, |b|, k, n);
    if r + |a| < 64 {
      SplitEarly(buf, r, a, b, k, n, once);
    } else if k + |b| < 64 {
      SplitLate(buf, r, a, b, k, n, once);
    } else {
      SplitBoth(buf, r, a, b, k, n, once);
      SameTail(b[|b| - n..], (a[|a| - k..] + b[..64 - k])[n..], (buf[..r] + a[..64 - r])[n..]);
    }
  }

  lemma SameTail(front: seq<Octet>, x: seq<Octet>, y: seq<Octet>)
    requires |x| == |y|
    ensures front + x == front + y <==> x == y
  {
    assert (front + x)[|front|..] == x && (front + y)[|front|..] == y;
  }

  lemma PutNext(b: seq<Octet>, j: nat, src: seq<Octet>, k: nat)
    requires j + |src| <= |b| && k < |src|
    ensures Put(b, j, src[..k])[j + k := src[k]] == Put(b, j, src[..k + 1])
  {
  }

  lemma PutFront(b: seq<Octet>, j: nat, src: seq<Octet>)
    requires j + |src| <= |b|
    ensures Put(b, j, src)[..j] == b[..j] && Put(b, j, src)[..j + |src|] == b[..j] + src
  {
  }

  /** The buffer after a block has been completed and the rest copied. */
  lemma BufferRest(buf: seq<Octet>, r: nat, data: seq<Octet>, i: nat, after: seq<Octet>)
    requires |buf| == 64 && r < 64 <= r + |data| && i <= |data| && |data| - i == (r + |data|) % 64
    requires after == Put(buf[..r] + data[..64 - r], 0, data[i..])
    ensures after == BufferAfter(buf, r, data)
  {
  }

  /** After the whole blocks, with the rest of the data copied to the front of the buffer. */
  lemma ManyTaken(h: Regs, low: nat, high: nat, before: seq<Octet>, after: seq<Octet>, m: seq<Octet>,
      data: seq<Octet>, at: nat, i: nat)
    requires |before| == 64 && at == |m| % 64 && 63 < at + |data| && i <= |data| < i + 64 && (|m| + i) % 64 == 0
    requires Hashed(h, m + data[..i]) && Counts(low, high, 8 * |m| + 8 * |data|)
    requires after == Put(before[..at] + data[..64 - at], 0, data[i..])
    ensures Holds(h, low, high, after, m + data) && after == BufferAfter(before, at, data)
  {
    Leftover(h, m, data, i);
    LeftInBuffer(|m|, at, |data|, i);
    BufferRest(before, at, data, i, after);
    PutFront(before[..at] + data[..64 - at], 0, data[i..]);
    TakeDone(h, low, high, after, m + data, |data| - i);
  }

  lemma Below32(x: nat)
    requires x < TWO32
    ensures x % TWO32 == x
  {
  }

  /** How many bytes of a piece are left in the buffer. */
  lemma LeftInBuffer(n: nat, r: nat, len: nat, i: nat)
    requires r == n % 64 && i <= len < i + 64 && (n + i) % 64 == 0
    ensures (r + len) % 64 == len - i
  {
    var q := n / 64;
    assert n == 64 * q + r;
    assert (r + i) % 64 == 0;
    Remainder(r + i, len - i);
  }

  /** The loop test of SHA1Update does not wrap around when the sum of position and length does not. */
  lemma NoWrap(n: nat, r: nat, len: nat, i: nat)
    requires r == n % 64 && r + len < TWO32 && i <= len && (n + i) % 64 == 0
    ensures i + 63 < TWO32
  {
    var q := n / 64;
    assert n == 64 * q + r;
    assert (r + i) % 64 == 0;
    assert TWO32 == 64 * 0x400_0000;
  }

  /** Every piece fits the 32-bit sum of its length and the position it starts at. */
  ghost predicate Fits(parts: seq<seq<Octet>>)
  {
    forall i {:trigger FitsAt(parts, i)} :: 0 <= i < |parts| ==> FitsAt(parts, i)
  }

  ghost predicate FitsAt(parts: seq<seq<Octet>>, i: nat)
    requires i < |parts|
  {
    |Flat(parts[..i])| % 64 + |parts[i]| < TWO32
  }

  // ----- padding

  function Zeros(k: nat): seq<Octet> { seq(k, _ => 0) }

  /** The zero bytes end exactly where the count belongs. */
  lemma ZerosEnd(n: nat, k: nat)
    requires k <= ZeroCount(n)
    ensures (n + 1 + k) % 64 == 56 <==> k == ZeroCount(n)
  {
    ZerosEndAt(n / 64, n % 64, k, ZeroCount(n));
  }

  lemma ZerosEndAt(q: nat, r: nat, k: nat, z: nat)
    requires r < 64 && z == (if r <= 55 then 55 - r else 119 - r) && k <= z
    ensures (64 * q + r + 1 + k) % 64 == 56 <==> k == z
  {
  }

  lemma OneZeroMore(m: seq<Octet>, k: nat)
    ensures (m + [0x80] + Zeros(k)) + [0] == m + [0x80] + Zeros(k + 1)
  {
    assert Zeros(k + 1) == Zeros(k) + [0];
  }

  lemma PaddedMessage(m: seq<Octet>, count: seq<Octet>)
    requires count == LengthBytes(8 * |m|)
    ensures (m + [0x80] + Zeros(ZeroCount(|m|))) + count == m + Padding(|m|)
  {
    assert Zeros(ZeroCount(|m|)) == seq(ZeroCount(|m|), _ => 0);
  }

  /** Byte `k` of four of a word of the count. */
  function CountByte(n: nat, k: nat): Octet
    requires k < 4
  {
    MaskIsByte(Shr(n, 8 * (3 - k)));
    And(Shr(n, 8 * (3 - k)), 255) as Octet
  }

  lemma MaskIsByte(n: nat)
    ensures And(n, 255) == n % 256
  {
    assert Pow2(8) == 256;
    AndMask(n, 8);
  }

  lemma CountByteAt(n: nat, k: nat)
    requires k < 4
    ensures CountByte(n, k) == NumberByte(n, k)
  {
    MaskIsByte(Shr(n, 8 * (3 - k)));
  }

  /** The count, a byte at a time. */
  lemma CountAt(low: nat, high: nat, i: nat, both: seq<Octet>)
    requires i < 8 && both == NumberBytes(high) + NumberBytes(low)
    ensures |both| == 8 && both[i] == NumberByte(if i >= 4 then low else high, i % 4)
  {
    var word := if i >= 4 then low else high;
    assert both[i] == NumberBytes(word)[i % 4] by {
      ByteOfTwo(NumberBytes(high), NumberBytes(low), i);
    }
    ByteOfNumber(word, i % 4);
  }

  lemma ByteOfTwo(a: seq<Octet>, b: seq<Octet>, i: nat)
    requires |a| == |b| == 4 && i < 8
    ensures (a + b)[i] == (if i >= 4 then b else a)[i % 4]
  {
  }

  lemma ByteOfNumber(n: nat, k: nat)
    requires k < 4
    ensures NumberBytes(n)[k] == NumberByte(n, k)
  {
  }

  /** The bytes of five words, one at a time. */
  function StateByte(s: seq<Word>, i: nat): Octet
    requires |s| == 5 && i < 20
  {
    WordBytes(s[i / 4])[i % 4]
  }

  lemma StateBytes(s: seq<Word>, d: seq<Octet>)
    requires |s| == 5 && |d| == 20 && forall i :: 0 <= i < 20 ==> d[i] == StateByte(s, i)
    ensures d == RegsBytes(AsRegs(s))
  {
    var r := RegsBytes(AsRegs(s));
    forall i | 0 <= i < 20
      ensures d[i] == r[i]
    {
      ByteOfFive(WordBytes(s[0]), WordBytes(s[1]), WordBytes(s[2]), WordBytes(s[3]), WordBytes(s[4]), i);
    }
  }

  lemma ByteOfFive(a: seq<Octet>, b: seq<Octet>, c: seq<Octet>, d: seq<Octet>, e: seq<Octet>, i: nat)
    requires |a| == |b| == |c| == |d| == |e| == 4 && i < 20
    ensures (a + b + c + d + e)[i] == [a, b, c, d, e][i / 4][i % 4]
  {
  }

  class Context {
    const order: ByteOrder
    const state: array<Word>
    const buffer: array<Octet>
    var low: nat
    var high: nat
    ghost var msg: seq<Octet>

    ghost predicate Valid()
      reads this, state, buffer
    {
      state.Length == 5 && buffer.Length == 64 && Holds(AsRegs(state[..]), low, high, buffer[..], msg)
    }

    /** SHA1Init */
    constructor (order: ByteOrder)
      ensures Valid() && msg == [] && fresh(state) && fresh(buffer) && this.order == order
    {
      this.order := order;
      var words := new Word[5];
      words[0], words[1], words[2], words[3], words[4] := 0x67452301, 0xEFCDAB89, 0x98BADCFE, 0x10325476, 0xC3D2E1F0;
      state := words;
      buffer := new Octet[64];
      low, high := 0, 0;
      msg := [];
      assert AsRegs(words[..]) == INITIAL;
    }

    /** memcpy into the buffer. */
    method Copy(j: nat, src: seq<Octet>)
      requires buffer.Length == 64 && j + |src| <= 64
      modifies buffer
      ensures buffer[..] == Put(old(buffer[..]), j, src)
      ensures buffer[..j] == old(buffer[..j]) && buffer[..j + |src|] == old(buffer[..j]) + src
    {
      var k := 0;
      while k < |src|
        invariant 0 <= k <= |src| && buffer[..] == Put(old(buffer[..]), j, src[..k])
      {
        PutNext(old(buffer[..]), j, src, k);
        buffer[j + k] := src[k];
        k := k + 1;
      }
      assert src[..k] == src;
      PutFront(old(buffer[..]), j, src);
      assert buffer[..j] == buffer[..][..j] && buffer[..j + |src|] == buffer[..][..j + |src|];
    }

    /** Add the bits of `len` bytes to the count. */
    method Count(len: nat, ghost bits: nat)
      requires Counts(low, high, bits) && len < TWO32
      modifies `low, `high
      ensures Counts(low, high, bits + 8 * len)
    {
      var j := low;
      low := (low + (8 * len) % TWO32) % TWO32;
      var carried := if low < j then (high + 1) % TWO32 else high;
      CountUp(j, high, bits, len, low, carried, (carried + len / 0x2000_0000) % TWO32);
      high := (carried + len / 0x2000_0000) % TWO32;
    }

    /** The whole blocks of `data` from `start` on; sums are those of 32-bit words. */
    method TakeBlocks(data: seq<Octet>, start: nat, ghost m: seq<Octet>) returns (i: nat)
      requires state.Length == 5 && start <= |data| && (|m| + start) % 64 == 0 && |m| % 64 + |data| < TWO32
      requires Hashed(AsRegs(state[..]), m + data[..start])
      modifies state
      ensures i <= |data| < i + 64 && (|m| + i) % 64 == 0 && Hashed(AsRegs(state[..]), m + data[..i])
    {
      i := start;
      ghost var n := |m|;
      NoWrap(n, n % 64, |data|, i);
      Below32(i + 63);
      while (i + 63) % TWO32 < |data|
        invariant i <= |data| && (i + 63) % TWO32 == i + 63 && (n + i) % 64 == 0
            && Hashed(AsRegs(state[..]), m + data[..i])
        decreases |data| - i
      {
        NextBlock(AsRegs(state[..]), m, data, i, data[i..i + 64]);
        Transform(state, data[i..i + 64], order);
        i := i + 64;
        NoWrap(n, n % 64, |data|, i);
        Below32(i + 63);
      }
    }

    /** Complete the block in the buffer and take the whole blocks after it. */
    method Fill(data: seq<Octet>, j: nat, ghost m: seq<Octet>) returns (i: nat)
      requires state.Length == 5 && buffer.Length == 64 && j == |m| % 64 && 63 < j + |data| < TWO32
      requires Hashed(AsRegs(state[..]), m) && buffer[..j] == m[|m| - j..]
      modifies state, buffer
      ensures buffer[..] == old(buffer[..j]) + data[..64 - j]
      ensures i <= |data| < i + 64 && (|m| + i) % 64 == 0 && Hashed(AsRegs(state[..]), m + data[..i])
    {
      Copy(j, data[..64 - j]);
      FirstBlock(AsRegs(state[..]), m, data[..64 - j], j, buffer[..64]);
      assert buffer[..] == buffer[..64];
      Transform(state, buffer[..], order);
      i := TakeBlocks(data, 64 - j, m);
    }

    /**
     * SHA1Update: right exactly when position and length do not wrap around as a 32-bit sum. Otherwise
     * the copy at the end would run past the buffer; the result is then false and nothing is promised.
     */
    method Update(data: seq<Octet>) returns (ok: bool)
      requires Valid() && |data| < TWO32
      modifies this, state, buffer
      ensures ok == (|old(msg)| % 64 + |data| < TWO32)
      ensures ok ==> Valid() && msg == old(msg) + data
      ensures ok ==> buffer[..] == BufferAfter(old(buffer[..]), |old(msg)| % 64, data)
    {
      HoldsNow(AsRegs(state[..]), low, high, buffer[..], msg);
      var j := And(Shr(low, 3), 63);
      Position(low, high, |msg|);
      Count(|data|, 8 * |msg|);
      ok := Take(data, j);
      if ok {
        msg := msg + data;
      }
    }

    /** Put the data through the buffer. */
    method Take(data: seq<Octet>, at: nat) returns (ok: bool)
      requires state.Length == 5 && buffer.Length == 64 && at == |msg| % 64 && |data| < TWO32
      requires Hashed(AsRegs(state[..]), msg) && buffer[..at] == msg[|msg| - at..]
          && Counts(low, high, 8 * |msg| + 8 * |data|)
      modifies state, buffer
      ensures ok == (at + |data| < TWO32)
      ensures ok ==> Holds(AsRegs(state[..]), low, high, buffer[..], msg + data)
      ensures ok ==> buffer[..] == BufferAfter(old(buffer[..]), at, data)
    {
      var sum := (at + |data|) % TWO32;
      if sum > 63 {
        TakeMany(data, at);
        return true;
      }
      if at + |data| > 64 {
        return false;
      }
      NotYet(AsRegs(state[..]), msg, data, at);
      Copy(at, data);
      TakeDone(AsRegs(state[..]), low, high, buffer[..], msg + data, at + |data|);
      return true;
    }

    /** At least one block is completed. */
    method TakeMany(data: seq<Octet>, at: nat)
      requires state.Length == 5 && buffer.Length == 64 && at == |msg| % 64 && 63 < at + |data| < TWO32
      requires Hashed(AsRegs(state[..]), msg) && buffer[..at] == msg[|msg| - at..]
          && Counts(low, high, 8 * |msg| + 8 * |data|)
      modifies state, buffer
      ensures Holds(AsRegs(state[..]), low, high, buffer[..], msg + data)
      ensures buffer[..] == BufferAfter(old(buffer[..]), at, data)
    {
      ghost var before := buffer[..];
      var i := Fill(data, at, msg);
      ghost var h := AsRegs(state[..]);
      Copy(0, data[i..]);
      ManyTaken(h, low, high, before, buffer[..], msg, data, at, i);
    }

    /** The eight bytes of the count, high word first. */
    method FinalCount() returns (count: seq<Octet>)
      requires Valid()
      ensures count == LengthBytes(8 * |msg|)
    {
      HoldsNow(AsRegs(state[..]), low, high, buffer[..], msg);
      CountBytes(low, high, 8 * |msg|);
      ghost var both := NumberBytes(high) + NumberBytes(low);
      count := [];
      var i := 0;
      while i < 8
        invariant 0 <= i <= 8 <= |both| && count == both[..i]
      {
        var word := if i >= 4 then low else high;
        CountAt(low, high, i, both);
        CountByteAt(word, i % 4);
        count := count + [CountByte(word, i % 4)];
        i := i + 1;
      }
    }

    /** The marker and the zero bytes. */
    method Pad()
      requires Valid()
      modifies this, state, buffer
      ensures Valid() && msg == old(msg) + [0x80] + Zeros(ZeroCount(|old(msg)|))
    {
      ghost var m, k := msg, 0;
      var ok := Update([0x80]);
      assert msg == m + [0x80] + Zeros(0);
      var more := NotAligned();
      while more
        invariant Valid() && k <= ZeroCount(|m|) && msg == m + [0x80] + Zeros(k) && more == (|msg| % 64 != 56)
        decreases ZeroCount(|m|) - k
      {
        ZerosEnd(|m|, k);
        ok := Update([0]);
        OneZeroMore(m, k);
        k := k + 1;
        more := NotAligned();
      }
      ZerosEnd(|m|, k);
    }

    /** The loop test of SHA1Final. */
    method NotAligned() returns (more: bool)
      requires Valid()
      ensures more == (|msg| % 64 != 56)
    {
      HoldsNow(AsRegs(state[..]), low, high, buffer[..], msg);
      LastEight(low, high, |msg|);
      more := And(low, 504) != 448;
    }

    /** The hash value as 20 bytes. */
    method Output() returns (digest: seq<Octet>)
      requires state.Length == 5
      ensures digest == RegsBytes(AsRegs(state[..]))
    {
      digest := [];
      var i := 0;
      while i < 20
        invariant 0 <= i <= 20 && |digest| == i && forall k :: 0 <= k < i ==> digest[k] == StateByte(state[..], k)
      {
        digest := digest + [StateByte(state[..], i)];
        i := i + 1;
      }
      StateBytes(state[..], digest);
    }

    /** SHA1Final: the digest of the message; the context is wiped. */
    method Final() returns (digest: seq<Octet>)
      requires Valid()
      modifies this, state, buffer
      ensures digest == Digest(old(msg))
      ensures low == high == 0 && state[..] == [0, 0, 0, 0, 0] && buffer[..] == Zeros(64)
    {
      ghost var m := msg;
      var count := FinalCount();
      Pad();
      var ok := Update(count);
      PaddedMessage(m, count);
      HoldsNow(AsRegs(state[..]), low, high, buffer[..], msg);
      HashedNow(AsRegs(state[..]), msg);
      digest := Output();
      Wipe();
    }

    method Wipe()
      requires state.Length == 5 && buffer.Length == 64
      modifies this, state, buffer
      ensures low == high == 0 && state[..] == [0, 0, 0, 0, 0] && buffer[..] == Zeros(64)
    {
      forall i | 0 <= i < 5 { state[i] := 0; }
      forall i | 0 <= i < 64 { buffer[i] := 0; }
      low, high := 0, 0;
    }
  }

  /** One more piece. */
  method TakePart(context: Context, parts: seq<seq<Octet>>, i: nat) returns (ok: bool)
    requires context.Valid() && i < |parts| && context.msg == Flat(parts[..i]) && |parts[i]| < TWO32
    modifies context, context.state, context.buffer
    ensures ok == FitsAt(parts, i)
    ensures ok ==> context.Valid() && context.msg == Flat(parts[..i + 1])
  {
    ok := context.Update(parts[i]);
    FlatNext(parts, i);
  }

  /** Any split of a message into calls of SHA1Update gives the digest of the whole, exactly when all pieces fit. */
  method HashParts(parts: seq<seq<Octet>>, order: ByteOrder) returns (ok: bool, digest: seq<Octet>)
    requires forall i :: 0 <= i < |parts| ==> |parts[i]| < TWO32
    ensures ok == Fits(parts)
    ensures ok ==> digest == Digest(Flat(parts))
  {
    var context := new Context(order);
    var i := 0;
    ok, digest := true, [];
    while i < |parts|
      invariant 0 <= i <= |parts| && context.Valid() && context.msg == Flat(parts[..i])
      invariant forall k {:trigger FitsAt(parts, k)} :: 0 <= k < i ==> FitsAt(parts, k)
      invariant fresh(context) && fresh(context.state) && fresh(context.buffer)
    {
      ok := TakePart(context, parts, i);
      if !ok {
        return;
      }
      i := i + 1;
    }
    ok := true;
    assert parts[..i] == parts;
    digest := context.Final();
  }
}
