/** The secure hash algorithm as FIPS PUB 180-1 defines it, on byte strings. */
module SecureHash {
  import opened Bits

  type Octet = bv8

  type Word = bv32

  /** The circular left shift of section 3. */
  function Rol(x: Word, n: Word): Word
    requires 0 < n < 32
  {
    (x << n) | (x >> (32 - n))
  }

  /** The five words of the hash value and of the working buffer. */
  datatype Regs = Regs(a: Word, b: Word, c: Word, d: Word, e: Word)

  /** The initial hash value of section 7. */
  const INITIAL := Regs(0x67452301, 0xEFCDAB89, 0x98BADCFE, 0x10325476, 0xC3D2E1F0)

  /** The functions of section 5. */
  function F(t: nat, b: Word, c: Word, d: Word): Word
  {
    if t < 20 then Ch(b, c, d) else if t < 40 then Parity(b, c, d) else if t < 60 then Maj(b, c, d) else Parity(b, c, d)
  }

  function Ch(b: Word, c: Word, d: Word): Word { (b & c) | (!b & d) }

  function Parity(b: Word, c: Word, d: Word): Word { b ^ c ^ d }

  function Maj(b: Word, c: Word, d: Word): Word { (b & c) | (b & d) | (c & d) }

  /** The constants of section 6. */
  function K(t: nat): Word
  {
    if t < 20 then 0x5A827999 else if t < 40 then 0x6ED9EBA1 else if t < 60 then 0x8F1BBCDC else 0xCA62C1D6
  }

  function Join(p: Octet, q: Octet, r: Octet, s: Octet): Word
  {
    ((p as Word) << 24) | ((q as Word) << 16) | ((r as Word) << 8) | (s as Word)
  }

  type Block = b: seq<Octet> | |b| == 64 witness seq(64, _ => 0)

  /** Word `t` of a block, most significant byte first. */
  function BlockWord(b: Block, t: nat): Word
    requires t < 16
  {
    Join(b[4 * t], b[4 * t + 1], b[4 * t + 2], b[4 * t + 3])
  }

  /** The 80-word message schedule, steps a and b of section 7. */
  function Schedule(b: Block, t: nat): Word
  {
    if t < 16 then BlockWord(b, t)
    else Rol(Schedule(b, t - 3) ^ Schedule(b, t - 8) ^ Schedule(b, t - 14) ^ Schedule(b, t - 16), 1)
  }

  /** One round, step d of section 7. */
  function Round(r: Regs, t: nat, w: Word): Regs
  {
    Regs(Total(Rol(r.a, 5), F(t, r.b, r.c, r.d), r.e, w, K(t)), r.a, Rol(r.b, 30), r.c, r.d)
  }

  function Total(s: Word, f: Word, e: Word, w: Word, k: Word): Word { s + f + e + w + k }

  function Rounds(h: Regs, b: Block, t: nat): Regs
  {
    if t == 0 then h else Round(Rounds(h, b, t - 1), t - 1, Schedule(b, t - 1))
  }

  /** Addition modulo 2^32. */
  function Plus(x: Word, y: Word): Word { x + y }

  function Sum(h: Regs, r: Regs): Regs
  {
    Regs(Plus(h.a, r.a), Plus(h.b, r.b), Plus(h.c, r.c), Plus(h.d, r.d), Plus(h.e, r.e))
  }

  /** The hash value after one more block. */
  function Compress(h: Regs, b: Block): Regs
  {
    Sum(h, Rounds(h, b, 80))
  }

  /** The hash value after the whole blocks of `m`. */
  function Absorb(h: Regs, m: seq<Octet>): Regs
    decreases |m|
  {
    if |m| < 64 then h else Absorb(Compress(h, m[..64]), m[64..])
  }

  const TWO32: nat := 0x1_0000_0000

  /** The four bytes of a number below 2^32, most significant first. */
  function NumberBytes(n: nat): seq<Octet>
  {
    [NumberByte(n, 0), NumberByte(n, 1), NumberByte(n, 2), NumberByte(n, 3)]
  }

  function NumberByte(n: nat, k: nat): Octet
    requires k < 4
  {
    (Shr(n, 8 * (3 - k)) % 256) as Octet
  }

  /** The two-word length of section 4. */
  function LengthBytes(bits: nat): seq<Octet>
  {
    NumberBytes(bits / TWO32 % TWO32) + NumberBytes(bits % TWO32)
  }

  /** The number of zero bytes that bring a message and its marker to 8 bytes short of a whole block. */
  function ZeroCount(n: nat): nat
  {
    (119 - n % 64) % 64
  }

  /** The padding of section 4. */
  function Padding(n: nat): seq<Octet>
  {
    [0x80] + seq(ZeroCount(n), _ => 0) + LengthBytes(8 * n)
  }

  function WordBytes(w: Word): seq<Octet>
  {
    [((w >> 24) & 255) as Octet, ((w >> 16) & 255) as Octet, ((w >> 8) & 255) as Octet, (w & 255) as Octet]
  }

  function RegsBytes(r: Regs): (s: seq<Octet>)
    ensures |s| == 20
  {
    WordBytes(r.a) + WordBytes(r.b) + WordBytes(r.c) + WordBytes(r.d) + WordBytes(r.e)
  }

  /** The message digest of section 7. */
  function Digest(m: seq<Octet>): seq<Octet>
  {
    RegsBytes(Absorb(INITIAL, m + Padding(|m|)))
  }

  // ----- what the definitions amount to

  /** The padded message consists of whole blocks, by the fewest zeros. */
  lemma PaddedIsWhole(n: nat)
    ensures |Padding(n)| == 9 + ZeroCount(n) && (n + 9 + ZeroCount(n)) % 64 == 0 && ZeroCount(n) < 64
  {
    ZerosFill(n / 64, n % 64);
  }

  lemma ZerosFill(q: nat, r: nat)
    requires r < 64
    ensures (64 * q + r + 9 + (119 - r) % 64) % 64 == 0
  {
  }

  /** The bytes of a word determine it. */
  lemma JoinWordBytes(w: Word)
    ensures Join(WordBytes(w)[0], WordBytes(w)[1], WordBytes(w)[2], WordBytes(w)[3]) == w
  {
  }

  /** Whole blocks can be absorbed first and the rest later. */
  lemma {:induction false} AbsorbConcat(h: Regs, a: seq<Octet>, b: seq<Octet>)
    requires |a| % 64 == 0
    ensures Absorb(h, a + b) == Absorb(Absorb(h, a), b)
    decreases |a|
  {
    if a == [] {
      assert a + b == b;
    } else {
      assert (a + b)[..64] == a[..64] && (a + b)[64..] == a[64..] + b;
      AbsorbConcat(Compress(h, a[..64]), a[64..], b);
    }
  }

  lemma AbsorbOne(h: Regs, b: Block)
    ensures Absorb(h, b) == Compress(h, b)
  {
    assert b[..64] == b && b[64..] == [];
  }

  /** One more block. */
  lemma AbsorbBlock(h: Regs, a: seq<Octet>, b: Block, m: seq<Octet>)
    requires |a| % 64 == 0 && m == a + b
    ensures Absorb(h, m) == Compress(Absorb(h, a), b)
  {
    AbsorbConcat(h, a, b);
    AbsorbOne(Absorb(h, a), b);
  }

  /** A rest shorter than a block is not absorbed. */
  lemma AbsorbWhole(h: Regs, m: seq<Octet>, k: nat)
    requires k <= |m| < k + 64 && k % 64 == 0
    ensures Absorb(h, m) == Absorb(h, m[..k])
  {
    AbsorbConcat(h, m[..k], m[k..]);
    assert m == m[..k] + m[k..];
  }
}
