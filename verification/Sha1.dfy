/**
 * The streaming SHA-1 of sha1.c: an in-place 16-word schedule, rounds that rotate the names of the
 * working variables instead of their values, and a context that takes the message in pieces.
 */
module Sha1 {
  import opened SecureHash

  datatype ByteOrder = LittleEndian | BigEndian

  /** Word `k` of a block as the machine reads it from memory. */
  function Load(order: ByteOrder, b: Block, k: nat): Word
    requires k < 16
  {
    match order
    case LittleEndian => Join(b[4 * k + 3], b[4 * k + 2], b[4 * k + 1], b[4 * k])
    case BigEndian => BlockWord(b, k)
  }

  /** The expression of blk0. */
  function Arrange(order: ByteOrder, w: Word): Word
  {
    match order
    case LittleEndian => (Rol(w, 24) & 0xFF00FF00) | (Rol(w, 8) & 0x00FF00FF)
    case BigEndian => w
  }

  lemma TurnLeft(p: Octet, q: Octet, r: Octet, s: Octet)
    ensures Rol(Join(s, r, q, p), 8) == Join(r, q, p, s)
  {
  }

  lemma TurnRight(p: Octet, q: Octet, r: Octet, s: Octet)
    ensures Rol(Join(s, r, q, p), 24) == Join(p, s, r, q)
  {
  }

  lemma Interleave(p: Octet, q: Octet, r: Octet, s: Octet)
    ensures (Join(p, s, r, q) & 0xFF00FF00) | (Join(r, q, p, s) & 0x00FF00FF) == Join(p, q, r, s)
  {
  }

  lemma SwapBytes(p: Octet, q: Octet, r: Octet, s: Octet)
    ensures Arrange(LittleEndian, Join(s, r, q, p)) == Join(p, q, r, s)
  {
    TurnLeft(p, q, r, s);
    TurnRight(p, q, r, s);
    Interleave(p, q, r, s);
  }

  /** On either machine, blk0 yields the word of the message. */
  lemma ArrangeLoad(order: ByteOrder, b: Block, k: nat)
    requires k < 16
    ensures Arrange(order, Load(order, b, k)) == BlockWord(b, k)
  {
    SwapBytes(b[4 * k], b[4 * k + 1], b[4 * k + 2], b[4 * k + 3]);
  }

  /** The choice of rounds 0 to 19, written without the complement. */
  function Choose(w: Word, x: Word, y: Word): Word { (w & (x ^ y)) ^ y }

  /** The majority of rounds 40 to 59, written with one conjunction less. */
  function Most(w: Word, x: Word, y: Word): Word { ((w | x) & y) | (w & x) }

  /** The sum each operation adds to its last variable. */
  function Added(z: Word, f: Word, w: Word, k: Word, r: Word): Word { z + (f + w + k + r) }

  lemma ChoiceForm(w: Word, x: Word, y: Word)
    ensures (w & (x ^ y)) ^ y == (w & x) | (!w & y)
  {
  }

  lemma MajorityForm(w: Word, x: Word, y: Word)
    ensures ((w | x) & y) | (w & x) == (w & x) | (w & y) | (x & y)
  {
  }

  lemma ChooseIsCh(w: Word, x: Word, y: Word)
    ensures Choose(w, x, y) == Ch(w, x, y)
  {
    ChoiceForm(w, x, y);
  }

  lemma MostIsMaj(w: Word, x: Word, y: Word)
    ensures Most(w, x, y) == Maj(w, x, y)
  {
    MajorityForm(w, x, y);
  }

  lemma AddedIsTotal(z: Word, f: Word, w: Word, k: Word, r: Word)
    ensures Added(z, f, w, k, r) == Total(r, f, z, w, k)
  {
  }

  // ----- the circular schedule

  /** Cell `t % 16` holds word `t` of the schedule. */
  ghost predicate Slot(l: seq<Word>, b: Block, t: nat)
    requires |l| == 16
  {
    l[t % 16] == Schedule(b, t)
  }

  /** Before round `i`, the block holds the latest words of the schedule, and raw words not yet used. */
  ghost predicate Window(l: seq<Word>, order: ByteOrder, b: Block, i: nat)
  {
    && |l| == 16
    && (forall t: nat {:trigger Slot(l, b, t)} :: i <= t + 16 && t < i ==> Slot(l, b, t))
    && (forall k: nat {:trigger l[k]} :: i <= k < 16 ==> l[k] == Load(order, b, k))
  }

  lemma SameCell(t: nat, i: nat)
    requires i < t + 16 && t < i
    ensures t % 16 != i % 16
  {
  }

  lemma WindowMore(l: seq<Word>, order: ByteOrder, b: Block, i: nat, w: Word)
    requires Window(l, order, b, i) && w == Schedule(b, i)
    ensures Window(l[i % 16 := w], order, b, i + 1)
  {
    var l' := l[i % 16 := w];
    forall t: nat | i + 1 <= t + 16 && t < i + 1
      ensures Slot(l', b, t)
    {
      if t < i {
        SameCell(t, i);
        assert Slot(l, b, t);
      }
    }
  }

  /** Sixteen cells on is the same cell. */
  lemma FullTurn(x: nat)
    ensures (x + 16) % 16 == x % 16
  {
  }

  /** The cells blk reads: 13, 8, 2 and 0 ahead are 3, 8, 14 and 16 back. */
  lemma FourBack(l: seq<Word>, order: ByteOrder, b: Block, i: nat)
    requires i >= 16 && Window(l, order, b, i)
    ensures l[(i + 13) % 16] == Schedule(b, i - 3) && l[(i + 8) % 16] == Schedule(b, i - 8)
    ensures l[(i + 2) % 16] == Schedule(b, i - 14) && l[i % 16] == Schedule(b, i - 16)
  {
    FullTurn(i - 3);
    FullTurn(i - 8);
    FullTurn(i - 14);
    FullTurn(i - 16);
    assert Slot(l, b, i - 3) && Slot(l, b, i - 8) && Slot(l, b, i - 14) && Slot(l, b, i - 16);
  }

  /** blk0 */
  method Blk0(l: array<Word>, order: ByteOrder, i: nat, ghost b: Block) returns (w: Word)
    requires i < 16 && Window(l[..], order, b, i)
    modifies l
    ensures w == Schedule(b, i) && Window(l[..], order, b, i + 1)
  {
    assert l[..][i] == Load(order, b, i);
    w := Arrange(order, l[i]);
    ArrangeLoad(order, b, i);
    WindowMore(l[..], order, b, i, w);
    assert l[..][i % 16 := w] == l[..][i := w];
    l[i] := w;
  }

  /** blk */
  method Blk(l: array<Word>, order: ByteOrder, i: nat, ghost b: Block) returns (w: Word)
    requires i >= 16 && Window(l[..], order, b, i)
    modifies l
    ensures w == Schedule(b, i) && Window(l[..], order, b, i + 1)
  {
    FourBack(l[..], order, b, i);
    w := Rol(l[(i + 13) % 16] ^ l[(i + 8) % 16] ^ l[(i + 2) % 16] ^ l[i % 16], 1);
    WindowMore(l[..], order, b, i, w);
    l[i % 16] := w;
  }

  // ----- the rounds

  method R0(v: Word, w: Word, x: Word, y: Word, z: Word, i: nat, l: array<Word>, order: ByteOrder, ghost b: Block)
    returns (w': Word, z': Word)
    requires i < 16 && Window(l[..], order, b, i)
    modifies l
    ensures Regs(z', v, w', x, y) == Round(Regs(v, w, x, y, z), i, Schedule(b, i)) && Window(l[..], order, b, i + 1)
  {
    var word := Blk0(l, order, i, b);
    ChooseIsCh(w, x, y);
    AddedIsTotal(z, Choose(w, x, y), word, 0x5A827999, Rol(v, 5));
    z' := Added(z, Choose(w, x, y), word, 0x5A827999, Rol(v, 5));
    w' := Rol(w, 30);
  }

  method R1(v: Word, w: Word, x: Word, y: Word, z: Word, i: nat, l: array<Word>, order: ByteOrder, ghost b: Block)
    returns (w': Word, z': Word)
    requires 16 <= i < 20 && Window(l[..], order, b, i)
    modifies l
    ensures Regs(z', v, w', x, y) == Round(Regs(v, w, x, y, z), i, Schedule(b, i)) && Window(l[..], order, b, i + 1)
  {
    var word := Blk(l, order, i, b);
    ChooseIsCh(w, x, y);
    AddedIsTotal(z, Choose(w, x, y), word, 0x5A827999, Rol(v, 5));
    z' := Added(z, Choose(w, x, y), word, 0x5A827999, Rol(v, 5));
    w' := Rol(w, 30);
  }

  method R2(v: Word, w: Word, x: Word, y: Word, z: Word, i: nat, l: array<Word>, order: ByteOrder, ghost b: Block)
    returns (w': Word, z': Word)
    requires 20 <= i < 40 && Window(l[..], order, b, i)
    modifies l
    ensures Regs(z', v, w', x, y) == Round(Regs(v, w, x, y, z), i, Schedule(b, i)) && Window(l[..], order, b, i + 1)
  {
    var word := Blk(l, order, i, b);
    AddedIsTotal(z, Parity(w, x, y), word, 0x6ED9EBA1, Rol(v, 5));
    z' := Added(z, Parity(w, x, y), word, 0x6ED9EBA1, Rol(v, 5));
    w' := Rol(w, 30);
  }

  method R3(v: Word, w: Word, x: Word, y: Word, z: Word, i: nat, l: array<Word>, order: ByteOrder, ghost b: Block)
    returns (w': Word, z': Word)
    requires 40 <= i < 60 && Window(l[..], order, b, i)
    modifies l
    ensures Regs(z', v, w', x, y) == Round(Regs(v, w, x, y, z), i, Schedule(b, i)) && Window(l[..], order, b, i + 1)
  {
    var word := Blk(l, order, i, b);
    MostIsMaj(w, x, y);
    AddedIsTotal(z, Most(w, x, y), word, 0x8F1BBCDC, Rol(v, 5));
    z' := Added(z, Most(w, x, y), word, 0x8F1BBCDC, Rol(v, 5));
    w' := Rol(w, 30);
  }

  method R4(v: Word, w: Word, x: Word, y: Word, z: Word, i: nat, l: array<Word>, order: ByteOrder, ghost b: Block)
    returns (w': Word, z': Word)
    requires 60 <= i < 80 && Window(l[..], order, b, i)
    modifies l
    ensures Regs(z', v, w', x, y) == Round(Regs(v, w, x, y, z), i, Schedule(b, i)) && Window(l[..], order, b, i + 1)
  {
    var word := Blk(l, order, i, b);
    AddedIsTotal(z, Parity(w, x, y), word, 0xCA62C1D6, Rol(v, 5));
    z' := Added(z, Parity(w, x, y), word, 0xCA62C1D6, Rol(v, 5));
    w' := Rol(w, 30);
  }

  ghost predicate Opened(i: int) { true }

  /** Before round `i`: the block and the working variables are where the standard has them. */
  ghost predicate Working(l: seq<Word>, order: ByteOrder, b: Block, h: Regs, r: Regs, i: nat)
  {
    (forall k {:trigger Opened(k)} :: Opened(k) ==> Window(l, order, b, i) && r == Rounds(h, b, i)) == true
  }

  lemma WorkingNow(l: seq<Word>, order: ByteOrder, b: Block, h: Regs, r: Regs, i: nat)
    requires Working(l, order, b, h, r, i)
    ensures Window(l, order, b, i) && r == Rounds(h, b, i)
  {
    assert Opened(0);
  }

  /** The operation the unrolled code uses for round `i`. */
  method R(v: Word, w: Word, x: Word, y: Word, z: Word, i: nat, l: array<Word>, order: ByteOrder, ghost b: Block,
      ghost h: Regs)
    returns (w': Word, z': Word)
    requires i < 80 && Working(l[..], order, b, h, Regs(v, w, x, y, z), i)
    modifies l
    ensures Working(l[..], order, b, h, Regs(z', v, w', x, y), i + 1)
  {
    WorkingNow(l[..], order, b, h, Regs(v, w, x, y, z), i);
    if i < 16 {
      w', z' := R0(v, w, x, y, z, i, l, order, b);
    } else if i < 20 {
      w', z' := R1(v, w, x, y, z, i, l, order, b);
    } else if i < 40 {
      w', z' := R2(v, w, x, y, z, i, l, order, b);
    } else if i < 60 {
      w', z' := R3(v, w, x, y, z, i, l, order, b);
    } else {
      w', z' := R4(v, w, x, y, z, i, l, order, b);
    }
  }

  /** Five operations, after which every variable has its own name back. */
  method Five(a0: Word, b0: Word, c0: Word, d0: Word, e0: Word, i: nat, l: array<Word>, order: ByteOrder,
      ghost blk: Block, ghost h: Regs)
    returns (a: Word, b: Word, c: Word, d: Word, e: Word)
    requires i < 76 && Working(l[..], order, blk, h, Regs(a0, b0, c0, d0, e0), i)
    modifies l
    ensures Working(l[..], order, blk, h, Regs(a, b, c, d, e), i + 5)
  {
    a, b, c, d, e := a0, b0, c0, d0, e0;
    b, e := R(a, b, c, d, e, i, l, order, blk, h);
    a, d := R(e, a, b, c, d, i + 1, l, order, blk, h);
    e, c := R(d, e, a, b, c, i + 2, l, order, blk, h);
    d, b := R(c, d, e, a, b, i + 3, l, order, blk, h);
    c, a := R(b, c, d, e, a, i + 4, l, order, blk, h);
  }

  /** The 80 rounds: 16 times five operations. */
  method AllRounds(h: Regs, l: array<Word>, order: ByteOrder, ghost blk: Block) returns (r: Regs)
    requires Working(l[..], order, blk, h, h, 0)
    modifies l
    ensures r == Rounds(h, blk, 80)
  {
    var a, b, c, d, e := h.a, h.b, h.c, h.d, h.e;
    var i := 0;
    while i < 80
      invariant 0 <= i <= 80 && i % 5 == 0 && Working(l[..], order, blk, h, Regs(a, b, c, d, e), i)
    {
      a, b, c, d, e := Five(a, b, c, d, e, i, l, order, blk, h);
      i := i + 5;
    }
    r := Regs(a, b, c, d, e);
    WorkingNow(l[..], order, blk, h, r, 80);
  }

  /** The five words of a state array. */
  function AsRegs(s: seq<Word>): Regs
    requires |s| == 5
  {
    Regs(s[0], s[1], s[2], s[3], s[4])
  }

  /** Copy a block into words of the machine. */
  method LoadBlock(buffer: Block, order: ByteOrder) returns (l: array<Word>)
    ensures fresh(l) && l.Length == 16 && forall k :: 0 <= k < 16 ==> l[k] == Load(order, buffer, k)
  {
    l := new Word[16](k requires 0 <= k < 16 => Load(order, buffer, k));
  }

  /** Add the working variables back. */
  method AddBack(state: array<Word>, r: Regs)
    requires state.Length == 5
    modifies state
    ensures AsRegs(state[..]) == Sum(old(AsRegs(state[..])), r)
  {
    state[0] := Plus(state[0], r.a);
    state[1] := Plus(state[1], r.b);
    state[2] := Plus(state[2], r.c);
    state[3] := Plus(state[3], r.d);
    state[4] := Plus(state[4], r.e);
  }

  lemma RoundsStart(l: seq<Word>, order: ByteOrder, b: Block, h: Regs)
    requires |l| == 16 && forall k :: 0 <= k < 16 ==> l[k] == Load(order, b, k)
    ensures Working(l, order, b, h, h, 0)
  {
  }

  /** SHA1Transform */
  method Transform(state: array<Word>, buffer: Block, order: ByteOrder)
    requires state.Length == 5
    modifies state
    ensures AsRegs(state[..]) == Compress(old(AsRegs(state[..])), buffer)
  {
    var block := LoadBlock(buffer, order);
    var h := AsRegs(state[..]);
    RoundsStart(block[..], order, buffer, h);
    var r := AllRounds(h, block, order, buffer);
    AddBack(state, r);
  }
}
