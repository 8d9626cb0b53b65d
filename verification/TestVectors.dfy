/**
 * The secure hash algorithm at the test vectors of appendices A and B of FIPS PUB 180-1: sixteen rounds at a time,
 * on literal words.
 */
module TestVectors {
  import opened Bits
  import opened SecureHash

  /** Sixteen consecutive words of a schedule. */
  datatype Words = Words(w0: Word, w1: Word, w2: Word, w3: Word, w4: Word, w5: Word, w6: Word, w7: Word,
                         w8: Word, w9: Word, w10: Word, w11: Word, w12: Word, w13: Word, w14: Word, w15: Word)

  function Mix(p: Word, q: Word, r: Word, s: Word): Word { Rol(p ^ q ^ r ^ s, 1) }

  /** The words `v` come next after the words `w`. */
  predicate Next(w: Words, v: Words)
  {
    && v.w0 == Mix(w.w13, w.w8, w.w2, w.w0)
    && v.w1 == Mix(w.w14, w.w9, w.w3, w.w1)
    && v.w2 == Mix(w.w15, w.w10, w.w4, w.w2)
    && v.w3 == Mix(v.w0, w.w11, w.w5, w.w3)
    && v.w4 == Mix(v.w1, w.w12, w.w6, w.w4)
    && v.w5 == Mix(v.w2, w.w13, w.w7, w.w5)
    && v.w6 == Mix(v.w3, w.w14, w.w8, w.w6)
    && v.w7 == Mix(v.w4, w.w15, w.w9, w.w7)
    && v.w8 == Mix(v.w5, v.w0, w.w10, w.w8)
    && v.w9 == Mix(v.w6, v.w1, w.w11, w.w9)
    && v.w10 == Mix(v.w7, v.w2, w.w12, w.w10)
    && v.w11 == Mix(v.w8, v.w3, w.w13, w.w11)
    && v.w12 == Mix(v.w9, v.w4, w.w14, w.w12)
    && v.w13 == Mix(v.w10, v.w5, w.w15, w.w13)
    && v.w14 == Mix(v.w11, v.w6, v.w0, w.w14)
    && v.w15 == Mix(v.w12, v.w7, v.w1, w.w15)
  }

  lemma NextUnique(w: Words, v: Words, v': Words)
    requires Next(w, v) && Next(w, v')
    ensures v == v'
  {
  }

  /** Words `t` to `t` + 15 of the schedule. */
  function At(b: Block, t: nat): Words
  {
    Words(Schedule(b, t), Schedule(b, t + 1), Schedule(b, t + 2), Schedule(b, t + 3),
          Schedule(b, t + 4), Schedule(b, t + 5), Schedule(b, t + 6), Schedule(b, t + 7),
          Schedule(b, t + 8), Schedule(b, t + 9), Schedule(b, t + 10), Schedule(b, t + 11),
          Schedule(b, t + 12), Schedule(b, t + 13), Schedule(b, t + 14), Schedule(b, t + 15))
  }

  function Four(r: Regs, t: nat, w: Word, x: Word, y: Word, z: Word): Regs
  {
    Round(Round(Round(Round(r, t, w), t + 1, x), t + 2, y), t + 3, z)
  }

  function Sixteen(r: Regs, t: nat, w: Words): Regs
  {
    var r4 := Four(r, t, w.w0, w.w1, w.w2, w.w3);
    var r8 := Four(r4, t + 4, w.w4, w.w5, w.w6, w.w7);
    var r12 := Four(r8, t + 8, w.w8, w.w9, w.w10, w.w11);
    Four(r12, t + 12, w.w12, w.w13, w.w14, w.w15)
  }

  lemma MixAt(b: Block, t: nat)
    ensures Schedule(b, t + 16) == Mix(Schedule(b, t + 13), Schedule(b, t + 8), Schedule(b, t + 2), Schedule(b, t))
  {
    var u := t + 16;
    assert u - 3 == t + 13 && u - 8 == t + 8 && u - 14 == t + 2 && u - 16 == t;
  }

  lemma NextWords(b: Block, t: nat)
    ensures Next(At(b, t), At(b, t + 16))
  {
    MixAt(b, t);
    MixAt(b, t + 1);
    MixAt(b, t + 2);
    MixAt(b, t + 3);
    MixAt(b, t + 4);
    MixAt(b, t + 5);
    MixAt(b, t + 6);
    MixAt(b, t + 7);
    MixAt(b, t + 8);
    MixAt(b, t + 9);
    MixAt(b, t + 10);
    MixAt(b, t + 11);
    MixAt(b, t + 12);
    MixAt(b, t + 13);
    MixAt(b, t + 14);
    MixAt(b, t + 15);
  }

  lemma FourRounds(h: Regs, b: Block, t: nat)
    ensures Rounds(h, b, t + 4)
         == Four(Rounds(h, b, t), t, Schedule(b, t), Schedule(b, t + 1), Schedule(b, t + 2), Schedule(b, t + 3))
  {
    assert Rounds(h, b, t + 1) == Round(Rounds(h, b, t), t, Schedule(b, t));
    assert Rounds(h, b, t + 2) == Round(Rounds(h, b, t + 1), t + 1, Schedule(b, t + 1));
    assert Rounds(h, b, t + 3) == Round(Rounds(h, b, t + 2), t + 2, Schedule(b, t + 2));
  }

  lemma SixteenRounds(h: Regs, b: Block, t: nat)
    ensures Rounds(h, b, t + 16) == Sixteen(Rounds(h, b, t), t, At(b, t))
  {
    FourRounds(h, b, t);
    FourRounds(h, b, t + 4);
    FourRounds(h, b, t + 8);
    FourRounds(h, b, t + 12);
  }

  ghost predicate Opened(i: int) { true }

  /** Sixteen rounds lead from `r` to `s`; in view only where `Opened` is mentioned. */
  ghost predicate Leads(r: Regs, t: nat, w: Words, s: Regs)
  {
    (forall i {:trigger Opened(i)} :: Opened(i) ==> Sixteen(r, t, w) == s) == true
  }

  /** The words `v` follow the words `w`; in view only where `Opened` is mentioned. */
  ghost predicate Follow(w: Words, v: Words)
  {
    (forall i {:trigger Opened(i)} :: Opened(i) ==> Next(w, v)) == true
  }

  /** After `t` rounds the buffer is `r` and the next words are `w`; in view only where `Opened` is mentioned. */
  ghost predicate Reached(h: Regs, b: Block, t: nat, r: Regs, w: Words)
  {
    (forall i {:trigger Opened(i)} :: Opened(i) ==> Rounds(h, b, t) == r && At(b, t) == w) == true
  }

  lemma Start(h: Regs, b: Block, w: Words)
    requires At(b, 0) == w
    ensures Reached(h, b, 0, h, w)
  {
  }

  lemma Onward(h: Regs, b: Block, t: nat, r: Regs, w: Words, s: Regs, v: Words)
    requires Reached(h, b, t, r, w) && Leads(r, t, w, s) && Follow(w, v)
    ensures Reached(h, b, t + 16, s, v)
  {
    assert Opened(0);
    SixteenRounds(h, b, t);
    NextWords(b, t);
    NextUnique(w, v, At(b, t + 16));
  }

  lemma Finish(h: Regs, b: Block, r: Regs, w: Words, s: Regs, x: Regs)
    requires Reached(h, b, 64, r, w) && Leads(r, 64, w, s) && Sum(h, s) == x
    ensures Compress(h, b) == x
  {
    assert Opened(0);
    SixteenRounds(h, b, 64);
  }

  // ----- "abc"

  const ABC_W0 := Words(
    0x61626380, 0x00000000, 0x00000000, 0x00000000, 0x00000000, 0x00000000, 0x00000000, 0x00000000,
    0x00000000, 0x00000000, 0x00000000, 0x00000000, 0x00000000, 0x00000000, 0x00000000, 0x00000018)

  const ABC_W1 := Words(
    0xC2C4C700, 0x00000000, 0x00000030, 0x85898E01, 0x00000000, 0x00000060, 0x0B131C03, 0x00000030,
    0x85898EC1, 0x16263806, 0x00000000, 0x00000180, 0x2C4C700C, 0x000000F0, 0x93AFB507, 0x5898E048)

  const ABC_W2 := Words(
    0x8E9A9202, 0x00000600, 0xB131C0F0, 0x16263BC6, 0x4EBED41E, 0x626380A1, 0x16263806, 0x000018C0,
    0xD2E138C4, 0x00000F00, 0x3AFB5079, 0x898E04E5, 0xE2BA3C2B, 0x000060C0, 0x053A37CD, 0x74458547)

  const ABC_W3 := Words(
    0xDA9415ED, 0x26380A16, 0x626383A1, 0x4EBF54DE, 0x3835B44B, 0x0000F600, 0x1E84C7A3, 0x98E04D98,
    0x651D16A0, 0x62658CA1, 0x458544D6, 0x44584CB7, 0x7BA06619, 0x6380AEA2, 0x0AE55269, 0x627B49A1)

  const ABC_W4 := Words(
    0x7CD45C9D, 0x000F0000, 0xFB50753A, 0xEC6765E8, 0xBA3C2BE2, 0x0060C000, 0x3A37CD05, 0x458546F4,
    0xB8599DD6, 0x380A1A26, 0x01E02203, 0xE7CC3456, 0xE6E60B69, 0x00F60A00, 0x5795EF4F, 0x822E0879)

  const ABC_R1 := Regs(0x20BDD62F, 0x196BEE77, 0x644A3DA5, 0x1181ED99, 0x18C623F9)
  const ABC_R2 := Regs(0x3B845D33, 0x1267B407, 0x717EEBD7, 0xA0DC2D4B, 0xD2AA1365)
  const ABC_R3 := Regs(0xBEAD02CA, 0xA01B846C, 0x8714787C, 0x503CA382, 0xFB86C6AB)
  const ABC_R4 := Regs(0x6B61C9E1, 0xB66C020B, 0x9523272C, 0xF5D5B051, 0x8FD4B796)
  const ABC_R5 := Regs(0x42541B35, 0x5738D5E1, 0x21834873, 0x681E6DF6, 0xD8FDF6AD)

  lemma AbcRounds0()
    ensures Leads(INITIAL, 0, ABC_W0, ABC_R1)
  {
  }

  lemma AbcWords0()
    ensures Follow(ABC_W0, ABC_W1)
  {
  }

  lemma AbcRounds1()
    ensures Leads(ABC_R1, 16, ABC_W1, ABC_R2)
  {
  }

  lemma AbcWords1()
    ensures Follow(ABC_W1, ABC_W2)
  {
  }

  lemma AbcRounds2()
    ensures Leads(ABC_R2, 32, ABC_W2, ABC_R3)
  {
  }

  lemma AbcWords2()
    ensures Follow(ABC_W2, ABC_W3)
  {
  }

  lemma AbcRounds3()
    ensures Leads(ABC_R3, 48, ABC_W3, ABC_R4)
  {
  }

  lemma AbcWords3()
    ensures Follow(ABC_W3, ABC_W4)
  {
  }

  lemma AbcRounds4()
    ensures Leads(ABC_R4, 64, ABC_W4, ABC_R5)
  {
  }

  lemma AbcSum()
    ensures Sum(INITIAL, ABC_R5) == Regs(0xA9993E36, 0x4706816A, 0xBA3E2571, 0x7850C26C, 0x9CD0D89D)
  {
  }

  lemma AbcBlock(b: Block)
    requires Reached(INITIAL, b, 0, INITIAL, ABC_W0)
    ensures Compress(INITIAL, b) == Regs(0xA9993E36, 0x4706816A, 0xBA3E2571, 0x7850C26C, 0x9CD0D89D)
  {
    AbcRounds0();
    AbcWords0();
    Onward(INITIAL, b, 0, INITIAL, ABC_W0, ABC_R1, ABC_W1);
    AbcRounds1();
    AbcWords1();
    Onward(INITIAL, b, 16, ABC_R1, ABC_W1, ABC_R2, ABC_W2);
    AbcRounds2();
    AbcWords2();
    Onward(INITIAL, b, 32, ABC_R2, ABC_W2, ABC_R3, ABC_W3);
    AbcRounds3();
    AbcWords3();
    Onward(INITIAL, b, 48, ABC_R3, ABC_W3, ABC_R4, ABC_W4);
    AbcRounds4();
    AbcSum();
    Finish(INITIAL, b, ABC_R4, ABC_W4, ABC_R5, Regs(0xA9993E36, 0x4706816A, 0xBA3E2571, 0x7850C26C, 0x9CD0D89D));
  }

  // ----- the first block of the longer message

  const LONG_W0 := Words(
    0x61626364, 0x62636465, 0x63646566, 0x64656667, 0x65666768, 0x66676869, 0x6768696A, 0x68696A6B,
    0x696A6B6C, 0x6A6B6C6D, 0x6B6C6D6E, 0x6C6D6E6F, 0x6D6E6F70, 0x6E6F7071, 0x80000000, 0x00000000)

  const LONG_W1 := Words(
    0x0A063A3E, 0xD8DADCDF, 0xDADCDEC0, 0xC8D2B4BE, 0x6F757B5B, 0x757B5967, 0x8DA16D70, 0xDAEEFABA,
    0xFAF6CAB6, 0xA6FB675A, 0x0C604CC8, 0x604CC02C, 0x49C0E6E2, 0x2EE8CBBC, 0xCFD72EC4, 0x97E9810E)

  const LONG_W2 := Words(
    0x0989CBE8, 0xF24843FE, 0x5C40D0BA, 0xA8D9CC3B, 0xB2B9666E, 0xBA7B71B7, 0x20B28A72, 0xB28AF500,
    0x8AC87842, 0x289ADDF4, 0x56D51F21, 0xD96B7FD2, 0x3868E778, 0xAB5E4848, 0x7F0E2118, 0xDE87A111)

  const LONG_W3 := Words(
    0xE8BE56B0, 0x1A0AE652, 0xCD5611C8, 0x46EF29DC, 0x60D3DA6D, 0xDDF3BA6E, 0x2737F5E9, 0x4888A710,
    0xD2A1177B, 0x9999633B, 0xD6C69D03, 0xCCF6127B, 0x7C58FE6D, 0xFDD99C68, 0xF8E32074, 0xE0BA3C7D)

  const LONG_W4 := Words(
    0x152198D6, 0x7B3F1982, 0x37F2D5B7, 0x8596323E, 0x810790D6, 0xBEA0A942, 0x11C7E1B1, 0x6158D101,
    0x5FCD77D9, 0x7F2F12E6, 0xF868CFB1, 0xD6E997E9, 0xF526B852, 0xB7578DCC, 0x55D99DF4, 0x1FF69958)

  const LONG_R1 := Regs(0x42637E39, 0xB2E7A8BE, 0x4CBE52A1, 0xA180D207, 0xB867B2A8)
  const LONG_R2 := Regs(0x52E31F60, 0xA9C84BEC, 0x816D15EC, 0x78448908, 0x3549A991)
  const LONG_R3 := Regs(0xC8A69090, 0xA2AD4F02, 0xB1BA8907, 0x26307A99, 0x58CFA558)
  const LONG_R4 := Regs(0x513F9CA0, 0x2BFAF7A8, 0x10203537, 0xCD8952C4, 0xE7BDDD70)
  const LONG_R5 := Regs(0x8CE34517, 0xD3AD7C25, 0x6B4E1883, 0x74351CD2, 0x86838382)

  lemma LongRounds0()
    ensures Leads(INITIAL, 0, LONG_W0, LONG_R1)
  {
  }

  lemma LongWords0()
    ensures Follow(LONG_W0, LONG_W1)
  {
  }

  lemma LongRounds1()
    ensures Leads(LONG_R1, 16, LONG_W1, LONG_R2)
  {
  }

  lemma LongWords1()
    ensures Follow(LONG_W1, LONG_W2)
  {
  }

  lemma LongRounds2()
    ensures Leads(LONG_R2, 32, LONG_W2, LONG_R3)
  {
  }

  lemma LongWords2()
    ensures Follow(LONG_W2, LONG_W3)
  {
  }

  lemma LongRounds3()
    ensures Leads(LONG_R3, 48, LONG_W3, LONG_R4)
  {
  }

  lemma LongWords3()
    ensures Follow(LONG_W3, LONG_W4)
  {
  }

  lemma LongRounds4()
    ensures Leads(LONG_R4, 64, LONG_W4, LONG_R5)
  {
  }

  lemma LongSum()
    ensures Sum(INITIAL, LONG_R5) == Regs(0xF4286818, 0xC37B27AE, 0x0408F581, 0x84677148, 0x4A566572)
  {
  }

  lemma LongBlock(b: Block)
    requires Reached(INITIAL, b, 0, INITIAL, LONG_W0)
    ensures Compress(INITIAL, b) == Regs(0xF4286818, 0xC37B27AE, 0x0408F581, 0x84677148, 0x4A566572)
  {
    LongRounds0();
    LongWords0();
    Onward(INITIAL, b, 0, INITIAL, LONG_W0, LONG_R1, LONG_W1);
    LongRounds1();
    LongWords1();
    Onward(INITIAL, b, 16, LONG_R1, LONG_W1, LONG_R2, LONG_W2);
    LongRounds2();
    LongWords2();
    Onward(INITIAL, b, 32, LONG_R2, LONG_W2, LONG_R3, LONG_W3);
    LongRounds3();
    LongWords3();
    Onward(INITIAL, b, 48, LONG_R3, LONG_W3, LONG_R4, LONG_W4);
    LongRounds4();
    LongSum();
    Finish(INITIAL, b, LONG_R4, LONG_W4, LONG_R5, Regs(0xF4286818, 0xC37B27AE, 0x0408F581, 0x84677148, 0x4A566572));
  }

  /** The hash value between the two blocks. */
  const HALF := Regs(0xF4286818, 0xC37B27AE, 0x0408F581, 0x84677148, 0x4A566572)

  // ----- its second block

  const REST_W0 := Words(
    0x00000000, 0x00000000, 0x00000000, 0x00000000, 0x00000000, 0x00000000, 0x00000000, 0x00000000,
    0x00000000, 0x00000000, 0x00000000, 0x00000000, 0x00000000, 0x00000000, 0x00000000, 0x000001C0)

  const REST_W1 := Words(
    0x00000000, 0x00000000, 0x00000380, 0x00000000, 0x00000000, 0x00000700, 0x00000000, 0x00000380,
    0x00000E00, 0x00000000, 0x00000000, 0x00001C00, 0x00000000, 0x00000D80, 0x00003800, 0x00000480)

  const REST_W2 := Words(
    0x00000000, 0x00007000, 0x00000E00, 0x00003600, 0x0000E000, 0x00000E00, 0x00000000, 0x0001CE00,
    0x00000000, 0x0000D800, 0x00038000, 0x00004F00, 0x00000000, 0x00070E00, 0x0000EE00, 0x00037500)

  const REST_W3 := Words(
    0x000E0000, 0x0000E000, 0x00003600, 0x001CEE00, 0x00000000, 0x000DF000, 0x00380000, 0x0004C600,
    0x0000E000, 0x0070EE00, 0x000EE000, 0x00369E00, 0x00E00000, 0x000ED600, 0x0000E000, 0x01CEA600)

  const REST_W4 := Words(
    0x00000000, 0x00D80000, 0x0380E000, 0x004F0000, 0x00000000, 0x070E0000, 0x00EE0000, 0x03751C00,
    0x0E000000, 0x00E0E000, 0x00363800, 0x1CEE9000, 0x00000000, 0x0DF09000, 0x3800E000, 0x04C77400)

  const REST_R1 := Regs(0xD9772360, 0x258B0BAA, 0x2898132A, 0xFFB35EEF, 0xD0E89E4B)
  const REST_R2 := Regs(0x8A4AF384, 0x17986223, 0x028BEC42, 0xC90A6F97, 0xD7105B6B)
  const REST_R3 := Regs(0x46F93B68, 0x7316056A, 0xB0F40CFA, 0xCF2BB5EB, 0x7B074F58)
  const REST_R4 := Regs(0xD504902B, 0xF66D9BF4, 0x24D85327, 0xDEAAC406, 0xE996063D)
  const REST_R5 := Regs(0x906FD62C, 0x58C0AAC0, 0xB6A55520, 0x74E9B89D, 0x9AF00B7F)

  lemma RestRounds0()
    ensures Leads(HALF, 0, REST_W0, REST_R1)
  {
  }

  lemma RestWords0()
    ensures Follow(REST_W0, REST_W1)
  {
  }

  lemma RestRounds1()
    ensures Leads(REST_R1, 16, REST_W1, REST_R2)
  {
  }

  lemma RestWords1()
    ensures Follow(REST_W1, REST_W2)
  {
  }

  lemma RestRounds2()
    ensures Leads(REST_R2, 32, REST_W2, REST_R3)
  {
  }

  lemma RestWords2()
    ensures Follow(REST_W2, REST_W3)
  {
  }

  lemma RestRounds3()
    ensures Leads(REST_R3, 48, REST_W3, REST_R4)
  {
  }

  lemma RestWords3()
    ensures Follow(REST_W3, REST_W4)
  {
  }

  lemma RestRounds4()
    ensures Leads(REST_R4, 64, REST_W4, REST_R5)
  {
  }

  lemma RestSum()
    ensures Sum(HALF, REST_R5) == Regs(0x84983E44, 0x1C3BD26E, 0xBAAE4AA1, 0xF95129E5, 0xE54670F1)
  {
  }

  lemma RestBlock(b: Block)
    requires Reached(HALF, b, 0, HALF, REST_W0)
    ensures Compress(HALF, b) == Regs(0x84983E44, 0x1C3BD26E, 0xBAAE4AA1, 0xF95129E5, 0xE54670F1)
  {
    RestRounds0();
    RestWords0();
    Onward(HALF, b, 0, HALF, REST_W0, REST_R1, REST_W1);
    RestRounds1();
    RestWords1();
    Onward(HALF, b, 16, REST_R1, REST_W1, REST_R2, REST_W2);
    RestRounds2();
    RestWords2();
    Onward(HALF, b, 32, REST_R2, REST_W2, REST_R3, REST_W3);
    RestRounds3();
    RestWords3();
    Onward(HALF, b, 48, REST_R3, REST_W3, REST_R4, REST_W4);
    RestRounds4();
    RestSum();
    Finish(HALF, b, REST_R4, REST_W4, REST_R5, Regs(0x84983E44, 0x1C3BD26E, 0xBAAE4AA1, 0xF95129E5, 0xE54670F1));
  }

  // ----- the padded messages

  lemma SmallPowers()
    ensures Pow2(0) == 1 && Pow2(8) == 0x100 && Pow2(16) == 0x1_0000 && Pow2(24) == 0x100_0000
  {
    assert Pow2(4) == 16 && Pow2(12) == 4096 && Pow2(20) == 0x10_0000;
  }

  lemma SmallShifts(n: nat)
    requires n < 0x1_0000
    ensures Shr(n, 24) == Shr(n, 16) == 0 && Shr(n, 8) == n / 256 && Shr(n, 0) == n
  {
    SmallPowers();
  }

  lemma TwoBytes(n: nat, high: nat, low: nat)
    requires high < 256 && low < 256 && n == 256 * high + low
    ensures NumberBytes(n) == [0 as Octet, 0 as Octet, high as Octet, low as Octet]
  {
    SmallShifts(n);
    assert n / 256 == high && high % 256 == high && n % 256 == low;
    ByteIs(n, 0, 0);
    ByteIs(n, 1, 0);
    ByteIs(n, 2, high);
    ByteIs(n, 3, low);
  }

  lemma ByteIs(n: nat, k: nat, v: nat)
    requires k < 4 && v < 256 && Shr(n, 8 * (3 - k)) % 256 == v
    ensures NumberByte(n, k) == v as Octet
  {
  }

  lemma ZeroBytes()
    ensures NumberBytes(0) == [0, 0, 0, 0]
  {
    TwoBytes(0, 0, 0);
  }

  lemma AbcBits()
    ensures NumberBytes(24) == [0, 0, 0, 24]
  {
    TwoBytes(24, 0, 24);
  }

  lemma LongBits()
    ensures NumberBytes(448) == [0, 0, 1, 0xC0]
  {
    TwoBytes(448, 1, 192);
  }

  /** The length of a message below 2^32 bits has an empty high word. */
  lemma ShortLength(n: nat)
    requires n < TWO32
    ensures LengthBytes(n) == [0, 0, 0, 0] + NumberBytes(n)
  {
    ZeroBytes();
    assert n / TWO32 % TWO32 == 0 && n % TWO32 == n;
  }

  lemma AbcLength()
    ensures LengthBytes(24) == [0, 0, 0, 0, 0, 0, 0, 24]
  {
    ShortLength(24);
    AbcBits();
  }

  lemma LongLength()
    ensures LengthBytes(448) == [0, 0, 0, 0, 0, 0, 1, 0xC0]
  {
    ShortLength(448);
    LongBits();
  }

  lemma JoinAgain(m: seq<Octet>, k: seq<Octet>, z: seq<Octet>, n: seq<Octet>)
    ensures m + (k + z + n) == m + k + z + n
  {
  }

  lemma PaddedIs(m: seq<Octet>, z: seq<Octet>, n: seq<Octet>)
    requires z == seq(ZeroCount(|m|), _ => 0) && n == LengthBytes(8 * |m|)
    ensures m + Padding(|m|) == m + [0x80] + z + n
  {
    JoinAgain(m, [0x80], z, n);
  }

  lemma ZerosCut(m: seq<Octet>, i: nat, j: nat, n: seq<Octet>)
    ensures m + seq(i + j, _ => 0) + n == (m + seq(i, _ => 0)) + (seq(j, _ => 0) + n)
  {
  }

  // ----- the shorter message

  const ABC: seq<Octet> := [0x61, 0x62, 0x63]

  lemma AbcWordsAt(b: Block)
    requires b == ABC + [0x80] + seq(52, _ => 0) + [0, 0, 0, 0, 0, 0, 0, 24]
    ensures At(b, 0) == ABC_W0
  {
    assert b[0] == 0x61 && b[1] == 0x62 && b[2] == 0x63 && b[3] == 0x80;
    assert forall i :: 4 <= i < 63 ==> b[i] == 0;
  }

  lemma AbcLoad(b: Block)
    requires b == ABC + [0x80] + seq(52, _ => 0) + [0, 0, 0, 0, 0, 0, 0, 24]
    ensures Reached(INITIAL, b, 0, INITIAL, ABC_W0)
  {
    AbcWordsAt(b);
    Start(INITIAL, b, ABC_W0);
  }

  lemma AbcOne(b: Block)
    requires b == ABC + [0x80] + seq(52, _ => 0) + [0, 0, 0, 0, 0, 0, 0, 24]
    ensures Absorb(INITIAL, b) == Regs(0xA9993E36, 0x4706816A, 0xBA3E2571, 0x7850C26C, 0x9CD0D89D)
  {
    AbcLoad(b);
    AbcBlock(b);
    AbsorbOne(INITIAL, b);
  }

  lemma AbcAbsorb(n: seq<Octet>)
    requires n == LengthBytes(24) && n == [0, 0, 0, 0, 0, 0, 0, 24]
    ensures Absorb(INITIAL, ABC + Padding(3)) == Regs(0xA9993E36, 0x4706816A, 0xBA3E2571, 0x7850C26C, 0x9CD0D89D)
  {
    PaddedIs(ABC, seq(52, _ => 0), n);
    AbcOne(ABC + [0x80] + seq(52, _ => 0) + n);
  }

  lemma AbcBytes()
    ensures RegsBytes(Regs(0xA9993E36, 0x4706816A, 0xBA3E2571, 0x7850C26C, 0x9CD0D89D))
         == [0xA9, 0x99, 0x3E, 0x36, 0x47, 0x06, 0x81, 0x6A, 0xBA, 0x3E,
             0x25, 0x71, 0x78, 0x50, 0xC2, 0x6C, 0x9C, 0xD0, 0xD8, 0x9D]
  {
  }

  /** Appendix A: the digest of "abc". */
  lemma AbcDigest()
    ensures Digest(ABC) == [0xA9, 0x99, 0x3E, 0x36, 0x47, 0x06, 0x81, 0x6A, 0xBA, 0x3E,
                            0x25, 0x71, 0x78, 0x50, 0xC2, 0x6C, 0x9C, 0xD0, 0xD8, 0x9D]
  {
    AbcLength();
    AbcAbsorb(LengthBytes(24));
    AbcBytes();
  }

  // ----- the longer message

  const LONG: seq<Octet> :=
    [0x61, 0x62, 0x63, 0x64, 0x62, 0x63, 0x64, 0x65, 0x63, 0x64, 0x65, 0x66, 0x64, 0x65, 0x66, 0x67] +
    [0x65, 0x66, 0x67, 0x68, 0x66, 0x67, 0x68, 0x69, 0x67, 0x68, 0x69, 0x6A, 0x68, 0x69, 0x6A, 0x6B] +
    [0x69, 0x6A, 0x6B, 0x6C, 0x6A, 0x6B, 0x6C, 0x6D, 0x6B, 0x6C, 0x6D, 0x6E, 0x6C, 0x6D, 0x6E, 0x6F] +
    [0x6D, 0x6E, 0x6F, 0x70, 0x6E, 0x6F, 0x70, 0x71]

  lemma LongWordsAt(b: Block)
    requires b == LONG + [0x80] + seq(7, _ => 0)
    ensures At(b, 0) == LONG_W0
  {
  }

  lemma LongLoad(b: Block)
    requires b == LONG + [0x80] + seq(7, _ => 0)
    ensures Reached(INITIAL, b, 0, INITIAL, LONG_W0)
  {
    LongWordsAt(b);
    Start(INITIAL, b, LONG_W0);
  }

  lemma RestWordsAt(b: Block)
    requires b == seq(56, _ => 0) + [0, 0, 0, 0, 0, 0, 1, 0xC0]
    ensures At(b, 0) == REST_W0
  {
    assert forall i :: 0 <= i < 62 ==> b[i] == 0;
    assert b[62] == 1 && b[63] == 0xC0;
  }

  lemma RestLoad(b: Block)
    requires b == seq(56, _ => 0) + [0, 0, 0, 0, 0, 0, 1, 0xC0]
    ensures Reached(HALF, b, 0, HALF, REST_W0)
  {
    RestWordsAt(b);
    Start(HALF, b, REST_W0);
  }

  lemma TwoBlocks(h: Regs, a: Block, b: Block)
    ensures Absorb(h, a + b) == Compress(Compress(h, a), b)
  {
    AbsorbOne(h, a);
    AbsorbBlock(h, a, b, a + b);
  }

  lemma LongBlocks(a: Block, b: Block)
    requires Reached(INITIAL, a, 0, INITIAL, LONG_W0) && Reached(HALF, b, 0, HALF, REST_W0)
    ensures Absorb(INITIAL, a + b) == Regs(0x84983E44, 0x1C3BD26E, 0xBAAE4AA1, 0xF95129E5, 0xE54670F1)
  {
    LongBlock(a);
    RestBlock(b);
    TwoBlocks(INITIAL, a, b);
  }

  /** The padding of a message of 56 bytes fills a second block. */
  lemma PaddedTwice(m: seq<Octet>, n: seq<Octet>)
    requires |m| == 56 && n == LengthBytes(448)
    ensures m + Padding(56) == (m + [0x80] + seq(7, _ => 0)) + (seq(56, _ => 0) + n)
  {
    ZerosCut(m + [0x80], 7, 56, n);
    PaddedIs(m, seq(7 + 56, _ => 0), n);
  }

  lemma LongAbsorb(n: seq<Octet>)
    requires n == LengthBytes(448) && n == [0, 0, 0, 0, 0, 0, 1, 0xC0]
    ensures Absorb(INITIAL, LONG + Padding(56)) == Regs(0x84983E44, 0x1C3BD26E, 0xBAAE4AA1, 0xF95129E5, 0xE54670F1)
  {
    var a, b := LONG + [0x80] + seq(7, _ => 0), seq(56, _ => 0) + n;
    PaddedTwice(LONG, n);
    LongLoad(a);
    RestLoad(b);
    LongBlocks(a, b);
  }

  lemma LongBytes()
    ensures RegsBytes(Regs(0x84983E44, 0x1C3BD26E, 0xBAAE4AA1, 0xF95129E5, 0xE54670F1))
         == [0x84, 0x98, 0x3E, 0x44, 0x1C, 0x3B, 0xD2, 0x6E, 0xBA, 0xAE,
             0x4A, 0xA1, 0xF9, 0x51, 0x29, 0xE5, 0xE5, 0x46, 0x70, 0xF1]
  {
  }

  /** Appendix B: the digest of "abcdbcdecdefdefgefghfghighijhijkijkljklmklmnlmnomnopnopq". */
  lemma LongDigest()
    ensures Digest(LONG) == [0x84, 0x98, 0x3E, 0x44, 0x1C, 0x3B, 0xD2, 0x6E, 0xBA, 0xAE,
                             0x4A, 0xA1, 0xF9, 0x51, 0x29, 0xE5, 0xE5, 0x46, 0x70, 0xF1]
  {
    LongLength();
    LongAbsorb(LengthBytes(448));
    LongBytes();
  }
}
