/** The bits of keys and blocks of src/d3des.c as digits of their bytes, the most significant
    first (FIPS 46-3). */
module DesBits {
  import Radix
  import opened ByteSeqs
  import opened Des
  import opened DesKeys
  import opened DesStandard

  /** Digit m of a byte, counted from the most significant. */
  function Digit(b: byte, m: nat): nat
    requires m < 8
  {
    (b as nat / Radix.Pow(2, 7 - m)) % 2
  }

  lemma Powers()
    ensures Radix.Pow(2, 0) == 1 && Radix.Pow(2, 1) == 2 && Radix.Pow(2, 2) == 4 && Radix.Pow(2, 3) == 8
    ensures Radix.Pow(2, 4) == 16 && Radix.Pow(2, 5) == 32 && Radix.Pow(2, 6) == 64 && Radix.Pow(2, 7) == 128
  {
  }

  lemma Mask0(b: byte)
    ensures (b & 0x80 != 0) == ((b as nat / 128) % 2 == 1)
  {
  }

  lemma Mask1(b: byte)
    ensures (b & 0x40 != 0) == ((b as nat / 64) % 2 == 1)
  {
  }

  lemma Mask2(b: byte)
    ensures (b & 0x20 != 0) == ((b as nat / 32) % 2 == 1)
  {
  }

  lemma Mask3(b: byte)
    ensures (b & 0x10 != 0) == ((b as nat / 16) % 2 == 1)
  {
  }

  lemma Mask4(b: byte)
    ensures (b & 0x08 != 0) == ((b as nat / 8) % 2 == 1)
  {
  }

  lemma Mask5(b: byte)
    ensures (b & 0x04 != 0) == ((b as nat / 4) % 2 == 1)
  {
  }

  lemma Mask6(b: byte)
    ensures (b & 0x02 != 0) == ((b as nat / 2) % 2 == 1)
  {
  }

  lemma Mask7(b: byte)
    ensures (b & 0x01 != 0) == ((b as nat / 1) % 2 == 1)
  {
  }

  lemma MaskIs(b: byte, m: nat)
    requires m < 8
    ensures DigitSet(b, m) == (Digit(b, m) == 1)
  {
    Powers();
    hide Radix.Pow;
    if m == 0 {
      Mask0(b);
    } else if m == 1 {
      Mask1(b);
    } else if m == 2 {
      Mask2(b);
    } else if m == 3 {
      Mask3(b);
    } else if m == 4 {
      Mask4(b);
    } else if m == 5 {
      Mask5(b);
    } else if m == 6 {
      Mask6(b);
    } else {
      Mask7(b);
    }
  }

  predicate Set(b: byte, n: byte) { b & n != 0 }

  predicate DigitSet(b: byte, m: nat)
    requires m < 8
  {
    Set(b, ByteBit(m))
  }

  /** Bit l of a key is a digit of its byte l / 8. */
  lemma KeyBitIs(key: seq<byte>, l: nat)
    requires |key| == 8 && l < 64
    ensures KeyBit(key, l) == (Digit(key[l / 8], l % 8) == 1)
  {
    MaskIs(key[l / 8], l % 8);
    hide Digit;
  }

  /** The halves are turned left: place j takes the bit n places on, round its half. */
  lemma TurnedIs(bits: seq<bool>, n: nat, j: nat)
    requires |bits| == 56 && n <= 28 && j < 28
    ensures Turned(bits, n)[j] == bits[(j + n) % 28] && Turned(bits, n)[28 + j] == bits[28 + (j + n) % 28]
  {
  }

  // ----- blocks

  predicate SameBit(w: word, m: word, b: byte, n: byte) { (w & m != 0) == (b & n != 0) }

  lemma SameBitIs(w: word, m: word, b: byte, n: byte)
    ensures SameBit(w, m, b, n) <==> Has(w, m) == Set(b, n)
  {
  }

  lemma WordBits0A(b0: byte, b1: byte, b2: byte, b3: byte)
    ensures SameBit(Word(b0, b1, b2, b3), 0x80000000, b0, 0x80)
    ensures SameBit(Word(b0, b1, b2, b3), 0x40000000, b0, 0x40)
    ensures SameBit(Word(b0, b1, b2, b3), 0x20000000, b0, 0x20)
    ensures SameBit(Word(b0, b1, b2, b3), 0x10000000, b0, 0x10)
  {
  }

  lemma WordBits0B(b0: byte, b1: byte, b2: byte, b3: byte)
    ensures SameBit(Word(b0, b1, b2, b3), 0x08000000, b0, 0x08)
    ensures SameBit(Word(b0, b1, b2, b3), 0x04000000, b0, 0x04)
    ensures SameBit(Word(b0, b1, b2, b3), 0x02000000, b0, 0x02)
    ensures SameBit(Word(b0, b1, b2, b3), 0x01000000, b0, 0x01)
  {
  }

  lemma WordBits1A(b0: byte, b1: byte, b2: byte, b3: byte)
    ensures SameBit(Word(b0, b1, b2, b3), 0x00800000, b1, 0x80)
    ensures SameBit(Word(b0, b1, b2, b3), 0x00400000, b1, 0x40)
    ensures SameBit(Word(b0, b1, b2, b3), 0x00200000, b1, 0x20)
    ensures SameBit(Word(b0, b1, b2, b3), 0x00100000, b1, 0x10)
  {
  }

  lemma WordBits1B(b0: byte, b1: byte, b2: byte, b3: byte)
    ensures SameBit(Word(b0, b1, b2, b3), 0x00080000, b1, 0x08)
    ensures SameBit(Word(b0, b1, b2, b3), 0x00040000, b1, 0x04)
    ensures SameBit(Word(b0, b1, b2, b3), 0x00020000, b1, 0x02)
    ensures SameBit(Word(b0, b1, b2, b3), 0x00010000, b1, 0x01)
  {
  }

  lemma WordBits2A(b0: byte, b1: byte, b2: byte, b3: byte)
    ensures SameBit(Word(b0, b1, b2, b3), 0x00008000, b2, 0x80)
    ensures SameBit(Word(b0, b1, b2, b3), 0x00004000, b2, 0x40)
    ensures SameBit(Word(b0, b1, b2, b3), 0x00002000, b2, 0x20)
    ensures SameBit(Word(b0, b1, b2, b3), 0x00001000, b2, 0x10)
  {
  }

  lemma WordBits2B(b0: byte, b1: byte, b2: byte, b3: byte)
    ensures SameBit(Word(b0, b1, b2, b3), 0x00000800, b2, 0x08)
    ensures SameBit(Word(b0, b1, b2, b3), 0x00000400, b2, 0x04)
    ensures SameBit(Word(b0, b1, b2, b3), 0x00000200, b2, 0x02)
    ensures SameBit(Word(b0, b1, b2, b3), 0x00000100, b2, 0x01)
  {
  }

  lemma WordBits3A(b0: byte, b1: byte, b2: byte, b3: byte)
    ensures SameBit(Word(b0, b1, b2, b3), 0x00000080, b3, 0x80)
    ensures SameBit(Word(b0, b1, b2, b3), 0x00000040, b3, 0x40)
    ensures SameBit(Word(b0, b1, b2, b3), 0x00000020, b3, 0x20)
    ensures SameBit(Word(b0, b1, b2, b3), 0x00000010, b3, 0x10)
  {
  }

  lemma WordBits3B(b0: byte, b1: byte, b2: byte, b3: byte)
    ensures SameBit(Word(b0, b1, b2, b3), 0x00000008, b3, 0x08)
    ensures SameBit(Word(b0, b1, b2, b3), 0x00000004, b3, 0x04)
    ensures SameBit(Word(b0, b1, b2, b3), 0x00000002, b3, 0x02)
    ensures SameBit(Word(b0, b1, b2, b3), 0x00000001, b3, 0x01)
  {
  }

  lemma WordBit0(b0: byte, b1: byte, b2: byte, b3: byte, m: nat)
    requires m < 8
    ensures Bit(Word(b0, b1, b2, b3), 0 + m + 1) == DigitSet(b0, m)
  {
    var w := Word(b0, b1, b2, b3);
    WordBits0A(b0, b1, b2, b3);
    WordBits0B(b0, b1, b2, b3);
    hide Word, Has, Set, SameBit;
    if m == 0 {
      SameBitIs(w, 0x80000000, b0, 0x80);
    } else if m == 1 {
      SameBitIs(w, 0x40000000, b0, 0x40);
    } else if m == 2 {
      SameBitIs(w, 0x20000000, b0, 0x20);
    } else if m == 3 {
      SameBitIs(w, 0x10000000, b0, 0x10);
    } else if m == 4 {
      SameBitIs(w, 0x08000000, b0, 0x08);
    } else if m == 5 {
      SameBitIs(w, 0x04000000, b0, 0x04);
    } else if m == 6 {
      SameBitIs(w, 0x02000000, b0, 0x02);
    } else {
      SameBitIs(w, 0x01000000, b0, 0x01);
    }
  }

  lemma WordBit1(b0: byte, b1: byte, b2: byte, b3: byte, m: nat)
    requires m < 8
    ensures Bit(Word(b0, b1, b2, b3), 8 + m + 1) == DigitSet(b1, m)
  {
    var w := Word(b0, b1, b2, b3);
    WordBits1A(b0, b1, b2, b3);
    WordBits1B(b0, b1, b2, b3);
    hide Word, Has, Set, SameBit;
    if m == 0 {
      SameBitIs(w, 0x00800000, b1, 0x80);
    } else if m == 1 {
      SameBitIs(w, 0x00400000, b1, 0x40);
    } else if m == 2 {
      SameBitIs(w, 0x00200000, b1, 0x20);
    } else if m == 3 {
      SameBitIs(w, 0x00100000, b1, 0x10);
    } else if m == 4 {
      SameBitIs(w, 0x00080000, b1, 0x08);
    } else if m == 5 {
      SameBitIs(w, 0x00040000, b1, 0x04);
    } else if m == 6 {
      SameBitIs(w, 0x00020000, b1, 0x02);
    } else {
      SameBitIs(w, 0x00010000, b1, 0x01);
    }
  }

  lemma WordBit2(b0: byte, b1: byte, b2: byte, b3: byte, m: nat)
    requires m < 8
    ensures Bit(Word(b0, b1, b2, b3), 16 + m + 1) == DigitSet(b2, m)
  {
    var w := Word(b0, b1, b2, b3);
    WordBits2A(b0, b1, b2, b3);
    WordBits2B(b0, b1, b2, b3);
    hide Word, Has, Set, SameBit;
    if m == 0 {
      SameBitIs(w, 0x00008000, b2, 0x80);
    } else if m == 1 {
      SameBitIs(w, 0x00004000, b2, 0x40);
    } else if m == 2 {
      SameBitIs(w, 0x00002000, b2, 0x20);
    } else if m == 3 {
      SameBitIs(w, 0x00001000, b2, 0x10);
    } else if m == 4 {
      SameBitIs(w, 0x00000800, b2, 0x08);
    } else if m == 5 {
      SameBitIs(w, 0x00000400, b2, 0x04);
    } else if m == 6 {
      SameBitIs(w, 0x00000200, b2, 0x02);
    } else {
      SameBitIs(w, 0x00000100, b2, 0x01);
    }
  }

  lemma WordBit3(b0: byte, b1: byte, b2: byte, b3: byte, m: nat)
    requires m < 8
    ensures Bit(Word(b0, b1, b2, b3), 24 + m + 1) == DigitSet(b3, m)
  {
    var w := Word(b0, b1, b2, b3);
    WordBits3A(b0, b1, b2, b3);
    WordBits3B(b0, b1, b2, b3);
    hide Word, Has, Set, SameBit;
    if m == 0 {
      SameBitIs(w, 0x00000080, b3, 0x80);
    } else if m == 1 {
      SameBitIs(w, 0x00000040, b3, 0x40);
    } else if m == 2 {
      SameBitIs(w, 0x00000020, b3, 0x20);
    } else if m == 3 {
      SameBitIs(w, 0x00000010, b3, 0x10);
    } else if m == 4 {
      SameBitIs(w, 0x00000008, b3, 0x08);
    } else if m == 5 {
      SameBitIs(w, 0x00000004, b3, 0x04);
    } else if m == 6 {
      SameBitIs(w, 0x00000002, b3, 0x02);
    } else {
      SameBitIs(w, 0x00000001, b3, 0x01);
    }
  }

  lemma WordBit(b0: byte, b1: byte, b2: byte, b3: byte, k: nat, m: nat)
    requires k < 4 && m < 8
    ensures Bit(Word(b0, b1, b2, b3), 8 * k + m + 1) == DigitSet([b0, b1, b2, b3][k], m)
  {
    hide Word, Bit, DigitSet;
    if k == 0 {
      WordBit0(b0, b1, b2, b3, m);
    } else if k == 1 {
      WordBit1(b0, b1, b2, b3, m);
    } else if k == 2 {
      WordBit2(b0, b1, b2, b3, m);
    } else {
      WordBit3(b0, b1, b2, b3, m);
    }
  }

  /** Bit j of a block is a digit of its byte (j - 1) / 8. */
  lemma BlockBitIs(b: seq<byte>, k: nat, m: nat)
    requires |b| == 8 && k < 8 && m < 8
    ensures BlockBit(Scrunch(b), 8 * k + m + 1) == (Digit(b[k], m) == 1)
  {
    hide Word, Bit, DigitSet, Digit;
    MaskIs(b[k], m);
    if k < 4 {
      WordBit(b[0], b[1], b[2], b[3], k, m);
    } else {
      WordBit(b[4], b[5], b[6], b[7], k - 4, m);
    }
  }
}
