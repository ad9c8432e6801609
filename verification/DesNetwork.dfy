/** The opening network of src/d3des.c is the initial permutation of FIPS 46-3, turned left by
    one bit. */
module DesNetwork {
  import opened Des
  import opened DesStandard

  /** The halves that the rounds begin with, turned back. */
  function Initial(p: Halves): Halves {
    Halves(RotateRight(Open(p).l), RotateRight(Open(p).r))
  }

  predicate Same(v: word, m: word, w: word, n: word) { (v & m != 0) == (w & n != 0) }

  lemma SameIs(v: word, m: word, w: word, n: word)
    ensures Same(v, m, w, n) <==> Has(v, m) == Has(w, n)
  {
  }

  lemma IpMasks0A(p: Halves)
    ensures Same(Initial(p).l, 0x80000000, p.r, 0x00000040)
    ensures Same(Initial(p).l, 0x40000000, p.r, 0x00004000)
    ensures Same(Initial(p).l, 0x20000000, p.r, 0x00400000)
    ensures Same(Initial(p).l, 0x10000000, p.r, 0x40000000)
  {
  }

  lemma IpMasks0B(p: Halves)
    ensures Same(Initial(p).l, 0x08000000, p.l, 0x00000040)
    ensures Same(Initial(p).l, 0x04000000, p.l, 0x00004000)
    ensures Same(Initial(p).l, 0x02000000, p.l, 0x00400000)
    ensures Same(Initial(p).l, 0x01000000, p.l, 0x40000000)
  {
  }

  lemma IpRow0(p: Halves, k: nat)
    requires k < 8
    ensures BlockBit(Initial(p), 0 + k + 1) == BlockBit(p, IpRow(0)[k])
  {
    IpMasks0A(p);
    IpMasks0B(p);
    hide Initial, Has, Same;
    if k == 0 {
      SameIs(Initial(p).l, 0x80000000, p.r, 0x00000040);
    } else if k == 1 {
      SameIs(Initial(p).l, 0x40000000, p.r, 0x00004000);
    } else if k == 2 {
      SameIs(Initial(p).l, 0x20000000, p.r, 0x00400000);
    } else if k == 3 {
      SameIs(Initial(p).l, 0x10000000, p.r, 0x40000000);
    } else if k == 4 {
      SameIs(Initial(p).l, 0x08000000, p.l, 0x00000040);
    } else if k == 5 {
      SameIs(Initial(p).l, 0x04000000, p.l, 0x00004000);
    } else if k == 6 {
      SameIs(Initial(p).l, 0x02000000, p.l, 0x00400000);
    } else {
      SameIs(Initial(p).l, 0x01000000, p.l, 0x40000000);
    }
  }

  lemma IpMasks1A(p: Halves)
    ensures Same(Initial(p).l, 0x00800000, p.r, 0x00000010)
    ensures Same(Initial(p).l, 0x00400000, p.r, 0x00001000)
    ensures Same(Initial(p).l, 0x00200000, p.r, 0x00100000)
    ensures Same(Initial(p).l, 0x00100000, p.r, 0x10000000)
  {
  }

  lemma IpMasks1B(p: Halves)
    ensures Same(Initial(p).l, 0x00080000, p.l, 0x00000010)
    ensures Same(Initial(p).l, 0x00040000, p.l, 0x00001000)
    ensures Same(Initial(p).l, 0x00020000, p.l, 0x00100000)
    ensures Same(Initial(p).l, 0x00010000, p.l, 0x10000000)
  {
  }

  lemma IpRow1(p: Halves, k: nat)
    requires k < 8
    ensures BlockBit(Initial(p), 8 + k + 1) == BlockBit(p, IpRow(1)[k])
  {
    IpMasks1A(p);
    IpMasks1B(p);
    hide Initial, Has, Same;
    if k == 0 {
      SameIs(Initial(p).l, 0x00800000, p.r, 0x00000010);
    } else if k == 1 {
      SameIs(Initial(p).l, 0x00400000, p.r, 0x00001000);
    } else if k == 2 {
      SameIs(Initial(p).l, 0x00200000, p.r, 0x00100000);
    } else if k == 3 {
      SameIs(Initial(p).l, 0x00100000, p.r, 0x10000000);
    } else if k == 4 {
      SameIs(Initial(p).l, 0x00080000, p.l, 0x00000010);
    } else if k == 5 {
      SameIs(Initial(p).l, 0x00040000, p.l, 0x00001000);
    } else if k == 6 {
      SameIs(Initial(p).l, 0x00020000, p.l, 0x00100000);
    } else {
      SameIs(Initial(p).l, 0x00010000, p.l, 0x10000000);
    }
  }

  lemma IpMasks2A(p: Halves)
    ensures Same(Initial(p).l, 0x00008000, p.r, 0x00000004)
    ensures Same(Initial(p).l, 0x00004000, p.r, 0x00000400)
    ensures Same(Initial(p).l, 0x00002000, p.r, 0x00040000)
    ensures Same(Initial(p).l, 0x00001000, p.r, 0x04000000)
  {
  }

  lemma IpMasks2B(p: Halves)
    ensures Same(Initial(p).l, 0x00000800, p.l, 0x00000004)
    ensures Same(Initial(p).l, 0x00000400, p.l, 0x00000400)
    ensures Same(Initial(p).l, 0x00000200, p.l, 0x00040000)
    ensures Same(Initial(p).l, 0x00000100, p.l, 0x04000000)
  {
  }

  lemma IpRow2(p: Halves, k: nat)
    requires k < 8
    ensures BlockBit(Initial(p), 16 + k + 1) == BlockBit(p, IpRow(2)[k])
  {
    IpMasks2A(p);
    IpMasks2B(p);
    hide Initial, Has, Same;
    if k == 0 {
      SameIs(Initial(p).l, 0x00008000, p.r, 0x00000004);
    } else if k == 1 {
      SameIs(Initial(p).l, 0x00004000, p.r, 0x00000400);
    } else if k == 2 {
      SameIs(Initial(p).l, 0x00002000, p.r, 0x00040000);
    } else if k == 3 {
      SameIs(Initial(p).l, 0x00001000, p.r, 0x04000000);
    } else if k == 4 {
      SameIs(Initial(p).l, 0x00000800, p.l, 0x00000004);
    } else if k == 5 {
      SameIs(Initial(p).l, 0x00000400, p.l, 0x00000400);
    } else if k == 6 {
      SameIs(Initial(p).l, 0x00000200, p.l, 0x00040000);
    } else {
      SameIs(Initial(p).l, 0x00000100, p.l, 0x04000000);
    }
  }

  lemma IpMasks3A(p: Halves)
    ensures Same(Initial(p).l, 0x00000080, p.r, 0x00000001)
    ensures Same(Initial(p).l, 0x00000040, p.r, 0x00000100)
    ensures Same(Initial(p).l, 0x00000020, p.r, 0x00010000)
    ensures Same(Initial(p).l, 0x00000010, p.r, 0x01000000)
  {
  }

  lemma IpMasks3B(p: Halves)
    ensures Same(Initial(p).l, 0x00000008, p.l, 0x00000001)
    ensures Same(Initial(p).l, 0x00000004, p.l, 0x00000100)
    ensures Same(Initial(p).l, 0x00000002, p.l, 0x00010000)
    ensures Same(Initial(p).l, 0x00000001, p.l, 0x01000000)
  {
  }

  lemma IpRow3(p: Halves, k: nat)
    requires k < 8
    ensures BlockBit(Initial(p), 24 + k + 1) == BlockBit(p, IpRow(3)[k])
  {
    IpMasks3A(p);
    IpMasks3B(p);
    hide Initial, Has, Same;
    if k == 0 {
      SameIs(Initial(p).l, 0x00000080, p.r, 0x00000001);
    } else if k == 1 {
      SameIs(Initial(p).l, 0x00000040, p.r, 0x00000100);
    } else if k == 2 {
      SameIs(Initial(p).l, 0x00000020, p.r, 0x00010000);
    } else if k == 3 {
      SameIs(Initial(p).l, 0x00000010, p.r, 0x01000000);
    } else if k == 4 {
      SameIs(Initial(p).l, 0x00000008, p.l, 0x00000001);
    } else if k == 5 {
      SameIs(Initial(p).l, 0x00000004, p.l, 0x00000100);
    } else if k == 6 {
      SameIs(Initial(p).l, 0x00000002, p.l, 0x00010000);
    } else {
      SameIs(Initial(p).l, 0x00000001, p.l, 0x01000000);
    }
  }

  lemma IpMasks4A(p: Halves)
    ensures Same(Initial(p).r, 0x80000000, p.r, 0x00000080)
    ensures Same(Initial(p).r, 0x40000000, p.r, 0x00008000)
    ensures Same(Initial(p).r, 0x20000000, p.r, 0x00800000)
    ensures Same(Initial(p).r, 0x10000000, p.r, 0x80000000)
  {
  }

  lemma IpMasks4B(p: Halves)
    ensures Same(Initial(p).r, 0x08000000, p.l, 0x00000080)
    ensures Same(Initial(p).r, 0x04000000, p.l, 0x00008000)
    ensures Same(Initial(p).r, 0x02000000, p.l, 0x00800000)
    ensures Same(Initial(p).r, 0x01000000, p.l, 0x80000000)
  {
  }

  lemma IpRow4(p: Halves, k: nat)
    requires k < 8
    ensures BlockBit(Initial(p), 32 + k + 1) == BlockBit(p, IpRow(4)[k])
  {
    IpMasks4A(p);
    IpMasks4B(p);
    hide Initial, Has, Same;
    if k == 0 {
      SameIs(Initial(p).r, 0x80000000, p.r, 0x00000080);
    } else if k == 1 {
      SameIs(Initial(p).r, 0x40000000, p.r, 0x00008000);
    } else if k == 2 {
      SameIs(Initial(p).r, 0x20000000, p.r, 0x00800000);
    } else if k == 3 {
      SameIs(Initial(p).r, 0x10000000, p.r, 0x80000000);
    } else if k == 4 {
      SameIs(Initial(p).r, 0x08000000, p.l, 0x00000080);
    } else if k == 5 {
      SameIs(Initial(p).r, 0x04000000, p.l, 0x00008000);
    } else if k == 6 {
      SameIs(Initial(p).r, 0x02000000, p.l, 0x00800000);
    } else {
      SameIs(Initial(p).r, 0x01000000, p.l, 0x80000000);
    }
  }

  lemma IpMasks5A(p: Halves)
    ensures Same(Initial(p).r, 0x00800000, p.r, 0x00000020)
    ensures Same(Initial(p).r, 0x00400000, p.r, 0x00002000)
    ensures Same(Initial(p).r, 0x00200000, p.r, 0x00200000)
    ensures Same(Initial(p).r, 0x00100000, p.r, 0x20000000)
  {
  }

  lemma IpMasks5B(p: Halves)
    ensures Same(Initial(p).r, 0x00080000, p.l, 0x00000020)
    ensures Same(Initial(p).r, 0x00040000, p.l, 0x00002000)
    ensures Same(Initial(p).r, 0x00020000, p.l, 0x00200000)
    ensures Same(Initial(p).r, 0x00010000, p.l, 0x20000000)
  {
  }

  lemma IpRow5(p: Halves, k: nat)
    requires k < 8
    ensures BlockBit(Initial(p), 40 + k + 1) == BlockBit(p, IpRow(5)[k])
  {
    IpMasks5A(p);
    IpMasks5B(p);
    hide Initial, Has, Same;
    if k == 0 {
      SameIs(Initial(p).r, 0x00800000, p.r, 0x00000020);
    } else if k == 1 {
      SameIs(Initial(p).r, 0x00400000, p.r, 0x00002000);
    } else if k == 2 {
      SameIs(Initial(p).r, 0x00200000, p.r, 0x00200000);
    } else if k == 3 {
      SameIs(Initial(p).r, 0x00100000, p.r, 0x20000000);
    } else if k == 4 {
      SameIs(Initial(p).r, 0x00080000, p.l, 0x00000020);
    } else if k == 5 {
      SameIs(Initial(p).r, 0x00040000, p.l, 0x00002000);
    } else if k == 6 {
      SameIs(Initial(p).r, 0x00020000, p.l, 0x00200000);
    } else {
      SameIs(Initial(p).r, 0x00010000, p.l, 0x20000000);
    }
  }

  lemma IpMasks6A(p: Halves)
    ensures Same(Initial(p).r, 0x00008000, p.r, 0x00000008)
    ensures Same(Initial(p).r, 0x00004000, p.r, 0x00000800)
    ensures Same(Initial(p).r, 0x00002000, p.r, 0x00080000)
    ensures Same(Initial(p).r, 0x00001000, p.r, 0x08000000)
  {
  }

  lemma IpMasks6B(p: Halves)
    ensures Same(Initial(p).r, 0x00000800, p.l, 0x00000008)
    ensures Same(Initial(p).r, 0x00000400, p.l, 0x00000800)
    ensures Same(Initial(p).r, 0x00000200, p.l, 0x00080000)
    ensures Same(Initial(p).r, 0x00000100, p.l, 0x08000000)
  {
  }

  lemma IpRow6(p: Halves, k: nat)
    requires k < 8
    ensures BlockBit(Initial(p), 48 + k + 1) == BlockBit(p, IpRow(6)[k])
  {
    IpMasks6A(p);
    IpMasks6B(p);
    hide Initial, Has, Same;
    if k == 0 {
      SameIs(Initial(p).r, 0x00008000, p.r, 0x00000008);
    } else if k == 1 {
      SameIs(Initial(p).r, 0x00004000, p.r, 0x00000800);
    } else if k == 2 {
      SameIs(Initial(p).r, 0x00002000, p.r, 0x00080000);
    } else if k == 3 {
      SameIs(Initial(p).r, 0x00001000, p.r, 0x08000000);
    } else if k == 4 {
      SameIs(Initial(p).r, 0x00000800, p.l, 0x00000008);
    } else if k == 5 {
      SameIs(Initial(p).r, 0x00000400, p.l, 0x00000800);
    } else if k == 6 {
      SameIs(Initial(p).r, 0x00000200, p.l, 0x00080000);
    } else {
      SameIs(Initial(p).r, 0x00000100, p.l, 0x08000000);
    }
  }

  lemma IpMasks7A(p: Halves)
    ensures Same(Initial(p).r, 0x00000080, p.r, 0x00000002)
    ensures Same(Initial(p).r, 0x00000040, p.r, 0x00000200)
    ensures Same(Initial(p).r, 0x00000020, p.r, 0x00020000)
    ensures Same(Initial(p).r, 0x00000010, p.r, 0x02000000)
  {
  }

  lemma IpMasks7B(p: Halves)
    ensures Same(Initial(p).r, 0x00000008, p.l, 0x00000002)
    ensures Same(Initial(p).r, 0x00000004, p.l, 0x00000200)
    ensures Same(Initial(p).r, 0x00000002, p.l, 0x00020000)
    ensures Same(Initial(p).r, 0x00000001, p.l, 0x02000000)
  {
  }

  lemma IpRow7(p: Halves, k: nat)
    requires k < 8
    ensures BlockBit(Initial(p), 56 + k + 1) == BlockBit(p, IpRow(7)[k])
  {
    IpMasks7A(p);
    IpMasks7B(p);
    hide Initial, Has, Same;
    if k == 0 {
      SameIs(Initial(p).r, 0x00000080, p.r, 0x00000002);
    } else if k == 1 {
      SameIs(Initial(p).r, 0x00000040, p.r, 0x00000200);
    } else if k == 2 {
      SameIs(Initial(p).r, 0x00000020, p.r, 0x00020000);
    } else if k == 3 {
      SameIs(Initial(p).r, 0x00000010, p.r, 0x02000000);
    } else if k == 4 {
      SameIs(Initial(p).r, 0x00000008, p.l, 0x00000002);
    } else if k == 5 {
      SameIs(Initial(p).r, 0x00000004, p.l, 0x00000200);
    } else if k == 6 {
      SameIs(Initial(p).r, 0x00000002, p.l, 0x00020000);
    } else {
      SameIs(Initial(p).r, 0x00000001, p.l, 0x02000000);
    }
  }

  /** The opening network is the initial permutation, turned. */
  lemma InitialIs(p: Halves)
    ensures InitiallyPermuted(p, Initial(p))
  {
    hide BlockBit, Initial, IpRow;
    forall r, k | 0 <= r < 8 && 0 <= k < 8 ensures BlockBit(Initial(p), 8 * r + k + 1) == BlockBit(p, IpRow(r)[k]) {
      if r == 0 {
        IpRow0(p, k);
      } else if r == 1 {
        IpRow1(p, k);
      } else if r == 2 {
        IpRow2(p, k);
      } else if r == 3 {
        IpRow3(p, k);
      } else if r == 4 {
        IpRow4(p, k);
      } else if r == 5 {
        IpRow5(p, k);
      } else if r == 6 {
        IpRow6(p, k);
      } else {
        IpRow7(p, k);
      }
    }
  }

  /** Blocks have one image under it. */
  lemma PermutedOnce(p: Halves, q: Halves, s: Halves)
    requires InitiallyPermuted(p, q) && InitiallyPermuted(p, s)
    ensures q == s
  {
    hide Bit, BlockBit, InitiallyPermuted;
    forall j | 1 <= j <= 32 ensures Bit(q.l, j) == Bit(s.l, j) && Bit(q.r, j) == Bit(s.r, j) {
      SameBit(p, q, s, j);
      SameBit(p, q, s, j + 32);
      HalfBits(q, j);
      HalfBits(s, j);
    }
    SameWord(q.l, s.l);
    SameWord(q.r, s.r);
  }

  lemma SameBit(p: Halves, q: Halves, s: Halves, j: nat)
    requires InitiallyPermuted(p, q) && InitiallyPermuted(p, s) && 1 <= j <= 64
    ensures BlockBit(q, j) == BlockBit(s, j)
  {
    hide BlockBit, IpRow;
    var r, k := (j - 1) / 8, (j - 1) % 8;
    assert j == 8 * r + k + 1 && BlockBit(q, 8 * r + k + 1) == BlockBit(p, IpRow(r)[k]);
  }

  lemma HalfBits(q: Halves, j: nat)
    requires 1 <= j <= 32
    ensures BlockBit(q, j) == Bit(q.l, j) && BlockBit(q, j + 32) == Bit(q.r, j)
  {
    hide Bit;
  }

  lemma SameWord(a: word, b: word)
    requires forall j :: 1 <= j <= 32 ==> Bit(a, j) == Bit(b, j)
    ensures a == b
  {
    hide Has;
    assert Bit(a, 1) == Bit(b, 1) && Bit(a, 2) == Bit(b, 2) && Bit(a, 3) == Bit(b, 3) && Bit(a, 4) == Bit(b, 4);
    assert Bit(a, 5) == Bit(b, 5) && Bit(a, 6) == Bit(b, 6) && Bit(a, 7) == Bit(b, 7) && Bit(a, 8) == Bit(b, 8);
    assert Bit(a, 9) == Bit(b, 9) && Bit(a, 10) == Bit(b, 10) && Bit(a, 11) == Bit(b, 11) && Bit(a, 12) == Bit(b, 12);
    assert Bit(a, 13) == Bit(b, 13) && Bit(a, 14) == Bit(b, 14) && Bit(a, 15) == Bit(b, 15) && Bit(a, 16) == Bit(b, 16);
    assert Bit(a, 17) == Bit(b, 17) && Bit(a, 18) == Bit(b, 18) && Bit(a, 19) == Bit(b, 19) && Bit(a, 20) == Bit(b, 20);
    assert Bit(a, 21) == Bit(b, 21) && Bit(a, 22) == Bit(b, 22) && Bit(a, 23) == Bit(b, 23) && Bit(a, 24) == Bit(b, 24);
    assert Bit(a, 25) == Bit(b, 25) && Bit(a, 26) == Bit(b, 26) && Bit(a, 27) == Bit(b, 27) && Bit(a, 28) == Bit(b, 28);
    assert Bit(a, 29) == Bit(b, 29) && Bit(a, 30) == Bit(b, 30) && Bit(a, 31) == Bit(b, 31) && Bit(a, 32) == Bit(b, 32);
    SameMasks(a, b);
  }

  lemma SameMasks(a: word, b: word)
    requires Has(a, 0x80000000) == Has(b, 0x80000000) && Has(a, 0x40000000) == Has(b, 0x40000000) && Has(a, 0x20000000) == Has(b, 0x20000000) && Has(a, 0x10000000) == Has(b, 0x10000000)
    requires Has(a, 0x08000000) == Has(b, 0x08000000) && Has(a, 0x04000000) == Has(b, 0x04000000) && Has(a, 0x02000000) == Has(b, 0x02000000) && Has(a, 0x01000000) == Has(b, 0x01000000)
    requires Has(a, 0x00800000) == Has(b, 0x00800000) && Has(a, 0x00400000) == Has(b, 0x00400000) && Has(a, 0x00200000) == Has(b, 0x00200000) && Has(a, 0x00100000) == Has(b, 0x00100000)
    requires Has(a, 0x00080000) == Has(b, 0x00080000) && Has(a, 0x00040000) == Has(b, 0x00040000) && Has(a, 0x00020000) == Has(b, 0x00020000) && Has(a, 0x00010000) == Has(b, 0x00010000)
    requires Has(a, 0x00008000) == Has(b, 0x00008000) && Has(a, 0x00004000) == Has(b, 0x00004000) && Has(a, 0x00002000) == Has(b, 0x00002000) && Has(a, 0x00001000) == Has(b, 0x00001000)
    requires Has(a, 0x00000800) == Has(b, 0x00000800) && Has(a, 0x00000400) == Has(b, 0x00000400) && Has(a, 0x00000200) == Has(b, 0x00000200) && Has(a, 0x00000100) == Has(b, 0x00000100)
    requires Has(a, 0x00000080) == Has(b, 0x00000080) && Has(a, 0x00000040) == Has(b, 0x00000040) && Has(a, 0x00000020) == Has(b, 0x00000020) && Has(a, 0x00000010) == Has(b, 0x00000010)
    requires Has(a, 0x00000008) == Has(b, 0x00000008) && Has(a, 0x00000004) == Has(b, 0x00000004) && Has(a, 0x00000002) == Has(b, 0x00000002) && Has(a, 0x00000001) == Has(b, 0x00000001)
    ensures a == b
  {
  }
}
