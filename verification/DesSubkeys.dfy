/** The key schedule of src/d3des.c holds the subkeys of FIPS 46-3, six bits to a byte. */
module DesSubkeys {
  import opened ByteSeqs
  import opened Des
  import opened DesKeys
  import opened DesStandard
  import opened DesRound

  /** The shifts of the key schedule, one for every round. */
  const SHIFTS: seq<nat> := [1, 1, 2, 2, 2, 2, 2, 2, 1, 2, 2, 2, 2, 2, 2, 1]

  /** The two halves of the chosen key bits after i + 1 rounds' shifts. */
  function Shifted(key: seq<byte>, i: nat): (bits: seq<bool>)
    requires |key| == 8 && i < 16
    ensures |bits| == 56
  {
    hide Chosen, Turned;
    Turned(if i == 0 then Chosen(key) else Shifted(key, i - 1), SHIFTS[i])
  }

  /** The permuted choices of the standard, counted from 1: PC-1 seven bits a row, and PC-2 six. */
  function Pc1Row(r: nat): (t: seq<nat>)
    requires r < 8
    ensures |t| == 7
  {
    if r < 4 then
      if r == 0 then [57, 49, 41, 33, 25, 17, 9]
      else if r == 1 then [1, 58, 50, 42, 34, 26, 18]
      else if r == 2 then [10, 2, 59, 51, 43, 35, 27]
      else [19, 11, 3, 60, 52, 44, 36]
    else
      if r == 4 then [63, 55, 47, 39, 31, 23, 15]
      else if r == 5 then [7, 62, 54, 46, 38, 30, 22]
      else if r == 6 then [14, 6, 61, 53, 45, 37, 29]
      else [21, 13, 5, 28, 20, 12, 4]
  }

  function Pc2Row(r: nat): (t: seq<nat>)
    requires r < 8
    ensures |t| == 6
  {
    if r < 4 then
      if r == 0 then [14, 17, 11, 24, 1, 5]
      else if r == 1 then [3, 28, 15, 6, 21, 10]
      else if r == 2 then [23, 19, 12, 4, 26, 8]
      else [16, 7, 27, 20, 13, 2]
    else
      if r == 4 then [41, 52, 31, 37, 47, 55]
      else if r == 5 then [30, 40, 51, 45, 33, 48]
      else if r == 6 then [44, 49, 39, 56, 34, 53]
      else [46, 42, 50, 36, 29, 32]
  }

  /** The tables of the code are those, counted from 0. */
  lemma ChoicesAre(r: nat, k: nat)
    requires r < 8
    ensures |PC1| == 56 && (k < 7 ==> PC1[7 * r + k] + 1 == Pc1Row(r)[k])
    ensures |PC2| == 48 && (k < 6 ==> PC2[6 * r + k] + 1 == Pc2Row(r)[k])
  {
    hide *;
    Pc1Fits();
    Pc2Fits();
    if k < 7 {
      Pc1Is(r, k);
    }
    if k < 6 {
      Pc2Is(r, k);
    }
  }

  lemma Pc1Is(r: nat, k: nat)
    requires r < 8 && k < 7
    ensures |PC1| == 56 && PC1[7 * r + k] + 1 == Pc1Row(r)[k]
  {
    Pc1Parts(k);
    Pc1Parts(7 + k);
    Pc1A(k);
    Pc1B(k);
    Pc1C(k);
    Pc1D(k);
    hide *;
    if r < 4 {
      assert r == 0 || r == 1 || r == 2 || r == 3;
    } else {
      assert r == 4 || r == 5 || r == 6 || r == 7;
    }
  }

  lemma Pc1Parts(k: nat)
    requires k < 14
    ensures |PC1| == 56 && |PC1A| == 14 && |PC1B| == 14 && |PC1C| == 14 && |PC1D| == 14
    ensures PC1[k] == PC1A[k] && PC1[14 + k] == PC1B[k] && PC1[28 + k] == PC1C[k] && PC1[42 + k] == PC1D[k]
  {
    Pc1Lengths();
    hide PC1A, PC1B, PC1C, PC1D;
  }

  lemma Pc1Lengths()
    ensures |PC1A| == 14 && |PC1B| == 14 && |PC1C| == 14 && |PC1D| == 14
  {
  }

  lemma Pc1A(k: nat)
    requires k < 7
    ensures |PC1A| == 14 && PC1A[k] + 1 == Pc1Row(0)[k] && PC1A[7 + k] + 1 == Pc1Row(1)[k]
  {
  }

  lemma Pc1B(k: nat)
    requires k < 7
    ensures |PC1B| == 14 && PC1B[k] + 1 == Pc1Row(2)[k] && PC1B[7 + k] + 1 == Pc1Row(3)[k]
  {
  }

  lemma Pc1C(k: nat)
    requires k < 7
    ensures |PC1C| == 14 && PC1C[k] + 1 == Pc1Row(4)[k] && PC1C[7 + k] + 1 == Pc1Row(5)[k]
  {
  }

  lemma Pc1D(k: nat)
    requires k < 7
    ensures |PC1D| == 14 && PC1D[k] + 1 == Pc1Row(6)[k] && PC1D[7 + k] + 1 == Pc1Row(7)[k]
  {
  }

  lemma Pc2Is(r: nat, k: nat)
    requires r < 8 && k < 6
    ensures |PC2| == 48 && PC2[6 * r + k] + 1 == Pc2Row(r)[k]
  {
    Pc2Parts(k);
    Pc2Parts(6 + k);
    Pc2A(k);
    Pc2B(k);
    Pc2C(k);
    Pc2D(k);
    hide *;
    if r < 4 {
      assert r == 0 || r == 1 || r == 2 || r == 3;
    } else {
      assert r == 4 || r == 5 || r == 6 || r == 7;
    }
  }

  lemma Pc2Parts(k: nat)
    requires k < 12
    ensures |PC2| == 48 && |PC2A| == 12 && |PC2B| == 12 && |PC2C| == 12 && |PC2D| == 12
    ensures PC2[k] == PC2A[k] && PC2[12 + k] == PC2B[k] && PC2[24 + k] == PC2C[k] && PC2[36 + k] == PC2D[k]
  {
    Pc2Lengths();
    hide PC2A, PC2B, PC2C, PC2D;
  }

  lemma Pc2Lengths()
    ensures |PC2A| == 12 && |PC2B| == 12 && |PC2C| == 12 && |PC2D| == 12
  {
  }

  lemma Pc2A(k: nat)
    requires k < 6
    ensures |PC2A| == 12 && PC2A[k] + 1 == Pc2Row(0)[k] && PC2A[6 + k] + 1 == Pc2Row(1)[k]
  {
  }

  lemma Pc2B(k: nat)
    requires k < 6
    ensures |PC2B| == 12 && PC2B[k] + 1 == Pc2Row(2)[k] && PC2B[6 + k] + 1 == Pc2Row(3)[k]
  {
  }

  lemma Pc2C(k: nat)
    requires k < 6
    ensures |PC2C| == 12 && PC2C[k] + 1 == Pc2Row(4)[k] && PC2C[6 + k] + 1 == Pc2Row(5)[k]
  {
  }

  lemma Pc2D(k: nat)
    requires k < 6
    ensures |PC2D| == 12 && PC2D[k] + 1 == Pc2Row(6)[k] && PC2D[6 + k] + 1 == Pc2Row(7)[k]
  {
  }

  /** Bit j of the subkey of round i, by the second permuted choice. */
  function SubkeyBit(key: seq<byte>, i: nat, j: nat): bool
    requires |key| == 8 && i < 16 && j < 48
  {
    Pc2Fits();
    hide PC2;
    Shifted(key, i)[PC2[j]]
  }

  /** Group m of the subkey. */
  function SubkeyGroup(key: seq<byte>, i: nat, m: nat): byte
    requires |key| == 8 && i < 16 && m < 8
  {
    hide SubkeyBit;
    SixBits(SubkeyBit(key, i, 6 * m), SubkeyBit(key, i, 6 * m + 1), SubkeyBit(key, i, 6 * m + 2),
            SubkeyBit(key, i, 6 * m + 3), SubkeyBit(key, i, 6 * m + 4), SubkeyBit(key, i, 6 * m + 5))
  }

  function Subkey(key: seq<byte>, i: nat): (k: seq<byte>)
    requires |key| == 8 && i < 16
    ensures IsSubkey(k)
  {
    hide SubkeyGroup, IsSix;
    var k := seq(8, m requires 0 <= m < 8 => SubkeyGroup(key, i, m));
    assert forall m :: 0 <= m < 8 ==> IsSix(k[m]) by {
      forall m | 0 <= m < 8 ensures IsSix(k[m]) { GroupIsSix(key, i, m); }
    }
    k
  }

  lemma GroupIsSix(key: seq<byte>, i: nat, m: nat)
    requires |key| == 8 && i < 16 && m < 8
    ensures IsSix(SubkeyGroup(key, i, m))
  {
    hide SubkeyBit;
    SixBitsAreSix(SubkeyBit(key, i, 6 * m), SubkeyBit(key, i, 6 * m + 1), SubkeyBit(key, i, 6 * m + 2),
                  SubkeyBit(key, i, 6 * m + 3), SubkeyBit(key, i, 6 * m + 4), SubkeyBit(key, i, 6 * m + 5));
    hide SixBits, IsSix;
  }

  lemma SixBitsAreSix(b1: bool, b2: bool, b3: bool, b4: bool, b5: bool, b6: bool)
    ensures IsSix(SixBits(b1, b2, b3, b4, b5, b6))
  {
  }

  lemma {:induction false} ShiftedIs(key: seq<byte>, i: nat)
    requires |key| == 8 && i < 16
    ensures |ROTATIONS| == 16 && ROTATIONS[i] <= 28 && Shifted(key, i) == Turned(Chosen(key), ROTATIONS[i])
  {
    RotationsFit();
    ShiftsAdd(i);
    ShiftedUnfold(key, i);
    hide *;
    if i > 0 {
      ShiftedIs(key, i - 1);
      TurnedTwice(Chosen(key), ROTATIONS[i - 1], SHIFTS[i]);
    }
  }

  lemma ShiftedUnfold(key: seq<byte>, i: nat)
    requires |key| == 8 && i < 16
    ensures |SHIFTS| == 16 && SHIFTS[i] <= 2 && Shifted(key, i) == Turned(if i == 0 then Chosen(key) else Shifted(key, i - 1), SHIFTS[i])
  {
    hide Chosen, Turned;
  }

  lemma ShiftsAdd(i: nat)
    requires i < 16
    ensures |ROTATIONS| == 16 && ROTATIONS[i] == (if i == 0 then 0 else ROTATIONS[i - 1]) + SHIFTS[i]
  {
  }

  lemma TurnedTwice(bits: seq<bool>, m: nat, n: nat)
    requires |bits| == 56 && m + n <= 28
    ensures Turned(Turned(bits, m), n) == Turned(bits, m + n)
  {
  }

  // The words that deskey gathers hold the groups of the subkey one after the other.

  function Packed(a: byte, b: byte, c: byte, d: byte): word {
    ((a as word) << 18) | ((b as word) << 12) | ((c as word) << 6) | (d as word)
  }

  function Add(w: word, b: bool, m: word): word { if b then Or(w, m) else w }

  function AddSix(w: word, b: seq<bool>, m1: word, m2: word, m3: word, m4: word, m5: word, m6: word): word
    requires |b| == 6
  {
    Add(Add(Add(Add(Add(Add(w, b[0], m1), b[1], m2), b[2], m3), b[3], m4), b[4], m5), b[5], m6)
  }

  function Group(b: seq<bool>): byte
    requires |b| == 6
  {
    SixBits(b[0], b[1], b[2], b[3], b[4], b[5])
  }

  function Place0(g: byte): word { (g as word) << 18 }
  function Place1(g: byte): word { (g as word) << 12 }
  function Place2(g: byte): word { (g as word) << 6 }
  function Place3(g: byte): word { g as word }

  function Pick(b: bool, m: word): word { if b then m else 0 }

  lemma Added(w: word, b: bool, m: word)
    ensures Add(w, b, m) == Or(w, Pick(b, m))
  {
    hide Or;
    OrZero(w);
  }

  lemma OrZero(w: word)
    ensures Or(w, 0) == w
  {
  }

  lemma SixAdded(w: word, b: seq<bool>, m1: word, m2: word, m3: word, m4: word, m5: word, m6: word)
    requires |b| == 6
    ensures AddSix(w, b, m1, m2, m3, m4, m5, m6)
         == Or(w, Or(Pick(b[0], m1), Or(Pick(b[1], m2), Or(Pick(b[2], m3), Or(Pick(b[3], m4), Or(Pick(b[4], m5), Pick(b[5], m6)))))))
  {
    var p1, p2, p3, p4, p5, p6 := Pick(b[0], m1), Pick(b[1], m2), Pick(b[2], m3), Pick(b[3], m4), Pick(b[4], m5), Pick(b[5], m6);
    hide Or, Pick, Add;
    var w2 := Or(w, p1);
    var w3 := Or(w2, p2);
    var w4 := Or(w3, p3);
    var w5 := Or(w4, p4);
    var w6 := Or(w5, p5);
    Added(w, b[0], m1);
    Added(w2, b[1], m2);
    Added(w3, b[2], m3);
    Added(w4, b[3], m4);
    Added(w5, b[4], m5);
    Added(w6, b[5], m6);
    Regroup(w5, p5, p6);
    Regroup(w4, p4, Or(p5, p6));
    Regroup(w3, p3, Or(p4, Or(p5, p6)));
    Regroup(w2, p2, Or(p3, Or(p4, Or(p5, p6))));
    Regroup(w, p1, Or(p2, Or(p3, Or(p4, Or(p5, p6)))));
  }

  lemma Added0(w: word, b: seq<bool>)
    requires |b| == 6
    ensures AddSix(w, b, 0x800000, 0x400000, 0x200000, 0x100000, 0x080000, 0x040000) == Or(w, Place0(Group(b)))
  {
    SixAdded(w, b, 0x800000, 0x400000, 0x200000, 0x100000, 0x080000, 0x040000);
    Picked0(b[0], b[1], b[2], b[3], b[4], b[5]);
    hide AddSix, Or, Place0, SixBits, Pick;
  }

  lemma Picked0(b1: bool, b2: bool, b3: bool, b4: bool, b5: bool, b6: bool)
    ensures Place0(SixBits(b1, b2, b3, b4, b5, b6))
         == Or(Pick(b1, 0x800000), Or(Pick(b2, 0x400000), Or(Pick(b3, 0x200000), Or(Pick(b4, 0x100000), Or(Pick(b5, 0x080000), Pick(b6, 0x040000))))))
  {
  }

  lemma Added1(w: word, b: seq<bool>)
    requires |b| == 6
    ensures AddSix(w, b, 0x020000, 0x010000, 0x008000, 0x004000, 0x002000, 0x001000) == Or(w, Place1(Group(b)))
  {
    SixAdded(w, b, 0x020000, 0x010000, 0x008000, 0x004000, 0x002000, 0x001000);
    Picked1(b[0], b[1], b[2], b[3], b[4], b[5]);
    hide AddSix, Or, Place1, SixBits, Pick;
  }

  lemma Picked1(b1: bool, b2: bool, b3: bool, b4: bool, b5: bool, b6: bool)
    ensures Place1(SixBits(b1, b2, b3, b4, b5, b6))
         == Or(Pick(b1, 0x020000), Or(Pick(b2, 0x010000), Or(Pick(b3, 0x008000), Or(Pick(b4, 0x004000), Or(Pick(b5, 0x002000), Pick(b6, 0x001000))))))
  {
  }

  lemma Added2(w: word, b: seq<bool>)
    requires |b| == 6
    ensures AddSix(w, b, 0x000800, 0x000400, 0x000200, 0x000100, 0x000080, 0x000040) == Or(w, Place2(Group(b)))
  {
    SixAdded(w, b, 0x000800, 0x000400, 0x000200, 0x000100, 0x000080, 0x000040);
    Picked2(b[0], b[1], b[2], b[3], b[4], b[5]);
    hide AddSix, Or, Place2, SixBits, Pick;
  }

  lemma Picked2(b1: bool, b2: bool, b3: bool, b4: bool, b5: bool, b6: bool)
    ensures Place2(SixBits(b1, b2, b3, b4, b5, b6))
         == Or(Pick(b1, 0x000800), Or(Pick(b2, 0x000400), Or(Pick(b3, 0x000200), Or(Pick(b4, 0x000100), Or(Pick(b5, 0x000080), Pick(b6, 0x000040))))))
  {
  }

  lemma Added3(w: word, b: seq<bool>)
    requires |b| == 6
    ensures AddSix(w, b, 0x000020, 0x000010, 0x000008, 0x000004, 0x000002, 0x000001) == Or(w, Place3(Group(b)))
  {
    SixAdded(w, b, 0x000020, 0x000010, 0x000008, 0x000004, 0x000002, 0x000001);
    Picked3(b[0], b[1], b[2], b[3], b[4], b[5]);
    hide AddSix, Or, Place3, SixBits, Pick;
  }

  lemma Picked3(b1: bool, b2: bool, b3: bool, b4: bool, b5: bool, b6: bool)
    ensures Place3(SixBits(b1, b2, b3, b4, b5, b6))
         == Or(Pick(b1, 0x000020), Or(Pick(b2, 0x000010), Or(Pick(b3, 0x000008), Or(Pick(b4, 0x000004), Or(Pick(b5, 0x000002), Pick(b6, 0x000001))))))
  {
  }

  lemma PackedIs(a: byte, b: byte, c: byte, d: byte)
    ensures Or(Or(Or(Or(0, Place0(a)), Place1(b)), Place2(c)), Place3(d)) == Packed(a, b, c, d)
  {
  }

  lemma FourSixes(a: seq<bool>, b: seq<bool>, c: seq<bool>, d: seq<bool>)
    requires |a| == 6 && |b| == 6 && |c| == 6 && |d| == 6
    ensures var w1 := AddSix(0, a, 0x800000, 0x400000, 0x200000, 0x100000, 0x080000, 0x040000);
            var w2 := AddSix(w1, b, 0x020000, 0x010000, 0x008000, 0x004000, 0x002000, 0x001000);
            var w3 := AddSix(w2, c, 0x000800, 0x000400, 0x000200, 0x000100, 0x000080, 0x000040);
            AddSix(w3, d, 0x000020, 0x000010, 0x000008, 0x000004, 0x000002, 0x000001) == Packed(Group(a), Group(b), Group(c), Group(d))
  {
    hide AddSix, Group, Or, Place0, Place1, Place2, Place3, Packed;
    Added0(0, a);
    var w1 := Or(0, Place0(Group(a)));
    Added1(w1, b);
    var w2 := Or(w1, Place1(Group(b)));
    Added2(w2, c);
    Added3(Or(w2, Place2(Group(c))), d);
    PackedIs(Group(a), Group(b), Group(c), Group(d));
  }

  /** The bits of a gathered word. */
  function Bits6(bits: seq<bool>, from: nat): (b: seq<bool>)
    requires |bits| == 56 && from + 6 <= 48
    ensures |b| == 6
  {
    Pc2Fits();
    hide PC2;
    [bits[PC2[from]], bits[PC2[from + 1]], bits[PC2[from + 2]], bits[PC2[from + 3]], bits[PC2[from + 4]], bits[PC2[from + 5]]]
  }

  lemma GatheredMore(bits: seq<bool>, from: nat, n: nat)
    requires |bits| == 56 && n + 6 <= 24 && from + 24 <= 48
    ensures Gathered(bits, from, n + 6)
         == AddSix(Gathered(bits, from, n), Bits6(bits, from + n), BigByte(n), BigByte(n + 1), BigByte(n + 2), BigByte(n + 3), BigByte(n + 4), BigByte(n + 5))
  {
    Pc2Fits();
    hide PC2, BigByte, Gathered, Add;
    GatheredStep(bits, from, n);
    GatheredStep(bits, from, n + 1);
    GatheredStep(bits, from, n + 2);
    GatheredStep(bits, from, n + 3);
    GatheredStep(bits, from, n + 4);
    GatheredStep(bits, from, n + 5);
  }

  lemma GatheredStep(bits: seq<bool>, from: nat, n: nat)
    requires |bits| == 56 && n < 24 && from + 24 <= 48
    ensures |PC2| == 48 && PC2[from + n] < 56
    ensures Gathered(bits, from, n + 1) == Add(Gathered(bits, from, n), bits[PC2[from + n]], BigByte(n))
  {
    Pc2Fits();
    hide PC2, BigByte;
  }

  lemma GatheredNone(bits: seq<bool>, from: nat)
    requires |bits| == 56 && from + 24 <= 48
    ensures Gathered(bits, from, 0) == 0
  {
    hide PC2, BigByte;
  }

  lemma BigBytes()
    ensures BigByte(0) == 0x800000 && BigByte(1) == 0x400000 && BigByte(2) == 0x200000 && BigByte(3) == 0x100000
    ensures BigByte(4) == 0x080000 && BigByte(5) == 0x040000 && BigByte(6) == 0x020000 && BigByte(7) == 0x010000
    ensures BigByte(8) == 0x008000 && BigByte(9) == 0x004000 && BigByte(10) == 0x002000 && BigByte(11) == 0x001000
    ensures BigByte(12) == 0x000800 && BigByte(13) == 0x000400 && BigByte(14) == 0x000200 && BigByte(15) == 0x000100
    ensures BigByte(16) == 0x000080 && BigByte(17) == 0x000040 && BigByte(18) == 0x000020 && BigByte(19) == 0x000010
    ensures BigByte(20) == 0x000008 && BigByte(21) == 0x000004 && BigByte(22) == 0x000002 && BigByte(23) == 0x000001
  {
  }

  lemma GatheredGroups(bits: seq<bool>, from: nat)
    requires |bits| == 56 && from + 24 <= 48
    ensures Gathered(bits, from, 24)
         == Packed(Group(Bits6(bits, from)), Group(Bits6(bits, from + 6)), Group(Bits6(bits, from + 12)), Group(Bits6(bits, from + 18)))
  {
    hide *;
    BigBytes();
    GatheredNone(bits, from);
    GatheredMore(bits, from, 0);
    GatheredMore(bits, from, 6);
    GatheredMore(bits, from, 12);
    GatheredMore(bits, from, 18);
    FourSixes(Bits6(bits, from), Bits6(bits, from + 6), Bits6(bits, from + 12), Bits6(bits, from + 18));
  }

  lemma CookedGroups(a0: byte, a1: byte, a2: byte, a3: byte, b0: byte, b1: byte, b2: byte, b3: byte)
    requires IsSix(a0) && IsSix(a1) && IsSix(a2) && IsSix(a3) && IsSix(b0) && IsSix(b1) && IsSix(b2) && IsSix(b3)
    ensures Cooked0(Packed(a0, a1, a2, a3), Packed(b0, b1, b2, b3)) == Word(a0, a2, b0, b2)
    ensures Cooked1(Packed(a0, a1, a2, a3), Packed(b0, b1, b2, b3)) == Word(a1, a3, b1, b3)
  {
  }
}
