/** The tables of src/d3des.c are the selection functions of FIPS 46-3 with the permutation P
    behind them, turned left by one bit. */
module DesBoxes {
  import opened ByteSeqs
  import opened Des
  import opened DesTables
  import opened DesStandard

  function If(b: byte, w: word): word { if b != 0 then w else 0 }

  /** Where the four bits of selection function i + 1 end up. */
  function Spots(i: nat, n: byte): word
    requires i < 8
  {
    if i < 4 then
      if i < 2 then
        if i == 0 then If(n & 8, 0x01000000) | If(n & 4, 0x00010000) | If(n & 2, 0x00000400) | If(n & 1, 0x00000004)
        else If(n & 8, 0x00100000) | If(n & 4, 0x00000020) | If(n & 2, 0x80000000) | If(n & 1, 0x00008000)
      else
        if i == 2 then If(n & 8, 0x00000200) | If(n & 4, 0x00020000) | If(n & 2, 0x00000008) | If(n & 1, 0x08000000)
        else If(n & 8, 0x00000080) | If(n & 4, 0x00002000) | If(n & 2, 0x00800000) | If(n & 1, 0x00000001)
    else
      if i < 6 then
        if i == 4 then If(n & 8, 0x02000000) | If(n & 4, 0x00080000) | If(n & 2, 0x00000100) | If(n & 1, 0x40000000)
        else If(n & 8, 0x20000000) | If(n & 4, 0x00000010) | If(n & 2, 0x00400000) | If(n & 1, 0x00004000)
      else
        if i == 6 then If(n & 8, 0x00000002) | If(n & 4, 0x00200000) | If(n & 2, 0x00000800) | If(n & 1, 0x04000000)
        else If(n & 8, 0x10000000) | If(n & 4, 0x00000040) | If(n & 2, 0x00040000) | If(n & 1, 0x00001000)
  }

  function Raw0(w: word): word {
    (if w & 0x00010000 != 0 then 0x80000000 else 0) | (if w & 0x02000000 != 0 then 0x40000000 else 0) | (if w & 0x00001000 != 0 then 0x20000000 else 0) | (if w & 0x00000800 != 0 then 0x10000000 else 0)
  }

  lemma FourBits0(w: word)
    ensures FourBits(w, 0) == Raw0(w)
  {
  }

  function Raw1(w: word): word {
    (if w & 0x00000008 != 0 then 0x08000000 else 0) | (if w & 0x00100000 != 0 then 0x04000000 else 0) | (if w & 0x00000010 != 0 then 0x02000000 else 0) | (if w & 0x00008000 != 0 then 0x01000000 else 0)
  }

  lemma FourBits1(w: word)
    ensures FourBits(w, 1) == Raw1(w)
  {
  }

  function Raw2(w: word): word {
    (if w & 0x80000000 != 0 then 0x00800000 else 0) | (if w & 0x00020000 != 0 then 0x00400000 else 0) | (if w & 0x00000200 != 0 then 0x00200000 else 0) | (if w & 0x00000040 != 0 then 0x00100000 else 0)
  }

  lemma FourBits2(w: word)
    ensures FourBits(w, 2) == Raw2(w)
  {
  }

  function Raw3(w: word): word {
    (if w & 0x08000000 != 0 then 0x00080000 else 0) | (if w & 0x00004000 != 0 then 0x00040000 else 0) | (if w & 0x00000002 != 0 then 0x00020000 else 0) | (if w & 0x00400000 != 0 then 0x00010000 else 0)
  }

  lemma FourBits3(w: word)
    ensures FourBits(w, 3) == Raw3(w)
  {
  }

  function Raw4(w: word): word {
    (if w & 0x40000000 != 0 then 0x00008000 else 0) | (if w & 0x01000000 != 0 then 0x00004000 else 0) | (if w & 0x00000100 != 0 then 0x00002000 else 0) | (if w & 0x00040000 != 0 then 0x00001000 else 0)
  }

  lemma FourBits4(w: word)
    ensures FourBits(w, 4) == Raw4(w)
  {
  }

  function Raw5(w: word): word {
    (if w & 0x00000001 != 0 then 0x00000800 else 0) | (if w & 0x00000020 != 0 then 0x00000400 else 0) | (if w & 0x20000000 != 0 then 0x00000200 else 0) | (if w & 0x00800000 != 0 then 0x00000100 else 0)
  }

  lemma FourBits5(w: word)
    ensures FourBits(w, 5) == Raw5(w)
  {
  }

  function Raw6(w: word): word {
    (if w & 0x00002000 != 0 then 0x00000080 else 0) | (if w & 0x00080000 != 0 then 0x00000040 else 0) | (if w & 0x00000004 != 0 then 0x00000020 else 0) | (if w & 0x04000000 != 0 then 0x00000010 else 0)
  }

  lemma FourBits6(w: word)
    ensures FourBits(w, 6) == Raw6(w)
  {
  }

  function Raw7(w: word): word {
    (if w & 0x00000400 != 0 then 0x00000008 else 0) | (if w & 0x00200000 != 0 then 0x00000004 else 0) | (if w & 0x10000000 != 0 then 0x00000002 else 0) | (if w & 0x00000080 != 0 then 0x00000001 else 0)
  }

  lemma FourBits7(w: word)
    ensures FourBits(w, 7) == Raw7(w)
  {
  }

  lemma Spots0(n: byte)
    ensures RotateLeft(Permuted(InPlace(0, n))) == Spots(0, n)
  {
    var w := InPlace(0, n);
    FourBits0(w);
    FourBits1(w);
    FourBits2(w);
    FourBits3(w);
    FourBits4(w);
    FourBits5(w);
    FourBits6(w);
    FourBits7(w);
    hide FourBits;
  }

  lemma Spots1(n: byte)
    ensures RotateLeft(Permuted(InPlace(1, n))) == Spots(1, n)
  {
    var w := InPlace(1, n);
    FourBits0(w);
    FourBits1(w);
    FourBits2(w);
    FourBits3(w);
    FourBits4(w);
    FourBits5(w);
    FourBits6(w);
    FourBits7(w);
    hide FourBits;
  }

  lemma Spots2(n: byte)
    ensures RotateLeft(Permuted(InPlace(2, n))) == Spots(2, n)
  {
    var w := InPlace(2, n);
    FourBits0(w);
    FourBits1(w);
    FourBits2(w);
    FourBits3(w);
    FourBits4(w);
    FourBits5(w);
    FourBits6(w);
    FourBits7(w);
    hide FourBits;
  }

  lemma Spots3(n: byte)
    ensures RotateLeft(Permuted(InPlace(3, n))) == Spots(3, n)
  {
    var w := InPlace(3, n);
    FourBits0(w);
    FourBits1(w);
    FourBits2(w);
    FourBits3(w);
    FourBits4(w);
    FourBits5(w);
    FourBits6(w);
    FourBits7(w);
    hide FourBits;
  }

  lemma Spots4(n: byte)
    ensures RotateLeft(Permuted(InPlace(4, n))) == Spots(4, n)
  {
    var w := InPlace(4, n);
    FourBits0(w);
    FourBits1(w);
    FourBits2(w);
    FourBits3(w);
    FourBits4(w);
    FourBits5(w);
    FourBits6(w);
    FourBits7(w);
    hide FourBits;
  }

  lemma Spots5(n: byte)
    ensures RotateLeft(Permuted(InPlace(5, n))) == Spots(5, n)
  {
    var w := InPlace(5, n);
    FourBits0(w);
    FourBits1(w);
    FourBits2(w);
    FourBits3(w);
    FourBits4(w);
    FourBits5(w);
    FourBits6(w);
    FourBits7(w);
    hide FourBits;
  }

  lemma Spots6(n: byte)
    ensures RotateLeft(Permuted(InPlace(6, n))) == Spots(6, n)
  {
    var w := InPlace(6, n);
    FourBits0(w);
    FourBits1(w);
    FourBits2(w);
    FourBits3(w);
    FourBits4(w);
    FourBits5(w);
    FourBits6(w);
    FourBits7(w);
    hide FourBits;
  }

  lemma Spots7(n: byte)
    ensures RotateLeft(Permuted(InPlace(7, n))) == Spots(7, n)
  {
    var w := InPlace(7, n);
    FourBits0(w);
    FourBits1(w);
    FourBits2(w);
    FourBits3(w);
    FourBits4(w);
    FourBits5(w);
    FourBits6(w);
    FourBits7(w);
    hide FourBits;
  }

  /** Columns c to c + 7 of rows r and r + 1, as a quarter of a table holds them. */
  function Quarter(i: nat, r: byte, c: nat): (s: seq<word>)
    requires i < 8 && (r == 0 || r == 2) && (c == 0 || c == 8)
    ensures |s| == 16
  {
    Interleaved(i, SRow(i, r), SRow(i, r + 1), c)
  }

  function Interleaved(i: nat, s: seq<byte>, t: seq<byte>, c: nat): (u: seq<word>)
    requires i < 8 && |s| == 16 && |t| == 16 && c <= 8
    ensures |u| == 16
  {
    [Spots(i, s[c]), Spots(i, t[c]), Spots(i, s[c + 1]), Spots(i, t[c + 1]), Spots(i, s[c + 2]), Spots(i, t[c + 2]), Spots(i, s[c + 3]), Spots(i, t[c + 3]),
     Spots(i, s[c + 4]), Spots(i, t[c + 4]), Spots(i, s[c + 5]), Spots(i, t[c + 5]), Spots(i, s[c + 6]), Spots(i, t[c + 6]), Spots(i, s[c + 7]), Spots(i, t[c + 7])]
  }

  lemma Table1A()
    ensures SP1A == Quarter(0, 0, 0)
  {
  }

  lemma Table1B()
    ensures SP1B == Quarter(0, 0, 8)
  {
  }

  lemma Table1C()
    ensures SP1C == Quarter(0, 2, 0)
  {
  }

  lemma Table1D()
    ensures SP1D == Quarter(0, 2, 8)
  {
  }

  lemma Table2A()
    ensures SP2A == Quarter(1, 0, 0)
  {
  }

  lemma Table2B()
    ensures SP2B == Quarter(1, 0, 8)
  {
  }

  lemma Table2C()
    ensures SP2C == Quarter(1, 2, 0)
  {
  }

  lemma Table2D()
    ensures SP2D == Quarter(1, 2, 8)
  {
  }

  lemma Table3A()
    ensures SP3A == Quarter(2, 0, 0)
  {
  }

  lemma Table3B()
    ensures SP3B == Quarter(2, 0, 8)
  {
  }

  lemma Table3C()
    ensures SP3C == Quarter(2, 2, 0)
  {
  }

  lemma Table3D()
    ensures SP3D == Quarter(2, 2, 8)
  {
  }

  lemma Table4A()
    ensures SP4A == Quarter(3, 0, 0)
  {
  }

  lemma Table4B()
    ensures SP4B == Quarter(3, 0, 8)
  {
  }

  lemma Table4C()
    ensures SP4C == Quarter(3, 2, 0)
  {
  }

  lemma Table4D()
    ensures SP4D == Quarter(3, 2, 8)
  {
  }

  lemma Table5A()
    ensures SP5A == Quarter(4, 0, 0)
  {
  }

  lemma Table5B()
    ensures SP5B == Quarter(4, 0, 8)
  {
  }

  lemma Table5C()
    ensures SP5C == Quarter(4, 2, 0)
  {
  }

  lemma Table5D()
    ensures SP5D == Quarter(4, 2, 8)
  {
  }

  lemma Table6A()
    ensures SP6A == Quarter(5, 0, 0)
  {
  }

  lemma Table6B()
    ensures SP6B == Quarter(5, 0, 8)
  {
  }

  lemma Table6C()
    ensures SP6C == Quarter(5, 2, 0)
  {
  }

  lemma Table6D()
    ensures SP6D == Quarter(5, 2, 8)
  {
  }

  lemma Table7A()
    ensures SP7A == Quarter(6, 0, 0)
  {
  }

  lemma Table7B()
    ensures SP7B == Quarter(6, 0, 8)
  {
  }

  lemma Table7C()
    ensures SP7C == Quarter(6, 2, 0)
  {
  }

  lemma Table7D()
    ensures SP7D == Quarter(6, 2, 8)
  {
  }

  lemma Table8A()
    ensures SP8A == Quarter(7, 0, 0)
  {
  }

  lemma Table8B()
    ensures SP8B == Quarter(7, 0, 8)
  {
  }

  lemma Table8C()
    ensures SP8C == Quarter(7, 2, 0)
  {
  }

  lemma Table8D()
    ensures SP8D == Quarter(7, 2, 8)
  {
  }


  function RowAt(k: nat): byte {
    if k < 32 then (if k % 2 == 0 then 0 else 1) else (if k % 2 == 0 then 2 else 3)
  }

  /** The six bits as a number choose a quarter and a place in it. */
  lemma SixAsNumber(x: byte)
    requires x < 64
    ensures var k := Place(x);
            k < 64 && Row(x) == RowAt(k) && Column(x) == k / 2 % 16
  {
  }

  lemma InterleavedAt(i: nat, s: seq<byte>, t: seq<byte>, c: nat, l: nat)
    requires i < 8 && |s| == 16 && |t| == 16 && c <= 8 && l < 16
    ensures Interleaved(i, s, t, c)[l] == Spots(i, if l % 2 == 0 then s[c + l / 2] else t[c + l / 2])
  {
    hide Spots;
    var m := l / 2;
    if m == 0 {} else if m == 1 {} else if m == 2 {} else if m == 3 {} else if m == 4 {} else if m == 5 {} else if m == 6 {}
  }

  function Whole(i: nat): (s: seq<word>)
    requires i < 8
    ensures |s| == 64
  {
    Quarter(i, 0, 0) + Quarter(i, 0, 8) + Quarter(i, 2, 0) + Quarter(i, 2, 8)
  }

  lemma WholeAt(i: nat, x: byte)
    requires i < 8 && x < 64
    ensures Place(x) < 64 && Whole(i)[Place(x)] == Spots(i, Selected(i, x))
  {
    SixAsNumber(x);
    WholeAtNumber(i, Place(x));
    hide Spots, SRow, Place, Row, Column, Whole, RowAt;
  }

  lemma WholeAtNumber(i: nat, k: nat)
    requires i < 8 && k < 64
    ensures Whole(i)[k] == Spots(i, SRow(i, RowAt(k))[k / 2 % 16])
  {
    hide Spots, SRow, Quarter;
    QuarterAt(Quarter(i, 0, 0), Quarter(i, 0, 8), Quarter(i, 2, 0), Quarter(i, 2, 8), k);
    if k < 16 {
      InQuarter(i, 0, 0, k);
    } else if k < 32 {
      InQuarter(i, 0, 8, k - 16);
    } else if k < 48 {
      InQuarter(i, 2, 0, k - 32);
    } else {
      InQuarter(i, 2, 8, k - 48);
    }
  }

  lemma InQuarter(i: nat, r: byte, c: nat, l: nat)
    requires i < 8 && (r == 0 || r == 2) && (c == 0 || c == 8) && l < 16
    ensures Quarter(i, r, c)[l] == Spots(i, SRow(i, if l % 2 == 0 then r else r + 1)[c + l / 2])
  {
    hide Interleaved, SRow, Spots;
    InterleavedAt(i, SRow(i, r), SRow(i, r + 1), c, l);
  }

  lemma QuarterAt(a: seq<word>, b: seq<word>, c: seq<word>, d: seq<word>, k: nat)
    requires |a| == 16 && |b| == 16 && |c| == 16 && |d| == 16 && k < 64
    ensures (a + b + c + d)[k] == if k < 16 then a[k] else if k < 32 then b[k - 16] else if k < 48 then c[k - 32] else d[k - 48]
  {
  }

  lemma Table1()
    ensures SP1 == Whole(0)
  {
    Table1A();
    Table1B();
    Table1C();
    Table1D();
    hide Quarter, SP1A, SP1B, SP1C, SP1D;
  }

  lemma Table2()
    ensures SP2 == Whole(1)
  {
    Table2A();
    Table2B();
    Table2C();
    Table2D();
    hide Quarter, SP2A, SP2B, SP2C, SP2D;
  }

  lemma Table3()
    ensures SP3 == Whole(2)
  {
    Table3A();
    Table3B();
    Table3C();
    Table3D();
    hide Quarter, SP3A, SP3B, SP3C, SP3D;
  }

  lemma Table4()
    ensures SP4 == Whole(3)
  {
    Table4A();
    Table4B();
    Table4C();
    Table4D();
    hide Quarter, SP4A, SP4B, SP4C, SP4D;
  }

  lemma Table5()
    ensures SP5 == Whole(4)
  {
    Table5A();
    Table5B();
    Table5C();
    Table5D();
    hide Quarter, SP5A, SP5B, SP5C, SP5D;
  }

  lemma Table6()
    ensures SP6 == Whole(5)
  {
    Table6A();
    Table6B();
    Table6C();
    Table6D();
    hide Quarter, SP6A, SP6B, SP6C, SP6D;
  }

  lemma Table7()
    ensures SP7 == Whole(6)
  {
    Table7A();
    Table7B();
    Table7C();
    Table7D();
    hide Quarter, SP7A, SP7B, SP7C, SP7D;
  }

  lemma Table8()
    ensures SP8 == Whole(7)
  {
    Table8A();
    Table8B();
    Table8C();
    Table8D();
    hide Quarter, SP8A, SP8B, SP8C, SP8D;
  }

  /** What a table holds for six bits: the selected bits, permuted and turned. */
  lemma TableAt(i: nat, x: byte)
    requires i < 8 && x < 64
    ensures Boxes(TABLES) && Place(x) < 64
    ensures TABLES[i][Place(x)] == RotateLeft(Permuted(InPlace(i, Selected(i, x))))
  {
    TablesFit();
    TablesAre(i);
    WholeAt(i, x);
    SpotsAre(i, Selected(i, x));
    hide TABLES, Whole, Selected, Spots, Permuted, InPlace, RotateLeft;
  }

  lemma TablesAre(i: nat)
    requires i < 8
    ensures |TABLES| == 8 && TABLES[i] == Whole(i)
  {
    Table1();
    Table2();
    Table3();
    Table4();
    Table5();
    Table6();
    Table7();
    Table8();
    hide SP1, SP2, SP3, SP4, SP5, SP6, SP7, SP8, Whole;
  }

  lemma SpotsAre(i: nat, n: byte)
    requires i < 8
    ensures RotateLeft(Permuted(InPlace(i, n))) == Spots(i, n)
  {
    hide RotateLeft, Permuted, InPlace, Spots;
    if i == 0 { Spots0(n); } else if i == 1 { Spots1(n); } else if i == 2 { Spots2(n); } else if i == 3 { Spots3(n); }
    else if i == 4 { Spots4(n); } else if i == 5 { Spots5(n); } else if i == 6 { Spots6(n); } else { Spots7(n); }
  }

  /** Tables that hold the selected bits, permuted and turned. */
  ghost predicate AreStandard(sp: seq<seq<word>>) {
    Boxes(sp) && forall i, x: byte {:trigger sp[i], Place(x)} :: 0 <= i < 8 && x < 64 ==> Holds(sp, i, x)
  }

  ghost predicate Holds(sp: seq<seq<word>>, i: nat, x: byte)
    requires Boxes(sp) && i < 8 && x < 64
  {
    Place(x) < 64 && sp[i][Place(x)] == RotateLeft(Permuted(InPlace(i, Selected(i, x))))
  }

  /** Those of the source are. */
  lemma TablesAreStandard()
    ensures AreStandard(TABLES)
  {
    TablesFit();
    hide TABLES, Boxes, Permuted, InPlace, Selected, RotateLeft;
    forall i, x: byte | 0 <= i < 8 && x < 64 ensures Holds(TABLES, i, x) {
      TableAt(i, x);
    }
  }
}
