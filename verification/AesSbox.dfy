/** The substitution table of src/aes.c is the map of FIPS 197, section 5.1.1: the inverse in
    the field, followed by an affine transformation. */
module AesSbox {
  import opened ByteSeqs
  import opened AesField

  function If(bit: byte, x: byte): byte { if bit != 0 then x else 0 }

  /** The product in the field (FIPS 197, section 4.2): for every bit of y, x times that
      power of 2. */
  function Product(x: byte, y: byte): byte {
    var x1 := Xtime(x);
    var x2 := Xtime(x1);
    var x3 := Xtime(x2);
    var x4 := Xtime(x3);
    var x5 := Xtime(x4);
    var x6 := Xtime(x5);
    var x7 := Xtime(x6);
    If(y & 0x01, x) ^ If(y & 0x02, x1) ^ If(y & 0x04, x2) ^ If(y & 0x08, x3)
    ^ If(y & 0x10, x4) ^ If(y & 0x20, x5) ^ If(y & 0x40, x6) ^ If(y & 0x80, x7)
  }

  /** The affine transformation: bit i is the sum of bits i, i+4, i+5, i+6, i+7 modulo 8
      and bit i of 0x63. */
  function Affine(y: byte): byte {
    y ^ ((y << 1) | (y >> 7)) ^ ((y << 2) | (y >> 6)) ^ ((y << 3) | (y >> 5)) ^ ((y << 4) | (y >> 4)) ^ 0x63
  }

  function Unaffine(s: byte): byte {
    ((s << 1) | (s >> 7)) ^ ((s << 3) | (s >> 5)) ^ ((s << 6) | (s >> 2)) ^ 0x05
  }

  /** Row r of the table, with c the lower half of the byte. */
  ghost predicate RowIs(r: byte, c: byte, x: byte, y: byte) {
    && (Product(x, y) == 1 ==> SboxAt(r, c) == Affine(y))
    && (x != 0 ==> Product(x, Unaffine(SboxAt(r, c))) == 1)
  }

  lemma Row0(c: byte, y: byte)
    requires c < 16
    ensures RowIs(0, c, 0x00 | c, y)
  {
  }

  lemma Row1(c: byte, y: byte)
    requires c < 16
    ensures RowIs(1, c, 0x10 | c, y)
  {
  }

  lemma Row2(c: byte, y: byte)
    requires c < 16
    ensures RowIs(2, c, 0x20 | c, y)
  {
  }

  lemma Row3(c: byte, y: byte)
    requires c < 16
    ensures RowIs(3, c, 0x30 | c, y)
  {
  }

  lemma Row4(c: byte, y: byte)
    requires c < 16
    ensures RowIs(4, c, 0x40 | c, y)
  {
  }

  lemma Row5(c: byte, y: byte)
    requires c < 16
    ensures RowIs(5, c, 0x50 | c, y)
  {
  }

  lemma Row6(c: byte, y: byte)
    requires c < 16
    ensures RowIs(6, c, 0x60 | c, y)
  {
  }

  lemma Row7(c: byte, y: byte)
    requires c < 16
    ensures RowIs(7, c, 0x70 | c, y)
  {
  }

  lemma Row8(c: byte, y: byte)
    requires c < 16
    ensures RowIs(8, c, 0x80 | c, y)
  {
  }

  lemma Row9(c: byte, y: byte)
    requires c < 16
    ensures RowIs(9, c, 0x90 | c, y)
  {
  }

  lemma Row10(c: byte, y: byte)
    requires c < 16
    ensures RowIs(10, c, 0xA0 | c, y)
  {
  }

  lemma Row11(c: byte, y: byte)
    requires c < 16
    ensures RowIs(11, c, 0xB0 | c, y)
  {
  }

  lemma Row12(c: byte, y: byte)
    requires c < 16
    ensures RowIs(12, c, 0xC0 | c, y)
  {
  }

  lemma Row13(c: byte, y: byte)
    requires c < 16
    ensures RowIs(13, c, 0xD0 | c, y)
  {
  }

  lemma Row14(c: byte, y: byte)
    requires c < 16
    ensures RowIs(14, c, 0xE0 | c, y)
  {
  }

  lemma Row15(c: byte, y: byte)
    requires c < 16
    ensures RowIs(15, c, 0xF0 | c, y)
  {
  }

  lemma Rows(r: byte, c: byte, x: byte, y: byte)
    requires r < 16 && c < 16 && x == (r << 4) | c
    ensures RowIs(r, c, x, y)
  {
    hide RowIs;
    Shifted(r);
    if r == 0 {
      Row0(c, y);
    } else if r == 1 {
      Row1(c, y);
    } else if r == 2 {
      Row2(c, y);
    } else if r == 3 {
      Row3(c, y);
    } else if r == 4 {
      Row4(c, y);
    } else if r == 5 {
      Row5(c, y);
    } else if r == 6 {
      Row6(c, y);
    } else if r == 7 {
      Row7(c, y);
    } else if r == 8 {
      Row8(c, y);
    } else if r == 9 {
      Row9(c, y);
    } else if r == 10 {
      Row10(c, y);
    } else if r == 11 {
      Row11(c, y);
    } else if r == 12 {
      Row12(c, y);
    } else if r == 13 {
      Row13(c, y);
    } else if r == 14 {
      Row14(c, y);
    } else {
      Row15(c, y);
    }
  }

  lemma Shifted(r: byte)
    requires r < 16
    ensures (r == 0 ==> r << 4 == 0x00) && (r == 1 ==> r << 4 == 0x10) && (r == 2 ==> r << 4 == 0x20) && (r == 3 ==> r << 4 == 0x30)
    ensures (r == 4 ==> r << 4 == 0x40) && (r == 5 ==> r << 4 == 0x50) && (r == 6 ==> r << 4 == 0x60) && (r == 7 ==> r << 4 == 0x70)
    ensures (r == 8 ==> r << 4 == 0x80) && (r == 9 ==> r << 4 == 0x90) && (r == 10 ==> r << 4 == 0xA0) && (r == 11 ==> r << 4 == 0xB0)
    ensures (r == 12 ==> r << 4 == 0xC0) && (r == 13 ==> r << 4 == 0xD0) && (r == 14 ==> r << 4 == 0xE0) && (r == 15 ==> r << 4 == 0xF0)
    ensures r == 0 || r == 1 || r == 2 || r == 3 || r == 4 || r == 5 || r == 6 || r == 7
         || r == 8 || r == 9 || r == 10 || r == 11 || r == 12 || r == 13 || r == 14 || r == 15
  {
  }

  lemma Nibbles(x: byte)
    ensures x >> 4 < 16 && x & 0xF < 16 && x == ((x >> 4) << 4) | (x & 0xF)
  {
  }

  /** Every byte but 0 has an inverse. */
  lemma InverseExists(x: byte) returns (y: byte)
    requires x != 0
    ensures Product(x, y) == 1
  {
    y := Unaffine(Sbox(x));
    Nibbles(x);
    Rows(x >> 4, x & 0xF, x, 0);
    hide Product, Unaffine, SboxAt, Affine;
  }

  /** The table takes a byte to the transformed inverse, and 0 to the transformed 0. */
  lemma SboxInverts(x: byte, y: byte)
    requires if x == 0 then y == 0 else Product(x, y) == 1
    ensures Sbox(x) == Affine(y)
  {
    if x == 0 {
      SboxZero();
    } else {
      Nibbles(x);
      Rows(x >> 4, x & 0xF, x, y);
      hide Product, Unaffine, SboxAt, Affine;
    }
  }

  lemma SboxZero()
    ensures Sbox(0) == Affine(0)
  {
  }
}
