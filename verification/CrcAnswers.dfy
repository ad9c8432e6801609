/** The check values of the CRC catalogues: what the digits 1 to 9 give. */
module CrcAnswers {
  import opened ByteSeqs
  import opened Crc

  const DIGITS: seq<byte> := [0x31, 0x32, 0x33, 0x34, 0x35, 0x36, 0x37, 0x38, 0x39]

  lemma DigitList()
    ensures |DIGITS| == 9 && DIGITS[..9] == DIGITS
    ensures DIGITS[0] == 0x31 && DIGITS[1] == 0x32 && DIGITS[2] == 0x33 && DIGITS[3] == 0x34 && DIGITS[4] == 0x35
    ensures DIGITS[5] == 0x36 && DIGITS[6] == 0x37 && DIGITS[7] == 0x38 && DIGITS[8] == 0x39
  {
  }

  lemma Bytes32()
    ensures Byte32(Enter32(0xFFFFFFFF, 0x31)) == 0x7C231048
    ensures Byte32(Enter32(0x7C231048, 0x32)) == 0xB0ACBB32
    ensures Byte32(Enter32(0xB0ACBB32, 0x33)) == 0x77B79C2D
    ensures Byte32(Enter32(0x77B79C2D, 0x34)) == 0x641C1F5C
    ensures Byte32(Enter32(0x641C1F5C, 0x35)) == 0x340AC5E3
    ensures Byte32(Enter32(0x340AC5E3, 0x36)) == 0xF68D2C9E
    ensures Byte32(Enter32(0xF68D2C9E, 0x37)) == 0xAFFC9660
    ensures Byte32(Enter32(0xAFFC9660, 0x38)) == 0x651F2550
    ensures Byte32(Enter32(0x651F2550, 0x39)) == 0x340BC6D9
  {
  }

  lemma Digits32()
    ensures Divide32(0xFFFFFFFF, DIGITS) == 0x340BC6D9
  {
    hide *;
    DigitList();
    Bytes32();
    None32(0xFFFFFFFF);
    Next32(0xFFFFFFFF, 0, 0xFFFFFFFF, 0x31);
    Next32(0xFFFFFFFF, 1, 0x7C231048, 0x32);
    Next32(0xFFFFFFFF, 2, 0xB0ACBB32, 0x33);
    Next32(0xFFFFFFFF, 3, 0x77B79C2D, 0x34);
    Next32(0xFFFFFFFF, 4, 0x641C1F5C, 0x35);
    Next32(0xFFFFFFFF, 5, 0x340AC5E3, 0x36);
    Next32(0xFFFFFFFF, 6, 0xF68D2C9E, 0x37);
    Next32(0xFFFFFFFF, 7, 0xAFFC9660, 0x38);
    Next32(0xFFFFFFFF, 8, 0x651F2550, 0x39);
  }

  lemma Next32(c: bv32, i: nat, was: bv32, b: byte)
    requires i < 9 && DIGITS[i] == b && Divide32(c, DIGITS[..i]) == was
    ensures Divide32(c, DIGITS[..i + 1]) == Byte32(Enter32(was, b))
  {
    hide Byte32, Enter32;
    assert DIGITS[..i + 1][..i] == DIGITS[..i];
  }

  lemma None32(c: bv32)
    ensures Divide32(c, DIGITS[..0]) == c
  {
  }

  lemma Bytes16()
    ensures Byte16(Enter16(0x0000, 0x31)) == 0xD4C1
    ensures Byte16(Enter16(0xD4C1, 0x32)) == 0x4594
    ensures Byte16(Enter16(0x4594, 0x33)) == 0xBA04
    ensures Byte16(Enter16(0xBA04, 0x34)) == 0x14BA
    ensures Byte16(Enter16(0x14BA, 0x35)) == 0xA455
    ensures Byte16(Enter16(0xA455, 0x36)) == 0x29E4
    ensures Byte16(Enter16(0x29E4, 0x37)) == 0x9D68
    ensures Byte16(Enter16(0x9D68, 0x38)) == 0x3C9D
    ensures Byte16(Enter16(0x3C9D, 0x39)) == 0xBB3D
  {
  }

  lemma Digits16()
    ensures Divide16(0x0000, DIGITS) == 0xBB3D
  {
    hide *;
    DigitList();
    Bytes16();
    None16(0x0000);
    Next16(0x0000, 0, 0x0000, 0x31);
    Next16(0x0000, 1, 0xD4C1, 0x32);
    Next16(0x0000, 2, 0x4594, 0x33);
    Next16(0x0000, 3, 0xBA04, 0x34);
    Next16(0x0000, 4, 0x14BA, 0x35);
    Next16(0x0000, 5, 0xA455, 0x36);
    Next16(0x0000, 6, 0x29E4, 0x37);
    Next16(0x0000, 7, 0x9D68, 0x38);
    Next16(0x0000, 8, 0x3C9D, 0x39);
  }

  lemma Next16(c: bv16, i: nat, was: bv16, b: byte)
    requires i < 9 && DIGITS[i] == b && Divide16(c, DIGITS[..i]) == was
    ensures Divide16(c, DIGITS[..i + 1]) == Byte16(Enter16(was, b))
  {
    hide Byte16, Enter16;
    assert DIGITS[..i + 1][..i] == DIGITS[..i];
  }

  lemma None16(c: bv16)
    ensures Divide16(c, DIGITS[..0]) == c
  {
  }

  lemma BytesX()
    ensures ByteX(EnterX(0x0000, 0x31)) == 0x2672
    ensures ByteX(EnterX(0x2672, 0x32)) == 0x20B5
    ensures ByteX(EnterX(0x20B5, 0x33)) == 0x9752
    ensures ByteX(EnterX(0x9752, 0x34)) == 0xD789
    ensures ByteX(EnterX(0xD789, 0x35)) == 0x546C
    ensures ByteX(EnterX(0x546C, 0x36)) == 0x20E4
    ensures ByteX(EnterX(0x20E4, 0x37)) == 0x86D6
    ensures ByteX(EnterX(0x86D6, 0x38)) == 0x9015
    ensures ByteX(EnterX(0x9015, 0x39)) == 0x31C3
  {
  }

  lemma DigitsX()
    ensures DivideX(0x0000, DIGITS) == 0x31C3
  {
    hide *;
    DigitList();
    BytesX();
    NoneX(0x0000);
    NextX(0x0000, 0, 0x0000, 0x31);
    NextX(0x0000, 1, 0x2672, 0x32);
    NextX(0x0000, 2, 0x20B5, 0x33);
    NextX(0x0000, 3, 0x9752, 0x34);
    NextX(0x0000, 4, 0xD789, 0x35);
    NextX(0x0000, 5, 0x546C, 0x36);
    NextX(0x0000, 6, 0x20E4, 0x37);
    NextX(0x0000, 7, 0x86D6, 0x38);
    NextX(0x0000, 8, 0x9015, 0x39);
  }

  lemma NextX(c: bv16, i: nat, was: bv16, b: byte)
    requires i < 9 && DIGITS[i] == b && DivideX(c, DIGITS[..i]) == was
    ensures DivideX(c, DIGITS[..i + 1]) == ByteX(EnterX(was, b))
  {
    hide ByteX, EnterX;
    assert DIGITS[..i + 1][..i] == DIGITS[..i];
  }

  lemma NoneX(c: bv16)
    ensures DivideX(c, DIGITS[..0]) == c
  {
  }

  lemma Bytes8()
    ensures Byte8(0x00 ^ 0x31) == 0xE0
    ensures Byte8(0xE0 ^ 0x32) == 0xEB
    ensures Byte8(0xEB ^ 0x33) == 0x95
    ensures Byte8(0x95 ^ 0x34) == 0xF1
    ensures Byte8(0xF1 ^ 0x35) == 0xAB
    ensures Byte8(0xAB ^ 0x36) == 0xEC
    ensures Byte8(0xEC ^ 0x37) == 0x77
    ensures Byte8(0x77 ^ 0x38) == 0x07
    ensures Byte8(0x07 ^ 0x39) == 0xA1
  {
  }

  lemma Digits8()
    ensures Divide8(0x00, DIGITS) == 0xA1
  {
    hide *;
    DigitList();
    Bytes8();
    None8(0x00);
    Next8(0x00, 0, 0x00, 0x31);
    Next8(0x00, 1, 0xE0, 0x32);
    Next8(0x00, 2, 0xEB, 0x33);
    Next8(0x00, 3, 0x95, 0x34);
    Next8(0x00, 4, 0xF1, 0x35);
    Next8(0x00, 5, 0xAB, 0x36);
    Next8(0x00, 6, 0xEC, 0x37);
    Next8(0x00, 7, 0x77, 0x38);
    Next8(0x00, 8, 0x07, 0x39);
  }

  lemma Next8(c: byte, i: nat, was: byte, b: byte)
    requires i < 9 && DIGITS[i] == b && Divide8(c, DIGITS[..i]) == was
    ensures Divide8(c, DIGITS[..i + 1]) == Byte8(was ^ b)
  {
    hide Byte8;
    assert DIGITS[..i + 1][..i] == DIGITS[..i];
  }

  lemma None8(c: byte)
    ensures Divide8(c, DIGITS[..0]) == c
  {
  }

  /** The catalogues' values for CRC-32, CRC-16/ARC, CRC-16/XMODEM and CRC-8/MAXIM. */
  lemma CheckValues()
    ensures Checksum32(DIGITS) == 0xCBF43926
    ensures Divide16(0, DIGITS) == 0xBB3D && DivideX(0, DIGITS) == 0x31C3 && Divide8(0, DIGITS) == 0xA1
  {
    Digits32();
    Digits16();
    DigitsX();
    Digits8();
    hide Divide32, Divide16, DivideX, Divide8;
  }
}
