/** The substitution tables and the field arithmetic of AES (FIPS 197, sections 4.2,
    5.1.1 and 5.3.2), as src/aes.c does them. */
module AesField {
  import opened ByteSeqs

  /** sbox, row r and column c of the table. */
  function SboxAt(r: byte, c: byte): byte {
    if r == 0 then (
      if c == 0 then 0x63 else if c == 1 then 0x7c else if c == 2 then 0x77 else if c == 3 then 0x7b else if c == 4 then 0xf2
      else if c == 5 then 0x6b else if c == 6 then 0x6f else if c == 7 then 0xc5 else if c == 8 then 0x30 else if c == 9 then 0x01
      else if c == 10 then 0x67 else if c == 11 then 0x2b else if c == 12 then 0xfe else if c == 13 then 0xd7 else if c == 14 then 0xab else 0x76)
    else if r == 1 then (
      if c == 0 then 0xca else if c == 1 then 0x82 else if c == 2 then 0xc9 else if c == 3 then 0x7d else if c == 4 then 0xfa
      else if c == 5 then 0x59 else if c == 6 then 0x47 else if c == 7 then 0xf0 else if c == 8 then 0xad else if c == 9 then 0xd4
      else if c == 10 then 0xa2 else if c == 11 then 0xaf else if c == 12 then 0x9c else if c == 13 then 0xa4 else if c == 14 then 0x72 else 0xc0)
    else if r == 2 then (
      if c == 0 then 0xb7 else if c == 1 then 0xfd else if c == 2 then 0x93 else if c == 3 then 0x26 else if c == 4 then 0x36
      else if c == 5 then 0x3f else if c == 6 then 0xf7 else if c == 7 then 0xcc else if c == 8 then 0x34 else if c == 9 then 0xa5
      else if c == 10 then 0xe5 else if c == 11 then 0xf1 else if c == 12 then 0x71 else if c == 13 then 0xd8 else if c == 14 then 0x31 else 0x15)
    else if r == 3 then (
      if c == 0 then 0x04 else if c == 1 then 0xc7 else if c == 2 then 0x23 else if c == 3 then 0xc3 else if c == 4 then 0x18
      else if c == 5 then 0x96 else if c == 6 then 0x05 else if c == 7 then 0x9a else if c == 8 then 0x07 else if c == 9 then 0x12
      else if c == 10 then 0x80 else if c == 11 then 0xe2 else if c == 12 then 0xeb else if c == 13 then 0x27 else if c == 14 then 0xb2 else 0x75)
    else if r == 4 then (
      if c == 0 then 0x09 else if c == 1 then 0x83 else if c == 2 then 0x2c else if c == 3 then 0x1a else if c == 4 then 0x1b
      else if c == 5 then 0x6e else if c == 6 then 0x5a else if c == 7 then 0xa0 else if c == 8 then 0x52 else if c == 9 then 0x3b
      else if c == 10 then 0xd6 else if c == 11 then 0xb3 else if c == 12 then 0x29 else if c == 13 then 0xe3 else if c == 14 then 0x2f else 0x84)
    else if r == 5 then (
      if c == 0 then 0x53 else if c == 1 then 0xd1 else if c == 2 then 0x00 else if c == 3 then 0xed else if c == 4 then 0x20
      else if c == 5 then 0xfc else if c == 6 then 0xb1 else if c == 7 then 0x5b else if c == 8 then 0x6a else if c == 9 then 0xcb
      else if c == 10 then 0xbe else if c == 11 then 0x39 else if c == 12 then 0x4a else if c == 13 then 0x4c else if c == 14 then 0x58 else 0xcf)
    else if r == 6 then (
      if c == 0 then 0xd0 else if c == 1 then 0xef else if c == 2 then 0xaa else if c == 3 then 0xfb else if c == 4 then 0x43
      else if c == 5 then 0x4d else if c == 6 then 0x33 else if c == 7 then 0x85 else if c == 8 then 0x45 else if c == 9 then 0xf9
      else if c == 10 then 0x02 else if c == 11 then 0x7f else if c == 12 then 0x50 else if c == 13 then 0x3c else if c == 14 then 0x9f else 0xa8)
    else if r == 7 then (
      if c == 0 then 0x51 else if c == 1 then 0xa3 else if c == 2 then 0x40 else if c == 3 then 0x8f else if c == 4 then 0x92
      else if c == 5 then 0x9d else if c == 6 then 0x38 else if c == 7 then 0xf5 else if c == 8 then 0xbc else if c == 9 then 0xb6
      else if c == 10 then 0xda else if c == 11 then 0x21 else if c == 12 then 0x10 else if c == 13 then 0xff else if c == 14 then 0xf3 else 0xd2)
    else if r == 8 then (
      if c == 0 then 0xcd else if c == 1 then 0x0c else if c == 2 then 0x13 else if c == 3 then 0xec else if c == 4 then 0x5f
      else if c == 5 then 0x97 else if c == 6 then 0x44 else if c == 7 then 0x17 else if c == 8 then 0xc4 else if c == 9 then 0xa7
      else if c == 10 then 0x7e else if c == 11 then 0x3d else if c == 12 then 0x64 else if c == 13 then 0x5d else if c == 14 then 0x19 else 0x73)
    else if r == 9 then (
      if c == 0 then 0x60 else if c == 1 then 0x81 else if c == 2 then 0x4f else if c == 3 then 0xdc else if c == 4 then 0x22
      else if c == 5 then 0x2a else if c == 6 then 0x90 else if c == 7 then 0x88 else if c == 8 then 0x46 else if c == 9 then 0xee
      else if c == 10 then 0xb8 else if c == 11 then 0x14 else if c == 12 then 0xde else if c == 13 then 0x5e else if c == 14 then 0x0b else 0xdb)
    else if r == 10 then (
      if c == 0 then 0xe0 else if c == 1 then 0x32 else if c == 2 then 0x3a else if c == 3 then 0x0a else if c == 4 then 0x49
      else if c == 5 then 0x06 else if c == 6 then 0x24 else if c == 7 then 0x5c else if c == 8 then 0xc2 else if c == 9 then 0xd3
      else if c == 10 then 0xac else if c == 11 then 0x62 else if c == 12 then 0x91 else if c == 13 then 0x95 else if c == 14 then 0xe4 else 0x79)
    else if r == 11 then (
      if c == 0 then 0xe7 else if c == 1 then 0xc8 else if c == 2 then 0x37 else if c == 3 then 0x6d else if c == 4 then 0x8d
      else if c == 5 then 0xd5 else if c == 6 then 0x4e else if c == 7 then 0xa9 else if c == 8 then 0x6c else if c == 9 then 0x56
      else if c == 10 then 0xf4 else if c == 11 then 0xea else if c == 12 then 0x65 else if c == 13 then 0x7a else if c == 14 then 0xae else 0x08)
    else if r == 12 then (
      if c == 0 then 0xba else if c == 1 then 0x78 else if c == 2 then 0x25 else if c == 3 then 0x2e else if c == 4 then 0x1c
      else if c == 5 then 0xa6 else if c == 6 then 0xb4 else if c == 7 then 0xc6 else if c == 8 then 0xe8 else if c == 9 then 0xdd
      else if c == 10 then 0x74 else if c == 11 then 0x1f else if c == 12 then 0x4b else if c == 13 then 0xbd else if c == 14 then 0x8b else 0x8a)
    else if r == 13 then (
      if c == 0 then 0x70 else if c == 1 then 0x3e else if c == 2 then 0xb5 else if c == 3 then 0x66 else if c == 4 then 0x48
      else if c == 5 then 0x03 else if c == 6 then 0xf6 else if c == 7 then 0x0e else if c == 8 then 0x61 else if c == 9 then 0x35
      else if c == 10 then 0x57 else if c == 11 then 0xb9 else if c == 12 then 0x86 else if c == 13 then 0xc1 else if c == 14 then 0x1d else 0x9e)
    else if r == 14 then (
      if c == 0 then 0xe1 else if c == 1 then 0xf8 else if c == 2 then 0x98 else if c == 3 then 0x11 else if c == 4 then 0x69
      else if c == 5 then 0xd9 else if c == 6 then 0x8e else if c == 7 then 0x94 else if c == 8 then 0x9b else if c == 9 then 0x1e
      else if c == 10 then 0x87 else if c == 11 then 0xe9 else if c == 12 then 0xce else if c == 13 then 0x55 else if c == 14 then 0x28 else 0xdf)
    else if c == 0 then 0x8c else if c == 1 then 0xa1 else if c == 2 then 0x89 else if c == 3 then 0x0d else if c == 4 then 0xbf
      else if c == 5 then 0xe6 else if c == 6 then 0x42 else if c == 7 then 0x68 else if c == 8 then 0x41 else if c == 9 then 0x99
      else if c == 10 then 0x2d else if c == 11 then 0x0f else if c == 12 then 0xb0 else if c == 13 then 0x54 else if c == 14 then 0xbb else 0x16
  }

  function Sbox(x: byte): byte { SboxAt(x >> 4, x & 0xF) }

  /** rsbox, row r and column c of the table. */
  function RsboxAt(r: byte, c: byte): byte {
    if r == 0 then (
      if c == 0 then 0x52 else if c == 1 then 0x09 else if c == 2 then 0x6a else if c == 3 then 0xd5 else if c == 4 then 0x30
      else if c == 5 then 0x36 else if c == 6 then 0xa5 else if c == 7 then 0x38 else if c == 8 then 0xbf else if c == 9 then 0x40
      else if c == 10 then 0xa3 else if c == 11 then 0x9e else if c == 12 then 0x81 else if c == 13 then 0xf3 else if c == 14 then 0xd7 else 0xfb)
    else if r == 1 then (
      if c == 0 then 0x7c else if c == 1 then 0xe3 else if c == 2 then 0x39 else if c == 3 then 0x82 else if c == 4 then 0x9b
      else if c == 5 then 0x2f else if c == 6 then 0xff else if c == 7 then 0x87 else if c == 8 then 0x34 else if c == 9 then 0x8e
      else if c == 10 then 0x43 else if c == 11 then 0x44 else if c == 12 then 0xc4 else if c == 13 then 0xde else if c == 14 then 0xe9 else 0xcb)
    else if r == 2 then (
      if c == 0 then 0x54 else if c == 1 then 0x7b else if c == 2 then 0x94 else if c == 3 then 0x32 else if c == 4 then 0xa6
      else if c == 5 then 0xc2 else if c == 6 then 0x23 else if c == 7 then 0x3d else if c == 8 then 0xee else if c == 9 then 0x4c
      else if c == 10 then 0x95 else if c == 11 then 0x0b else if c == 12 then 0x42 else if c == 13 then 0xfa else if c == 14 then 0xc3 else 0x4e)
    else if r == 3 then (
      if c == 0 then 0x08 else if c == 1 then 0x2e else if c == 2 then 0xa1 else if c == 3 then 0x66 else if c == 4 then 0x28
      else if c == 5 then 0xd9 else if c == 6 then 0x24 else if c == 7 then 0xb2 else if c == 8 then 0x76 else if c == 9 then 0x5b
      else if c == 10 then 0xa2 else if c == 11 then 0x49 else if c == 12 then 0x6d else if c == 13 then 0x8b else if c == 14 then 0xd1 else 0x25)
    else if r == 4 then (
      if c == 0 then 0x72 else if c == 1 then 0xf8 else if c == 2 then 0xf6 else if c == 3 then 0x64 else if c == 4 then 0x86
      else if c == 5 then 0x68 else if c == 6 then 0x98 else if c == 7 then 0x16 else if c == 8 then 0xd4 else if c == 9 then 0xa4
      else if c == 10 then 0x5c else if c == 11 then 0xcc else if c == 12 then 0x5d else if c == 13 then 0x65 else if c == 14 then 0xb6 else 0x92)
    else if r == 5 then (
      if c == 0 then 0x6c else if c == 1 then 0x70 else if c == 2 then 0x48 else if c == 3 then 0x50 else if c == 4 then 0xfd
      else if c == 5 then 0xed else if c == 6 then 0xb9 else if c == 7 then 0xda else if c == 8 then 0x5e else if c == 9 then 0x15
      else if c == 10 then 0x46 else if c == 11 then 0x57 else if c == 12 then 0xa7 else if c == 13 then 0x8d else if c == 14 then 0x9d else 0x84)
    else if r == 6 then (
      if c == 0 then 0x90 else if c == 1 then 0xd8 else if c == 2 then 0xab else if c == 3 then 0x00 else if c == 4 then 0x8c
      else if c == 5 then 0xbc else if c == 6 then 0xd3 else if c == 7 then 0x0a else if c == 8 then 0xf7 else if c == 9 then 0xe4
      else if c == 10 then 0x58 else if c == 11 then 0x05 else if c == 12 then 0xb8 else if c == 13 then 0xb3 else if c == 14 then 0x45 else 0x06)
    else if r == 7 then (
      if c == 0 then 0xd0 else if c == 1 then 0x2c else if c == 2 then 0x1e else if c == 3 then 0x8f else if c == 4 then 0xca
      else if c == 5 then 0x3f else if c == 6 then 0x0f else if c == 7 then 0x02 else if c == 8 then 0xc1 else if c == 9 then 0xaf
      else if c == 10 then 0xbd else if c == 11 then 0x03 else if c == 12 then 0x01 else if c == 13 then 0x13 else if c == 14 then 0x8a else 0x6b)
    else if r == 8 then (
      if c == 0 then 0x3a else if c == 1 then 0x91 else if c == 2 then 0x11 else if c == 3 then 0x41 else if c == 4 then 0x4f
      else if c == 5 then 0x67 else if c == 6 then 0xdc else if c == 7 then 0xea else if c == 8 then 0x97 else if c == 9 then 0xf2
      else if c == 10 then 0xcf else if c == 11 then 0xce else if c == 12 then 0xf0 else if c == 13 then 0xb4 else if c == 14 then 0xe6 else 0x73)
    else if r == 9 then (
      if c == 0 then 0x96 else if c == 1 then 0xac else if c == 2 then 0x74 else if c == 3 then 0x22 else if c == 4 then 0xe7
      else if c == 5 then 0xad else if c == 6 then 0x35 else if c == 7 then 0x85 else if c == 8 then 0xe2 else if c == 9 then 0xf9
      else if c == 10 then 0x37 else if c == 11 then 0xe8 else if c == 12 then 0x1c else if c == 13 then 0x75 else if c == 14 then 0xdf else 0x6e)
    else if r == 10 then (
      if c == 0 then 0x47 else if c == 1 then 0xf1 else if c == 2 then 0x1a else if c == 3 then 0x71 else if c == 4 then 0x1d
      else if c == 5 then 0x29 else if c == 6 then 0xc5 else if c == 7 then 0x89 else if c == 8 then 0x6f else if c == 9 then 0xb7
      else if c == 10 then 0x62 else if c == 11 then 0x0e else if c == 12 then 0xaa else if c == 13 then 0x18 else if c == 14 then 0xbe else 0x1b)
    else if r == 11 then (
      if c == 0 then 0xfc else if c == 1 then 0x56 else if c == 2 then 0x3e else if c == 3 then 0x4b else if c == 4 then 0xc6
      else if c == 5 then 0xd2 else if c == 6 then 0x79 else if c == 7 then 0x20 else if c == 8 then 0x9a else if c == 9 then 0xdb
      else if c == 10 then 0xc0 else if c == 11 then 0xfe else if c == 12 then 0x78 else if c == 13 then 0xcd else if c == 14 then 0x5a else 0xf4)
    else if r == 12 then (
      if c == 0 then 0x1f else if c == 1 then 0xdd else if c == 2 then 0xa8 else if c == 3 then 0x33 else if c == 4 then 0x88
      else if c == 5 then 0x07 else if c == 6 then 0xc7 else if c == 7 then 0x31 else if c == 8 then 0xb1 else if c == 9 then 0x12
      else if c == 10 then 0x10 else if c == 11 then 0x59 else if c == 12 then 0x27 else if c == 13 then 0x80 else if c == 14 then 0xec else 0x5f)
    else if r == 13 then (
      if c == 0 then 0x60 else if c == 1 then 0x51 else if c == 2 then 0x7f else if c == 3 then 0xa9 else if c == 4 then 0x19
      else if c == 5 then 0xb5 else if c == 6 then 0x4a else if c == 7 then 0x0d else if c == 8 then 0x2d else if c == 9 then 0xe5
      else if c == 10 then 0x7a else if c == 11 then 0x9f else if c == 12 then 0x93 else if c == 13 then 0xc9 else if c == 14 then 0x9c else 0xef)
    else if r == 14 then (
      if c == 0 then 0xa0 else if c == 1 then 0xe0 else if c == 2 then 0x3b else if c == 3 then 0x4d else if c == 4 then 0xae
      else if c == 5 then 0x2a else if c == 6 then 0xf5 else if c == 7 then 0xb0 else if c == 8 then 0xc8 else if c == 9 then 0xeb
      else if c == 10 then 0xbb else if c == 11 then 0x3c else if c == 12 then 0x83 else if c == 13 then 0x53 else if c == 14 then 0x99 else 0x61)
    else if c == 0 then 0x17 else if c == 1 then 0x2b else if c == 2 then 0x04 else if c == 3 then 0x7e else if c == 4 then 0xba
      else if c == 5 then 0x77 else if c == 6 then 0xd6 else if c == 7 then 0x26 else if c == 8 then 0xe1 else if c == 9 then 0x69
      else if c == 10 then 0x14 else if c == 11 then 0x63 else if c == 12 then 0x55 else if c == 13 then 0x21 else if c == 14 then 0x0c else 0x7d
  }

  function Rsbox(x: byte): byte { RsboxAt(x >> 4, x & 0xF) }

  /** The second table undoes the first. */
  lemma RsboxUndoes(x: byte)
    ensures Rsbox(Sbox(x)) == x
  {
  }

  /** z is the sum of x and y in the field. */
  predicate Sum(z: byte, x: byte, y: byte) { z == x ^ y }

  function Add(x: byte, y: byte): byte { x ^ y }

  lemma AddTwice(x: byte, y: byte)
    ensures Add(Add(x, y), y) == x
  {
  }

  lemma AddIsSum(x: byte, y: byte)
    ensures Sum(Add(x, y), x, y)
  {
  }

  predicate Sum4(t: byte, p: byte, q: byte, r: byte, s: byte) { t == p ^ q ^ r ^ s }

  /** xtime: multiplication by 2 */
  function Xtime(x: byte): byte { (x << 1) ^ (((x >> 7) & 1) * 0x1B) }

  /** The values of the Multiply macro for the four constants it is used with. */
  function Mul9(x: byte): byte { x ^ Xtime(Xtime(Xtime(x))) }

  function Mul11(x: byte): byte { x ^ Xtime(x) ^ Xtime(Xtime(Xtime(x))) }

  function Mul13(x: byte): byte { x ^ Xtime(Xtime(x)) ^ Xtime(Xtime(Xtime(x))) }

  function Mul14(x: byte): byte { Xtime(x) ^ Xtime(Xtime(x)) ^ Xtime(Xtime(Xtime(x))) }

  function Mul3(x: byte): byte { x ^ Xtime(x) }

  /** Multiply as it is written. */
  function Multiply(x: byte, y: byte): byte {
    ((y & 1) * x)
    ^ (((y >> 1) & 1) * Xtime(x))
    ^ (((y >> 2) & 1) * Xtime(Xtime(x)))
    ^ (((y >> 3) & 1) * Xtime(Xtime(Xtime(x))))
    ^ (((y >> 4) & 1) * Xtime(Xtime(Xtime(Xtime(x)))))
  }

  lemma MultiplyIs(x: byte)
    ensures Multiply(x, 0x09) == Mul9(x) && Multiply(x, 0x0B) == Mul11(x)
    ensures Multiply(x, 0x0D) == Mul13(x) && Multiply(x, 0x0E) == Mul14(x)
  {
    hide Xtime;
  }

  // ----- everything is linear

  function Up(x: byte): byte { x << 1 }

  function Fed(x: byte): byte { (x << 1) ^ 0x1B }

  predicate High(x: byte) { x & 0x80 != 0 }

  lemma XtimeIs(x: byte)
    ensures Xtime(x) == if High(x) then Fed(x) else Up(x)
  {
  }

  lemma HighSum(z: byte, x: byte, y: byte)
    requires Sum(z, x, y)
    ensures High(z) <==> (High(x) != High(y))
  {
  }

  lemma UpSum(z: byte, x: byte, y: byte)
    requires Sum(z, x, y)
    ensures Sum(Up(z), Up(x), Up(y))
  {
  }

  lemma FedLeft(z: byte, x: byte, y: byte)
    requires Sum(z, x, y)
    ensures Sum(Fed(z), Fed(x), Up(y))
  {
  }

  lemma FedRight(z: byte, x: byte, y: byte)
    requires Sum(z, x, y)
    ensures Sum(Fed(z), Up(x), Fed(y))
  {
  }

  lemma FedBoth(z: byte, x: byte, y: byte)
    requires Sum(z, x, y)
    ensures Sum(Up(z), Fed(x), Fed(y))
  {
  }

  lemma XtimeSum(z: byte, x: byte, y: byte)
    requires Sum(z, x, y)
    ensures Sum(Xtime(z), Xtime(x), Xtime(y))
  {
    hide *;
    XtimeIs(x);
    XtimeIs(y);
    XtimeIs(z);
    HighSum(z, x, y);
    UpSum(z, x, y);
    FedLeft(z, x, y);
    FedRight(z, x, y);
    FedBoth(z, x, y);
  }

  predicate Sum3(t: byte, p: byte, q: byte, r: byte) { t == p ^ q ^ r }

  lemma AddSums(z: byte, x: byte, y: byte, z1: byte, x1: byte, y1: byte, z2: byte, x2: byte, y2: byte)
    requires Sum(z1, x1, y1) && Sum(z2, x2, y2)
    requires Sum(z, z1, z2) && Sum(x, x1, x2) && Sum(y, y1, y2)
    ensures Sum(z, x, y)
  {
  }

  lemma AddThreeSums(z: byte, x: byte, y: byte, z1: byte, x1: byte, y1: byte,
                     z2: byte, x2: byte, y2: byte, z3: byte, x3: byte, y3: byte)
    requires Sum(z1, x1, y1) && Sum(z2, x2, y2) && Sum(z3, x3, y3)
    requires Sum3(z, z1, z2, z3) && Sum3(x, x1, x2, x3) && Sum3(y, y1, y2, y3)
    ensures Sum(z, x, y)
  {
  }

  /** The multiples as sums. */
  lemma Mul9Parts(x: byte)
    ensures Sum(Mul9(x), x, Xtime(Xtime(Xtime(x))))
  {
    hide Xtime;
  }

  lemma Mul11Parts(x: byte)
    ensures Sum3(Mul11(x), x, Xtime(x), Xtime(Xtime(Xtime(x))))
  {
    hide Xtime;
  }

  lemma Mul13Parts(x: byte)
    ensures Sum3(Mul13(x), x, Xtime(Xtime(x)), Xtime(Xtime(Xtime(x))))
  {
    hide Xtime;
  }

  lemma Mul14Parts(x: byte)
    ensures Sum3(Mul14(x), Xtime(x), Xtime(Xtime(x)), Xtime(Xtime(Xtime(x))))
  {
    hide Xtime;
  }

  lemma MulParts(x: byte)
    ensures var x1 := Xtime(x); var x2 := Xtime(x1); var x3 := Xtime(x2);
            Sum(Mul9(x), x, x3) && Sum3(Mul11(x), x, x1, x3) && Sum3(Mul13(x), x, x2, x3) && Sum3(Mul14(x), x1, x2, x3)
  {
    hide *;
    Mul9Parts(x);
    Mul11Parts(x);
    Mul13Parts(x);
    Mul14Parts(x);
  }

  lemma MulSums(z: byte, x: byte, y: byte)
    requires Sum(z, x, y)
    ensures Sum(Mul9(z), Mul9(x), Mul9(y)) && Sum(Mul11(z), Mul11(x), Mul11(y))
    ensures Sum(Mul13(z), Mul13(x), Mul13(y)) && Sum(Mul14(z), Mul14(x), Mul14(y))
  {
    hide *;
    MulParts(z);
    MulParts(x);
    MulParts(y);
    var z1, x1, y1 := Xtime(z), Xtime(x), Xtime(y);
    XtimeSum(z, x, y);
    var z2, x2, y2 := Xtime(z1), Xtime(x1), Xtime(y1);
    XtimeSum(z1, x1, y1);
    XtimeSum(z2, x2, y2);
    var z3, x3, y3 := Xtime(z2), Xtime(x2), Xtime(y2);
    AddSums(Mul9(z), Mul9(x), Mul9(y), z, x, y, z3, x3, y3);
    AddThreeSums(Mul11(z), Mul11(x), Mul11(y), z, x, y, z1, x1, y1, z3, x3, y3);
    AddThreeSums(Mul13(z), Mul13(x), Mul13(y), z, x, y, z2, x2, y2, z3, x3, y3);
    AddThreeSums(Mul14(z), Mul14(x), Mul14(y), z1, x1, y1, z2, x2, y2, z3, x3, y3);
  }

  lemma SplitSum4(t: byte, p: byte, q: byte, r: byte, s: byte)
    requires Sum4(t, p, q, r, s)
    ensures Sum(t, p ^ q, r ^ s) && Sum(p ^ q, p, q) && Sum(r ^ s, r, s)
  {
  }

  lemma JoinSum4(t: byte, u: byte, v: byte, p: byte, q: byte, r: byte, s: byte)
    requires Sum(t, u, v) && Sum(u, p, q) && Sum(v, r, s)
    ensures Sum4(t, p, q, r, s)
  {
  }

  lemma MulSum4(t: byte, p: byte, q: byte, r: byte, s: byte)
    requires Sum4(t, p, q, r, s)
    ensures Sum4(Mul9(t), Mul9(p), Mul9(q), Mul9(r), Mul9(s)) && Sum4(Mul11(t), Mul11(p), Mul11(q), Mul11(r), Mul11(s))
    ensures Sum4(Mul13(t), Mul13(p), Mul13(q), Mul13(r), Mul13(s)) && Sum4(Mul14(t), Mul14(p), Mul14(q), Mul14(r), Mul14(s))
  {
    hide *;
    SplitSum4(t, p, q, r, s);
    var u, v := p ^ q, r ^ s;
    MulSums(t, u, v);
    MulSums(u, p, q);
    MulSums(v, r, s);
    JoinSum4(Mul9(t), Mul9(u), Mul9(v), Mul9(p), Mul9(q), Mul9(r), Mul9(s));
    JoinSum4(Mul11(t), Mul11(u), Mul11(v), Mul11(p), Mul11(q), Mul11(r), Mul11(s));
    JoinSum4(Mul13(t), Mul13(u), Mul13(v), Mul13(p), Mul13(q), Mul13(r), Mul13(s));
    JoinSum4(Mul14(t), Mul14(u), Mul14(v), Mul14(p), Mul14(q), Mul14(r), Mul14(s));
  }

  // ----- mixing a column and undoing it

  /** A byte of a mixed column, from the four bytes of the column turned so that its
      own place comes first. */
  function Mixed(a: byte, b: byte, c: byte, d: byte): byte { Xtime(a) ^ Mul3(b) ^ c ^ d }

  /** A mixed byte as the code computes it, from the sum of the column. */
  function MixedBySum(a: byte, b: byte, tmp: byte): byte { a ^ (Xtime(a ^ b) ^ tmp) }

  /** m is a with what the code adds to it. */
  predicate Added(m: byte, a: byte, ab: byte, tmp: byte) { m == a ^ (ab ^ tmp) }

  lemma SumCancels(a: byte, b: byte, c: byte, d: byte, ab: byte, xa: byte, xb: byte, b3: byte, tmp: byte, m: byte, n: byte)
    requires Sum(ab, xa, xb) && Sum(b3, b, xb) && Sum4(tmp, a, b, c, d) && Added(m, a, ab, tmp) && Sum4(n, xa, b3, c, d)
    ensures m == n
  {
  }

  lemma IsSum(a: byte, b: byte)
    ensures Sum(a ^ b, a, b)
  {
  }

  lemma IsSum4(a: byte, b: byte, c: byte, d: byte)
    ensures Sum4(a ^ b ^ c ^ d, a, b, c, d)
  {
  }

  lemma IsMul3(x: byte)
    ensures Sum(Mul3(x), x, Xtime(x))
  {
    hide Xtime;
  }

  lemma IsAdded(a: byte, b: byte, tmp: byte)
    ensures Added(MixedBySum(a, b, tmp), a, Xtime(a ^ b), tmp)
  {
    hide Xtime;
  }

  lemma MixedIsSum4(a: byte, b: byte, c: byte, d: byte)
    ensures Sum4(Mixed(a, b, c, d), Xtime(a), Mul3(b), c, d)
  {
    hide Xtime, Mul3;
  }

  lemma MixedBySumIs(a: byte, b: byte, c: byte, d: byte)
    ensures MixedBySum(a, b, a ^ b ^ c ^ d) == Mixed(a, b, c, d)
  {
    hide *;
    var ab, tmp := a ^ b, a ^ b ^ c ^ d;
    IsSum(a, b);
    XtimeSum(ab, a, b);
    IsMul3(b);
    IsSum4(a, b, c, d);
    IsAdded(a, b, tmp);
    MixedIsSum4(a, b, c, d);
    SumCancels(a, b, c, d, Xtime(ab), Xtime(a), Xtime(b), Mul3(b), tmp, MixedBySum(a, b, tmp), Mixed(a, b, c, d));
  }

  function Unmixed(a: byte, b: byte, c: byte, d: byte): byte { Mul14(a) ^ Mul11(b) ^ Mul13(c) ^ Mul9(d) }

  /** What the four multiples of one byte add up to: the byte itself where it belongs
      and nothing elsewhere. */
  lemma OneByte(x: byte)
    ensures Sum4(x, Mul14(Xtime(x)), Mul11(x), Mul13(x), Mul9(Mul3(x)))
    ensures Sum4(0, Mul14(Mul3(x)), Mul11(Xtime(x)), Mul13(x), Mul9(x))
    ensures Sum4(0, Mul14(x), Mul11(Mul3(x)), Mul13(Xtime(x)), Mul9(x))
    ensures Sum4(0, Mul14(x), Mul11(x), Mul13(Mul3(x)), Mul9(Xtime(x)))
  {
  }

  function Plus(x: byte, y: byte): byte { x ^ y }

  lemma AddTwo(t: byte, p: byte, q: byte, r: byte, s: byte, t': byte, p': byte, q': byte, r': byte, s': byte)
    requires Sum4(t, p, q, r, s) && Sum4(t', p', q', r', s')
    ensures Sum4(Plus(t, t'), Plus(p, p'), Plus(q, q'), Plus(r, r'), Plus(s, s'))
  {
  }

  lemma Pairs(t: byte, p: byte, q: byte, r: byte, s: byte)
    requires Sum4(t, p, q, r, s)
    ensures Plus(Plus(p, q), Plus(r, s)) == t
  {
  }

  lemma OnlyFirst(t: byte, a: byte)
    requires Sum4(t, a, 0, 0, 0)
    ensures t == a
  {
  }

  /** Rows that add up to `out`, by columns that add up to a, 0, 0 and 0. */
  lemma Shuffle(out: byte, t0: byte, t1: byte, t2: byte, t3: byte,
                p00: byte, p01: byte, p02: byte, p03: byte, p10: byte, p11: byte, p12: byte, p13: byte,
                p20: byte, p21: byte, p22: byte, p23: byte, p30: byte, p31: byte, p32: byte, p33: byte, a: byte)
    requires Sum4(out, t0, t1, t2, t3)
    requires Sum4(t0, p00, p01, p02, p03) && Sum4(t1, p10, p11, p12, p13)
    requires Sum4(t2, p20, p21, p22, p23) && Sum4(t3, p30, p31, p32, p33)
    requires Sum4(a, p00, p10, p20, p30) && Sum4(0, p01, p11, p21, p31)
    requires Sum4(0, p02, p12, p22, p32) && Sum4(0, p03, p13, p23, p33)
    ensures out == a
  {
    hide Sum4, Plus;
    AddTwo(t0, p00, p01, p02, p03, t1, p10, p11, p12, p13);
    AddTwo(t2, p20, p21, p22, p23, t3, p30, p31, p32, p33);
    AddTwo(Plus(t0, t1), Plus(p00, p10), Plus(p01, p11), Plus(p02, p12), Plus(p03, p13),
           Plus(t2, t3), Plus(p20, p30), Plus(p21, p31), Plus(p22, p32), Plus(p23, p33));
    Pairs(out, t0, t1, t2, t3);
    Pairs(a, p00, p10, p20, p30);
    Pairs(0, p01, p11, p21, p31);
    Pairs(0, p02, p12, p22, p32);
    Pairs(0, p03, p13, p23, p33);
    OnlyFirst(out, a);
  }

  lemma TurnSum4(t: byte, p: byte, q: byte, r: byte, s: byte)
    requires Sum4(t, p, q, r, s)
    ensures Sum4(t, s, p, q, r)
  {
  }

  /** The four bytes of a mixed column, each as a sum in the order of the column. */
  lemma ColumnSums(a: byte, b: byte, c: byte, d: byte)
    ensures Sum4(Mixed(a, b, c, d), Xtime(a), Mul3(b), c, d)
    ensures Sum4(Mixed(b, c, d, a), a, Xtime(b), Mul3(c), d)
    ensures Sum4(Mixed(c, d, a, b), a, b, Xtime(c), Mul3(d))
    ensures Sum4(Mixed(d, a, b, c), Mul3(a), b, c, Xtime(d))
  {
    hide *;
    MixedIsSum4(a, b, c, d);
    MixedIsSum4(b, c, d, a);
    TurnSum4(Mixed(b, c, d, a), Xtime(b), Mul3(c), d, a);
    MixedIsSum4(c, d, a, b);
    TurnSum4(Mixed(c, d, a, b), Xtime(c), Mul3(d), a, b);
    TurnSum4(Mixed(c, d, a, b), b, Xtime(c), Mul3(d), a);
    MixedIsSum4(d, a, b, c);
    TurnSum4(Mixed(d, a, b, c), Xtime(d), Mul3(a), b, c);
    TurnSum4(Mixed(d, a, b, c), c, Xtime(d), Mul3(a), b);
    TurnSum4(Mixed(d, a, b, c), b, c, Xtime(d), Mul3(a));
  }

  lemma UnmixedSum4(a: byte, b: byte, c: byte, d: byte)
    ensures Sum4(Unmixed(a, b, c, d), Mul14(a), Mul11(b), Mul13(c), Mul9(d))
  {
    hide Mul14, Mul11, Mul13, Mul9;
  }

  /** Unmixing a mixed column gives its bytes back. */
  lemma UnmixedMixed(a: byte, b: byte, c: byte, d: byte)
    ensures Unmixed(Mixed(a, b, c, d), Mixed(b, c, d, a), Mixed(c, d, a, b), Mixed(d, a, b, c)) == a
  {
    hide *;
    var t0, t1, t2, t3 := Mixed(a, b, c, d), Mixed(b, c, d, a), Mixed(c, d, a, b), Mixed(d, a, b, c);
    ColumnSums(a, b, c, d);
    MulSum4(t0, Xtime(a), Mul3(b), c, d);
    MulSum4(t1, a, Xtime(b), Mul3(c), d);
    MulSum4(t2, a, b, Xtime(c), Mul3(d));
    MulSum4(t3, Mul3(a), b, c, Xtime(d));
    UnmixedSum4(t0, t1, t2, t3);
    OneByte(a);
    OneByte(b);
    OneByte(c);
    OneByte(d);
    Shuffle(Unmixed(t0, t1, t2, t3), Mul14(t0), Mul11(t1), Mul13(t2), Mul9(t3),
            Mul14(Xtime(a)), Mul14(Mul3(b)), Mul14(c), Mul14(d),
            Mul11(a), Mul11(Xtime(b)), Mul11(Mul3(c)), Mul11(d),
            Mul13(a), Mul13(b), Mul13(Xtime(c)), Mul13(Mul3(d)),
            Mul9(Mul3(a)), Mul9(b), Mul9(c), Mul9(Xtime(d)), a);
  }
}
