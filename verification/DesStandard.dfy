/** The cipher of FIPS 46-3 as the standard writes it: tables of bit numbers, counted from 1
    at the most significant bit, and the function f of a half block and a subkey. */
module DesStandard {
  import opened ByteSeqs
  import opened Des

  /** Bit j of a word. */
  function Mask(j: nat): word
    requires 1 <= j <= 32
  {
    if j <= 16 then
      if j == 1 then 0x80000000 else if j == 2 then 0x40000000 else if j == 3 then 0x20000000 else if j == 4 then 0x10000000
      else if j == 5 then 0x08000000 else if j == 6 then 0x04000000 else if j == 7 then 0x02000000 else if j == 8 then 0x01000000
      else if j == 9 then 0x00800000 else if j == 10 then 0x00400000 else if j == 11 then 0x00200000 else if j == 12 then 0x00100000
      else if j == 13 then 0x00080000 else if j == 14 then 0x00040000 else if j == 15 then 0x00020000 else 0x00010000
    else
      if j == 17 then 0x00008000 else if j == 18 then 0x00004000 else if j == 19 then 0x00002000 else if j == 20 then 0x00001000
      else if j == 21 then 0x00000800 else if j == 22 then 0x00000400 else if j == 23 then 0x00000200 else if j == 24 then 0x00000100
      else if j == 25 then 0x00000080 else if j == 26 then 0x00000040 else if j == 27 then 0x00000020 else if j == 28 then 0x00000010
      else if j == 29 then 0x00000008 else if j == 30 then 0x00000004 else if j == 31 then 0x00000002 else 0x00000001
  }

  function Has(w: word, m: word): bool { w & m != 0 }

  function Bit(w: word, j: nat): bool
    requires 1 <= j <= 32
  {
    Has(w, Mask(j))
  }

  /** Bit j of a block, of which `l` holds the first 32. */
  function BlockBit(p: Halves, j: nat): bool
    requires 1 <= j <= 64
  {
    if j <= 32 then Bit(p.l, j) else Bit(p.r, j - 32)
  }

  /** The initial permutation, eight bits a row. */
  function IpRow(r: nat): (t: seq<nat>)
    requires r < 8
    ensures |t| == 8 && forall k :: 0 <= k < 8 ==> 1 <= t[k] <= 64
  {
    if r == 0 then [58, 50, 42, 34, 26, 18, 10, 2]
    else if r == 1 then [60, 52, 44, 36, 28, 20, 12, 4]
    else if r == 2 then [62, 54, 46, 38, 30, 22, 14, 6]
    else if r == 3 then [64, 56, 48, 40, 32, 24, 16, 8]
    else if r == 4 then [57, 49, 41, 33, 25, 17, 9, 1]
    else if r == 5 then [59, 51, 43, 35, 27, 19, 11, 3]
    else if r == 6 then [61, 53, 45, 37, 29, 21, 13, 5]
    else [63, 55, 47, 39, 31, 23, 15, 7]
  }

  /** q is the block p with its bits in the order of the initial permutation. */
  ghost predicate InitiallyPermuted(p: Halves, q: Halves) {
    forall r, k {:trigger IpRow(r)[k]} :: 0 <= r < 8 && 0 <= k < 8 ==> BlockBit(q, 8 * r + k + 1) == BlockBit(p, IpRow(r)[k])
  }

  /** The bit selection table E: the bits of its row i. */
  function ERow(r: nat): (t: seq<nat>)
    requires r < 8
    ensures |t| == 6 && forall k :: 0 <= k < 6 ==> 1 <= t[k] <= 32
  {
    if r == 0 then [32, 1, 2, 3, 4, 5]
    else if r == 1 then [4, 5, 6, 7, 8, 9]
    else if r == 2 then [8, 9, 10, 11, 12, 13]
    else if r == 3 then [12, 13, 14, 15, 16, 17]
    else if r == 4 then [16, 17, 18, 19, 20, 21]
    else if r == 5 then [20, 21, 22, 23, 24, 25]
    else if r == 6 then [24, 25, 26, 27, 28, 29]
    else [28, 29, 30, 31, 32, 1]
  }

  /** Row i of E applied to a half block: six bits. */
  function Expanded(w: word, i: nat): byte
    requires i < 8
  {
    var t := ERow(i);
    SixBits(Bit(w, t[0]), Bit(w, t[1]), Bit(w, t[2]), Bit(w, t[3]), Bit(w, t[4]), Bit(w, t[5]))
  }

  function SixBits(b1: bool, b2: bool, b3: bool, b4: bool, b5: bool, b6: bool): byte {
    (if b1 then 0x20 else 0) | (if b2 then 0x10 else 0) | (if b3 then 0x08 else 0)
    | (if b4 then 0x04 else 0) | (if b5 then 0x02 else 0) | (if b6 then 0x01 else 0)
  }

  /** Row r of the selection function S with number i + 1. */
  function SRow(i: nat, r: byte): (t: seq<byte>)
    requires i < 8 && r < 4
    ensures |t| == 16
  {
    if i < 4 then
      if i < 2 then
        if i < 1 then
          if r == 0 then [14, 4, 13, 1, 2, 15, 11, 8, 3, 10, 6, 12, 5, 9, 0, 7]
          else if r == 1 then [0, 15, 7, 4, 14, 2, 13, 1, 10, 6, 12, 11, 9, 5, 3, 8]
          else if r == 2 then [4, 1, 14, 8, 13, 6, 2, 11, 15, 12, 9, 7, 3, 10, 5, 0]
          else [15, 12, 8, 2, 4, 9, 1, 7, 5, 11, 3, 14, 10, 0, 6, 13]
        else
          if r == 0 then [15, 1, 8, 14, 6, 11, 3, 4, 9, 7, 2, 13, 12, 0, 5, 10]
          else if r == 1 then [3, 13, 4, 7, 15, 2, 8, 14, 12, 0, 1, 10, 6, 9, 11, 5]
          else if r == 2 then [0, 14, 7, 11, 10, 4, 13, 1, 5, 8, 12, 6, 9, 3, 2, 15]
          else [13, 8, 10, 1, 3, 15, 4, 2, 11, 6, 7, 12, 0, 5, 14, 9]
      else
        if i < 3 then
          if r == 0 then [10, 0, 9, 14, 6, 3, 15, 5, 1, 13, 12, 7, 11, 4, 2, 8]
          else if r == 1 then [13, 7, 0, 9, 3, 4, 6, 10, 2, 8, 5, 14, 12, 11, 15, 1]
          else if r == 2 then [13, 6, 4, 9, 8, 15, 3, 0, 11, 1, 2, 12, 5, 10, 14, 7]
          else [1, 10, 13, 0, 6, 9, 8, 7, 4, 15, 14, 3, 11, 5, 2, 12]
        else
          if r == 0 then [7, 13, 14, 3, 0, 6, 9, 10, 1, 2, 8, 5, 11, 12, 4, 15]
          else if r == 1 then [13, 8, 11, 5, 6, 15, 0, 3, 4, 7, 2, 12, 1, 10, 14, 9]
          else if r == 2 then [10, 6, 9, 0, 12, 11, 7, 13, 15, 1, 3, 14, 5, 2, 8, 4]
          else [3, 15, 0, 6, 10, 1, 13, 8, 9, 4, 5, 11, 12, 7, 2, 14]
    else
      if i < 6 then
        if i < 5 then
          if r == 0 then [2, 12, 4, 1, 7, 10, 11, 6, 8, 5, 3, 15, 13, 0, 14, 9]
          else if r == 1 then [14, 11, 2, 12, 4, 7, 13, 1, 5, 0, 15, 10, 3, 9, 8, 6]
          else if r == 2 then [4, 2, 1, 11, 10, 13, 7, 8, 15, 9, 12, 5, 6, 3, 0, 14]
          else [11, 8, 12, 7, 1, 14, 2, 13, 6, 15, 0, 9, 10, 4, 5, 3]
        else
          if r == 0 then [12, 1, 10, 15, 9, 2, 6, 8, 0, 13, 3, 4, 14, 7, 5, 11]
          else if r == 1 then [10, 15, 4, 2, 7, 12, 9, 5, 6, 1, 13, 14, 0, 11, 3, 8]
          else if r == 2 then [9, 14, 15, 5, 2, 8, 12, 3, 7, 0, 4, 10, 1, 13, 11, 6]
          else [4, 3, 2, 12, 9, 5, 15, 10, 11, 14, 1, 7, 6, 0, 8, 13]
      else
        if i < 7 then
          if r == 0 then [4, 11, 2, 14, 15, 0, 8, 13, 3, 12, 9, 7, 5, 10, 6, 1]
          else if r == 1 then [13, 0, 11, 7, 4, 9, 1, 10, 14, 3, 5, 12, 2, 15, 8, 6]
          else if r == 2 then [1, 4, 11, 13, 12, 3, 7, 14, 10, 15, 6, 8, 0, 5, 9, 2]
          else [6, 11, 13, 8, 1, 4, 10, 7, 9, 5, 0, 15, 14, 2, 3, 12]
        else
          if r == 0 then [13, 2, 8, 4, 6, 15, 11, 1, 10, 9, 3, 14, 5, 0, 12, 7]
          else if r == 1 then [1, 15, 13, 8, 10, 3, 7, 4, 12, 5, 6, 11, 0, 14, 9, 2]
          else if r == 2 then [7, 11, 4, 1, 9, 12, 14, 2, 0, 6, 10, 13, 15, 3, 5, 8]
          else [2, 1, 14, 7, 4, 10, 8, 13, 15, 12, 9, 0, 3, 5, 6, 11]
  }

  /** The first and the last bit choose the row, the others the column. */
  function Row(x: byte): (r: byte)
    ensures r < 4
  {
    ((x >> 4) & 2) | (x & 1)
  }

  function Column(x: byte): (c: nat)
    ensures c < 16
  {
    Place((x >> 1) & 0xF)
  }

  function Selected(i: nat, x: byte): byte
    requires i < 8
  {
    SRow(i, Row(x))[Column(x)]
  }

  function Place(b: byte): (n: nat)
    ensures n < 256
  {
    b as nat
  }

  /** One bit of a permuted word. */
  function To(w: word, from: nat, to: nat): word
    requires 1 <= from <= 32 && 1 <= to <= 32
  {
    if Bit(w, from) then Mask(to) else 0
  }

  /** The permutation P: the bits that come to places 4r + 1 to 4r + 4. */
  function PRow(r: nat): (t: seq<nat>)
    requires r < 8
    ensures |t| == 4 && forall k :: 0 <= k < 4 ==> 1 <= t[k] <= 32
  {
    if r == 0 then [16, 7, 20, 21]
    else if r == 1 then [29, 12, 28, 17]
    else if r == 2 then [1, 15, 23, 26]
    else if r == 3 then [5, 18, 31, 10]
    else if r == 4 then [2, 8, 24, 14]
    else if r == 5 then [32, 27, 3, 9]
    else if r == 6 then [19, 13, 30, 6]
    else [22, 11, 4, 25]
  }

  function FourBits(w: word, r: nat): word
    requires r < 8
  {
    var t := PRow(r);
    Or(Or(To(w, t[0], 4 * r + 1), To(w, t[1], 4 * r + 2)), Or(To(w, t[2], 4 * r + 3), To(w, t[3], 4 * r + 4)))
  }

  /** Eight words put together. */
  function Joined(b0: word, b1: word, b2: word, b3: word, b4: word, b5: word, b6: word, b7: word): word {
    Or(Or(Or(Or(b6, b4), b2), b0), Or(Or(Or(b7, b5), b3), b1))
  }

  function Permuted(w: word): word {
    Joined(FourBits(w, 0), FourBits(w, 1), FourBits(w, 2), FourBits(w, 3), FourBits(w, 4), FourBits(w, 5), FourBits(w, 6), FourBits(w, 7))
  }

  /** A four-bit value in place i of eight. */
  function InPlace(i: nat, n: byte): word
    requires i < 8
  {
    var w := (n & 0xF) as word;
    if i == 0 then w << 28 else if i == 1 then w << 24 else if i == 2 then w << 20 else if i == 3 then w << 16
    else if i == 4 then w << 12 else if i == 5 then w << 8 else if i == 6 then w << 4 else w
  }

  predicate IsSix(b: byte) { b < 64 }

  /** A subkey of 48 bits as eight groups of six. */
  predicate IsSubkey(k: seq<byte>) { |k| == 8 && forall i :: 0 <= i < 8 ==> IsSix(k[i]) }

  /** What selection function i + 1 makes of a half block and a subkey. */
  function Box(r: word, k: seq<byte>, i: nat): word
    requires IsSubkey(k) && i < 8
  {
    InPlace(i, Selected(i, Expanded(r, i) ^ k[i]))
  }

  /** The function f of a half block and a subkey. */
  function Mangled(r: word, k: seq<byte>): word
    requires IsSubkey(k)
  {
    hide Box;
    Permuted(Joined(Box(r, k, 0), Box(r, k, 1), Box(r, k, 2), Box(r, k, 3), Box(r, k, 4), Box(r, k, 5), Box(r, k, 6), Box(r, k, 7)))
  }
}
