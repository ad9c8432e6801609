/** src/d3des.c: the key schedule. */
module DesKeys {
  import opened ByteSeqs
  import opened Des

  // The permuted choices, a quarter each.
  const PC1A: seq<nat> := [56, 48, 40, 32, 24, 16, 8, 0, 57, 49, 41, 33, 25, 17]
  const PC1B: seq<nat> := [9, 1, 58, 50, 42, 34, 26, 18, 10, 2, 59, 51, 43, 35]
  const PC1C: seq<nat> := [62, 54, 46, 38, 30, 22, 14, 6, 61, 53, 45, 37, 29, 21]
  const PC1D: seq<nat> := [13, 5, 60, 52, 44, 36, 28, 20, 12, 4, 27, 19, 11, 3]
  const PC1: seq<nat> := PC1A + PC1B + PC1C + PC1D

  const ROTATIONS: seq<nat> := [1, 2, 4, 6, 8, 10, 12, 14, 15, 17, 19, 21, 23, 25, 27, 28]

  const PC2A: seq<nat> := [13, 16, 10, 23, 0, 4, 2, 27, 14, 5, 20, 9]
  const PC2B: seq<nat> := [22, 18, 11, 3, 25, 7, 15, 6, 26, 19, 12, 1]
  const PC2C: seq<nat> := [40, 51, 30, 36, 46, 54, 29, 39, 50, 44, 32, 47]
  const PC2D: seq<nat> := [43, 48, 38, 55, 33, 52, 45, 41, 49, 35, 28, 31]
  const PC2: seq<nat> := PC2A + PC2B + PC2C + PC2D

  predicate Below(s: seq<nat>, n: nat) { forall i :: 0 <= i < |s| ==> s[i] < n }

  lemma BelowFour(a: seq<nat>, b: seq<nat>, c: seq<nat>, d: seq<nat>, n: nat)
    requires Below(a, n) && Below(b, n) && Below(c, n) && Below(d, n)
    ensures Below(a + b + c + d, n)
  {
  }

  lemma Pc1Fits()
    ensures |PC1| == 56 && Below(PC1, 64)
  {
    assert Below(PC1A, 64);
    assert Below(PC1B, 64);
    assert Below(PC1C, 64);
    assert Below(PC1D, 64);
    BelowFour(PC1A, PC1B, PC1C, PC1D, 64);
  }

  lemma Pc2Fits()
    ensures |PC2| == 48 && Below(PC2, 56)
  {
    assert Below(PC2A, 56);
    assert Below(PC2B, 56);
    assert Below(PC2C, 56);
    assert Below(PC2D, 56);
    BelowFour(PC2A, PC2B, PC2C, PC2D, 56);
  }

  lemma RotationsFit()
    ensures |ROTATIONS| == 16 && Below(ROTATIONS, 29)
  {
  }

  // ----- what the schedule is

  function ByteBit(m: nat): byte
    requires m < 8
  {
    if m == 0 then 0x80 else if m == 1 then 0x40 else if m == 2 then 0x20 else if m == 3 then 0x10
    else if m == 4 then 0x08 else if m == 5 then 0x04 else if m == 6 then 0x02 else 0x01
  }

  /** Bit l of the key, the most significant of the first byte being bit 0. */
  function KeyBit(key: seq<byte>, l: nat): bool
    requires |key| == 8 && l < 64
  {
    key[l / 8] & ByteBit(l % 8) != 0
  }

  function Chosen(key: seq<byte>): (bits: seq<bool>)
    requires |key| == 8
    ensures |bits| == 56
  {
    Pc1Fits();
    hide PC1;
    seq(56, j requires 0 <= j < 56 => KeyBit(key, PC1[j]))
  }

  /** The halves of the chosen bits, each turned by n places. */
  function Turned(bits: seq<bool>, n: nat): (r: seq<bool>)
    requires |bits| == 56 && n <= 28
    ensures |r| == 56
  {
    seq(56, j requires 0 <= j < 56 =>
      bits[if (if j < 28 then j + n < 28 else j + n < 56) then j + n else j + n - 28])
  }

  /** bigbyte */
  function BigByte(j: nat): word
    requires j < 24
    decreases 24 - j
  {
    if j == 23 then 1 else BigByte(j + 1) << 1
  }

  /** The word with the first n of the chosen bits from `from` on. */
  function Gathered(bits: seq<bool>, from: nat, n: nat): word
    requires |bits| == 56 && n <= 24 && from + 24 <= 48
  {
    Pc2Fits();
    hide PC2;
    if n == 0 then 0 else
      var w := Gathered(bits, from, n - 1);
      if bits[PC2[from + n - 1]] then w | BigByte(n - 1) else w
  }

  /** cookey: the bits of a pair of words in the places where the rounds use them. */
  function Cooked0(raw0: word, raw1: word): word {
    ((raw0 & 0x00fc0000) << 6) | ((raw0 & 0x00000fc0) << 10) | ((raw1 & 0x00fc0000) >> 10) | ((raw1 & 0x00000fc0) >> 6)
  }

  function Cooked1(raw0: word, raw1: word): word {
    ((raw0 & 0x0003f000) << 12) | ((raw0 & 0x0000003f) << 16) | ((raw1 & 0x0003f000) >> 4) | (raw1 & 0x0000003f)
  }

  /** The raw words of round i. */
  function Raw(key: seq<byte>, i: nat, from: nat): word
    requires |key| == 8 && i < 16 && (from == 0 || from == 24)
  {
    RotationsFit();
    hide ROTATIONS;
    Gathered(Turned(Chosen(key), ROTATIONS[i]), from, 24)
  }

  /** The round whose subkeys come in place j. */
  function RoundAt(de: bool, j: nat): nat
    requires j < 16
  {
    if de then 15 - j else j
  }

  /** The words before cooking, in the order for encryption or for decryption. */
  function RawKeys(key: seq<byte>, de: bool): (r: seq<word>)
    requires |key| == 8
    ensures |r| == 32
    ensures forall t {:trigger r[t]} :: 0 <= t < 32 ==> r[t] == Raw(key, RoundAt(de, t / 2), if t % 2 == 0 then 0 else 24)
  {
    hide Raw;
    seq(32, t requires 0 <= t < 32 => Raw(key, RoundAt(de, t / 2), if t % 2 == 0 then 0 else 24))
  }

  function CookedKeys(raw: seq<word>): (r: seq<word>)
    requires |raw| == 32
    ensures |r| == 32
    ensures forall t {:trigger r[t]} :: 0 <= t < 32 ==>
              r[t] == if t % 2 == 0 then Cooked0(raw[t], raw[t + 1]) else Cooked1(raw[t - 1], raw[t])
  {
    hide Cooked0, Cooked1;
    seq(32, t requires 0 <= t < 32 =>
      if t % 2 == 0 then Cooked0(raw[t], raw[t + 1]) else Cooked1(raw[t - 1], raw[t]))
  }

  /** The key register after deskey. */
  function Schedule(key: seq<byte>, de: bool): (r: seq<word>)
    requires |key| == 8
    ensures |r| == 32
  {
    CookedKeys(RawKeys(key, de))
  }

  /** The two schedules of a key are each other's reverse. */
  lemma SchedulesReversed(key: seq<byte>, de: bool)
    requires |key| == 8
    ensures Reversed(Schedule(key, de), Schedule(key, !de))
  {
    hide Raw, Cooked0, Cooked1, RawKeys, CookedKeys;
    var raw, kcab := RawKeys(key, de), RawKeys(key, !de);
    var keys, back := Schedule(key, de), Schedule(key, !de);
    forall j | 0 <= j < 16 ensures back[2 * j] == keys[30 - 2 * j] && back[2 * j + 1] == keys[31 - 2 * j] {
      var k := 15 - j;
      assert 2 * k == 30 - 2 * j && RoundAt(!de, j) == RoundAt(de, k);
      assert kcab[2 * j] == raw[2 * k] && kcab[2 * j + 1] == raw[2 * k + 1];
      assert back[2 * j] == keys[2 * k] && back[2 * j + 1] == keys[2 * k + 1];
    }
  }
}
