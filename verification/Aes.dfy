/** src/aes.c: the cipher, its inverse and CBC on 16-byte blocks
    (FIPS 197, section 5; NIST SP 800-38A, section 6.2). */
module Aes {
  import opened ByteSeqs
  import opened AesField

  const BLOCK: nat := 16

  /** Round keys: one block before the rounds and one for each. */
  predicate IsSchedule(rk: seq<byte>) { |rk| % BLOCK == 0 && |rk| >= 2 * BLOCK }

  /** The number of rounds that a schedule is for: 10 for a 128-bit key. */
  function Nr(rk: seq<byte>): (n: nat)
    requires IsSchedule(rk)
    ensures |rk| == (n + 1) * BLOCK && n >= 1
  {
    |rk| / BLOCK - 1
  }

  // ----- the steps on blocks

  /** A block is the four columns of the state, one after the other. */
  predicate IsBlock(b: seq<byte>) { |b| == BLOCK }

  function Xor(a: seq<byte>, b: seq<byte>): (r: seq<byte>)
    requires IsBlock(a) && IsBlock(b)
    ensures IsBlock(r) && forall k {:trigger r[k]} :: 0 <= k < BLOCK ==> r[k] == Add(a[k], b[k])
  {
    seq(BLOCK, k requires 0 <= k < BLOCK => Add(a[k], b[k]))
  }

  function RoundKey(rk: seq<byte>, round: nat): (r: seq<byte>)
    requires IsSchedule(rk) && round <= Nr(rk)
    ensures IsBlock(r)
  {
    rk[round * BLOCK..round * BLOCK + BLOCK]
  }

  function SubBytes(b: seq<byte>): (r: seq<byte>)
    requires IsBlock(b)
    ensures IsBlock(r) && forall k {:trigger r[k]} :: 0 <= k < BLOCK ==> r[k] == Sbox(b[k])
  {
    seq(BLOCK, k requires 0 <= k < BLOCK => Sbox(b[k]))
  }

  function InvSubBytes(b: seq<byte>): (r: seq<byte>)
    requires IsBlock(b)
    ensures IsBlock(r) && forall k {:trigger r[k]} :: 0 <= k < BLOCK ==> r[k] == Rsbox(b[k])
  {
    seq(BLOCK, k requires 0 <= k < BLOCK => Rsbox(b[k]))
  }

  /** Row j moves j columns to the left. */
  function ShiftRows(b: seq<byte>): (r: seq<byte>)
    requires IsBlock(b)
    ensures IsBlock(r)
  {
    [b[0], b[5], b[10], b[15], b[4], b[9], b[14], b[3], b[8], b[13], b[2], b[7], b[12], b[1], b[6], b[11]]
  }

  function InvShiftRows(b: seq<byte>): (r: seq<byte>)
    requires IsBlock(b)
    ensures IsBlock(r)
  {
    [b[0], b[13], b[10], b[7], b[4], b[1], b[14], b[11], b[8], b[5], b[2], b[15], b[12], b[9], b[6], b[3]]
  }

  function MixColumns(b: seq<byte>): (r: seq<byte>)
    requires IsBlock(b)
    ensures IsBlock(r)
  {
    MixColumn(b[0], b[1], b[2], b[3]) + MixColumn(b[4], b[5], b[6], b[7])
    + MixColumn(b[8], b[9], b[10], b[11]) + MixColumn(b[12], b[13], b[14], b[15])
  }

  function MixColumn(a: byte, b: byte, c: byte, d: byte): (r: seq<byte>)
    ensures |r| == 4
  {
    [Mixed(a, b, c, d), Mixed(b, c, d, a), Mixed(c, d, a, b), Mixed(d, a, b, c)]
  }

  function InvMixColumns(b: seq<byte>): (r: seq<byte>)
    requires IsBlock(b)
    ensures IsBlock(r)
  {
    InvMixColumn(b[0], b[1], b[2], b[3]) + InvMixColumn(b[4], b[5], b[6], b[7])
    + InvMixColumn(b[8], b[9], b[10], b[11]) + InvMixColumn(b[12], b[13], b[14], b[15])
  }

  function InvMixColumn(a: byte, b: byte, c: byte, d: byte): (r: seq<byte>)
    ensures |r| == 4
  {
    [Unmixed(a, b, c, d), Unmixed(b, c, d, a), Unmixed(c, d, a, b), Unmixed(d, a, b, c)]
  }

  /** A full round. */
  function Round(b: seq<byte>, rk: seq<byte>, round: nat): (r: seq<byte>)
    requires IsBlock(b) && IsSchedule(rk) && round <= Nr(rk)
    ensures IsBlock(r)
  {
    Xor(MixColumns(ShiftRows(SubBytes(b))), RoundKey(rk, round))
  }

  function InvRound(b: seq<byte>, rk: seq<byte>, round: nat): (r: seq<byte>)
    requires IsBlock(b) && IsSchedule(rk) && round <= Nr(rk)
    ensures IsBlock(r)
  {
    InvMixColumns(Xor(InvSubBytes(InvShiftRows(b)), RoundKey(rk, round)))
  }

  /** The state after the first key and n full rounds. */
  function Rounds(b: seq<byte>, rk: seq<byte>, n: nat): (r: seq<byte>)
    requires IsBlock(b) && IsSchedule(rk) && n < Nr(rk)
    ensures IsBlock(r)
  {
    if n == 0 then Xor(b, RoundKey(rk, 0)) else Round(Rounds(b, rk, n - 1), rk, n)
  }

  function Cipher(b: seq<byte>, rk: seq<byte>): (r: seq<byte>)
    requires IsBlock(b) && IsSchedule(rk)
    ensures IsBlock(r)
  {
    Xor(ShiftRows(SubBytes(Rounds(b, rk, Nr(rk) - 1))), RoundKey(rk, Nr(rk)))
  }

  /** The state of the inverse cipher when n full rounds are left to undo. */
  function InvRounds(b: seq<byte>, rk: seq<byte>, n: nat): (r: seq<byte>)
    requires IsBlock(b) && IsSchedule(rk) && n < Nr(rk)
    ensures IsBlock(r)
    decreases Nr(rk) - n
  {
    if n == Nr(rk) - 1 then Xor(b, RoundKey(rk, Nr(rk))) else InvRound(InvRounds(b, rk, n + 1), rk, n + 1)
  }

  function InvCipher(b: seq<byte>, rk: seq<byte>): (r: seq<byte>)
    requires IsBlock(b) && IsSchedule(rk)
    ensures IsBlock(r)
  {
    Xor(InvSubBytes(InvShiftRows(InvRounds(b, rk, 0))), RoundKey(rk, 0))
  }

  // ----- each step is undone

  lemma XorUndoes(a: seq<byte>, b: seq<byte>)
    requires IsBlock(a) && IsBlock(b)
    ensures Xor(Xor(a, b), b) == a
  {
    hide Add;
    forall k | 0 <= k < BLOCK ensures Xor(Xor(a, b), b)[k] == a[k] {
      assert Xor(Xor(a, b), b)[k] == Add(Xor(a, b)[k], b[k]);
      AddTwice(a[k], b[k]);
    }
  }

  lemma SubBytesUndone(b: seq<byte>)
    requires IsBlock(b)
    ensures InvSubBytes(SubBytes(b)) == b
  {
    hide Sbox, Rsbox;
    forall k | 0 <= k < BLOCK ensures InvSubBytes(SubBytes(b))[k] == b[k] {
      RsboxUndoes(b[k]);
    }
  }

  lemma ShiftRowsUndone(b: seq<byte>)
    requires IsBlock(b)
    ensures InvShiftRows(ShiftRows(b)) == b
  {
  }

  /** Row r of the state is turned left by r columns. */
  lemma ShiftRowsMoves(b: seq<byte>, r: nat, c: nat)
    requires IsBlock(b) && r < 4 && c < 4
    ensures ShiftRows(b)[r + 4 * c] == b[r + 4 * ((c + r) % 4)]
  {
  }

  lemma ColumnUndone(a: byte, b: byte, c: byte, d: byte)
    ensures var m := MixColumn(a, b, c, d);
            InvMixColumn(m[0], m[1], m[2], m[3]) == [a, b, c, d]
  {
    hide Mixed, Unmixed;
    UnmixedMixed(a, b, c, d);
    UnmixedMixed(b, c, d, a);
    UnmixedMixed(c, d, a, b);
    UnmixedMixed(d, a, b, c);
  }

  lemma MixColumnsUndone(b: seq<byte>)
    requires IsBlock(b)
    ensures InvMixColumns(MixColumns(b)) == b
  {
    hide MixColumn, InvMixColumn;
    ColumnUndone(b[0], b[1], b[2], b[3]);
    ColumnUndone(b[4], b[5], b[6], b[7]);
    ColumnUndone(b[8], b[9], b[10], b[11]);
    ColumnUndone(b[12], b[13], b[14], b[15]);
    var c := [b[0], b[1], b[2], b[3]] + [b[4], b[5], b[6], b[7]] + [b[8], b[9], b[10], b[11]] + [b[12], b[13], b[14], b[15]];
    assert c == b;
  }

  lemma SubstitutionUndone(b: seq<byte>)
    requires IsBlock(b)
    ensures InvSubBytes(InvShiftRows(ShiftRows(SubBytes(b)))) == b
  {
    hide ShiftRows, SubBytes, InvShiftRows, InvSubBytes;
    ShiftRowsUndone(SubBytes(b));
    SubBytesUndone(b);
  }

  lemma RoundUndone(b: seq<byte>, rk: seq<byte>, round: nat)
    requires IsBlock(b) && IsSchedule(rk) && round <= Nr(rk)
    ensures InvRound(ShiftRows(SubBytes(Round(b, rk, round))), rk, round) == ShiftRows(SubBytes(b))
  {
    hide Xor, MixColumns, ShiftRows, SubBytes, InvMixColumns, InvShiftRows, InvSubBytes, RoundKey;
    SubstitutionUndone(Round(b, rk, round));
    XorUndoes(MixColumns(ShiftRows(SubBytes(b))), RoundKey(rk, round));
    MixColumnsUndone(ShiftRows(SubBytes(b)));
  }

  lemma LastRoundUndone(b: seq<byte>, rk: seq<byte>)
    requires IsBlock(b) && IsSchedule(rk)
    ensures Xor(Cipher(b, rk), RoundKey(rk, Nr(rk))) == ShiftRows(SubBytes(Rounds(b, rk, Nr(rk) - 1)))
  {
    hide Xor, Rounds, ShiftRows, SubBytes, RoundKey;
    XorUndoes(ShiftRows(SubBytes(Rounds(b, rk, Nr(rk) - 1))), RoundKey(rk, Nr(rk)));
  }

  /** The inverse cipher goes back through the states of the cipher. */
  lemma {:induction false} InvRoundsRetrace(b: seq<byte>, rk: seq<byte>, n: nat)
    requires IsBlock(b) && IsSchedule(rk) && n < Nr(rk)
    ensures InvRounds(Cipher(b, rk), rk, n) == ShiftRows(SubBytes(Rounds(b, rk, n)))
    decreases Nr(rk) - n
  {
    hide Cipher, Xor, Round, InvRound, ShiftRows, SubBytes, RoundKey;
    if n == Nr(rk) - 1 {
      LastRoundUndone(b, rk);
    } else {
      InvRoundsRetrace(b, rk, n + 1);
      RoundUndone(Rounds(b, rk, n), rk, n + 1);
    }
  }

  /** InvCipher undoes Cipher, for every block and whatever the round keys are. */
  lemma InvCipherUndoes(b: seq<byte>, rk: seq<byte>)
    requires IsBlock(b) && IsSchedule(rk)
    ensures InvCipher(Cipher(b, rk), rk) == b
  {
    hide Xor, ShiftRows, SubBytes, InvShiftRows, InvSubBytes, RoundKey, Cipher;
    InvRoundsRetrace(b, rk, 0);
    SubstitutionUndone(Rounds(b, rk, 0));
    XorUndoes(b, RoundKey(rk, 0));
  }
}
