/** src/aes.c: the steps in place on the state, the key schedule, and the CBC buffers. */
module AesCode {
  import opened ByteSeqs
  import opened AesField
  import opened Aes
  import opened AesCbc

  // ----- the steps

  method AddRoundKey(round: nat, state: array<byte>, roundKey: array<byte>)
    requires state.Length == BLOCK && IsSchedule(roundKey[..]) && round <= Nr(roundKey[..]) && state != roundKey
    modifies state
    ensures state[..] == Xor(old(state[..]), RoundKey(roundKey[..], round))
  {
    ghost var b, key := state[..], RoundKey(roundKey[..], round);
    for i := 0 to 4
      invariant forall k :: 0 <= k < BLOCK ==> state[k] == if k < 4 * i then b[k] ^ key[k] else b[k]
    {
      for j := 0 to 4
        invariant forall k :: 0 <= k < BLOCK ==> state[k] == if k < 4 * i + j then b[k] ^ key[k] else b[k]
      {
        assert key[4 * i + j] == roundKey[round * BLOCK + 4 * i + j];
        state[4 * i + j] := state[4 * i + j] ^ roundKey[round * BLOCK + 4 * i + j];
      }
    }
    assert state[..] == Xor(b, key);
  }

  method SubBytesInPlace(state: array<byte>)
    requires state.Length == BLOCK
    modifies state
    ensures state[..] == SubBytes(old(state[..]))
  {
    hide Sbox;
    ghost var b := state[..];
    for i := 0 to 4
      invariant forall k :: 0 <= k < BLOCK ==> state[k] == if k % 4 < i then Sbox(b[k]) else b[k]
    {
      for j := 0 to 4
        invariant forall k :: 0 <= k < BLOCK ==>
                    state[k] == if k % 4 < i || (k % 4 == i && k / 4 < j) then Sbox(b[k]) else b[k]
      {
        state[4 * j + i] := Sbox(state[4 * j + i]);
      }
    }
    assert state[..] == SubBytes(b);
  }

  method InvSubBytesInPlace(state: array<byte>)
    requires state.Length == BLOCK
    modifies state
    ensures state[..] == InvSubBytes(old(state[..]))
  {
    hide Rsbox;
    ghost var b := state[..];
    for i := 0 to 4
      invariant forall k :: 0 <= k < BLOCK ==> state[k] == if k % 4 < i then Rsbox(b[k]) else b[k]
    {
      for j := 0 to 4
        invariant forall k :: 0 <= k < BLOCK ==>
                    state[k] == if k % 4 < i || (k % 4 == i && k / 4 < j) then Rsbox(b[k]) else b[k]
      {
        state[4 * j + i] := Rsbox(state[4 * j + i]);
      }
    }
    assert state[..] == InvSubBytes(b);
  }

  /** Four bytes move on by one place. */
  method Rotate(state: array<byte>, a: nat, b: nat, c: nat, d: nat)
    requires state.Length == BLOCK && a < BLOCK && b < BLOCK && c < BLOCK && d < BLOCK
    requires a != b && a != c && a != d && b != c && b != d && c != d
    modifies state
    ensures var s := old(state[..]);
            state[..] == s[a := s[b]][b := s[c]][c := s[d]][d := s[a]]
  {
    var temp := state[a];
    state[a] := state[b];
    state[b] := state[c];
    state[c] := state[d];
    state[d] := temp;
  }

  method Swap(state: array<byte>, a: nat, b: nat)
    requires state.Length == BLOCK && a < BLOCK && b < BLOCK
    modifies state
    ensures var s := old(state[..]);
            state[..] == s[a := s[b]][b := s[a]]
  {
    var temp := state[a];
    state[a] := state[b];
    state[b] := temp;
  }

  lemma RowsShifted(s: seq<byte>, s1: seq<byte>, s2: seq<byte>, s3: seq<byte>, s4: seq<byte>)
    requires IsBlock(s)
    requires s1 == s[1 := s[5]][5 := s[9]][9 := s[13]][13 := s[1]]
    requires s2 == s1[2 := s1[10]][10 := s1[2]] && s3 == s2[6 := s2[14]][14 := s2[6]]
    requires s4 == s3[3 := s3[15]][15 := s3[11]][11 := s3[7]][7 := s3[3]]
    ensures s4 == ShiftRows(s)
  {
  }

  lemma RowsUnshifted(s: seq<byte>, s1: seq<byte>, s2: seq<byte>, s3: seq<byte>, s4: seq<byte>)
    requires IsBlock(s)
    requires s1 == s[13 := s[9]][9 := s[5]][5 := s[1]][1 := s[13]]
    requires s2 == s1[2 := s1[10]][10 := s1[2]] && s3 == s2[6 := s2[14]][14 := s2[6]]
    requires s4 == s3[3 := s3[7]][7 := s3[11]][11 := s3[15]][15 := s3[3]]
    ensures s4 == InvShiftRows(s)
  {
  }

  method ShiftRowsInPlace(state: array<byte>)
    requires state.Length == BLOCK
    modifies state
    ensures state[..] == ShiftRows(old(state[..]))
  {
    hide ShiftRows;
    Rotate(state, 1, 5, 9, 13);
    ghost var s1 := state[..];
    Swap(state, 2, 10);
    ghost var s2 := state[..];
    Swap(state, 6, 14);
    ghost var s3 := state[..];
    Rotate(state, 3, 15, 11, 7);
    RowsShifted(old(state[..]), s1, s2, s3, state[..]);
  }

  method InvShiftRowsInPlace(state: array<byte>)
    requires state.Length == BLOCK
    modifies state
    ensures state[..] == InvShiftRows(old(state[..]))
  {
    hide InvShiftRows;
    Rotate(state, 13, 9, 5, 1);
    ghost var s1 := state[..];
    Swap(state, 2, 10);
    ghost var s2 := state[..];
    Swap(state, 6, 14);
    ghost var s3 := state[..];
    Rotate(state, 3, 7, 11, 15);
    RowsUnshifted(old(state[..]), s1, s2, s3, state[..]);
  }

  /** The columns before i are those of t, the others those of b. */
  ghost predicate ColumnsDone(s: seq<byte>, b: seq<byte>, t: seq<byte>, i: nat) {
    && |s| == BLOCK && |b| == BLOCK && |t| == BLOCK && i <= 4
    && forall k :: 0 <= k < BLOCK ==> s[k] == if k < 4 * i then t[k] else b[k]
  }

  lemma FourColumns(x: seq<byte>, y: seq<byte>, z: seq<byte>, w: seq<byte>, i: nat)
    requires |x| == 4 && |y| == 4 && |z| == 4 && |w| == 4 && i < 4
    ensures (x + y + z + w)[4 * i..4 * i + 4] == if i == 0 then x else if i == 1 then y else if i == 2 then z else w
  {
  }

  lemma MixColumnAt(b: seq<byte>, i: nat)
    requires IsBlock(b) && i < 4
    ensures MixColumns(b)[4 * i..4 * i + 4] == MixColumn(b[4 * i], b[4 * i + 1], b[4 * i + 2], b[4 * i + 3])
    ensures InvMixColumns(b)[4 * i..4 * i + 4] == InvMixColumn(b[4 * i], b[4 * i + 1], b[4 * i + 2], b[4 * i + 3])
  {
    hide MixColumn, InvMixColumn;
    FourColumns(MixColumn(b[0], b[1], b[2], b[3]), MixColumn(b[4], b[5], b[6], b[7]),
                MixColumn(b[8], b[9], b[10], b[11]), MixColumn(b[12], b[13], b[14], b[15]), i);
    FourColumns(InvMixColumn(b[0], b[1], b[2], b[3]), InvMixColumn(b[4], b[5], b[6], b[7]),
                InvMixColumn(b[8], b[9], b[10], b[11]), InvMixColumn(b[12], b[13], b[14], b[15]), i);
  }

  method MixColumnsInPlace(state: array<byte>)
    requires state.Length == BLOCK
    modifies state
    ensures state[..] == MixColumns(old(state[..]))
  {
    hide Mixed, MixedBySum, MixColumns;
    ghost var b, m := state[..], MixColumns(state[..]);
    for i := 0 to 4
      invariant ColumnsDone(state[..], b, m, i)
    {
      MixColumnAt(b, i);
      MixOneColumn(state, 4 * i);
      assert forall k :: 4 * i <= k < 4 * i + 4 ==> state[k] == m[4 * i..4 * i + 4][k - 4 * i] == m[k];
    }
    assert state[..] == m;
  }

  function SumOf(a: byte, b: byte, c: byte, d: byte): byte { a ^ b ^ c ^ d }

  lemma MixedByOneSum(a: byte, b: byte, c: byte, d: byte)
    ensures MixedBySum(a, b, SumOf(a, b, c, d)) == Mixed(a, b, c, d)
    ensures MixedBySum(b, c, SumOf(a, b, c, d)) == Mixed(b, c, d, a)
    ensures MixedBySum(c, d, SumOf(a, b, c, d)) == Mixed(c, d, a, b)
    ensures MixedBySum(d, a, SumOf(a, b, c, d)) == Mixed(d, a, b, c)
  {
    hide Mixed, MixedBySum;
    SumTurns(a, b, c, d);
    MixedBySumIs(a, b, c, d);
    MixedBySumIs(b, c, d, a);
    MixedBySumIs(c, d, a, b);
    MixedBySumIs(d, a, b, c);
  }

  lemma SumTurns(a: byte, b: byte, c: byte, d: byte)
    ensures b ^ c ^ d ^ a == a ^ b ^ c ^ d && c ^ d ^ a ^ b == a ^ b ^ c ^ d && d ^ a ^ b ^ c == a ^ b ^ c ^ d
  {
  }

  method MixOneColumn(state: array<byte>, o: nat)
    requires state.Length == BLOCK && o + 4 <= BLOCK
    modifies state
    ensures state[o..o + 4] == old(MixColumn(state[o], state[o + 1], state[o + 2], state[o + 3]))
    ensures forall k :: 0 <= k < BLOCK && !(o <= k < o + 4) ==> state[k] == old(state[k])
  {
    hide Mixed, MixedBySum, SumOf;
    MixedByOneSum(state[o], state[o + 1], state[o + 2], state[o + 3]);
    var t := state[o];
    var tmp := SumOf(state[o], state[o + 1], state[o + 2], state[o + 3]);
    state[o] := MixedBySum(state[o], state[o + 1], tmp);
    state[o + 1] := MixedBySum(state[o + 1], state[o + 2], tmp);
    state[o + 2] := MixedBySum(state[o + 2], state[o + 3], tmp);
    state[o + 3] := MixedBySum(state[o + 3], t, tmp);
  }

  /** The four sums of products as they are written. */
  function Products0(a: byte, b: byte, c: byte, d: byte): byte {
    Multiply(a, 0x0e) ^ Multiply(b, 0x0b) ^ Multiply(c, 0x0d) ^ Multiply(d, 0x09)
  }

  function Products1(a: byte, b: byte, c: byte, d: byte): byte {
    Multiply(a, 0x09) ^ Multiply(b, 0x0e) ^ Multiply(c, 0x0b) ^ Multiply(d, 0x0d)
  }

  function Products2(a: byte, b: byte, c: byte, d: byte): byte {
    Multiply(a, 0x0d) ^ Multiply(b, 0x09) ^ Multiply(c, 0x0e) ^ Multiply(d, 0x0b)
  }

  function Products3(a: byte, b: byte, c: byte, d: byte): byte {
    Multiply(a, 0x0b) ^ Multiply(b, 0x0d) ^ Multiply(c, 0x09) ^ Multiply(d, 0x0e)
  }

  lemma Products0Sum(a: byte, b: byte, c: byte, d: byte)
    ensures Sum4(Products0(a, b, c, d), Mul14(a), Mul11(b), Mul13(c), Mul9(d))
  {
    hide Mul9, Mul11, Mul13, Mul14, Multiply;
    MultiplyIs(a);
    MultiplyIs(b);
    MultiplyIs(c);
    MultiplyIs(d);
  }

  lemma Products1Sum(a: byte, b: byte, c: byte, d: byte)
    ensures Sum4(Products1(a, b, c, d), Mul9(a), Mul14(b), Mul11(c), Mul13(d))
  {
    hide Mul9, Mul11, Mul13, Mul14, Multiply;
    MultiplyIs(a);
    MultiplyIs(b);
    MultiplyIs(c);
    MultiplyIs(d);
  }

  lemma Products2Sum(a: byte, b: byte, c: byte, d: byte)
    ensures Sum4(Products2(a, b, c, d), Mul13(a), Mul9(b), Mul14(c), Mul11(d))
  {
    hide Mul9, Mul11, Mul13, Mul14, Multiply;
    MultiplyIs(a);
    MultiplyIs(b);
    MultiplyIs(c);
    MultiplyIs(d);
  }

  lemma Products3Sum(a: byte, b: byte, c: byte, d: byte)
    ensures Sum4(Products3(a, b, c, d), Mul11(a), Mul13(b), Mul9(c), Mul14(d))
  {
    hide Mul9, Mul11, Mul13, Mul14, Multiply;
    MultiplyIs(a);
    MultiplyIs(b);
    MultiplyIs(c);
    MultiplyIs(d);
  }

  lemma SameSum(t: byte, u: byte, p: byte, q: byte, r: byte, s: byte)
    requires Sum4(t, p, q, r, s) && Sum4(u, p, q, r, s)
    ensures t == u
  {
  }

  lemma ProductsAre(a: byte, b: byte, c: byte, d: byte)
    ensures Products0(a, b, c, d) == Unmixed(a, b, c, d) && Products1(a, b, c, d) == Unmixed(b, c, d, a)
    ensures Products2(a, b, c, d) == Unmixed(c, d, a, b) && Products3(a, b, c, d) == Unmixed(d, a, b, c)
  {
    hide *;
    Products0Sum(a, b, c, d);
    UnmixedSum4(a, b, c, d);
    SameSum(Products0(a, b, c, d), Unmixed(a, b, c, d), Mul14(a), Mul11(b), Mul13(c), Mul9(d));
    Products1Sum(a, b, c, d);
    var t := Unmixed(b, c, d, a);
    UnmixedSum4(b, c, d, a);
    TurnSum4(t, Mul14(b), Mul11(c), Mul13(d), Mul9(a));
    SameSum(Products1(a, b, c, d), t, Mul9(a), Mul14(b), Mul11(c), Mul13(d));
    Products2Sum(a, b, c, d);
    var u := Unmixed(c, d, a, b);
    UnmixedSum4(c, d, a, b);
    TurnSum4(u, Mul14(c), Mul11(d), Mul13(a), Mul9(b));
    TurnSum4(u, Mul9(b), Mul14(c), Mul11(d), Mul13(a));
    SameSum(Products2(a, b, c, d), u, Mul13(a), Mul9(b), Mul14(c), Mul11(d));
    Products3Sum(a, b, c, d);
    var v := Unmixed(d, a, b, c);
    UnmixedSum4(d, a, b, c);
    TurnSum4(v, Mul14(d), Mul11(a), Mul13(b), Mul9(c));
    TurnSum4(v, Mul9(c), Mul14(d), Mul11(a), Mul13(b));
    TurnSum4(v, Mul13(b), Mul9(c), Mul14(d), Mul11(a));
    SameSum(Products3(a, b, c, d), v, Mul11(a), Mul13(b), Mul9(c), Mul14(d));
  }

  method InvMixColumnsInPlace(state: array<byte>)
    requires state.Length == BLOCK
    modifies state
    ensures state[..] == InvMixColumns(old(state[..]))
  {
    hide InvMixColumns;
    ghost var s, m := state[..], InvMixColumns(state[..]);
    for i := 0 to 4
      invariant ColumnsDone(state[..], s, m, i)
    {
      MixColumnAt(s, i);
      InvMixOneColumn(state, 4 * i);
      assert forall k :: 4 * i <= k < 4 * i + 4 ==> state[k] == m[4 * i..4 * i + 4][k - 4 * i] == m[k];
    }
    assert state[..] == m;
  }

  method InvMixOneColumn(state: array<byte>, o: nat)
    requires state.Length == BLOCK && o + 4 <= BLOCK
    modifies state
    ensures state[o..o + 4] == old(InvMixColumn(state[o], state[o + 1], state[o + 2], state[o + 3]))
    ensures forall k :: 0 <= k < BLOCK && !(o <= k < o + 4) ==> state[k] == old(state[k])
  {
    hide Unmixed, Products0, Products1, Products2, Products3;
    var a, b, c, d := state[o], state[o + 1], state[o + 2], state[o + 3];
    ProductsAre(a, b, c, d);
    state[o] := Products0(a, b, c, d);
    state[o + 1] := Products1(a, b, c, d);
    state[o + 2] := Products2(a, b, c, d);
    state[o + 3] := Products3(a, b, c, d);
  }

  // ----- the cipher and its inverse

  method CipherInPlace(state: array<byte>, roundKey: array<byte>)
    requires state.Length == BLOCK && IsSchedule(roundKey[..]) && state != roundKey
    modifies state
    ensures state[..] == Cipher(old(state[..]), roundKey[..])
  {
    ghost var b := state[..];
    assert IsBlock(b);
    hide *;
    var nr := CountRounds(roundKey);
    FirstKey(state, roundKey);
    RoundsInPlace(state, roundKey, nr, b);
    LastRound(state, roundKey, nr, b);
  }

  method FirstKey(state: array<byte>, roundKey: array<byte>)
    requires state.Length == BLOCK && IsSchedule(roundKey[..]) && state != roundKey && IsBlock(state[..])
    modifies state
    ensures state[..] == Rounds(old(state[..]), roundKey[..], 0) && roundKey[..] == old(roundKey[..])
  {
    CipherParts(state[..], roundKey[..]);
    hide *;
    AddRoundKey(0, state, roundKey);
  }

  /** The last round, which mixes no columns. */
  method LastRound(state: array<byte>, roundKey: array<byte>, nr: nat, ghost b: seq<byte>)
    requires state.Length == BLOCK && IsSchedule(roundKey[..]) && state != roundKey && nr == Nr(roundKey[..])
    requires IsBlock(b) && state[..] == Rounds(b, roundKey[..], nr - 1)
    modifies state
    ensures state[..] == Cipher(b, roundKey[..])
  {
    hide *;
    CipherParts(b, roundKey[..]);
    SubBytesInPlace(state);
    ShiftRowsInPlace(state);
    AddRoundKey(nr, state, roundKey);
  }

  /** The rounds between the first key and the last. */
  method RoundsInPlace(state: array<byte>, roundKey: array<byte>, nr: nat, ghost b: seq<byte>)
    requires state.Length == BLOCK && IsSchedule(roundKey[..]) && state != roundKey && nr == Nr(roundKey[..])
    requires IsBlock(b) && state[..] == Rounds(b, roundKey[..], 0)
    modifies state
    ensures state[..] == Rounds(b, roundKey[..], nr - 1) && roundKey[..] == old(roundKey[..])
  {
    hide *;
    var round := 1;
    while round < nr
      invariant 1 <= round <= nr && roundKey[..] == old(roundKey[..]) && state[..] == Rounds(b, roundKey[..], round - 1)
    {
      NextRound(state, roundKey, round, b);
      round := round + 1;
    }
  }

  lemma CipherParts(b: seq<byte>, rk: seq<byte>)
    requires IsBlock(b) && IsSchedule(rk)
    ensures Rounds(b, rk, 0) == Xor(b, RoundKey(rk, 0))
    ensures Cipher(b, rk) == Xor(ShiftRows(SubBytes(Rounds(b, rk, Nr(rk) - 1))), RoundKey(rk, Nr(rk)))
  {
    hide Xor, Round, SubBytes, ShiftRows, RoundKey;
  }

  lemma RoundsStep(b: seq<byte>, rk: seq<byte>, round: nat)
    requires IsBlock(b) && IsSchedule(rk) && 0 < round < Nr(rk)
    ensures Rounds(b, rk, round) == Xor(MixColumns(ShiftRows(SubBytes(Rounds(b, rk, round - 1)))), RoundKey(rk, round))
  {
    hide Xor, SubBytes, ShiftRows, MixColumns, RoundKey;
  }

  method CountRounds(roundKey: array<byte>) returns (nr: nat)
    requires IsSchedule(roundKey[..])
    ensures nr == Nr(roundKey[..])
  {
    nr := roundKey.Length / BLOCK - 1;
  }

  /** From the state after one round to that after the next. */
  method NextRound(state: array<byte>, roundKey: array<byte>, round: nat, ghost b: seq<byte>)
    requires state.Length == BLOCK && IsSchedule(roundKey[..]) && state != roundKey && IsBlock(b)
    requires 0 < round < Nr(roundKey[..]) && state[..] == Rounds(b, roundKey[..], round - 1)
    modifies state
    ensures state[..] == Rounds(b, roundKey[..], round) && roundKey[..] == old(roundKey[..])
  {
    hide *;
    RoundsStep(b, roundKey[..], round);
    RoundInPlace(state, roundKey, round);
  }

  method RoundInPlace(state: array<byte>, roundKey: array<byte>, round: nat)
    requires state.Length == BLOCK && IsSchedule(roundKey[..]) && state != roundKey && round <= Nr(roundKey[..])
    modifies state
    ensures state[..] == Xor(MixColumns(ShiftRows(SubBytes(old(state[..])))), RoundKey(roundKey[..], round))
    ensures roundKey[..] == old(roundKey[..])
  {
    hide Xor, SubBytes, ShiftRows, MixColumns, RoundKey;
    SubBytesInPlace(state);
    ShiftRowsInPlace(state);
    MixColumnsInPlace(state);
    AddRoundKey(round, state, roundKey);
  }

  lemma InvCipherParts(b: seq<byte>, rk: seq<byte>)
    requires IsBlock(b) && IsSchedule(rk)
    ensures InvRounds(b, rk, Nr(rk) - 1) == Xor(b, RoundKey(rk, Nr(rk)))
    ensures InvCipher(b, rk) == Xor(InvSubBytes(InvShiftRows(InvRounds(b, rk, 0))), RoundKey(rk, 0))
  {
    hide Xor, InvRound, InvSubBytes, InvShiftRows, RoundKey;
  }

  lemma InvRoundsStep(b: seq<byte>, rk: seq<byte>, round: nat)
    requires IsBlock(b) && IsSchedule(rk) && 0 < round < Nr(rk)
    ensures InvRounds(b, rk, round - 1)
         == InvMixColumns(Xor(InvSubBytes(InvShiftRows(InvRounds(b, rk, round))), RoundKey(rk, round)))
  {
    hide Xor, InvSubBytes, InvShiftRows, InvMixColumns, RoundKey;
  }

  method InvRoundInPlace(state: array<byte>, roundKey: array<byte>, round: nat)
    requires state.Length == BLOCK && IsSchedule(roundKey[..]) && state != roundKey && round <= Nr(roundKey[..])
    modifies state
    ensures state[..] == InvMixColumns(Xor(InvSubBytes(InvShiftRows(old(state[..]))), RoundKey(roundKey[..], round)))
    ensures roundKey[..] == old(roundKey[..])
  {
    hide Xor, InvSubBytes, InvShiftRows, InvMixColumns, RoundKey;
    InvShiftRowsInPlace(state);
    InvSubBytesInPlace(state);
    AddRoundKey(round, state, roundKey);
    InvMixColumnsInPlace(state);
  }

  /** From the state after one inverse round to that after the next. */
  method NextInvRound(state: array<byte>, roundKey: array<byte>, round: nat, ghost b: seq<byte>)
    requires state.Length == BLOCK && IsSchedule(roundKey[..]) && state != roundKey && IsBlock(b)
    requires 0 < round < Nr(roundKey[..]) && state[..] == InvRounds(b, roundKey[..], round)
    modifies state
    ensures state[..] == InvRounds(b, roundKey[..], round - 1) && roundKey[..] == old(roundKey[..])
  {
    hide *;
    InvRoundsStep(b, roundKey[..], round);
    InvRoundInPlace(state, roundKey, round);
  }

  method InvRoundsInPlace(state: array<byte>, roundKey: array<byte>, nr: nat, ghost b: seq<byte>)
    requires state.Length == BLOCK && IsSchedule(roundKey[..]) && state != roundKey && nr == Nr(roundKey[..])
    requires IsBlock(b) && state[..] == InvRounds(b, roundKey[..], nr - 1)
    modifies state
    ensures state[..] == InvRounds(b, roundKey[..], 0) && roundKey[..] == old(roundKey[..])
  {
    hide *;
    var round := nr - 1;
    while round > 0
      invariant 0 <= round < nr && roundKey[..] == old(roundKey[..]) && state[..] == InvRounds(b, roundKey[..], round)
    {
      NextInvRound(state, roundKey, round, b);
      round := round - 1;
    }
  }

  method InvCipherInPlace(state: array<byte>, roundKey: array<byte>)
    requires state.Length == BLOCK && IsSchedule(roundKey[..]) && state != roundKey
    modifies state
    ensures state[..] == InvCipher(old(state[..]), roundKey[..])
  {
    hide Xor, InvSubBytes, InvShiftRows, InvMixColumns, RoundKey, InvRounds, InvCipher;
    ghost var b, rk := state[..], roundKey[..];
    var nr := CountRounds(roundKey);
    InvCipherParts(b, rk);
    hide *;
    AddRoundKey(nr, state, roundKey);
    InvRoundsInPlace(state, roundKey, nr, b);
    InvShiftRowsInPlace(state);
    InvSubBytesInPlace(state);
    AddRoundKey(0, state, roundKey);
  }
}
