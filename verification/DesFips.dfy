/** src/d3des.c computes the cipher of FIPS 46-3. */
module DesFips {
  import opened ByteSeqs
  import opened Des
  import opened DesKeys
  import opened DesTables
  import opened DesStandard
  import opened DesBoxes
  import opened DesNetwork
  import opened DesRound
  import opened DesSubkeys

  // ----- the subkeys in the register

  /** Groups m to m + 3 of the subkey in one word. */
  ghost predicate Holds4(w: word, k: seq<byte>, m: nat)
    requires |k| == 8 && m <= 4
  {
    w == Packed(k[m], k[m + 1], k[m + 2], k[m + 3])
  }

  lemma RawGroups(key: seq<byte>, i: nat)
    requires |key| == 8 && i < 16
    ensures |Subkey(key, i)| == 8
    ensures Holds4(Raw(key, i, 0), Subkey(key, i), 0) && Holds4(Raw(key, i, 24), Subkey(key, i), 4)
  {
    hide *;
    ShiftedIs(key, i);
    RawIs(key, i);
    FourGroups(key, i, 0);
    FourGroups(key, i, 4);
  }

  lemma FourGroups(key: seq<byte>, i: nat, m: nat)
    requires |key| == 8 && i < 16 && (m == 0 || m == 4)
    ensures |Subkey(key, i)| == 8 && Holds4(Gathered(Shifted(key, i), 6 * m, 24), Subkey(key, i), m)
  {
    hide Gathered, Packed, Group, Bits6, Shifted, Subkey, IsSix;
    GatheredGroups(Shifted(key, i), 6 * m);
    GroupIs(key, i, m);
    GroupIs(key, i, m + 1);
    GroupIs(key, i, m + 2);
    GroupIs(key, i, m + 3);
  }

  lemma RawIs(key: seq<byte>, i: nat)
    requires |key| == 8 && i < 16
    ensures |ROTATIONS| == 16 && ROTATIONS[i] <= 28
    ensures Raw(key, i, 0) == Gathered(Turned(Chosen(key), ROTATIONS[i]), 0, 24)
    ensures Raw(key, i, 24) == Gathered(Turned(Chosen(key), ROTATIONS[i]), 24, 24)
  {
    RotationsFit();
    hide ROTATIONS, Gathered, Turned, Chosen;
  }

  lemma GroupIs(key: seq<byte>, i: nat, m: nat)
    requires |key| == 8 && i < 16 && m < 8
    ensures |Subkey(key, i)| == 8 && Group(Bits6(Shifted(key, i), 6 * m)) == Subkey(key, i)[m]
  {
    Pc2Fits();
    GroupOf(key, i, m);
    hide PC2, Shifted, SixBits, Subkey, IsSix;
  }

  lemma GroupOf(key: seq<byte>, i: nat, m: nat)
    requires |key| == 8 && i < 16 && m < 8
    ensures |Subkey(key, i)| == 8 && Subkey(key, i)[m] == SubkeyGroup(key, i, m)
  {
    hide SubkeyGroup, IsSix;
  }

  lemma SubkeySixes(key: seq<byte>, i: nat)
    requires |key| == 8 && i < 16
    ensures IsSubkey(Subkey(key, i))
  {
    hide SubkeyGroup, IsSix;
  }

  lemma CookedFour(w: word, v: word, k: seq<byte>)
    requires IsSubkey(k) && Holds4(w, k, 0) && Holds4(v, k, 4)
    ensures Cooked0(w, v) == Odd(k) && Cooked1(w, v) == Even(k)
  {
    hide Packed, Cooked0, Cooked1, IsSix, Word;
    CookedGroups(k[0], k[1], k[2], k[3], k[4], k[5], k[6], k[7]);
  }

  lemma PairIs(key: seq<byte>, de: bool, j: nat)
    requires |key| == 8 && j < 16
    ensures var i := RoundAt(de, j);
            && Schedule(key, de)[2 * j] == Cooked0(Raw(key, i, 0), Raw(key, i, 24))
            && Schedule(key, de)[2 * j + 1] == Cooked1(Raw(key, i, 0), Raw(key, i, 24))
  {
    hide Raw, Cooked0, Cooked1, RawKeys, CookedKeys;
    var raw := RawKeys(key, de);
    assert (2 * j) / 2 == j && (2 * j + 1) / 2 == j && (2 * j) % 2 == 0 && (2 * j + 1) % 2 == 1;
    assert raw[2 * j] == Raw(key, RoundAt(de, j), 0);
    assert raw[2 * j + 1] == Raw(key, RoundAt(de, j), 24);
  }

  /** The subkey that round n + 1 uses, in the order for encryption or for decryption. */
  function RoundKey(key: seq<byte>, de: bool, n: nat): (k: seq<byte>)
    requires |key| == 8 && n < 16
    ensures IsSubkey(k)
  {
    hide Subkey, IsSix;
    SubkeySixes(key, RoundAt(de, n));
    Subkey(key, RoundAt(de, n))
  }

  /** Each pair of words in the register is the subkey of its round, the odd groups and the
      even ones. */
  lemma SubkeyPair(key: seq<byte>, de: bool, j: nat)
    requires |key| == 8 && j < 16
    ensures Schedule(key, de)[2 * j] == Odd(RoundKey(key, de, j)) && Schedule(key, de)[2 * j + 1] == Even(RoundKey(key, de, j))
  {
    RoundKeyIs(key, de, j);
    hide *;
    RawGroups(key, RoundAt(de, j));
    PairIs(key, de, j);
    CookedFour(Raw(key, RoundAt(de, j), 0), Raw(key, RoundAt(de, j), 24), RoundKey(key, de, j));
  }

  lemma RoundKeyIs(key: seq<byte>, de: bool, j: nat)
    requires |key| == 8 && j < 16
    ensures IsSubkey(RoundKey(key, de, j)) && RoundKey(key, de, j) == Subkey(key, RoundAt(de, j))
  {
    hide Subkey, IsSubkey;
  }

  // ----- the rounds

  /** A round of the standard with the subkey k. */
  function Round(p: Halves, k: seq<byte>): Halves
    requires IsSubkey(k)
  {
    Halves(p.r, Mix(p.l, Mangled(p.r, k)))
  }

  /** The first n rounds. */
  function StandardRounds(p: Halves, key: seq<byte>, de: bool, n: nat): Halves
    requires |key| == 8 && n <= 16
  {
    hide Round, RoundKey, IsSubkey;
    if n == 0 then p else Round(StandardRounds(p, key, de, n - 1), RoundKey(key, de, n - 1))
  }

  /** Enciphering takes the subkeys in their order, deciphering from the last to the first. */
  lemma KeyOrder(key: seq<byte>, n: nat)
    requires |key| == 8 && n < 16
    ensures RoundKey(key, false, n) == Subkey(key, n) && RoundKey(key, true, n) == Subkey(key, 15 - n)
  {
    hide Subkey, IsSubkey;
  }

  /** Both halves turned left by one bit. */
  function Left(p: Halves): Halves { Halves(RotateLeft(p.l), RotateLeft(p.r)) }

  lemma TurnedMix(a: word, b: word)
    ensures RotateLeft(Mix(a, b)) == Mix(RotateLeft(a), RotateLeft(b))
  {
  }

  lemma OpenIsTurned(p: Halves)
    ensures Open(p) == Left(Initial(p))
  {
    hide Open, RotateLeft, RotateRight;
    RotatesUndone(Open(p).l);
    RotatesUndone(Open(p).r);
  }

  /** Two rounds of the code are two rounds of the standard: the halves change places twice. */
  lemma TwoRoundsAre(sp: seq<seq<word>>, p: Halves, keys: seq<word>, a: seq<byte>, b: seq<byte>, i: nat)
    requires AreStandard(sp) && |keys| == 32 && i < 8 && IsSubkey(a) && IsSubkey(b)
    requires keys[4 * i] == Odd(a) && keys[4 * i + 1] == Even(a)
    requires keys[4 * i + 2] == Odd(b) && keys[4 * i + 3] == Even(b)
    ensures Boxes(sp) && TwoRounds(sp, Left(p), keys, i) == Left(Round(Round(p, a), b))
  {
    hide AreStandard, Boxes, F, Mix, RotateLeft, Mangled, IsSubkey, Odd, Even;
    RoundFunction(sp, p.r, a);
    TurnedMix(p.l, Mangled(p.r, a));
    var l := Mix(p.l, Mangled(p.r, a));
    RoundFunction(sp, l, b);
    TurnedMix(p.r, Mangled(l, b));
  }

  /** The register holds the subkeys of all rounds. */
  ghost predicate Matches(keys: seq<word>, key: seq<byte>, de: bool) {
    |keys| == 32 && |key| == 8
    && forall j {:trigger RoundKey(key, de, j)} :: 0 <= j < 16 ==>
         keys[2 * j] == Odd(RoundKey(key, de, j)) && keys[2 * j + 1] == Even(RoundKey(key, de, j))
  }

  lemma ScheduleMatches(key: seq<byte>, de: bool)
    requires |key| == 8
    ensures Matches(Schedule(key, de), key, de)
  {
    hide Schedule, RoundKey, Odd, Even;
    forall j | 0 <= j < 16
      ensures Schedule(key, de)[2 * j] == Odd(RoundKey(key, de, j)) && Schedule(key, de)[2 * j + 1] == Even(RoundKey(key, de, j))
    {
      SubkeyPair(key, de, j);
    }
  }

  lemma {:induction false} RoundsAre(sp: seq<seq<word>>, p: Halves, keys: seq<word>, key: seq<byte>, de: bool, n: nat)
    requires AreStandard(sp) && |keys| == 32 && |key| == 8 && Matches(keys, key, de) && n <= 8
    ensures Boxes(sp) && Rounds(sp, Left(p), keys, n) == Left(StandardRounds(p, key, de, 2 * n))
  {
    hide *;
    BoxesOf(sp);
    RoundsUnfold(sp, Left(p), keys, n);
    StandardUnfold(p, key, de, 2 * n);
    if n > 0 {
      RoundsAre(sp, p, keys, key, de, n - 1);
      StandardUnfold(p, key, de, 2 * n - 1);
      PairHeld(keys, key, de, 2 * n - 2);
      PairHeld(keys, key, de, 2 * n - 1);
      TwoRoundsAre(sp, StandardRounds(p, key, de, 2 * n - 2), keys, RoundKey(key, de, 2 * n - 2), RoundKey(key, de, 2 * n - 1), n - 1);
    }
  }

  lemma PairHeld(keys: seq<word>, key: seq<byte>, de: bool, j: nat)
    requires |keys| == 32 && |key| == 8 && Matches(keys, key, de) && j < 16
    ensures keys[2 * j] == Odd(RoundKey(key, de, j)) && keys[2 * j + 1] == Even(RoundKey(key, de, j))
  {
    hide RoundKey, Odd, Even;
  }

  lemma BoxesOf(sp: seq<seq<word>>)
    requires AreStandard(sp)
    ensures Boxes(sp)
  {
  }

  lemma StandardUnfold(p: Halves, key: seq<byte>, de: bool, n: nat)
    requires |key| == 8 && n <= 16
    ensures StandardRounds(p, key, de, 0) == p
    ensures n > 0 ==> StandardRounds(p, key, de, n) == Round(StandardRounds(p, key, de, n - 1), RoundKey(key, de, n - 1))
  {
    hide Round, RoundKey, IsSubkey;
  }

  /** The block that the standard calls the preoutput: the last halves the other way round. */
  function Preoutput(p: Halves, key: seq<byte>, de: bool): Halves
    requires |key| == 8
  {
    hide StandardRounds, Initial;
    Turn(StandardRounds(Initial(p), key, de, 16))
  }

  /** desfunc with the key's register computes the standard's cipher: the rounds begin with the
      initial permutation of the block, and its inverse is applied to the preoutput. */
  lemma CipherIsStandard(sp: seq<seq<word>>, p: Halves, key: seq<byte>, de: bool)
    requires AreStandard(sp) && |key| == 8
    ensures Boxes(sp)
    ensures InitiallyPermuted(p, Initial(p))
    ensures InitiallyPermuted(Crypt(sp, p, Schedule(key, de)), Preoutput(p, key, de))
  {
    hide AreStandard, Boxes, Rounds, StandardRounds, Left, Initial, Open, Close, InitiallyPermuted, Schedule;
    ScheduleMatches(key, de);
    RoundsAre(sp, Initial(p), Schedule(key, de), key, de, 8);
    OpenIsTurned(p);
    InitialIs(p);
    var last := StandardRounds(Initial(p), key, de, 16);
    OpenClose(Left(last));
    ClosedInitial(last, Crypt(sp, p, Schedule(key, de)));
    InitialIs(Crypt(sp, p, Schedule(key, de)));
  }

  lemma ClosedInitial(q: Halves, out: Halves)
    requires Open(out) == Turn(Left(q))
    ensures Initial(out) == Turn(q)
  {
    hide Open, RotateLeft, RotateRight;
    RotatesUndone(q.l);
    RotatesUndone(q.r);
  }

  /** A block through desfunc with the tables of the code. */
  function Enciphered(p: Halves, key: seq<byte>, de: bool): Halves
    requires |key| == 8
  {
    TablesFit();
    hide *;
    Crypt(TABLES, p, Schedule(key, de))
  }

  lemma DesIsStandard(p: Halves, key: seq<byte>, de: bool)
    requires |key| == 8
    ensures InitiallyPermuted(p, Initial(p)) && InitiallyPermuted(Enciphered(p, key, de), Preoutput(p, key, de))
  {
    EncipheredIs(p, key, de);
    TablesAreStandard();
    hide *;
    CipherIsStandard(TABLES, p, key, de);
  }

  lemma EncipheredIs(p: Halves, key: seq<byte>, de: bool)
    requires |key| == 8
    ensures Boxes(TABLES) && Enciphered(p, key, de) == Crypt(TABLES, p, Schedule(key, de))
  {
    TablesFit();
    hide Crypt, Schedule, Boxes, TABLES;
  }
}
