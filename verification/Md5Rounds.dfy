/** src/std_md5.c: the block function.  The reference is RFC 1321 section 3.4 as one
    operation repeated 64 times on rotating registers; the code writes the 64 steps out,
    with shortened forms of the auxiliary functions. */
module Md5Rounds {
  import opened ByteSeqs
  import opened WordValues

  /** The four chaining words. */
  datatype State = State(a: word, b: word, c: word, d: word)

  // ----- the auxiliary functions

  function F(x: word, y: word, z: word): word { (x & y) | (!x & z) }
  function G(x: word, y: word, z: word): word { (x & z) | (y & !z) }
  function H(x: word, y: word, z: word): word { x ^ y ^ z }
  function I(x: word, y: word, z: word): word { y ^ (x | !z) }

  function CodeF(x: word, y: word, z: word): word { z ^ (x & (y ^ z)) }
  function CodeG(x: word, y: word, z: word): word { y ^ (z & (x ^ y)) }
  function CodeH2(x: word, y: word, z: word): word { x ^ (y ^ z) }

  lemma Spread(x: word, y: word, z: word)
    ensures x & (y ^ z) == (x & y) ^ (x & z)
  {
  }

  lemma Without(x: word, z: word)
    ensures z ^ (x & z) == !x & z
  {
  }

  lemma Either(x: word, y: word, z: word)
    ensures (x & y) ^ (!x & z) == (x & y) | (!x & z)
  {
  }

  lemma Regroup(x: word, y: word, z: word)
    ensures z ^ (x ^ y) == x ^ (z ^ y)
  {
  }

  /** The shortened forms compute the same. */
  lemma ShortF(x: word, y: word, z: word)
    ensures CodeF(x, y, z) == F(x, y, z)
  {
    Spread(x, y, z);
    Without(x, z);
    Either(x, y, z);
    Regroup(x & y, x & z, z);
  }

  lemma ShortG(x: word, y: word, z: word)
    ensures CodeG(x, y, z) == G(x, y, z)
  {
    ShortF(z, x, y);
    Swapped(x, y, z);
  }

  lemma Swapped(x: word, y: word, z: word)
    ensures F(z, x, y) == G(x, y, z) && CodeF(z, x, y) == CodeG(x, y, z)
  {
  }

  lemma ShortH(x: word, y: word, z: word)
    ensures CodeH2(x, y, z) == H(x, y, z)
  {
  }

  // ----- the operations of the standard

  /** The table of section 3.4, a round each. */
  const T1: seq<word> := [
    0xd76aa478, 0xe8c7b756, 0x242070db, 0xc1bdceee, 0xf57c0faf, 0x4787c62a, 0xa8304613, 0xfd469501,
    0x698098d8, 0x8b44f7af, 0xffff5bb1, 0x895cd7be, 0x6b901122, 0xfd987193, 0xa679438e, 0x49b40821]
  const T2: seq<word> := [
    0xf61e2562, 0xc040b340, 0x265e5a51, 0xe9b6c7aa, 0xd62f105d, 0x02441453, 0xd8a1e681, 0xe7d3fbc8,
    0x21e1cde6, 0xc33707d6, 0xf4d50d87, 0x455a14ed, 0xa9e3e905, 0xfcefa3f8, 0x676f02d9, 0x8d2a4c8a]
  const T3: seq<word> := [
    0xfffa3942, 0x8771f681, 0x6d9d6122, 0xfde5380c, 0xa4beea44, 0x4bdecfa9, 0xf6bb4b60, 0xbebfbc70,
    0x289b7ec6, 0xeaa127fa, 0xd4ef3085, 0x04881d05, 0xd9d4d039, 0xe6db99e5, 0x1fa27cf8, 0xc4ac5665]
  const T4: seq<word> := [
    0xf4292244, 0x432aff97, 0xab9423a7, 0xfc93a039, 0x655b59c3, 0x8f0ccc92, 0xffeff47d, 0x85845dd1,
    0x6fa87e4f, 0xfe2ce6e0, 0xa3014314, 0x4e0811a1, 0xf7537e82, 0xbd3af235, 0x2ad7d2bb, 0xeb86d391]

  function T(i: nat): word
    requires i < 64
  {
    if i < 16 then T1[i] else if i < 32 then T2[i - 16] else if i < 48 then T3[i - 32] else T4[i - 48]
  }

  /** The word of the block that operation i takes. */
  function Index(i: nat): (k: nat)
    requires i < 64
    ensures k < 16
  {
    (if i < 16 then i else if i < 32 then 5 * i + 1 else if i < 48 then 3 * i + 5 else 7 * i) % 16
  }

  function Shift(i: nat): (n: word)
    requires i < 64
    ensures 0 < n < 32
  {
    var j := i % 4;
    if i < 16 then (if j == 0 then 7 else if j == 1 then 12 else if j == 2 then 17 else 22)
    else if i < 32 then (if j == 0 then 5 else if j == 1 then 9 else if j == 2 then 14 else 20)
    else if i < 48 then (if j == 0 then 4 else if j == 1 then 11 else if j == 2 then 16 else 23)
    else (if j == 0 then 6 else if j == 1 then 10 else if j == 2 then 15 else 21)
  }

  function Auxiliary(i: nat, x: word, y: word, z: word): word
    requires i < 64
  {
    if i < 16 then F(x, y, z) else if i < 32 then G(x, y, z) else if i < 48 then H(x, y, z) else I(x, y, z)
  }

  /** The one step both forms share: b + ((a + f + x + t) <<< n). */
  function Stepped(a: word, b: word, f: word, x: word, t: word, n: word): word
    requires 0 < n < 32
  {
    Plus(Circular(Plus(a, Plus(Plus(f, x), t)), n), b)
  }

  /** On numbers: the sum is turned, and then b comes to it. */
  lemma SteppedValue(a: word, b: word, f: word, x: word, t: word, n: word)
    requires 0 < n < 32
    ensures 0 < Value(n) < 32
    ensures var v := (Value(a) + Value(f) + Value(x) + Value(t)) % FULL;
            Value(Stepped(a, b, f, x, t, n)) == (Value(b) + Rotated(v, Value(n))) % FULL
  {
    hide Plus, Circular, Value, Rotated;
    SumValue(f, x);
    SumValue(Plus(f, x), t);
    SumValue(a, Plus(Plus(f, x), t));
    var s := Plus(a, Plus(Plus(f, x), t));
    CircularValue(s, n);
    SumValue(Circular(s, n), b);
    ThreeSums(Value(a), Value(f), Value(x), Value(t));
  }

  lemma ThreeSums(a: nat, f: nat, x: nat, t: nat)
    ensures (a + ((f + x) % FULL + t) % FULL) % FULL == (a + f + x + t) % FULL
  {
  }

  // The auxiliary functions bit by bit: F chooses by the bits of x, G by those of z, H is set
  // where an odd number of its arguments are, and I is y, turned over where x is set or z is not.

  lemma WhereSet(x: word, y: word, z: word)
    ensures F(x, y, z) & x == y & x && G(z, y, x) & x == z & x
  {
  }

  lemma WhereClear(x: word, y: word, z: word)
    ensures F(x, y, z) & !x == z & !x && G(z, y, x) & !x == y & !x
  {
  }

  lemma OddNumber(x: word, y: word, z: word)
    ensures H(x, y, z) ^ z == x ^ y
  {
  }

  lemma TurnedOver(x: word, y: word, z: word)
    ensures I(x, y, z) & x == !y & x && I(x, y, z) & !z == !y & !z
  {
  }

  lemma LeftAlone(x: word, y: word, z: word)
    ensures I(x, y, z) & (z & !x) == y & (z & !x)
  {
  }

  /** Operation i: the registers move round by one. */
  function Operation(s: State, x: seq<word>, i: nat): State
    requires |x| == 16 && i < 64
  {
    State(s.d, Stepped(s.a, s.b, Auxiliary(i, s.b, s.c, s.d), x[Index(i)], T(i), Shift(i)), s.b, s.c)
  }

  function Operations(s: State, x: seq<word>, n: nat): State
    requires |x| == 16 && n <= 64
  {
    if n == 0 then s else Operation(Operations(s, x, n - 1), x, n - 1)
  }

  function Sum(s: State, t: State): State {
    State(Plus(s.a, t.a), Plus(s.b, t.b), Plus(s.c, t.c), Plus(s.d, t.d))
  }

  lemma SumValues(s: State, t: State)
    ensures Value(Sum(s, t).a) == (Value(s.a) + Value(t.a)) % FULL && Value(Sum(s, t).b) == (Value(s.b) + Value(t.b)) % FULL
    ensures Value(Sum(s, t).c) == (Value(s.c) + Value(t.c)) % FULL && Value(Sum(s, t).d) == (Value(s.d) + Value(t.d)) % FULL
  {
    SumValue(s.a, t.a);
    SumValue(s.b, t.b);
    SumValue(s.c, t.c);
    SumValue(s.d, t.d);
    hide Plus, Value;
  }

  /** Four bytes as a word, the first the lowest. */
  function Word(b0: byte, b1: byte, b2: byte, b3: byte): word {
    (b0 as word) | ((b1 as word) << 8) | ((b2 as word) << 16) | ((b3 as word) << 24)
  }

  lemma WordValue(b0: byte, b1: byte, b2: byte, b3: byte)
    ensures Value(Word(b0, b1, b2, b3)) == b0 as nat + 0x100 * (b1 as nat) + 0x1_0000 * (b2 as nat) + 0x100_0000 * (b3 as nat)
  {
    RawWord(b0, b1, b2, b3);
  }

  lemma RawWord(b0: byte, b1: byte, b2: byte, b3: byte)
    ensures ((b0 as word) | ((b1 as word) << 8) | ((b2 as word) << 16) | ((b3 as word) << 24)) as nat
         == b0 as nat + 0x100 * (b1 as nat) + 0x1_0000 * (b2 as nat) + 0x100_0000 * (b3 as nat)
  {
  }

  function Words(block: seq<byte>): (x: seq<word>)
    requires |block| == 64
    ensures |x| == 16
  {
    hide Word;
    seq(16, k requires 0 <= k < 16 => Word(block[4 * k], block[4 * k + 1], block[4 * k + 2], block[4 * k + 3]))
  }

  /** What one block does to the chaining words. */
  function Compressed(s: State, block: seq<byte>): State
    requires |block| == 64
  {
    var t := Operations(s, Words(block), Whole());
    Sum(t, s)
  }

  function Whole(): (n: nat)
    ensures n == 64
  {
    64
  }

  // ----- the steps as the code writes them

  function StepF(a: word, b: word, c: word, d: word, x: word, t: word, n: word): word
    requires 0 < n < 32
  {
    Stepped(a, b, CodeF(b, c, d), x, t, n)
  }

  function StepG(a: word, b: word, c: word, d: word, x: word, t: word, n: word): word
    requires 0 < n < 32
  {
    Stepped(a, b, CodeG(b, c, d), x, t, n)
  }

  function StepH(a: word, b: word, c: word, d: word, x: word, t: word, n: word): word
    requires 0 < n < 32
  {
    Stepped(a, b, H(b, c, d), x, t, n)
  }

  function StepH2(a: word, b: word, c: word, d: word, x: word, t: word, n: word): word
    requires 0 < n < 32
  {
    Stepped(a, b, CodeH2(b, c, d), x, t, n)
  }

  function StepI(a: word, b: word, c: word, d: word, x: word, t: word, n: word): word
    requires 0 < n < 32
  {
    Stepped(a, b, I(b, c, d), x, t, n)
  }

  lemma StepsAgree(a: word, b: word, c: word, d: word, x: word, t: word, n: word)
    requires 0 < n < 32
    ensures StepF(a, b, c, d, x, t, n) == Stepped(a, b, F(b, c, d), x, t, n)
    ensures StepG(a, b, c, d, x, t, n) == Stepped(a, b, G(b, c, d), x, t, n)
    ensures StepH(a, b, c, d, x, t, n) == StepH2(a, b, c, d, x, t, n) == Stepped(a, b, H(b, c, d), x, t, n)
    ensures StepI(a, b, c, d, x, t, n) == Stepped(a, b, I(b, c, d), x, t, n)
  {
    ShortF(b, c, d);
    ShortG(b, c, d);
    ShortH(b, c, d);
    hide Stepped, CodeF, CodeG, CodeH2, F, G, H, I;
  }

  /** The code's constants for round 1 are the standard's. */
  lemma Row1()
    ensures Index(0) == 0 && T(0) == 0xd76aa478 && Shift(0) == 7
    ensures Index(1) == 1 && T(1) == 0xe8c7b756 && Shift(1) == 12
    ensures Index(2) == 2 && T(2) == 0x242070db && Shift(2) == 17
    ensures Index(3) == 3 && T(3) == 0xc1bdceee && Shift(3) == 22
    ensures Index(4) == 4 && T(4) == 0xf57c0faf && Shift(4) == 7
    ensures Index(5) == 5 && T(5) == 0x4787c62a && Shift(5) == 12
    ensures Index(6) == 6 && T(6) == 0xa8304613 && Shift(6) == 17
    ensures Index(7) == 7 && T(7) == 0xfd469501 && Shift(7) == 22
    ensures Index(8) == 8 && T(8) == 0x698098d8 && Shift(8) == 7
    ensures Index(9) == 9 && T(9) == 0x8b44f7af && Shift(9) == 12
    ensures Index(10) == 10 && T(10) == 0xffff5bb1 && Shift(10) == 17
    ensures Index(11) == 11 && T(11) == 0x895cd7be && Shift(11) == 22
    ensures Index(12) == 12 && T(12) == 0x6b901122 && Shift(12) == 7
    ensures Index(13) == 13 && T(13) == 0xfd987193 && Shift(13) == 12
    ensures Index(14) == 14 && T(14) == 0xa679438e && Shift(14) == 17
    ensures Index(15) == 15 && T(15) == 0x49b40821 && Shift(15) == 22
  {
    Entries1();
    hide T;
  }

  lemma Entries1()
    ensures T(0) == 0xd76aa478 && T(1) == 0xe8c7b756 && T(2) == 0x242070db && T(3) == 0xc1bdceee
    ensures T(4) == 0xf57c0faf && T(5) == 0x4787c62a && T(6) == 0xa8304613 && T(7) == 0xfd469501
    ensures T(8) == 0x698098d8 && T(9) == 0x8b44f7af && T(10) == 0xffff5bb1 && T(11) == 0x895cd7be
    ensures T(12) == 0x6b901122 && T(13) == 0xfd987193 && T(14) == 0xa679438e && T(15) == 0x49b40821
  {
    hide T2, T3, T4;
  }

  lemma One1(p: State, x: seq<word>, i: nat)
    requires |x| == 16 && 0 <= i < 16
    ensures Operation(p, x, i) == State(p.d, StepF(p.a, p.b, p.c, p.d, x[Index(i)], T(i), Shift(i)), p.b, p.c)
  {
    StepsAgree(p.a, p.b, p.c, p.d, x[Index(i)], T(i), Shift(i));
    hide Stepped, StepF, StepG, StepH, StepH2, StepI, F, G, H, I, T, Index, Shift;
  }

  /** Four steps of round 1 are four operations of the standard. */
  lemma Four1(s: State, x: seq<word>, i: nat, p: State, a: word, b: word, c: word, d: word)
    requires |x| == 16 && 0 <= i <= 12 && Operations(s, x, i) == p
    requires a == StepF(p.a, p.b, p.c, p.d, x[Index(i)], T(i), Shift(i))
    requires d == StepF(p.d, a, p.b, p.c, x[Index(i + 1)], T(i + 1), Shift(i + 1))
    requires c == StepF(p.c, d, a, p.b, x[Index(i + 2)], T(i + 2), Shift(i + 2))
    requires b == StepF(p.b, c, d, a, x[Index(i + 3)], T(i + 3), Shift(i + 3))
    ensures Operations(s, x, i + 4) == State(a, b, c, d)
  {
    hide Operation, StepF, T, Index, Shift;
    One1(p, x, i);
    One1(State(p.d, a, p.b, p.c), x, i + 1);
    One1(State(p.c, d, a, p.b), x, i + 2);
    One1(State(p.b, c, d, a), x, i + 3);
    assert Operations(s, x, i + 1) == State(p.d, a, p.b, p.c);
    assert Operations(s, x, i + 2) == State(p.c, d, a, p.b);
    assert Operations(s, x, i + 3) == State(p.b, c, d, a);
  }

  method Round1(p: State, x: seq<word>, ghost s: State) returns (q: State)
    requires |x| == 16 && Operations(s, x, 0) == p
    ensures q == Operations(s, x, 16)
  {
    Row1();
    hide *;
    var a, b, c, d := p.a, p.b, p.c, p.d;
    ghost var o := p;
    a := StepF(a, b, c, d, x[0], 0xd76aa478, 7);
    d := StepF(d, a, b, c, x[1], 0xe8c7b756, 12);
    c := StepF(c, d, a, b, x[2], 0x242070db, 17);
    b := StepF(b, c, d, a, x[3], 0xc1bdceee, 22);
    Four1(s, x, 0, o, a, b, c, d);
    o := State(a, b, c, d);
    a := StepF(a, b, c, d, x[4], 0xf57c0faf, 7);
    d := StepF(d, a, b, c, x[5], 0x4787c62a, 12);
    c := StepF(c, d, a, b, x[6], 0xa8304613, 17);
    b := StepF(b, c, d, a, x[7], 0xfd469501, 22);
    Four1(s, x, 4, o, a, b, c, d);
    o := State(a, b, c, d);
    a := StepF(a, b, c, d, x[8], 0x698098d8, 7);
    d := StepF(d, a, b, c, x[9], 0x8b44f7af, 12);
    c := StepF(c, d, a, b, x[10], 0xffff5bb1, 17);
    b := StepF(b, c, d, a, x[11], 0x895cd7be, 22);
    Four1(s, x, 8, o, a, b, c, d);
    o := State(a, b, c, d);
    a := StepF(a, b, c, d, x[12], 0x6b901122, 7);
    d := StepF(d, a, b, c, x[13], 0xfd987193, 12);
    c := StepF(c, d, a, b, x[14], 0xa679438e, 17);
    b := StepF(b, c, d, a, x[15], 0x49b40821, 22);
    Four1(s, x, 12, o, a, b, c, d);
    q := State(a, b, c, d);
  }

  /** The code's constants for round 2 are the standard's. */
  lemma Row2()
    ensures Index(16) == 1 && T(16) == 0xf61e2562 && Shift(16) == 5
    ensures Index(17) == 6 && T(17) == 0xc040b340 && Shift(17) == 9
    ensures Index(18) == 11 && T(18) == 0x265e5a51 && Shift(18) == 14
    ensures Index(19) == 0 && T(19) == 0xe9b6c7aa && Shift(19) == 20
    ensures Index(20) == 5 && T(20) == 0xd62f105d && Shift(20) == 5
    ensures Index(21) == 10 && T(21) == 0x02441453 && Shift(21) == 9
    ensures Index(22) == 15 && T(22) == 0xd8a1e681 && Shift(22) == 14
    ensures Index(23) == 4 && T(23) == 0xe7d3fbc8 && Shift(23) == 20
    ensures Index(24) == 9 && T(24) == 0x21e1cde6 && Shift(24) == 5
    ensures Index(25) == 14 && T(25) == 0xc33707d6 && Shift(25) == 9
    ensures Index(26) == 3 && T(26) == 0xf4d50d87 && Shift(26) == 14
    ensures Index(27) == 8 && T(27) == 0x455a14ed && Shift(27) == 20
    ensures Index(28) == 13 && T(28) == 0xa9e3e905 && Shift(28) == 5
    ensures Index(29) == 2 && T(29) == 0xfcefa3f8 && Shift(29) == 9
    ensures Index(30) == 7 && T(30) == 0x676f02d9 && Shift(30) == 14
    ensures Index(31) == 12 && T(31) == 0x8d2a4c8a && Shift(31) == 20
  {
    Entries2();
    hide T;
  }

  lemma Entries2()
    ensures T(16) == 0xf61e2562 && T(17) == 0xc040b340 && T(18) == 0x265e5a51 && T(19) == 0xe9b6c7aa
    ensures T(20) == 0xd62f105d && T(21) == 0x02441453 && T(22) == 0xd8a1e681 && T(23) == 0xe7d3fbc8
    ensures T(24) == 0x21e1cde6 && T(25) == 0xc33707d6 && T(26) == 0xf4d50d87 && T(27) == 0x455a14ed
    ensures T(28) == 0xa9e3e905 && T(29) == 0xfcefa3f8 && T(30) == 0x676f02d9 && T(31) == 0x8d2a4c8a
  {
    hide T3, T4, T1;
  }

  lemma One2(p: State, x: seq<word>, i: nat)
    requires |x| == 16 && 16 <= i < 32
    ensures Operation(p, x, i) == State(p.d, StepG(p.a, p.b, p.c, p.d, x[Index(i)], T(i), Shift(i)), p.b, p.c)
  {
    StepsAgree(p.a, p.b, p.c, p.d, x[Index(i)], T(i), Shift(i));
    hide Stepped, StepF, StepG, StepH, StepH2, StepI, F, G, H, I, T, Index, Shift;
  }

  /** Four steps of round 2 are four operations of the standard. */
  lemma Four2(s: State, x: seq<word>, i: nat, p: State, a: word, b: word, c: word, d: word)
    requires |x| == 16 && 16 <= i <= 28 && Operations(s, x, i) == p
    requires a == StepG(p.a, p.b, p.c, p.d, x[Index(i)], T(i), Shift(i))
    requires d == StepG(p.d, a, p.b, p.c, x[Index(i + 1)], T(i + 1), Shift(i + 1))
    requires c == StepG(p.c, d, a, p.b, x[Index(i + 2)], T(i + 2), Shift(i + 2))
    requires b == StepG(p.b, c, d, a, x[Index(i + 3)], T(i + 3), Shift(i + 3))
    ensures Operations(s, x, i + 4) == State(a, b, c, d)
  {
    hide Operation, StepG, T, Index, Shift;
    One2(p, x, i);
    One2(State(p.d, a, p.b, p.c), x, i + 1);
    One2(State(p.c, d, a, p.b), x, i + 2);
    One2(State(p.b, c, d, a), x, i + 3);
    assert Operations(s, x, i + 1) == State(p.d, a, p.b, p.c);
    assert Operations(s, x, i + 2) == State(p.c, d, a, p.b);
    assert Operations(s, x, i + 3) == State(p.b, c, d, a);
  }

  method Round2(p: State, x: seq<word>, ghost s: State) returns (q: State)
    requires |x| == 16 && Operations(s, x, 16) == p
    ensures q == Operations(s, x, 32)
  {
    Row2();
    hide *;
    var a, b, c, d := p.a, p.b, p.c, p.d;
    ghost var o := p;
    a := StepG(a, b, c, d, x[1], 0xf61e2562, 5);
    d := StepG(d, a, b, c, x[6], 0xc040b340, 9);
    c := StepG(c, d, a, b, x[11], 0x265e5a51, 14);
    b := StepG(b, c, d, a, x[0], 0xe9b6c7aa, 20);
    Four2(s, x, 16, o, a, b, c, d);
    o := State(a, b, c, d);
    a := StepG(a, b, c, d, x[5], 0xd62f105d, 5);
    d := StepG(d, a, b, c, x[10], 0x02441453, 9);
    c := StepG(c, d, a, b, x[15], 0xd8a1e681, 14);
    b := StepG(b, c, d, a, x[4], 0xe7d3fbc8, 20);
    Four2(s, x, 20, o, a, b, c, d);
    o := State(a, b, c, d);
    a := StepG(a, b, c, d, x[9], 0x21e1cde6, 5);
    d := StepG(d, a, b, c, x[14], 0xc33707d6, 9);
    c := StepG(c, d, a, b, x[3], 0xf4d50d87, 14);
    b := StepG(b, c, d, a, x[8], 0x455a14ed, 20);
    Four2(s, x, 24, o, a, b, c, d);
    o := State(a, b, c, d);
    a := StepG(a, b, c, d, x[13], 0xa9e3e905, 5);
    d := StepG(d, a, b, c, x[2], 0xfcefa3f8, 9);
    c := StepG(c, d, a, b, x[7], 0x676f02d9, 14);
    b := StepG(b, c, d, a, x[12], 0x8d2a4c8a, 20);
    Four2(s, x, 28, o, a, b, c, d);
    q := State(a, b, c, d);
  }

  /** The code's constants for round 3 are the standard's. */
  lemma Row3()
    ensures Index(32) == 5 && T(32) == 0xfffa3942 && Shift(32) == 4
    ensures Index(33) == 8 && T(33) == 0x8771f681 && Shift(33) == 11
    ensures Index(34) == 11 && T(34) == 0x6d9d6122 && Shift(34) == 16
    ensures Index(35) == 14 && T(35) == 0xfde5380c && Shift(35) == 23
    ensures Index(36) == 1 && T(36) == 0xa4beea44 && Shift(36) == 4
    ensures Index(37) == 4 && T(37) == 0x4bdecfa9 && Shift(37) == 11
    ensures Index(38) == 7 && T(38) == 0xf6bb4b60 && Shift(38) == 16
    ensures Index(39) == 10 && T(39) == 0xbebfbc70 && Shift(39) == 23
    ensures Index(40) == 13 && T(40) == 0x289b7ec6 && Shift(40) == 4
    ensures Index(41) == 0 && T(41) == 0xeaa127fa && Shift(41) == 11
    ensures Index(42) == 3 && T(42) == 0xd4ef3085 && Shift(42) == 16
    ensures Index(43) == 6 && T(43) == 0x04881d05 && Shift(43) == 23
    ensures Index(44) == 9 && T(44) == 0xd9d4d039 && Shift(44) == 4
    ensures Index(45) == 12 && T(45) == 0xe6db99e5 && Shift(45) == 11
    ensures Index(46) == 15 && T(46) == 0x1fa27cf8 && Shift(46) == 16
    ensures Index(47) == 2 && T(47) == 0xc4ac5665 && Shift(47) == 23
  {
    Entries3();
    hide T;
  }

  lemma Entries3()
    ensures T(32) == 0xfffa3942 && T(33) == 0x8771f681 && T(34) == 0x6d9d6122 && T(35) == 0xfde5380c
    ensures T(36) == 0xa4beea44 && T(37) == 0x4bdecfa9 && T(38) == 0xf6bb4b60 && T(39) == 0xbebfbc70
    ensures T(40) == 0x289b7ec6 && T(41) == 0xeaa127fa && T(42) == 0xd4ef3085 && T(43) == 0x04881d05
    ensures T(44) == 0xd9d4d039 && T(45) == 0xe6db99e5 && T(46) == 0x1fa27cf8 && T(47) == 0xc4ac5665
  {
    hide T4, T1, T2;
  }

  lemma One3(p: State, x: seq<word>, i: nat)
    requires |x| == 16 && 32 <= i < 48
    ensures Operation(p, x, i) == State(p.d, StepH(p.a, p.b, p.c, p.d, x[Index(i)], T(i), Shift(i)), p.b, p.c)
    ensures Operation(p, x, i) == State(p.d, StepH2(p.a, p.b, p.c, p.d, x[Index(i)], T(i), Shift(i)), p.b, p.c)
  {
    StepsAgree(p.a, p.b, p.c, p.d, x[Index(i)], T(i), Shift(i));
    hide Stepped, StepF, StepG, StepH, StepH2, StepI, F, G, H, I, T, Index, Shift;
  }

  /** Four steps of round 3 are four operations of the standard. */
  lemma Four3(s: State, x: seq<word>, i: nat, p: State, a: word, b: word, c: word, d: word)
    requires |x| == 16 && 32 <= i <= 44 && Operations(s, x, i) == p
    requires a == StepH(p.a, p.b, p.c, p.d, x[Index(i)], T(i), Shift(i))
    requires d == StepH2(p.d, a, p.b, p.c, x[Index(i + 1)], T(i + 1), Shift(i + 1))
    requires c == StepH(p.c, d, a, p.b, x[Index(i + 2)], T(i + 2), Shift(i + 2))
    requires b == StepH2(p.b, c, d, a, x[Index(i + 3)], T(i + 3), Shift(i + 3))
    ensures Operations(s, x, i + 4) == State(a, b, c, d)
  {
    hide Operation, StepH, StepH2, T, Index, Shift;
    One3(p, x, i);
    One3(State(p.d, a, p.b, p.c), x, i + 1);
    One3(State(p.c, d, a, p.b), x, i + 2);
    One3(State(p.b, c, d, a), x, i + 3);
    assert Operations(s, x, i + 1) == State(p.d, a, p.b, p.c);
    assert Operations(s, x, i + 2) == State(p.c, d, a, p.b);
    assert Operations(s, x, i + 3) == State(p.b, c, d, a);
  }

  method Round3(p: State, x: seq<word>, ghost s: State) returns (q: State)
    requires |x| == 16 && Operations(s, x, 32) == p
    ensures q == Operations(s, x, 48)
  {
    Row3();
    hide *;
    var a, b, c, d := p.a, p.b, p.c, p.d;
    ghost var o := p;
    a := StepH(a, b, c, d, x[5], 0xfffa3942, 4);
    d := StepH2(d, a, b, c, x[8], 0x8771f681, 11);
    c := StepH(c, d, a, b, x[11], 0x6d9d6122, 16);
    b := StepH2(b, c, d, a, x[14], 0xfde5380c, 23);
    Four3(s, x, 32, o, a, b, c, d);
    o := State(a, b, c, d);
    a := StepH(a, b, c, d, x[1], 0xa4beea44, 4);
    d := StepH2(d, a, b, c, x[4], 0x4bdecfa9, 11);
    c := StepH(c, d, a, b, x[7], 0xf6bb4b60, 16);
    b := StepH2(b, c, d, a, x[10], 0xbebfbc70, 23);
    Four3(s, x, 36, o, a, b, c, d);
    o := State(a, b, c, d);
    a := StepH(a, b, c, d, x[13], 0x289b7ec6, 4);
    d := StepH2(d, a, b, c, x[0], 0xeaa127fa, 11);
    c := StepH(c, d, a, b, x[3], 0xd4ef3085, 16);
    b := StepH2(b, c, d, a, x[6], 0x04881d05, 23);
    Four3(s, x, 40, o, a, b, c, d);
    o := State(a, b, c, d);
    a := StepH(a, b, c, d, x[9], 0xd9d4d039, 4);
    d := StepH2(d, a, b, c, x[12], 0xe6db99e5, 11);
    c := StepH(c, d, a, b, x[15], 0x1fa27cf8, 16);
    b := StepH2(b, c, d, a, x[2], 0xc4ac5665, 23);
    Four3(s, x, 44, o, a, b, c, d);
    q := State(a, b, c, d);
  }

  /** The code's constants for round 4 are the standard's. */
  lemma Row4()
    ensures Index(48) == 0 && T(48) == 0xf4292244 && Shift(48) == 6
    ensures Index(49) == 7 && T(49) == 0x432aff97 && Shift(49) == 10
    ensures Index(50) == 14 && T(50) == 0xab9423a7 && Shift(50) == 15
    ensures Index(51) == 5 && T(51) == 0xfc93a039 && Shift(51) == 21
    ensures Index(52) == 12 && T(52) == 0x655b59c3 && Shift(52) == 6
    ensures Index(53) == 3 && T(53) == 0x8f0ccc92 && Shift(53) == 10
    ensures Index(54) == 10 && T(54) == 0xffeff47d && Shift(54) == 15
    ensures Index(55) == 1 && T(55) == 0x85845dd1 && Shift(55) == 21
    ensures Index(56) == 8 && T(56) == 0x6fa87e4f && Shift(56) == 6
    ensures Index(57) == 15 && T(57) == 0xfe2ce6e0 && Shift(57) == 10
    ensures Index(58) == 6 && T(58) == 0xa3014314 && Shift(58) == 15
    ensures Index(59) == 13 && T(59) == 0x4e0811a1 && Shift(59) == 21
    ensures Index(60) == 4 && T(60) == 0xf7537e82 && Shift(60) == 6
    ensures Index(61) == 11 && T(61) == 0xbd3af235 && Shift(61) == 10
    ensures Index(62) == 2 && T(62) == 0x2ad7d2bb && Shift(62) == 15
    ensures Index(63) == 9 && T(63) == 0xeb86d391 && Shift(63) == 21
  {
    Entries4();
    hide T;
  }

  lemma Entries4()
    ensures T(48) == 0xf4292244 && T(49) == 0x432aff97 && T(50) == 0xab9423a7 && T(51) == 0xfc93a039
    ensures T(52) == 0x655b59c3 && T(53) == 0x8f0ccc92 && T(54) == 0xffeff47d && T(55) == 0x85845dd1
    ensures T(56) == 0x6fa87e4f && T(57) == 0xfe2ce6e0 && T(58) == 0xa3014314 && T(59) == 0x4e0811a1
    ensures T(60) == 0xf7537e82 && T(61) == 0xbd3af235 && T(62) == 0x2ad7d2bb && T(63) == 0xeb86d391
  {
    hide T1, T2, T3;
  }

  lemma One4(p: State, x: seq<word>, i: nat)
    requires |x| == 16 && 48 <= i < 64
    ensures Operation(p, x, i) == State(p.d, StepI(p.a, p.b, p.c, p.d, x[Index(i)], T(i), Shift(i)), p.b, p.c)
  {
    StepsAgree(p.a, p.b, p.c, p.d, x[Index(i)], T(i), Shift(i));
    hide Stepped, StepF, StepG, StepH, StepH2, StepI, F, G, H, I, T, Index, Shift;
  }

  /** Four steps of round 4 are four operations of the standard. */
  lemma Four4(s: State, x: seq<word>, i: nat, p: State, a: word, b: word, c: word, d: word)
    requires |x| == 16 && 48 <= i <= 60 && Operations(s, x, i) == p
    requires a == StepI(p.a, p.b, p.c, p.d, x[Index(i)], T(i), Shift(i))
    requires d == StepI(p.d, a, p.b, p.c, x[Index(i + 1)], T(i + 1), Shift(i + 1))
    requires c == StepI(p.c, d, a, p.b, x[Index(i + 2)], T(i + 2), Shift(i + 2))
    requires b == StepI(p.b, c, d, a, x[Index(i + 3)], T(i + 3), Shift(i + 3))
    ensures Operations(s, x, i + 4) == State(a, b, c, d)
  {
    hide Operation, StepI, T, Index, Shift;
    One4(p, x, i);
    One4(State(p.d, a, p.b, p.c), x, i + 1);
    One4(State(p.c, d, a, p.b), x, i + 2);
    One4(State(p.b, c, d, a), x, i + 3);
    assert Operations(s, x, i + 1) == State(p.d, a, p.b, p.c);
    assert Operations(s, x, i + 2) == State(p.c, d, a, p.b);
    assert Operations(s, x, i + 3) == State(p.b, c, d, a);
  }

  method Round4(p: State, x: seq<word>, ghost s: State) returns (q: State)
    requires |x| == 16 && Operations(s, x, 48) == p
    ensures q == Operations(s, x, 64)
  {
    Row4();
    hide *;
    var a, b, c, d := p.a, p.b, p.c, p.d;
    ghost var o := p;
    a := StepI(a, b, c, d, x[0], 0xf4292244, 6);
    d := StepI(d, a, b, c, x[7], 0x432aff97, 10);
    c := StepI(c, d, a, b, x[14], 0xab9423a7, 15);
    b := StepI(b, c, d, a, x[5], 0xfc93a039, 21);
    Four4(s, x, 48, o, a, b, c, d);
    o := State(a, b, c, d);
    a := StepI(a, b, c, d, x[12], 0x655b59c3, 6);
    d := StepI(d, a, b, c, x[3], 0x8f0ccc92, 10);
    c := StepI(c, d, a, b, x[10], 0xffeff47d, 15);
    b := StepI(b, c, d, a, x[1], 0x85845dd1, 21);
    Four4(s, x, 52, o, a, b, c, d);
    o := State(a, b, c, d);
    a := StepI(a, b, c, d, x[8], 0x6fa87e4f, 6);
    d := StepI(d, a, b, c, x[15], 0xfe2ce6e0, 10);
    c := StepI(c, d, a, b, x[6], 0xa3014314, 15);
    b := StepI(b, c, d, a, x[13], 0x4e0811a1, 21);
    Four4(s, x, 56, o, a, b, c, d);
    o := State(a, b, c, d);
    a := StepI(a, b, c, d, x[4], 0xf7537e82, 6);
    d := StepI(d, a, b, c, x[11], 0xbd3af235, 10);
    c := StepI(c, d, a, b, x[2], 0x2ad7d2bb, 15);
    b := StepI(b, c, d, a, x[9], 0xeb86d391, 21);
    Four4(s, x, 60, o, a, b, c, d);
    q := State(a, b, c, d);
  }

  /** The 64 steps on one block. */
  method Steps(s: State, block: seq<byte>) returns (t: State)
    requires |block| == 64
    ensures t == Compressed(s, block)
  {
    Start(s, Words(block));
    hide Operations, Stepped, Words;
    var x := Words(block);
    t := Round1(s, x, s);
    t := Round2(t, x, s);
    t := Round3(t, x, s);
    t := Round4(t, x, s);
    t := Sum(t, s);
  }

  lemma Start(s: State, x: seq<word>)
    requires |x| == 16
    ensures Operations(s, x, 0) == s
  {
  }
}
