/** The round function of src/d3des.c, on halves turned left by one bit, is the function f of
    FIPS 46-3. */
module DesRound {
  import opened ByteSeqs
  import opened Des
  import opened DesStandard
  import opened DesBoxes

  /** The subkey's groups for S1, S3, S5 and S7, and for the others, as the rounds use them. */
  function Odd(k: seq<byte>): word
    requires IsSubkey(k)
  {
    Word(k[0], k[2], k[4], k[6])
  }

  function Even(k: seq<byte>): word
    requires IsSubkey(k)
  {
    Word(k[1], k[3], k[5], k[7])
  }

  /** The last six bits of w are those of the half block with the subkey's added. */
  predicate Feeds(w: word, e: byte, k: byte) { (w & 0x3f) as byte == e ^ k }

  lemma Expanded0(r: word, a: byte, b: byte, c: byte, d: byte)
    requires IsSix(a) && IsSix(b) && IsSix(c) && IsSix(d)
    ensures Feeds(Down24(Mix(Spun(RotateLeft(r)), Word(a, b, c, d))), Expanded(r, 0), a)
  {
  }

  lemma Expanded1(r: word, a: byte, b: byte, c: byte, d: byte)
    requires IsSix(a) && IsSix(b) && IsSix(c) && IsSix(d)
    ensures Feeds(Down24(Mix(RotateLeft(r), Word(a, b, c, d))), Expanded(r, 1), a)
  {
  }

  lemma Expanded2(r: word, a: byte, b: byte, c: byte, d: byte)
    requires IsSix(a) && IsSix(b) && IsSix(c) && IsSix(d)
    ensures Feeds(Down16(Mix(Spun(RotateLeft(r)), Word(a, b, c, d))), Expanded(r, 2), b)
  {
  }

  lemma Expanded3(r: word, a: byte, b: byte, c: byte, d: byte)
    requires IsSix(a) && IsSix(b) && IsSix(c) && IsSix(d)
    ensures Feeds(Down16(Mix(RotateLeft(r), Word(a, b, c, d))), Expanded(r, 3), b)
  {
  }

  lemma Expanded4(r: word, a: byte, b: byte, c: byte, d: byte)
    requires IsSix(a) && IsSix(b) && IsSix(c) && IsSix(d)
    ensures Feeds(Down8(Mix(Spun(RotateLeft(r)), Word(a, b, c, d))), Expanded(r, 4), c)
  {
  }

  lemma Expanded5(r: word, a: byte, b: byte, c: byte, d: byte)
    requires IsSix(a) && IsSix(b) && IsSix(c) && IsSix(d)
    ensures Feeds(Down8(Mix(RotateLeft(r), Word(a, b, c, d))), Expanded(r, 5), c)
  {
  }

  lemma Expanded6(r: word, a: byte, b: byte, c: byte, d: byte)
    requires IsSix(a) && IsSix(b) && IsSix(c) && IsSix(d)
    ensures Feeds(Mix(Spun(RotateLeft(r)), Word(a, b, c, d)), Expanded(r, 6), d)
  {
  }

  lemma Expanded7(r: word, a: byte, b: byte, c: byte, d: byte)
    requires IsSix(a) && IsSix(b) && IsSix(c) && IsSix(d)
    ensures Feeds(Mix(RotateLeft(r), Word(a, b, c, d)), Expanded(r, 7), d)
  {
  }

  /** A lookup in table i is selection function i + 1, permuted and turned. */
  lemma Lookup(sp: seq<seq<word>>, i: nat, w: word, r: word, k: seq<byte>)
    requires AreStandard(sp) && IsSubkey(k) && i < 8 && Feeds(w, Expanded(r, i), k[i])
    ensures Boxes(sp) && sp[i][Six(w)] == TurnedBox(r, k, i)
  {
    var x := (w & 0x3f) as byte;
    SixBelow(w);
    assert Holds(sp, i, x);
    hide Permuted, InPlace, RotateLeft, Selected, Expanded, Boxes;
  }

  lemma SixBelow(w: word)
    ensures (w & 0x3f) as byte < 64 && Six(w) == Place((w & 0x3f) as byte)
  {
  }

  function TurnedBox(r: word, k: seq<byte>, i: nat): word
    requires IsSubkey(k) && i < 8
  {
    RotateLeft(Permuted(Box(r, k, i)))
  }

  /** Turning the permuted sum is summing what is permuted and turned. */
  lemma PermutedSum(a: word, b: word)
    ensures RotateLeft(Permuted(Or(a, b))) == Or(RotateLeft(Permuted(a)), RotateLeft(Permuted(b)))
  {
    PermutedOr(a, b);
    TurnedOr(Permuted(a), Permuted(b));
    hide Permuted, RotateLeft, Or;
  }

  lemma TurnedOr(a: word, b: word)
    ensures RotateLeft(Or(a, b)) == Or(RotateLeft(a), RotateLeft(b))
  {
  }

  lemma PermutedOr(a: word, b: word)
    ensures Permuted(Or(a, b)) == Or(Permuted(a), Permuted(b))
  {
    FourOr0(a, b);
    FourOr1(a, b);
    FourOr2(a, b);
    FourOr3(a, b);
    FourOr4(a, b);
    FourOr5(a, b);
    FourOr6(a, b);
    FourOr7(a, b);
    hide FourBits, Or, Joined;
    EightSums(FourBits(a, 0), FourBits(a, 1), FourBits(a, 2), FourBits(a, 3), FourBits(a, 4), FourBits(a, 5), FourBits(a, 6), FourBits(a, 7),
              FourBits(b, 0), FourBits(b, 1), FourBits(b, 2), FourBits(b, 3), FourBits(b, 4), FourBits(b, 5), FourBits(b, 6), FourBits(b, 7));
  }

  lemma EightSums(a0: word, a1: word, a2: word, a3: word, a4: word, a5: word, a6: word, a7: word,
                  b0: word, b1: word, b2: word, b3: word, b4: word, b5: word, b6: word, b7: word)
    ensures Joined(Or(a0, b0), Or(a1, b1), Or(a2, b2), Or(a3, b3), Or(a4, b4), Or(a5, b5), Or(a6, b6), Or(a7, b7))
         == Or(Joined(a0, a1, a2, a3, a4, a5, a6, a7), Joined(b0, b1, b2, b3, b4, b5, b6, b7))
  {
    hide Or;
    Exchange(a6, b6, a4, b4);
    Exchange(Or(a6, a4), Or(b6, b4), a2, b2);
    Exchange(Or(Or(a6, a4), a2), Or(Or(b6, b4), b2), a0, b0);
    Exchange(a7, b7, a5, b5);
    Exchange(Or(a7, a5), Or(b7, b5), a3, b3);
    Exchange(Or(Or(a7, a5), a3), Or(Or(b7, b5), b3), a1, b1);
    Exchange(Or(Or(Or(a6, a4), a2), a0), Or(Or(Or(b6, b4), b2), b0), Or(Or(Or(a7, a5), a3), a1), Or(Or(Or(b7, b5), b3), b1));
  }

  lemma Exchange(a: word, b: word, c: word, d: word)
    ensures Or(Or(a, b), Or(c, d)) == Or(Or(a, c), Or(b, d))
  {
    Regroup(a, b, Or(c, d));
    Regroup(b, c, d);
    Swap(b, c);
    Regroup(c, b, d);
    Regroup(a, c, Or(b, d));
    hide Or;
  }

  lemma Regroup(a: word, b: word, c: word)
    ensures Or(Or(a, b), c) == Or(a, Or(b, c))
  {
  }

  lemma Swap(a: word, b: word)
    ensures Or(a, b) == Or(b, a)
  {
  }

  lemma FourOr0(a: word, b: word)
    ensures FourBits(Or(a, b), 0) == Or(FourBits(a, 0), FourBits(b, 0))
  {
    FourBits0(a);
    FourBits0(b);
    FourBits0(Or(a, b));
    RawOr0(a, b);
    hide FourBits, Raw0, Or;
  }

  lemma RawOr0(a: word, b: word)
    ensures Raw0(Or(a, b)) == Or(Raw0(a), Raw0(b))
  {
  }

  lemma FourOr1(a: word, b: word)
    ensures FourBits(Or(a, b), 1) == Or(FourBits(a, 1), FourBits(b, 1))
  {
    FourBits1(a);
    FourBits1(b);
    FourBits1(Or(a, b));
    RawOr1(a, b);
    hide FourBits, Raw1, Or;
  }

  lemma RawOr1(a: word, b: word)
    ensures Raw1(Or(a, b)) == Or(Raw1(a), Raw1(b))
  {
  }

  lemma FourOr2(a: word, b: word)
    ensures FourBits(Or(a, b), 2) == Or(FourBits(a, 2), FourBits(b, 2))
  {
    FourBits2(a);
    FourBits2(b);
    FourBits2(Or(a, b));
    RawOr2(a, b);
    hide FourBits, Raw2, Or;
  }

  lemma RawOr2(a: word, b: word)
    ensures Raw2(Or(a, b)) == Or(Raw2(a), Raw2(b))
  {
  }

  lemma FourOr3(a: word, b: word)
    ensures FourBits(Or(a, b), 3) == Or(FourBits(a, 3), FourBits(b, 3))
  {
    FourBits3(a);
    FourBits3(b);
    FourBits3(Or(a, b));
    RawOr3(a, b);
    hide FourBits, Raw3, Or;
  }

  lemma RawOr3(a: word, b: word)
    ensures Raw3(Or(a, b)) == Or(Raw3(a), Raw3(b))
  {
  }

  lemma FourOr4(a: word, b: word)
    ensures FourBits(Or(a, b), 4) == Or(FourBits(a, 4), FourBits(b, 4))
  {
    FourBits4(a);
    FourBits4(b);
    FourBits4(Or(a, b));
    RawOr4(a, b);
    hide FourBits, Raw4, Or;
  }

  lemma RawOr4(a: word, b: word)
    ensures Raw4(Or(a, b)) == Or(Raw4(a), Raw4(b))
  {
  }

  lemma FourOr5(a: word, b: word)
    ensures FourBits(Or(a, b), 5) == Or(FourBits(a, 5), FourBits(b, 5))
  {
    FourBits5(a);
    FourBits5(b);
    FourBits5(Or(a, b));
    RawOr5(a, b);
    hide FourBits, Raw5, Or;
  }

  lemma RawOr5(a: word, b: word)
    ensures Raw5(Or(a, b)) == Or(Raw5(a), Raw5(b))
  {
  }

  lemma FourOr6(a: word, b: word)
    ensures FourBits(Or(a, b), 6) == Or(FourBits(a, 6), FourBits(b, 6))
  {
    FourBits6(a);
    FourBits6(b);
    FourBits6(Or(a, b));
    RawOr6(a, b);
    hide FourBits, Raw6, Or;
  }

  lemma RawOr6(a: word, b: word)
    ensures Raw6(Or(a, b)) == Or(Raw6(a), Raw6(b))
  {
  }

  lemma FourOr7(a: word, b: word)
    ensures FourBits(Or(a, b), 7) == Or(FourBits(a, 7), FourBits(b, 7))
  {
    FourBits7(a);
    FourBits7(b);
    FourBits7(Or(a, b));
    RawOr7(a, b);
    hide FourBits, Raw7, Or;
  }

  lemma RawOr7(a: word, b: word)
    ensures Raw7(Or(a, b)) == Or(Raw7(a), Raw7(b))
  {
  }

  /** The round function on a turned half is the function f, turned. */
  lemma RoundFunction(sp: seq<seq<word>>, r: word, k: seq<byte>)
    requires AreStandard(sp) && IsSubkey(k)
    ensures Boxes(sp) && F(sp, RotateLeft(r), Odd(k), Even(k)) == RotateLeft(Mangled(r, k))
  {
    OddLookups(sp, r, k);
    EvenLookups(sp, r, k);
    BoxesSum(r, k);
    hide Mix, Spun, RotateLeft, Boxes, TurnedBox, Mangled, Or, Odd, Even, Four;
  }

  /** The two halves of the round function. */
  function OddPart(sp: seq<seq<word>>, r: word, k: seq<byte>): word
    requires Boxes(sp) && IsSubkey(k)
  {
    hide Four, Mix, Spun, RotateLeft, Odd;
    Four(sp[6], sp[4], sp[2], sp[0], Mix(Spun(RotateLeft(r)), Odd(k)))
  }

  function EvenPart(sp: seq<seq<word>>, r: word, k: seq<byte>): word
    requires Boxes(sp) && IsSubkey(k)
  {
    hide Four, Mix, RotateLeft, Even;
    Four(sp[7], sp[5], sp[3], sp[1], Mix(RotateLeft(r), Even(k)))
  }

  lemma OddLookups(sp: seq<seq<word>>, r: word, k: seq<byte>)
    requires AreStandard(sp) && IsSubkey(k)
    ensures Boxes(sp)
    ensures OddPart(sp, r, k) == Or(Or(Or(TurnedBox(r, k, 6), TurnedBox(r, k, 4)), TurnedBox(r, k, 2)), TurnedBox(r, k, 0))
  {
    var u := Mix(Spun(RotateLeft(r)), Odd(k));
    OddFeeds(r, k);
    FourIs(sp[6], sp[4], sp[2], sp[0], u);
    hide *;
    Lookup(sp, 0, Down24(u), r, k);
    Lookup(sp, 2, Down16(u), r, k);
    Lookup(sp, 4, Down8(u), r, k);
    Lookup(sp, 6, u, r, k);
  }

  lemma FourIs(a: seq<word>, b: seq<word>, c: seq<word>, d: seq<word>, w: word)
    requires |a| == 64 && |b| == 64 && |c| == 64 && |d| == 64
    ensures Four(a, b, c, d, w) == Or(Or(Or(a[Six(w)], b[Six(Down8(w))]), c[Six(Down16(w))]), d[Six(Down24(w))])
  {
    hide Six, Or, Down8, Down16, Down24;
  }

  lemma OddFeeds(r: word, k: seq<byte>)
    requires IsSubkey(k)
    ensures var u := Mix(Spun(RotateLeft(r)), Odd(k));
            && Feeds(Down24(u), Expanded(r, 0), k[0]) && Feeds(Down16(u), Expanded(r, 2), k[2])
            && Feeds(Down8(u), Expanded(r, 4), k[4]) && Feeds(u, Expanded(r, 6), k[6])
  {
    hide Mix, Spun, RotateLeft, Word, Expanded, Feeds, IsSix, Down8, Down16, Down24;
    Expanded0(r, k[0], k[2], k[4], k[6]);
    Expanded2(r, k[0], k[2], k[4], k[6]);
    Expanded4(r, k[0], k[2], k[4], k[6]);
    Expanded6(r, k[0], k[2], k[4], k[6]);
  }

  lemma EvenFeeds(r: word, k: seq<byte>)
    requires IsSubkey(k)
    ensures var v := Mix(RotateLeft(r), Even(k));
            && Feeds(Down24(v), Expanded(r, 1), k[1]) && Feeds(Down16(v), Expanded(r, 3), k[3])
            && Feeds(Down8(v), Expanded(r, 5), k[5]) && Feeds(v, Expanded(r, 7), k[7])
  {
    hide Mix, RotateLeft, Word, Expanded, Feeds, IsSix, Down8, Down16, Down24;
    Expanded1(r, k[1], k[3], k[5], k[7]);
    Expanded3(r, k[1], k[3], k[5], k[7]);
    Expanded5(r, k[1], k[3], k[5], k[7]);
    Expanded7(r, k[1], k[3], k[5], k[7]);
  }

  lemma EvenLookups(sp: seq<seq<word>>, r: word, k: seq<byte>)
    requires AreStandard(sp) && IsSubkey(k)
    ensures Boxes(sp)
    ensures EvenPart(sp, r, k) == Or(Or(Or(TurnedBox(r, k, 7), TurnedBox(r, k, 5)), TurnedBox(r, k, 3)), TurnedBox(r, k, 1))
  {
    var v := Mix(RotateLeft(r), Even(k));
    EvenFeeds(r, k);
    FourIs(sp[7], sp[5], sp[3], sp[1], v);
    hide *;
    Lookup(sp, 1, Down24(v), r, k);
    Lookup(sp, 3, Down16(v), r, k);
    Lookup(sp, 5, Down8(v), r, k);
    Lookup(sp, 7, v, r, k);
  }

  lemma BoxesSum(r: word, k: seq<byte>)
    requires IsSubkey(k)
    ensures RotateLeft(Mangled(r, k))
         == Joined(TurnedBox(r, k, 0), TurnedBox(r, k, 1), TurnedBox(r, k, 2), TurnedBox(r, k, 3),
                   TurnedBox(r, k, 4), TurnedBox(r, k, 5), TurnedBox(r, k, 6), TurnedBox(r, k, 7))
  {
    hide Box, Permuted, RotateLeft, Joined;
    EightTurned(Box(r, k, 0), Box(r, k, 1), Box(r, k, 2), Box(r, k, 3), Box(r, k, 4), Box(r, k, 5), Box(r, k, 6), Box(r, k, 7));
  }

  lemma EightTurned(b0: word, b1: word, b2: word, b3: word, b4: word, b5: word, b6: word, b7: word)
    ensures RotateLeft(Permuted(Joined(b0, b1, b2, b3, b4, b5, b6, b7)))
         == Joined(RotateLeft(Permuted(b0)), RotateLeft(Permuted(b1)), RotateLeft(Permuted(b2)), RotateLeft(Permuted(b3)),
                   RotateLeft(Permuted(b4)), RotateLeft(Permuted(b5)), RotateLeft(Permuted(b6)), RotateLeft(Permuted(b7)))
  {
    hide Permuted, RotateLeft, Or;
    var c1, d1 := Or(b6, b4), Or(b7, b5);
    var c2, d2 := Or(c1, b2), Or(d1, b3);
    PermutedSum(b6, b4);
    PermutedSum(c1, b2);
    PermutedSum(c2, b0);
    PermutedSum(b7, b5);
    PermutedSum(d1, b3);
    PermutedSum(d2, b1);
    PermutedSum(Or(c2, b0), Or(d2, b1));
  }
}
