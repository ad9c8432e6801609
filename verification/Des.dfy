/** src/d3des.c: DES as two bit-swapping networks around sixteen Feistel rounds, and
    the proof that reversed subkeys undo it (FIPS 46-3, Deciphering).  Words are the
    low 32 bits of the code's longs. */
module Des {
  import opened ByteSeqs
  type word = bv32

  /** The two halves of a block, in the roles of the code's `leftt` and `right`. */
  datatype Halves = Halves(l: word, r: word)

  function Turn(p: Halves): Halves { Halves(p.r, p.l) }

  function Mix(a: word, b: word): word { a ^ b }

  function Up2(w: word): word { w << 2 }
  function Up4(w: word): word { w << 4 }
  function Up8(w: word): word { w << 8 }
  function Up16(w: word): word { w << 16 }

  lemma MixTwice(a: word, b: word)
    ensures Mix(Mix(a, b), b) == a
  {
  }

  // ----- the swapping networks

  function Work4(h: word, l: word): word { ((h >> 4) ^ l) & 0x0f0f0f0f }

  function Swap4(p: Halves): Halves {
    var w := Work4(p.l, p.r);
    Halves(Mix(p.l, Up4(w)), Mix(p.r, w))
  }

  function Work16(h: word, l: word): word { ((h >> 16) ^ l) & 0x0000ffff }

  function Swap16(p: Halves): Halves {
    var w := Work16(p.l, p.r);
    Halves(Mix(p.l, Up16(w)), Mix(p.r, w))
  }

  function Work2(h: word, l: word): word { ((h >> 2) ^ l) & 0x33333333 }

  function Swap2(p: Halves): Halves {
    var w := Work2(p.l, p.r);
    Halves(Mix(p.l, Up2(w)), Mix(p.r, w))
  }

  function Work8(h: word, l: word): word { ((h >> 8) ^ l) & 0x00ff00ff }

  function Swap8(p: Halves): Halves {
    var w := Work8(p.l, p.r);
    Halves(Mix(p.l, Up8(w)), Mix(p.r, w))
  }

  /** The swap of every other bit. */
  function Swap1(p: Halves): Halves {
    var w := Work1(p.l, p.r);
    Halves(Mix(p.l, w), Mix(p.r, w))
  }

  function Work1(h: word, l: word): word { (h ^ l) & 0xaaaaaaaa }

  function RotateLeft(x: word): word { ((x << 1) | ((x >> 31) & 1)) & 0xffffffff }

  function RotateRight(x: word): word { (x << 31) | (x >> 1) }

  function OpenBits(p: Halves): Halves {
    var q := Swap1(Halves(p.l, RotateLeft(p.r)));
    Halves(RotateLeft(q.l), q.r)
  }

  function CloseBits(p: Halves): Halves {
    var q := Swap1(Halves(p.l, RotateRight(p.r)));
    Halves(RotateRight(q.l), q.r)
  }

  /** What comes before the rounds. */
  function Open(p: Halves): Halves {
    OpenBits(Turn(Swap8(Swap2(Turn(Swap16(Swap4(p)))))))
  }

  /** What comes after them; the halves are stored in the other order. */
  function Close(p: Halves): Halves {
    Swap4(Swap16(Turn(Swap2(Swap8(CloseBits(p))))))
  }

  lemma Swap4Undone(p: Halves)
    ensures Swap4(Swap4(p)) == p
  {
    hide Work4, Mix, Up4;
    SameWork4(p.l, p.r);
    MixTwice(p.l, Up4(Work4(p.l, p.r)));
    MixTwice(p.r, Work4(p.l, p.r));
  }

  lemma SameWork4(l: word, r: word)
    ensures var w := Work4(l, r);
            Work4(Mix(l, Up4(w)), Mix(r, w)) == w
  {
  }

  lemma Swap16Undone(p: Halves)
    ensures Swap16(Swap16(p)) == p
  {
    hide Work16, Mix, Up16;
    SameWork16(p.l, p.r);
    MixTwice(p.l, Up16(Work16(p.l, p.r)));
    MixTwice(p.r, Work16(p.l, p.r));
  }

  lemma SameWork16(l: word, r: word)
    ensures var w := Work16(l, r);
            Work16(Mix(l, Up16(w)), Mix(r, w)) == w
  {
  }

  lemma Swap2Undone(p: Halves)
    ensures Swap2(Swap2(p)) == p
  {
    hide Work2, Mix, Up2;
    SameWork2(p.l, p.r);
    MixTwice(p.l, Up2(Work2(p.l, p.r)));
    MixTwice(p.r, Work2(p.l, p.r));
  }

  lemma SameWork2(l: word, r: word)
    ensures var w := Work2(l, r);
            Work2(Mix(l, Up2(w)), Mix(r, w)) == w
  {
  }

  lemma Swap8Undone(p: Halves)
    ensures Swap8(Swap8(p)) == p
  {
    hide Work8, Mix, Up8;
    SameWork8(p.l, p.r);
    MixTwice(p.l, Up8(Work8(p.l, p.r)));
    MixTwice(p.r, Work8(p.l, p.r));
  }

  lemma SameWork8(l: word, r: word)
    ensures var w := Work8(l, r);
            Work8(Mix(l, Up8(w)), Mix(r, w)) == w
  {
  }

  lemma RotatesUndone(x: word)
    ensures RotateLeft(RotateRight(x)) == x && RotateRight(RotateLeft(x)) == x
  {
  }

  lemma Swap1Undone(p: Halves)
    ensures Swap1(Turn(Swap1(p))) == Turn(p)
  {
    hide Work1, Mix;
    SameWork1(p.l, p.r);
    MixTwice(p.l, Work1(p.l, p.r));
    MixTwice(p.r, Work1(p.l, p.r));
  }

  lemma SameWork1(l: word, r: word)
    ensures var w := Work1(l, r);
            Work1(Mix(r, w), Mix(l, w)) == w
  {
  }

  lemma BitsUndone(p: Halves)
    ensures OpenBits(Turn(CloseBits(p))) == Turn(p) && CloseBits(Turn(OpenBits(p))) == Turn(p)
  {
    hide RotateLeft, RotateRight, Swap1;
    var x, y := Halves(p.l, RotateRight(p.r)), Halves(p.l, RotateLeft(p.r));
    Swap1Undone(x);
    Swap1Undone(y);
    RotatesUndone(p.r);
    RotatesUndone(Swap1(x).l);
    RotatesUndone(Swap1(y).l);
  }

  /** Opening what was closed gives the halves back, turned round. */
  lemma OpenClose(p: Halves)
    ensures Open(Close(p)) == Turn(p)
  {
    hide Swap4, Swap16, Swap2, Swap8, OpenBits, CloseBits;
    var a := CloseBits(p);
    var b := Swap8(a);
    var c := Turn(Swap2(b));
    Swap4Undone(Swap16(c));
    Swap16Undone(c);
    Swap2Undone(b);
    Swap8Undone(a);
    BitsUndone(p);
  }

  /** And the other way round. */
  lemma CloseOpen(p: Halves)
    ensures Close(Turn(Open(p))) == p
  {
    hide Swap4, Swap16, Swap2, Swap8, OpenBits, CloseBits;
    var a := Swap4(p);
    var b := Turn(Swap16(a));
    var c := Swap2(b);
    BitsUndone(Turn(Swap8(c)));
    Swap8Undone(c);
    Swap2Undone(b);
    Swap16Undone(a);
    Swap4Undone(p);
  }

  // ----- the rounds

  /** The eight tables of combined substitutions and permutations, each of 64 words. */
  predicate Boxes(sp: seq<seq<word>>) {
    |sp| == 8 && forall i {:trigger sp[i]} :: 0 <= i < 8 ==> |sp[i]| == 64
  }

  function Six(w: word): (i: nat)
    ensures i < 64
  {
    ((w & 0x3f) as byte) as nat
  }

  function Down8(w: word): word { w >> 8 }
  function Down16(w: word): word { w >> 16 }
  function Down24(w: word): word { w >> 24 }

  /** Four lookups at once. */
  function Four(a: seq<word>, b: seq<word>, c: seq<word>, d: seq<word>, w: word): word
    requires |a| == 64 && |b| == 64 && |c| == 64 && |d| == 64
  {
    Or(Or(Or(a[Six(w)], b[Six(Down8(w))]), c[Six(Down16(w))]), d[Six(Down24(w))])
  }

  /** A half turned right by four places. */
  function Spun(half: word): word { (half << 28) | (half >> 4) }

  function Or(a: word, b: word): word { a | b }

  /** The round function on one half with a pair of subkeys. */
  function F(sp: seq<seq<word>>, half: word, k0: word, k1: word): word
    requires Boxes(sp)
  {
    Or(Four(sp[6], sp[4], sp[2], sp[0], Mix(Spun(half), k0)), Four(sp[7], sp[5], sp[3], sp[1], Mix(half, k1)))
  }

  /** Two rounds: each half takes in the function of the other. */
  function TwoRounds(sp: seq<seq<word>>, p: Halves, keys: seq<word>, i: nat): Halves
    requires Boxes(sp) && |keys| == 32 && i < 8
  {
    var l := Mix(p.l, F(sp, p.r, keys[4 * i], keys[4 * i + 1]));
    Halves(l, Mix(p.r, F(sp, l, keys[4 * i + 2], keys[4 * i + 3])))
  }

  function Rounds(sp: seq<seq<word>>, p: Halves, keys: seq<word>, n: nat): Halves
    requires Boxes(sp) && |keys| == 32 && n <= 8
  {
    if n == 0 then p else TwoRounds(sp, Rounds(sp, p, keys, n - 1), keys, n - 1)
  }

  /** desfunc */
  function Crypt(sp: seq<seq<word>>, p: Halves, keys: seq<word>): Halves
    requires Boxes(sp) && |keys| == 32
  {
    Close(Rounds(sp, Open(p), keys, 8))
  }

  /** The sixteen pairs of subkeys in the other order. */
  predicate Reversed(keys: seq<word>, back: seq<word>) {
    |keys| == 32 && |back| == 32
    && forall j {:trigger back[2 * j]} :: 0 <= j < 16 ==> back[2 * j] == keys[30 - 2 * j] && back[2 * j + 1] == keys[31 - 2 * j]
  }

  lemma ReversedFour(keys: seq<word>, back: seq<word>, i: nat)
    requires Reversed(keys, back) && i < 8
    ensures back[4 * i] == keys[4 * (7 - i) + 2] && back[4 * i + 1] == keys[4 * (7 - i) + 3]
    ensures back[4 * i + 2] == keys[4 * (7 - i)] && back[4 * i + 3] == keys[4 * (7 - i) + 1]
  {
    assert back[2 * (2 * i)] == keys[30 - 2 * (2 * i)] && back[2 * (2 * i) + 1] == keys[31 - 2 * (2 * i)];
    assert back[2 * (2 * i + 1)] == keys[30 - 2 * (2 * i + 1)] && back[2 * (2 * i + 1) + 1] == keys[31 - 2 * (2 * i + 1)];
  }

  lemma TwoRoundsUndone(sp: seq<seq<word>>, p: Halves, keys: seq<word>, back: seq<word>, i: nat)
    requires Boxes(sp) && Reversed(keys, back) && i < 8
    ensures TwoRounds(sp, Turn(TwoRounds(sp, p, keys, 7 - i)), back, i) == Turn(p)
  {
    hide F, Mix;
    ReversedFour(keys, back, i);
    var m := 7 - i;
    var f := F(sp, p.r, keys[4 * m], keys[4 * m + 1]);
    var g := F(sp, Mix(p.l, f), keys[4 * m + 2], keys[4 * m + 3]);
    MixTwice(p.r, g);
    MixTwice(p.l, f);
  }

  lemma RoundsUnfold(sp: seq<seq<word>>, p: Halves, keys: seq<word>, n: nat)
    requires Boxes(sp) && |keys| == 32
    ensures Rounds(sp, p, keys, 0) == p
    ensures 0 < n <= 8 ==> Rounds(sp, p, keys, n) == TwoRounds(sp, Rounds(sp, p, keys, n - 1), keys, n - 1)
  {
    hide TwoRounds, Boxes;
  }

  /** With the subkeys reversed the rounds go back through their states. */
  lemma {:induction false} RoundsRetrace(sp: seq<seq<word>>, p: Halves, keys: seq<word>, back: seq<word>, n: nat)
    requires Boxes(sp) && Reversed(keys, back) && n <= 8
    ensures Rounds(sp, Turn(Rounds(sp, p, keys, 8)), back, n) == Turn(Rounds(sp, p, keys, 8 - n))
  {
    hide F, Mix, TwoRounds, Rounds, Reversed;
    Lengths(keys, back);
    RoundsUnfold(sp, Turn(Rounds(sp, p, keys, 8)), back, n);
    RoundsUnfold(sp, p, keys, 8 - n + 1);
    if n > 0 {
      RoundsRetrace(sp, p, keys, back, n - 1);
      TwoRoundsUndone(sp, Rounds(sp, p, keys, 8 - n), keys, back, n - 1);
    }
  }

  /** Whatever the tables hold, reversed subkeys undo a block. */
  lemma CryptUndone(sp: seq<seq<word>>, p: Halves, keys: seq<word>, back: seq<word>)
    requires Boxes(sp) && Reversed(keys, back)
    ensures Crypt(sp, Crypt(sp, p, keys), back) == p
  {
    Lengths(keys, back);
    hide Open, Close, TwoRounds, Reversed;
    RoundsRetrace(sp, Open(p), keys, back, 8);
    OpenClose(Rounds(sp, Open(p), keys, 8));
    CloseOpen(p);
  }

  // ----- blocks of bytes

  /** scrunch */
  function Scrunch(b: seq<byte>): Halves
    requires |b| == 8
  {
    Halves(Word(b[0], b[1], b[2], b[3]), Word(b[4], b[5], b[6], b[7]))
  }

  function Word(b0: byte, b1: byte, b2: byte, b3: byte): word {
    ((b0 as word) << 24) | ((b1 as word) << 16) | ((b2 as word) << 8) | (b3 as word)
  }

  /** unscrun */
  function Unscrun(p: Halves): (b: seq<byte>)
    ensures |b| == 8
  {
    [Byte3(p.l), Byte2(p.l), Byte1(p.l), Byte0(p.l), Byte3(p.r), Byte2(p.r), Byte1(p.r), Byte0(p.r)]
  }

  function Byte3(w: word): byte { ((w >> 24) & 0xff) as byte }

  function Byte2(w: word): byte { ((w >> 16) & 0xff) as byte }

  function Byte1(w: word): byte { ((w >> 8) & 0xff) as byte }

  function Byte0(w: word): byte { (w & 0xff) as byte }

  lemma WordBytes(w: word)
    ensures Word(Byte3(w), Byte2(w), Byte1(w), Byte0(w)) == w
  {
  }

  lemma BytesOfWord(b0: byte, b1: byte, b2: byte, b3: byte)
    ensures var w := Word(b0, b1, b2, b3);
            Byte3(w) == b0 && Byte2(w) == b1 && Byte1(w) == b2 && Byte0(w) == b3
  {
  }

  lemma ScrunchUndone(b: seq<byte>, p: Halves)
    requires |b| == 8
    ensures Unscrun(Scrunch(b)) == b && Scrunch(Unscrun(p)) == p
  {
    hide Word, Byte0, Byte1, Byte2, Byte3;
    BytesOfWord(b[0], b[1], b[2], b[3]);
    BytesOfWord(b[4], b[5], b[6], b[7]);
    WordBytes(p.l);
    WordBytes(p.r);
  }

  /** des */
  function Block(sp: seq<seq<word>>, b: seq<byte>, keys: seq<word>): (r: seq<byte>)
    requires Boxes(sp) && |keys| == 32 && |b| == 8
    ensures |r| == 8
  {
    hide Crypt;
    Unscrun(Crypt(sp, Scrunch(b), keys))
  }

  lemma BlockUndone(sp: seq<seq<word>>, b: seq<byte>, keys: seq<word>, back: seq<word>)
    requires Boxes(sp) && Reversed(keys, back) && |b| == 8
    ensures Block(sp, Block(sp, b, keys), back) == b
  {
    Lengths(keys, back);
    hide Crypt, Scrunch, Unscrun, Reversed;
    var p := Scrunch(b);
    ScrunchUndone(b, Crypt(sp, p, keys));
    CryptUndone(sp, p, keys, back);
  }

  lemma Lengths(keys: seq<word>, back: seq<word>)
    requires Reversed(keys, back)
    ensures |keys| == 32 && |back| == 32
  {
  }
}
