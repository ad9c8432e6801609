/** src/d3des.c on machines whose longs have 64 bits: what gets above bit 31 never reaches
    the low 32 bits, so that the words of `Des` are all that matters. */
module DesWide {
  import opened ByteSeqs
  import opened Des

  type long = bv64

  datatype Wide = Wide(l: long, r: long)

  function Low(x: long): word { (x & 0xffffffff) as word }

  /** No bits above the low 32. */
  predicate Clean(x: long) { x & 0xffffffff00000000 == 0 }

  function LowOf(p: Wide): Halves { Halves(Low(p.l), Low(p.r)) }

  function WideTurn(p: Wide): Wide { Wide(p.r, p.l) }

  function Xor(a: long, b: long): long { a ^ b }

  function WideUp2(a: long): long { a << 2 }
  function WideUp4(a: long): long { a << 4 }
  function WideUp8(a: long): long { a << 8 }
  function WideUp16(a: long): long { a << 16 }

  lemma LowXor(a: long, b: long)
    ensures Low(Xor(a, b)) == Mix(Low(a), Low(b))
    ensures Clean(a) && Clean(b) ==> Clean(Xor(a, b))
  {
  }

  lemma Low2(w: long)
    ensures Low(WideUp2(w)) == Up2(Low(w))
  {
    LowBits2(w);
    hide Low;
  }

  lemma LowBits2(w: long)
    ensures Low(w << 2) == Low(w) << 2
  {
  }

  lemma Low4(w: long)
    ensures Low(WideUp4(w)) == Up4(Low(w))
  {
    LowBits4(w);
    hide Low;
  }

  lemma LowBits4(w: long)
    ensures Low(w << 4) == Low(w) << 4
  {
  }

  lemma Low8(w: long)
    ensures Low(WideUp8(w)) == Up8(Low(w))
  {
    LowBits8(w);
    hide Low;
  }

  lemma LowBits8(w: long)
    ensures Low(w << 8) == Low(w) << 8
  {
  }

  lemma Low16(w: long)
    ensures Low(WideUp16(w)) == Up16(Low(w))
  {
    LowBits16(w);
    hide Low;
  }

  lemma LowBits16(w: long)
    ensures Low(w << 16) == Low(w) << 16
  {
  }

  /** A clean long is its low word. */
  lemma CleanIs(x: long)
    requires Clean(x)
    ensures x == Long(Low(x))
  {
  }

  // ----- the exchanges

  function WideWork4(h: long, l: long): long { ((h >> 4) ^ l) & 0x0f0f0f0f }

  function WideSwap4(p: Wide): Wide {
    var w := WideWork4(p.l, p.r);
    Wide(Xor(p.l, WideUp4(w)), Xor(p.r, w))
  }

  lemma LowWork4(h: long, l: long)
    ensures Low(WideWork4(h, l)) == Work4(Low(h), Low(l))
  {
  }

  lemma CleanWork4(h: long, l: long)
    ensures Clean(WideWork4(h, l)) && Clean(WideUp4(WideWork4(h, l)))
  {
    CleanMask4((h >> 4) ^ l);
  }

  lemma CleanMask4(w: long)
    ensures Clean(w & 0x0f0f0f0f) && Clean((w & 0x0f0f0f0f) << 4)
  {
  }

  lemma LowSwap4(p: Wide)
    ensures LowOf(WideSwap4(p)) == Swap4(LowOf(p))
    ensures Clean(p.l) ==> Clean(WideSwap4(p).l)
    ensures Clean(p.r) ==> Clean(WideSwap4(p).r)
  {
    LowWork4(p.l, p.r);
    CleanWork4(p.l, p.r);
    Low4(WideWork4(p.l, p.r));
    var w := WideWork4(p.l, p.r);
    LowXor(p.l, WideUp4(w));
    LowXor(p.r, w);
    hide Low, Clean, Xor, WideUp4, WideWork4, Work4, Mix, Up4;
  }

  function WideWork16(h: long, l: long): long { ((h >> 16) ^ l) & 0x0000ffff }

  function WideSwap16(p: Wide): Wide {
    var w := WideWork16(p.l, p.r);
    Wide(Xor(p.l, WideUp16(w)), Xor(p.r, w))
  }

  lemma LowWork16(h: long, l: long)
    ensures Low(WideWork16(h, l)) == Work16(Low(h), Low(l))
  {
  }

  lemma CleanWork16(h: long, l: long)
    ensures Clean(WideWork16(h, l)) && Clean(WideUp16(WideWork16(h, l)))
  {
    CleanMask16((h >> 16) ^ l);
  }

  lemma CleanMask16(w: long)
    ensures Clean(w & 0x0000ffff) && Clean((w & 0x0000ffff) << 16)
  {
  }

  lemma LowSwap16(p: Wide)
    ensures LowOf(WideSwap16(p)) == Swap16(LowOf(p))
    ensures Clean(p.l) ==> Clean(WideSwap16(p).l)
    ensures Clean(p.r) ==> Clean(WideSwap16(p).r)
  {
    LowWork16(p.l, p.r);
    CleanWork16(p.l, p.r);
    Low16(WideWork16(p.l, p.r));
    var w := WideWork16(p.l, p.r);
    LowXor(p.l, WideUp16(w));
    LowXor(p.r, w);
    hide Low, Clean, Xor, WideUp16, WideWork16, Work16, Mix, Up16;
  }

  function WideWork2(h: long, l: long): long { ((h >> 2) ^ l) & 0x33333333 }

  function WideSwap2(p: Wide): Wide {
    var w := WideWork2(p.l, p.r);
    Wide(Xor(p.l, WideUp2(w)), Xor(p.r, w))
  }

  lemma LowWork2(h: long, l: long)
    ensures Low(WideWork2(h, l)) == Work2(Low(h), Low(l))
  {
  }

  lemma CleanWork2(h: long, l: long)
    ensures Clean(WideWork2(h, l)) && Clean(WideUp2(WideWork2(h, l)))
  {
    CleanMask2((h >> 2) ^ l);
  }

  lemma CleanMask2(w: long)
    ensures Clean(w & 0x33333333) && Clean((w & 0x33333333) << 2)
  {
  }

  lemma LowSwap2(p: Wide)
    ensures LowOf(WideSwap2(p)) == Swap2(LowOf(p))
    ensures Clean(p.l) ==> Clean(WideSwap2(p).l)
    ensures Clean(p.r) ==> Clean(WideSwap2(p).r)
  {
    LowWork2(p.l, p.r);
    CleanWork2(p.l, p.r);
    Low2(WideWork2(p.l, p.r));
    var w := WideWork2(p.l, p.r);
    LowXor(p.l, WideUp2(w));
    LowXor(p.r, w);
    hide Low, Clean, Xor, WideUp2, WideWork2, Work2, Mix, Up2;
  }

  function WideWork8(h: long, l: long): long { ((h >> 8) ^ l) & 0x00ff00ff }

  function WideSwap8(p: Wide): Wide {
    var w := WideWork8(p.l, p.r);
    Wide(Xor(p.l, WideUp8(w)), Xor(p.r, w))
  }

  lemma LowWork8(h: long, l: long)
    ensures Low(WideWork8(h, l)) == Work8(Low(h), Low(l))
  {
  }

  lemma CleanWork8(h: long, l: long)
    ensures Clean(WideWork8(h, l)) && Clean(WideUp8(WideWork8(h, l)))
  {
    CleanMask8((h >> 8) ^ l);
  }

  lemma CleanMask8(w: long)
    ensures Clean(w & 0x00ff00ff) && Clean((w & 0x00ff00ff) << 8)
  {
  }

  lemma LowSwap8(p: Wide)
    ensures LowOf(WideSwap8(p)) == Swap8(LowOf(p))
    ensures Clean(p.l) ==> Clean(WideSwap8(p).l)
    ensures Clean(p.r) ==> Clean(WideSwap8(p).r)
  {
    LowWork8(p.l, p.r);
    CleanWork8(p.l, p.r);
    Low8(WideWork8(p.l, p.r));
    var w := WideWork8(p.l, p.r);
    LowXor(p.l, WideUp8(w));
    LowXor(p.r, w);
    hide Low, Clean, Xor, WideUp8, WideWork8, Work8, Mix, Up8;
  }

  function WideWork1(h: long, l: long): long { (h ^ l) & 0xaaaaaaaa }

  function WideSwap1(p: Wide): Wide {
    var w := WideWork1(p.l, p.r);
    Wide(Xor(p.l, w), Xor(p.r, w))
  }

  lemma LowWork1(h: long, l: long)
    ensures Low(WideWork1(h, l)) == Work1(Low(h), Low(l)) && Clean(WideWork1(h, l))
  {
  }

  lemma LowSwap1(p: Wide)
    ensures LowOf(WideSwap1(p)) == Swap1(LowOf(p))
    ensures Clean(p.l) ==> Clean(WideSwap1(p).l)
    ensures Clean(p.r) ==> Clean(WideSwap1(p).r)
  {
    LowWork1(p.l, p.r);
    var w := WideWork1(p.l, p.r);
    LowXor(p.l, w);
    LowXor(p.r, w);
    hide Low, Clean, Xor, WideWork1, Work1, Mix;
  }

  function WideLeft(x: long): long { ((x << 1) | ((x >> 31) & 1)) & 0xffffffff }

  function WideRight(x: long): long { (x << 31) | (x >> 1) }

  lemma LowRotates(x: long)
    ensures Low(WideLeft(x)) == RotateLeft(Low(x)) && Clean(WideLeft(x))
    ensures Clean(x) ==> Low(WideRight(x)) == RotateRight(Low(x))
  {
    LowLeft(x);
    LowRight(x);
  }

  lemma LowLeft(x: long)
    ensures Low(WideLeft(x)) == RotateLeft(Low(x)) && Clean(WideLeft(x))
  {
  }

  lemma LowRight(x: long)
    ensures Clean(x) ==> Low(WideRight(x)) == RotateRight(Low(x))
  {
    RightLong(Low(x));
    if Clean(x) {
      CleanIs(x);
    }
    hide Low, Clean, RotateRight, WideRight, Long;
  }

  lemma RightLong(w: word)
    ensures Low(WideRight(Long(w))) == RotateRight(w)
  {
  }

  function WideOpen(p: Wide): Wide {
    var q := WideTurn(WideSwap8(WideSwap2(WideTurn(WideSwap16(WideSwap4(p))))));
    var s := WideSwap1(Wide(q.l, WideLeft(q.r)));
    Wide(WideLeft(s.l), s.r)
  }

  /** The rotation leaves bits above the low 32, on the right half at first. */
  function WideClose(p: Wide): Wide {
    var q := WideSwap1(Wide(p.l, WideRight(p.r)));
    WideSwap4(WideSwap16(WideTurn(WideSwap2(WideSwap8(Wide(WideRight(q.l), q.r))))))
  }

  /** Whatever comes in, the rounds begin with clean halves. */
  lemma LowOpen(p: Wide)
    ensures LowOf(WideOpen(p)) == Open(LowOf(p))
    ensures Clean(WideOpen(p).l) && Clean(WideOpen(p).r)
  {
    hide Low, Clean, WideSwap1, WideSwap2, WideSwap4, WideSwap8, WideSwap16, Swap1, Swap2, Swap4, Swap8, Swap16;
    hide WideLeft, RotateLeft;
    var a := WideSwap4(p);
    var b := WideTurn(WideSwap16(a));
    var c := WideSwap2(b);
    var q := WideTurn(WideSwap8(c));
    var s := Wide(q.l, WideLeft(q.r));
    LowSwap4(p);
    LowSwap16(a);
    LowSwap2(b);
    LowSwap8(c);
    LowRotates(q.r);
    LowSwap1(s);
    LowRotates(WideSwap1(s).l);
  }

  lemma LowClose(p: Wide)
    requires Clean(p.l) && Clean(p.r)
    ensures LowOf(WideClose(p)) == Close(LowOf(p))
  {
    hide Low, Clean, WideSwap1, WideSwap2, WideSwap4, WideSwap8, WideSwap16, Swap1, Swap2, Swap4, Swap8, Swap16;
    hide WideRight, RotateRight;
    var s := Wide(p.l, WideRight(p.r));
    var q := WideSwap1(s);
    var a := Wide(WideRight(q.l), q.r);
    var b := WideSwap8(a);
    var c := WideTurn(WideSwap2(b));
    LowRotates(p.r);
    LowSwap1(s);
    LowRotates(q.l);
    LowSwap8(a);
    LowSwap2(b);
    LowSwap16(c);
    LowSwap4(WideSwap16(c));
  }

  // ----- the rounds

  function WideSix(w: long): (i: nat)
    ensures i < 64
  {
    ((w & 0x3f) as byte) as nat
  }

  function Down(w: long, n: nat): long
    requires n < 64
  {
    w >> n
  }

  function WideFour(a: seq<word>, b: seq<word>, c: seq<word>, d: seq<word>, w: long): word
    requires |a| == 64 && |b| == 64 && |c| == 64 && |d| == 64
  {
    Or(Or(Or(a[WideSix(w)], b[WideSix(Down(w, 8))]), c[WideSix(Down(w, 16))]), d[WideSix(Down(w, 24))])
  }

  function WideSpun(x: long): long { (x << 28) | (x >> 4) }

  function WideF(sp: seq<seq<word>>, half: long, k0: long, k1: long): word
    requires Boxes(sp)
  {
    Or(WideFour(sp[6], sp[4], sp[2], sp[0], Xor(WideSpun(half), k0)), WideFour(sp[7], sp[5], sp[3], sp[1], Xor(half, k1)))
  }

  lemma LowSix(w: long)
    ensures WideSix(w) == Six(Low(w)) && WideSix(Down(w, 8)) == Six(Down8(Low(w)))
    ensures WideSix(Down(w, 16)) == Six(Down16(Low(w))) && WideSix(Down(w, 24)) == Six(Down24(Low(w)))
  {
    SixBits(w);
  }

  lemma SixBits(w: long)
    ensures (w & 0x3f) as byte == (Low(w) & 0x3f) as byte
    ensures (Down(w, 8) & 0x3f) as byte == ((Low(w) >> 8) & 0x3f) as byte
    ensures (Down(w, 16) & 0x3f) as byte == ((Low(w) >> 16) & 0x3f) as byte
    ensures (Down(w, 24) & 0x3f) as byte == ((Low(w) >> 24) & 0x3f) as byte
  {
  }

  lemma LowFour(a: seq<word>, b: seq<word>, c: seq<word>, d: seq<word>, w: long)
    requires |a| == 64 && |b| == 64 && |c| == 64 && |d| == 64
    ensures WideFour(a, b, c, d, w) == Four(a, b, c, d, Low(w))
  {
    LowSix(w);
    hide WideSix, Six, Low, Down;
  }

  lemma LowSpun(x: long)
    requires Clean(x)
    ensures Low(WideSpun(x)) == Spun(Low(x))
  {
    CleanIs(x);
    SpunLong(Low(x));
    hide Low, Clean, WideSpun, Spun, Long;
  }

  lemma SpunLong(w: word)
    ensures Low(WideSpun(Long(w))) == Spun(w)
  {
  }

  /** A round function on clean halves sees only low bits. */
  lemma LowF(sp: seq<seq<word>>, half: long, k0: long, k1: long)
    requires Boxes(sp) && Clean(half)
    ensures WideF(sp, half, k0, k1) == F(sp, Low(half), Low(k0), Low(k1))
  {
    var u, v := Xor(WideSpun(half), k0), Xor(half, k1);
    LowSpun(half);
    LowXor(WideSpun(half), k0);
    LowXor(half, k1);
    LowFour(sp[6], sp[4], sp[2], sp[0], u);
    LowFour(sp[7], sp[5], sp[3], sp[1], v);
    hide Low, Clean, Xor, WideSpun, Spun, WideFour, Four, Mix, Or;
  }

  function Long(w: word): long { w as long }

  lemma LowLong(a: long, w: word)
    requires Clean(a)
    ensures Low(Xor(a, Long(w))) == Mix(Low(a), w) && Clean(Xor(a, Long(w)))
  {
    LowXor(a, Long(w));
    LongLow(w);
    hide Low, Clean, Xor, Mix, Long;
  }

  lemma LongLow(w: word)
    ensures Low(Long(w)) == w && Clean(Long(w))
  {
  }

  function WideTwoRounds(sp: seq<seq<word>>, p: Wide, keys: seq<long>, i: nat): Wide
    requires Boxes(sp) && |keys| == 32 && i < 8
  {
    var l := Xor(p.l, Long(WideF(sp, p.r, keys[4 * i], keys[4 * i + 1])));
    Wide(l, Xor(p.r, Long(WideF(sp, l, keys[4 * i + 2], keys[4 * i + 3]))))
  }

  function WideRounds(sp: seq<seq<word>>, p: Wide, keys: seq<long>, n: nat): Wide
    requires Boxes(sp) && |keys| == 32 && n <= 8
  {
    if n == 0 then p else WideTwoRounds(sp, WideRounds(sp, p, keys, n - 1), keys, n - 1)
  }

  function LowKeys(keys: seq<long>): (ks: seq<word>)
    ensures |ks| == |keys| && forall i :: 0 <= i < |keys| ==> ks[i] == Low(keys[i])
  {
    seq(|keys|, i requires 0 <= i < |keys| => Low(keys[i]))
  }

  lemma LowTwoRounds(sp: seq<seq<word>>, p: Wide, keys: seq<long>, i: nat)
    requires Boxes(sp) && |keys| == 32 && i < 8 && Clean(p.l) && Clean(p.r)
    ensures LowOf(WideTwoRounds(sp, p, keys, i)) == TwoRounds(sp, LowOf(p), LowKeys(keys), i)
    ensures var q := WideTwoRounds(sp, p, keys, i);
            Clean(q.l) && Clean(q.r)
  {
    hide Low, Clean, Xor, Long, WideF, F, Mix;
    var f := WideF(sp, p.r, keys[4 * i], keys[4 * i + 1]);
    LowF(sp, p.r, keys[4 * i], keys[4 * i + 1]);
    LowLong(p.l, f);
    var l := Xor(p.l, Long(f));
    LowF(sp, l, keys[4 * i + 2], keys[4 * i + 3]);
    LowLong(p.r, WideF(sp, l, keys[4 * i + 2], keys[4 * i + 3]));
  }

  lemma {:induction false} LowRounds(sp: seq<seq<word>>, p: Wide, keys: seq<long>, n: nat)
    requires Boxes(sp) && |keys| == 32 && n <= 8 && Clean(p.l) && Clean(p.r)
    ensures LowOf(WideRounds(sp, p, keys, n)) == Rounds(sp, LowOf(p), LowKeys(keys), n)
    ensures var q := WideRounds(sp, p, keys, n);
            Clean(q.l) && Clean(q.r)
  {
    hide Low, Clean, WideTwoRounds, TwoRounds, Boxes;
    if n > 0 {
      LowRounds(sp, p, keys, n - 1);
      LowTwoRounds(sp, WideRounds(sp, p, keys, n - 1), keys, n - 1);
    }
  }

  function WideCrypt(sp: seq<seq<word>>, p: Wide, keys: seq<long>): Wide
    requires Boxes(sp) && |keys| == 32
  {
    WideClose(WideRounds(sp, WideOpen(p), keys, 8))
  }

  /** desfunc on 64-bit longs is desfunc on their low words. */
  lemma LowCrypt(sp: seq<seq<word>>, p: Wide, keys: seq<long>)
    requires Boxes(sp) && |keys| == 32
    ensures LowOf(WideCrypt(sp, p, keys)) == Crypt(sp, LowOf(p), LowKeys(keys))
  {
    LowOpen(p);
    LowRounds(sp, WideOpen(p), keys, 8);
    LowClose(WideRounds(sp, WideOpen(p), keys, 8));
    hide Low, Clean, WideOpen, Open, WideClose, Close, WideRounds, Rounds, Boxes;
  }
}
