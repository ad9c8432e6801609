/** What the operations on 32-bit words are on numbers. */
module WordValues {
  import opened Radix

  type word = bv32
  type long = bv64

  const FULL: nat := 0x1_0000_0000

  function Value(w: word): (n: nat)
    ensures n < FULL
  {
    w as nat
  }

  function LongValue(x: long): nat { x as nat }

  function High(x: long): word { (x >> 32) as word }

  function Low(x: long): word { (x & 0xffffffff) as word }

  lemma TwoWords(h: word, l: word)
    ensures (((h as long) << 32) | (l as long)) as nat == (h as nat) * 0x1_0000_0000 + l as nat
  {
  }

  lemma Halves(x: long)
    ensures ((High(x) as long) << 32) | (Low(x) as long) == x
  {
  }

  /** A long word is worth its halves. */
  lemma LongParts(x: long)
    ensures LongValue(x) == Value(High(x)) * FULL + Value(Low(x))
  {
    Halves(x);
    TwoWords(High(x), Low(x));
    hide High, Low;
  }

  function Wide(a: word, b: word): long { a as long + b as long }

  lemma RawSum(a: word, b: word)
    ensures (a as long + b as long) as nat == a as nat + b as nat
  {
  }

  lemma WideSum(a: word, b: word)
    ensures LongValue(Wide(a, b)) == Value(a) + Value(b)
  {
    RawSum(a, b);
  }

  function Plus(a: word, b: word): word { a + b }

  lemma LowSum(a: word, b: word)
    ensures Low(Wide(a, b)) == Plus(a, b)
  {
    calc {
      Low(Wide(a, b));
      ((a as long + b as long) & 0xffffffff) as word;
      { RawLowSum(a, b); }
      a + b;
      Plus(a, b);
    }
  }

  lemma RawLowSum(a: word, b: word)
    ensures ((a as long + b as long) & 0xffffffff) as word == a + b
  {
  }

  /** A sum of words is the sum modulo 2^32. */
  lemma SumValue(a: word, b: word)
    ensures Value(Plus(a, b)) == (Value(a) + Value(b)) % FULL
  {
    LowSum(a, b);
    WideSum(a, b);
    LongParts(Wide(a, b));
    hide *;
    Remainder(Value(a) + Value(b), Value(High(Wide(a, b))), Value(Plus(a, b)));
  }

  lemma Remainder(n: nat, q: nat, r: nat)
    requires n == q * FULL + r && r < FULL
    ensures n % FULL == r && n / FULL == q
  {
  }

  /** Turned left by one place. */
  function TurnOne(w: word): word { (w << 1) | (w >> 31) }

  function Doubled(w: word): long { (w as long) << 1 }

  lemma DoubledValue(w: word)
    ensures LongValue(Doubled(w)) == 2 * Value(w)
  {
    RawDouble(w);
  }

  lemma RawDouble(w: word)
    ensures ((w as long) << 1) as nat == 2 * (w as nat)
  {
  }

  lemma TurnOneHalves(w: word)
    ensures TurnOne(w) == Plus(Low(Doubled(w)), High(Doubled(w)))
  {
  }

  /** Turning by one takes the top bit to the bottom. */
  lemma TurnOneValue(w: word)
    ensures Value(TurnOne(w)) == 2 * Value(w) % FULL + 2 * Value(w) / FULL
  {
    hide *;
    TurnOneHalves(w);
    DoubledValue(w);
    LongParts(Doubled(w));
    var l, h, v := Low(Doubled(w)), High(Doubled(w)), Value(w);
    SumValue(l, h);
    Remainder(2 * v, Value(h), Value(l));
    NoCarry(v, Value(h), Value(l));
  }

  lemma NoCarry(v: nat, h: nat, l: nat)
    requires 2 * v == h * FULL + l && v < FULL && l < FULL
    ensures h <= 1 && (l + h) % FULL == l + h
  {
  }

  /** A number below 2^32 turned left by n places. */
  function Rotated(v: nat, n: nat): nat
    requires n <= 32
  {
    v * Pow(2, n) % FULL + v / Pow(2, 32 - n)
  }

  /** The rotation as it is written in C. */
  function Circular(w: word, n: word): word
    requires 0 < n < 32
  {
    (w << n) | (w >> (32 - n))
  }

  lemma CircularOne(w: word)
    ensures Circular(w, 1) == TurnOne(w)
  {
  }

  lemma RawNext(w: word, n: word)
    requires 0 < n < 31
    ensures (w << (n + 1)) | (w >> (32 - (n + 1))) == (((w << n) | (w >> (32 - n))) << 1) | (((w << n) | (w >> (32 - n))) >> 31)
  {
  }

  lemma CircularNext(w: word, n: word)
    requires 0 < n < 31
    ensures Circular(w, n + 1) == TurnOne(Circular(w, n))
  {
    calc {
      Circular(w, n + 1);
      (w << (n + 1)) | (w >> (32 - (n + 1)));
      { RawNext(w, n); }
      (((w << n) | (w >> (32 - n))) << 1) | (((w << n) | (w >> (32 - n))) >> 31);
      TurnOne((w << n) | (w >> (32 - n)));
    }
  }

  /** One more place. */
  lemma RotatedNext(v: nat, n: nat)
    requires v < FULL && 0 < n < 31
    ensures Rotated(v, n) < FULL
    ensures Rotated(v, n + 1) == 2 * Rotated(v, n) % FULL + 2 * Rotated(v, n) / FULL
  {
    var p, q := Pow(2, n), Pow(2, 31 - n);
    PowersMeet(n);
    assert Pow(2, 32 - n) == 2 * q && Pow(2, n + 1) == 2 * p;
    hide Pow;
    RotatedParts(v, p, q);
  }

  lemma PowersMeet(n: nat)
    requires n <= 31
    ensures Pow(2, n) * (2 * Pow(2, 31 - n)) == 2 * (Pow(2, n) * Pow(2, 31 - n)) == FULL
  {
    ThirtyOne();
    hide Pow;
    PowAdd(2, n, 31 - n);
    Doubles(Pow(2, n), Pow(2, 31 - n));
  }

  lemma ThirtyOne()
    ensures Pow(2, 31) == 0x8000_0000
  {
    assert Pow(2, 4) == 16 && Pow(2, 3) == 8;
    hide Pow;
    PowAdd(2, 4, 4);
    PowAdd(2, 4, 3);
    PowAdd(2, 8, 8);
    PowAdd(2, 8, 7);
    PowAdd(2, 16, 15);
  }

  lemma Doubles(p: nat, q: nat)
    ensures p * (2 * q) == 2 * (p * q)
  {
  }

  lemma RotatedParts(v: nat, p: nat, q: nat)
    requires v < FULL && p > 0 && q > 0 && p * (2 * q) == 2 * (p * q) == FULL
    ensures var r := v * p % FULL + v / (2 * q);
            r < FULL && v * (2 * p) % FULL + v / q == 2 * r % FULL + 2 * r / FULL
  {
    var h, l := v / (2 * q), v % (2 * q);
    DivMod(v, 2 * q);
    var b, m := l / q, l % q;
    DivMod(l, q);
    assert h < p by { if h >= p { MulMono(p, h, 2 * q); } }
    assert b <= 1 by { if b >= 2 { MulMono(2, b, q); } }
    TopBit(v, p, q, h, b, m, l);
  }

  /** The turned number is l * p + h, and b its top bit. */
  lemma TopBit(v: nat, p: nat, q: nat, h: nat, b: nat, m: nat, l: nat)
    requires v == h * (2 * q) + l && l == b * q + m && m < q && b <= 1 && h < p && q > 0
    requires p * (2 * q) == 2 * (p * q) == FULL
    ensures var r := v * p % FULL + v / (2 * q);
            r < FULL && v * (2 * p) % FULL + v / q == 2 * r % FULL + 2 * r / FULL
  {
    var mp := m * p;
    Products(v, p, q, h, b, m, l);
    assert l < 2 * q;
    DivModUnique(h, l, 2 * q);
    assert v == (2 * h + b) * q + m by { Distribute(2 * h, b, q); Associate(h, 2, q); }
    DivModUnique(2 * h + b, m, q);
    Residues(v * p, v * (2 * p), l * p, mp, p, h, b);
  }

  lemma Products(v: nat, p: nat, q: nat, h: nat, b: nat, m: nat, l: nat)
    requires v == h * (2 * q) + l && l == b * q + m && m < q && q > 0 && p * (2 * q) == 2 * (p * q) == FULL
    ensures l * p == b * (p * q) + m * p && m * p <= p * q - p
    ensures v * p == h * FULL + l * p && v * (2 * p) == 2 * (v * p)
  {
    Distribute(b * q, m, p);
    Associate(b, q, p);
    MulMono(m, q - 1, p);
    Distribute(q, -1, p);
    Distribute(h * (2 * q), l, p);
    Associate(h, 2 * q, p);
  }

  lemma Residues(vp: nat, vpp: nat, lp: nat, mp: nat, p: nat, h: nat, b: nat)
    requires lp == b * 0x8000_0000 + mp && mp + p <= 0x8000_0000 && vp == h * FULL + lp && vpp == 2 * vp && b <= 1 && h < p
    ensures var r := vp % FULL + h;
            r < FULL && vpp % FULL + (2 * h + b) == 2 * r % FULL + 2 * r / FULL
  {
    DivModUnique(h, lp, FULL);
    DivModUnique(2 * h + b, 2 * mp, FULL);
    DivModUnique(b, 2 * mp + 2 * h, FULL);
  }

  /** The rotation is the one on numbers. */
  lemma {:induction false} CircularValue(w: word, n: word)
    requires 0 < n < 32
    ensures 0 < Value(n) < 32 && Value(Circular(w, n)) == Rotated(Value(w), Value(n))
    decreases n
  {
    CountBound(n);
    if n == 1 {
      CircularOne(w);
      TurnOneValue(w);
      RotatedOne(Value(w));
    } else {
      Before(n);
      CircularValue(w, n - 1);
      CircularNext(w, n - 1);
      TurnOneValue(Circular(w, n - 1));
      RotatedNext(Value(w), Value(n - 1));
    }
  }

  lemma CountBound(n: word)
    requires 0 < n < 32
    ensures 0 < Value(n) < 32
  {
    RawBound(n);
  }

  lemma RawBound(n: word)
    requires 0 < n < 32
    ensures 0 < n as nat < 32
  {
  }

  lemma RawBefore(n: word)
    requires 1 < n < 32
    ensures (n - 1) as nat == n as nat - 1
  {
  }

  lemma Before(n: word)
    requires 1 < n < 32
    ensures Value(n - 1) == Value(n) - 1
  {
    RawBefore(n);
  }

  lemma RotatedOne(v: nat)
    requires v < FULL
    ensures Rotated(v, 1) == 2 * v % FULL + 2 * v / FULL
  {
    ThirtyOne();
    assert Pow(2, 1) == 2;
  }
}
