/** src/timespec.c: normalisation, comparison, subtraction and the remainder of
    (seconds, nanoseconds) pairs whose fields are 64-bit longs. */
module Timespec {
  import opened Radix

  const LONG_MAX: int := 0x7FFF_FFFF_FFFF_FFFF
  const HALF: int := 0x3FFF_FFFF_FFFF_FFFF
  const NSEC: int := 1_000_000_000

  type Long = x: int | -LONG_MAX - 1 <= x <= LONG_MAX

  datatype Time = Time(sec: Long, nsec: Long)

  /** The nanoseconds that a pair stands for. */
  function Value(t: Time): int { t.sec * NSEC + t.nsec }

  predicate InLong(x: int) { -LONG_MAX - 1 <= x <= LONG_MAX }

  /** The whole seconds of a pair, rounded down. */
  function Seconds(t: Time): int { Value(t) / NSEC }

  /** The pair of the same value with nanoseconds in [0, NSEC). */
  function Normal(t: Time): (r: Time)
    requires InLong(Seconds(t))
    ensures Value(r) == Value(t) && 0 <= r.nsec < NSEC
  {
    DivMod(Value(t), NSEC);
    Time(Seconds(t), Value(t) % NSEC)
  }

  /** There is only one such pair. */
  lemma NormalUnique(t: Time, u: Time)
    requires Value(u) == Value(t) && 0 <= u.nsec < NSEC
    ensures InLong(Seconds(t)) && Normal(t) == u
  {
    DivModUnique(u.sec, u.nsec, NSEC);
  }

  /** timespec_normalise; the seconds must fit. */
  method Normalise(t: Time) returns (r: Time)
    requires InLong(Seconds(t))
    ensures r == Normal(t)
  {
    DivMod(Value(t), NSEC);
    r := t;
    while r.nsec >= NSEC
      invariant Value(r) == Value(t) && (r.nsec < 0 ==> r == t) && (r.sec > t.sec ==> r.nsec >= 0)
    {
      r := Time(r.sec + 1, r.nsec - NSEC);
    }
    while r.nsec <= -NSEC
      invariant Value(r) == Value(t) && r.nsec < NSEC
    {
      r := Time(r.sec - 1, r.nsec + NSEC);
    }
    if r.nsec < 0 {
      r := Time(r.sec - 1, NSEC + r.nsec);
    }
    NormalUnique(t, r);
  }

  /** timespec_ge: comparing the normalised fields compares the values. */
  function Ge(a: Time, b: Time): (r: bool)
    requires InLong(Seconds(a)) && InLong(Seconds(b))
    ensures r <==> Value(a) >= Value(b)
  {
    var x, y := Normal(a), Normal(b);
    x.sec > y.sec || (x.sec == y.sec && x.nsec >= y.nsec)
  }

  /** timespec_sub; the difference must fit. */
  function Sub(a: Time, b: Time): (r: Time)
    requires InLong(Seconds(a)) && InLong(Seconds(b)) && InLong(Seconds(a) - Seconds(b))
    requires InLong((Value(a) - Value(b)) / NSEC)
    ensures Value(r) == Value(a) - Value(b) && 0 <= r.nsec < NSEC
  {
    var x, y := Normal(a), Normal(b);
    Normal(Time(x.sec - y.sec, x.nsec - y.nsec))
  }

  // ----- the remainder

  /** The remainder that takes the sign of the divisor. */
  function FlooredMod(a: int, b: int): (m: int)
    requires b != 0
    ensures if b > 0 then 0 <= m < b else b < m <= 0
  {
    if b > 0 then a % b else -((-a) % (-b))
  }

  lemma FlooredModUnique(a: int, b: int, q: int, m: int)
    requires b != 0 && a == q * b + m && (if b > 0 then 0 <= m < b else b < m <= 0)
    ensures FlooredMod(a, b) == m
  {
    if b > 0 {
      DivModUnique(q, m, b);
    } else {
      assert q * -b == -(q * b);
      DivModUnique(q, -m, -b);
    }
  }

  function Abs(x: int): nat { if x < 0 then -x else x }

  /** A pair of unbounded integers: what the divisor's fields would become. */
  datatype Wide = Wide(sec: int, nsec: int)

  function WideValue(w: Wide): int { w.sec * NSEC + w.nsec }

  /** The divisor once its sign is gone.  Both fields of a negative divisor are
      negated, so its nanoseconds may come out negative. */
  function Unsigned(b: Time): Wide
    requires InLong(Seconds(b))
  {
    var sec: int, nsec: int := Normal(b).sec, Normal(b).nsec;
    if sec < 0 then Wide(-sec, -nsec) else Wide(sec, nsec)
  }

  function Double(w: Wide): Wide {
    if 2 * w.nsec > NSEC then Wide(2 * w.sec + 1, 2 * w.nsec - NSEC) else Wide(2 * w.sec, 2 * w.nsec)
  }

  /** The fields after k doublings. */
  function Doubled(w: Wide, k: nat): Wide {
    if k == 0 then w else Double(Doubled(w, k - 1))
  }

  /** The test of the doubling loop. */
  predicate Doubles(a: nat, w: Wide) { w.sec < HALF && WideValue(w) <= a }

  /** The nanoseconds of a negative, fractional divisor are doubled without a carry
      until they leave the long. */
  ghost predicate NsecOverflows(a: nat, w: Wide) {
    exists k: nat :: Doubles(a, Doubled(w, k)) && !InLong(Double(Doubled(w, k)).nsec)
  }

  /** The doubling stops for want of room while the dividend still is too large
      for the subtractions to come. */
  ghost predicate StopsShort(a: int, b: int, w: Wide) {
    exists k: nat :: Doubled(w, k).sec >= HALF
             && (2 * WideValue(Doubled(w, k)) < Abs(a)
                 || (2 * WideValue(Doubled(w, k)) == Abs(a) && (a < 0 <==> b < 0)))
  }

  /** Every value that the computation goes through fits a long: the normalised
      fields, their negations, the doubled divisor and the negated result. */
  ghost predicate Fits(a: Time, b: Time) {
    && InLong(Seconds(a)) && InLong(Seconds(b))
    && (Value(b) != 0 ==>
          && InLong(-Seconds(a)) && InLong(-Seconds(b))
          && !NsecOverflows(Abs(Value(a)), Unsigned(b))
          && !(Value(a) < 0 < Value(b) && Seconds(b) == LONG_MAX
               && 0 < Abs(Value(a)) % Value(b) < Normal(b).nsec))
  }

  lemma {:induction false} DoubledValue(w: Wide, k: nat)
    ensures WideValue(Doubled(w, k)) == WideValue(w) * Pow(2, k)
  {
    if k > 0 { DoubledValue(w, k - 1); }
  }

  /** The shape of the divisor's fields. */
  predicate Shaped(w: Wide) {
    w.sec >= 0 && w.nsec <= NSEC && WideValue(w) > 0
  }

  lemma {:induction false} DoubledShape(w: Wide, k: nat)
    requires Shaped(w)
    ensures Shaped(Doubled(w, k)) && (w.nsec >= 0 ==> Doubled(w, k).nsec >= 0)
  {
    if k > 0 { DoubledShape(w, k - 1); }
  }

  lemma {:induction false} DoubledMono(w: Wide, j: nat, k: nat)
    requires Shaped(w) && j <= k
    ensures Doubled(w, j).sec <= Doubled(w, k).sec && WideValue(Doubled(w, j)) <= WideValue(Doubled(w, k))
    ensures j < k ==> 2 * WideValue(Doubled(w, j)) <= WideValue(Doubled(w, k))
    decreases k - j
  {
    if j < k {
      DoubledMono(w, j, k - 1);
      DoubledShape(w, k - 1);
    }
  }

  lemma UnsignedShape(b: Time)
    requires InLong(Seconds(b)) && Value(b) != 0
    ensures Shaped(Unsigned(b)) && WideValue(Unsigned(b)) == Abs(Value(b)) && Unsigned(b).nsec < NSEC
    ensures Unsigned(b).nsec < 0 <==> Value(b) < 0 && Value(b) % NSEC != 0
  {
    DivMod(Value(b), NSEC);
  }

  /** A magnitude whose seconds fit. */
  predicate Magnitude(t: Time) { 0 <= Value(t) < (LONG_MAX + 1) * NSEC }

  /** Fields that can be negated and are zero when their value is. */
  predicate Negatable(t: Time) { -LONG_MAX <= t.sec && -NSEC < t.nsec < NSEC }

  /** A pair without its sign. */
  lemma SignOf(t: Time)
    requires InLong(Seconds(t))
    ensures Normal(t).sec < 0 <==> Value(t) < 0
    ensures Normal(t).sec == 0 == Normal(t).nsec <==> Value(t) == 0
    ensures Normal(t).sec >= -LONG_MAX ==>
              var u := if Value(t) < 0 then Time(-Normal(t).sec, -Normal(t).nsec) else Normal(t);
              Magnitude(u) && Negatable(u)
  {
  }

  lemma MagnitudeFits(t: Time)
    requires Magnitude(t)
    ensures 0 <= Seconds(t) <= LONG_MAX
  {
    DivMod(Value(t), NSEC);
  }

  lemma DifferenceFits(a: Time, b: Time)
    requires Magnitude(a) && Magnitude(b)
    ensures 0 <= Seconds(a) <= LONG_MAX && 0 <= Seconds(b) <= LONG_MAX && InLong((Value(a) - Value(b)) / NSEC)
  {
    MagnitudeFits(a);
    MagnitudeFits(b);
    DivMod(Value(a) - Value(b), NSEC);
  }

  /** The doubling loop: it stops at the first doubling that is larger than the
      dividend or has no room left. */
  method ShiftUp(a: Time, b0: Time) returns (b: Time, i: nat)
    requires Magnitude(a) && Magnitude(b0) && Shaped(Wide(b0.sec, b0.nsec))
    requires !NsecOverflows(Value(a), Wide(b0.sec, b0.nsec))
    ensures var w := Wide(b0.sec, b0.nsec);
            && Magnitude(b) && Wide(b.sec, b.nsec) == Doubled(w, i) && !Doubles(Value(a), Doubled(w, i))
            && forall j: nat :: j < i ==> Doubles(Value(a), Doubled(w, j))
  {
    ghost var w := Wide(b0.sec, b0.nsec);
    MagnitudeFits(a);
    MagnitudeFits(b0);
    b, i := b0, 0;
    while b.sec < HALF && Ge(a, b)
      invariant Magnitude(b) && InLong(Seconds(b))
      invariant Wide(b.sec, b.nsec) == Doubled(w, i) && Shaped(Doubled(w, i))
      invariant forall j: nat :: j < i ==> Doubles(Value(a), Doubled(w, j))
      decreases Value(a) + Value(a) - Value(b)
    {
      assert InLong(Double(Doubled(w, i)).nsec);
      DoubledShape(w, i + 1);
      i := i + 1;
      var nsec: int, sec: int := b.nsec * 2, b.sec * 2;
      if nsec > NSEC {
        nsec := nsec - NSEC;
        sec := sec + 1;
      }
      b := Time(sec, nsec);
      MagnitudeFits(b);
    }
  }

  /** The subtraction loop i halvings from its end: the divisor is worth unit*2^i,
      q*unit has been taken off, and the dividend is below twice the divisor if it
      was so at the start. */
  ghost predicate Level(a0: int, b0: int, a: int, b: int, unit: nat, i: nat, q: nat) {
    && b == unit * Pow(2, i) && a0 == q * unit + a
    && (if a0 < 2 * b0 then a < 2 * b else a - 2 * b == a0 - 2 * b0)
  }

  /** One round of the loop: subtract when possible, then halve. */
  lemma LevelDown(a0: int, b0: int, a: int, b: int, unit: nat, i: nat, q: nat, half: int)
    requires Level(a0, b0, a, b, unit, i, q) && i > 0 && 2 * half == b
    ensures if a >= b then Level(a0, b0, a - b, half, unit, i - 1, q + Pow(2, i)) else Level(a0, b0, a, half, unit, i - 1, q)
  {
    PowHalf(unit, i);
    hide Pow;
    Distribute(q, Pow(2, i), unit);
  }

  lemma PowHalf(unit: nat, i: nat)
    requires i > 0
    ensures unit * Pow(2, i) == 2 * (unit * Pow(2, i - 1))
  {
    var p := Pow(2, i - 1);
    Associate(unit, 2, p);
    Associate(2, unit, p);
  }

  /** The last round, which does not halve. */
  lemma LevelEnd(a0: int, b0: int, a: int, b: int, unit: nat, q: nat)
    requires Level(a0, b0, a, b, unit, 0, q)
    ensures b == unit
    ensures var (a', q') := if a >= b then (a - b, q + Pow(2, 0)) else (a, q);
            && a0 == q' * unit + a'
            && (if a0 < 2 * b0 then a' < unit else a' - 2 * unit == a0 - 2 * b0 - unit)
  {
    Distribute(q, 1, unit);
  }

  /** Undoing a doubling. */
  lemma Halved(b: Time, v: int)
    requires Value(b) == 2 * v && b.sec >= 0 && b.nsec <= NSEC && v >= 0
    ensures var nsec: int := if b.sec % 2 == 1 then b.nsec + NSEC else b.nsec;
            InLong(nsec) && InLong(nsec / 2) && nsec / 2 <= NSEC && (b.sec / 2) * NSEC + nsec / 2 == v
  {
  }

  lemma LevelEven(a0: int, b0: int, a: int, b: int, unit: nat, i: nat, q: nat) returns (half: nat)
    requires Level(a0, b0, a, b, unit, i, q) && i > 0
    ensures b == 2 * half
  {
    PowHalf(unit, i);
    half := unit * Pow(2, i - 1);
  }

  /** Takes the divisor off when that is possible. */
  method SubtractOnce(a0: Time, b: Time) returns (a: Time, ghost took: bool)
    requires Magnitude(a0) && Negatable(a0) && Magnitude(b)
    ensures took <==> Value(a0) >= Value(b)
    ensures Magnitude(a) && Negatable(a) && Value(a) == if took then Value(a0) - Value(b) else Value(a0)
    ensures if took then InSecond(a.nsec) else a == a0
  {
    DifferenceFits(a0, b);
    a, took := a0, false;
    if Ge(a, b) {
      a := Sub(a, b);
      took := true;
    }
  }

  /** The subtraction loop: it takes off multiples of the divisor, one for every
      doubling at most. */
  method SubtractDown(a0: Time, b0: Time, i0: nat, ghost unit: nat) returns (a: Time, b: Time, ghost q: nat)
    requires Magnitude(a0) && Negatable(a0) && Magnitude(b0) && b0.sec >= 0 && b0.nsec <= NSEC
    requires Value(b0) == unit * Pow(2, i0)
    ensures Magnitude(a) && Negatable(a) && Magnitude(b) && Value(b) == unit && Value(a0) == q * unit + Value(a)
    ensures if Value(a0) < 2 * Value(b0) then Value(a) < unit
            else Value(a) == Value(a0) - 2 * Value(b0) + unit
    ensures if q == 0 then a == a0 else InSecond(a.nsec)
  {
    LevelStart(Value(a0), Value(b0), unit, i0);
    hide Pow, Level;
    a, b, q := a0, b0, 0;
    var i: int := i0;
    while i >= 0
      invariant 0 <= i && Magnitude(a) && Negatable(a) && Magnitude(b) && b.sec >= 0 && b.nsec <= NSEC
      invariant Level(Value(a0), Value(b0), Value(a), Value(b), unit, i, q)
      invariant if q == 0 then a == a0 else InSecond(a.nsec)
    {
      ghost var was, q0 := Value(a), q;
      ghost var took;
      a, took := SubtractOnce(a, b);
      if took {
        q := q + Pow(2, i);
      }
      if i == 0 {
        LevelEnd(Value(a0), Value(b0), was, Value(b), unit, q0);
        break;
      }
      ghost var half := LevelEven(Value(a0), Value(b0), was, Value(b), unit, i, q0);
      LevelDown(Value(a0), Value(b0), was, Value(b), unit, i, q0, half);
      Halved(b, half);
      i := i - 1;
      var nsec: int := b.nsec;
      if b.sec % 2 == 1 {
        nsec := nsec + NSEC;
      }
      b := Time(b.sec / 2, nsec / 2);
    }
  }

  lemma LevelStart(a: int, b: int, unit: nat, i: nat)
    requires b == unit * Pow(2, i)
    ensures Level(a, b, a, b, unit, i, 0)
  {
  }

  /** Where the doubling stopped tells whether it stopped short. */
  lemma StoppedShort(a: int, b: int, w: Wide, i: nat)
    requires Shaped(w) && !Doubles(Abs(a), Doubled(w, i))
    requires forall j: nat :: j < i ==> Doubles(Abs(a), Doubled(w, j))
    ensures var v := 2 * WideValue(Doubled(w, i));
            StopsShort(a, b, w) <==> v < Abs(a) || (v == Abs(a) && (a < 0 <==> b < 0))
  {
    forall k: nat | Doubled(w, k).sec >= HALF
      ensures k >= i && WideValue(Doubled(w, k)) >= WideValue(Doubled(w, i))
      ensures k > i ==> WideValue(Doubled(w, k)) >= 2 * WideValue(Doubled(w, i))
    {
      if k >= i { DoubledMono(w, i, k); }
    }
    DoubledShape(w, i);
  }

  /** The signed remainder from the unsigned one. */
  lemma SignedRemainder(a: int, b: int, q: int, m: int)
    requires b != 0 && Abs(a) == q * Abs(b) + m && m >= 0
    ensures var n := if (a < 0) != (b < 0) && m != 0 then m - Abs(b) else m;
            var r := if a < 0 then -n else n;
            && (m < Abs(b) ==> r == FlooredMod(a, b))
            && (m >= Abs(b) ==> (r == FlooredMod(a, b) <==> m == Abs(b) && (a < 0) != (b < 0)))
  {
    var n := if (a < 0) != (b < 0) && m != 0 then m - Abs(b) else m;
    var r := if a < 0 then -n else n;
    var p := if n == m then q else q + 1;
    assert Abs(a) == p * Abs(b) + n by { Distribute(q, 1, Abs(b)); }
    var s := if (a < 0) == (b < 0) then p else -p;
    assert a == s * b + r;
    if m < Abs(b) || (m == Abs(b) && (a < 0) != (b < 0)) { FlooredModUnique(a, b, s, r); }
  }

  /** The seconds of the result can be negated, apart from one case at the edge. */
  lemma LastNegation(a: int, b: Time, q: int, m: int)
    requires InLong(Seconds(b)) && Value(b) > 0 && Abs(a) == q * Value(b) + m && m > 0
    requires !(a < 0 && Seconds(b) == LONG_MAX && 0 < Abs(a) % Value(b) < Normal(b).nsec)
    requires a < 0
    ensures (m - Value(b)) / NSEC >= -LONG_MAX
  {
    var n := m - Value(b);
    DivMod(n, NSEC);
    if m < Value(b) { DivModUnique(q, m, Value(b)); }
  }

  /** What follows the loops: cross zero when the signs differ, and restore the sign. */
  method RestoreSign(m: Time, b: Time, neg1: bool, neg2: bool) returns (r: Time)
    requires Magnitude(m) && Negatable(m) && Magnitude(b)
    requires neg1 && !neg2 && Value(m) != 0 ==> (Value(m) - Value(b)) / NSEC >= -LONG_MAX
    ensures var n := if neg1 != neg2 && Value(m) != 0 then Value(m) - Value(b) else Value(m);
            Value(r) == if neg1 then -n else n
    ensures var s: int := if neg1 then 0 - r.nsec as int else r.nsec as int;
            if neg1 != neg2 && Value(m) != 0 then InSecond(s) else s == m.nsec
  {
    r := m;
    if neg1 != neg2 && (m.sec != 0 || m.nsec != 0) {
      DifferenceFits(m, b);
      r := Sub(m, b);
    }
    if neg1 {
      r := Time(-r.sec, -r.nsec);
    }
  }

  /** Nanoseconds of a normalised pair. */
  predicate InSecond(nsec: int) { 0 <= nsec < NSEC }

  /** The form of a remainder: it has the nanoseconds of a normalised pair, or for a negative
      dividend the negation of such, unless that dividend is already the remainder. */
  predicate Shape(r: Time, a: int, b: int) {
    if a >= 0 || b == 0 || (b < 0 && Abs(a) < Abs(b)) then InSecond(r.nsec) else InSecond(0 - r.nsec as int)
  }

  /** timespec_mod.  When every value fits, the result is worth the floored
      remainder exactly when the doubling does not stop short. */
  method Mod(ts1: Time, ts2: Time) returns (a: Time)
    requires Fits(ts1, ts2)
    ensures Value(ts2) == 0 ==> a == Normal(ts1)
    ensures Value(ts2) != 0 ==>
              (Value(a) == FlooredMod(Value(ts1), Value(ts2))
               <==> !StopsShort(Value(ts1), Value(ts2), Unsigned(ts2)))
    ensures Shape(a, Value(ts1), Value(ts2))
  {
    hide StopsShort, NsecOverflows, FlooredMod, Doubled;
    a := Normalise(ts1);
    var b := Normalise(ts2);
    SignOf(ts2);
    if b.sec == 0 && b.nsec == 0 {
      return a;
    }
    var neg1, neg2;
    neg1, a := DropSign(a, ts1);
    neg2, b := DropSign(b, ts2);
    a := DivideOut(a, b, neg1, neg2, ts1, ts2);
  }

  /** The part of timespec_mod behind the signs. */
  method DivideOut(m: Time, d: Time, neg1: bool, neg2: bool, ghost ts1: Time, ghost ts2: Time) returns (a: Time)
    requires Fits(ts1, ts2) && Value(ts2) != 0 && (neg1 <==> Value(ts1) < 0) && (neg2 <==> Value(ts2) < 0)
    requires Value(m) == Abs(Value(ts1)) && Magnitude(m) && Negatable(m) && InSecond(if neg1 then 0 - m.nsec as int else m.nsec as int)
    requires Value(d) == Abs(Value(ts2)) && Magnitude(d) && Negatable(d) && d == Time(Unsigned(ts2).sec, Unsigned(ts2).nsec)
    ensures Value(a) == FlooredMod(Value(ts1), Value(ts2)) <==> !StopsShort(Value(ts1), Value(ts2), Unsigned(ts2))
    ensures Shape(a, Value(ts1), Value(ts2))
  {
    ghost var w := Unsigned(ts2);
    UnsignedShape(ts2);
    FitsParts(ts1, ts2);
    hide *;
    var b;
    ghost var q, top;
    a, b, q, top := DivideLoops(m, d, w, Value(ts1), Value(ts2));
    SignedRemainder(Value(ts1), Value(ts2), q, Value(a));
    if neg1 && !neg2 && Value(a) != 0 { LastNegation(Value(ts1), ts2, q, Value(a)); }
    ghost var rest := a;
    a := RestoreSign(a, b, neg1, neg2);
    ShapeIs(Value(ts1), Value(ts2), m, rest, a, q, top);
  }

  lemma FitsParts(a: Time, b: Time)
    requires Fits(a, b) && Value(b) != 0
    ensures InLong(Seconds(b)) && !NsecOverflows(Abs(Value(a)), Unsigned(b))
    ensures !(Value(a) < 0 < Value(b) && Seconds(b) == LONG_MAX && 0 < Abs(Value(a)) % Value(b) < Normal(b).nsec)
  {
  }

  /** The doubling and the subtraction. */
  method DivideLoops(m: Time, d: Time, ghost w: Wide, ghost v1: int, ghost v2: int) returns (a: Time, b: Time, ghost q: nat, ghost top: int)
    requires v2 != 0 && Value(m) == Abs(v1) && Magnitude(m) && Negatable(m)
    requires Value(d) == Abs(v2) == WideValue(w) && Magnitude(d) && w == Wide(d.sec, d.nsec) && Shaped(w) && w.nsec < NSEC
    requires !NsecOverflows(Abs(v1), w)
    ensures Magnitude(a) && Negatable(a) && Magnitude(b) && Value(b) == Abs(v2) && Abs(v1) == q * Abs(v2) + Value(a)
    ensures if q == 0 then a == m else InSecond(a.nsec)
    ensures top >= Abs(v2) && (if Abs(v1) < 2 * top then Value(a) < Abs(v2) else Value(a) == Abs(v1) - 2 * top + Abs(v2))
    ensures StopsShort(v1, v2, w) <==> 2 * top < Abs(v1) || (2 * top == Abs(v1) && (v1 < 0 <==> v2 < 0))
  {
    hide StopsShort, NsecOverflows, Doubled, Doubles;
    var i: nat;
    b, i := ShiftUp(m, d);
    StoppedShort(v1, v2, w, i);
    DoubledValue(w, i);
    DoubledShape(w, i);
    top := Value(b);
    TopGrows(Value(d), i);
    hide *;
    a, b, q := SubtractDown(m, b, i, Value(d));
  }

  lemma TopGrows(v: nat, i: nat)
    ensures v * Pow(2, i) >= v
  {
    MulMono(1, Pow(2, i), v);
  }

  lemma ShapeIs(a: int, b: int, m: Time, rest: Time, r: Time, q: nat, top: int)
    requires b != 0 && Value(m) == Abs(a) && Abs(a) == q * Abs(b) + Value(rest) && top >= Abs(b) && Value(rest) >= 0
    requires if Abs(a) < 2 * top then Value(rest) < Abs(b) else Value(rest) == Abs(a) - 2 * top + Abs(b)
    requires InSecond(if a < 0 then 0 - m.nsec as int else m.nsec as int)
    requires if q == 0 then rest == m else InSecond(rest.nsec)
    requires var s: int := if a < 0 then 0 - r.nsec as int else r.nsec as int;
             if (a < 0) != (b < 0) && Value(rest) != 0 then InSecond(s) else s == rest.nsec
    ensures Shape(r, a, b)
  {
    if q > 0 {
      MulMono(1, q, Abs(b));
    }
  }

  /** A normalised pair that is negative changes its sign. */
  method DropSign(n: Time, ghost t: Time) returns (neg: bool, u: Time)
    requires InLong(Seconds(t)) && InLong(-Seconds(t)) && n == Normal(t)
    ensures neg <==> Value(t) < 0
    ensures Value(u) == Abs(Value(t)) && Magnitude(u) && Negatable(u)
    ensures u == Time(Unsigned(t).sec, Unsigned(t).nsec) && InSecond(if neg then 0 - u.nsec as int else u.nsec as int)
  {
    SignOf(t);
    neg, u := false, n;
    if n.sec < 0 || n.nsec < 0 {
      neg := true;
      u := Time(-n.sec, -n.nsec);
    }
  }

  // ----- when the remainder is right

  /** Positive divisors and whole negative seconds, with room to negate the result. */
  predicate OrdinaryDivisor(b: Time) {
    Value(b) != 0 && -LONG_MAX <= Seconds(b) < LONG_MAX && (Value(b) < 0 ==> Value(b) % NSEC == 0)
  }

  /** For these, and dividends of at most LONG_MAX - 2 seconds, nothing overflows
      and the remainder is the floored one. */
  lemma OrdinaryRemainder(a: Time, b: Time)
    requires OrdinaryDivisor(b) && Abs(Value(a)) < (LONG_MAX - 1) * NSEC
    ensures Fits(a, b) && !StopsShort(Value(a), Value(b), Unsigned(b))
  {
    var w := Unsigned(b);
    DivMod(Value(a), NSEC);
    UnsignedShape(b);
    forall k: nat
      ensures InLong(Double(Doubled(w, k)).nsec)
      ensures Doubled(w, k).sec >= HALF ==> 2 * WideValue(Doubled(w, k)) > Abs(Value(a))
    {
      DoubledShape(w, k);
    }
  }

  /** With seconds beyond that the doubling can stop short, as here. */
  lemma LargeDividend() returns (a: Time, b: Time)
    ensures OrdinaryDivisor(b) && a == Time(LONG_MAX, 0) && b == Time(HALF, 0)
    ensures Fits(a, b) && StopsShort(Value(a), Value(b), Unsigned(b))
  {
    a, b := Time(LONG_MAX, 0), Time(HALF, 0);
    NormalUnique(a, a);
    NormalUnique(b, b);
    var w := Unsigned(b);
    assert w == Wide(HALF, 0) && Doubled(w, 0) == w;
    assert Doubled(w, 0).sec >= HALF && 2 * WideValue(Doubled(w, 0)) < Abs(Value(a));
    UnsignedShape(b);
    forall k: nat ensures InLong(Double(Doubled(w, k)).nsec) {
      DoubledShape(w, k);
    }
  }

  /** An overflow that the condition names is one that the loop reaches: it doubles all
      the way to the pair whose nanoseconds no longer fit. */
  lemma OverflowReached(a: nat, w: Wide) returns (k: nat)
    requires Shaped(w) && NsecOverflows(a, w)
    ensures !InLong(Double(Doubled(w, k)).nsec) && forall j: nat :: j <= k ==> Doubles(a, Doubled(w, j))
  {
    k :| Doubles(a, Doubled(w, k)) && !InLong(Double(Doubled(w, k)).nsec);
    hide Doubled, Double;
    forall j: nat | j <= k ensures Doubles(a, Doubled(w, j)) {
      DoubledMono(w, j, k);
    }
  }

  lemma {:induction false} DoubledNegative(w: Wide, k: nat)
    requires w.nsec <= 0
    ensures Doubled(w, k) == Wide(w.sec * Pow(2, k), w.nsec * Pow(2, k)) && Doubled(w, k).nsec <= 0
  {
    if k > 0 { DoubledNegative(w, k - 1); }
  }

  /** Doubling k of s seconds less n nanoseconds still has room and is not larger
      than the dividend, but twice its nanoseconds no longer fit. */
  predicate OverflowsAt(a: nat, s: int, n: int, k: nat) {
    s * Pow(2, k) < HALF && (s * NSEC - n) * Pow(2, k) <= a && n * Pow(2, k) > HALF + 1
  }

  lemma OverflowStep(a: nat, s: int, n: int, k: nat)
    requires 0 < n < NSEC
    ensures Doubles(a, Doubled(Wide(s, -n), k)) && !InLong(Double(Doubled(Wide(s, -n), k)).nsec) <==> OverflowsAt(a, s, n, k)
  {
    var w := Wide(s, -n);
    DoubledNegative(w, k);
    DoubledValue(w, k);
    hide Doubled, Pow;
    NegatedProduct(n, Pow(2, k));
  }

  lemma NegatedProduct(n: int, p: int)
    ensures -n * p == -(n * p)
  {
  }

  /** When a negative, fractional divisor overflows. */
  lemma OverflowExactly(a: nat, s: int, n: int)
    requires 0 < n < NSEC
    ensures NsecOverflows(a, Wide(s, -n)) <==> exists k: nat :: OverflowsAt(a, s, n, k)
  {
    hide OverflowsAt, Doubled, Double, Doubles;
    var w := Wide(s, -n);
    if NsecOverflows(a, w) {
      var k: nat :| Doubles(a, Doubled(w, k)) && !InLong(Double(Doubled(w, k)).nsec);
      OverflowStep(a, s, n, k);
    }
    if k: nat :| OverflowsAt(a, s, n, k) {
      OverflowStep(a, s, n, k);
    }
  }

  /** Twenty seconds modulo minus one nanosecond overflow. */
  lemma FractionalDivisor() returns (a: Time, b: Time)
    ensures a == Time(20, 0) && b == Time(-1, 999_999_999) && Value(b) == -1 && !Fits(a, b)
  {
    a, b := Time(20, 0), Time(-1, 999_999_999);
    DivModUnique(-1, 999_999_999, NSEC);
    OverflowExactly(20 * NSEC, 1, 999_999_999);
    PowTwo33();
    assert OverflowsAt(20 * NSEC, 1, 999_999_999, 33);
    assert Unsigned(b) == Wide(1, -999_999_999);
  }

  lemma PowTwo33()
    ensures Pow(2, 33) == 0x2_0000_0000
  {
    assert Pow(2, 11) == 2048;
    PowAdd(2, 11, 11);
    PowAdd(2, 22, 11);
  }
}
