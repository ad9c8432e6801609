/** Positional number systems: the values that digit strings stand for, and the
    shortest digit string of a value.  Both base conversions of the library are
    specified with these functions. */
module Radix {

  type Byte = x: int | 0 <= x < 256

  function Pow(b: nat, e: nat): (p: nat)
    ensures b > 0 ==> p > 0
  {
    if e == 0 then 1 else b * Pow(b, e - 1)
  }

  predicate Digits(s: seq<int>, b: nat) {
    forall i :: 0 <= i < |s| ==> 0 <= s[i] < b
  }

  /** The value of `s` with its most significant digit first. */
  function Big(s: seq<int>, b: nat): int {
    if s == [] then 0 else Big(s[..|s| - 1], b) * b + s[|s| - 1]
  }

  /** The value of `s` with its least significant digit first. */
  function Little(s: seq<int>, b: nat): int {
    if s == [] then 0 else Little(s[..|s| - 1], b) + s[|s| - 1] * Pow(b, |s| - 1)
  }

  /** The shortest most-significant-first digit string of `n`; empty for zero. */
  function ToBase(n: nat, b: nat): (s: seq<int>)
    requires 2 <= b
    ensures Digits(s, b)
    decreases n
  {
    if n == 0 then [] else
      DivShrinks(n, b);
      ToBase(n / b, b) + [n % b]
  }

  function Reverse<T>(s: seq<T>): (r: seq<T>)
    ensures |r| == |s| && forall i :: 0 <= i < |s| ==> r[i] == s[|s| - 1 - i]
  {
    seq(|s|, i requires 0 <= i < |s| => s[|s| - 1 - i])
  }

  predicate NoLeadingZero(s: seq<int>) {
    s != [] ==> s[0] != 0
  }

  /** The length of the run of `x` that `s` starts with. */
  function LeadingRun(s: seq<int>, x: int): (n: nat)
    ensures n <= |s| && (forall i :: 0 <= i < n ==> s[i] == x) && (n < |s| ==> s[n] != x)
  {
    if s != [] && s[0] == x then 1 + LeadingRun(s[1..], x) else 0
  }

  function Repeat(x: int, n: nat): (s: seq<int>)
    ensures |s| == n && forall i :: 0 <= i < n ==> s[i] == x
  {
    seq(n, _ => x)
  }

  // ----- arithmetic

  lemma AsByte(n: nat)
    requires n < 256
    ensures (n as bv8) as nat == n
  {
    assert n % 256 == n;
  }

  lemma Distribute(x: int, y: int, p: int)
    ensures (x + y) * p == x * p + y * p
  {
  }

  lemma Associate(x: int, y: int, p: int)
    ensures x * (y * p) == (x * y) * p
  {
  }

  lemma DivShrinks(n: nat, b: nat)
    requires n > 0 && b >= 2
    ensures 0 <= n / b < n
  {
    DivMod(n, b);
    var q := n / b;
    if q >= n { MulMono(n, q, b); }
    if q < 0 { MulMono(q, -1, b); }
  }

  lemma DivMod(n: int, b: nat)
    requires b > 0
    ensures n == (n / b) * b + n % b && 0 <= n % b < b
  {
  }

  lemma MulMono(x: int, y: int, k: nat)
    requires x <= y
    ensures x * k <= y * k
  {
  }

  /** Quotient and remainder are determined by the division equation. */
  lemma DivModUnique(q: int, r: int, b: nat)
    requires 0 <= r < b
    ensures (q * b + r) / b == q && (q * b + r) % b == r
  {
    var n := q * b + r;
    DivMod(n, b);
    var q', r' := n / b, n % b;
    assert (q - q') * b == r' - r by { assert q * b - q' * b == (q - q') * b; }
    if q > q' { MulMono(1, q - q', b); }
    if q < q' { MulMono(q - q', -1, b); }
  }

  lemma DivDiv(w: int, a: nat, p: nat)
    requires w >= 0 && a > 0 && p > 0
    ensures a * p > 0 && (w / a) / p == w / (a * p)
  {
    var q, r := w / a, w % a;
    DivMod(w, a);
    var q', r' := q / p, q % p;
    DivMod(q, p);
    MulMono(1, a, p);
    Associate(q', p, a);
    Distribute(q' * p, r', a);
    MulMono(r', p - 1, a);
    MulMono(0, r', a);
    assert (p - 1) * a == a * p - a;
    DivModUnique(q', r' * a + r, a * p);
  }

  lemma {:induction false} PowAdd(b: nat, m: nat, n: nat)
    ensures Pow(b, m + n) == Pow(b, m) * Pow(b, n)
  {
    if m > 0 {
      PowAdd(b, m - 1, n);
      Associate(b, Pow(b, m - 1), Pow(b, n));
    }
  }

  lemma {:induction false} PowMul(b: nat, m: nat, n: nat)
    ensures Pow(b, m * n) == Pow(Pow(b, m), n)
  {
    if n == 0 {
    } else {
      assert m * n == m + m * (n - 1);
      MulMono(0, n - 1, m);
      PowAdd(b, m, m * (n - 1));
      PowMul(b, m, n - 1);
    }
  }

  lemma {:induction false} PowMonoBase(x: nat, y: nat, e: nat)
    requires x <= y
    ensures Pow(x, e) <= Pow(y, e)
  {
    if e > 0 {
      PowMonoBase(x, y, e - 1);
      MulMono(x, y, Pow(x, e - 1));
      MulMono(Pow(x, e - 1), Pow(y, e - 1), y);
    }
  }

  lemma {:induction false} PowStrictBase(x: nat, y: nat, e: nat)
    requires x < y && e > 0
    ensures Pow(x, e) < Pow(y, e)
  {
    PowMonoBase(x, y, e - 1);
    var p, q := Pow(x, e - 1), Pow(y, e - 1);
    assert x * p <= x * q by { MulMono(p, q, x); }
    assert x * q < y * q by { MulMono(1, y - x, q); assert (y - x) * q == y * q - x * q; }
  }

  lemma {:induction false} PowMonoExp(b: nat, m: nat, n: nat)
    requires b > 0 && m <= n
    ensures Pow(b, m) <= Pow(b, n)
  {
    PowAdd(b, m, n - m);
    MulMono(1, Pow(b, n - m), Pow(b, m));
  }

  // ----- values and digit strings

  lemma BigBound(s: seq<int>, b: nat)
    requires Digits(s, b) && b > 0
    ensures 0 <= Big(s, b) < Pow(b, |s|)
  {
    if s != [] {
      var t := s[..|s| - 1];
      BigBound(t, b);
      MulMono(Big(t, b), Pow(b, |t|) - 1, b);
      MulMono(0, Big(t, b), b);
      assert (Pow(b, |t|) - 1) * b == Pow(b, |s|) - b;
    }
  }

  /** Concatenation shifts the left part by the length of the right part. */
  lemma {:induction false} BigConcat(s: seq<int>, t: seq<int>, b: nat)
    ensures Big(s + t, b) == Big(s, b) * Pow(b, |t|) + Big(t, b)
  {
    if t == [] {
      assert s + t == s;
    } else {
      var u := t[..|t| - 1];
      var d := t[|t| - 1];
      BigConcat(s, u, b);
      assert (s + t)[..|s + t| - 1] == s + u;
      assert Big(s + t, b) == Big(s + u, b) * b + d;
      assert (Big(s, b) * Pow(b, |u|) + Big(u, b)) * b == Big(s, b) * (b * Pow(b, |u|)) + Big(u, b) * b;
    }
  }

  lemma BigFront(d: int, s: seq<int>, b: nat)
    ensures Big([d] + s, b) == d * Pow(b, |s|) + Big(s, b)
  {
    BigConcat([d], s, b);
    assert Big([d], b) == d by { assert [d][..0] == []; }
  }

  lemma {:induction false} BigZeros(n: nat, s: seq<int>, b: nat)
    ensures Big(Repeat(0, n) + s, b) == Big(s, b)
  {
    if n == 0 {
      assert Repeat(0, n) + s == s;
    } else {
      BigZeros(n - 1, s, b);
      assert Repeat(0, n) + s == [0] + (Repeat(0, n - 1) + s);
      BigFront(0, Repeat(0, n - 1) + s, b);
    }
  }

  lemma {:induction false} LittleIsBigReversed(s: seq<int>, b: nat)
    ensures Little(s, b) == Big(Reverse(s), b)
  {
    if s == [] {
    } else {
      var t := s[..|s| - 1];
      LittleIsBigReversed(t, b);
      assert Reverse(s) == [s[|s| - 1]] + Reverse(t);
      BigFront(s[|s| - 1], Reverse(t), b);
    }
  }

  lemma {:induction false} ToBaseValue(n: nat, b: nat)
    requires b >= 2
    ensures Big(ToBase(n, b), b) == n && NoLeadingZero(ToBase(n, b))
    decreases n
  {
    if n != 0 {
      DivShrinks(n, b);
      DivMod(n, b);
      ToBaseValue(n / b, b);
      var s := ToBase(n, b);
      assert s[..|s| - 1] == ToBase(n / b, b);
    }
  }

  /** A digit string without a leading zero is the shortest string of its value. */
  lemma {:induction false} ShortestIsUnique(s: seq<int>, b: nat)
    requires b >= 2 && Digits(s, b) && NoLeadingZero(s)
    ensures Big(s, b) >= 0 && ToBase(Big(s, b), b) == s
  {
    BigBound(s, b);
    if s != [] {
      var t, d := s[..|s| - 1], s[|s| - 1];
      ShortestIsUnique(t, b);
      BigBound(t, b);
      DivModUnique(Big(t, b), d, b);
      PositiveValue(s, b);
      assert s == t + [d];
    }
  }

  lemma PositiveValue(s: seq<int>, b: nat)
    requires b >= 2 && Digits(s, b) && s != [] && s[0] != 0
    ensures Big(s, b) >= Pow(b, |s| - 1) >= 1
  {
    assert s == [s[0]] + s[1..];
    BigFront(s[0], s[1..], b);
    BigBound(s[1..], b);
    MulMono(1, s[0], Pow(b, |s| - 1));
  }

  /** Two digit strings of equal length and equal value are equal. */
  lemma {:induction false} BigInjective(s: seq<int>, t: seq<int>, b: nat)
    requires b > 0 && |s| == |t| && Digits(s, b) && Digits(t, b) && Big(s, b) == Big(t, b)
    ensures s == t
  {
    if s != [] {
      var n := |s| - 1;
      DivModUnique(Big(s[..n], b), s[n], b);
      DivModUnique(Big(t[..n], b), t[n], b);
      BigInjective(s[..n], t[..n], b);
      assert s == s[..n] + [s[n]] && t == t[..n] + [t[n]];
    }
  }

  lemma {:induction false} ToBaseLength(n: nat, b: nat, len: nat)
    requires b >= 2
    ensures |ToBase(n, b)| <= len <==> n < Pow(b, len)
  {
    ToBaseValue(n, b);
    var s := ToBase(n, b);
    BigBound(s, b);
    if |s| <= len {
      PowMonoExp(b, |s|, len);
    } else {
      PositiveValue(s, b);
      PowMonoExp(b, len, |s| - 1);
    }
  }

  lemma ToBaseMono(m: nat, n: nat, b: nat)
    requires b >= 2 && m <= n
    ensures |ToBase(m, b)| <= |ToBase(n, b)|
  {
    ToBaseLength(n, b, |ToBase(n, b)|);
    ToBaseLength(m, b, |ToBase(n, b)|);
  }

  // ----- multiplying a digit string by m and adding to it, one digit at a time

  /** The weight-p part of a step: x units become r units and q carried ones. */
  lemma CarryWeight(x: int, q: int, r: int, b: int, p: int)
    requires x == q * b + r
    ensures r * p + q * (b * p) == x * p
  {
    Associate(q, b, p);
    Distribute(q * b, r, p);
  }

  /** One inner step on plain numbers, with p the weight of the current digit. */
  lemma StepArith(a: int, t: int, c: int, d: int, add: int, m: int, b: int, p: int, q: int, r: int,
                  a': int, t': int, p': int)
    requires a + c * p == m * t + add && c + m * d == q * b + r
    requires a' == a + r * p && t' == t + d * p && p' == b * p
    ensures a' + q * p' == m * t' + add
  {
    CarryWeight(c + m * d, q, r, b, p);
    Distribute(c, m * d, p);
    Associate(m, d, p);
    Distribute(t, d * p, m);
  }

  lemma CarryBound(c: int, m: nat, d: int, b: nat)
    requires 0 <= c < m && 0 <= d < b
    ensures 0 <= (c + m * d) / b < m
  {
    var x := c + m * d;
    MulMono(0, d, m);
    MulMono(d, b - 1, m);
    DivMod(x, b);
    var q := x / b;
    if q >= m { MulMono(m, q, b); }
    if q < 0 { MulMono(q, -1, b); }
  }

  lemma RunIs(s: seq<int>, n: nat, x: int)
    requires n <= |s| && (forall i :: 0 <= i < n ==> s[i] == x) && (n < |s| ==> s[n] != x)
    ensures LeadingRun(s, x) == n
  {
    var m := LeadingRun(s, x);
    if m < n { assert false; }
  }

  lemma {:induction false} PrefixBelow(s: seq<int>, i: nat, b: nat)
    requires i <= |s| && b >= 1 && Digits(s, b)
    ensures 0 <= Big(s[..i], b) <= Big(s, b)
  {
    BigBound(s[..i], b);
    if i == |s| {
      assert s[..i] == s;
    } else {
      var t := s[..|s| - 1];
      PrefixBelow(t, i, b);
      assert t[..i] == s[..i];
      MulMono(1, b, Big(t, b));
    }
  }
}
