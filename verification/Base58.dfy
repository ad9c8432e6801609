/** src/base58.c: digits grow least significant first behind the leading zeros
    and are reversed in place at the end. */
module Base58 {
  import opened Radix
  import opened Base58Spec

  lemma LittleAppend(s: seq<int>, d: int, b: nat)
    ensures Little(s + [d], b) == Little(s, b) + d * Pow(b, |s|)
  {
    assert (s + [d])[..|s|] == s;
  }

  /** The digits of a carry in the order in which they are written. */
  function LowDigits(c: nat, b: nat): (s: seq<int>)
    requires b >= 2
    ensures Digits(s, b)
  {
    Reverse(ToBase(c, b))
  }

  lemma LowDigitsStep(c: nat, b: nat)
    requires b >= 2 && c > 0
    ensures 0 <= c / b < c && 0 <= c % b < b && LowDigits(c, b) == [c % b] + LowDigits(c / b, b)
  {
    DivShrinks(c, b);
    DivMod(c, b);
  }

  lemma LowDigitsValue(n: nat, b: nat)
    requires b >= 2
    ensures Little(LowDigits(n, b), b) == n && (n > 0 ==> LowDigits(n, b) != [] && n >= Pow(b, |LowDigits(n, b)| - 1))
  {
    ToBaseValue(n, b);
    LittleIsBigReversed(LowDigits(n, b), b);
    assert Reverse(LowDigits(n, b)) == ToBase(n, b);
    if n > 0 { PositiveValue(ToBase(n, b), b); }
  }

  lemma LittleConcat(s: seq<int>, t: seq<int>, b: nat)
    ensures Little(s + t, b) == Little(s, b) + Little(t, b) * Pow(b, |s|)
  {
    LittleIsBigReversed(s, b);
    LittleIsBigReversed(t, b);
    LittleIsBigReversed(s + t, b);
    assert Reverse(s + t) == Reverse(t) + Reverse(s);
    BigConcat(Reverse(t), Reverse(s), b);
  }

  lemma ReverseTwice(s: seq<int>)
    ensures Reverse(Reverse(s)) == s
  {
  }

  /** A digit string that is not longer than its value needs is the shortest one. */
  lemma FilledDigits(s: seq<int>, n: nat, b: nat)
    requires b >= 2 && Digits(s, b) && Little(s, b) == n
    requires s != [] ==> n >= Pow(b, |s| - 1)
    ensures s == LowDigits(n, b)
  {
    LittleIsBigReversed(s, b);
    BigBound(Reverse(s), b);
    ToBaseLength(n, b, |s|);
    if s != [] { ToBaseLength(n, b, |s| - 1); }
    ToBaseValue(n, b);
    BigInjective(Reverse(s), ToBase(n, b), b);
    ReverseTwice(s);
  }

  /** Multiplying by m and adding `add`, from the bottom digit up to position j:
      the digits after that and the carry that is to go further up. */
  function Grown(d: seq<int>, j: nat, add: int, m: nat, b: nat): (r: (seq<int>, int))
    requires b > 0 && j <= |d|
    ensures |r.0| == |d| && forall k :: j <= k < |d| ==> r.0[k] == d[k]
  {
    if j == 0 then (d, add) else
      var (s, c) := Grown(d, j - 1, add, m, b);
      var x := c + m * s[j - 1];
      (s[j - 1 := x % b], x / b)
  }

  lemma {:induction false} GrownValue(d: seq<int>, j: nat, add: int, m: nat, b: nat)
    requires b > 0 && j <= |d|
    ensures var (s, c) := Grown(d, j, add, m, b);
            Little(s[..j], b) + c * Pow(b, j) == m * Little(d[..j], b) + add
  {
    if j > 0 {
      var i := j - 1;
      GrownValue(d, i, add, m, b);
      var (s, c) := Grown(d, i, add, m, b);
      var s' := Grown(d, j, add, m, b).0;
      var x := c + m * d[i];
      DivMod(x, b);
      assert s'[..j] == s[..i] + [x % b] && d[..j] == d[..i] + [d[i]];
      LittleAppend(s[..i], x % b, b);
      LittleAppend(d[..i], d[i], b);
      StepArith(Little(s[..i], b), Little(d[..i], b), c, d[i], add, m, b, Pow(b, i), x / b, x % b,
                Little(s'[..j], b), Little(d[..j], b), Pow(b, j));
    }
  }

  lemma {:induction false} GrownCarry(d: seq<int>, j: nat, add: int, m: nat, b: nat)
    requires b > 0 && j <= |d| && Digits(d, b) && 0 <= add < m
    ensures 0 <= Grown(d, j, add, m, b).1 < m && Digits(Grown(d, j, add, m, b).0, b)
  {
    if j > 0 {
      GrownCarry(d, j - 1, add, m, b);
      var (s, c) := Grown(d, j - 1, add, m, b);
      CarryBound(c, m, s[j - 1], b);
      DivMod(c + m * s[j - 1], b);
    }
  }

  /** The first inner loop: out[off..off+len] is multiplied by `mul`, `add` comes
      in at the bottom and the carry goes out at the top. */
  method MultiplyInPlace(out: array<Byte>, off: nat, len: nat, mul: nat, base: nat, add: nat) returns (carry: nat)
    requires off + len <= out.Length && 2 <= base <= 256 && add < mul
    requires Digits(out[off..off + len], base)
    modifies out
    ensures forall k :: 0 <= k < off || off + len <= k < out.Length ==> out[k] == old(out[k])
    ensures (out[off..off + len], carry as int) == Grown(old(out[off..off + len]), len, add, mul, base)
  {
    ghost var digits: seq<int> := out[off..off + len];
    ghost var cur := digits;
    carry := add;
    var j := 0;
    while j < len
      invariant 0 <= j <= len && |cur| == len && out[off..off + len] == cur
      invariant forall k :: 0 <= k < off || off + len <= k < out.Length ==> out[k] == old(out[k])
      invariant (cur, carry as int) == Grown(digits, j, add, mul, base)
    {
      GrownCarry(digits, j, add, mul, base);
      GrownCarry(digits, j + 1, add, mul, base);
      assert out[off + j] == cur[j];
      var x: int := carry + mul * (out[off + j] as int);
      assert Grown(digits, j + 1, add, mul, base) == (cur[j := x % base], x / base);
      assert 0 <= x % base < base by { DivMod(x, base); }
      out[off + j] := x % base;
      carry := x / base;
      cur := cur[j := x % base];
      j := j + 1;
    }
  }

  /** The second inner loop: the carry is written as further digits, up to `cap`. */
  method SpillCarry(out: array<Byte>, off: nat, len: nat, cap: nat, base: nat, carry0: nat)
    returns (ok: bool, newLen: nat)
    requires off + len <= cap <= out.Length && 2 <= base <= 256
    modifies out
    ensures forall k :: 0 <= k < off || cap <= k < out.Length ==> out[k] == old(out[k])
    ensures ok <==> off + len + |LowDigits(carry0, base)| <= cap
    ensures ok ==> newLen == len + |LowDigits(carry0, base)|
    ensures ok ==> out[off..off + newLen] == old(out[off..off + len]) + LowDigits(carry0, base)
  {
    ghost var s: seq<int> := out[off..off + len];
    ghost var full := s + LowDigits(carry0, base);
    var carry := carry0;
    newLen := len;
    while carry > 0
      invariant carry >= 0 && len <= newLen == |s| && off + newLen <= cap
      invariant forall k :: 0 <= k < off || cap <= k < out.Length ==> out[k] == old(out[k])
      invariant out[off..off + newLen] == s && s + LowDigits(carry, base) == full
      decreases carry
    {
      LowDigitsStep(carry, base);
      if off + newLen == cap {
        return false, 0;
      }
      out[off + newLen] := carry % base;
      s := s + [carry % base];
      newLen := newLen + 1;
      carry := carry / base;
    }
    ok := true;
  }

  /** Takes one more digit of the input into the number held in out[off..off+len];
      fails exactly when the grown number does not fit. */
  method AbsorbDigit(out: array<Byte>, off: nat, len: nat, cap: nat, mul: nat, base: nat, add: nat, ghost n: nat)
    returns (ok: bool, newLen: nat)
    requires off + len <= cap <= out.Length && 2 <= base <= 256 && add < mul
    requires out[off..off + len] == LowDigits(n, base)
    modifies out
    ensures forall k :: 0 <= k < off || cap <= k < out.Length ==> out[k] == old(out[k])
    ensures ok <==> off + |LowDigits(mul * n + add, base)| <= cap
    ensures ok ==> off + newLen <= cap && out[off..off + newLen] == LowDigits(mul * n + add, base)
  {
    var carry := MultiplyInPlace(out, off, len, mul, base, add);
    Absorbed(n, mul, base, add);
    ok, newLen := SpillCarry(out, off, len, cap, base, carry);
  }

  /** The two inner loops together take the digits of n to those of mul*n + add. */
  lemma Absorbed(n: nat, mul: nat, base: nat, add: nat)
    requires base >= 2 && add < mul
    ensures var d := LowDigits(n, base);
            var (s, c) := Grown(d, |d|, add, mul, base);
            c >= 0 && s + LowDigits(c, base) == LowDigits(mul * n + add, base)
  {
    assert LowDigits(0, base) == [];
    hide Little, Pow, Grown, LowDigits;
    var d := LowDigits(n, base);
    var (s, c) := Grown(d, |d|, add, mul, base);
    GrownWhole(d, mul, base, add);
    LowDigitsValue(n, base);
    LowDigitsValue(c, base);
    LittleConcat(s, LowDigits(c, base), base);
    MulMono(1, mul, n);
    CarryOnTop(s, c, n, mul * n + add, base);
    FilledDigits(s + LowDigits(c, base), mul * n + add, base);
  }

  lemma GrownWhole(d: seq<int>, mul: nat, base: nat, add: nat)
    requires base > 0 && add < mul && Digits(d, base)
    ensures var (s, c) := Grown(d, |d|, add, mul, base);
            0 <= c < mul && Digits(s, base) && Little(s, base) + c * Pow(base, |d|) == mul * Little(d, base) + add
  {
    GrownValue(d, |d|, add, mul, base);
    GrownCarry(d, |d|, add, mul, base);
    assert d[..|d|] == d && Grown(d, |d|, add, mul, base).0[..|d|] == Grown(d, |d|, add, mul, base).0;
  }

  lemma CarryOnTop(s: seq<int>, c: nat, n: nat, v: nat, b: nat)
    requires b >= 2 && Digits(s, b) && Little(s, b) + c * Pow(b, |s|) == v >= n
    requires s != [] ==> n >= Pow(b, |s| - 1)
    ensures var t := s + LowDigits(c, b);
            t != [] ==> v >= Pow(b, |t| - 1)
  {
    if c != 0 {
      LowDigitsValue(c, b);
      LittleIsBigReversed(s, b);
      BigBound(Reverse(s), b);
      var e := |LowDigits(c, b)| - 1;
      hide LowDigits, Little, Big, Pow, Reverse;
      MulMono(Pow(b, e), c, Pow(b, |s|));
      PowAdd(b, e, |s|);
    }
  }

  // ----- the reversal in place

  function Same(x: int): int { x }

  function SymbolAt(x: int): int {
    if 0 <= x < 58 then Symbol(x) else 0
  }

  /** `w` after the outer i pairs of w[off..off+len] have changed places, each
      element going through `f` on its way. */
  function Mirrored(w: seq<int>, off: nat, len: nat, f: int -> int, i: nat): (s: seq<int>)
    requires off + len <= |w| && 2 * i <= len
    ensures |s| == |w|
  {
    if i == 0 then w else
      var s := Mirrored(w, off, len, f, i - 1);
      s[off + i - 1 := f(s[off + len - i])][off + len - i := f(s[off + i - 1])]
  }

  lemma {:induction false} MirroredAt(w: seq<int>, off: nat, len: nat, f: int -> int, i: nat, k: nat)
    requires off + len <= |w| && 2 * i <= len && k < |w|
    ensures Mirrored(w, off, len, f, i)[k]
         == if off <= k < off + i || off + len - i <= k < off + len then f(w[2 * off + len - 1 - k]) else w[k]
  {
    if i > 0 {
      MirroredAt(w, off, len, f, i - 1, k);
      MirroredAt(w, off, len, f, i - 1, off + i - 1);
      MirroredAt(w, off, len, f, i - 1, off + len - i);
    }
  }

  /** The whole reversal, the middle element of an odd stretch included. */
  function Mirror(w: seq<int>, off: nat, len: nat, f: int -> int): (s: seq<int>)
    requires off + len <= |w|
    ensures |s| == |w|
  {
    var s := Mirrored(w, off, len, f, len / 2);
    if len % 2 == 1 then s[off + len / 2 := f(s[off + len / 2])] else s
  }

  lemma MirrorAt(w: seq<int>, off: nat, len: nat, f: int -> int, k: nat)
    requires off + len <= |w| && k < |w|
    ensures Mirror(w, off, len, f)[k] == if off <= k < off + len then f(w[2 * off + len - 1 - k]) else w[k]
  {
    MirroredAt(w, off, len, f, len / 2, k);
  }

  /** The mirrored stretch, and the rest of the array left alone. */
  lemma MirrorOutside(w: seq<int>, off: nat, len: nat, f: int -> int)
    requires off + len <= |w|
    ensures forall k :: 0 <= k < off || off + len <= k < |w| ==> Mirror(w, off, len, f)[k] == w[k]
  {
    forall k | 0 <= k < |w| && !(off <= k < off + len) ensures Mirror(w, off, len, f)[k] == w[k] {
      MirrorAt(w, off, len, f, k);
    }
  }

  lemma MirrorSame(w: seq<int>, off: nat, len: nat)
    requires off + len <= |w|
    ensures Mirror(w, off, len, Same)[off..off + len] == Reverse(w[off..off + len])
  {
    var s, r := Mirror(w, off, len, Same), Reverse(w[off..off + len]);
    forall j | 0 <= j < len ensures s[off..off + len][j] == r[j] {
      MirrorAt(w, off, len, Same, off + j);
    }
  }

  lemma MirrorSymbols(w: seq<int>, off: nat, len: nat)
    requires off + len <= |w| && Digits(w[off..off + len], 58)
    ensures Mirror(w, off, len, SymbolAt)[off..off + len] == Reverse(Symbols(w[off..off + len]))
  {
    var d := w[off..off + len];
    var s, r := Mirror(w, off, len, SymbolAt), Reverse(Symbols(d));
    hide Symbol, Mirror, SymbolAt;
    forall j | 0 <= j < len ensures s[off..off + len][j] == r[j] {
      MirrorAt(w, off, len, SymbolAt, off + j);
      SymbolOf(d, len - 1 - j);
      assert d[len - 1 - j] == w[off + len - 1 - j];
    }
  }

  lemma SymbolOf(d: seq<int>, k: nat)
    requires k < |d| && Digits(d, 58)
    ensures Symbols(d)[k] == SymbolAt(d[k])
  {
  }

  method ReverseBytes(out: array<Byte>, off: nat, len: nat)
    requires off + len <= out.Length
    modifies out
    ensures out[..] == Mirror(old(out[..]), off, len, Same)
  {
    ghost var w: seq<int> := out[..];
    var i := 0;
    while i < len / 2
      invariant 0 <= i <= len / 2 && out[..] == Mirrored(w, off, len, Same, i)
    {
      out[off + i], out[off + len - (i + 1)] := out[off + len - (i + 1)], out[off + i];
      i := i + 1;
    }
  }

  /** The digits in out[off..off+len] become symbols, most significant first. */
  method ReverseThrough(out: array<Byte>, off: nat, len: nat)
    requires off + len <= out.Length && forall k :: off <= k < off + len ==> out[k] < 58
    modifies out
    ensures out[..] == Mirror(old(out[..]), off, len, SymbolAt)
  {
    hide Symbol;
    ghost var w: seq<int> := out[..];
    var half := len / 2;
    var i := 0;
    while i < half
      invariant 0 <= i <= half && out[..] == Mirrored(w, off, len, SymbolAt, i)
    {
      MirroredAt(w, off, len, SymbolAt, i, off + i);
      MirroredAt(w, off, len, SymbolAt, i, off + len - (i + 1));
      var s := Symbol(out[off + i]);
      out[off + i] := Symbol(out[off + len - (i + 1)]);
      out[off + len - (i + 1)] := s;
      i := i + 1;
    }
    if len % 2 == 1 {
      MirroredAt(w, off, len, SymbolAt, half, off + half);
      out[off + half] := Symbol(out[off + half]);
    }
  }

  /** The conversion loop of the encoder over the bytes after the zeros. */
  method EncodeDigits(rest: seq<Byte>, out: array<Byte>, off: nat, cap: nat) returns (ok: bool, len: nat)
    requires off <= cap <= out.Length && Big(rest, 256) >= 0
    modifies out
    ensures forall k :: 0 <= k < off || cap <= k < out.Length ==> out[k] == old(out[k])
    ensures ok <==> off + |LowDigits(Big(rest, 256), 58)| <= cap
    ensures ok ==> off + len <= cap && out[off..off + len] == LowDigits(Big(rest, 256), 58)
  {
    len := 0;
    ghost var n: nat := 0;
    var i := 0;
    while i < |rest|
      invariant 0 <= i <= |rest| && off + len <= cap && n == Big(rest[..i], 256)
      invariant forall k :: 0 <= k < off || cap <= k < out.Length ==> out[k] == old(out[k])
      invariant out[off..off + len] == LowDigits(n, 58)
    {
      assert rest[..i + 1][..i] == rest[..i];
      var newLen;
      ok, newLen := AbsorbDigit(out, off, len, cap, 256, 58, rest[i], n);
      n := 256 * n + rest[i] as int;
      i := i + 1;
      if !ok {
        PrefixBelow(rest, i, 256);
        ToBaseMono(n, Big(rest, 256), 58);
        return;
      }
      len := newLen;
    }
    assert rest[..i] == rest;
    ok := true;
  }

  /** The encoder's work behind the leading ones. */
  method EncodeTail(rest: seq<Byte>, out: array<Byte>, off: nat, cap: nat) returns (ok: bool, len: nat)
    requires off <= cap <= out.Length && Big(rest, 256) >= 0
    modifies out
    ensures forall k :: 0 <= k < off || cap <= k < out.Length ==> out[k] == old(out[k])
    ensures ok <==> off + |ToBase(Big(rest, 256), 58)| <= cap
    ensures ok ==> off + len <= cap && out[off..off + len] == Symbols(ToBase(Big(rest, 256), 58))
  {
    ok, len := EncodeDigits(rest, out, off, cap);
    if ok {
      ghost var ds := ToBase(Big(rest, 256), 58);
      ghost var low := LowDigits(Big(rest, 256), 58);
      assert Reverse(Symbols(low)) == Symbols(ds);
      assert forall k :: off <= k < off + len ==> out[k] == low[k - off];
      MirrorSymbols(out[..], off, len);
      MirrorOutside(out[..], off, len, SymbolAt);
      assert out[..][off..off + len] == low;
      ReverseThrough(out, off, len);
      assert out[off..off + len] == out[..][off..off + len];
    }
  }

  /** base58_encode: fails exactly when the encoding does not fit. */
  method EncodeInto(input: seq<Byte>, out: array<Byte>, capacity: nat) returns (ret: int, outLen: nat)
    requires capacity <= out.Length
    modifies out
    ensures ret == if |Encode(input)| <= capacity then 0 else -1
    ensures outLen == if ret == 0 then |Encode(input)| else 0
    ensures out[..outLen] == if ret == 0 then Encode(input) else []
    ensures forall k :: capacity <= k < out.Length ==> out[k] == old(out[k])
  {
    ghost var z := LeadingRun(input, 0);
    ghost var n := Big(input[z..], 256);
    BytesValue(input[z..]);
    if |input| == 0 {
      return 0, 0;
    }
    if capacity == 0 {
      EncodeNonEmpty(input);
      return -1, 0;
    }
    var total := 0;
    while total < |input| && input[total] == 0
      invariant 0 <= total <= |input| && total <= capacity
      invariant forall k :: 0 <= k < total ==> input[k] == 0 && out[k] == ONE
      invariant forall k :: capacity <= k < out.Length ==> out[k] == old(out[k])
    {
      if total == capacity {
        return -1, 0;
      }
      out[total] := ONE;
      total := total + 1;
    }
    RunIs(input, total, 0);
    assert out[..total] == Repeat(ONE, total);
    var ok, len := EncodeTail(input[total..], out, total, capacity);
    if !ok {
      return -1, 0;
    }
    assert out[..total] == Repeat(ONE, total);
    assert out[..total + len] == out[..total] + out[total..total + len];
    return 0, total + len;
  }

  lemma EncodeNonEmpty(input: seq<Byte>)
    requires input != []
    ensures Encode(input) != []
  {
    if LeadingRun(input, 0) == 0 {
      assert input[0..] == input;
      PositiveValue(input, 256);
    }
  }

  /** The conversion loop of the decoder over the characters after the ones. */
  method DecodeDigits(rest: seq<Byte>, out: array<Byte>, off: nat, cap: nat) returns (ok: bool, len: nat)
    requires off <= cap <= out.Length && forall i :: 0 <= i < |rest| ==> rest[i] < 128
    modifies out
    ensures forall k :: 0 <= k < off || cap <= k < out.Length ==> out[k] == old(out[k])
    ensures ok <==> ValidText(rest) && off + |LowDigits(TextValue(rest), 256)| <= cap
    ensures ok ==> off + len <= cap && out[off..off + len] == LowDigits(TextValue(rest), 256)
  {
    len := 0;
    ghost var n: nat := 0;
    var i := 0;
    while i < |rest|
      invariant 0 <= i <= |rest| && off + len <= cap && ValidText(rest[..i]) && n == TextValue(rest[..i])
      invariant forall k :: 0 <= k < off || cap <= k < out.Length ==> out[k] == old(out[k])
      invariant out[off..off + len] == LowDigits(n, 256)
    {
      var digit := DigitMap(rest[i]);
      if digit == -1 {
        return false, 0;
      }
      TextStep(rest, i);
      var newLen;
      ok, newLen := AbsorbDigit(out, off, len, cap, 58, 256, digit, n);
      n := 58 * n + digit;
      i := i + 1;
      if !ok {
        TooLongText(rest, i, cap - off);
        return;
      }
      len := newLen;
    }
    assert rest[..i] == rest;
    ok := true;
  }

  lemma TooLongText(s: seq<Byte>, i: nat, room: int)
    requires i <= |s| && ValidText(s[..i]) && |LowDigits(TextValue(s[..i]), 256)| > room
    ensures ValidText(s) ==> |LowDigits(TextValue(s), 256)| > room
  {
    if ValidText(s) {
      TextMono(s, i);
      ToBaseMono(TextValue(s[..i]), TextValue(s), 256);
    }
  }

  /** The decoder's work behind the leading zeros. */
  method DecodeTail(rest: seq<Byte>, out: array<Byte>, off: nat, cap: nat) returns (ok: bool, len: nat)
    requires off <= cap <= out.Length && forall i :: 0 <= i < |rest| ==> rest[i] < 128
    modifies out
    ensures forall k :: 0 <= k < off || cap <= k < out.Length ==> out[k] == old(out[k])
    ensures ok <==> ValidText(rest) && off + |ToBase(TextValue(rest), 256)| <= cap
    ensures ok ==> off + len <= cap && out[off..off + len] == ToBase(TextValue(rest), 256)
  {
    ok, len := DecodeDigits(rest, out, off, cap);
    if ok {
      assert Reverse(LowDigits(TextValue(rest), 256)) == ToBase(TextValue(rest), 256);
      MirrorSame(out[..], off, len);
      MirrorOutside(out[..], off, len, Same);
      assert out[..][off..off + len] == out[off..off + len];
      ReverseBytes(out, off, len);
      assert out[off..off + len] == out[..][off..off + len];
    }
  }

  /** base58_decode: fails exactly when a character is no symbol or the bytes do
      not fit.  The 128-entry map makes ASCII input the caller's duty. */
  method DecodeInto(input: seq<Byte>, out: array<Byte>, capacity: nat) returns (ret: int, outLen: nat)
    requires capacity <= out.Length && forall i :: 0 <= i < |input| ==> input[i] < 128
    modifies out
    ensures ret == if Decode(input).Some? && |Decode(input).value| <= capacity then 0 else -1
    ensures outLen == if ret == 0 then |Decode(input).value| else 0
    ensures out[..outLen] == if ret == 0 then Decode(input).value else []
    ensures forall k :: capacity <= k < out.Length ==> out[k] == old(out[k])
  {
    if |input| == 0 {
      return 0, 0;
    }
    if capacity == 0 {
      if ValidText(input) { DecodeNonEmpty(input); }
      return -1, 0;
    }
    DecodeOf(input);
    var ok, total := CopyZeros(input, out, capacity);
    if !ok {
      return -1, 0;
    }
    hide *;
    var len;
    ok, len := DecodeTail(input[total..], out, total, capacity);
    if !ok {
      return -1, 0;
    }
    assert out[..total] == Repeat(0, total);
    TwoStretches(out[..], total, len);
    return 0, total + len;
  }

  lemma TwoStretches(s: seq<int>, i: nat, n: nat)
    requires i + n <= |s|
    ensures s[..i + n] == s[..i] + s[i..i + n]
  {
  }

  lemma DecodeOf(input: seq<Byte>)
    ensures var z := LeadingRun(input, ONE);
            && (Decode(input).Some? <==> ValidText(input[z..]))
            && (Decode(input).Some? ==> Decode(input).value == Repeat(0, z) + ToBase(TextValue(input[z..]), 256))
  {
    ValidSuffix(input, LeadingRun(input, ONE));
  }

  /** A zero byte for every leading one; false when they do not fit. */
  method CopyZeros(input: seq<Byte>, out: array<Byte>, capacity: nat) returns (ok: bool, total: nat)
    requires capacity <= out.Length
    modifies out
    ensures ok <==> LeadingRun(input, ONE) <= capacity
    ensures ok ==> total == LeadingRun(input, ONE) && out[..total] == Repeat(0, total)
    ensures forall k :: capacity <= k < out.Length ==> out[k] == old(out[k])
  {
    total := 0;
    while total < |input| && input[total] == ONE
      invariant 0 <= total <= |input| && total <= capacity
      invariant forall k :: 0 <= k < total ==> input[k] == ONE && out[k] == 0
      invariant forall k :: capacity <= k < out.Length ==> out[k] == old(out[k])
    {
      if total == capacity {
        return false, total;
      }
      out[total] := 0;
      total := total + 1;
    }
    RunIs(input, total, ONE);
    ok := true;
  }

  lemma DecodeNonEmpty(s: seq<Byte>)
    requires s != [] && ValidText(s)
    ensures Decode(s).value != []
  {
    if LeadingRun(s, ONE) == 0 {
      assert s[0..] == s;
      DigitSymbol(s[0]);
      PositiveValue(DigitsOf(s), 58);
    }
  }
}
