/** What the two Base58 codecs of the library compute: a '1' for every leading
    zero byte, then the shortest base-58 string of the remaining value. */
module Base58Spec {
  import opened Radix

  datatype Option<+T> = None | Some(value: T)

  const ONE: Byte := 49

  /** The base-58 alphabet: 1-9 A-H J-N P-Z a-k m-z as ASCII codes. */
  function Symbol(d: int): (c: Byte)
    requires 0 <= d < 58
  {
    if d < 9 then d + 49
    else if d < 17 then d + 56
    else if d < 22 then d + 57
    else if d < 33 then d + 58
    else if d < 44 then d + 64
    else d + 65
  }

  /** The runs of the 128-entry digit map that both decoders carry; -1 is no digit. */
  function DigitMap(c: int): (d: int)
    requires 0 <= c < 128
    ensures -1 <= d < 58
  {
    if 49 <= c <= 57 then c - 49
    else if 65 <= c <= 72 then c - 56
    else if 74 <= c <= 78 then c - 57
    else if 80 <= c <= 90 then c - 58
    else if 97 <= c <= 107 then c - 64
    else if 109 <= c <= 122 then c - 65
    else -1
  }

  predicate IsSymbol(c: Byte) {
    c < 128 && DigitMap(c) != -1
  }

  predicate ValidText(s: seq<Byte>) {
    forall i :: 0 <= i < |s| ==> IsSymbol(s[i])
  }

  function Symbols(ds: seq<int>): (s: seq<Byte>)
    requires Digits(ds, 58)
    ensures |s| == |ds| && forall i :: 0 <= i < |ds| ==> s[i] == Symbol(ds[i])
  {
    seq(|ds|, i requires 0 <= i < |ds| => Symbol(ds[i]))
  }

  function DigitsOf(s: seq<Byte>): (ds: seq<int>)
    requires ValidText(s)
    ensures Digits(ds, 58)
    ensures |ds| == |s| && forall i :: 0 <= i < |s| ==> ds[i] == DigitMap(s[i])
  {
    seq(|s|, i requires 0 <= i < |s| => DigitMap(s[i]))
  }

  /** The value of a byte string without its leading zeros, in base 58. */
  function Encode(data: seq<Byte>): (s: seq<int>) {
    EncodeParts(LeadingRun(data, 0), data)
  }

  function EncodeParts(z: nat, data: seq<Byte>): seq<int>
    requires z <= |data|
  {
    BytesValue(data[z..]);
    Repeat(ONE, z) + Symbols(ToBase(Big(data[z..], 256), 58))
  }

  function Decode(s: seq<Byte>): Option<seq<int>> {
    if !ValidText(s) then None else
      var z := LeadingRun(s, ONE);
      DigitsValue(s[z..]);
      Some(Repeat(0, z) + ToBase(Big(DigitsOf(s[z..]), 58), 256))
  }

  /** Where a text is read as a number, its leading ones are its leading zero digits. */
  function TextValue(s: seq<Byte>): (v: nat)
    requires ValidText(s)
  {
    DigitsValue(s);
    Big(DigitsOf(s), 58)
  }

  lemma BytesValue(data: seq<Byte>)
    ensures Digits(data, 256) && Big(data, 256) >= 0
  {
    BigBound(data, 256);
  }

  lemma DigitsValue(s: seq<Byte>)
    requires ValidText(s)
    ensures Big(DigitsOf(s), 58) >= 0
  {
    BigBound(DigitsOf(s), 58);
  }

  /** The two alphabet tables are inverse to each other. */
  lemma SymbolDigit(d: int)
    requires 0 <= d < 58
    ensures IsSymbol(Symbol(d)) && DigitMap(Symbol(d)) == d && (Symbol(d) == ONE <==> d == 0)
  {
  }

  lemma DigitSymbol(c: Byte)
    requires IsSymbol(c)
    ensures Symbol(DigitMap(c)) == c
  {
  }

  lemma SymbolsDigits(ds: seq<int>)
    requires Digits(ds, 58)
    ensures ValidText(Symbols(ds)) && DigitsOf(Symbols(ds)) == ds
  {
    forall i | 0 <= i < |ds|
      ensures IsSymbol(Symbols(ds)[i]) && DigitMap(Symbols(ds)[i]) == ds[i]
    {
      SymbolDigit(ds[i]);
    }
  }

  lemma {:induction false} LeadingRunOf(n: nat, s: seq<int>, x: int)
    requires s != [] ==> s[0] != x
    ensures LeadingRun(Repeat(x, n) + s, x) == n
  {
    if n == 0 {
      assert Repeat(x, n) + s == s;
    } else {
      assert (Repeat(x, n) + s)[1..] == Repeat(x, n - 1) + s;
      LeadingRunOf(n - 1, s, x);
    }
  }

  lemma EncodeOfParts(z: nat, bytes: seq<Byte>)
    requires NoLeadingZero(bytes)
    ensures Big(bytes, 256) >= 0 && Encode(Repeat(0, z) + bytes) == Repeat(ONE, z) + Symbols(ToBase(Big(bytes, 256), 58))
  {
    BytesValue(bytes);
    LeadingRunOf(z, bytes, 0);
    assert (Repeat(0, z) + bytes)[z..] == bytes;
  }

  lemma DecodeOfParts(z: nat, ds: seq<int>)
    requires Digits(ds, 58) && NoLeadingZero(ds)
    ensures Big(ds, 58) >= 0 && Decode(Repeat(ONE, z) + Symbols(ds)) == Some(Repeat(0, z) + ToBase(Big(ds, 58), 256))
  {
    SymbolsDigits(ds);
    BigBound(ds, 58);
    if ds != [] { SymbolDigit(ds[0]); }
    LeadingRunOf(z, Symbols(ds), ONE);
    var s := Repeat(ONE, z) + Symbols(ds);
    assert s[z..] == Symbols(ds);
    assert ValidText(s);
  }

  /** Decoding undoes encoding, for every byte string. */
  lemma DecodeEncode(data: seq<Byte>)
    ensures Decode(Encode(data)) == Some(data)
  {
    var z := LeadingRun(data, 0);
    var rest := data[z..];
    assert data == Repeat(0, z) + rest;
    EncodeOfParts(z, rest);
    var n := Big(rest, 256);
    ToBaseValue(n, 58);
    DecodeOfParts(z, ToBase(n, 58));
    ShortestIsUnique(rest, 256);
  }

  /** Encoding undoes decoding, for every text of base-58 symbols. */
  lemma EncodeDecode(s: seq<Byte>)
    requires ValidText(s)
    ensures Decode(s).Some?
    ensures Digits(Decode(s).value, 256) && Encode(Decode(s).value) == s
  {
    var z := LeadingRun(s, ONE);
    var ds := DigitsOf(s[z..]);
    TextParts(s);
    DecodeOfParts(z, ds);
    var n := Big(ds, 58);
    ToBaseValue(n, 256);
    EncodeOfParts(z, ToBase(n, 256));
    ShortestIsUnique(ds, 58);
  }

  lemma TextParts(s: seq<Byte>)
    requires ValidText(s)
    ensures var z := LeadingRun(s, ONE);
            s == Repeat(ONE, z) + Symbols(DigitsOf(s[z..])) && NoLeadingZero(DigitsOf(s[z..]))
  {
    var rest := s[LeadingRun(s, ONE)..];
    forall i | 0 <= i < |rest| ensures Symbols(DigitsOf(rest))[i] == rest[i] { DigitSymbol(rest[i]); }
    assert Symbols(DigitsOf(rest)) == rest;
    hide Symbols, Symbol, DigitMap;
    if rest != [] { DigitSymbol(rest[0]); }
  }

  // ----- how many base-58 digits a byte string needs

  /** 256^19 is below 58^26, so 26 digits hold 19 bytes; 26/19 is below 1.37. */
  lemma NineteenBytes() returns (p: nat, q: nat)
    ensures p == 19 && 19 * q == 26 * p && Pow(256, p) < Pow(58, q)
  {
    var x := 0x100000000000000000000000000000000000000;
    assert Pow(256, 19) == x by {
      PowTwice(256, 2); PowTwice(256, 4); PowTwice(256, 9);
      assert Pow(256, 9) == 256 * Pow(256, 8);
    }
    assert Pow(58, 26) > x by {
      PowTwice(58, 3); PowTwice(58, 6); PowTwice(58, 13);
      assert Pow(58, 13) == 58 * Pow(58, 12);
    }
    p, q := 19, 26;
  }

  lemma PowTwice(b: nat, e: nat)
    ensures Pow(b, 2 * e) == Pow(b, e) * Pow(b, e)
  {
    PowAdd(b, e, e);
  }

  /** If x^p is below y^q, then y^e outgrows x^m once e/m reaches q/p. */
  lemma PowCompare(x: nat, y: nat, p: nat, q: nat, m: nat, e: nat)
    requires y > 0 && p > 0 && Pow(x, p) < Pow(y, q) && q * m <= e * p
    ensures Pow(x, m) <= Pow(y, e)
  {
    if Pow(y, e) < Pow(x, m) {
      PowStrictBase(Pow(y, e), Pow(x, m), p);
      PowMul(y, e, p);
      PowMul(x, m, p);
      PowMul(x, p, m);
      assert m * p == p * m;
      PowMul(y, q, m);
      PowMonoBase(Pow(x, p), Pow(y, q), m);
      MulMono(0, m, q);
      PowMonoExp(y, q * m, e * p);
    }
  }

  lemma BytesBelowDigits(m: nat, e: nat)
    requires 26 * m <= 19 * e
    ensures Pow(256, m) <= Pow(58, e)
  {
    var p, q := NineteenBytes();
    PowCompare(256, 58, p, q, m, e);
  }

  /** A value below 256^m needs at most 26m/19 base-58 digits, rounded up. */
  lemma DigitBudget(n: nat, m: nat)
    requires n < Pow(256, m)
    ensures 19 * (|ToBase(n, 58)| - 1) < 26 * m || n == 0
  {
    var ds := ToBase(n, 58);
    ToBaseValue(n, 58);
    if n != 0 {
      PositiveValue(ds, 58);
      if 26 * m <= 19 * (|ds| - 1) { BytesBelowDigits(m, |ds| - 1); }
    }
  }

  /** The output length that the library's callers are told to reserve. */
  function EncodeLength(n: nat): nat {
    n * 137 / 100 + 1
  }

  /** It is written as a product of doubles.  Whatever double stands for 1.37, and however
      each of the three operations is rounded, to a relative error of 2^-52 that is, the
      length cut down to an integer is enough. */
  lemma RoundedLengthSuffices(data: seq<Byte>, factor: real, size: real, product: real, sum: real)
    requires Near(factor, 1.37) && Near(size, |data| as real) && Near(product, size * factor) && Near(sum, product + 1.0)
    ensures |Encode(data)| <= sum.Floor
  {
    EncodeBudget(data);
    RoundedLength(|data|, |Encode(data)|, factor, size, product, sum);
  }

  const EPSILON: real := 1.0 / 4503599627370496.0

  predicate Near(x: real, y: real) { y * (1.0 - EPSILON) <= x <= y * (1.0 + EPSILON) }

  lemma RoundedLength(n: nat, m: nat, factor: real, size: real, product: real, sum: real)
    requires m == 0 || 19 * (m - 1) < 26 * n
    requires Near(factor, 1.37) && Near(size, n as real) && Near(product, size * factor) && Near(sum, product + 1.0)
    ensures m <= sum.Floor
  {
    var x := n as real;
    AtLeast(factor, 1.37);
    AtLeast(size, x);
    Products(size, x * 0.9999, factor, 1.3698);
    AtLeast(product, size * factor);
    AtLeast(sum, product + 1.0);
    LengthLeft(n, m, size * factor, product, sum);
  }

  lemma AtLeast(x: real, y: real)
    requires Near(x, y) && y >= 0.0
    ensures x >= y * 0.9999
  {
    Products(1.0 - EPSILON, 0.9999, y, y);
  }

  lemma Products(x: real, a: real, y: real, b: real)
    requires x >= a >= 0.0 && y >= b >= 0.0
    ensures x * y >= a * b
  {
    assert x * y >= a * y;
    assert a * y >= a * b;
  }

  lemma LengthLeft(n: nat, m: nat, exact: real, product: real, sum: real)
    requires m == 0 || 19 * (m - 1) < 26 * n
    requires exact >= (n as real) * 0.9999 * 1.3698 && product >= exact * 0.9999 && sum >= (product + 1.0) * 0.9999
    ensures m <= sum.Floor
  {
    if m > 0 {
      assert 19.0 * (m as real - 1.0) <= 26.0 * (n as real) - 1.0;
    }
  }

  lemma EncodeLengthSuffices(data: seq<Byte>)
    ensures |Encode(data)| <= EncodeLength(|data|)
  {
    EncodeBudget(data);
  }

  lemma EncodeBudget(data: seq<Byte>)
    ensures |Encode(data)| == 0 || 19 * (|Encode(data)| - 1) < 26 * |data|
  {
    var z := LeadingRun(data, 0);
    BytesValue(data[z..]);
    BigBound(data[z..], 256);
    DigitBudget(Big(data[z..], 256), |data| - z);
  }

  /** libbase58 reserves 138/100 of the bytes after the zeros, plus one. */
  function BufferSize(m: nat): (size: nat)
    ensures size > 0
  {
    m * 138 / 100 + 1
  }

  /** All m bytes fit into the buffer; the first m - 1 leave its top digit free. */
  lemma BufferSuffices(n: nat, m: nat)
    ensures n < Pow(256, m) ==> n < Pow(58, BufferSize(m))
    ensures m > 0 && n < Pow(256, m - 1) ==> n < Pow(58, BufferSize(m) - 1)
  {
    var ds := ToBase(n, 58);
    if n < Pow(256, m) {
      DigitBudget(n, m);
      ToBaseLength(n, 58, BufferSize(m));
    }
    if m > 0 && n < Pow(256, m - 1) {
      DigitBudget(n, m - 1);
      ToBaseLength(n, 58, BufferSize(m) - 1);
    }
  }

  // ----- reading a text one character at a time

  lemma TextStep(s: seq<Byte>, i: nat)
    requires i < |s| && ValidText(s[..i]) && IsSymbol(s[i])
    ensures ValidText(s[..i + 1]) && TextValue(s[..i + 1]) == 58 * TextValue(s[..i]) + DigitMap(s[i])
  {
    var ds := DigitsOf(s[..i + 1]);
    assert ds[..i] == DigitsOf(s[..i]);
  }

  lemma TextMono(s: seq<Byte>, i: nat)
    requires i <= |s| && ValidText(s)
    ensures ValidText(s[..i]) && TextValue(s[..i]) <= TextValue(s)
  {
    PrefixBelow(DigitsOf(s), i, 58);
    assert DigitsOf(s)[..i] == DigitsOf(s[..i]);
  }

  lemma ValidSuffix(s: seq<Byte>, n: nat)
    requires n <= |s| && forall i :: 0 <= i < n ==> s[i] == ONE
    ensures ValidText(s) <==> ValidText(s[n..])
  {
    if ValidText(s[n..]) {
      forall i | 0 <= i < |s| ensures IsSymbol(s[i]) {
        if i >= n { assert s[i] == s[n..][i - n]; }
      }
    }
  }
}
