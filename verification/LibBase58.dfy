/** src/libbase58.c: digits are kept most significant first in a buffer whose
    size is fixed in advance, and the decoder works on 32-bit words. */
module LibBase58 {
  import opened ByteSeqs
  import opened Radix
  import opened Base58Spec

  const WORD: nat := 0x1_0000_0000

  type Word = x: int | 0 <= x < WORD

  /** Multiplying by m and adding `add`, done from the right end down to position
      j: the digits after that and the carry that is to go further left. */
  function Shifted(d: seq<int>, j: nat, add: int, m: nat, b: nat): (r: (seq<int>, int))
    requires b > 0 && j <= |d|
    ensures |r.0| == |d| && forall k :: 0 <= k < j ==> r.0[k] == d[k]
    decreases |d| - j
  {
    if j == |d| then (d, add) else
      var (s, c) := Shifted(d, j + 1, add, m, b);
      var x := c + m * s[j];
      (s[j := x % b], x / b)
  }

  lemma {:induction false} ShiftedValue(d: seq<int>, j: nat, add: int, m: nat, b: nat)
    requires b > 0 && j <= |d|
    ensures var (s, c) := Shifted(d, j, add, m, b);
            Big(s[j..], b) + c * Pow(b, |d| - j) == m * Big(d[j..], b) + add
    decreases |d| - j
  {
    if j < |d| {
      ShiftedValue(d, j + 1, add, m, b);
      var (s, c) := Shifted(d, j + 1, add, m, b);
      var (s', c') := Shifted(d, j, add, m, b);
      var x := c + m * d[j];
      DivMod(x, b);
      assert s'[j..] == [x % b] + s[j + 1..];
      assert d[j..] == [d[j]] + d[j + 1..];
      BigFront(x % b, s[j + 1..], b);
      BigFront(d[j], d[j + 1..], b);
      StepArith(Big(s[j + 1..], b), Big(d[j + 1..], b), c, d[j], add, m, b, Pow(b, |d| - j - 1), x / b, x % b,
                Big(s'[j..], b), Big(d[j..], b), Pow(b, |d| - j));
    }
  }

  lemma {:induction false} ShiftedCarry(d: seq<int>, j: nat, add: int, m: nat, b: nat)
    requires b > 0 && j <= |d| && Digits(d, b) && 0 <= add < m
    ensures 0 <= Shifted(d, j, add, m, b).1 < m && Digits(Shifted(d, j, add, m, b).0, b)
    decreases |d| - j
  {
    if j < |d| {
      ShiftedCarry(d, j + 1, add, m, b);
      var (s, c) := Shifted(d, j + 1, add, m, b);
      CarryBound(c, m, s[j], b);
      DivMod(c + m * s[j], b);
    }
  }

  /** When the product fits, no carry is left over and the digits are its digits. */
  lemma ShiftedFits(d: seq<int>, add: int, m: nat, b: nat)
    requires b > 0 && Digits(d, b) && 0 <= add < m
    ensures m * Big(d, b) + add < Pow(b, |d|) <==> Shifted(d, 0, add, m, b).1 == 0
    ensures Shifted(d, 0, add, m, b).1 == 0 ==> Big(Shifted(d, 0, add, m, b).0, b) == m * Big(d, b) + add
  {
    var (s, c) := Shifted(d, 0, add, m, b);
    ShiftedValue(d, 0, add, m, b);
    ShiftedCarry(d, 0, add, m, b);
    BigBound(s, b);
    assert s[0..] == s && d[0..] == d;
    if c > 0 { MulMono(1, c, Pow(b, |d|)); }
  }

  /** Stopping early, left of all digits and without a carry, changes nothing. */
  lemma {:induction false} StopEarly(d: seq<int>, j: nat, add: int, m: nat, b: nat)
    requires b > 0 && j <= |d| && (forall k :: 0 <= k < j ==> d[k] == 0)
    requires Shifted(d, j, add, m, b).1 == 0
    ensures Shifted(d, 0, add, m, b) == Shifted(d, j, add, m, b)
  {
    if j > 0 {
      var s := Shifted(d, j, add, m, b).0;
      DivModUnique(0, 0, b);
      assert s[j - 1 := 0] == s;
      StopEarly(d, j - 1, add, m, b);
    }
  }

  /** A string whose top digit is not zero has a value that shows it. */
  lemma TopDigitZero(s: seq<int>, b: nat)
    requires b >= 2 && Digits(s, b) && s != [] && Big(s, b) < Pow(b, |s| - 1)
    ensures s[0] == 0
  {
    if s[0] != 0 { PositiveValue(s, b); }
  }

  lemma ZerosThen(s: seq<int>, n: nat, b: nat)
    requires n <= |s| && forall k :: 0 <= k < n ==> s[k] == 0
    ensures Big(s, b) == Big(s[n..], b)
  {
    assert s == Repeat(0, n) + s[n..];
    BigZeros(n, s[n..], b);
  }

  /** The inner loop of b58enc: the number in `buf` is multiplied by 256 and
      `byte` is added.  It may stop once it is left of `high` with no carry. */
  method ShiftIn(buf: array<Byte>, high: nat, byte: Byte) returns (j: nat)
    requires high < buf.Length && Digits(buf[..], 58)
    requires forall k :: 0 <= k <= high ==> buf[k] == 0
    requires 256 * Big(buf[..], 58) + byte < Pow(58, buf.Length)
    modifies buf
    ensures Digits(buf[..], 58) && Big(buf[..], 58) == 256 * Big(old(buf[..]), 58) + byte
    ensures j < buf.Length && (j == 0 || forall k :: 0 <= k <= j ==> buf[k] == 0)
  {
    ghost var d: seq<int> := buf[..];
    ShiftedFits(d, byte, 256, 58);
    ShiftedCarry(d, 0, byte, 256, 58);
    var carry: int := byte;
    j := buf.Length - 1;
    while j > high || carry != 0
      invariant 0 <= j < buf.Length
      invariant (buf[..], carry) == Shifted(d, j + 1, byte, 256, 58)
      decreases j
    {
      carry := carry + 256 * (buf[j] as int);
      buf[j] := carry % 58;
      carry := carry / 58;
      if j == 0 {
        return;
      }
      j := j - 1;
    }
    StopEarly(d, j + 1, byte, 256, 58);
  }

  /** What is known of the first i bytes: they fit, and all but the last byte
      leave the top digit of the buffer unused. */
  lemma PrefixFits(rest: seq<Byte>, i: nat)
    requires i <= |rest|
    ensures 0 <= Big(rest[..i], 256) < Pow(58, BufferSize(|rest|))
    ensures i < |rest| ==> Big(rest[..i], 256) < Pow(58, BufferSize(|rest|) - 1)
  {
    var m := |rest|;
    var v := Big(rest[..i], 256);
    BigBound(rest[..i], 256);
    PowMonoExp(256, i, m);
    if i < m { PowMonoExp(256, i, m - 1); }
    BufferSuffices(v, m);
  }

  lemma Trimmed(s: seq<int>, j: nat, b: nat)
    requires b >= 2 && Digits(s, b) && j <= |s| && forall k :: 0 <= k < j ==> s[k] == 0
    requires j < |s| ==> s[j] != 0
    ensures Big(s, b) >= 0 && s[j..] == ToBase(Big(s, b), b)
  {
    ZerosThen(s, j, b);
    ShortestIsUnique(s[j..], b);
  }

  /** The outer loop of b58enc. */
  method Convert(rest: seq<Byte>) returns (buf: array<Byte>)
    ensures fresh(buf) && buf.Length == BufferSize(|rest|)
    ensures Digits(buf[..], 58) && Big(buf[..], 58) == Big(rest, 256)
  {
    var size := BufferSize(|rest|);
    buf := new Byte[size](_ => 0);
    ZerosThen(buf[..], size, 58);
    assert rest[..|rest|] == rest;
    hide Big, BufferSize, Pow;
    var i, high := 0, size - 1;
    while i < |rest|
      invariant 0 <= i <= |rest| && 0 <= high < size
      invariant Digits(buf[..], 58) && Big(buf[..], 58) == Big(rest[..i], 256)
      invariant i < |rest| ==> forall k :: 0 <= k <= high ==> buf[k] == 0
    {
      PrefixFits(rest, i + 1);
      OneMoreByte(rest, i);
      var j := ShiftIn(buf, high, rest[i]);
      i, high := i + 1, j;
      if j == 0 && i < |rest| {
        TopDigitZero(buf[..], 58);
        assert buf[0] == buf[..][0];
      }
    }
  }

  lemma OneMoreByte(rest: seq<Byte>, i: nat)
    requires i < |rest|
    ensures Big(rest[..i + 1], 256) == 256 * Big(rest[..i], 256) + rest[i]
  {
    assert rest[..i + 1][..i] == rest[..i];
  }

  method WriteText(b58: array<Byte>, zcount: nat, digits: seq<Byte>)
    requires zcount + |digits| < b58.Length && Digits(digits, 58)
    modifies b58
    ensures b58[..zcount + |digits| + 1] == Repeat(ONE, zcount) + Symbols(digits) + [0]
    ensures forall k :: zcount + |digits| < k < b58.Length ==> b58[k] == old(b58[k])
  {
    ghost var text := Repeat(ONE, zcount) + Symbols(digits) + [0];
    forall k | 0 <= k < zcount { b58[k] := ONE; }
    var j := 0;
    while j < |digits|
      invariant 0 <= j <= |digits|
      invariant forall k :: 0 <= k < zcount + j ==> b58[k] == text[k]
      invariant forall k :: zcount + |digits| < k < b58.Length ==> b58[k] == old(b58[k])
    {
      b58[zcount + j] := Symbol(digits[j]);
      assert text[zcount + j] == Symbols(digits)[j];
      j := j + 1;
    }
    b58[zcount + |digits|] := 0;
  }

  /** b58enc: fails exactly when the text and its NUL do not fit, and then
      reports the size that would do. */
  method Encoder(b58: array<Byte>, b58sz: nat, data: seq<Byte>) returns (ok: bool, newSize: nat)
    requires b58sz <= b58.Length
    modifies b58
    ensures newSize == |Encode(data)| + 1
    ensures ok <==> newSize <= b58sz
    ensures ok ==> b58[..newSize] == Encode(data) + [0]
    ensures forall k :: (if ok then newSize else 0) <= k < b58.Length ==> b58[k] == old(b58[k])
  {
    var zcount := CountZeros(data);
    EncodeOf(data, zcount);
    var rest := data[zcount..];
    hide Encode, Big, ToBase, Symbols, Repeat, LeadingRun;
    var buf := Convert(rest);
    var j := SkipZeros(buf);
    var digits := buf[j..];
    assert digits == buf[..][j..];
    newSize := zcount + buf.Length - j + 1;
    if b58sz <= zcount + buf.Length - j {
      return false, newSize;
    }
    WriteText(b58, zcount, digits);
    return true, newSize;
  }

  lemma EncodeOf(data: seq<Byte>, zcount: nat)
    requires zcount == LeadingRun(data, 0)
    ensures Big(data[zcount..], 256) >= 0
    ensures var digits := ToBase(Big(data[zcount..], 256), 58);
            Digits(digits, 58) && Encode(data) == Repeat(ONE, zcount) + Symbols(digits) && |Encode(data)| == zcount + |digits|
  {
    BytesValue(data[zcount..]);
    hide Big, ToBase, Symbols, Repeat, LeadingRun;
  }

  method CountZeros(data: seq<Byte>) returns (zcount: nat)
    ensures zcount == LeadingRun(data, 0)
  {
    zcount := 0;
    while zcount < |data| && data[zcount] == 0
      invariant 0 <= zcount <= |data| && forall k :: 0 <= k < zcount ==> data[k] == 0
    {
      zcount := zcount + 1;
    }
    RunIs(data, zcount, 0);
  }

  /** What follows the zero digits in front is the shortest digit string. */
  method SkipZeros(buf: array<Byte>) returns (j: nat)
    requires Digits(buf[..], 58)
    ensures j <= buf.Length && Big(buf[..], 58) >= 0 && buf[..][j..] == ToBase(Big(buf[..], 58), 58)
  {
    j := 0;
    while j < buf.Length && buf[j] == 0
      invariant 0 <= j <= buf.Length && forall k :: 0 <= k < j ==> buf[k] == 0
    {
      j := j + 1;
    }
    Trimmed(buf[..], j, 58);
  }

  // ----- b58tobin

  /** The text that a call names: all of it up to the NUL when no length is given. */
  function Text(b58: seq<Byte>, b58sz: nat): seq<Byte>
    requires if b58sz == 0 then 0 in b58 else b58sz <= |b58|
  {
    if b58sz == 0 then b58[..StrLen(b58)] else b58[..b58sz]
  }

  function StrLen(s: seq<Byte>): (n: nat)
    requires 0 in s
    ensures n < |s| && s[n] == 0 && forall i :: 0 <= i < n ==> s[i] != 0
  {
    if s[0] == 0 then 0 else 1 + StrLen(s[1..])
  }

  /** How many words hold `binsz` bytes. */
  function Words(binsz: nat): nat { (binsz + 3) / 4 }

  /** The bound that the first word must stay below when it is only partly used. */
  function TopLimit(binsz: nat): (limit: nat) {
    if binsz % 4 == 0 then WORD else Pow(256, binsz % 4)
  }

  /** The source tests the bits above the used bytes with a mask; that is this bound. */
  lemma ZeroMask(x: bv32)
    ensures x & (0xFFFF_FFFF << 8) != 0 <==> x >= 0x100
    ensures x & (0xFFFF_FFFF << 16) != 0 <==> x >= 0x1_0000
    ensures x & (0xFFFF_FFFF << 24) != 0 <==> x >= 0x100_0000
  {
  }

  lemma WordIsFourBytes()
    ensures Pow(256, 4) == WORD && Pow(256, 1) == 256 && Pow(256, 2) == 0x1_0000 && Pow(256, 3) == 0x100_0000
  {
  }

  lemma WordsHold(binsz: nat)
    requires binsz > 0
    ensures Pow(256, binsz) == TopLimit(binsz) * Pow(WORD, Words(binsz) - 1)
    ensures TopLimit(binsz) <= WORD && Pow(256, binsz) <= Pow(WORD, Words(binsz))
  {
    var top := TopBytes(binsz);
    var rest := Words(binsz) - 1;
    PowAdd(256, top, 4 * rest);
    WordPower(rest);
    MorePower(rest);
    hide *;
    assert binsz == top + 4 * rest;
    MulMono(TopLimit(binsz), WORD, Pow(WORD, rest));
  }

  lemma MorePower(n: nat)
    ensures Pow(WORD, n + 1) == WORD * Pow(WORD, n)
  {
  }

  lemma {:induction false} WordPower(n: nat)
    ensures Pow(WORD, n) == Pow(256, 4 * n)
  {
    if n > 0 {
      WordPower(n - 1);
      var k := 4 * (n - 1);
      assert Pow(256, k + 2) == 0x1_0000 * Pow(256, k);
      assert Pow(256, k + 4) == 0x1_0000 * Pow(256, k + 2);
    }
  }

  lemma TopBytes(binsz: nat) returns (top: nat)
    requires binsz > 0
    ensures top == (if binsz % 4 > 0 then binsz % 4 else 4) && binsz == top + 4 * (Words(binsz) - 1)
    ensures TopLimit(binsz) == Pow(256, top) <= WORD
  {
    top := if binsz % 4 > 0 then binsz % 4 else 4;
    WordIsFourBytes();
  }

  /** The two overflow tests after each digit say exactly that the value fits. */
  lemma OverflowTest(s: seq<int>, binsz: nat)
    requires binsz > 0 && |s| == Words(binsz) && Digits(s, WORD)
    ensures Big(s, WORD) < Pow(256, binsz) <==> s[0] < TopLimit(binsz)
  {
    var w := Pow(WORD, |s| - 1);
    WordsHold(binsz);
    assert s == [s[0]] + s[1..];
    BigFront(s[0], s[1..], WORD);
    BigBound(s[1..], WORD);
    if s[0] < TopLimit(binsz) {
      MulMono(s[0] + 1, TopLimit(binsz), w);
      Distribute(s[0], 1, w);
    } else {
      MulMono(TopLimit(binsz), s[0], w);
    }
  }

  /** The inner loop of b58tobin. */
  method TakeDigit(outi: array<Word>, digit: int) returns (c: int)
    requires 0 <= digit < 58
    modifies outi
    ensures (outi[..], c) == Shifted(old(outi[..]), 0, digit, 58, WORD)
  {
    ghost var d: seq<int> := outi[..];
    ShiftedCarry(d, 0, digit, 58, WORD);
    c := digit;
    var j := outi.Length;
    while j > 0
      invariant 0 <= j <= outi.Length
      invariant (outi[..], c) == Shifted(d, j, digit, 58, WORD)
    {
      j := j - 1;
      var t: int := outi[j] * 58 + c;
      c := t / WORD;
      outi[j] := t % WORD;
    }
  }

  /** The bytes of the top `k` byte positions of a word, as the shifts extract them. */
  function WordBytes(w: int, k: nat): (s: seq<Byte>)
    requires w >= 0
    ensures |s| == k
    decreases k
  {
    if k == 0 then [] else WordBytes(w / 256, k - 1) + [w % 256]
  }

  lemma {:induction false} WordBytesValue(w: int, k: nat)
    requires 0 <= w < Pow(256, k)
    ensures Big(WordBytes(w, k), 256) == w
  {
    if k > 0 {
      var s := WordBytes(w, k);
      assert s[..k - 1] == WordBytes(w / 256, k - 1);
      WordBytesValue(w / 256, k - 1);
    }
  }

  lemma {:induction false} WordByteAt(w: int, k: nat, m: nat)
    requires w >= 0 && m < k
    ensures WordBytes(w, k)[m] == (w / Pow(256, k - 1 - m)) % 256
    decreases k
  {
    if m < k - 1 {
      WordByteAt(w / 256, k - 1, m);
      DivDiv(w, 256, Pow(256, k - 2 - m));
    }
  }

  /** Writes the low `k` bytes of `w`, the most significant first. */
  method WriteWord(bin: array<Byte>, pos: nat, w: Word, k: nat)
    requires pos + k <= bin.Length
    modifies bin
    ensures bin[..pos + k] == old(bin[..pos]) + WordBytes(w, k)
    ensures KeptFrom(bin[..], old(bin[..]), pos + k)
  {
    hide WordBytes, Pow;
    var i := k;
    while i > 0
      invariant 0 <= i <= k
      invariant forall m :: 0 <= m < pos || pos + k <= m < bin.Length ==> bin[m] == old(bin[m])
      invariant forall m :: 0 <= m < k - i ==> bin[pos + m] == WordBytes(w, k)[m]
    {
      WordByteAt(w, k, k - i);
      PowPositive(i - 1);
      bin[pos + k - i] := (w / Pow(256, i - 1)) % 256;
      i := i - 1;
    }
  }

  /** The bytes of the first n words, where the first word has only `top` bytes. */
  function AllBytes(ws: seq<int>, top: nat, n: nat): (s: seq<Byte>)
    requires n <= |ws| && Digits(ws, WORD)
    ensures |s| == if n == 0 then 0 else top + 4 * (n - 1)
  {
    if n == 0 then [] else AllBytes(ws, top, n - 1) + WordBytes(ws[n - 1], if n == 1 then top else 4)
  }

  lemma {:induction false} AllBytesValue(ws: seq<int>, top: nat, n: nat)
    requires n <= |ws| && Digits(ws, WORD) && (ws != [] ==> ws[0] < Pow(256, top))
    ensures Big(AllBytes(ws, top, n), 256) == Big(ws[..n], WORD)
  {
    if n == 0 {
      assert ws[..n] == [];
    } else {
      var k := if n == 1 then top else 4;
      AllBytesValue(ws, top, n - 1);
      WordIsFourBytes();
      WordBytesValue(ws[n - 1], k);
      BigConcat(AllBytes(ws, top, n - 1), WordBytes(ws[n - 1], k), 256);
      PrefixValue(ws, n);
      if n == 1 { assert ws[..0] == []; }
    }
  }

  lemma PrefixValue(ws: seq<int>, n: nat)
    requires 0 < n <= |ws|
    ensures Big(ws[..n], WORD) == Big(ws[..n - 1], WORD) * WORD + ws[n - 1]
  {
    assert ws[..n][..n - 1] == ws[..n - 1];
  }

  /** The first bytes are those of the first n words, and those behind are as they were. */
  ghost predicate Filled(now: seq<Byte>, was: seq<Byte>, ws: seq<int>, top: nat, n: nat)
    requires n <= |ws| && Digits(ws, WORD)
  {
    var s := AllBytes(ws, top, n);
    |s| <= |now| && now[..|s|] == s && KeptFrom(now, was, |s|)
  }

  /** The output part of b58tobin; the first word has `top` bytes to write. */
  method WriteBytes(ws: seq<Word>, bin: array<Byte>, bytesleft: nat, ghost top: nat)
    requires top == (if bytesleft > 0 then bytesleft else 4) && |ws| > 0 && Digits(ws, WORD)
    requires top + 4 * (|ws| - 1) <= bin.Length
    modifies bin
    ensures Filled(bin[..], old(bin[..]), ws, top, |ws|)
  {
    ghost var was := bin[..];
    assert Filled(bin[..], was, ws, top, 0);
    hide *;
    var j, pos := 0, 0;
    if bytesleft > 0 {
      WriteMore(bin, 0, ws, top, 0, bytesleft, was);
      j, pos := 1, bytesleft;
    }
    while j < |ws|
      invariant 0 <= j <= |ws| && pos == top + 4 * j - 4 && Filled(bin[..], was, ws, top, j)
    {
      WriteMore(bin, pos, ws, top, j, 4, was);
      j, pos := j + 1, pos + 4;
    }
  }

  /** Word j is written behind those before it. */
  method WriteMore(bin: array<Byte>, pos: nat, ws: seq<Word>, ghost top: nat, j: nat, k: nat, ghost was: seq<Byte>)
    requires j < |ws| && Digits(ws, WORD) && Filled(bin[..], was, ws, top, j)
    requires k == (if j == 0 then top else 4) && pos + k == top + 4 * j <= bin.Length
    modifies bin
    ensures Filled(bin[..], was, ws, top, j + 1)
  {
    hide WordBytes, Digits;
    WriteWord(bin, pos, ws[j], k);
  }

  method Store(outi: array<Word>, bin: array<Byte>, binsz: nat)
    requires 0 < binsz <= bin.Length && outi.Length == Words(binsz)
    requires Big(outi[..], WORD) < Pow(256, binsz)
    modifies bin
    ensures Big(bin[..binsz], 256) == Big(outi[..], WORD)
    ensures forall m :: binsz <= m < bin.Length ==> bin[m] == old(bin[m])
  {
    ghost var top := TopBytes(binsz);
    ghost var ws: seq<int> := outi[..];
    OverflowTest(ws, binsz);
    AllBytesValue(ws, top, |ws|);
    assert ws[..|ws|] == ws;
    hide AllBytes, Big, Pow, Words, TopLimit;
    WriteBytes(outi[..], bin, binsz % 4, top);
  }

  /** What the two overflow tests decide once digit i of the text has been taken. */
  lemma DigitTaken(text: seq<Byte>, i: nat, d: seq<int>, s: seq<int>, c: int, binsz: nat)
    requires binsz > 0 && i < |text| && ValidText(text[..i]) && IsSymbol(text[i])
    requires |d| == Words(binsz) && Digits(d, WORD) && Big(d, WORD) == TextValue(text[..i])
    requires (s, c) == Shifted(d, 0, DigitMap(text[i]), 58, WORD)
    ensures Digits(s, WORD) && ValidText(text[..i + 1])
    ensures if c != 0 || s[0] >= TopLimit(binsz)
            then ValidText(text) ==> TextValue(text) >= Pow(256, binsz)
            else Big(s, WORD) == TextValue(text[..i + 1]) < Pow(256, binsz)
  {
    TextStep(text, i);
    ShiftedFits(d, DigitMap(text[i]), 58, WORD);
    ShiftedCarry(d, 0, DigitMap(text[i]), 58, WORD);
    WordsHold(binsz);
    OverflowTest(s, binsz);
    if ValidText(text) { TextMono(text, i + 1); }
  }

  /** The digit loop of b58tobin, from the first character that is no '1'. */
  method Accumulate(text: seq<Byte>, start: nat, binsz: nat) returns (ok: bool, outi: array<Word>)
    requires binsz > 0 && start <= |text| && forall k :: 0 <= k < start ==> text[k] == ONE
    ensures fresh(outi) && outi.Length == Words(binsz)
    ensures ok <==> ValidText(text) && TextValue(text) < Pow(256, binsz)
    ensures ok ==> Big(outi[..], WORD) == TextValue(text)
  {
    outi := new Word[Words(binsz)](_ => 0);
    var i := start;
    StartValue(text, start);
    ZerosThen(outi[..], outi.Length, WORD);
    PowPositive(binsz);
    WordCount(binsz);
    assert text[..|text|] == text;
    hide ValidText, TextValue, Big, Pow, TopLimit, Words, DigitMap, IsSymbol, Digits;
    while i < |text|
      invariant start <= i <= |text| && fresh(outi) && outi.Length == Words(binsz)
      invariant ValidText(text[..i]) && Big(outi[..], WORD) == TextValue(text[..i]) < Pow(256, binsz)
    {
      SymbolTest(text, i);
      if text[i] >= 128 || DigitMap(text[i]) == -1 {
        return false, outi;
      }
      ghost var d: seq<int> := outi[..];
      AreDigits(outi[..]);
      var c := TakeDigit(outi, DigitMap(text[i]));
      DigitTaken(text, i, d, outi[..], c, binsz);
      i := i + 1;
      if c != 0 || outi[0] >= TopLimit(binsz) {
        return false, outi;
      }
    }
    ok := true;
  }

  lemma SymbolTest(text: seq<Byte>, i: nat)
    requires i < |text|
    ensures IsSymbol(text[i]) <==> text[i] < 128 && DigitMap(text[i]) != -1
    ensures ValidText(text) ==> IsSymbol(text[i])
  {
  }

  lemma AreDigits(ws: seq<Word>)
    ensures Digits(ws, WORD)
  {
  }

  lemma PowPositive(n: nat)
    ensures Pow(256, n) > 0
  {
  }

  lemma WordCount(binsz: nat)
    requires binsz > 0
    ensures Words(binsz) > 0
  {
  }

  /** b58tobin succeeds exactly when every character is a symbol and the value
      fits into `binsz` bytes, which then hold it; the reported size is that of
      the decoded byte string, leading zeros included. */
  method ToBin(bin: array<Byte>, binsz: nat, b58: seq<Byte>, b58sz: nat) returns (ok: bool, newSize: nat)
    requires 0 < binsz <= bin.Length
    requires if b58sz == 0 then 0 in b58 else b58sz <= |b58|
    modifies bin
    ensures ok <==> ValidText(Text(b58, b58sz)) && TextValue(Text(b58, b58sz)) < Pow(256, binsz)
    ensures ok ==> Big(bin[..binsz], 256) == TextValue(Text(b58, b58sz))
    ensures ok ==> newSize == |Decode(Text(b58, b58sz)).value|
    ensures ok && newSize <= binsz ==> bin[binsz - newSize..binsz] == Decode(Text(b58, b58sz)).value
    ensures forall m :: (if ok then binsz else 0) <= m < bin.Length ==> bin[m] == old(bin[m])
    ensures !ok ==> newSize == binsz
  {
    var text := Text(b58, b58sz);
    var zerocount := CountOnes(text);
    hide Decode, ValidText, TextValue, Big, Pow, LeadingRun;
    var outi;
    ok, outi := Accumulate(text, zerocount, binsz);
    if !ok {
      return false, binsz;
    }
    Store(outi, bin, binsz);
    var zeros := CountZeroBytes(bin, binsz);
    ReportedSize(text, bin[..binsz], zeros);
    return true, binsz - zeros + zerocount;
  }

  method CountOnes(text: seq<Byte>) returns (n: nat)
    ensures n == LeadingRun(text, ONE) <= |text| && forall k :: 0 <= k < n ==> text[k] == ONE
  {
    n := 0;
    while n < |text| && text[n] == ONE
      invariant 0 <= n <= |text| && forall k :: 0 <= k < n ==> text[k] == ONE
    {
      n := n + 1;
    }
    RunIs(text, n, ONE);
  }

  method CountZeroBytes(bin: array<Byte>, binsz: nat) returns (n: nat)
    requires binsz <= bin.Length
    ensures n <= binsz && (forall k :: 0 <= k < n ==> bin[k] == 0) && (n < binsz ==> bin[n] != 0)
  {
    n := 0;
    while n < binsz && bin[n] == 0
      invariant 0 <= n <= binsz && forall k :: 0 <= k < n ==> bin[k] == 0
    {
      n := n + 1;
    }
  }

  lemma StartValue(text: seq<Byte>, n: nat)
    requires n <= |text| && forall k :: 0 <= k < n ==> text[k] == ONE
    ensures ValidText(text[..n]) && TextValue(text[..n]) == 0
  {
    ZerosThen(DigitsOf(text[..n]), n, 58);
  }

  lemma ReportedSize(text: seq<Byte>, bytes: seq<Byte>, zeros: nat)
    requires ValidText(text) && Big(bytes, 256) == TextValue(text)
    requires zeros <= |bytes| && (forall k :: 0 <= k < zeros ==> bytes[k] == 0) && (zeros < |bytes| ==> bytes[zeros] != 0)
    ensures var size := |bytes| - zeros + LeadingRun(text, ONE);
            size == |Decode(text).value| &&
            (size <= |bytes| ==> bytes[|bytes| - size..] == Decode(text).value)
  {
    var z := LeadingRun(text, ONE);
    Trimmed(bytes, zeros, 256);
    ValueAfterOnes(text);
    assert Decode(text).value == Repeat(0, z) + bytes[zeros..];
    if z <= zeros { SplitTail(bytes, zeros, z); }
  }

  lemma ValueAfterOnes(text: seq<Byte>)
    requires ValidText(text)
    ensures TextValue(text) == TextValue(text[LeadingRun(text, ONE)..])
  {
    var z := LeadingRun(text, ONE);
    assert DigitsOf(text)[z..] == DigitsOf(text[z..]);
    ZerosThen(DigitsOf(text), z, 58);
  }

  lemma SplitTail(bytes: seq<int>, zeros: nat, z: nat)
    requires z <= zeros <= |bytes| && forall k :: 0 <= k < zeros ==> bytes[k] == 0
    ensures bytes[zeros - z..] == Repeat(0, z) + bytes[zeros..]
  {
  }
}
