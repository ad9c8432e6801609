/** Chunk sizes in hexadecimal digits, and bodies whose chunks are sent with such sizes. */
module HttpSizes {
  import Radix
  import opened ByteSeqs
  import opened HttpChunkSpec
  import opened HttpChunks

  const LOWER: string := "0123456789abcdef"
  const UPPER: string := "0123456789ABCDEF"

  /** The digits of either case have the values 0 to 15.  No other character is a digit, but
      that the bytes from 128 on pass for zeros. */
  lemma UnhexIs(v: nat, c: char)
    requires v < 16
    ensures Unhex(LOWER[v]) == Unhex(UPPER[v]) == v
    ensures c !in LOWER && c !in UPPER ==> Unhex(c) == if 128 <= c as int < 256 then 0 else -1
  {
    var d := LOWER;
    if '0' <= c <= '9' {
      assert d[c as int - '0' as int] == c;
    } else if 'a' <= c <= 'f' {
      assert d[c as int - 'a' as int + 10] == c;
    } else if 'A' <= c <= 'F' {
      var e := UPPER;
      assert e[c as int - 'A' as int + 10] == c;
    }
  }

  /** A number in hexadecimal digits. */
  function PrintHex(n: nat): (s: string)
    ensures s != []
  {
    if n < 16 then [LOWER[n]] else PrintHex(n / 16) + [LOWER[n % 16]]
  }

  lemma {:induction false} HexFromAppend(v: nat, s: string, c: char)
    requires Digits(s) && Unhex(c) != -1
    ensures Digits(s + [c]) && HexFrom(v, s + [c]) == HexFrom(v, s) * 16 + Unhex(c)
    decreases |s|
  {
    hide Unhex;
    if s == [] {
      assert s + [c] == [c] && [c][1..] == [];
    } else {
      HexFromAppend(v * 16 + Unhex(s[0]), s[1..], c);
      assert (s + [c])[1..] == s[1..] + [c];
    }
  }

  /** Reading the digits gives the number back. */
  lemma {:induction false} PrintHexValue(n: nat)
    ensures Digits(PrintHex(n)) && HexFrom(0, PrintHex(n)) == n
  {
    UnhexIs(n % 16, 'x');
    if n < 16 {
      assert [LOWER[n]][1..] == [];
    } else {
      PrintHexValue(n / 16);
      hide Unhex;
      HexFromAppend(0, PrintHex(n / 16), LOWER[n % 16]);
    }
  }

  lemma {:induction false} PrintHexShort(n: nat, k: nat)
    requires k > 0 && n < Radix.Pow(16, k)
    ensures |PrintHex(n)| <= k
  {
    if n >= 16 && k > 1 {
      PrintHexShort(n / 16, k - 1);
    }
  }

  lemma SixteenDigits()
    ensures Radix.Pow(16, 16) == ULLONG_MAX + 1
  {
    assert Radix.Pow(16, 4) == 0x1_0000;
    hide Radix.Pow;
    Radix.PowAdd(16, 4, 4);
    Radix.PowAdd(16, 8, 8);
  }

  /** Stretches of a body as chunks without extensions. */
  function Chunks(datas: seq<string>): seq<Chunk> {
    if datas == [] then [] else [Chunk(PrintHex(|datas[0]|), "", datas[0])] + Chunks(datas[1..])
  }

  lemma SizeIsLine(n: nat)
    requires n <= ULLONG_MAX
    ensures SizeLine(PrintHex(n), "")
  {
    PrintHexValue(n);
    SixteenDigits();
    PrintHexShort(n, 16);
  }

  lemma {:induction false} ChunksAreSendable(datas: seq<string>)
    requires forall i :: 0 <= i < |datas| ==> 0 < |datas[i]| <= ULLONG_MAX - 16
    ensures forall i :: 0 <= i < |Chunks(datas)| ==> Sendable(Chunks(datas)[i])
    ensures DataAll(Chunks(datas)) == Concat(datas)
  {
    if datas != [] {
      hide SizeLine, HexFrom;
      ChunksAreSendable(datas[1..]);
      SizeIsLine(|datas[0]|);
      PrintHexValue(|datas[0]|);
      var k := Chunk(PrintHex(|datas[0]|), "", datas[0]);
      assert Chunks(datas)[0] == k && Chunks(datas)[1..] == Chunks(datas[1..]);
    }
  }

  /** The wire form of a body in chunks. */
  function Sent(datas: seq<string>): string { WireAll(Chunks(datas), PrintHex(0), "") }

  /** A body sent in any chunks is read to its last character and delivered as it was,
      however the stream is cut into calls. */
  lemma SentIsRead(c: Core, datas: seq<string>, pieces: seq<string>)
    requires AtSizeStart(c) && (forall i :: 0 <= i < |datas| ==> 0 < |datas[i]| <= ULLONG_MAX - 16)
    requires Concat(pieces) == Sent(datas) && forall i :: 0 <= i < |pieces| ==> pieces[i] != []
    ensures var o := Calls(c, pieces);
            && BodyOf(o.events) == Concat(datas) && o.events == EventsAll(Chunks(datas))
            && o.consumed == |Sent(datas)| && o.core.state == Finished && o.core.errno == Ok
  {
    ChunksAreSendable(datas);
    SizeIsLine(0);
    PrintHexValue(0);
    hide Sendable, SizeLine, HexFrom, WireAll, PrintHex, Concat, Calls;
    CutChunkedIsRead(c, Chunks(datas), PrintHex(0), "", pieces);
    BodyIsData(Chunks(datas));
  }

  /** A byte from 128 on behind the digit 1 makes the size 16. */
  lemma HighByteIsZero(c: Core, b: char, rest: string)
    requires AtSizeStart(c) && 128 <= b as int < 256
    ensures var d := c.(state := Size, contentLength := 16, nread := 2);
            InSize(d) && Reads(c, ['1', b], rest, d, [])
  {
    UnhexIs(1, b);
    var s := ['1', b];
    assert s[1..] == [b] && [b][1..] == [];
    assert LOWER[1] == '1';
    NoDigit(b);
    hide Unhex, Reads;
    assert HexFrom(0, s) == HexFrom(1, [b]) == HexFrom(16, []);
    ReadsSize(c, s, rest);
  }

  lemma NoDigit(b: char)
    requires 128 <= b as int < 256
    ensures Unhex(b) == 0
  {
  }
}
