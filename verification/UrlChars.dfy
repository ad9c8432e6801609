/** The classes of characters in URLs as literal alphabets. */
module UrlChars {
  import opened UrlSpec

  const DIGITS: string := "0123456789"
  const CAPITALS: string := "ABCDEFGHIJKLMNOPQRSTUVWXYZ"
  const SMALL: string := "abcdefghijklmnopqrstuvwxyz"

  lemma Ranges(c: char)
    ensures IsNum(c) <==> c in DIGITS
    ensures IsAlpha(c) <==> c in CAPITALS || c in SMALL
  {
    hide CAPITALS, SMALL;
    var d := DIGITS;
    if IsNum(c) {
      assert d[c as int - '0' as int] == c;
    }
    Letters(c);
  }

  lemma Letters(c: char)
    ensures 'A' <= c <= 'Z' <==> c in CAPITALS
    ensures 'a' <= c <= 'z' <==> c in SMALL
  {
    Capitals(c);
    Smalls(c);
    hide CAPITALS, SMALL;
  }

  lemma Capitals(c: char)
    ensures 'A' <= c <= 'Z' <==> c in CAPITALS
  {
    var u := CAPITALS;
    if 'A' <= c <= 'Z' {
      assert u[c as int - 'A' as int] == c;
    }
  }

  lemma Smalls(c: char)
    ensures 'a' <= c <= 'z' <==> c in SMALL
  {
    var l := SMALL;
    if 'a' <= c <= 'z' {
      assert l[c as int - 'a' as int] == c;
    }
  }

  predicate IsAlnum(c: char) { c in DIGITS || c in CAPITALS || c in SMALL }

  /** What may stand in each part beside letters and digits. */
  lemma Classes(c: char)
    ensures IsMark(c) <==> c in "-_.!~*'()"
    ensures IsUserinfoChar(c) <==> IsAlnum(c) || c in "-_.!~*'()%;:&=+$,"
    ensures IsHostChar(c) <==> IsAlnum(c) || c in ".-"
    ensures IsZoneChar(c) <==> IsAlnum(c) || c in "%.-_~"
    ensures IsHex(c) <==> c in "0123456789abcdefABCDEF"
  {
    Ranges(c);
    HexDigits(c);
    hide IsNum, IsAlpha, DIGITS, CAPITALS, SMALL;
  }

  lemma HexDigits(c: char)
    ensures IsHex(c) <==> c in "0123456789abcdefABCDEF"
  {
    var d := "0123456789abcdefABCDEF";
    if IsNum(c) {
      assert d[c as int - '0' as int] == c;
    } else if 'a' <= c <= 'f' {
      assert d[c as int - 'a' as int + 10] == c;
    } else if 'A' <= c <= 'F' {
      assert d[c as int - 'A' as int + 16] == c;
    }
  }

  /** The bitmap of the strict build: eight characters a byte, the first the lowest bit. */
  const BITMAP: seq<nat> := [0, 0, 0, 0, 0xf6, 0xff, 0xff, 0x7f, 0xff, 0xff, 0xff, 0xff, 0xff, 0xff, 0xff, 0x7f]

  function Bit(n: nat, k: nat): nat
    requires k < 8
  {
    (if k == 0 then n else if k == 1 then n / 2 else if k == 2 then n / 4 else if k == 3 then n / 8
     else if k == 4 then n / 16 else if k == 5 then n / 32 else if k == 6 then n / 64 else n / 128) % 2
  }

  /** A character of a path is one whose bit is set. */
  lemma UrlBits(c: char)
    ensures IsUrlChar(c) <==> (c as nat) < 128 && Bit(BITMAP[c as nat / 8], c as nat % 8) == 1
  {
    if (c as nat) < 128 {
      ByteOfMap(c as nat / 8);
      BitsOfMap(c as nat % 8);
      hide BITMAP, Bit;
    }
  }

  lemma ByteOfMap(i: nat)
    requires i < 16
    ensures BITMAP[i] == if i < 4 then 0 else if i == 4 then 0xf6 else if i == 7 || i == 15 then 0x7f else 0xff
  {
  }

  lemma BitsOfMap(k: nat)
    requires k < 8
    ensures Bit(0, k) == 0 && Bit(0xff, k) == 1
    ensures Bit(0xf6, k) == (if k == 0 || k == 3 then 0 else 1) && Bit(0x7f, k) == (if k == 7 then 0 else 1)
  {
  }

  /** A number in decimal digits, the highest one first. */
  function PrintDecimal(n: nat): string
  {
    if n < 10 then [DIGITS[n]] else PrintDecimal(n / 10) + [DIGITS[n % 10]]
  }

  /** The value of a port is the number that is printed. */
  lemma {:induction false} PrintedDecimal(n: nat)
    ensures var s := PrintDecimal(n);
            (forall i :: 0 <= i < |s| ==> IsNum(s[i])) && Decimal(s) == n
  {
    DigitIs(n % 10);
    if n >= 10 {
      PrintedDecimal(n / 10);
      hide DIGITS;
      var s, c := PrintDecimal(n / 10), DIGITS[n % 10];
      assert (s + [c])[..|s|] == s && PrintDecimal(n) == s + [c];
    } else {
      assert PrintDecimal(n)[..0] == [];
    }
  }

  lemma DigitIs(d: nat)
    requires d < 10
    ensures |DIGITS| == 10 && IsNum(DIGITS[d]) && DIGITS[d] as int - '0' as int == d
  {
  }
}
