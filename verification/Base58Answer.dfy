/** The alphabet as it is written, and an encoded string. */
module Base58Answer {
  import opened Radix
  import opened Base58Spec

  const ALPHABET: string := "123456789ABCDEFGH" + "JKLMNPQRSTUVWXYZabcdefghijkmnopqrstuvwxyz"

  /** The symbols are the characters of the alphabet in order, and no other one is a symbol. */
  lemma AlphabetIs(d: nat, c: Byte)
    requires d < 58
    ensures |ALPHABET| == 58 && ALPHABET[d] == Symbol(d) as char
    ensures IsSymbol(c) <==> c as char in ALPHABET
  {
    Characters(d);
    if IsSymbol(c) {
      DigitSymbol(c);
      Characters(DigitMap(c));
    }
    if c as char in ALPHABET {
      var k :| 0 <= k < |ALPHABET| && ALPHABET[k] == c as char;
      Characters(k);
      SymbolDigit(k);
    }
  }

  lemma Characters(d: nat)
    requires d < 58
    ensures |ALPHABET| == 58 && ALPHABET[d] == Symbol(d) as char
  {
    if d < 9 {
      Characters0(d);
    } else if d < 17 {
      Characters1(d);
    } else if d < 22 {
      Characters2(d);
    } else if d < 33 {
      Characters3(d);
    } else if d < 44 {
      Characters4(d);
    } else {
      Characters5(d);
    }
  }

  lemma Characters0(d: nat)
    requires 0 <= d < 9
    ensures |ALPHABET| == 58 && ALPHABET[d] == Symbol(d) as char
  {
    assert d == 0 || d == 1 || d == 2 || d == 3 || d == 4 || d == 5 || d == 6 || d == 7 || d == 8;
  }

  lemma Characters1(d: nat)
    requires 9 <= d < 17
    ensures |ALPHABET| == 58 && ALPHABET[d] == Symbol(d) as char
  {
    assert d == 9 || d == 10 || d == 11 || d == 12 || d == 13 || d == 14 || d == 15 || d == 16;
  }

  lemma Characters2(d: nat)
    requires 17 <= d < 22
    ensures |ALPHABET| == 58 && ALPHABET[d] == Symbol(d) as char
  {
    assert d == 17 || d == 18 || d == 19 || d == 20 || d == 21;
  }

  lemma Characters3(d: nat)
    requires 22 <= d < 33
    ensures |ALPHABET| == 58 && ALPHABET[d] == Symbol(d) as char
  {
    assert d == 22 || d == 23 || d == 24 || d == 25 || d == 26 || d == 27 || d == 28 || d == 29 || d == 30 || d == 31 || d == 32;
  }

  lemma Characters4(d: nat)
    requires 33 <= d < 44
    ensures |ALPHABET| == 58 && ALPHABET[d] == Symbol(d) as char
  {
    assert d == 33 || d == 34 || d == 35 || d == 36 || d == 37 || d == 38 || d == 39 || d == 40 || d == 41 || d == 42 || d == 43;
  }

  lemma Characters5(d: nat)
    requires 44 <= d < 58
    ensures |ALPHABET| == 58 && ALPHABET[d] == Symbol(d) as char
  {
    assert d == 44 || d == 45 || d == 46 || d == 47 || d == 48 || d == 49 || d == 50 || d == 51 || d == 52 || d == 53 || d == 54 || d == 55 || d == 56 || d == 57;
  }

  const BYTES: seq<Byte> := [0x51, 0x6b, 0x6f, 0xcd, 0x0f]
  const DIGITS: seq<int> := [9, 10, 45, 19, 26, 44, 39]

  lemma More(s: seq<int>, d: int, b: nat)
    ensures Big(s + [d], b) == Big(s, b) * b + d
  {
    assert (s + [d])[..|s|] == s;
  }

  lemma FiveBytes()
    ensures Big(BYTES, 256) == 0x51_6b6f_cd0f
  {
    assert Big([], 256) == 0;
    More([], 0x51, 256);
    More([0x51], 0x6b, 256);
    More([0x51, 0x6b], 0x6f, 256);
    More([0x51, 0x6b, 0x6f], 0xcd, 256);
    More([0x51, 0x6b, 0x6f, 0xcd], 0x0f, 256);
    hide Big;
    var none: seq<int> := [];
    assert none + [0x51] == [0x51] && [0x51] + [0x6b] == [0x51, 0x6b] && [0x51, 0x6b] + [0x6f] == [0x51, 0x6b, 0x6f];
    assert [0x51, 0x6b, 0x6f] + [0xcd] == [0x51, 0x6b, 0x6f, 0xcd] && [0x51, 0x6b, 0x6f, 0xcd] + [0x0f] == BYTES;
  }

  lemma SevenDigits()
    ensures Big(DIGITS, 58) == 0x51_6b6f_cd0f
  {
    assert Big([], 58) == 0;
    More([], 9, 58);
    More([9], 10, 58);
    More([9, 10], 45, 58);
    More([9, 10, 45], 19, 58);
    More([9, 10, 45, 19], 26, 58);
    More([9, 10, 45, 19, 26], 44, 58);
    More([9, 10, 45, 19, 26, 44], 39, 58);
    hide Big;
    var none: seq<int> := [];
    assert none + [9] == [9] && [9] + [10] == [9, 10] && [9, 10] + [45] == [9, 10, 45];
    assert [9, 10, 45] + [19] == [9, 10, 45, 19] && [9, 10, 45, 19] + [26] == [9, 10, 45, 19, 26];
    assert [9, 10, 45, 19, 26] + [44] == [9, 10, 45, 19, 26, 44] && [9, 10, 45, 19, 26, 44] + [39] == DIGITS;
  }

  /** Two zero bytes and 51 6b 6f cd 0f are 11ABnLTmg. */
  lemma EncodedBytes()
    ensures Encode([0, 0] + BYTES) == [49, 49, 65, 66, 110, 76, 84, 109, 103]
  {
    FiveBytes();
    SevenDigits();
    ShortestIsUnique(DIGITS, 58);
    ZeroRun();
    assert ([0, 0] + BYTES)[2..] == BYTES;
    SevenSymbols();
    hide Big, ToBase;
    assert Repeat(ONE, 2) == [49, 49];
  }

  lemma SevenSymbols()
    ensures Digits(DIGITS, 58) && Symbols(DIGITS) == [65, 66, 110, 76, 84, 109, 103]
  {
  }

  lemma ZeroRun()
    ensures LeadingRun([0, 0] + BYTES, 0) == 2
  {
    var s := [0, 0] + BYTES;
    assert s[0] == 0 && s[1..][0] == 0 && s[1..][1..][0] == 0x51;
  }
}
