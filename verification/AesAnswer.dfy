/** Answers that the standards give: the key schedule of FIPS 197, section A.1, and the first
    block of NIST SP 800-38A, section F.2.1. */
module AesAnswer {
  import opened ByteSeqs
  import opened AesField
  import opened Aes
  import opened AesCbc
  import opened AesBuffers

  // ----- the key schedule

  lemma Words1()
    ensures XorWord([0x2b, 0x7e, 0x15, 0x16], Turned([0x09, 0xcf, 0x4f, 0x3c], 4)) == [0xa0, 0xfa, 0xfe, 0x17]
    ensures XorWord([0x28, 0xae, 0xd2, 0xa6], Turned([0xa0, 0xfa, 0xfe, 0x17], 5)) == [0x88, 0x54, 0x2c, 0xb1]
    ensures XorWord([0xab, 0xf7, 0x15, 0x88], Turned([0x88, 0x54, 0x2c, 0xb1], 6)) == [0x23, 0xa3, 0x39, 0x39]
    ensures XorWord([0x09, 0xcf, 0x4f, 0x3c], Turned([0x23, 0xa3, 0x39, 0x39], 7)) == [0x2a, 0x6c, 0x76, 0x05]
  {
  }

  lemma Words2()
    ensures XorWord([0xa0, 0xfa, 0xfe, 0x17], Turned([0x2a, 0x6c, 0x76, 0x05], 8)) == [0xf2, 0xc2, 0x95, 0xf2]
    ensures XorWord([0x88, 0x54, 0x2c, 0xb1], Turned([0xf2, 0xc2, 0x95, 0xf2], 9)) == [0x7a, 0x96, 0xb9, 0x43]
    ensures XorWord([0x23, 0xa3, 0x39, 0x39], Turned([0x7a, 0x96, 0xb9, 0x43], 10)) == [0x59, 0x35, 0x80, 0x7a]
    ensures XorWord([0x2a, 0x6c, 0x76, 0x05], Turned([0x59, 0x35, 0x80, 0x7a], 11)) == [0x73, 0x59, 0xf6, 0x7f]
  {
  }

  lemma Words3()
    ensures XorWord([0xf2, 0xc2, 0x95, 0xf2], Turned([0x73, 0x59, 0xf6, 0x7f], 12)) == [0x3d, 0x80, 0x47, 0x7d]
    ensures XorWord([0x7a, 0x96, 0xb9, 0x43], Turned([0x3d, 0x80, 0x47, 0x7d], 13)) == [0x47, 0x16, 0xfe, 0x3e]
    ensures XorWord([0x59, 0x35, 0x80, 0x7a], Turned([0x47, 0x16, 0xfe, 0x3e], 14)) == [0x1e, 0x23, 0x7e, 0x44]
    ensures XorWord([0x73, 0x59, 0xf6, 0x7f], Turned([0x1e, 0x23, 0x7e, 0x44], 15)) == [0x6d, 0x7a, 0x88, 0x3b]
  {
  }

  lemma Words4()
    ensures XorWord([0x3d, 0x80, 0x47, 0x7d], Turned([0x6d, 0x7a, 0x88, 0x3b], 16)) == [0xef, 0x44, 0xa5, 0x41]
    ensures XorWord([0x47, 0x16, 0xfe, 0x3e], Turned([0xef, 0x44, 0xa5, 0x41], 17)) == [0xa8, 0x52, 0x5b, 0x7f]
    ensures XorWord([0x1e, 0x23, 0x7e, 0x44], Turned([0xa8, 0x52, 0x5b, 0x7f], 18)) == [0xb6, 0x71, 0x25, 0x3b]
    ensures XorWord([0x6d, 0x7a, 0x88, 0x3b], Turned([0xb6, 0x71, 0x25, 0x3b], 19)) == [0xdb, 0x0b, 0xad, 0x00]
  {
  }

  lemma Words5()
    ensures XorWord([0xef, 0x44, 0xa5, 0x41], Turned([0xdb, 0x0b, 0xad, 0x00], 20)) == [0xd4, 0xd1, 0xc6, 0xf8]
    ensures XorWord([0xa8, 0x52, 0x5b, 0x7f], Turned([0xd4, 0xd1, 0xc6, 0xf8], 21)) == [0x7c, 0x83, 0x9d, 0x87]
    ensures XorWord([0xb6, 0x71, 0x25, 0x3b], Turned([0x7c, 0x83, 0x9d, 0x87], 22)) == [0xca, 0xf2, 0xb8, 0xbc]
    ensures XorWord([0xdb, 0x0b, 0xad, 0x00], Turned([0xca, 0xf2, 0xb8, 0xbc], 23)) == [0x11, 0xf9, 0x15, 0xbc]
  {
  }

  lemma Words6()
    ensures XorWord([0xd4, 0xd1, 0xc6, 0xf8], Turned([0x11, 0xf9, 0x15, 0xbc], 24)) == [0x6d, 0x88, 0xa3, 0x7a]
    ensures XorWord([0x7c, 0x83, 0x9d, 0x87], Turned([0x6d, 0x88, 0xa3, 0x7a], 25)) == [0x11, 0x0b, 0x3e, 0xfd]
    ensures XorWord([0xca, 0xf2, 0xb8, 0xbc], Turned([0x11, 0x0b, 0x3e, 0xfd], 26)) == [0xdb, 0xf9, 0x86, 0x41]
    ensures XorWord([0x11, 0xf9, 0x15, 0xbc], Turned([0xdb, 0xf9, 0x86, 0x41], 27)) == [0xca, 0x00, 0x93, 0xfd]
  {
  }

  lemma Words7()
    ensures XorWord([0x6d, 0x88, 0xa3, 0x7a], Turned([0xca, 0x00, 0x93, 0xfd], 28)) == [0x4e, 0x54, 0xf7, 0x0e]
    ensures XorWord([0x11, 0x0b, 0x3e, 0xfd], Turned([0x4e, 0x54, 0xf7, 0x0e], 29)) == [0x5f, 0x5f, 0xc9, 0xf3]
    ensures XorWord([0xdb, 0xf9, 0x86, 0x41], Turned([0x5f, 0x5f, 0xc9, 0xf3], 30)) == [0x84, 0xa6, 0x4f, 0xb2]
    ensures XorWord([0xca, 0x00, 0x93, 0xfd], Turned([0x84, 0xa6, 0x4f, 0xb2], 31)) == [0x4e, 0xa6, 0xdc, 0x4f]
  {
  }

  lemma Words8()
    ensures XorWord([0x4e, 0x54, 0xf7, 0x0e], Turned([0x4e, 0xa6, 0xdc, 0x4f], 32)) == [0xea, 0xd2, 0x73, 0x21]
    ensures XorWord([0x5f, 0x5f, 0xc9, 0xf3], Turned([0xea, 0xd2, 0x73, 0x21], 33)) == [0xb5, 0x8d, 0xba, 0xd2]
    ensures XorWord([0x84, 0xa6, 0x4f, 0xb2], Turned([0xb5, 0x8d, 0xba, 0xd2], 34)) == [0x31, 0x2b, 0xf5, 0x60]
    ensures XorWord([0x4e, 0xa6, 0xdc, 0x4f], Turned([0x31, 0x2b, 0xf5, 0x60], 35)) == [0x7f, 0x8d, 0x29, 0x2f]
  {
  }

  lemma Words9()
    ensures XorWord([0xea, 0xd2, 0x73, 0x21], Turned([0x7f, 0x8d, 0x29, 0x2f], 36)) == [0xac, 0x77, 0x66, 0xf3]
    ensures XorWord([0xb5, 0x8d, 0xba, 0xd2], Turned([0xac, 0x77, 0x66, 0xf3], 37)) == [0x19, 0xfa, 0xdc, 0x21]
    ensures XorWord([0x31, 0x2b, 0xf5, 0x60], Turned([0x19, 0xfa, 0xdc, 0x21], 38)) == [0x28, 0xd1, 0x29, 0x41]
    ensures XorWord([0x7f, 0x8d, 0x29, 0x2f], Turned([0x28, 0xd1, 0x29, 0x41], 39)) == [0x57, 0x5c, 0x00, 0x6e]
  {
  }

  lemma Words10()
    ensures XorWord([0xac, 0x77, 0x66, 0xf3], Turned([0x57, 0x5c, 0x00, 0x6e], 40)) == [0xd0, 0x14, 0xf9, 0xa8]
    ensures XorWord([0x19, 0xfa, 0xdc, 0x21], Turned([0xd0, 0x14, 0xf9, 0xa8], 41)) == [0xc9, 0xee, 0x25, 0x89]
    ensures XorWord([0x28, 0xd1, 0x29, 0x41], Turned([0xc9, 0xee, 0x25, 0x89], 42)) == [0xe1, 0x3f, 0x0c, 0xc8]
    ensures XorWord([0x57, 0x5c, 0x00, 0x6e], Turned([0xe1, 0x3f, 0x0c, 0xc8], 43)) == [0xb6, 0x63, 0x0c, 0xa6]
  {
  }

  /** The key of section A.1. */
  function FirstKey(): (key: seq<byte>)
    ensures |key| == KEYLEN
  {
    [0x2b, 0x7e, 0x15, 0x16, 0x28, 0xae, 0xd2, 0xa6, 0xab, 0xf7, 0x15, 0x88, 0x09, 0xcf, 0x4f, 0x3c]
  }

  /** Four words of a schedule. */
  ghost predicate HasWords(key: seq<byte>, i: nat, a: seq<byte>, b: seq<byte>, c: seq<byte>, d: seq<byte>)
    requires |key| == KEYLEN && i <= 40
  {
    KeyWord(key, i) == a && KeyWord(key, i + 1) == b && KeyWord(key, i + 2) == c && KeyWord(key, i + 3) == d
  }

  lemma MoreWords(key: seq<byte>, i: nat, a: seq<byte>, b: seq<byte>, c: seq<byte>, d: seq<byte>,
                  e: seq<byte>, f: seq<byte>, g: seq<byte>, h: seq<byte>)
    requires |key| == KEYLEN && i <= 36 && HasWords(key, i, a, b, c, d) && IsWord(a) && IsWord(b) && IsWord(c) && IsWord(d)
    requires IsWord(e) && IsWord(f) && IsWord(g) && IsWord(h)
    requires XorWord(a, Turned(d, i + 4)) == e && XorWord(b, Turned(e, i + 5)) == f
    requires XorWord(c, Turned(f, i + 6)) == g && XorWord(d, Turned(g, i + 7)) == h
    ensures HasWords(key, i + 4, e, f, g, h)
  {
    NextWord(key, i + 4);
    NextWord(key, i + 5);
    NextWord(key, i + 6);
    NextWord(key, i + 7);
    hide KeyWord, XorWord, Turned;
  }

  lemma KeyWords0(key: seq<byte>)
    requires |key| == KEYLEN && key == FirstKey()
    ensures HasWords(key, 0, [0x2b, 0x7e, 0x15, 0x16], [0x28, 0xae, 0xd2, 0xa6], [0xab, 0xf7, 0x15, 0x88], [0x09, 0xcf, 0x4f, 0x3c])
  {
    FirstWord(key, 0);
    FirstWord(key, 1);
    FirstWord(key, 2);
    FirstWord(key, 3);
    hide KeyWord;
  }

  lemma KeyWords1(key: seq<byte>)
    requires |key| == KEYLEN && key == FirstKey()
    ensures HasWords(key, 4, [0xa0, 0xfa, 0xfe, 0x17], [0x88, 0x54, 0x2c, 0xb1], [0x23, 0xa3, 0x39, 0x39], [0x2a, 0x6c, 0x76, 0x05])
  {
    hide HasWords, KeyWord, XorWord, Turned, FirstKey;
    KeyWords0(key);
    Words1();
    MoreWords(key, 0, [0x2b, 0x7e, 0x15, 0x16], [0x28, 0xae, 0xd2, 0xa6], [0xab, 0xf7, 0x15, 0x88], [0x09, 0xcf, 0x4f, 0x3c],
              [0xa0, 0xfa, 0xfe, 0x17], [0x88, 0x54, 0x2c, 0xb1], [0x23, 0xa3, 0x39, 0x39], [0x2a, 0x6c, 0x76, 0x05]);
  }

  lemma KeyWords2(key: seq<byte>)
    requires |key| == KEYLEN && key == FirstKey()
    ensures HasWords(key, 8, [0xf2, 0xc2, 0x95, 0xf2], [0x7a, 0x96, 0xb9, 0x43], [0x59, 0x35, 0x80, 0x7a], [0x73, 0x59, 0xf6, 0x7f])
  {
    hide HasWords, KeyWord, XorWord, Turned, FirstKey;
    KeyWords1(key);
    Words2();
    MoreWords(key, 4, [0xa0, 0xfa, 0xfe, 0x17], [0x88, 0x54, 0x2c, 0xb1], [0x23, 0xa3, 0x39, 0x39], [0x2a, 0x6c, 0x76, 0x05],
              [0xf2, 0xc2, 0x95, 0xf2], [0x7a, 0x96, 0xb9, 0x43], [0x59, 0x35, 0x80, 0x7a], [0x73, 0x59, 0xf6, 0x7f]);
  }

  lemma KeyWords3(key: seq<byte>)
    requires |key| == KEYLEN && key == FirstKey()
    ensures HasWords(key, 12, [0x3d, 0x80, 0x47, 0x7d], [0x47, 0x16, 0xfe, 0x3e], [0x1e, 0x23, 0x7e, 0x44], [0x6d, 0x7a, 0x88, 0x3b])
  {
    hide HasWords, KeyWord, XorWord, Turned, FirstKey;
    KeyWords2(key);
    Words3();
    MoreWords(key, 8, [0xf2, 0xc2, 0x95, 0xf2], [0x7a, 0x96, 0xb9, 0x43], [0x59, 0x35, 0x80, 0x7a], [0x73, 0x59, 0xf6, 0x7f],
              [0x3d, 0x80, 0x47, 0x7d], [0x47, 0x16, 0xfe, 0x3e], [0x1e, 0x23, 0x7e, 0x44], [0x6d, 0x7a, 0x88, 0x3b]);
  }

  lemma KeyWords4(key: seq<byte>)
    requires |key| == KEYLEN && key == FirstKey()
    ensures HasWords(key, 16, [0xef, 0x44, 0xa5, 0x41], [0xa8, 0x52, 0x5b, 0x7f], [0xb6, 0x71, 0x25, 0x3b], [0xdb, 0x0b, 0xad, 0x00])
  {
    hide HasWords, KeyWord, XorWord, Turned, FirstKey;
    KeyWords3(key);
    Words4();
    MoreWords(key, 12, [0x3d, 0x80, 0x47, 0x7d], [0x47, 0x16, 0xfe, 0x3e], [0x1e, 0x23, 0x7e, 0x44], [0x6d, 0x7a, 0x88, 0x3b],
              [0xef, 0x44, 0xa5, 0x41], [0xa8, 0x52, 0x5b, 0x7f], [0xb6, 0x71, 0x25, 0x3b], [0xdb, 0x0b, 0xad, 0x00]);
  }

  lemma KeyWords5(key: seq<byte>)
    requires |key| == KEYLEN && key == FirstKey()
    ensures HasWords(key, 20, [0xd4, 0xd1, 0xc6, 0xf8], [0x7c, 0x83, 0x9d, 0x87], [0xca, 0xf2, 0xb8, 0xbc], [0x11, 0xf9, 0x15, 0xbc])
  {
    hide HasWords, KeyWord, XorWord, Turned, FirstKey;
    KeyWords4(key);
    Words5();
    MoreWords(key, 16, [0xef, 0x44, 0xa5, 0x41], [0xa8, 0x52, 0x5b, 0x7f], [0xb6, 0x71, 0x25, 0x3b], [0xdb, 0x0b, 0xad, 0x00],
              [0xd4, 0xd1, 0xc6, 0xf8], [0x7c, 0x83, 0x9d, 0x87], [0xca, 0xf2, 0xb8, 0xbc], [0x11, 0xf9, 0x15, 0xbc]);
  }

  lemma KeyWords6(key: seq<byte>)
    requires |key| == KEYLEN && key == FirstKey()
    ensures HasWords(key, 24, [0x6d, 0x88, 0xa3, 0x7a], [0x11, 0x0b, 0x3e, 0xfd], [0xdb, 0xf9, 0x86, 0x41], [0xca, 0x00, 0x93, 0xfd])
  {
    hide HasWords, KeyWord, XorWord, Turned, FirstKey;
    KeyWords5(key);
    Words6();
    MoreWords(key, 20, [0xd4, 0xd1, 0xc6, 0xf8], [0x7c, 0x83, 0x9d, 0x87], [0xca, 0xf2, 0xb8, 0xbc], [0x11, 0xf9, 0x15, 0xbc],
              [0x6d, 0x88, 0xa3, 0x7a], [0x11, 0x0b, 0x3e, 0xfd], [0xdb, 0xf9, 0x86, 0x41], [0xca, 0x00, 0x93, 0xfd]);
  }

  lemma KeyWords7(key: seq<byte>)
    requires |key| == KEYLEN && key == FirstKey()
    ensures HasWords(key, 28, [0x4e, 0x54, 0xf7, 0x0e], [0x5f, 0x5f, 0xc9, 0xf3], [0x84, 0xa6, 0x4f, 0xb2], [0x4e, 0xa6, 0xdc, 0x4f])
  {
    hide HasWords, KeyWord, XorWord, Turned, FirstKey;
    KeyWords6(key);
    Words7();
    MoreWords(key, 24, [0x6d, 0x88, 0xa3, 0x7a], [0x11, 0x0b, 0x3e, 0xfd], [0xdb, 0xf9, 0x86, 0x41], [0xca, 0x00, 0x93, 0xfd],
              [0x4e, 0x54, 0xf7, 0x0e], [0x5f, 0x5f, 0xc9, 0xf3], [0x84, 0xa6, 0x4f, 0xb2], [0x4e, 0xa6, 0xdc, 0x4f]);
  }

  lemma KeyWords8(key: seq<byte>)
    requires |key| == KEYLEN && key == FirstKey()
    ensures HasWords(key, 32, [0xea, 0xd2, 0x73, 0x21], [0xb5, 0x8d, 0xba, 0xd2], [0x31, 0x2b, 0xf5, 0x60], [0x7f, 0x8d, 0x29, 0x2f])
  {
    hide HasWords, KeyWord, XorWord, Turned, FirstKey;
    KeyWords7(key);
    Words8();
    MoreWords(key, 28, [0x4e, 0x54, 0xf7, 0x0e], [0x5f, 0x5f, 0xc9, 0xf3], [0x84, 0xa6, 0x4f, 0xb2], [0x4e, 0xa6, 0xdc, 0x4f],
              [0xea, 0xd2, 0x73, 0x21], [0xb5, 0x8d, 0xba, 0xd2], [0x31, 0x2b, 0xf5, 0x60], [0x7f, 0x8d, 0x29, 0x2f]);
  }

  lemma KeyWords9(key: seq<byte>)
    requires |key| == KEYLEN && key == FirstKey()
    ensures HasWords(key, 36, [0xac, 0x77, 0x66, 0xf3], [0x19, 0xfa, 0xdc, 0x21], [0x28, 0xd1, 0x29, 0x41], [0x57, 0x5c, 0x00, 0x6e])
  {
    hide HasWords, KeyWord, XorWord, Turned, FirstKey;
    KeyWords8(key);
    Words9();
    MoreWords(key, 32, [0xea, 0xd2, 0x73, 0x21], [0xb5, 0x8d, 0xba, 0xd2], [0x31, 0x2b, 0xf5, 0x60], [0x7f, 0x8d, 0x29, 0x2f],
              [0xac, 0x77, 0x66, 0xf3], [0x19, 0xfa, 0xdc, 0x21], [0x28, 0xd1, 0x29, 0x41], [0x57, 0x5c, 0x00, 0x6e]);
  }

  lemma KeyWords10(key: seq<byte>)
    requires |key| == KEYLEN && key == FirstKey()
    ensures HasWords(key, 40, [0xd0, 0x14, 0xf9, 0xa8], [0xc9, 0xee, 0x25, 0x89], [0xe1, 0x3f, 0x0c, 0xc8], [0xb6, 0x63, 0x0c, 0xa6])
  {
    hide HasWords, KeyWord, XorWord, Turned, FirstKey;
    KeyWords9(key);
    Words10();
    MoreWords(key, 36, [0xac, 0x77, 0x66, 0xf3], [0x19, 0xfa, 0xdc, 0x21], [0x28, 0xd1, 0x29, 0x41], [0x57, 0x5c, 0x00, 0x6e],
              [0xd0, 0x14, 0xf9, 0xa8], [0xc9, 0xee, 0x25, 0x89], [0xe1, 0x3f, 0x0c, 0xc8], [0xb6, 0x63, 0x0c, 0xa6]);
  }

  /** Four words are a round key. */
  lemma KeyOfWords(key: seq<byte>, r: nat, a: seq<byte>, b: seq<byte>, c: seq<byte>, d: seq<byte>)
    requires |key| == KEYLEN && r <= 10 && HasWords(key, 4 * r, a, b, c, d)
    ensures IsSchedule(Expanded(key)) && Nr(Expanded(key)) == 10 && RoundKey(Expanded(key), r) == a + b + c + d
  {
    WordAt(key, 44, 4 * r);
    WordAt(key, 44, 4 * r + 1);
    WordAt(key, 44, 4 * r + 2);
    WordAt(key, 44, 4 * r + 3);
    hide KeyWord, Words;
    FourWords(Expanded(key), 16 * r);
  }

  lemma FourWords(s: seq<byte>, k: nat)
    requires k + 16 <= |s|
    ensures s[k..k + 16] == s[k..k + 4] + s[k + 4..k + 8] + s[k + 8..k + 12] + s[k + 12..k + 16]
  {
  }

  lemma RoundKey0(key: seq<byte>)
    requires |key| == KEYLEN && key == FirstKey()
    ensures IsSchedule(Expanded(key)) && Nr(Expanded(key)) == 10
    ensures RoundKey(Expanded(key), 0) == [0x2b, 0x7e, 0x15, 0x16, 0x28, 0xae, 0xd2, 0xa6, 0xab, 0xf7, 0x15, 0x88, 0x09, 0xcf, 0x4f, 0x3c]
  {
    hide *;
    KeyWords0(key);
    KeyOfWords(key, 0, [0x2b, 0x7e, 0x15, 0x16], [0x28, 0xae, 0xd2, 0xa6], [0xab, 0xf7, 0x15, 0x88], [0x09, 0xcf, 0x4f, 0x3c]);
  }

  lemma RoundKey1(key: seq<byte>)
    requires |key| == KEYLEN && key == FirstKey()
    ensures IsSchedule(Expanded(key)) && Nr(Expanded(key)) == 10
    ensures RoundKey(Expanded(key), 1) == [0xa0, 0xfa, 0xfe, 0x17, 0x88, 0x54, 0x2c, 0xb1, 0x23, 0xa3, 0x39, 0x39, 0x2a, 0x6c, 0x76, 0x05]
  {
    hide *;
    KeyWords1(key);
    KeyOfWords(key, 1, [0xa0, 0xfa, 0xfe, 0x17], [0x88, 0x54, 0x2c, 0xb1], [0x23, 0xa3, 0x39, 0x39], [0x2a, 0x6c, 0x76, 0x05]);
  }

  lemma RoundKey2(key: seq<byte>)
    requires |key| == KEYLEN && key == FirstKey()
    ensures IsSchedule(Expanded(key)) && Nr(Expanded(key)) == 10
    ensures RoundKey(Expanded(key), 2) == [0xf2, 0xc2, 0x95, 0xf2, 0x7a, 0x96, 0xb9, 0x43, 0x59, 0x35, 0x80, 0x7a, 0x73, 0x59, 0xf6, 0x7f]
  {
    hide *;
    KeyWords2(key);
    KeyOfWords(key, 2, [0xf2, 0xc2, 0x95, 0xf2], [0x7a, 0x96, 0xb9, 0x43], [0x59, 0x35, 0x80, 0x7a], [0x73, 0x59, 0xf6, 0x7f]);
  }

  lemma RoundKey3(key: seq<byte>)
    requires |key| == KEYLEN && key == FirstKey()
    ensures IsSchedule(Expanded(key)) && Nr(Expanded(key)) == 10
    ensures RoundKey(Expanded(key), 3) == [0x3d, 0x80, 0x47, 0x7d, 0x47, 0x16, 0xfe, 0x3e, 0x1e, 0x23, 0x7e, 0x44, 0x6d, 0x7a, 0x88, 0x3b]
  {
    hide *;
    KeyWords3(key);
    KeyOfWords(key, 3, [0x3d, 0x80, 0x47, 0x7d], [0x47, 0x16, 0xfe, 0x3e], [0x1e, 0x23, 0x7e, 0x44], [0x6d, 0x7a, 0x88, 0x3b]);
  }

  lemma RoundKey4(key: seq<byte>)
    requires |key| == KEYLEN && key == FirstKey()
    ensures IsSchedule(Expanded(key)) && Nr(Expanded(key)) == 10
    ensures RoundKey(Expanded(key), 4) == [0xef, 0x44, 0xa5, 0x41, 0xa8, 0x52, 0x5b, 0x7f, 0xb6, 0x71, 0x25, 0x3b, 0xdb, 0x0b, 0xad, 0x00]
  {
    hide *;
    KeyWords4(key);
    KeyOfWords(key, 4, [0xef, 0x44, 0xa5, 0x41], [0xa8, 0x52, 0x5b, 0x7f], [0xb6, 0x71, 0x25, 0x3b], [0xdb, 0x0b, 0xad, 0x00]);
  }

  lemma RoundKey5(key: seq<byte>)
    requires |key| == KEYLEN && key == FirstKey()
    ensures IsSchedule(Expanded(key)) && Nr(Expanded(key)) == 10
    ensures RoundKey(Expanded(key), 5) == [0xd4, 0xd1, 0xc6, 0xf8, 0x7c, 0x83, 0x9d, 0x87, 0xca, 0xf2, 0xb8, 0xbc, 0x11, 0xf9, 0x15, 0xbc]
  {
    hide *;
    KeyWords5(key);
    KeyOfWords(key, 5, [0xd4, 0xd1, 0xc6, 0xf8], [0x7c, 0x83, 0x9d, 0x87], [0xca, 0xf2, 0xb8, 0xbc], [0x11, 0xf9, 0x15, 0xbc]);
  }

  lemma RoundKey6(key: seq<byte>)
    requires |key| == KEYLEN && key == FirstKey()
    ensures IsSchedule(Expanded(key)) && Nr(Expanded(key)) == 10
    ensures RoundKey(Expanded(key), 6) == [0x6d, 0x88, 0xa3, 0x7a, 0x11, 0x0b, 0x3e, 0xfd, 0xdb, 0xf9, 0x86, 0x41, 0xca, 0x00, 0x93, 0xfd]
  {
    hide *;
    KeyWords6(key);
    KeyOfWords(key, 6, [0x6d, 0x88, 0xa3, 0x7a], [0x11, 0x0b, 0x3e, 0xfd], [0xdb, 0xf9, 0x86, 0x41], [0xca, 0x00, 0x93, 0xfd]);
  }

  lemma RoundKey7(key: seq<byte>)
    requires |key| == KEYLEN && key == FirstKey()
    ensures IsSchedule(Expanded(key)) && Nr(Expanded(key)) == 10
    ensures RoundKey(Expanded(key), 7) == [0x4e, 0x54, 0xf7, 0x0e, 0x5f, 0x5f, 0xc9, 0xf3, 0x84, 0xa6, 0x4f, 0xb2, 0x4e, 0xa6, 0xdc, 0x4f]
  {
    hide *;
    KeyWords7(key);
    KeyOfWords(key, 7, [0x4e, 0x54, 0xf7, 0x0e], [0x5f, 0x5f, 0xc9, 0xf3], [0x84, 0xa6, 0x4f, 0xb2], [0x4e, 0xa6, 0xdc, 0x4f]);
  }

  lemma RoundKey8(key: seq<byte>)
    requires |key| == KEYLEN && key == FirstKey()
    ensures IsSchedule(Expanded(key)) && Nr(Expanded(key)) == 10
    ensures RoundKey(Expanded(key), 8) == [0xea, 0xd2, 0x73, 0x21, 0xb5, 0x8d, 0xba, 0xd2, 0x31, 0x2b, 0xf5, 0x60, 0x7f, 0x8d, 0x29, 0x2f]
  {
    hide *;
    KeyWords8(key);
    KeyOfWords(key, 8, [0xea, 0xd2, 0x73, 0x21], [0xb5, 0x8d, 0xba, 0xd2], [0x31, 0x2b, 0xf5, 0x60], [0x7f, 0x8d, 0x29, 0x2f]);
  }

  lemma RoundKey9(key: seq<byte>)
    requires |key| == KEYLEN && key == FirstKey()
    ensures IsSchedule(Expanded(key)) && Nr(Expanded(key)) == 10
    ensures RoundKey(Expanded(key), 9) == [0xac, 0x77, 0x66, 0xf3, 0x19, 0xfa, 0xdc, 0x21, 0x28, 0xd1, 0x29, 0x41, 0x57, 0x5c, 0x00, 0x6e]
  {
    hide *;
    KeyWords9(key);
    KeyOfWords(key, 9, [0xac, 0x77, 0x66, 0xf3], [0x19, 0xfa, 0xdc, 0x21], [0x28, 0xd1, 0x29, 0x41], [0x57, 0x5c, 0x00, 0x6e]);
  }

  lemma RoundKey10(key: seq<byte>)
    requires |key| == KEYLEN && key == FirstKey()
    ensures IsSchedule(Expanded(key)) && Nr(Expanded(key)) == 10
    ensures RoundKey(Expanded(key), 10) == [0xd0, 0x14, 0xf9, 0xa8, 0xc9, 0xee, 0x25, 0x89, 0xe1, 0x3f, 0x0c, 0xc8, 0xb6, 0x63, 0x0c, 0xa6]
  {
    hide *;
    KeyWords10(key);
    KeyOfWords(key, 10, [0xd0, 0x14, 0xf9, 0xa8], [0xc9, 0xee, 0x25, 0x89], [0xe1, 0x3f, 0x0c, 0xc8], [0xb6, 0x63, 0x0c, 0xa6]);
  }

  // ----- the rounds

  lemma Sub1()
    ensures SubBytes([0x40, 0xbe, 0xa9, 0xf7, 0x02, 0xeb, 0x4b, 0x37, 0x4a, 0xc3, 0x61, 0x92, 0x76, 0x51, 0x56, 0x19]) == [0x09, 0xae, 0xd3, 0x68, 0x77, 0xe9, 0xb3, 0x9a, 0xd6, 0x2e, 0xef, 0x4f, 0x38, 0xd1, 0xb1, 0xd4]
  {
    Boxes1A();
    Boxes1B();
    hide Sbox;
  }

  lemma Boxes1A()
    ensures Sbox(0x40) == 0x09 && Sbox(0xbe) == 0xae
    ensures Sbox(0xa9) == 0xd3 && Sbox(0xf7) == 0x68
    ensures Sbox(0x02) == 0x77 && Sbox(0xeb) == 0xe9
    ensures Sbox(0x4b) == 0xb3 && Sbox(0x37) == 0x9a
  {
  }

  lemma Boxes1B()
    ensures Sbox(0x4a) == 0xd6 && Sbox(0xc3) == 0x2e
    ensures Sbox(0x61) == 0xef && Sbox(0x92) == 0x4f
    ensures Sbox(0x76) == 0x38 && Sbox(0x51) == 0xd1
    ensures Sbox(0x56) == 0xb1 && Sbox(0x19) == 0xd4
  {
  }

  lemma Mix1()
    ensures MixColumns([0x09, 0xe9, 0xef, 0xd4, 0x77, 0x2e, 0xb1, 0x68, 0xd6, 0xd1, 0xd3, 0x9a, 0x38, 0xae, 0xb3, 0x4f])
         == [0x09, 0x3e, 0x42, 0xae, 0x45, 0x8b, 0x98, 0xd6, 0x96, 0x9b, 0x0f, 0x4c, 0x65, 0xfe, 0x3a, 0xcb]
  {
    Column1A();
    Column1B();
    Column1C();
    Column1D();
    hide MixColumn;
  }

  lemma Column1A()
    ensures MixColumn(0x09, 0xe9, 0xef, 0xd4) == [0x09, 0x3e, 0x42, 0xae]
  {
  }

  lemma Column1B()
    ensures MixColumn(0x77, 0x2e, 0xb1, 0x68) == [0x45, 0x8b, 0x98, 0xd6]
  {
  }

  lemma Column1C()
    ensures MixColumn(0xd6, 0xd1, 0xd3, 0x9a) == [0x96, 0x9b, 0x0f, 0x4c]
  {
  }

  lemma Column1D()
    ensures MixColumn(0x38, 0xae, 0xb3, 0x4f) == [0x65, 0xfe, 0x3a, 0xcb]
  {
  }

  lemma Round1(rk: seq<byte>)
    requires IsSchedule(rk) && Nr(rk) == 10 && RoundKey(rk, 1) == [0xa0, 0xfa, 0xfe, 0x17, 0x88, 0x54, 0x2c, 0xb1, 0x23, 0xa3, 0x39, 0x39, 0x2a, 0x6c, 0x76, 0x05]
    ensures Round([0x40, 0xbe, 0xa9, 0xf7, 0x02, 0xeb, 0x4b, 0x37, 0x4a, 0xc3, 0x61, 0x92, 0x76, 0x51, 0x56, 0x19], rk, 1)
         == [0xa9, 0xc4, 0xbc, 0xb9, 0xcd, 0xdf, 0xb4, 0x67, 0xb5, 0x38, 0x36, 0x75, 0x4f, 0x92, 0x4c, 0xce]
  {
    Sub1();
    Mix1();
    Add1();
    hide SubBytes, MixColumns, RoundKey, Xor;
  }

  lemma Add1()
    ensures Xor([0x09, 0x3e, 0x42, 0xae, 0x45, 0x8b, 0x98, 0xd6, 0x96, 0x9b, 0x0f, 0x4c, 0x65, 0xfe, 0x3a, 0xcb], [0xa0, 0xfa, 0xfe, 0x17, 0x88, 0x54, 0x2c, 0xb1, 0x23, 0xa3, 0x39, 0x39, 0x2a, 0x6c, 0x76, 0x05])
         == [0xa9, 0xc4, 0xbc, 0xb9, 0xcd, 0xdf, 0xb4, 0x67, 0xb5, 0x38, 0x36, 0x75, 0x4f, 0x92, 0x4c, 0xce]
  {
    hide Xor, XorWord;
    var p: seq<byte> := [0x09, 0x3e, 0x42, 0xae, 0x45, 0x8b, 0x98, 0xd6, 0x96, 0x9b, 0x0f, 0x4c, 0x65, 0xfe, 0x3a, 0xcb];
    var q: seq<byte> := [0xa0, 0xfa, 0xfe, 0x17, 0x88, 0x54, 0x2c, 0xb1, 0x23, 0xa3, 0x39, 0x39, 0x2a, 0x6c, 0x76, 0x05];
    var r: seq<byte> := [0xa9, 0xc4, 0xbc, 0xb9, 0xcd, 0xdf, 0xb4, 0x67, 0xb5, 0x38, 0x36, 0x75, 0x4f, 0x92, 0x4c, 0xce];
    Add1Words();
    assert p[0..4] == [0x09, 0x3e, 0x42, 0xae] && q[0..4] == [0xa0, 0xfa, 0xfe, 0x17] && r[0..4] == [0xa9, 0xc4, 0xbc, 0xb9];
    assert p[4..8] == [0x45, 0x8b, 0x98, 0xd6] && q[4..8] == [0x88, 0x54, 0x2c, 0xb1] && r[4..8] == [0xcd, 0xdf, 0xb4, 0x67];
    assert p[8..12] == [0x96, 0x9b, 0x0f, 0x4c] && q[8..12] == [0x23, 0xa3, 0x39, 0x39] && r[8..12] == [0xb5, 0x38, 0x36, 0x75];
    assert p[12..16] == [0x65, 0xfe, 0x3a, 0xcb] && q[12..16] == [0x2a, 0x6c, 0x76, 0x05] && r[12..16] == [0x4f, 0x92, 0x4c, 0xce];
    Added(p, q, r);
  }

  lemma Add1Words()
    ensures XorWord([0x09, 0x3e, 0x42, 0xae], [0xa0, 0xfa, 0xfe, 0x17]) == [0xa9, 0xc4, 0xbc, 0xb9]
    ensures XorWord([0x45, 0x8b, 0x98, 0xd6], [0x88, 0x54, 0x2c, 0xb1]) == [0xcd, 0xdf, 0xb4, 0x67]
    ensures XorWord([0x96, 0x9b, 0x0f, 0x4c], [0x23, 0xa3, 0x39, 0x39]) == [0xb5, 0x38, 0x36, 0x75]
    ensures XorWord([0x65, 0xfe, 0x3a, 0xcb], [0x2a, 0x6c, 0x76, 0x05]) == [0x4f, 0x92, 0x4c, 0xce]
  {
  }

  lemma Sub2()
    ensures SubBytes([0xa9, 0xc4, 0xbc, 0xb9, 0xcd, 0xdf, 0xb4, 0x67, 0xb5, 0x38, 0x36, 0x75, 0x4f, 0x92, 0x4c, 0xce]) == [0xd3, 0x1c, 0x65, 0x56, 0xbd, 0x9e, 0x8d, 0x85, 0xd5, 0x07, 0x05, 0x9d, 0x84, 0x4f, 0x29, 0x8b]
  {
    Boxes2A();
    Boxes2B();
    hide Sbox;
  }

  lemma Boxes2A()
    ensures Sbox(0xa9) == 0xd3 && Sbox(0xc4) == 0x1c
    ensures Sbox(0xbc) == 0x65 && Sbox(0xb9) == 0x56
    ensures Sbox(0xcd) == 0xbd && Sbox(0xdf) == 0x9e
    ensures Sbox(0xb4) == 0x8d && Sbox(0x67) == 0x85
  {
  }

  lemma Boxes2B()
    ensures Sbox(0xb5) == 0xd5 && Sbox(0x38) == 0x07
    ensures Sbox(0x36) == 0x05 && Sbox(0x75) == 0x9d
    ensures Sbox(0x4f) == 0x84 && Sbox(0x92) == 0x4f
    ensures Sbox(0x4c) == 0x29 && Sbox(0xce) == 0x8b
  {
  }

  lemma Mix2()
    ensures MixColumns([0xd3, 0x9e, 0x05, 0x8b, 0xbd, 0x07, 0x29, 0x56, 0xd5, 0x4f, 0x65, 0x85, 0x84, 0x1c, 0x8d, 0x9d])
         == [0x8a, 0x70, 0xc1, 0xf8, 0x17, 0x9e, 0x12, 0x5e, 0x80, 0x61, 0xc4, 0x5f, 0x27, 0xad, 0x25, 0x27]
  {
    Column2A();
    Column2B();
    Column2C();
    Column2D();
    hide MixColumn;
  }

  lemma Column2A()
    ensures MixColumn(0xd3, 0x9e, 0x05, 0x8b) == [0x8a, 0x70, 0xc1, 0xf8]
  {
  }

  lemma Column2B()
    ensures MixColumn(0xbd, 0x07, 0x29, 0x56) == [0x17, 0x9e, 0x12, 0x5e]
  {
  }

  lemma Column2C()
    ensures MixColumn(0xd5, 0x4f, 0x65, 0x85) == [0x80, 0x61, 0xc4, 0x5f]
  {
  }

  lemma Column2D()
    ensures MixColumn(0x84, 0x1c, 0x8d, 0x9d) == [0x27, 0xad, 0x25, 0x27]
  {
  }

  lemma Round2(rk: seq<byte>)
    requires IsSchedule(rk) && Nr(rk) == 10 && RoundKey(rk, 2) == [0xf2, 0xc2, 0x95, 0xf2, 0x7a, 0x96, 0xb9, 0x43, 0x59, 0x35, 0x80, 0x7a, 0x73, 0x59, 0xf6, 0x7f]
    ensures Round([0xa9, 0xc4, 0xbc, 0xb9, 0xcd, 0xdf, 0xb4, 0x67, 0xb5, 0x38, 0x36, 0x75, 0x4f, 0x92, 0x4c, 0xce], rk, 2)
         == [0x78, 0xb2, 0x54, 0x0a, 0x6d, 0x08, 0xab, 0x1d, 0xd9, 0x54, 0x44, 0x25, 0x54, 0xf4, 0xd3, 0x58]
  {
    Sub2();
    Mix2();
    Add2();
    hide SubBytes, MixColumns, RoundKey, Xor;
  }

  lemma Add2()
    ensures Xor([0x8a, 0x70, 0xc1, 0xf8, 0x17, 0x9e, 0x12, 0x5e, 0x80, 0x61, 0xc4, 0x5f, 0x27, 0xad, 0x25, 0x27], [0xf2, 0xc2, 0x95, 0xf2, 0x7a, 0x96, 0xb9, 0x43, 0x59, 0x35, 0x80, 0x7a, 0x73, 0x59, 0xf6, 0x7f])
         == [0x78, 0xb2, 0x54, 0x0a, 0x6d, 0x08, 0xab, 0x1d, 0xd9, 0x54, 0x44, 0x25, 0x54, 0xf4, 0xd3, 0x58]
  {
    hide Xor, XorWord;
    var p: seq<byte> := [0x8a, 0x70, 0xc1, 0xf8, 0x17, 0x9e, 0x12, 0x5e, 0x80, 0x61, 0xc4, 0x5f, 0x27, 0xad, 0x25, 0x27];
    var q: seq<byte> := [0xf2, 0xc2, 0x95, 0xf2, 0x7a, 0x96, 0xb9, 0x43, 0x59, 0x35, 0x80, 0x7a, 0x73, 0x59, 0xf6, 0x7f];
    var r: seq<byte> := [0x78, 0xb2, 0x54, 0x0a, 0x6d, 0x08, 0xab, 0x1d, 0xd9, 0x54, 0x44, 0x25, 0x54, 0xf4, 0xd3, 0x58];
    Add2Words();
    assert p[0..4] == [0x8a, 0x70, 0xc1, 0xf8] && q[0..4] == [0xf2, 0xc2, 0x95, 0xf2] && r[0..4] == [0x78, 0xb2, 0x54, 0x0a];
    assert p[4..8] == [0x17, 0x9e, 0x12, 0x5e] && q[4..8] == [0x7a, 0x96, 0xb9, 0x43] && r[4..8] == [0x6d, 0x08, 0xab, 0x1d];
    assert p[8..12] == [0x80, 0x61, 0xc4, 0x5f] && q[8..12] == [0x59, 0x35, 0x80, 0x7a] && r[8..12] == [0xd9, 0x54, 0x44, 0x25];
    assert p[12..16] == [0x27, 0xad, 0x25, 0x27] && q[12..16] == [0x73, 0x59, 0xf6, 0x7f] && r[12..16] == [0x54, 0xf4, 0xd3, 0x58];
    Added(p, q, r);
  }

  lemma Add2Words()
    ensures XorWord([0x8a, 0x70, 0xc1, 0xf8], [0xf2, 0xc2, 0x95, 0xf2]) == [0x78, 0xb2, 0x54, 0x0a]
    ensures XorWord([0x17, 0x9e, 0x12, 0x5e], [0x7a, 0x96, 0xb9, 0x43]) == [0x6d, 0x08, 0xab, 0x1d]
    ensures XorWord([0x80, 0x61, 0xc4, 0x5f], [0x59, 0x35, 0x80, 0x7a]) == [0xd9, 0x54, 0x44, 0x25]
    ensures XorWord([0x27, 0xad, 0x25, 0x27], [0x73, 0x59, 0xf6, 0x7f]) == [0x54, 0xf4, 0xd3, 0x58]
  {
  }

  lemma Sub3()
    ensures SubBytes([0x78, 0xb2, 0x54, 0x0a, 0x6d, 0x08, 0xab, 0x1d, 0xd9, 0x54, 0x44, 0x25, 0x54, 0xf4, 0xd3, 0x58]) == [0xbc, 0x37, 0x20, 0x67, 0x3c, 0x30, 0x62, 0xa4, 0x35, 0x20, 0x1b, 0x3f, 0x20, 0xbf, 0x66, 0x6a]
  {
    Boxes3A();
    Boxes3B();
    hide Sbox;
  }

  lemma Boxes3A()
    ensures Sbox(0x78) == 0xbc && Sbox(0xb2) == 0x37
    ensures Sbox(0x54) == 0x20 && Sbox(0x0a) == 0x67
    ensures Sbox(0x6d) == 0x3c && Sbox(0x08) == 0x30
    ensures Sbox(0xab) == 0x62 && Sbox(0x1d) == 0xa4
  {
  }

  lemma Boxes3B()
    ensures Sbox(0xd9) == 0x35 && Sbox(0x54) == 0x20
    ensures Sbox(0x44) == 0x1b && Sbox(0x25) == 0x3f
    ensures Sbox(0x54) == 0x20 && Sbox(0xf4) == 0xbf
    ensures Sbox(0xd3) == 0x66 && Sbox(0x58) == 0x6a
  {
  }

  lemma Mix3()
    ensures MixColumns([0xbc, 0x30, 0x1b, 0x6a, 0x3c, 0x20, 0x66, 0x67, 0x35, 0xbf, 0x20, 0xa4, 0x20, 0x37, 0x62, 0x3f])
         == [0x42, 0x9b, 0x04, 0x20, 0x19, 0xb1, 0x79, 0xcc, 0x34, 0x94, 0x3d, 0x93, 0x44, 0xd7, 0x92, 0x4b]
  {
    Column3A();
    Column3B();
    Column3C();
    Column3D();
    hide MixColumn;
  }

  lemma Column3A()
    ensures MixColumn(0xbc, 0x30, 0x1b, 0x6a) == [0x42, 0x9b, 0x04, 0x20]
  {
  }

  lemma Column3B()
    ensures MixColumn(0x3c, 0x20, 0x66, 0x67) == [0x19, 0xb1, 0x79, 0xcc]
  {
  }

  lemma Column3C()
    ensures MixColumn(0x35, 0xbf, 0x20, 0xa4) == [0x34, 0x94, 0x3d, 0x93]
  {
  }

  lemma Column3D()
    ensures MixColumn(0x20, 0x37, 0x62, 0x3f) == [0x44, 0xd7, 0x92, 0x4b]
  {
  }

  lemma Round3(rk: seq<byte>)
    requires IsSchedule(rk) && Nr(rk) == 10 && RoundKey(rk, 3) == [0x3d, 0x80, 0x47, 0x7d, 0x47, 0x16, 0xfe, 0x3e, 0x1e, 0x23, 0x7e, 0x44, 0x6d, 0x7a, 0x88, 0x3b]
    ensures Round([0x78, 0xb2, 0x54, 0x0a, 0x6d, 0x08, 0xab, 0x1d, 0xd9, 0x54, 0x44, 0x25, 0x54, 0xf4, 0xd3, 0x58], rk, 3)
         == [0x7f, 0x1b, 0x43, 0x5d, 0x5e, 0xa7, 0x87, 0xf2, 0x2a, 0xb7, 0x43, 0xd7, 0x29, 0xad, 0x1a, 0x70]
  {
    Sub3();
    Mix3();
    Add3();
    hide SubBytes, MixColumns, RoundKey, Xor;
  }

  lemma Add3()
    ensures Xor([0x42, 0x9b, 0x04, 0x20, 0x19, 0xb1, 0x79, 0xcc, 0x34, 0x94, 0x3d, 0x93, 0x44, 0xd7, 0x92, 0x4b], [0x3d, 0x80, 0x47, 0x7d, 0x47, 0x16, 0xfe, 0x3e, 0x1e, 0x23, 0x7e, 0x44, 0x6d, 0x7a, 0x88, 0x3b])
         == [0x7f, 0x1b, 0x43, 0x5d, 0x5e, 0xa7, 0x87, 0xf2, 0x2a, 0xb7, 0x43, 0xd7, 0x29, 0xad, 0x1a, 0x70]
  {
    hide Xor, XorWord;
    var p: seq<byte> := [0x42, 0x9b, 0x04, 0x20, 0x19, 0xb1, 0x79, 0xcc, 0x34, 0x94, 0x3d, 0x93, 0x44, 0xd7, 0x92, 0x4b];
    var q: seq<byte> := [0x3d, 0x80, 0x47, 0x7d, 0x47, 0x16, 0xfe, 0x3e, 0x1e, 0x23, 0x7e, 0x44, 0x6d, 0x7a, 0x88, 0x3b];
    var r: seq<byte> := [0x7f, 0x1b, 0x43, 0x5d, 0x5e, 0xa7, 0x87, 0xf2, 0x2a, 0xb7, 0x43, 0xd7, 0x29, 0xad, 0x1a, 0x70];
    Add3Words();
    assert p[0..4] == [0x42, 0x9b, 0x04, 0x20] && q[0..4] == [0x3d, 0x80, 0x47, 0x7d] && r[0..4] == [0x7f, 0x1b, 0x43, 0x5d];
    assert p[4..8] == [0x19, 0xb1, 0x79, 0xcc] && q[4..8] == [0x47, 0x16, 0xfe, 0x3e] && r[4..8] == [0x5e, 0xa7, 0x87, 0xf2];
    assert p[8..12] == [0x34, 0x94, 0x3d, 0x93] && q[8..12] == [0x1e, 0x23, 0x7e, 0x44] && r[8..12] == [0x2a, 0xb7, 0x43, 0xd7];
    assert p[12..16] == [0x44, 0xd7, 0x92, 0x4b] && q[12..16] == [0x6d, 0x7a, 0x88, 0x3b] && r[12..16] == [0x29, 0xad, 0x1a, 0x70];
    Added(p, q, r);
  }

  lemma Add3Words()
    ensures XorWord([0x42, 0x9b, 0x04, 0x20], [0x3d, 0x80, 0x47, 0x7d]) == [0x7f, 0x1b, 0x43, 0x5d]
    ensures XorWord([0x19, 0xb1, 0x79, 0xcc], [0x47, 0x16, 0xfe, 0x3e]) == [0x5e, 0xa7, 0x87, 0xf2]
    ensures XorWord([0x34, 0x94, 0x3d, 0x93], [0x1e, 0x23, 0x7e, 0x44]) == [0x2a, 0xb7, 0x43, 0xd7]
    ensures XorWord([0x44, 0xd7, 0x92, 0x4b], [0x6d, 0x7a, 0x88, 0x3b]) == [0x29, 0xad, 0x1a, 0x70]
  {
  }

  lemma Sub4()
    ensures SubBytes([0x7f, 0x1b, 0x43, 0x5d, 0x5e, 0xa7, 0x87, 0xf2, 0x2a, 0xb7, 0x43, 0xd7, 0x29, 0xad, 0x1a, 0x70]) == [0xd2, 0xaf, 0x1a, 0x4c, 0x58, 0x5c, 0x17, 0x89, 0xe5, 0xa9, 0x1a, 0x0e, 0xa5, 0x95, 0xa2, 0x51]
  {
    Boxes4A();
    Boxes4B();
    hide Sbox;
  }

  lemma Boxes4A()
    ensures Sbox(0x7f) == 0xd2 && Sbox(0x1b) == 0xaf
    ensures Sbox(0x43) == 0x1a && Sbox(0x5d) == 0x4c
    ensures Sbox(0x5e) == 0x58 && Sbox(0xa7) == 0x5c
    ensures Sbox(0x87) == 0x17 && Sbox(0xf2) == 0x89
  {
  }

  lemma Boxes4B()
    ensures Sbox(0x2a) == 0xe5 && Sbox(0xb7) == 0xa9
    ensures Sbox(0x43) == 0x1a && Sbox(0xd7) == 0x0e
    ensures Sbox(0x29) == 0xa5 && Sbox(0xad) == 0x95
    ensures Sbox(0x1a) == 0xa2 && Sbox(0x70) == 0x51
  {
  }

  lemma Mix4()
    ensures MixColumns([0xd2, 0x5c, 0x1a, 0x51, 0x58, 0xa9, 0xa2, 0x4c, 0xe5, 0x95, 0x1a, 0x89, 0xa5, 0xaf, 0x17, 0x0e])
         == [0x10, 0x15, 0x49, 0x89, 0xbe, 0xa0, 0x7a, 0x7b, 0xe6, 0x73, 0xc4, 0xb2, 0xa2, 0xd7, 0x36, 0x50]
  {
    Column4A();
    Column4B();
    Column4C();
    Column4D();
    hide MixColumn;
  }

  lemma Column4A()
    ensures MixColumn(0xd2, 0x5c, 0x1a, 0x51) == [0x10, 0x15, 0x49, 0x89]
  {
  }

  lemma Column4B()
    ensures MixColumn(0x58, 0xa9, 0xa2, 0x4c) == [0xbe, 0xa0, 0x7a, 0x7b]
  {
  }

  lemma Column4C()
    ensures MixColumn(0xe5, 0x95, 0x1a, 0x89) == [0xe6, 0x73, 0xc4, 0xb2]
  {
  }

  lemma Column4D()
    ensures MixColumn(0xa5, 0xaf, 0x17, 0x0e) == [0xa2, 0xd7, 0x36, 0x50]
  {
  }

  lemma Round4(rk: seq<byte>)
    requires IsSchedule(rk) && Nr(rk) == 10 && RoundKey(rk, 4) == [0xef, 0x44, 0xa5, 0x41, 0xa8, 0x52, 0x5b, 0x7f, 0xb6, 0x71, 0x25, 0x3b, 0xdb, 0x0b, 0xad, 0x00]
    ensures Round([0x7f, 0x1b, 0x43, 0x5d, 0x5e, 0xa7, 0x87, 0xf2, 0x2a, 0xb7, 0x43, 0xd7, 0x29, 0xad, 0x1a, 0x70], rk, 4)
         == [0xff, 0x51, 0xec, 0xc8, 0x16, 0xf2, 0x21, 0x04, 0x50, 0x02, 0xe1, 0x89, 0x79, 0xdc, 0x9b, 0x50]
  {
    Sub4();
    Mix4();
    Add4();
    hide SubBytes, MixColumns, RoundKey, Xor;
  }

  lemma Add4()
    ensures Xor([0x10, 0x15, 0x49, 0x89, 0xbe, 0xa0, 0x7a, 0x7b, 0xe6, 0x73, 0xc4, 0xb2, 0xa2, 0xd7, 0x36, 0x50], [0xef, 0x44, 0xa5, 0x41, 0xa8, 0x52, 0x5b, 0x7f, 0xb6, 0x71, 0x25, 0x3b, 0xdb, 0x0b, 0xad, 0x00])
         == [0xff, 0x51, 0xec, 0xc8, 0x16, 0xf2, 0x21, 0x04, 0x50, 0x02, 0xe1, 0x89, 0x79, 0xdc, 0x9b, 0x50]
  {
    hide Xor, XorWord;
    var p: seq<byte> := [0x10, 0x15, 0x49, 0x89, 0xbe, 0xa0, 0x7a, 0x7b, 0xe6, 0x73, 0xc4, 0xb2, 0xa2, 0xd7, 0x36, 0x50];
    var q: seq<byte> := [0xef, 0x44, 0xa5, 0x41, 0xa8, 0x52, 0x5b, 0x7f, 0xb6, 0x71, 0x25, 0x3b, 0xdb, 0x0b, 0xad, 0x00];
    var r: seq<byte> := [0xff, 0x51, 0xec, 0xc8, 0x16, 0xf2, 0x21, 0x04, 0x50, 0x02, 0xe1, 0x89, 0x79, 0xdc, 0x9b, 0x50];
    Add4Words();
    assert p[0..4] == [0x10, 0x15, 0x49, 0x89] && q[0..4] == [0xef, 0x44, 0xa5, 0x41] && r[0..4] == [0xff, 0x51, 0xec, 0xc8];
    assert p[4..8] == [0xbe, 0xa0, 0x7a, 0x7b] && q[4..8] == [0xa8, 0x52, 0x5b, 0x7f] && r[4..8] == [0x16, 0xf2, 0x21, 0x04];
    assert p[8..12] == [0xe6, 0x73, 0xc4, 0xb2] && q[8..12] == [0xb6, 0x71, 0x25, 0x3b] && r[8..12] == [0x50, 0x02, 0xe1, 0x89];
    assert p[12..16] == [0xa2, 0xd7, 0x36, 0x50] && q[12..16] == [0xdb, 0x0b, 0xad, 0x00] && r[12..16] == [0x79, 0xdc, 0x9b, 0x50];
    Added(p, q, r);
  }

  lemma Add4Words()
    ensures XorWord([0x10, 0x15, 0x49, 0x89], [0xef, 0x44, 0xa5, 0x41]) == [0xff, 0x51, 0xec, 0xc8]
    ensures XorWord([0xbe, 0xa0, 0x7a, 0x7b], [0xa8, 0x52, 0x5b, 0x7f]) == [0x16, 0xf2, 0x21, 0x04]
    ensures XorWord([0xe6, 0x73, 0xc4, 0xb2], [0xb6, 0x71, 0x25, 0x3b]) == [0x50, 0x02, 0xe1, 0x89]
    ensures XorWord([0xa2, 0xd7, 0x36, 0x50], [0xdb, 0x0b, 0xad, 0x00]) == [0x79, 0xdc, 0x9b, 0x50]
  {
  }

  lemma Sub5()
    ensures SubBytes([0xff, 0x51, 0xec, 0xc8, 0x16, 0xf2, 0x21, 0x04, 0x50, 0x02, 0xe1, 0x89, 0x79, 0xdc, 0x9b, 0x50]) == [0x16, 0xd1, 0xce, 0xe8, 0x47, 0x89, 0xfd, 0xf2, 0x53, 0x77, 0xf8, 0xa7, 0xb6, 0x86, 0x14, 0x53]
  {
    Boxes5A();
    Boxes5B();
    hide Sbox;
  }

  lemma Boxes5A()
    ensures Sbox(0xff) == 0x16 && Sbox(0x51) == 0xd1
    ensures Sbox(0xec) == 0xce && Sbox(0xc8) == 0xe8
    ensures Sbox(0x16) == 0x47 && Sbox(0xf2) == 0x89
    ensures Sbox(0x21) == 0xfd && Sbox(0x04) == 0xf2
  {
  }

  lemma Boxes5B()
    ensures Sbox(0x50) == 0x53 && Sbox(0x02) == 0x77
    ensures Sbox(0xe1) == 0xf8 && Sbox(0x89) == 0xa7
    ensures Sbox(0x79) == 0xb6 && Sbox(0xdc) == 0x86
    ensures Sbox(0x9b) == 0x14 && Sbox(0x50) == 0x53
  {
  }

  lemma Mix5()
    ensures MixColumns([0x16, 0x89, 0xf8, 0x53, 0x47, 0x77, 0x14, 0xe8, 0x53, 0x86, 0xce, 0xf2, 0xb6, 0xd1, 0xfd, 0xa7])
         == [0x07, 0x5f, 0x81, 0xed, 0xeb, 0x7d, 0x3b, 0x61, 0x0b, 0xff, 0x5f, 0x42, 0x45, 0xb4, 0x74, 0xb8]
  {
    Column5A();
    Column5B();
    Column5C();
    Column5D();
    hide MixColumn;
  }

  lemma Column5A()
    ensures MixColumn(0x16, 0x89, 0xf8, 0x53) == [0x07, 0x5f, 0x81, 0xed]
  {
  }

  lemma Column5B()
    ensures MixColumn(0x47, 0x77, 0x14, 0xe8) == [0xeb, 0x7d, 0x3b, 0x61]
  {
  }

  lemma Column5C()
    ensures MixColumn(0x53, 0x86, 0xce, 0xf2) == [0x0b, 0xff, 0x5f, 0x42]
  {
  }

  lemma Column5D()
    ensures MixColumn(0xb6, 0xd1, 0xfd, 0xa7) == [0x45, 0xb4, 0x74, 0xb8]
  {
  }

  lemma Round5(rk: seq<byte>)
    requires IsSchedule(rk) && Nr(rk) == 10 && RoundKey(rk, 5) == [0xd4, 0xd1, 0xc6, 0xf8, 0x7c, 0x83, 0x9d, 0x87, 0xca, 0xf2, 0xb8, 0xbc, 0x11, 0xf9, 0x15, 0xbc]
    ensures Round([0xff, 0x51, 0xec, 0xc8, 0x16, 0xf2, 0x21, 0x04, 0x50, 0x02, 0xe1, 0x89, 0x79, 0xdc, 0x9b, 0x50], rk, 5)
         == [0xd3, 0x8e, 0x47, 0x15, 0x97, 0xfe, 0xa6, 0xe6, 0xc1, 0x0d, 0xe7, 0xfe, 0x54, 0x4d, 0x61, 0x04]
  {
    Sub5();
    Mix5();
    Add5();
    hide SubBytes, MixColumns, RoundKey, Xor;
  }

  lemma Add5()
    ensures Xor([0x07, 0x5f, 0x81, 0xed, 0xeb, 0x7d, 0x3b, 0x61, 0x0b, 0xff, 0x5f, 0x42, 0x45, 0xb4, 0x74, 0xb8], [0xd4, 0xd1, 0xc6, 0xf8, 0x7c, 0x83, 0x9d, 0x87, 0xca, 0xf2, 0xb8, 0xbc, 0x11, 0xf9, 0x15, 0xbc])
         == [0xd3, 0x8e, 0x47, 0x15, 0x97, 0xfe, 0xa6, 0xe6, 0xc1, 0x0d, 0xe7, 0xfe, 0x54, 0x4d, 0x61, 0x04]
  {
    hide Xor, XorWord;
    var p: seq<byte> := [0x07, 0x5f, 0x81, 0xed, 0xeb, 0x7d, 0x3b, 0x61, 0x0b, 0xff, 0x5f, 0x42, 0x45, 0xb4, 0x74, 0xb8];
    var q: seq<byte> := [0xd4, 0xd1, 0xc6, 0xf8, 0x7c, 0x83, 0x9d, 0x87, 0xca, 0xf2, 0xb8, 0xbc, 0x11, 0xf9, 0x15, 0xbc];
    var r: seq<byte> := [0xd3, 0x8e, 0x47, 0x15, 0x97, 0xfe, 0xa6, 0xe6, 0xc1, 0x0d, 0xe7, 0xfe, 0x54, 0x4d, 0x61, 0x04];
    Add5Words();
    assert p[0..4] == [0x07, 0x5f, 0x81, 0xed] && q[0..4] == [0xd4, 0xd1, 0xc6, 0xf8] && r[0..4] == [0xd3, 0x8e, 0x47, 0x15];
    assert p[4..8] == [0xeb, 0x7d, 0x3b, 0x61] && q[4..8] == [0x7c, 0x83, 0x9d, 0x87] && r[4..8] == [0x97, 0xfe, 0xa6, 0xe6];
    assert p[8..12] == [0x0b, 0xff, 0x5f, 0x42] && q[8..12] == [0xca, 0xf2, 0xb8, 0xbc] && r[8..12] == [0xc1, 0x0d, 0xe7, 0xfe];
    assert p[12..16] == [0x45, 0xb4, 0x74, 0xb8] && q[12..16] == [0x11, 0xf9, 0x15, 0xbc] && r[12..16] == [0x54, 0x4d, 0x61, 0x04];
    Added(p, q, r);
  }

  lemma Add5Words()
    ensures XorWord([0x07, 0x5f, 0x81, 0xed], [0xd4, 0xd1, 0xc6, 0xf8]) == [0xd3, 0x8e, 0x47, 0x15]
    ensures XorWord([0xeb, 0x7d, 0x3b, 0x61], [0x7c, 0x83, 0x9d, 0x87]) == [0x97, 0xfe, 0xa6, 0xe6]
    ensures XorWord([0x0b, 0xff, 0x5f, 0x42], [0xca, 0xf2, 0xb8, 0xbc]) == [0xc1, 0x0d, 0xe7, 0xfe]
    ensures XorWord([0x45, 0xb4, 0x74, 0xb8], [0x11, 0xf9, 0x15, 0xbc]) == [0x54, 0x4d, 0x61, 0x04]
  {
  }

  lemma Sub6()
    ensures SubBytes([0xd3, 0x8e, 0x47, 0x15, 0x97, 0xfe, 0xa6, 0xe6, 0xc1, 0x0d, 0xe7, 0xfe, 0x54, 0x4d, 0x61, 0x04]) == [0x66, 0x19, 0xa0, 0x59, 0x88, 0xbb, 0x24, 0x8e, 0x78, 0xd7, 0x94, 0xbb, 0x20, 0xe3, 0xef, 0xf2]
  {
    Boxes6A();
    Boxes6B();
    hide Sbox;
  }

  lemma Boxes6A()
    ensures Sbox(0xd3) == 0x66 && Sbox(0x8e) == 0x19
    ensures Sbox(0x47) == 0xa0 && Sbox(0x15) == 0x59
    ensures Sbox(0x97) == 0x88 && Sbox(0xfe) == 0xbb
    ensures Sbox(0xa6) == 0x24 && Sbox(0xe6) == 0x8e
  {
  }

  lemma Boxes6B()
    ensures Sbox(0xc1) == 0x78 && Sbox(0x0d) == 0xd7
    ensures Sbox(0xe7) == 0x94 && Sbox(0xfe) == 0xbb
    ensures Sbox(0x54) == 0x20 && Sbox(0x4d) == 0xe3
    ensures Sbox(0x61) == 0xef && Sbox(0x04) == 0xf2
  {
  }

  lemma Mix6()
    ensures MixColumns([0x66, 0xbb, 0x94, 0xf2, 0x88, 0xd7, 0xef, 0x59, 0x78, 0xe3, 0xa0, 0x8e, 0x20, 0x19, 0x24, 0xbb])
         == [0x7c, 0x5e, 0xe3, 0x7a, 0xdf, 0x4e, 0x71, 0x09, 0xe0, 0xd0, 0x49, 0xcc, 0xf4, 0xc5, 0xa7, 0x30]
  {
    Column6A();
    Column6B();
    Column6C();
    Column6D();
    hide MixColumn;
  }

  lemma Column6A()
    ensures MixColumn(0x66, 0xbb, 0x94, 0xf2) == [0x7c, 0x5e, 0xe3, 0x7a]
  {
  }

  lemma Column6B()
    ensures MixColumn(0x88, 0xd7, 0xef, 0x59) == [0xdf, 0x4e, 0x71, 0x09]
  {
  }

  lemma Column6C()
    ensures MixColumn(0x78, 0xe3, 0xa0, 0x8e) == [0xe0, 0xd0, 0x49, 0xcc]
  {
  }

  lemma Column6D()
    ensures MixColumn(0x20, 0x19, 0x24, 0xbb) == [0xf4, 0xc5, 0xa7, 0x30]
  {
  }

  lemma Round6(rk: seq<byte>)
    requires IsSchedule(rk) && Nr(rk) == 10 && RoundKey(rk, 6) == [0x6d, 0x88, 0xa3, 0x7a, 0x11, 0x0b, 0x3e, 0xfd, 0xdb, 0xf9, 0x86, 0x41, 0xca, 0x00, 0x93, 0xfd]
    ensures Round([0xd3, 0x8e, 0x47, 0x15, 0x97, 0xfe, 0xa6, 0xe6, 0xc1, 0x0d, 0xe7, 0xfe, 0x54, 0x4d, 0x61, 0x04], rk, 6)
         == [0x11, 0xd6, 0x40, 0x00, 0xce, 0x45, 0x4f, 0xf4, 0x3b, 0x29, 0xcf, 0x8d, 0x3e, 0xc5, 0x34, 0xcd]
  {
    Sub6();
    Mix6();
    Add6();
    hide SubBytes, MixColumns, RoundKey, Xor;
  }

  lemma Add6()
    ensures Xor([0x7c, 0x5e, 0xe3, 0x7a, 0xdf, 0x4e, 0x71, 0x09, 0xe0, 0xd0, 0x49, 0xcc, 0xf4, 0xc5, 0xa7, 0x30], [0x6d, 0x88, 0xa3, 0x7a, 0x11, 0x0b, 0x3e, 0xfd, 0xdb, 0xf9, 0x86, 0x41, 0xca, 0x00, 0x93, 0xfd])
         == [0x11, 0xd6, 0x40, 0x00, 0xce, 0x45, 0x4f, 0xf4, 0x3b, 0x29, 0xcf, 0x8d, 0x3e, 0xc5, 0x34, 0xcd]
  {
    hide Xor, XorWord;
    var p: seq<byte> := [0x7c, 0x5e, 0xe3, 0x7a, 0xdf, 0x4e, 0x71, 0x09, 0xe0, 0xd0, 0x49, 0xcc, 0xf4, 0xc5, 0xa7, 0x30];
    var q: seq<byte> := [0x6d, 0x88, 0xa3, 0x7a, 0x11, 0x0b, 0x3e, 0xfd, 0xdb, 0xf9, 0x86, 0x41, 0xca, 0x00, 0x93, 0xfd];
    var r: seq<byte> := [0x11, 0xd6, 0x40, 0x00, 0xce, 0x45, 0x4f, 0xf4, 0x3b, 0x29, 0xcf, 0x8d, 0x3e, 0xc5, 0x34, 0xcd];
    Add6Words();
    assert p[0..4] == [0x7c, 0x5e, 0xe3, 0x7a] && q[0..4] == [0x6d, 0x88, 0xa3, 0x7a] && r[0..4] == [0x11, 0xd6, 0x40, 0x00];
    assert p[4..8] == [0xdf, 0x4e, 0x71, 0x09] && q[4..8] == [0x11, 0x0b, 0x3e, 0xfd] && r[4..8] == [0xce, 0x45, 0x4f, 0xf4];
    assert p[8..12] == [0xe0, 0xd0, 0x49, 0xcc] && q[8..12] == [0xdb, 0xf9, 0x86, 0x41] && r[8..12] == [0x3b, 0x29, 0xcf, 0x8d];
    assert p[12..16] == [0xf4, 0xc5, 0xa7, 0x30] && q[12..16] == [0xca, 0x00, 0x93, 0xfd] && r[12..16] == [0x3e, 0xc5, 0x34, 0xcd];
    Added(p, q, r);
  }

  lemma Add6Words()
    ensures XorWord([0x7c, 0x5e, 0xe3, 0x7a], [0x6d, 0x88, 0xa3, 0x7a]) == [0x11, 0xd6, 0x40, 0x00]
    ensures XorWord([0xdf, 0x4e, 0x71, 0x09], [0x11, 0x0b, 0x3e, 0xfd]) == [0xce, 0x45, 0x4f, 0xf4]
    ensures XorWord([0xe0, 0xd0, 0x49, 0xcc], [0xdb, 0xf9, 0x86, 0x41]) == [0x3b, 0x29, 0xcf, 0x8d]
    ensures XorWord([0xf4, 0xc5, 0xa7, 0x30], [0xca, 0x00, 0x93, 0xfd]) == [0x3e, 0xc5, 0x34, 0xcd]
  {
  }

  lemma Sub7()
    ensures SubBytes([0x11, 0xd6, 0x40, 0x00, 0xce, 0x45, 0x4f, 0xf4, 0x3b, 0x29, 0xcf, 0x8d, 0x3e, 0xc5, 0x34, 0xcd]) == [0x82, 0xf6, 0x09, 0x63, 0x8b, 0x6e, 0x84, 0xbf, 0xe2, 0xa5, 0x8a, 0x5d, 0xb2, 0xa6, 0x18, 0xbd]
  {
    Boxes7A();
    Boxes7B();
    hide Sbox;
  }

  lemma Boxes7A()
    ensures Sbox(0x11) == 0x82 && Sbox(0xd6) == 0xf6
    ensures Sbox(0x40) == 0x09 && Sbox(0x00) == 0x63
    ensures Sbox(0xce) == 0x8b && Sbox(0x45) == 0x6e
    ensures Sbox(0x4f) == 0x84 && Sbox(0xf4) == 0xbf
  {
  }

  lemma Boxes7B()
    ensures Sbox(0x3b) == 0xe2 && Sbox(0x29) == 0xa5
    ensures Sbox(0xcf) == 0x8a && Sbox(0x8d) == 0x5d
    ensures Sbox(0x3e) == 0xb2 && Sbox(0xc5) == 0xa6
    ensures Sbox(0x34) == 0x18 && Sbox(0xcd) == 0xbd
  {
  }

  lemma Mix7()
    ensures MixColumns([0x82, 0x6e, 0x8a, 0xbd, 0x8b, 0xa5, 0x18, 0x63, 0xe2, 0xa6, 0x09, 0xbf, 0xb2, 0xf6, 0x84, 0x5d])
         == [0x9a, 0x66, 0x3f, 0x18, 0x82, 0x91, 0xbb, 0xfd, 0x98, 0x11, 0x8c, 0xf7, 0xa7, 0x8f, 0xb0, 0x05]
  {
    Column7A();
    Column7B();
    Column7C();
    Column7D();
    hide MixColumn;
  }

  lemma Column7A()
    ensures MixColumn(0x82, 0x6e, 0x8a, 0xbd) == [0x9a, 0x66, 0x3f, 0x18]
  {
  }

  lemma Column7B()
    ensures MixColumn(0x8b, 0xa5, 0x18, 0x63) == [0x82, 0x91, 0xbb, 0xfd]
  {
  }

  lemma Column7C()
    ensures MixColumn(0xe2, 0xa6, 0x09, 0xbf) == [0x98, 0x11, 0x8c, 0xf7]
  {
  }

  lemma Column7D()
    ensures MixColumn(0xb2, 0xf6, 0x84, 0x5d) == [0xa7, 0x8f, 0xb0, 0x05]
  {
  }

  lemma Round7(rk: seq<byte>)
    requires IsSchedule(rk) && Nr(rk) == 10 && RoundKey(rk, 7) == [0x4e, 0x54, 0xf7, 0x0e, 0x5f, 0x5f, 0xc9, 0xf3, 0x84, 0xa6, 0x4f, 0xb2, 0x4e, 0xa6, 0xdc, 0x4f]
    ensures Round([0x11, 0xd6, 0x40, 0x00, 0xce, 0x45, 0x4f, 0xf4, 0x3b, 0x29, 0xcf, 0x8d, 0x3e, 0xc5, 0x34, 0xcd], rk, 7)
         == [0xd4, 0x32, 0xc8, 0x16, 0xdd, 0xce, 0x72, 0x0e, 0x1c, 0xb7, 0xc3, 0x45, 0xe9, 0x29, 0x6c, 0x4a]
  {
    Sub7();
    Mix7();
    Add7();
    hide SubBytes, MixColumns, RoundKey, Xor;
  }

  lemma Add7()
    ensures Xor([0x9a, 0x66, 0x3f, 0x18, 0x82, 0x91, 0xbb, 0xfd, 0x98, 0x11, 0x8c, 0xf7, 0xa7, 0x8f, 0xb0, 0x05], [0x4e, 0x54, 0xf7, 0x0e, 0x5f, 0x5f, 0xc9, 0xf3, 0x84, 0xa6, 0x4f, 0xb2, 0x4e, 0xa6, 0xdc, 0x4f])
         == [0xd4, 0x32, 0xc8, 0x16, 0xdd, 0xce, 0x72, 0x0e, 0x1c, 0xb7, 0xc3, 0x45, 0xe9, 0x29, 0x6c, 0x4a]
  {
    hide Xor, XorWord;
    var p: seq<byte> := [0x9a, 0x66, 0x3f, 0x18, 0x82, 0x91, 0xbb, 0xfd, 0x98, 0x11, 0x8c, 0xf7, 0xa7, 0x8f, 0xb0, 0x05];
    var q: seq<byte> := [0x4e, 0x54, 0xf7, 0x0e, 0x5f, 0x5f, 0xc9, 0xf3, 0x84, 0xa6, 0x4f, 0xb2, 0x4e, 0xa6, 0xdc, 0x4f];
    var r: seq<byte> := [0xd4, 0x32, 0xc8, 0x16, 0xdd, 0xce, 0x72, 0x0e, 0x1c, 0xb7, 0xc3, 0x45, 0xe9, 0x29, 0x6c, 0x4a];
    Add7Words();
    assert p[0..4] == [0x9a, 0x66, 0x3f, 0x18] && q[0..4] == [0x4e, 0x54, 0xf7, 0x0e] && r[0..4] == [0xd4, 0x32, 0xc8, 0x16];
    assert p[4..8] == [0x82, 0x91, 0xbb, 0xfd] && q[4..8] == [0x5f, 0x5f, 0xc9, 0xf3] && r[4..8] == [0xdd, 0xce, 0x72, 0x0e];
    assert p[8..12] == [0x98, 0x11, 0x8c, 0xf7] && q[8..12] == [0x84, 0xa6, 0x4f, 0xb2] && r[8..12] == [0x1c, 0xb7, 0xc3, 0x45];
    assert p[12..16] == [0xa7, 0x8f, 0xb0, 0x05] && q[12..16] == [0x4e, 0xa6, 0xdc, 0x4f] && r[12..16] == [0xe9, 0x29, 0x6c, 0x4a];
    Added(p, q, r);
  }

  lemma Add7Words()
    ensures XorWord([0x9a, 0x66, 0x3f, 0x18], [0x4e, 0x54, 0xf7, 0x0e]) == [0xd4, 0x32, 0xc8, 0x16]
    ensures XorWord([0x82, 0x91, 0xbb, 0xfd], [0x5f, 0x5f, 0xc9, 0xf3]) == [0xdd, 0xce, 0x72, 0x0e]
    ensures XorWord([0x98, 0x11, 0x8c, 0xf7], [0x84, 0xa6, 0x4f, 0xb2]) == [0x1c, 0xb7, 0xc3, 0x45]
    ensures XorWord([0xa7, 0x8f, 0xb0, 0x05], [0x4e, 0xa6, 0xdc, 0x4f]) == [0xe9, 0x29, 0x6c, 0x4a]
  {
  }

  lemma Sub8()
    ensures SubBytes([0xd4, 0x32, 0xc8, 0x16, 0xdd, 0xce, 0x72, 0x0e, 0x1c, 0xb7, 0xc3, 0x45, 0xe9, 0x29, 0x6c, 0x4a]) == [0x48, 0x23, 0xe8, 0x47, 0xc1, 0x8b, 0x40, 0xab, 0x9c, 0xa9, 0x2e, 0x6e, 0x1e, 0xa5, 0x50, 0xd6]
  {
    Boxes8A();
    Boxes8B();
    hide Sbox;
  }

  lemma Boxes8A()
    ensures Sbox(0xd4) == 0x48 && Sbox(0x32) == 0x23
    ensures Sbox(0xc8) == 0xe8 && Sbox(0x16) == 0x47
    ensures Sbox(0xdd) == 0xc1 && Sbox(0xce) == 0x8b
    ensures Sbox(0x72) == 0x40 && Sbox(0x0e) == 0xab
  {
  }

  lemma Boxes8B()
    ensures Sbox(0x1c) == 0x9c && Sbox(0xb7) == 0xa9
    ensures Sbox(0xc3) == 0x2e && Sbox(0x45) == 0x6e
    ensures Sbox(0xe9) == 0x1e && Sbox(0x29) == 0xa5
    ensures Sbox(0x6c) == 0x50 && Sbox(0x4a) == 0xd6
  {
  }

  lemma Mix8()
    ensures MixColumns([0x48, 0x8b, 0x2e, 0xd6, 0xc1, 0xa9, 0x50, 0x47, 0x9c, 0xa5, 0xe8, 0xab, 0x1e, 0x23, 0x40, 0x6e])
         == [0xee, 0xe1, 0xfe, 0xca, 0x6e, 0x3f, 0x01, 0x2f, 0x94, 0x45, 0x14, 0xbf, 0x77, 0xf6, 0x0f, 0x9d]
  {
    Column8A();
    Column8B();
    Column8C();
    Column8D();
    hide MixColumn;
  }

  lemma Column8A()
    ensures MixColumn(0x48, 0x8b, 0x2e, 0xd6) == [0xee, 0xe1, 0xfe, 0xca]
  {
  }

  lemma Column8B()
    ensures MixColumn(0xc1, 0xa9, 0x50, 0x47) == [0x6e, 0x3f, 0x01, 0x2f]
  {
  }

  lemma Column8C()
    ensures MixColumn(0x9c, 0xa5, 0xe8, 0xab) == [0x94, 0x45, 0x14, 0xbf]
  {
  }

  lemma Column8D()
    ensures MixColumn(0x1e, 0x23, 0x40, 0x6e) == [0x77, 0xf6, 0x0f, 0x9d]
  {
  }

  lemma Round8(rk: seq<byte>)
    requires IsSchedule(rk) && Nr(rk) == 10 && RoundKey(rk, 8) == [0xea, 0xd2, 0x73, 0x21, 0xb5, 0x8d, 0xba, 0xd2, 0x31, 0x2b, 0xf5, 0x60, 0x7f, 0x8d, 0x29, 0x2f]
    ensures Round([0xd4, 0x32, 0xc8, 0x16, 0xdd, 0xce, 0x72, 0x0e, 0x1c, 0xb7, 0xc3, 0x45, 0xe9, 0x29, 0x6c, 0x4a], rk, 8)
         == [0x04, 0x33, 0x8d, 0xeb, 0xdb, 0xb2, 0xbb, 0xfd, 0xa5, 0x6e, 0xe1, 0xdf, 0x08, 0x7b, 0x26, 0xb2]
  {
    Sub8();
    Mix8();
    Add8();
    hide SubBytes, MixColumns, RoundKey, Xor;
  }

  lemma Add8()
    ensures Xor([0xee, 0xe1, 0xfe, 0xca, 0x6e, 0x3f, 0x01, 0x2f, 0x94, 0x45, 0x14, 0xbf, 0x77, 0xf6, 0x0f, 0x9d], [0xea, 0xd2, 0x73, 0x21, 0xb5, 0x8d, 0xba, 0xd2, 0x31, 0x2b, 0xf5, 0x60, 0x7f, 0x8d, 0x29, 0x2f])
         == [0x04, 0x33, 0x8d, 0xeb, 0xdb, 0xb2, 0xbb, 0xfd, 0xa5, 0x6e, 0xe1, 0xdf, 0x08, 0x7b, 0x26, 0xb2]
  {
    hide Xor, XorWord;
    var p: seq<byte> := [0xee, 0xe1, 0xfe, 0xca, 0x6e, 0x3f, 0x01, 0x2f, 0x94, 0x45, 0x14, 0xbf, 0x77, 0xf6, 0x0f, 0x9d];
    var q: seq<byte> := [0xea, 0xd2, 0x73, 0x21, 0xb5, 0x8d, 0xba, 0xd2, 0x31, 0x2b, 0xf5, 0x60, 0x7f, 0x8d, 0x29, 0x2f];
    var r: seq<byte> := [0x04, 0x33, 0x8d, 0xeb, 0xdb, 0xb2, 0xbb, 0xfd, 0xa5, 0x6e, 0xe1, 0xdf, 0x08, 0x7b, 0x26, 0xb2];
    Add8Words();
    assert p[0..4] == [0xee, 0xe1, 0xfe, 0xca] && q[0..4] == [0xea, 0xd2, 0x73, 0x21] && r[0..4] == [0x04, 0x33, 0x8d, 0xeb];
    assert p[4..8] == [0x6e, 0x3f, 0x01, 0x2f] && q[4..8] == [0xb5, 0x8d, 0xba, 0xd2] && r[4..8] == [0xdb, 0xb2, 0xbb, 0xfd];
    assert p[8..12] == [0x94, 0x45, 0x14, 0xbf] && q[8..12] == [0x31, 0x2b, 0xf5, 0x60] && r[8..12] == [0xa5, 0x6e, 0xe1, 0xdf];
    assert p[12..16] == [0x77, 0xf6, 0x0f, 0x9d] && q[12..16] == [0x7f, 0x8d, 0x29, 0x2f] && r[12..16] == [0x08, 0x7b, 0x26, 0xb2];
    Added(p, q, r);
  }

  lemma Add8Words()
    ensures XorWord([0xee, 0xe1, 0xfe, 0xca], [0xea, 0xd2, 0x73, 0x21]) == [0x04, 0x33, 0x8d, 0xeb]
    ensures XorWord([0x6e, 0x3f, 0x01, 0x2f], [0xb5, 0x8d, 0xba, 0xd2]) == [0xdb, 0xb2, 0xbb, 0xfd]
    ensures XorWord([0x94, 0x45, 0x14, 0xbf], [0x31, 0x2b, 0xf5, 0x60]) == [0xa5, 0x6e, 0xe1, 0xdf]
    ensures XorWord([0x77, 0xf6, 0x0f, 0x9d], [0x7f, 0x8d, 0x29, 0x2f]) == [0x08, 0x7b, 0x26, 0xb2]
  {
  }

  lemma Sub9()
    ensures SubBytes([0x04, 0x33, 0x8d, 0xeb, 0xdb, 0xb2, 0xbb, 0xfd, 0xa5, 0x6e, 0xe1, 0xdf, 0x08, 0x7b, 0x26, 0xb2]) == [0xf2, 0xc3, 0x5d, 0xe9, 0xb9, 0x37, 0xea, 0x54, 0x06, 0x9f, 0xf8, 0x9e, 0x30, 0x21, 0xf7, 0x37]
  {
    Boxes9A();
    Boxes9B();
    hide Sbox;
  }

  lemma Boxes9A()
    ensures Sbox(0x04) == 0xf2 && Sbox(0x33) == 0xc3
    ensures Sbox(0x8d) == 0x5d && Sbox(0xeb) == 0xe9
    ensures Sbox(0xdb) == 0xb9 && Sbox(0xb2) == 0x37
    ensures Sbox(0xbb) == 0xea && Sbox(0xfd) == 0x54
  {
  }

  lemma Boxes9B()
    ensures Sbox(0xa5) == 0x06 && Sbox(0x6e) == 0x9f
    ensures Sbox(0xe1) == 0xf8 && Sbox(0xdf) == 0x9e
    ensures Sbox(0x08) == 0x30 && Sbox(0x7b) == 0x21
    ensures Sbox(0x26) == 0xf7 && Sbox(0xb2) == 0x37
  {
  }

  lemma Mix9()
    ensures MixColumns([0xf2, 0x37, 0xf8, 0x37, 0xb9, 0x9f, 0xf7, 0xe9, 0x06, 0x21, 0x5d, 0x54, 0x30, 0xc3, 0xea, 0x9e])
         == [0x69, 0xb8, 0x77, 0xac, 0xcd, 0x77, 0xf3, 0x71, 0x66, 0xf7, 0x61, 0xde, 0x4a, 0x16, 0x85, 0x5e]
  {
    Column9A();
    Column9B();
    Column9C();
    Column9D();
    hide MixColumn;
  }

  lemma Column9A()
    ensures MixColumn(0xf2, 0x37, 0xf8, 0x37) == [0x69, 0xb8, 0x77, 0xac]
  {
  }

  lemma Column9B()
    ensures MixColumn(0xb9, 0x9f, 0xf7, 0xe9) == [0xcd, 0x77, 0xf3, 0x71]
  {
  }

  lemma Column9C()
    ensures MixColumn(0x06, 0x21, 0x5d, 0x54) == [0x66, 0xf7, 0x61, 0xde]
  {
  }

  lemma Column9D()
    ensures MixColumn(0x30, 0xc3, 0xea, 0x9e) == [0x4a, 0x16, 0x85, 0x5e]
  {
  }

  lemma Round9(rk: seq<byte>)
    requires IsSchedule(rk) && Nr(rk) == 10 && RoundKey(rk, 9) == [0xac, 0x77, 0x66, 0xf3, 0x19, 0xfa, 0xdc, 0x21, 0x28, 0xd1, 0x29, 0x41, 0x57, 0x5c, 0x00, 0x6e]
    ensures Round([0x04, 0x33, 0x8d, 0xeb, 0xdb, 0xb2, 0xbb, 0xfd, 0xa5, 0x6e, 0xe1, 0xdf, 0x08, 0x7b, 0x26, 0xb2], rk, 9)
         == [0xc5, 0xcf, 0x11, 0x5f, 0xd4, 0x8d, 0x2f, 0x50, 0x4e, 0x26, 0x48, 0x9f, 0x1d, 0x4a, 0x85, 0x30]
  {
    Sub9();
    Mix9();
    Add9();
    hide SubBytes, MixColumns, RoundKey, Xor;
  }

  lemma Add9()
    ensures Xor([0x69, 0xb8, 0x77, 0xac, 0xcd, 0x77, 0xf3, 0x71, 0x66, 0xf7, 0x61, 0xde, 0x4a, 0x16, 0x85, 0x5e], [0xac, 0x77, 0x66, 0xf3, 0x19, 0xfa, 0xdc, 0x21, 0x28, 0xd1, 0x29, 0x41, 0x57, 0x5c, 0x00, 0x6e])
         == [0xc5, 0xcf, 0x11, 0x5f, 0xd4, 0x8d, 0x2f, 0x50, 0x4e, 0x26, 0x48, 0x9f, 0x1d, 0x4a, 0x85, 0x30]
  {
    hide Xor, XorWord;
    var p: seq<byte> := [0x69, 0xb8, 0x77, 0xac, 0xcd, 0x77, 0xf3, 0x71, 0x66, 0xf7, 0x61, 0xde, 0x4a, 0x16, 0x85, 0x5e];
    var q: seq<byte> := [0xac, 0x77, 0x66, 0xf3, 0x19, 0xfa, 0xdc, 0x21, 0x28, 0xd1, 0x29, 0x41, 0x57, 0x5c, 0x00, 0x6e];
    var r: seq<byte> := [0xc5, 0xcf, 0x11, 0x5f, 0xd4, 0x8d, 0x2f, 0x50, 0x4e, 0x26, 0x48, 0x9f, 0x1d, 0x4a, 0x85, 0x30];
    Add9Words();
    assert p[0..4] == [0x69, 0xb8, 0x77, 0xac] && q[0..4] == [0xac, 0x77, 0x66, 0xf3] && r[0..4] == [0xc5, 0xcf, 0x11, 0x5f];
    assert p[4..8] == [0xcd, 0x77, 0xf3, 0x71] && q[4..8] == [0x19, 0xfa, 0xdc, 0x21] && r[4..8] == [0xd4, 0x8d, 0x2f, 0x50];
    assert p[8..12] == [0x66, 0xf7, 0x61, 0xde] && q[8..12] == [0x28, 0xd1, 0x29, 0x41] && r[8..12] == [0x4e, 0x26, 0x48, 0x9f];
    assert p[12..16] == [0x4a, 0x16, 0x85, 0x5e] && q[12..16] == [0x57, 0x5c, 0x00, 0x6e] && r[12..16] == [0x1d, 0x4a, 0x85, 0x30];
    Added(p, q, r);
  }

  lemma Add9Words()
    ensures XorWord([0x69, 0xb8, 0x77, 0xac], [0xac, 0x77, 0x66, 0xf3]) == [0xc5, 0xcf, 0x11, 0x5f]
    ensures XorWord([0xcd, 0x77, 0xf3, 0x71], [0x19, 0xfa, 0xdc, 0x21]) == [0xd4, 0x8d, 0x2f, 0x50]
    ensures XorWord([0x66, 0xf7, 0x61, 0xde], [0x28, 0xd1, 0x29, 0x41]) == [0x4e, 0x26, 0x48, 0x9f]
    ensures XorWord([0x4a, 0x16, 0x85, 0x5e], [0x57, 0x5c, 0x00, 0x6e]) == [0x1d, 0x4a, 0x85, 0x30]
  {
  }

  lemma Sub10()
    ensures SubBytes([0xc5, 0xcf, 0x11, 0x5f, 0xd4, 0x8d, 0x2f, 0x50, 0x4e, 0x26, 0x48, 0x9f, 0x1d, 0x4a, 0x85, 0x30]) == [0xa6, 0x8a, 0x82, 0xcf, 0x48, 0x5d, 0x15, 0x53, 0x2f, 0xf7, 0x52, 0xdb, 0xa4, 0xd6, 0x97, 0x04]
  {
    Boxes10A();
    Boxes10B();
    hide Sbox;
  }

  lemma Boxes10A()
    ensures Sbox(0xc5) == 0xa6 && Sbox(0xcf) == 0x8a
    ensures Sbox(0x11) == 0x82 && Sbox(0x5f) == 0xcf
    ensures Sbox(0xd4) == 0x48 && Sbox(0x8d) == 0x5d
    ensures Sbox(0x2f) == 0x15 && Sbox(0x50) == 0x53
  {
  }

  lemma Boxes10B()
    ensures Sbox(0x4e) == 0x2f && Sbox(0x26) == 0xf7
    ensures Sbox(0x48) == 0x52 && Sbox(0x9f) == 0xdb
    ensures Sbox(0x1d) == 0xa4 && Sbox(0x4a) == 0xd6
    ensures Sbox(0x85) == 0x97 && Sbox(0x30) == 0x04
  {
  }

  /** The state after the first key and each round. */
  lemma States(b: seq<byte>, rk: seq<byte>)
    requires IsSchedule(rk) && Nr(rk) == 10 && b == [0x6b, 0xc0, 0xbc, 0xe1, 0x2a, 0x45, 0x99, 0x91, 0xe1, 0x34, 0x74, 0x1a, 0x7f, 0x9e, 0x19, 0x25]
    requires RoundKey(rk, 0) == [0x2b, 0x7e, 0x15, 0x16, 0x28, 0xae, 0xd2, 0xa6, 0xab, 0xf7, 0x15, 0x88, 0x09, 0xcf, 0x4f, 0x3c]
    requires RoundKey(rk, 1) == [0xa0, 0xfa, 0xfe, 0x17, 0x88, 0x54, 0x2c, 0xb1, 0x23, 0xa3, 0x39, 0x39, 0x2a, 0x6c, 0x76, 0x05]
    requires RoundKey(rk, 2) == [0xf2, 0xc2, 0x95, 0xf2, 0x7a, 0x96, 0xb9, 0x43, 0x59, 0x35, 0x80, 0x7a, 0x73, 0x59, 0xf6, 0x7f]
    requires RoundKey(rk, 3) == [0x3d, 0x80, 0x47, 0x7d, 0x47, 0x16, 0xfe, 0x3e, 0x1e, 0x23, 0x7e, 0x44, 0x6d, 0x7a, 0x88, 0x3b]
    requires RoundKey(rk, 4) == [0xef, 0x44, 0xa5, 0x41, 0xa8, 0x52, 0x5b, 0x7f, 0xb6, 0x71, 0x25, 0x3b, 0xdb, 0x0b, 0xad, 0x00]
    requires RoundKey(rk, 5) == [0xd4, 0xd1, 0xc6, 0xf8, 0x7c, 0x83, 0x9d, 0x87, 0xca, 0xf2, 0xb8, 0xbc, 0x11, 0xf9, 0x15, 0xbc]
    requires RoundKey(rk, 6) == [0x6d, 0x88, 0xa3, 0x7a, 0x11, 0x0b, 0x3e, 0xfd, 0xdb, 0xf9, 0x86, 0x41, 0xca, 0x00, 0x93, 0xfd]
    requires RoundKey(rk, 7) == [0x4e, 0x54, 0xf7, 0x0e, 0x5f, 0x5f, 0xc9, 0xf3, 0x84, 0xa6, 0x4f, 0xb2, 0x4e, 0xa6, 0xdc, 0x4f]
    requires RoundKey(rk, 8) == [0xea, 0xd2, 0x73, 0x21, 0xb5, 0x8d, 0xba, 0xd2, 0x31, 0x2b, 0xf5, 0x60, 0x7f, 0x8d, 0x29, 0x2f]
    requires RoundKey(rk, 9) == [0xac, 0x77, 0x66, 0xf3, 0x19, 0xfa, 0xdc, 0x21, 0x28, 0xd1, 0x29, 0x41, 0x57, 0x5c, 0x00, 0x6e]
    ensures Rounds(b, rk, 9) == [0xc5, 0xcf, 0x11, 0x5f, 0xd4, 0x8d, 0x2f, 0x50, 0x4e, 0x26, 0x48, 0x9f, 0x1d, 0x4a, 0x85, 0x30]
  {
    FirstState(b, rk);
    hide *;
    Round1(rk);
    NextState(b, rk, 1);
    Round2(rk);
    NextState(b, rk, 2);
    Round3(rk);
    NextState(b, rk, 3);
    Round4(rk);
    NextState(b, rk, 4);
    Round5(rk);
    NextState(b, rk, 5);
    Round6(rk);
    NextState(b, rk, 6);
    Round7(rk);
    NextState(b, rk, 7);
    Round8(rk);
    NextState(b, rk, 8);
    Round9(rk);
    NextState(b, rk, 9);
  }

  lemma FirstState(b: seq<byte>, rk: seq<byte>)
    requires IsSchedule(rk) && Nr(rk) == 10 && b == [0x6b, 0xc0, 0xbc, 0xe1, 0x2a, 0x45, 0x99, 0x91, 0xe1, 0x34, 0x74, 0x1a, 0x7f, 0x9e, 0x19, 0x25]
    requires RoundKey(rk, 0) == [0x2b, 0x7e, 0x15, 0x16, 0x28, 0xae, 0xd2, 0xa6, 0xab, 0xf7, 0x15, 0x88, 0x09, 0xcf, 0x4f, 0x3c]
    ensures Rounds(b, rk, 0) == [0x40, 0xbe, 0xa9, 0xf7, 0x02, 0xeb, 0x4b, 0x37, 0x4a, 0xc3, 0x61, 0x92, 0x76, 0x51, 0x56, 0x19]
  {
    Add0();
    hide RoundKey, Round, Xor;
  }

  lemma NextState(b: seq<byte>, rk: seq<byte>, n: nat)
    requires IsBlock(b) && IsSchedule(rk) && 0 < n < Nr(rk)
    ensures Rounds(b, rk, n) == Round(Rounds(b, rk, n - 1), rk, n)
  {
    hide Round;
  }

  lemma LastState(b: seq<byte>, rk: seq<byte>)
    requires IsBlock(b) && IsSchedule(rk) && Nr(rk) == 10 && Rounds(b, rk, 9) == [0xc5, 0xcf, 0x11, 0x5f, 0xd4, 0x8d, 0x2f, 0x50, 0x4e, 0x26, 0x48, 0x9f, 0x1d, 0x4a, 0x85, 0x30]
    requires RoundKey(rk, 10) == [0xd0, 0x14, 0xf9, 0xa8, 0xc9, 0xee, 0x25, 0x89, 0xe1, 0x3f, 0x0c, 0xc8, 0xb6, 0x63, 0x0c, 0xa6]
    ensures Cipher(b, rk) == [0x76, 0x49, 0xab, 0xac, 0x81, 0x19, 0xb2, 0x46, 0xce, 0xe9, 0x8e, 0x9b, 0x12, 0xe9, 0x19, 0x7d]
  {
    Sub10();
    Add10();
    hide SubBytes, RoundKey, Rounds, Xor;
  }

  /** The first block of CBC with a 128-bit key. */
  lemma FirstBlock()
    ensures IsSchedule(Expanded(FirstKey()))
    ensures Encrypt(Expanded(FirstKey()), [0x00, 0x01, 0x02, 0x03, 0x04, 0x05, 0x06, 0x07, 0x08, 0x09, 0x0a, 0x0b, 0x0c, 0x0d, 0x0e, 0x0f], [0x6b, 0xc1, 0xbe, 0xe2, 0x2e, 0x40, 0x9f, 0x96, 0xe9, 0x3d, 0x7e, 0x11, 0x73, 0x93, 0x17, 0x2a])
         == [0x76, 0x49, 0xab, 0xac, 0x81, 0x19, 0xb2, 0x46, 0xce, 0xe9, 0x8e, 0x9b, 0x12, 0xe9, 0x19, 0x7d]
  {
    hide FirstKey, Expanded, Encrypt, Cipher, Xor, IsSchedule, Nr, RoundKey, Rounds;
    var key := FirstKey();
    var rk := Expanded(key);
    RoundKey0(key);
    RoundKey1(key);
    RoundKey2(key);
    RoundKey3(key);
    RoundKey4(key);
    RoundKey5(key);
    RoundKey6(key);
    RoundKey7(key);
    RoundKey8(key);
    RoundKey9(key);
    RoundKey10(key);
    EncryptOne(rk, [0x00, 0x01, 0x02, 0x03, 0x04, 0x05, 0x06, 0x07, 0x08, 0x09, 0x0a, 0x0b, 0x0c, 0x0d, 0x0e, 0x0f], [0x6b, 0xc1, 0xbe, 0xe2, 0x2e, 0x40, 0x9f, 0x96, 0xe9, 0x3d, 0x7e, 0x11, 0x73, 0x93, 0x17, 0x2a]);
    FirstXor();
    States([0x6b, 0xc0, 0xbc, 0xe1, 0x2a, 0x45, 0x99, 0x91, 0xe1, 0x34, 0x74, 0x1a, 0x7f, 0x9e, 0x19, 0x25], rk);
    LastState([0x6b, 0xc0, 0xbc, 0xe1, 0x2a, 0x45, 0x99, 0x91, 0xe1, 0x34, 0x74, 0x1a, 0x7f, 0x9e, 0x19, 0x25], rk);
  }

  lemma FirstXor()
    ensures Xor([0x6b, 0xc1, 0xbe, 0xe2, 0x2e, 0x40, 0x9f, 0x96, 0xe9, 0x3d, 0x7e, 0x11, 0x73, 0x93, 0x17, 0x2a], [0x00, 0x01, 0x02, 0x03, 0x04, 0x05, 0x06, 0x07, 0x08, 0x09, 0x0a, 0x0b, 0x0c, 0x0d, 0x0e, 0x0f])
         == [0x6b, 0xc0, 0xbc, 0xe1, 0x2a, 0x45, 0x99, 0x91, 0xe1, 0x34, 0x74, 0x1a, 0x7f, 0x9e, 0x19, 0x25]
  {
    hide Xor, XorWord;
    var p: seq<byte> := [0x6b, 0xc1, 0xbe, 0xe2, 0x2e, 0x40, 0x9f, 0x96, 0xe9, 0x3d, 0x7e, 0x11, 0x73, 0x93, 0x17, 0x2a];
    var q: seq<byte> := [0x00, 0x01, 0x02, 0x03, 0x04, 0x05, 0x06, 0x07, 0x08, 0x09, 0x0a, 0x0b, 0x0c, 0x0d, 0x0e, 0x0f];
    var r: seq<byte> := [0x6b, 0xc0, 0xbc, 0xe1, 0x2a, 0x45, 0x99, 0x91, 0xe1, 0x34, 0x74, 0x1a, 0x7f, 0x9e, 0x19, 0x25];
    FirstXorWords();
    assert p[0..4] == [0x6b, 0xc1, 0xbe, 0xe2] && q[0..4] == [0x00, 0x01, 0x02, 0x03] && r[0..4] == [0x6b, 0xc0, 0xbc, 0xe1];
    assert p[4..8] == [0x2e, 0x40, 0x9f, 0x96] && q[4..8] == [0x04, 0x05, 0x06, 0x07] && r[4..8] == [0x2a, 0x45, 0x99, 0x91];
    assert p[8..12] == [0xe9, 0x3d, 0x7e, 0x11] && q[8..12] == [0x08, 0x09, 0x0a, 0x0b] && r[8..12] == [0xe1, 0x34, 0x74, 0x1a];
    assert p[12..16] == [0x73, 0x93, 0x17, 0x2a] && q[12..16] == [0x0c, 0x0d, 0x0e, 0x0f] && r[12..16] == [0x7f, 0x9e, 0x19, 0x25];
    Added(p, q, r);
  }

  lemma FirstXorWords()
    ensures XorWord([0x6b, 0xc1, 0xbe, 0xe2], [0x00, 0x01, 0x02, 0x03]) == [0x6b, 0xc0, 0xbc, 0xe1]
    ensures XorWord([0x2e, 0x40, 0x9f, 0x96], [0x04, 0x05, 0x06, 0x07]) == [0x2a, 0x45, 0x99, 0x91]
    ensures XorWord([0xe9, 0x3d, 0x7e, 0x11], [0x08, 0x09, 0x0a, 0x0b]) == [0xe1, 0x34, 0x74, 0x1a]
    ensures XorWord([0x73, 0x93, 0x17, 0x2a], [0x0c, 0x0d, 0x0e, 0x0f]) == [0x7f, 0x9e, 0x19, 0x25]
  {
  }

  lemma Add0()
    ensures Xor([0x6b, 0xc0, 0xbc, 0xe1, 0x2a, 0x45, 0x99, 0x91, 0xe1, 0x34, 0x74, 0x1a, 0x7f, 0x9e, 0x19, 0x25], [0x2b, 0x7e, 0x15, 0x16, 0x28, 0xae, 0xd2, 0xa6, 0xab, 0xf7, 0x15, 0x88, 0x09, 0xcf, 0x4f, 0x3c])
         == [0x40, 0xbe, 0xa9, 0xf7, 0x02, 0xeb, 0x4b, 0x37, 0x4a, 0xc3, 0x61, 0x92, 0x76, 0x51, 0x56, 0x19]
  {
    hide Xor, XorWord;
    var p: seq<byte> := [0x6b, 0xc0, 0xbc, 0xe1, 0x2a, 0x45, 0x99, 0x91, 0xe1, 0x34, 0x74, 0x1a, 0x7f, 0x9e, 0x19, 0x25];
    var q: seq<byte> := [0x2b, 0x7e, 0x15, 0x16, 0x28, 0xae, 0xd2, 0xa6, 0xab, 0xf7, 0x15, 0x88, 0x09, 0xcf, 0x4f, 0x3c];
    var r: seq<byte> := [0x40, 0xbe, 0xa9, 0xf7, 0x02, 0xeb, 0x4b, 0x37, 0x4a, 0xc3, 0x61, 0x92, 0x76, 0x51, 0x56, 0x19];
    Add0Words();
    assert p[0..4] == [0x6b, 0xc0, 0xbc, 0xe1] && q[0..4] == [0x2b, 0x7e, 0x15, 0x16] && r[0..4] == [0x40, 0xbe, 0xa9, 0xf7];
    assert p[4..8] == [0x2a, 0x45, 0x99, 0x91] && q[4..8] == [0x28, 0xae, 0xd2, 0xa6] && r[4..8] == [0x02, 0xeb, 0x4b, 0x37];
    assert p[8..12] == [0xe1, 0x34, 0x74, 0x1a] && q[8..12] == [0xab, 0xf7, 0x15, 0x88] && r[8..12] == [0x4a, 0xc3, 0x61, 0x92];
    assert p[12..16] == [0x7f, 0x9e, 0x19, 0x25] && q[12..16] == [0x09, 0xcf, 0x4f, 0x3c] && r[12..16] == [0x76, 0x51, 0x56, 0x19];
    Added(p, q, r);
  }

  lemma Add0Words()
    ensures XorWord([0x6b, 0xc0, 0xbc, 0xe1], [0x2b, 0x7e, 0x15, 0x16]) == [0x40, 0xbe, 0xa9, 0xf7]
    ensures XorWord([0x2a, 0x45, 0x99, 0x91], [0x28, 0xae, 0xd2, 0xa6]) == [0x02, 0xeb, 0x4b, 0x37]
    ensures XorWord([0xe1, 0x34, 0x74, 0x1a], [0xab, 0xf7, 0x15, 0x88]) == [0x4a, 0xc3, 0x61, 0x92]
    ensures XorWord([0x7f, 0x9e, 0x19, 0x25], [0x09, 0xcf, 0x4f, 0x3c]) == [0x76, 0x51, 0x56, 0x19]
  {
  }

  lemma Add10()
    ensures Xor([0xa6, 0x5d, 0x52, 0x04, 0x48, 0xf7, 0x97, 0xcf, 0x2f, 0xd6, 0x82, 0x53, 0xa4, 0x8a, 0x15, 0xdb], [0xd0, 0x14, 0xf9, 0xa8, 0xc9, 0xee, 0x25, 0x89, 0xe1, 0x3f, 0x0c, 0xc8, 0xb6, 0x63, 0x0c, 0xa6])
         == [0x76, 0x49, 0xab, 0xac, 0x81, 0x19, 0xb2, 0x46, 0xce, 0xe9, 0x8e, 0x9b, 0x12, 0xe9, 0x19, 0x7d]
  {
    hide Xor, XorWord;
    var p: seq<byte> := [0xa6, 0x5d, 0x52, 0x04, 0x48, 0xf7, 0x97, 0xcf, 0x2f, 0xd6, 0x82, 0x53, 0xa4, 0x8a, 0x15, 0xdb];
    var q: seq<byte> := [0xd0, 0x14, 0xf9, 0xa8, 0xc9, 0xee, 0x25, 0x89, 0xe1, 0x3f, 0x0c, 0xc8, 0xb6, 0x63, 0x0c, 0xa6];
    var r: seq<byte> := [0x76, 0x49, 0xab, 0xac, 0x81, 0x19, 0xb2, 0x46, 0xce, 0xe9, 0x8e, 0x9b, 0x12, 0xe9, 0x19, 0x7d];
    Add10Words();
    assert p[0..4] == [0xa6, 0x5d, 0x52, 0x04] && q[0..4] == [0xd0, 0x14, 0xf9, 0xa8] && r[0..4] == [0x76, 0x49, 0xab, 0xac];
    assert p[4..8] == [0x48, 0xf7, 0x97, 0xcf] && q[4..8] == [0xc9, 0xee, 0x25, 0x89] && r[4..8] == [0x81, 0x19, 0xb2, 0x46];
    assert p[8..12] == [0x2f, 0xd6, 0x82, 0x53] && q[8..12] == [0xe1, 0x3f, 0x0c, 0xc8] && r[8..12] == [0xce, 0xe9, 0x8e, 0x9b];
    assert p[12..16] == [0xa4, 0x8a, 0x15, 0xdb] && q[12..16] == [0xb6, 0x63, 0x0c, 0xa6] && r[12..16] == [0x12, 0xe9, 0x19, 0x7d];
    Added(p, q, r);
  }

  lemma Add10Words()
    ensures XorWord([0xa6, 0x5d, 0x52, 0x04], [0xd0, 0x14, 0xf9, 0xa8]) == [0x76, 0x49, 0xab, 0xac]
    ensures XorWord([0x48, 0xf7, 0x97, 0xcf], [0xc9, 0xee, 0x25, 0x89]) == [0x81, 0x19, 0xb2, 0x46]
    ensures XorWord([0x2f, 0xd6, 0x82, 0x53], [0xe1, 0x3f, 0x0c, 0xc8]) == [0xce, 0xe9, 0x8e, 0x9b]
    ensures XorWord([0xa4, 0x8a, 0x15, 0xdb], [0xb6, 0x63, 0x0c, 0xa6]) == [0x12, 0xe9, 0x19, 0x7d]
  {
  }

  lemma Added(p: seq<byte>, q: seq<byte>, r: seq<byte>)
    requires IsBlock(p) && IsBlock(q) && IsBlock(r)
    requires XorWord(p[0..4], q[0..4]) == r[0..4] && XorWord(p[4..8], q[4..8]) == r[4..8]
    requires XorWord(p[8..12], q[8..12]) == r[8..12] && XorWord(p[12..16], q[12..16]) == r[12..16]
    ensures Xor(p, q) == r
  {
    hide Xor, XorWord;
    WholeBlock(Xor(p, q));
    WholeBlock(r);
    XorPart(p, q, 0);
    XorPart(p, q, 4);
    XorPart(p, q, 8);
    XorPart(p, q, 12);
  }

  lemma WholeBlock(p: seq<byte>)
    requires IsBlock(p)
    ensures p == p[0..4] + p[4..8] + p[8..12] + p[12..16]
  {
  }

  lemma XorPart(p: seq<byte>, q: seq<byte>, o: nat)
    requires IsBlock(p) && IsBlock(q) && o + 4 <= 16
    ensures Xor(p, q)[o..o + 4] == XorWord(p[o..o + 4], q[o..o + 4])
  {
    hide Add, Xor;
  }
}
