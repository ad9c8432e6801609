/** The first test value of RFC 1321, section A.5, step by step. */
module Md5Answer {
  import opened ByteSeqs
  import opened WordValues
  import opened Md5Rounds
  import opened Md5

  /** The empty message with its padding. */
  function FirstBlock(): (b: seq<byte>)
    ensures |b| == 64
  {
    [0x80] + Zeros(63)
  }

  function FirstWords(): (x: seq<word>)
    ensures |x| == 16 && x[0] == 0x80 && forall k :: 0 < k < 16 ==> x[k] == 0
  {
    [0x80] + seq(15, _ => 0)
  }

  lemma Steps0()
    ensures StepF(0x67452301, 0xefcdab89, 0x98badcfe, 0x10325476, 0x00000080, 0xd76aa478, 7) == 0xa5202774
    ensures StepF(0x10325476, 0xa5202774, 0xefcdab89, 0x98badcfe, 0x00000000, 0xe8c7b756, 12) == 0xf59592dd
    ensures StepF(0x98badcfe, 0xf59592dd, 0xa5202774, 0xefcdab89, 0x00000000, 0x242070db, 17) == 0xe7f06b23
    ensures StepF(0xefcdab89, 0xe7f06b23, 0xf59592dd, 0xa5202774, 0x00000000, 0xc1bdceee, 22) == 0x1b163203
  {
  }

  lemma Steps1()
    ensures StepF(0xa5202774, 0x1b163203, 0xe7f06b23, 0xf59592dd, 0x00000000, 0xf57c0faf, 7) == 0x32033344
    ensures StepF(0xf59592dd, 0x32033344, 0x1b163203, 0xe7f06b23, 0x00000000, 0x4787c62a, 12) == 0x2f35d494
    ensures StepF(0xe7f06b23, 0x2f35d494, 0x32033344, 0x1b163203, 0x00000000, 0xa8304613, 17) == 0xf5b158db
    ensures StepF(0x1b163203, 0xf5b158db, 0x2f35d494, 0x32033344, 0x00000000, 0xfd469501, 22) == 0x9bc13ce9
  {
  }

  lemma Steps2()
    ensures StepF(0x32033344, 0x9bc13ce9, 0xf5b158db, 0x2f35d494, 0x00000000, 0x698098d8, 7) == 0x3893b991
    ensures StepF(0x2f35d494, 0x3893b991, 0x9bc13ce9, 0xf5b158db, 0x00000000, 0x8b44f7af, 12) == 0xfce4a312
    ensures StepF(0xf5b158db, 0xfce4a312, 0x3893b991, 0x9bc13ce9, 0x00000000, 0xffff5bb1, 17) == 0xe1ef0576
    ensures StepF(0x9bc13ce9, 0xe1ef0576, 0xfce4a312, 0x3893b991, 0x00000000, 0x895cd7be, 22) == 0x70768a29
  {
  }

  lemma Steps3()
    ensures StepF(0x3893b991, 0x70768a29, 0xe1ef0576, 0xfce4a312, 0x00000000, 0x6b901122, 7) == 0xf56c7cf1
    ensures StepF(0xfce4a312, 0xf56c7cf1, 0x70768a29, 0xe1ef0576, 0x00000000, 0xfd987193, 12) == 0x374943a7
    ensures StepF(0xe1ef0576, 0x374943a7, 0xf56c7cf1, 0x70768a29, 0x00000000, 0xa679438e, 17) == 0x5aa53f75
    ensures StepF(0x70768a29, 0x5aa53f75, 0x374943a7, 0xf56c7cf1, 0x00000000, 0x49b40821, 22) == 0xd6819c6a
  {
  }

  lemma Steps4()
    ensures StepG(0xf56c7cf1, 0xd6819c6a, 0x5aa53f75, 0x374943a7, 0x00000000, 0xf61e2562, 5) == 0x1c7d7513
    ensures StepG(0x374943a7, 0x1c7d7513, 0xd6819c6a, 0x5aa53f75, 0x00000000, 0xc040b340, 9) == 0x7bd57a3a
    ensures StepG(0x5aa53f75, 0x7bd57a3a, 0x1c7d7513, 0xd6819c6a, 0x00000000, 0x265e5a51, 14) == 0xc095f13a
    ensures StepG(0xd6819c6a, 0xc095f13a, 0x7bd57a3a, 0x1c7d7513, 0x00000080, 0xe9b6c7aa, 20) == 0xbd782e17
  {
  }

  lemma Steps5()
    ensures StepG(0x1c7d7513, 0xbd782e17, 0xc095f13a, 0x7bd57a3a, 0x00000000, 0xd62f105d, 5) == 0x3d1e3e6c
    ensures StepG(0x7bd57a3a, 0x3d1e3e6c, 0xbd782e17, 0xc095f13a, 0x00000000, 0x02441453, 9) == 0x68b7b3e3
    ensures StepG(0xc095f13a, 0x68b7b3e3, 0x3d1e3e6c, 0xbd782e17, 0x00000000, 0xd8a1e681, 14) == 0xeb41643e
    ensures StepG(0xbd782e17, 0xeb41643e, 0x68b7b3e3, 0x3d1e3e6c, 0x00000000, 0xe7d3fbc8, 20) == 0xe422531a
  {
  }

  lemma Steps6()
    ensures StepG(0x3d1e3e6c, 0xe422531a, 0xeb41643e, 0x68b7b3e3, 0x00000000, 0x21e1cde6, 5) == 0x306ec122
    ensures StepG(0x68b7b3e3, 0x306ec122, 0xe422531a, 0xeb41643e, 0x00000000, 0xc33707d6, 9) == 0xd28c77c2
    ensures StepG(0xeb41643e, 0xd28c77c2, 0x306ec122, 0xe422531a, 0x00000000, 0xf4d50d87, 14) == 0xa3c663da
    ensures StepG(0xe422531a, 0xa3c663da, 0xd28c77c2, 0x306ec122, 0x00000000, 0x455a14ed, 20) == 0xa0572807
  {
  }

  lemma Steps7()
    ensures StepG(0x306ec122, 0xa0572807, 0xa3c663da, 0xd28c77c2, 0x00000000, 0xa9e3e905, 5) == 0x13707036
    ensures StepG(0xd28c77c2, 0x13707036, 0xa0572807, 0xa3c663da, 0x00000000, 0xfcefa3f8, 9) == 0xae7813db
    ensures StepG(0xa3c663da, 0xae7813db, 0x13707036, 0xa0572807, 0x00000000, 0x676f02d9, 14) == 0x1c31c384
    ensures StepG(0xa0572807, 0x1c31c384, 0xae7813db, 0x13707036, 0x00000000, 0x8d2a4c8a, 20) == 0xa2205f1f
  {
  }

  lemma Steps8()
    ensures StepH(0x13707036, 0xa2205f1f, 0x1c31c384, 0xae7813db, 0x00000000, 0xfffa3942, 4) == 0xdf63eaa1
    ensures StepH2(0xae7813db, 0xdf63eaa1, 0xa2205f1f, 0x1c31c384, 0x00000000, 0x8771f681, 11) == 0xc3689f5b
    ensures StepH(0x1c31c384, 0xc3689f5b, 0xdf63eaa1, 0xa2205f1f, 0x00000000, 0x6d9d6122, 16) == 0x12f3e755
    ensures StepH2(0xa2205f1f, 0x12f3e755, 0xc3689f5b, 0xdf63eaa1, 0x00000000, 0xfde5380c, 23) == 0x004b6669
  {
  }

  lemma Steps9()
    ensures StepH(0xdf63eaa1, 0x004b6669, 0x12f3e755, 0xc3689f5b, 0x00000000, 0xa4beea44, 4) == 0x5f7a9b2e
    ensures StepH2(0xc3689f5b, 0x5f7a9b2e, 0x004b6669, 0x12f3e755, 0x00000000, 0x4bdecfa9, 11) == 0xabc34e16
    ensures StepH(0x12f3e755, 0xabc34e16, 0x5f7a9b2e, 0x004b6669, 0x00000000, 0xf6bb4b60, 16) == 0x91ca4cb7
    ensures StepH2(0x004b6669, 0x91ca4cb7, 0xabc34e16, 0x5f7a9b2e, 0x00000000, 0xbebfbc70, 23) == 0xc5dc8c15
  {
  }

  lemma Steps10()
    ensures StepH(0x5f7a9b2e, 0xc5dc8c15, 0x91ca4cb7, 0xabc34e16, 0x00000000, 0x289b7ec6, 4) == 0x4497169d
    ensures StepH2(0xabc34e16, 0x4497169d, 0xc5dc8c15, 0x91ca4cb7, 0x00000080, 0xeaa127fa, 11) == 0x76fd93d4
    ensures StepH(0x91ca4cb7, 0x76fd93d4, 0x4497169d, 0xc5dc8c15, 0x00000000, 0xd4ef3085, 16) == 0xfd95f243
    ensures StepH2(0xc5dc8c15, 0xfd95f243, 0x76fd93d4, 0x4497169d, 0x00000000, 0x04881d05, 23) == 0x0fe32453
  {
  }

  lemma Steps11()
    ensures StepH(0x4497169d, 0x0fe32453, 0xfd95f243, 0x76fd93d4, 0x00000000, 0xd9d4d039, 4) == 0x3f55edfd
    ensures StepH2(0x76fd93d4, 0x3f55edfd, 0x0fe32453, 0xfd95f243, 0x00000000, 0xe6db99e5, 11) == 0x22a31f54
    ensures StepH(0xfd95f243, 0x22a31f54, 0x3f55edfd, 0x0fe32453, 0x00000000, 0x1fa27cf8, 16) == 0x68d84ea2
    ensures StepH2(0x0fe32453, 0x68d84ea2, 0x22a31f54, 0x3f55edfd, 0x00000000, 0xc4ac5665, 23) == 0xca7d2dbd
  {
  }

  lemma Steps12()
    ensures StepI(0x3f55edfd, 0xca7d2dbd, 0x68d84ea2, 0x22a31f54, 0x00000080, 0xf4292244, 6) == 0x93aa2577
    ensures StepI(0x22a31f54, 0x93aa2577, 0xca7d2dbd, 0x68d84ea2, 0x00000000, 0x432aff97, 10) == 0x1688dc85
    ensures StepI(0x68d84ea2, 0x1688dc85, 0x93aa2577, 0xca7d2dbd, 0x00000000, 0xab9423a7, 15) == 0xcd85b8cb
    ensures StepI(0xca7d2dbd, 0xcd85b8cb, 0x1688dc85, 0x93aa2577, 0x00000000, 0xfc93a039, 21) == 0x561e0689
  {
  }

  lemma Steps13()
    ensures StepI(0x93aa2577, 0x561e0689, 0xcd85b8cb, 0x1688dc85, 0x00000000, 0x655b59c3, 6) == 0x5625a114
    ensures StepI(0x1688dc85, 0x5625a114, 0x561e0689, 0xcd85b8cb, 0x00000000, 0x8f0ccc92, 10) == 0x3450f42b
    ensures StepI(0xcd85b8cb, 0x3450f42b, 0x5625a114, 0x561e0689, 0x00000000, 0xffeff47d, 15) == 0x392ad0d0
    ensures StepI(0x561e0689, 0x392ad0d0, 0x3450f42b, 0x5625a114, 0x00000000, 0x85845dd1, 21) == 0x1e77fa61
  {
  }

  lemma Steps14()
    ensures StepI(0x5625a114, 0x1e77fa61, 0x392ad0d0, 0x3450f42b, 0x00000000, 0x6fa87e4f, 6) == 0x474a9c8c
    ensures StepI(0x3450f42b, 0x474a9c8c, 0x1e77fa61, 0x392ad0d0, 0x00000000, 0xfe2ce6e0, 10) == 0xdfce00bc
    ensures StepI(0x392ad0d0, 0xdfce00bc, 0x474a9c8c, 0x1e77fa61, 0x00000000, 0xa3014314, 15) == 0x36594b14
    ensures StepI(0x1e77fa61, 0x36594b14, 0xdfce00bc, 0x474a9c8c, 0x00000000, 0x4e0811a1, 21) == 0x30130182
  {
  }

  lemma Steps15()
    ensures StepI(0x474a9c8c, 0x30130182, 0x36594b14, 0xdfce00bc, 0x00000000, 0xf7537e82, 6) == 0x7246fad3
    ensures StepI(0xdfce00bc, 0x7246fad3, 0x30130182, 0x36594b14, 0x00000000, 0xbd3af235, 10) == 0x6e10a476
    ensures StepI(0x36594b14, 0x6e10a476, 0x7246fad3, 0x30130182, 0x00000000, 0x2ad7d2bb, 15) == 0xff4ea3eb
    ensures StepI(0x30130182, 0xff4ea3eb, 0x6e10a476, 0x7246fad3, 0x00000000, 0xeb86d391, 21) == 0x14e45506
  {
  }

  lemma Round1Of(x: seq<word>)
    requires |x| == 16 && x == FirstWords() && Operations(INITIAL, x, 0) == State(0x67452301, 0xefcdab89, 0x98badcfe, 0x10325476)
    ensures Operations(INITIAL, x, 16) == State(0xf56c7cf1, 0xd6819c6a, 0x5aa53f75, 0x374943a7)
  {
    Row1();
    hide *;
    Steps0();
    Four1(INITIAL, x, 0, State(0x67452301, 0xefcdab89, 0x98badcfe, 0x10325476), 0xa5202774, 0x1b163203, 0xe7f06b23, 0xf59592dd);
    Steps1();
    Four1(INITIAL, x, 4, State(0xa5202774, 0x1b163203, 0xe7f06b23, 0xf59592dd), 0x32033344, 0x9bc13ce9, 0xf5b158db, 0x2f35d494);
    Steps2();
    Four1(INITIAL, x, 8, State(0x32033344, 0x9bc13ce9, 0xf5b158db, 0x2f35d494), 0x3893b991, 0x70768a29, 0xe1ef0576, 0xfce4a312);
    Steps3();
    Four1(INITIAL, x, 12, State(0x3893b991, 0x70768a29, 0xe1ef0576, 0xfce4a312), 0xf56c7cf1, 0xd6819c6a, 0x5aa53f75, 0x374943a7);
  }

  lemma Round2Of(x: seq<word>)
    requires |x| == 16 && x == FirstWords() && Operations(INITIAL, x, 16) == State(0xf56c7cf1, 0xd6819c6a, 0x5aa53f75, 0x374943a7)
    ensures Operations(INITIAL, x, 32) == State(0x13707036, 0xa2205f1f, 0x1c31c384, 0xae7813db)
  {
    Row2();
    hide *;
    Steps4();
    Four2(INITIAL, x, 16, State(0xf56c7cf1, 0xd6819c6a, 0x5aa53f75, 0x374943a7), 0x1c7d7513, 0xbd782e17, 0xc095f13a, 0x7bd57a3a);
    Steps5();
    Four2(INITIAL, x, 20, State(0x1c7d7513, 0xbd782e17, 0xc095f13a, 0x7bd57a3a), 0x3d1e3e6c, 0xe422531a, 0xeb41643e, 0x68b7b3e3);
    Steps6();
    Four2(INITIAL, x, 24, State(0x3d1e3e6c, 0xe422531a, 0xeb41643e, 0x68b7b3e3), 0x306ec122, 0xa0572807, 0xa3c663da, 0xd28c77c2);
    Steps7();
    Four2(INITIAL, x, 28, State(0x306ec122, 0xa0572807, 0xa3c663da, 0xd28c77c2), 0x13707036, 0xa2205f1f, 0x1c31c384, 0xae7813db);
  }

  lemma Round3Of(x: seq<word>)
    requires |x| == 16 && x == FirstWords() && Operations(INITIAL, x, 32) == State(0x13707036, 0xa2205f1f, 0x1c31c384, 0xae7813db)
    ensures Operations(INITIAL, x, 48) == State(0x3f55edfd, 0xca7d2dbd, 0x68d84ea2, 0x22a31f54)
  {
    Row3();
    hide *;
    Steps8();
    Four3(INITIAL, x, 32, State(0x13707036, 0xa2205f1f, 0x1c31c384, 0xae7813db), 0xdf63eaa1, 0x004b6669, 0x12f3e755, 0xc3689f5b);
    Steps9();
    Four3(INITIAL, x, 36, State(0xdf63eaa1, 0x004b6669, 0x12f3e755, 0xc3689f5b), 0x5f7a9b2e, 0xc5dc8c15, 0x91ca4cb7, 0xabc34e16);
    Steps10();
    Four3(INITIAL, x, 40, State(0x5f7a9b2e, 0xc5dc8c15, 0x91ca4cb7, 0xabc34e16), 0x4497169d, 0x0fe32453, 0xfd95f243, 0x76fd93d4);
    Steps11();
    Four3(INITIAL, x, 44, State(0x4497169d, 0x0fe32453, 0xfd95f243, 0x76fd93d4), 0x3f55edfd, 0xca7d2dbd, 0x68d84ea2, 0x22a31f54);
  }

  lemma Round4Of(x: seq<word>)
    requires |x| == 16 && x == FirstWords() && Operations(INITIAL, x, 48) == State(0x3f55edfd, 0xca7d2dbd, 0x68d84ea2, 0x22a31f54)
    ensures Operations(INITIAL, x, 64) == State(0x7246fad3, 0x14e45506, 0xff4ea3eb, 0x6e10a476)
  {
    Row4();
    hide *;
    Steps12();
    Four4(INITIAL, x, 48, State(0x3f55edfd, 0xca7d2dbd, 0x68d84ea2, 0x22a31f54), 0x93aa2577, 0x561e0689, 0xcd85b8cb, 0x1688dc85);
    Steps13();
    Four4(INITIAL, x, 52, State(0x93aa2577, 0x561e0689, 0xcd85b8cb, 0x1688dc85), 0x5625a114, 0x1e77fa61, 0x392ad0d0, 0x3450f42b);
    Steps14();
    Four4(INITIAL, x, 56, State(0x5625a114, 0x1e77fa61, 0x392ad0d0, 0x3450f42b), 0x474a9c8c, 0x30130182, 0x36594b14, 0xdfce00bc);
    Steps15();
    Four4(INITIAL, x, 60, State(0x474a9c8c, 0x30130182, 0x36594b14, 0xdfce00bc), 0x7246fad3, 0x14e45506, 0xff4ea3eb, 0x6e10a476);
  }

  lemma LastSum()
    ensures Sum(State(0x7246fad3, 0x14e45506, 0xff4ea3eb, 0x6e10a476), INITIAL) == State(0xd98c1dd4, 0x04b2008f, 0x980980e9, 0x7e42f8ec)
  {
  }

  lemma AnswerBytes()
    ensures Output(State(0xd98c1dd4, 0x04b2008f, 0x980980e9, 0x7e42f8ec)) == [0xd4, 0x1d, 0x8c, 0xd9, 0x8f, 0x00, 0xb2, 0x04, 0xe9, 0x80, 0x09, 0x98, 0xec, 0xf8, 0x42, 0x7e]
  {
  }

  lemma WordsAre()
    ensures Words(FirstBlock()) == FirstWords()
  {
    var b, x := FirstBlock(), FirstWords();
    hide Word;
    Word80();
    Word00();
    forall k | 0 <= k < 16 ensures Words(b)[k] == x[k] {
    }
  }

  lemma Word80()
    ensures Word(0x80, 0, 0, 0) == 0x80
  {
  }

  lemma Word00()
    ensures Word(0, 0, 0, 0) == 0
  {
  }

  lemma PaddedNothing()
    ensures [] + Padding(0) == FirstBlock()
  {
    NoBits();
    assert Filling(0) == 55;
    hide BitLength;
    assert Zeros(55) + Zeros(8) == Zeros(63);
    assert [0x80] + Zeros(55) + Zeros(8) == [0x80] + (Zeros(55) + Zeros(8));
  }

  lemma NoBits()
    ensures BitLength(0) == Zeros(8)
  {
    NoBytes();
    hide Low4;
    assert Zeros(4) + Zeros(4) == Zeros(8);
  }

  lemma NoBytes()
    ensures Low4(0) == Zeros(4)
  {
    ZeroByte();
    hide ByteOf;
  }

  lemma ZeroByte()
    ensures ByteOf(0) == 0
  {
  }

  /** The digest of the empty message. */
  lemma EmptyDigest()
    ensures Digest([]) == [0xd4, 0x1d, 0x8c, 0xd9, 0x8f, 0x00, 0xb2, 0x04, 0xe9, 0x80, 0x09, 0x98, 0xec, 0xf8, 0x42, 0x7e]
  {
    PaddedNothing();
    DigestIs([]);
    FoldBlock(INITIAL, FirstBlock());
    WordsAre();
    FirstCompressed();
    hide *;
    AnswerBytes();
  }

  lemma DigestIs(m: seq<byte>)
    ensures Digest(m) == Output(Fold(INITIAL, m + Padding(|m|)))
  {
    hide Padding, Output, Fold;
  }

  lemma FoldBlock(s: State, block: seq<byte>)
    requires |block| == 64
    ensures Fold(s, block) == Compressed(s, block)
  {
    hide Compressed;
    assert block[..0] == [] && block[0..] == block;
  }

  lemma FirstCompressed()
    ensures Compressed(INITIAL, FirstBlock()) == State(0xd98c1dd4, 0x04b2008f, 0x980980e9, 0x7e42f8ec)
  {
    WordsAre();
    var x := FirstWords();
    CompressedIs(INITIAL, FirstBlock(), x);
    Start(INITIAL, x);
    hide Operations, FirstWords, FirstBlock, Compressed;
    Round1Of(x);
    Round2Of(x);
    Round3Of(x);
    Round4Of(x);
    LastSum();
  }

  /** Section 3.3: the registers begin with these bytes. */
  lemma FirstRegisters()
    ensures Output(INITIAL) == [0x01, 0x23, 0x45, 0x67, 0x89, 0xab, 0xcd, 0xef, 0xfe, 0xdc, 0xba, 0x98, 0x76, 0x54, 0x32, 0x10]
  {
  }

  /** What is written out of a register is its word. */
  lemma BytesOfWord(w: word)
    ensures var b := WordBytes(w);
            Word(b[0], b[1], b[2], b[3]) == w
  {
  }

  lemma CompressedIs(s: State, block: seq<byte>, x: seq<word>)
    requires |block| == 64 && Words(block) == x
    ensures Compressed(s, block) == Sum(Operations(s, x, 64), s)
  {
    hide Operations, Words, Sum;
  }
}
