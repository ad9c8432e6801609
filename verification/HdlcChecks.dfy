/** src/ez_hdlc.c: what a packet that is taken has been checked for, and the constants of the
    frame. */
module HdlcChecks {
  import opened ByteSeqs
  import Crc
  import opened HdlcScan
  import opened HdlcCodec

  // ----- the escapes

  /** The two bytes that are escaped, and the pairs that stand for them. */
  lemma EscapedPairs(b: byte)
    ensures EscapeByte(b) == if b == 0x7D then [0x7D, 0x5D] else if b == 0xFE then [0x7D, 0xDE] else [b]
  {
  }

  /** The bytes that stand for a decoded byte. */
  function Sent(u: Unit): seq<byte> { if u.escaped then [0x7D, u.b ^ 0x20] else [u.b] }

  function SentAll(us: seq<Unit>): seq<byte> {
    if us == [] then [] else Sent(us[0]) + SentAll(us[1..])
  }

  /** No byte that is sent as itself is the escape byte, and none that follows it. */
  ghost predicate Proper(us: seq<Unit>) { forall u :: u in us ==> u.b != if u.escaped then 0x5D else 0x7D }

  /** What the decoder stops at: nothing, an escape byte at the end, or two in a row. */
  ghost predicate Fault(rest: seq<byte>, code: int) {
    if code == 0 then rest == [] else if code == -3 then rest == [0x7D] else code == -4 && [0x7D, 0x7D] <= rest
  }

  /** The decoder takes a text apart in the only way: into the bytes that its units stand
      for, and what it stops at. */
  lemma {:induction false} UnescapeExactly(us: seq<Unit>, rest: seq<byte>, code: int)
    requires Proper(us) && Fault(rest, code)
    ensures Unescape(SentAll(us) + rest) == (us, code)
    decreases |us|
  {
    if us == [] {
      assert SentAll(us) + rest == rest;
      StopsAt(rest, code);
    } else {
      var more := SentAll(us[1..]) + rest;
      assert SentAll(us) + rest == Sent(us[0]) + more;
      hide SentAll;
      assert us[0] in us && forall u :: u in us[1..] ==> u in us;
      UnescapeExactly(us[1..], rest, code);
      hide Proper, Fault;
      UnitFirst(us[0], more);
      assert us == [us[0]] + us[1..];
    }
  }

  lemma StopsAt(rest: seq<byte>, code: int)
    requires Fault(rest, code)
    ensures Unescape(rest) == ([], code)
  {
  }

  lemma UnitFirst(u: Unit, more: seq<byte>)
    requires u.b != if u.escaped then 0x5D else 0x7D
    ensures Unescape(Sent(u) + more) == ([u] + Unescape(more).0, Unescape(more).1)
  {
    var t := Sent(u) + more;
    UnescapeUnfold(t);
    PairIs(u.b);
    hide Unescape;
    if u.escaped { assert t[2..] == more; } else { assert t[1..] == more; }
  }

  lemma PairIs(b: byte)
    ensures (b ^ 0x20) ^ 0x20 == b && (b ^ 0x20 == 0x7D <==> b == 0x5D)
  {
  }

  /** Every text is of that kind. */
  lemma {:induction false} EveryTextIs(src: seq<byte>) returns (rest: seq<byte>)
    ensures var (us, code) := Unescape(src);
            Proper(us) && Fault(rest, code) && src == SentAll(us) + rest
    decreases |src|
  {
    if src == [] || (src[0] == ESC && (|src| == 1 || src[1] == ESC)) {
      rest := src;
      assert SentAll([]) + rest == src;
    } else {
      var n := if src[0] == ESC then 2 else 1;
      rest := EveryTextIs(src[n..]);
      UnescapeUnfold(src);
      hide Unescape, Fault, Proper;
      var (us, code) := Unescape(src[n..]);
      var u := if src[0] == ESC then Unit(src[1] ^ COMPLEMENT, true) else Unit(src[0], false);
      UnitOf(src, u);
      ProperMore(u, us);
      SentMore(u, us, rest);
      assert src == src[..n] + src[n..];
    }
  }

  lemma UnitOf(src: seq<byte>, u: Unit)
    requires src != [] && (src[0] == ESC ==> |src| > 1 && src[1] != ESC && u == Unit(src[1] ^ COMPLEMENT, true))
    requires src[0] != ESC ==> u == Unit(src[0], false)
    ensures Sent(u) == src[..if src[0] == ESC then 2 else 1] && u.b != if u.escaped then 0x5D else 0x7D
  {
    if src[0] == ESC {
      PairIs(src[1]);
      PairIs(u.b);
    }
  }

  lemma ProperMore(u: Unit, us: seq<Unit>)
    requires Proper(us) && u.b != if u.escaped then 0x5D else 0x7D
    ensures Proper([u] + us)
  {
  }

  lemma SentMore(u: Unit, us: seq<Unit>, rest: seq<byte>)
    ensures SentAll([u] + us) + rest == Sent(u) + (SentAll(us) + rest)
  {
    assert ([u] + us)[1..] == us;
  }

  // ----- check 0 means a right check byte

  /** Different bytes have different entries, and 0 has 0. */
  ghost predicate Distinct(table: seq<byte>) {
    && |table| == 256 && table[0] == 0
    && forall a: byte, b: byte :: table[Crc.Place(a)] == table[Crc.Place(b)] ==> a == b
  }

  lemma Bit8Distinct(a: byte, b: byte)
    requires Crc.Bit8(a) == Crc.Bit8(b)
    ensures a == b
  {
  }

  lemma Byte8Distinct(a: byte, b: byte)
    requires Crc.Byte8(a) == Crc.Byte8(b)
    ensures a == b
  {
    var a1, b1 := Crc.Bit8(a), Crc.Bit8(b);
    var a2, b2 := Crc.Bit8(a1), Crc.Bit8(b1);
    var a3, b3 := Crc.Bit8(a2), Crc.Bit8(b2);
    var a4, b4 := Crc.Bit8(a3), Crc.Bit8(b3);
    var a5, b5 := Crc.Bit8(a4), Crc.Bit8(b4);
    var a6, b6 := Crc.Bit8(a5), Crc.Bit8(b5);
    var a7, b7 := Crc.Bit8(a6), Crc.Bit8(b6);
    hide Crc.Bit8;
    Bit8Distinct(a7, b7);
    Bit8Distinct(a6, b6);
    Bit8Distinct(a5, b5);
    Bit8Distinct(a4, b4);
    Bit8Distinct(a3, b3);
    Bit8Distinct(a2, b2);
    Bit8Distinct(a1, b1);
    Bit8Distinct(a, b);
  }

  /** The library's table is such a table. */
  lemma Crc8TableDistinct()
    ensures Distinct(Crc.Crc8Table())
  {
    Crc8Entries();
    hide Crc.Crc8Table, Crc.Table8, Crc.Byte8;
    forall a: byte, b: byte | Crc.Crc8Table()[Crc.Place(a)] == Crc.Crc8Table()[Crc.Place(b)] ensures a == b {
      Crc.Crc8TableAt(a);
      Crc.Crc8TableAt(b);
      Crc.Table8Divides(a);
      Crc.Table8Divides(b);
      Byte8Distinct(a, b);
    }
  }

  lemma SameSum(a: byte, b: byte, c: byte)
    ensures a ^ c == b ^ c ==> a == b
    ensures c ^ a == c ^ b ==> a == b
    ensures a ^ b == 0 <==> a == b
  {
  }

  /** The check after one more byte. */
  function Next(table: seq<byte>, c: byte, b: byte): byte
    requires |table| == 256
  {
    table[Crc.Place(c ^ b)]
  }

  lemma Crc8Last(table: seq<byte>, init: byte, d: seq<byte>)
    requires |table| == 256 && d != []
    ensures Crc8(table, init, d) == Next(table, Crc8(table, init, d[..|d| - 1]), d[|d| - 1])
  {
  }

  lemma NextDiffers(table: seq<byte>, a: byte, b: byte, c: byte)
    requires Distinct(table) && a != b
    ensures Next(table, a, c) != Next(table, b, c) && Next(table, c, a) != Next(table, c, b)
  {
    SameSum(a, b, c);
    hide Crc.Place;
  }

  lemma NextZero(table: seq<byte>, c: byte, b: byte)
    requires Distinct(table)
    ensures Next(table, c, b) == 0 <==> b == c
  {
    SameSum(c, b, 0);
    assert Crc.Place(0) == 0;
    hide Crc.Place;
  }

  /** Check 0 is the last byte being the check of those before it. */
  lemma ZeroCheck(table: seq<byte>, init: byte, d: seq<byte>)
    requires Distinct(table) && d != []
    ensures Crc8(table, init, d) == 0 <==> d[|d| - 1] == Crc8(table, init, d[..|d| - 1])
  {
    Crc8Last(table, init, d);
    NextZero(table, Crc8(table, init, d[..|d| - 1]), d[|d| - 1]);
    hide Crc8, Next;
  }

  /** Data of equal length that differs in one byte has different checks. */
  lemma {:induction false} ChangedCheck(table: seq<byte>, init: byte, d: seq<byte>, e: seq<byte>, i: nat)
    requires Distinct(table) && |d| == |e| && i < |d| && d[i] != e[i]
    requires forall k :: 0 <= k < |d| && k != i ==> d[k] == e[k]
    ensures Crc8(table, init, d) != Crc8(table, init, e)
  {
    var n := |d| - 1;
    var a, b := Crc8(table, init, d[..n]), Crc8(table, init, e[..n]);
    Crc8Last(table, init, d);
    Crc8Last(table, init, e);
    hide Crc8, Next;
    if i == n {
      assert d[..n] == e[..n];
      NextDiffers(table, d[n], e[n], a);
    } else {
      ChangedCheck(table, init, d[..n], e[..n], i);
      NextDiffers(table, a, b, d[n]);
    }
  }

  // ----- the example in the source

  /** The example that src/ez_hdlc.c gives for the CRC-8 with the seed of the packets. */
  const EXAMPLE: seq<byte> := [0x01, 0x6E, 0x65, 0x00, 0x01, 0x01, 0x20, 0x9D, 0x6B, 0xBF, 0x52, 0x55, 0xC5, 0x0C, 0xC2]

  lemma ExampleBytes()
    ensures |EXAMPLE| == 15
    ensures EXAMPLE[0] == 0x01 && EXAMPLE[1] == 0x6E && EXAMPLE[2] == 0x65 && EXAMPLE[3] == 0x00 && EXAMPLE[4] == 0x01
    ensures EXAMPLE[5] == 0x01 && EXAMPLE[6] == 0x20 && EXAMPLE[7] == 0x9D && EXAMPLE[8] == 0x6B && EXAMPLE[9] == 0xBF
    ensures EXAMPLE[10] == 0x52 && EXAMPLE[11] == 0x55 && EXAMPLE[12] == 0xC5 && EXAMPLE[13] == 0x0C && EXAMPLE[14] == 0xC2
  {
  }

  lemma FirstEntries()
    ensures Crc.Byte8(0x33 ^ 0x01) == 0x02
    ensures Crc.Byte8(0x02 ^ 0x6E) == 0xC6
    ensures Crc.Byte8(0xC6 ^ 0x65) == 0x4D
    ensures Crc.Byte8(0x4D ^ 0x00) == 0xBB
    ensures Crc.Byte8(0xBB ^ 0x01) == 0x4C
    ensures Crc.Byte8(0x4C ^ 0x01) == 0xBB
    ensures Crc.Byte8(0xBB ^ 0x20) == 0x31
    ensures Crc.Byte8(0x31 ^ 0x9D) == 0x0C
  {
  }

  lemma LastEntries()
    ensures Crc.Byte8(0x0C ^ 0x6B) == 0xE6
    ensures Crc.Byte8(0xE6 ^ 0xBF) == 0x47
    ensures Crc.Byte8(0x47 ^ 0x52) == 0xA2
    ensures Crc.Byte8(0xA2 ^ 0x55) == 0xF7
    ensures Crc.Byte8(0xF7 ^ 0xC5) == 0x02
    ensures Crc.Byte8(0x02 ^ 0x0C) == 0x1F
    ensures Crc.Byte8(0x1F ^ 0xC2) == 0xAA
  {
  }

  lemma Follow(msg: seq<byte>, i: nat, was: byte, b: byte)
    requires i < |msg| && msg[i] == b && Crc.Divide8(SEED, msg[..i]) == was
    ensures Crc.Divide8(SEED, msg[..i + 1]) == Crc.Byte8(was ^ b)
  {
    hide Crc.Byte8;
    assert msg[..i + 1][..i] == msg[..i];
  }

  lemma Nothing(msg: seq<byte>)
    ensures Crc.Divide8(SEED, msg[..0]) == 0x33
  {
  }

  lemma ExampleFollowed()
    ensures Crc.Divide8(SEED, EXAMPLE[..15]) == 0xAA
  {
    hide *;
    ExampleBytes();
    FirstEntries();
    LastEntries();
    Nothing(EXAMPLE);
    Follow(EXAMPLE, 0, 0x33, 0x01);
    Follow(EXAMPLE, 1, 0x02, 0x6E);
    Follow(EXAMPLE, 2, 0xC6, 0x65);
    Follow(EXAMPLE, 3, 0x4D, 0x00);
    Follow(EXAMPLE, 4, 0xBB, 0x01);
    Follow(EXAMPLE, 5, 0x4C, 0x01);
    Follow(EXAMPLE, 6, 0xBB, 0x20);
    Follow(EXAMPLE, 7, 0x31, 0x9D);
    Follow(EXAMPLE, 8, 0x0C, 0x6B);
    Follow(EXAMPLE, 9, 0xE6, 0xBF);
    Follow(EXAMPLE, 10, 0x47, 0x52);
    Follow(EXAMPLE, 11, 0xA2, 0x55);
    Follow(EXAMPLE, 12, 0xF7, 0xC5);
    Follow(EXAMPLE, 13, 0x02, 0x0C);
    Follow(EXAMPLE, 14, 0x1F, 0xC2);
  }

  /** Its check byte is 0xAA, and with that byte the check is 0. */
  lemma ExampleCheck()
    ensures Crc8(Crc.Crc8Table(), SEED, EXAMPLE) == 0xAA && Crc8(Crc.Crc8Table(), SEED, EXAMPLE + [0xAA]) == 0
  {
    ExampleFollowed();
    ExampleBytes();
    assert EXAMPLE[..15] == EXAMPLE;
    Crc8Divides(SEED, EXAMPLE);
    Crc8TableDistinct();
    hide *;
    ZeroCheck(Crc.Crc8Table(), SEED, EXAMPLE + [0xAA]);
    assert (EXAMPLE + [0xAA])[..|EXAMPLE|] == EXAMPLE;
  }

  // ----- what a success means

  /** Unescaping finds no fault, and what it gives fits with a byte to spare. */
  ghost predicate Decodes(packet: seq<byte>, room: nat) {
    |packet| > HEAD && packet[0] == FLAG && Unescape(packet[HEAD..]).1 == 0 && |Decoded(packet)| < room
  }

  /** How many of the decoded bytes are no data. */
  function Extra(mode: Mode): nat { if mode == Verify then 1 else if mode == VerifyModbus then 2 else 0 }

  /** A packet longer than its head is taken with r bytes of data exactly when it begins with
      the flag, decodes with room to spare and, with one check byte, ends with the check byte
      of its data.  Two check bytes are taken off unseen. */
  lemma TakenExactly(table: seq<byte>, packet: seq<byte>, room: nat, mode: Mode, r: nat)
    requires Distinct(table) && |packet| > HEAD
    ensures GetResult(table, packet, room, mode) == r <==>
            && Decodes(packet, room) && |Decoded(packet)| == r + Extra(mode)
            && (mode == Verify ==> Decoded(packet)[r] == Crc8(table, SEED, Decoded(packet)[..r]))
  {
    var d := Decoded(packet);
    if d != [] {
      ZeroCheck(table, SEED, d);
    }
    SomeDecoded(packet[HEAD..]);
    hide Unescape, Crc8;
  }

  lemma SomeDecoded(s: seq<byte>)
    ensures s != [] && Unescape(s).1 == 0 ==> Unescape(s).0 != []
    ensures Unescape(s).1 <= 0
  {
  }

  /** A wrong check byte is refused with -3. */
  lemma WrongCheckRefused(table: seq<byte>, packet: seq<byte>, room: nat)
    requires Distinct(table) && Decodes(packet, room)
    ensures var d := Decoded(packet);
            && d != []
            && (GetResult(table, packet, room, Verify) == -3 <==> d[|d| - 1] != Crc8(table, SEED, d[..|d| - 1]))
  {
    var d := Decoded(packet);
    SomeDecoded(packet[HEAD..]);
    ZeroCheck(table, SEED, d);
    hide Unescape, Crc8;
  }

  /** A packet whose decoded bytes differ in one place from those of a packet that is taken is
      refused with -3. */
  lemma ChangedByteRefused(table: seq<byte>, p: seq<byte>, q: seq<byte>, room: nat, i: nat)
    requires Distinct(table) && Decodes(p, room) && Decodes(q, room) && GetResult(table, p, room, Verify) >= 0
    requires |Decoded(p)| == |Decoded(q)| && i < |Decoded(p)| && Decoded(p)[i] != Decoded(q)[i]
    requires forall k :: 0 <= k < |Decoded(p)| && k != i ==> Decoded(p)[k] == Decoded(q)[k]
    ensures GetResult(table, q, room, Verify) == -3
  {
    ChangedCheck(table, SEED, Decoded(p), Decoded(q), i);
    SomeDecoded(q[HEAD..]);
    hide Unescape, Crc8;
  }

  /** What is wrong with a packet, by its result. */
  lemma Refusals(table: seq<byte>, packet: seq<byte>, room: nat, mode: Mode)
    requires Distinct(table)
    ensures var r := GetResult(table, packet, room, mode);
            && (|packet| <= HEAD ==> r == 0)
            && (|packet| > HEAD && packet[0] != FLAG ==> r == -2)
            && (|packet| > HEAD && packet[0] == FLAG && DecodeResult(packet[HEAD..], room) < 0 ==> r == DecodeResult(packet[HEAD..], room))
  {
    hide Unescape, Crc8;
  }

  /** A length is reported exactly when it stays below the flag. */
  lemma BelowFlag(src: seq<byte>, mode: Mode)
    ensures var n: int := Total(src, mode);
            src != [] ==> PacketLength(src, mode) == if n < 0xFE then n else -n
  {
  }

  // ----- the two check bytes of a Modbus packet

  /** They are in the order in which the division of data and check leaves nothing. */
  lemma ModbusResidue(src: seq<byte>)
    ensures |Check(Crc.Crc8Table(), src, VerifyModbus)| == 2
    ensures Crc.Divide16(0xFFFF, src + Check(Crc.Crc8Table(), src, VerifyModbus)) == 0
  {
    var c := Crc.Divide16(0xFFFF, src);
    CheckBytes(c);
    var low, high := LowByte(c), HighByte(c);
    CheckIs(src, c);
    assert src + [low, high] == (src + [low]) + [high];
    OneMore(0xFFFF, src, low);
    OneMore(0xFFFF, src + [low], high);
    hide *;
    LowFirst(c);
  }

  lemma OneMore(c: bv16, msg: seq<byte>, b: byte)
    ensures Crc.Divide16(c, msg + [b]) == Crc.Byte16(Crc.Enter16(Crc.Divide16(c, msg), b))
  {
    hide Crc.Byte16, Crc.Enter16;
    assert (msg + [b])[..|msg|] == msg;
  }

  lemma CheckIs(src: seq<byte>, c: bv16)
    requires c == Crc.Divide16(0xFFFF, src)
    ensures Check(Crc.Crc8Table(), src, VerifyModbus) == [LowByte(c), HighByte(c)]
  {
    CheckBytes(c);
    hide Crc.Divide16, Crc.Swap, LowByte, HighByte, Crc.Crc8Table;
  }

  lemma CheckBytes(c: bv16)
    ensures HighByte(Crc.Swap(c)) == LowByte(c) && LowByte(Crc.Swap(c)) == HighByte(c)
  {
  }

  lemma LowFirst(c: bv16)
    ensures Crc.Byte16(Crc.Enter16(Crc.Byte16(Crc.Enter16(c, LowByte(c))), HighByte(c))) == 0
  {
  }

  // ----- the largest piece

  /** With 253 bytes in a call a packet can get lost: the buffer holds 254 bytes and no more
      than 252 beside them. */
  lemma LargestPiece()
    ensures var first, second := [FLAG, 0xFF] + Zeros(252), Zeros(253);
            && PacketAt(first + second, 0) && Scan(first + second, 0).0 != []
            && Calls([], [first, second]) == ([], [])
  {
    var first, second := [FLAG, 0xFF] + Zeros(252), Zeros(253);
    Stuck(first);
    CallTwice(first, second);
    Whole(first, second);
  }

  lemma Stuck(first: seq<byte>)
    requires first == [FLAG, 0xFF] + Zeros(252)
    ensures |first| == 254 && Call([], first) == ([], first)
  {
    assert Look(first, 0) == Wait;
    assert [] + first == first && first[0..] == first;
  }

  lemma CallTwice(first: seq<byte>, second: seq<byte>)
    requires Call([], first) == ([], first) && first != [] && second != [] && |first| + |second| > ROOM
    ensures Calls([], [first, second]) == ([], [])
  {
    assert [first, second][1..] == [second] && [second][1..] == [];
    hide Scan, Kept;
    assert Call(first, second) == ([], []);
    var one := [second];
    assert one[0] == second && one[1..] == [];
    assert Calls([], one[1..]) == ([], []);
    var none: seq<seq<byte>> := [];
    assert none + none == none;
    assert Calls(first, one) == ([], []);
  }

  lemma Whole(first: seq<byte>, second: seq<byte>)
    requires first == [FLAG, 0xFF] + Zeros(252) && second == Zeros(253)
    ensures PacketAt(first + second, 0) && Scan(first + second, 0).0 != []
  {
    var s := first + second;
    assert s[0] == FLAG && s[1] == 0xFF;
    assert forall j :: 0 < j < 255 ==> s[j] != FLAG;
    Arrives(s);
  }

  lemma Arrives(s: seq<byte>)
    requires |s| >= 255 && PacketAt(s, 0)
    ensures Scan(s, 0).0 != []
  {
    var e := Scan(s, 0).1;
    ScanFindsPackets(s, 0);
    LittleIsKept(s, 0);
    hide Scan, PacketAt, Packet;
    PacketsConcat(s, 0, 1, e);
    assert Packets(s, 0, 1) == [Packet(s, 0)] + Packets(s, 1, 1);
  }
}
