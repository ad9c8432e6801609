/** src/ez_hdlc.c: escaping, check bytes and packets. */
module HdlcCodec {
  import opened ByteSeqs
  import Crc
  import Radix
  import opened HdlcScan

  const ESC: byte := 0x7D
  const COMPLEMENT: byte := 0x20
  const HEAD: nat := 2
  const LONGEST: nat := 0xFD

  datatype Mode = Verify | VerifyModbus | NoCheck

  predicate Special(b: byte) { b == ESC || b == FLAG }

  function EscapeByte(b: byte): seq<byte> { if Special(b) then [ESC, b ^ COMPLEMENT] else [b] }

  /** The transparent form of data: no flag, and every escape byte begins a pair. */
  function Escape(src: seq<byte>): seq<byte> {
    if src == [] then [] else EscapeByte(src[0]) + Escape(src[1..])
  }

  /** A decoded byte, and whether it came from a pair. */
  datatype Unit = Unit(b: byte, escaped: bool)

  /** The bytes decoded before the first fault, and the fault: 0 for none, -3 for an
      escape byte at the end, -4 for two in a row. */
  function Unescape(src: seq<byte>): (r: (seq<Unit>, int)) {
    if src == [] then ([], 0)
    else if src[0] != ESC then
      var (u, code) := Unescape(src[1..]); ([Unit(src[0], false)] + u, code)
    else if |src| == 1 then ([], -3)
    else if src[1] == ESC then ([], -4)
    else
      var (u, code) := Unescape(src[2..]); ([Unit(src[1] ^ COMPLEMENT, true)] + u, code)
  }

  function Bytes(u: seq<Unit>): (s: seq<byte>)
    ensures |s| == |u| && forall i {:trigger s[i]} :: 0 <= i < |u| ==> s[i] == u[i].b
  {
    seq(|u|, i requires 0 <= i < |u| => u[i].b)
  }

  // ----- what escaping keeps

  lemma {:induction false} EscapeConcat(s: seq<byte>, t: seq<byte>)
    ensures Escape(s + t) == Escape(s) + Escape(t)
  {
    hide *;
    if s == [] {
      NothingEscaped();
      assert s + t == t;
    } else {
      EscapeStep(s);
      EscapeStep(s + t);
      EscapeConcat(s[1..], t);
      FirstAndRest(s, t);
      Regrouped(EscapeByte(s[0]), Escape(s[1..]), Escape(t));
    }
  }

  lemma NothingEscaped()
    ensures Escape([]) == []
  {
  }

  lemma FirstAndRest(s: seq<byte>, t: seq<byte>)
    requires s != []
    ensures (s + t)[0] == s[0] && (s + t)[1..] == s[1..] + t
  {
  }

  lemma Regrouped(a: seq<byte>, b: seq<byte>, c: seq<byte>)
    ensures a + (b + c) == (a + b) + c
  {
  }

  lemma EscapeStep(s: seq<byte>)
    requires s != []
    ensures Escape(s) == EscapeByte(s[0]) + Escape(s[1..])
  {
    hide EscapeByte;
  }

  lemma {:induction false} EscapeGrows(src: seq<byte>)
    ensures |src| <= |Escape(src)| <= 2 * |src|
  {
    if src != [] { EscapeGrows(src[1..]); }
  }

  lemma {:induction false} EscapeHidesFlag(src: seq<byte>)
    ensures FLAG !in Escape(src)
  {
    if src != [] {
      EscapeHidesFlag(src[1..]);
      NotFlag(src[0]);
      hide EscapeByte;
      assert FLAG !in EscapeByte(src[0]) + Escape(src[1..]);
    }
  }

  lemma NotFlag(b: byte)
    ensures FLAG !in EscapeByte(b)
  {
    assert ESC ^ COMPLEMENT != FLAG && FLAG ^ COMPLEMENT != FLAG;
  }

  lemma ComplementTwice(b: byte)
    ensures (b ^ COMPLEMENT) ^ COMPLEMENT == b && (Special(b) ==> b ^ COMPLEMENT != ESC)
  {
  }

  /** Decoding undoes escaping, whatever follows the escaped data. */
  lemma {:induction false} UnescapeEscape(src: seq<byte>, rest: seq<byte>)
    ensures var (u, code) := Unescape(Escape(src) + rest);
            Bytes(u) == src + Bytes(Unescape(rest).0) && code == Unescape(rest).1
    decreases |src|
  {
    hide *;
    if src == [] {
      EscapeNothing(rest);
      assert src + Bytes(Unescape(rest).0) == Bytes(Unescape(rest).0);
    } else {
      var more := Escape(src[1..]) + rest;
      EscapeFirst(src, rest);
      UnescapeEscape(src[1..], rest);
      UnescapeFirst(src[0], more);
      assert src == [src[0]] + src[1..];
      assert [src[0]] + (src[1..] + Bytes(Unescape(rest).0)) == ([src[0]] + src[1..]) + Bytes(Unescape(rest).0);
    }
  }

  lemma EscapeNothing(rest: seq<byte>)
    ensures Escape([]) == [] && Escape([]) + rest == rest
  {
  }

  lemma EscapeFirst(src: seq<byte>, rest: seq<byte>)
    requires src != []
    ensures Escape(src) + rest == EscapeByte(src[0]) + (Escape(src[1..]) + rest)
  {
    hide EscapeByte;
    assert (EscapeByte(src[0]) + Escape(src[1..])) + rest == EscapeByte(src[0]) + (Escape(src[1..]) + rest);
  }

  lemma UnescapeFirst(b: byte, more: seq<byte>)
    ensures var (u, code) := Unescape(EscapeByte(b) + more);
            Bytes(u) == [b] + Bytes(Unescape(more).0) && code == Unescape(more).1
  {
    ComplementTwice(b);
    var e := EscapeByte(b) + more;
    if Special(b) { assert e[2..] == more; } else { assert e[1..] == more; }
  }

  // ----- the codec loops

  /** The code for a destination that fills up at byte k of the source. */
  ghost predicate FillsAt(src: seq<byte>, room: int, k: nat, code: int) {
    && k < |src| && |Escape(src[..k])| < room <= |Escape(src[..k + 1])|
    && code == if !Special(src[k]) then -5 else if |Escape(src[..k])| + 1 == room then -3 else -4
  }

  ghost predicate FillsUp(src: seq<byte>, room: int, code: int) { exists k: nat :: FillsAt(src, room, k, code) }

  lemma EscapeMore(src: seq<byte>, k: nat)
    requires k < |src|
    ensures Escape(src[..k + 1]) == Escape(src[..k]) + EscapeByte(src[k])
  {
    assert src[..k + 1] == src[..k] + [src[k]];
    EscapeConcat(src[..k], [src[k]]);
    assert Escape([src[k]]) == EscapeByte(src[k]) + Escape([src[k]][1..]);
  }

  lemma EscapePrefix(src: seq<byte>, k: nat)
    requires k <= |src|
    ensures |Escape(src[..k])| <= |Escape(src)|
  {
    EscapeConcat(src[..k], src[k..]);
    assert src[..k] + src[k..] == src;
  }

  /** The code when so much room is left for a byte. */
  function PutCode(b: byte, room: int): int {
    if |EscapeByte(b)| < room then 0 else if !Special(b) then -5 else if room == 1 then -3 else -4
  }

  /** One byte of the encoder's loop; `end` is where the destination is full. */
  method PutEscaped(dest: array<byte>, at: nat, end: nat, b: byte) returns (pos: nat, code: int)
    requires at < end <= dest.Length
    modifies dest
    ensures code == PutCode(b, end - at)
    ensures code == 0 ==> pos == at + |EscapeByte(b)| && dest[..] == Written(old(dest[..]), at, EscapeByte(b))
  {
    pos := at;
    if Special(b) {
      dest[pos] := ESC;
      pos := pos + 1;
      if pos >= end { return pos, -3; }
      dest[pos] := b ^ COMPLEMENT;
      pos := pos + 1;
      if pos >= end { return pos, -4; }
    } else {
      dest[pos] := b;
      pos := pos + 1;
      if pos >= end { return pos, -5; }
    }
    return pos, 0;
  }

  /** ez_hdlc_encode into the lenDest bytes of `dest` from `at` on.  It needs one byte
      more than it writes. */
  method EncodeInto(dest: array<byte>, at: nat, lenDest: int, src: seq<byte>) returns (ret: int)
    requires at + lenDest <= dest.Length
    modifies dest
    ensures ret >= 0 <==> src == [] || |Escape(src)| < lenDest
    ensures ret >= 0 ==> ret == |Escape(src)|
    ensures ret == 0 ==> dest[..] == old(dest[..])
    ensures ret > 0 ==> at + ret < dest.Length && dest[..] == Written(old(dest[..]), at, Escape(src))
    ensures ret < 0 ==> if |src| > lenDest then ret == -1 else FillsUp(src, lenDest, ret)
  {
    if |src| == 0 {
      return 0;
    }
    EscapeGrows(src);
    if |src| > lenDest {
      return -1;
    }
    ghost var was := dest[..];
    var pos, code := EncodeLoop(dest, at, lenDest, src, was);
    if code != 0 {
      FillingFails(src, lenDest, code);
      return code;
    }
    EncodedAll(was, dest[..], at, src, pos);
    return pos;
  }

  /** The loop of ez_hdlc_encode. */
  method EncodeLoop(dest: array<byte>, at: nat, room: nat, src: seq<byte>, ghost was: seq<byte>) returns (pos: nat, code: int)
    requires at + room <= dest.Length && 0 < |src| <= room && was == dest[..]
    modifies dest
    ensures code == 0 ==> pos < room && Encoded(was, dest[..], at, src, |src|, pos)
    ensures code != 0 ==> |Escape(src)| >= room && FillsUp(src, room, code)
  {
    EscapeNone(src, was, at);
    hide Escape, EscapeByte, Written, Special, PutCode, FillsUp, Encoded;
    var ii := 0;
    pos, code := 0, 0;
    while ii < |src|
      invariant 0 <= ii <= |src| && 0 <= pos < room && Encoded(was, dest[..], at, src, ii, pos)
    {
      ghost var a := dest[..];
      var next;
      next, code := PutEscaped(dest, at + pos, at + room, src[ii]);
      EncodedMore(was, a, dest[..], at, src, ii, pos, room, code);
      if code != 0 {
        return pos, code;
      }
      pos := next - at;
      ii := ii + 1;
    }
    return pos, 0;
  }

  /** The first k bytes of the source are encoded, up to pos. */
  ghost predicate Encoded(was: seq<byte>, a: seq<byte>, at: nat, src: seq<byte>, k: nat, pos: nat) {
    && k <= |src| && pos == |Escape(src[..k])| <= |Escape(src)|
    && at + pos <= |was| && a == Written(was, at, Escape(src[..k]))
  }

  lemma FillingFails(src: seq<byte>, room: int, code: int)
    requires FillsUp(src, room, code)
    ensures code < 0
  {
    var k: nat :| FillsAt(src, room, k, code);
  }

  lemma EncodedMore(was: seq<byte>, a: seq<byte>, b: seq<byte>, at: nat, src: seq<byte>, k: nat, pos: nat, room: int, code: int)
    requires k < |src| && pos < room && at + room <= |was| == |a| && Encoded(was, a, at, src, k, pos)
    requires code == PutCode(src[k], room - pos)
    requires code == 0 ==> b == Written(a, at + pos, EscapeByte(src[k]))
    ensures code != 0 ==> |Escape(src)| >= room && FillsUp(src, room, code)
    ensures code == 0 ==> Encoded(was, b, at, src, k + 1, pos + |EscapeByte(src[k])|)
  {
    EscapeMore(src, k);
    EscapePrefix(src, k + 1);
    hide Escape, EscapeByte, Written, Special, FillsUp;
    if code != 0 {
      FillsNow(src, room, k, code);
    } else {
      WrittenTwice(was, at, Escape(src[..k]), EscapeByte(src[k]));
    }
  }

  lemma EncodedAll(was: seq<byte>, a: seq<byte>, at: nat, src: seq<byte>, pos: nat)
    requires Encoded(was, a, at, src, |src|, pos)
    ensures pos == |Escape(src)| && at + pos <= |was| && a == Written(was, at, Escape(src))
  {
    assert src[..|src|] == src;
    hide Escape, Written;
  }

  lemma FillsNow(src: seq<byte>, room: int, k: nat, code: int)
    requires k < |src| && |Escape(src[..k])| < room <= |Escape(src[..k])| + |EscapeByte(src[k])|
    requires code == if !Special(src[k]) then -5 else if |Escape(src[..k])| + 1 == room then -3 else -4
    ensures FillsUp(src, room, code)
  {
    EscapeMore(src, k);
    hide Escape, EscapeByte, Special;
    assert FillsAt(src, room, k, code);
  }

  lemma EscapeNone(src: seq<byte>, a: seq<byte>, at: nat)
    requires at <= |a|
    ensures Escape(src[..0]) == [] && Written(a, at, []) == a
  {
  }

  /** What the decoder returns for a destination of `room` bytes.  It needs one byte
      more than it writes. */
  function DecodeResult(src: seq<byte>, room: nat): int {
    var (u, code) := Unescape(src);
    if src == [] then 0
    else if room == 0 then -1
    else if |u| >= room then if u[room - 1].escaped then -5 else -6
    else if code != 0 then code
    else |u|
  }

  /** What is decoded so far, and what is left to decode. */
  ghost predicate Left(src: seq<byte>, done: seq<Unit>, i: nat)
    requires i <= |src|
  {
    Unescape(src) == (done + Unescape(src[i..]).0, Unescape(src[i..]).1)
  }

  lemma UnescapeStep(src: seq<byte>, done: seq<Unit>, i: nat)
    requires i < |src| && Left(src, done, i)
    ensures src[i] != ESC ==> Left(src, done + [Unit(src[i], false)], i + 1)
    ensures src[i] == ESC && i + 1 == |src| ==> Unescape(src) == (done, -3)
    ensures src[i] == ESC && i + 1 < |src| && src[i + 1] == ESC ==> Unescape(src) == (done, -4)
    ensures src[i] == ESC && i + 1 < |src| && src[i + 1] != ESC ==>
              Left(src, done + [Unit(src[i + 1] ^ COMPLEMENT, true)], i + 2)
  {
    var t := src[i..];
    UnescapeUnfold(t);
    hide Unescape;
    if src[i] != ESC {
      assert t[1..] == src[i + 1..];
      UnitsJoin(done, Unit(src[i], false), Unescape(src[i + 1..]).0);
    } else if i + 1 < |src| && src[i + 1] != ESC {
      assert t[2..] == src[i + 2..];
      UnitsJoin(done, Unit(src[i + 1] ^ COMPLEMENT, true), Unescape(src[i + 2..]).0);
    } else {
      assert done + [] == done;
    }
  }

  lemma AllLeft(src: seq<byte>)
    ensures Left(src, [], 0)
  {
    hide Unescape;
    assert src[0..] == src && [] + Unescape(src).0 == Unescape(src).0;
  }

  lemma NoneLeft(src: seq<byte>, done: seq<Unit>, room: nat)
    requires Left(src, done, |src|) && src != [] && |done| < room
    ensures Unescape(src).0 == done && DecodeResult(src, room) == |done|
  {
    UnescapeEnd();
    hide Unescape;
    assert src[|src|..] == [] && done + [] == done;
  }

  lemma NoMoreRoom(src: seq<byte>, done: seq<Unit>, u: Unit, i: nat, room: nat)
    requires i <= |src| && Left(src, done + [u], i) && src != [] && |done| + 1 == room
    ensures DecodeResult(src, room) == if u.escaped then -5 else -6
  {
    hide Unescape;
    assert (done + [u] + Unescape(src[i..]).0)[room - 1] == u;
  }

  lemma UnitsJoin(done: seq<Unit>, u: Unit, more: seq<Unit>)
    ensures done + ([u] + more) == done + [u] + more
  {
  }

  lemma UnescapeUnfold(t: seq<byte>)
    requires t != []
    ensures t[0] != ESC ==> Unescape(t) == ([Unit(t[0], false)] + Unescape(t[1..]).0, Unescape(t[1..]).1)
    ensures t[0] == ESC && |t| == 1 ==> Unescape(t) == ([], -3)
    ensures t[0] == ESC && |t| > 1 && t[1] == ESC ==> Unescape(t) == ([], -4)
    ensures t[0] == ESC && |t| > 1 && t[1] != ESC ==>
              Unescape(t) == ([Unit(t[1] ^ COMPLEMENT, true)] + Unescape(t[2..]).0, Unescape(t[2..]).1)
  {
  }

  /** ez_hdlc_decode */
  method DecodeInto(dest: array<byte>, src: seq<byte>) returns (ret: int)
    modifies dest
    ensures ret == DecodeResult(src, dest.Length)
    ensures ret >= 0 ==> ret < dest.Length || ret == 0
    ensures ret >= 0 ==> dest[..ret] == Bytes(Unescape(src).0)
  {
    UnescapeEnd();
    AllLeft(src);
    if |src| == 0 {
      return 0;
    }
    if dest.Length == 0 {
      return -1;
    }
    hide Unescape, Left;
    var pos, ii := 0, 0;
    ghost var done: seq<Unit> := [];
    while ii < |src|
      invariant 0 <= ii <= |src| && pos == |done| < dest.Length && dest[..pos] == Bytes(done)
      invariant Left(src, done, ii)
    {
      UnescapeStep(src, done, ii);
      var escaped := src[ii] == ESC;
      if escaped {
        ii := ii + 1;
        if ii >= |src| {
          return -3;
        }
        if src[ii] == ESC {
          return -4;
        }
      }
      var b := if escaped then src[ii] ^ COMPLEMENT else src[ii];
      dest[pos] := b;
      pos := pos + 1;
      if pos >= dest.Length {
        NoMoreRoom(src, done, Unit(b, escaped), ii + 1, pos);
        return if escaped then -5 else -6;
      }
      done := done + [Unit(b, escaped)];
      ii := ii + 1;
    }
    NoneLeft(src, done, dest.Length);
    return pos;
  }

  lemma UnescapeEnd()
    ensures Unescape([]) == ([], 0)
  {
  }

  // ----- check bytes

  /** ez_crc8 as a function: a fold through a table. */
  function Crc8(table: seq<byte>, init: byte, data: seq<byte>): byte
    requires |table| == 256
  {
    if data == [] then init else table[Crc.Place(Crc8(table, init, data[..|data| - 1]) ^ data[|data| - 1])]
  }

  method Crc8Of(table: seq<byte>, init: byte, data: array<byte>, len: nat) returns (crc: byte)
    requires |table| == 256 && len <= data.Length
    ensures crc == Crc8(table, init, data[..len])
  {
    crc := init;
    var i := 0;
    while i < len
      invariant 0 <= i <= len && crc == Crc8(table, init, data[..i])
    {
      assert data[..i + 1][..i] == data[..i];
      crc := crc ^ data[i];
      crc := table[Crc.Place(crc)];
      i := i + 1;
    }
  }

  /** Data followed by its own check byte has check 0 when the table begins with 0. */
  lemma Crc8Residue(table: seq<byte>, init: byte, data: seq<byte>)
    requires |table| == 256 && table[0] == 0
    ensures Crc8(table, init, data + [Crc8(table, init, data)]) == 0
  {
    var c := Crc8(table, init, data);
    assert (data + [c])[..|data|] == data;
    assert c ^ c == 0 && Crc.Place(0) == 0;
  }

  function HighByte(c: bv16): byte { ((c >> 8) & 0xFF) as byte }

  function LowByte(c: bv16): byte { (c & 0xFF) as byte }

  const SEED: byte := 0x33

  /** The check bytes of data; they go into a packet as they are. */
  function Check(table: seq<byte>, src: seq<byte>, mode: Mode): (s: seq<byte>)
    requires |table| == 256
    ensures |s| == CheckLength(mode)
  {
    match mode
    case Verify => [Crc8(table, SEED, src)]
    case VerifyModbus =>
      var c := Crc.Swap(Crc.Divide16(0xFFFF, src));
      [HighByte(c), LowByte(c)]
    case NoCheck => []
  }

  function CheckLength(mode: Mode): nat {
    match mode
    case Verify => 1
    case VerifyModbus => 2
    case NoCheck => 0
  }

  // ----- packets

  function Total(src: seq<byte>, mode: Mode): nat { HEAD + |Escape(src)| + CheckLength(mode) }

  /** The packet of some data. */
  function PacketOf(table: seq<byte>, src: seq<byte>, mode: Mode): seq<byte>
    requires |table| == 256 && Total(src, mode) < 256
  {
    [FLAG, Total(src, mode) as byte] + (Escape(src) + Check(table, src, mode))
  }

  /** What ez_hdlc_get_dst_buf_len returns. */
  function PacketLength(src: seq<byte>, mode: Mode): int {
    var total: int := Total(src, mode);
    if src == [] then 0 else if total > LONGEST then -total else total
  }

  /** ez_hdlc_get_dst_buf_len */
  method GetDstBufLen(src: seq<byte>, mode: Mode) returns (n: int)
    ensures n == PacketLength(src, mode)
  {
    hide Escape;
    if |src| == 0 {
      return 0;
    }
    n := 0;
    assert Escape(src[..0]) == [] by { EscapeNone(src, src, 0); }
    for ii := 0 to |src|
      invariant n == |Escape(src[..ii])|
    {
      EscapeMore(src, ii);
      if src[ii] == FLAG || src[ii] == ESC {
        n := n + 2;
      } else {
        n := n + 1;
      }
    }
    assert src[..|src|] == src;
    match mode {
      case Verify => n := n + 1;
      case VerifyModbus => n := n + 2;
      case NoCheck =>
    }
    if n + HEAD > LONGEST {
      return -1 * (n + HEAD);
    }
    return n + HEAD;
  }

  /** When a destination of `len` bytes takes the escaped data. */
  predicate Encodes(src: seq<byte>, len: nat) { src == [] || |Escape(src)| < len - HEAD }

  /** When the check bytes then still find room. */
  predicate CheckFits(src: seq<byte>, mode: Mode, len: nat) {
    match mode
    case Verify => |Escape(src)| < len - HEAD
    case VerifyModbus => |Escape(src)| + 2 <= len - HEAD
    case NoCheck => true
  }

  lemma WrittenHead(a: seq<byte>, h: seq<byte>, x: seq<byte>)
    requires |h| + |x| <= |a|
    ensures Written(Written(a, |h|, x), 0, h) == Written(a, 0, h + x)
  {
  }

  /** The check bytes behind the data. */
  method PutCheck(dest: array<byte>, at: nat, src: seq<byte>, mode: Mode, table: seq<byte>)
    requires |table| == 256 && at + CheckLength(mode) <= dest.Length
    modifies dest
    ensures dest[..] == Written(old(dest[..]), at, Check(table, src, mode))
  {
    match mode {
      case Verify =>
        var data := new byte[|src|];
        forall i | 0 <= i < |src| { data[i] := src[i]; }
        assert data[..|src|] == src;
        dest[at] := Crc8Of(table, SEED, data, |src|);
      case VerifyModbus =>
        var c := Crc.ModbusCrc16(src);
        dest[at] := HighByte(c);
        dest[at + 1] := LowByte(c);
      case NoCheck =>
    }
  }

  /** ez_hdlc_make_packet: the packet of the data, or the first thing that is amiss. */
  method MakePacket(dest: array<byte>, src: seq<byte>, mode: Mode, table: seq<byte>) returns (ret: int)
    requires |table| == 256 && (src == [] && mode == NoCheck ==> dest.Length >= HEAD)
    modifies dest
    ensures ret > 0 <==> Encodes(src, dest.Length) && CheckFits(src, mode, dest.Length) && Total(src, mode) < FLAG as nat
    ensures ret > 0 ==> ret == Total(src, mode) <= dest.Length && dest[..] == Written(old(dest[..]), 0, PacketOf(table, src, mode))
    ensures ret <= 0 && Encodes(src, dest.Length) ==> ret == if CheckFits(src, mode, dest.Length) then -3 else -2
    ensures !Encodes(src, dest.Length) ==>
              if |src| > dest.Length - HEAD then ret == -1 else FillsUp(src, dest.Length - HEAD, ret)
  {
    hide Escape, Check, Written, FillsUp;
    ghost var was := dest[..];
    if dest.Length < HEAD && |src| > 0 { EscapeGrows(src); }
    ret := EncodeInto(dest, HEAD, dest.Length - HEAD, src);
    if ret < 0 {
      return ret;
    }
    if mode == Verify && ret >= dest.Length - HEAD {
      return -2;
    }
    if mode == VerifyModbus && ret + 2 > dest.Length - HEAD {
      return -2;
    }
    PutCheck(dest, HEAD + ret, src, mode, table);
    ret := ret + CheckLength(mode) + HEAD;
    if ret >= FLAG as nat {
      return -3;
    }
    ghost var body := Escape(src) + Check(table, src, mode);
    PutTwo(dest, FLAG, ret as byte);
    BodyWritten(was, Escape(src), Check(table, src, mode));
    WrittenHead(was, [FLAG, ret as byte], body);
  }

  method PutTwo(dest: array<byte>, a: byte, b: byte)
    requires dest.Length >= 2
    modifies dest
    ensures dest[..] == Written(old(dest[..]), 0, [a, b])
  {
    dest[0] := a;
    dest[1] := b;
  }

  lemma BodyWritten(a: seq<byte>, x: seq<byte>, y: seq<byte>)
    requires HEAD + |x| + |y| <= |a|
    ensures Written(Written(a, HEAD, x), HEAD + |x|, y) == Written(a, HEAD, x + y)
    ensures x == [] ==> Written(a, HEAD, x) == a
  {
  }

  /** What the decoder leaves in the destination. */
  function Decoded(packet: seq<byte>): seq<byte>
    requires |packet| >= HEAD
  {
    Bytes(Unescape(packet[HEAD..]).0)
  }

  /** What ez_hdlc_get_data returns.  Only the one-byte check is looked at. */
  function GetResult(table: seq<byte>, packet: seq<byte>, room: nat, mode: Mode): int
    requires |table| == 256
  {
    if |packet| <= HEAD then 0
    else if packet[0] != FLAG then -2
    else
      var n := DecodeResult(packet[HEAD..], room);
      if n < 0 then n
      else
        match mode
        case Verify => if Crc8(table, SEED, Decoded(packet)) != 0 then -3 else n - 1
        case VerifyModbus => n - 2
        case NoCheck => n
  }

  /** ez_hdlc_get_data */
  method GetData(dest: array<byte>, packet: seq<byte>, mode: Mode, table: seq<byte>) returns (ret: int)
    requires |table| == 256
    modifies dest
    ensures ret == GetResult(table, packet, dest.Length, mode)
    ensures |packet| > HEAD && packet[0] == FLAG && DecodeResult(packet[HEAD..], dest.Length) >= 0 ==>
              |Decoded(packet)| <= dest.Length && dest[..|Decoded(packet)|] == Decoded(packet)
  {
    hide Unescape, Crc8;
    if |packet| <= HEAD {
      return 0;
    }
    if packet[0] != FLAG {
      return -2;
    }
    ret := DecodeInto(dest, packet[HEAD..]);
    if ret < 0 {
      return ret;
    }
    assert dest[..ret] == Decoded(packet);
    match mode {
      case Verify =>
        var crc := Crc8Of(table, SEED, dest, ret);
        if crc != 0 {
          return -3;
        }
        ret := ret - 1;
      case VerifyModbus =>
        ret := ret - 2;
      case NoCheck =>
    }
  }

  // ----- round trips

  /** The data comes back: as many bytes as there were, and the same. */
  predicate Returns(table: seq<byte>, packet: seq<byte>, room: nat, mode: Mode, src: seq<byte>)
    requires |table| == 256 && |packet| >= HEAD
  {
    GetResult(table, packet, room, mode) == |src| && src <= Decoded(packet)
  }

  lemma {:induction false} PlainStays(s: seq<byte>)
    requires ESC !in s
    ensures Unescape(s).1 == 0 && Bytes(Unescape(s).0) == s
  {
    if s != [] {
      assert s[0] in s && ESC !in s[1..];
      PlainStays(s[1..]);
      UnescapeFirst(s[0], s[1..]);
      UnescapeUnfold(s);
    }
  }

  lemma EscapedCheck(check: seq<byte>)
    requires ESC in check && 1 <= |check| <= 2
    ensures var (u, code) := Unescape(check);
            code != 0 || (|check| == 2 && |u| == 1)
  {
    if check[0] == ESC {
      if |check| == 2 && check[1] != ESC { assert check[2..] == [] && Unescape(check[2..]) == ([], 0); }
    } else {
      var t := check[1..];
      assert t[0] == ESC && |t| == 1;
    }
  }

  lemma DecodedPacket(table: seq<byte>, src: seq<byte>, mode: Mode)
    requires |table| == 256 && Total(src, mode) < 256
    ensures var p := PacketOf(table, src, mode);
            var check := Check(table, src, mode);
            && |p| == Total(src, mode) && p[0] == FLAG && p[HEAD..] == Escape(src) + check
            && Decoded(p) == src + Bytes(Unescape(check).0) && Unescape(p[HEAD..]).1 == Unescape(check).1
  {
    hide Unescape, Escape, Check, Bytes;
    UnescapeEscape(src, Check(table, src, mode));
  }

  /** Taking the data out of its packet gives it back exactly when no check byte
      happens to be the escape byte. */
  lemma PacketRoundTrip(table: seq<byte>, src: seq<byte>, mode: Mode, room: nat)
    requires |table| == 256 && table[0] == 0 && src != [] && Total(src, mode) < 256
    requires room > |src| + CheckLength(mode)
    ensures Returns(table, PacketOf(table, src, mode), room, mode, src) <==> ESC !in Check(table, src, mode)
  {
    var p, check := PacketOf(table, src, mode), Check(table, src, mode);
    DecodedPacket(table, src, mode);
    hide Escape, Unescape, Check, PacketOf, Crc8;
    EscapeGrows(src);
    if ESC !in check {
      PlainStays(check);
      CheckPasses(table, src, mode);
    } else {
      EscapedCheck(check);
      UnescapeShorter(check);
    }
  }

  lemma CheckPasses(table: seq<byte>, src: seq<byte>, mode: Mode)
    requires |table| == 256 && table[0] == 0
    ensures mode == Verify ==> Crc8(table, SEED, src + Check(table, src, mode)) == 0
  {
    Crc8Residue(table, SEED, src);
  }

  lemma {:induction false} UnescapeShorter(s: seq<byte>)
    ensures |Unescape(s).0| <= |s|
    decreases |s|
  {
    if |s| > 0 { UnescapeShorter(s[1..]); }
    if |s| > 1 { UnescapeShorter(s[2..]); }
  }

  /** One byte of data whose check byte is c. */
  lemma OneByteCheck(table: seq<byte>, d: byte, c: byte)
    requires |table| == 256 && table[Crc.Place(SEED ^ d)] == c
    ensures Check(table, [d], Verify) == [c]
  {
    var s := [d];
    assert s[..|s| - 1] == [] && Crc8(table, SEED, []) == SEED;
    assert Crc8(table, SEED, s) == table[Crc.Place(SEED ^ d)];
  }

  /** With the library's table ez_crc8 is division bit by bit. */
  lemma {:induction false} Crc8Divides(init: byte, data: seq<byte>)
    ensures Crc8(Crc.Crc8Table(), init, data) == Crc.Divide8(init, data)
  {
    hide Crc.Crc8Table, Crc.Table8, Crc.Byte8, Crc.Place;
    if data != [] {
      var n := |data| - 1;
      Crc8Divides(init, data[..n]);
      var b := Crc.Divide8(init, data[..n]) ^ data[n];
      Crc.Crc8TableAt(b);
      Crc.Table8Divides(b);
    }
  }

  lemma Crc8Entries()
    ensures var t := Crc.Crc8Table();
            |t| == 256 && t[0] == 0 && t[0x21] == 0x7D && t[0x26] == 0xFE
  {
    Crc.Crc8TableAt(0);
    Crc.Crc8TableAt(0x21);
    Crc.Crc8TableAt(0x26);
    hide Crc.Crc8Table;
  }

  /** The byte 0x12 has the check byte 0x7D, and does not come back out of its packet. */
  lemma LostByte(room: nat)
    requires room > 2
    ensures Total([0x12], Verify) < 256
    ensures !Returns(Crc.Crc8Table(), PacketOf(Crc.Crc8Table(), [0x12], Verify), room, Verify, [0x12])
  {
    Crc8Entries();
    OneByteCheck(Crc.Crc8Table(), 0x12, 0x7D);
    EscapeGrows([0x12]);
    hide Check, Escape, Returns, PacketOf, Crc.Crc8Table;
    PacketRoundTrip(Crc.Crc8Table(), [0x12], Verify, room);
  }

  /** The byte 0x15 has the check byte 0xFE, and the receiver does not recognise its
      packet. */
  lemma UnrecognisedByte()
    ensures Total([0x15], Verify) < 256
    ensures !PacketAt(PacketOf(Crc.Crc8Table(), [0x15], Verify), 0)
  {
    Crc8Entries();
    OneByteCheck(Crc.Crc8Table(), 0x15, 0xFE);
    EscapeGrows([0x15]);
    hide Check, Escape, PacketAt, PacketOf, Crc.Crc8Table;
    var p, none: seq<byte> := PacketOf(Crc.Crc8Table(), [0x15], Verify), [];
    PacketRecognised(Crc.Crc8Table(), [0x15], Verify, none, none);
    assert none + p + none == p && FLAG in Check(Crc.Crc8Table(), [0x15], Verify);
  }

  /** A packet that can be made is one that the receiver's scan recognises, exactly
      when no check byte happens to be the flag. */
  lemma PacketRecognised(table: seq<byte>, src: seq<byte>, mode: Mode, before: seq<byte>, after: seq<byte>)
    requires |table| == 256 && src != [] && Total(src, mode) < FLAG as nat
    ensures var p := PacketOf(table, src, mode);
            var s := before + p + after;
            && (PacketAt(s, |before|) <==> FLAG !in Check(table, src, mode))
            && (PacketAt(s, |before|) ==> Packet(s, |before|) == p)
  {
    hide Escape, Check, CheckLength, PacketAt, Packet;
    Radix.AsByte(Total(src, mode));
    EscapeGrows(src);
    EscapeHidesFlag(src);
    Embedded(before, Total(src, mode) as byte, Escape(src) + Check(table, src, mode), after);
  }

  /** A flag, the length and more in the middle of a stream are a packet exactly when no
      other byte is the flag. */
  lemma Embedded(before: seq<byte>, n: byte, body: seq<byte>, after: seq<byte>)
    requires n as nat == 2 + |body| < FLAG as nat && body != []
    ensures var p, s := [FLAG, n] + body, before + ([FLAG, n] + body) + after;
            && (PacketAt(s, |before|) <==> FLAG !in body)
            && (PacketAt(s, |before|) ==> Packet(s, |before|) == p)
  {
    var p, k := [FLAG, n] + body, |before|;
    var s := before + p + after;
    Framed(before, p, after);
    assert s[k] == p[0] && s[k + 1] == p[1];
    if FLAG in body {
      var j :| 0 <= j < |body| && body[j] == FLAG;
      assert s[k + (2 + j)] == p[2 + j] == FLAG;
    } else {
      forall j | k < j < k + |p| ensures s[j] != FLAG {
        assert s[k + (j - k)] == p[j - k];
        assert j - k > 1 ==> p[j - k] == body[j - k - 2];
      }
    }
  }

  lemma Framed(before: seq<byte>, p: seq<byte>, after: seq<byte>)
    ensures var s, k := before + p + after, |before|;
            s[k..k + |p|] == p && forall j :: 0 <= j < |p| ==> s[k + j] == p[j]
  {
  }

  /** With an idle receiver such a packet of at least four bytes is delivered whole and
      at once, and nothing is kept. */
  lemma PacketDelivered(table: seq<byte>, src: seq<byte>, mode: Mode)
    requires |table| == 256 && src != [] && 4 <= Total(src, mode) < FLAG as nat && FLAG !in Check(table, src, mode)
    ensures Call([], PacketOf(table, src, mode)) == ([PacketOf(table, src, mode)], [])
  {
    var p := PacketOf(table, src, mode);
    PacketRecognised(table, src, mode, [], []);
    assert [] + p + [] == p;
    hide Escape, Check, PacketOf;
    WholePacket(p);
  }

  lemma WholePacket(p: seq<byte>)
    requires PacketAt(p, 0) && Packet(p, 0) == p && |p| >= 4 && |p| <= ROOM
    ensures Call([], p) == ([p], [])
  {
    assert |p| == p[1] as nat;
    NextFlagUnique(p, 1, |p|, |p|);
    assert Look(p, 0) == Deliver(|p|);
    ScanEnd(p);
    ScanOnce(p);
    var held: seq<byte> := [];
    assert held + p == p;
  }

  lemma ScanOnce(p: seq<byte>)
    requires Look(p, 0) == Deliver(|p|) && Scan(p, |p|) == ([], |p|)
    ensures Scan(p, 0) == ([p], |p|) && Kept(p) == []
  {
    hide Look;
    assert Slice(p, 0, |p|) == p;
    assert [Slice(p, 0, |p|)] + [] == [p];
  }

  lemma ScanEnd(p: seq<byte>)
    ensures Look(p, |p|) == Wait && Scan(p, |p|) == ([], |p|)
  {
  }

  /** A positive length is exactly what the packet takes, and that much room is enough
      with check bytes; without them one byte more is needed. */
  lemma LengthSuffices(src: seq<byte>, mode: Mode, len: nat)
    requires src != []
    ensures Encodes(src, len) && CheckFits(src, mode, len) && Total(src, mode) < FLAG as nat
        <==> PacketLength(src, mode) > 0 && len >= PacketLength(src, mode) + if mode == NoCheck then 1 else 0
    ensures PacketLength(src, mode) > 0 ==> PacketLength(src, mode) == Total(src, mode)
  {
    hide Escape;
    EscapeGrows(src);
  }

  /** One plain byte without check bytes: three bytes are reported, and the packet cannot
      be made in three, but in four. */
  lemma ShortByOne()
    ensures PacketLength([0x01], NoCheck) == 3
    ensures !Encodes([0x01], 3) && Encodes([0x01], 4)
  {
    assert Escape([0x01]) == [0x01] by {
      var s: seq<byte> := [0x01];
      assert s[..|s| - 1] == [] && s[1..] == [];
    }
  }
}
