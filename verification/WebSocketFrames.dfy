/** tutorial_libezutil/ut-ez_websocket_parser.c: the frame printer, and the proof
    that the parser undoes it (RFC 6455, section 5.2). */
module WebSocketFrames {
  import opened ByteSeqs
  import Radix
  import opened WebSocketSpec
  import opened WebSocket

  datatype Mask = NoMask | DefaultKey | Key(bytes: seq<byte>)

  datatype Frame = Frame(fin: bool, opcode: byte, mask: Mask, payload: seq<byte>)

  /** Frames that the printer can be asked for and the parser accepts. */
  ghost predicate Sendable(f: Frame) {
    ValidOpcode(f.opcode) && |f.payload| < MAX_LEN && (f.mask.Key? ==> |f.mask.bytes| == 4)
  }

  function KeyBytes(m: Mask): seq<byte> {
    match m
    case NoMask => []
    case DefaultKey => [0x37, 0xFA, 0x21, 0x3D]
    case Key(bytes) => bytes
  }

  function MaskBit(m: Mask): byte { if m == NoMask then 0 else 0x80 }

  /** Byte i of n of a length, most significant first. */
  function LengthPart(len: nat, n: nat, i: nat): byte
    requires 1 <= i <= n
  {
    ((len / Weight(n, i)) % 256) as byte
  }

  function LengthParts(len: nat, n: nat, i: nat): (s: seq<byte>)
    requires 1 <= i <= n + 1
    ensures |s| == n + 1 - i
    decreases n + 1 - i
  {
    if i > n then [] else [LengthPart(len, n, i)] + LengthParts(len, n, i + 1)
  }

  function LengthField(m: Mask, len: nat): seq<byte> {
    if len < 126 then [MaskBit(m) | (len as byte)]
    else if len < 65536 then [MaskBit(m) | 126] + LengthParts(len, 2, 1)
    else [MaskBit(m) | 127] + LengthParts(len, 8, 1)
  }

  function Body(f: Frame): (s: seq<byte>)
    requires f.mask.Key? ==> |f.mask.bytes| == 4
    ensures |s| == |f.payload|
    ensures forall i {:trigger s[i]} :: 0 <= i < |s| ==>
              s[i] == if f.mask == NoMask then f.payload[i] else f.payload[i] ^ KeyBytes(f.mask)[i % 4]
  {
    seq(|f.payload|, i requires 0 <= i < |f.payload| =>
      if f.mask == NoMask then f.payload[i] else f.payload[i] ^ KeyBytes(f.mask)[i % 4])
  }

  function FirstByte(f: Frame): byte { (if f.fin then 0x80 else 0) | (f.opcode & 0x0F) }

  /** The bytes of a frame on the wire. */
  function Wire(f: Frame): seq<byte>
    requires f.mask.Key? ==> |f.mask.bytes| == 4
  {
    [FirstByte(f)] + LengthField(f.mask, |f.payload|) + KeyBytes(f.mask) + Body(f)
  }

  /** What the callbacks are to see of a frame. */
  function EventsOf(f: Frame): seq<Event> {
    [Begin(f.fin, f.opcode)] + DataEvents(f.payload) + [Done(f.fin, f.opcode, f.mask != NoMask, f.opcode == CLOSE)]
  }

  /** The digits of a length to base 256, the highest first. */
  lemma {:induction false} LengthDigit(len: nat, n: nat, i: nat, k: nat)
    requires 1 <= i <= k <= n
    ensures LengthParts(len, n, i)[k - i] as nat == len / Radix.Pow(256, n - k) % 256
    decreases k - i
  {
    if i == k {
      WeightIs(n, k);
      hide Weight, Radix.Pow;
      Radix.AsByte(len / Radix.Pow(256, n - k) % 256);
    } else {
      LengthDigit(len, n, i + 1, k);
    }
  }

  lemma {:induction false} WeightIs(n: nat, i: nat)
    requires i <= n
    ensures Weight(n, i) == Radix.Pow(256, n - i)
    decreases n - i
  {
    if i < n {
      WeightIs(n, i + 1);
    }
  }

  /** The length in one byte, in two or in eight. */
  lemma LengthBytes(m: Mask, len: nat)
    requires len < MAX_LEN
    ensures var (s, top: byte) := (LengthField(m, len), if m == NoMask then 0 else 0x80);
            && s != [] && (len < 126 ==> s == [top | len as byte])
            && (126 <= len < 65536 ==> s[0] == top | 126 && |s| == 3 && forall k :: 1 <= k <= 2 ==> s[k] as nat == len / Radix.Pow(256, 2 - k) % 256)
            && (65536 <= len ==> s[0] == top | 127 && |s| == 9 && forall k :: 1 <= k <= 8 ==> s[k] as nat == len / Radix.Pow(256, 8 - k) % 256)
  {
    hide LengthParts, Radix.Pow;
    if 126 <= len < 65536 {
      forall k | 1 <= k <= 2 ensures LengthField(m, len)[k] as nat == len / Radix.Pow(256, 2 - k) % 256 {
        LengthDigit(len, 2, 1, k);
      }
    } else if 65536 <= len {
      forall k | 1 <= k <= 8 ensures LengthField(m, len)[k] as nat == len / Radix.Pow(256, 8 - k) % 256 {
        LengthDigit(len, 8, 1, k);
      }
    }
  }

  predicate AtStart(c: Core) { c.state == FrameStart && !Stopped(c) }

  // ----- the header

  lemma OpcodeByte(f: Frame)
    requires ValidOpcode(f.opcode)
    ensures (FirstByte(f) & 0x80 != 0) == f.fin && FirstByte(f) & 0x0F == f.opcode
  {
  }

  /** A sender leaves the reserved bits clear, and the parser does not look at them. */
  lemma ReservedBits(f: Frame, c: Core, b: byte)
    requires Valid(c) && !Stopped(c) && c.state == FrameStart
    ensures FirstByte(f) & 0x70 == 0
    ensures Step(c, b) == Step(c, b & 0x8F)
  {
    ReservedClear(f);
    NotLookedAt(b);
    hide TopBit, FirstByte;
  }

  lemma ReservedClear(f: Frame)
    ensures FirstByte(f) & 0x70 == 0
  {
  }

  lemma NotLookedAt(b: byte)
    ensures TopBit(b & 0x8F) == TopBit(b) && (b & 0x8F) & 0x0F == b & 0x0F
  {
  }

  /** Exactly the opcodes of RFC 6455 section 5.2 that have a meaning are accepted; the byte
      of another one is not consumed. */
  lemma OpcodesAccepted(c: Core, b: byte)
    requires Valid(c) && !Stopped(c) && c.state == FrameStart
    ensures var op := b & 0x0F;
            if op == 0 || op == 1 || op == 2 || op == 8 || op == 9 || op == 10
            then Feed(c, [b]).core.errno == Ok && Feed(c, [b]).consumed == 1 && Feed(c, [b]).events == [Begin(TopBit(b), op)]
            else Feed(c, [b]).core.errno == InvalidOpcode && Feed(c, [b]).consumed == 0 && Feed(c, [b]).events == []
  {
    OpcodeValues(b & 0x0F);
    hide TopBit, ValidOpcode;
    var s := [b];
    assert s[1..] == [];
    FeedStopped(Step(c, b).0, []);
  }

  lemma OpcodeValues(op: byte)
    requires op < 16
    ensures ValidOpcode(op) <==> op == 0 || op == 1 || op == 2 || op == 8 || op == 9 || op == 10
  {
  }

  lemma SevenBits(m: Mask, x: byte)
    requires x < 0x80
    ensures ((MaskBit(m) | x) & 0x80 != 0) == (m != NoMask) && (MaskBit(m) | x) & 0x7F == x
  {
  }

  lemma HighBitClear(x: byte)
    requires x as nat < 126
    ensures x < 0x80
  {
  }

  lemma PartValue(len: nat, n: nat, i: nat)
    requires 1 <= i <= n
    ensures LengthPart(len, n, i) as nat == (len / Weight(n, i)) % 256
  {
    var part := (len / Weight(n, i)) % 256;
    Radix.AsByte(part);
  }

  /** Where the length stands after its bytes 1..i have come in. */
  function Upper(len: nat, n: nat, i: nat): int
    requires i <= n
  {
    (len / Weight(n, i)) * Weight(n, i)
  }

  lemma UpperStep(len: nat, n: nat, i: nat)
    requires 1 <= i <= n
    ensures Upper(len, n, i) == Upper(len, n, i - 1) + (LengthPart(len, n, i) as nat) * Weight(n, i)
  {
    var w := Weight(n, i);
    var q := len / w;
    PartValue(len, n, i);
    Radix.DivDiv(len, w, 256);
    Radix.DivMod(q, 256);
    Radix.Distribute((q / 256) * 256, q % 256, w);
    Radix.Associate(q / 256, 256, w);
  }

  lemma UpperEnds(len: nat, n: nat)
    requires len < Weight(n, 0)
    ensures Upper(len, n, 0) == 0 && Upper(len, n, n) == len
  {
    Radix.DivModUnique(0, len, Weight(n, 0));
  }

  /** What follows the length does not depend on the state that read it. */
  lemma AfterLengthState(c: Core, state: State)
    ensures AfterLength(c.(state := state)) == AfterLength(c)
  {
  }

  lemma LengthStep16(c: Core, f: Frame, i: nat)
    requires Sendable(f) && Valid(c) && !Stopped(c) && c.state == PayloadLen16(i) && |f.payload| < 65536
    requires c.payloadLen as int == Upper(|f.payload|, 2, i - 1)
    ensures 1 <= i <= 2 && Upper(|f.payload|, 2, i) >= 0
    ensures var r := Step(c, LengthPart(|f.payload|, 2, i));
            && r == (if i < 2 then (c.(payloadLen := Upper(|f.payload|, 2, i), state := PayloadLen16(i + 1)), [])
                     else AfterLength(c.(payloadLen := |f.payload|, received := 0)))
            && Valid(r.0) && r.0.errno == Ok
  {
    UpperStep(|f.payload|, 2, i);
    Weights();
    UpperEnds(|f.payload|, 2);
    StepKeepsValid(c, LengthPart(|f.payload|, 2, i));
    hide Valid, Weight, Upper;
  }

  /** The length bytes i.. of a 16-bit length, up to the state that follows them. */
  lemma {:induction false} FeedLength16(c: Core, f: Frame, i: nat, rest: seq<byte>)
    requires Sendable(f) && Valid(c) && !Stopped(c) && c.state == PayloadLen16(i) && |f.payload| < 65536
    requires c.payloadLen as int == Upper(|f.payload|, 2, i - 1)
    ensures 1 <= i <= 2
    ensures var (d, ev) := AfterLength(c.(payloadLen := |f.payload|, received := 0));
            Valid(d) && Feed(c, LengthParts(|f.payload|, 2, i) + rest) == Then(Out(d, 3 - i, ev), Feed(d, rest))
    decreases 3 - i
  {
    hide Step, Feed, Valid, AfterLength, Upper, Weight, LengthPart, Sendable;
    LengthStep16(c, f, i);
    var b := LengthPart(|f.payload|, 2, i);
    var (c', ev) := Step(c, b);
    var more := LengthParts(|f.payload|, 2, i + 1) + rest;
    assert LengthParts(|f.payload|, 2, i) + rest == [b] + more;
    FeedOne(c, b, more, c', ev);
    if i < 2 {
      FeedLength16(c', f, i + 1, rest);
      var (d, ev') := AfterLength(c.(payloadLen := |f.payload|, received := 0));
      assert c'.(payloadLen := |f.payload|, received := 0).(state := c.state) == c.(payloadLen := |f.payload|, received := 0);
      AfterLengthState(c.(payloadLen := |f.payload|, received := 0), c'.state);
      assert [] + (ev' + Feed(d, rest).events) == ev' + Feed(d, rest).events;
    } else {
      assert more == rest;
    }
  }

  lemma LengthStep64(c: Core, f: Frame, i: nat)
    requires Sendable(f) && Valid(c) && !Stopped(c) && c.state == PayloadLen64(i)
    requires c.payloadLen as int == Upper(|f.payload|, 8, i - 1)
    ensures 1 <= i <= 8 && Upper(|f.payload|, 8, i) >= 0
    ensures var r := Step(c, LengthPart(|f.payload|, 8, i));
            && r == (if i < 8 then (c.(payloadLen := Upper(|f.payload|, 8, i), state := PayloadLen64(i + 1)), [])
                     else AfterLength(c.(payloadLen := |f.payload|, received := 0)))
            && Valid(r.0) && r.0.errno == Ok
  {
    UpperStep(|f.payload|, 8, i);
    Weights();
    UpperEnds(|f.payload|, 8);
    StepKeepsValid(c, LengthPart(|f.payload|, 8, i));
    hide Valid, Weight, Upper;
  }

  /** The length bytes i.. of a 64-bit length, up to the state that follows them. */
  lemma {:induction false} FeedLength64(c: Core, f: Frame, i: nat, rest: seq<byte>)
    requires Sendable(f) && Valid(c) && !Stopped(c) && c.state == PayloadLen64(i)
    requires c.payloadLen as int == Upper(|f.payload|, 8, i - 1)
    ensures 1 <= i <= 8
    ensures var (d, ev) := AfterLength(c.(payloadLen := |f.payload|, received := 0));
            Valid(d) && Feed(c, LengthParts(|f.payload|, 8, i) + rest) == Then(Out(d, 9 - i, ev), Feed(d, rest))
    decreases 9 - i
  {
    hide Step, Feed, Valid, AfterLength, Upper, Weight, LengthPart, Sendable;
    LengthStep64(c, f, i);
    var b := LengthPart(|f.payload|, 8, i);
    var (c', ev) := Step(c, b);
    var more := LengthParts(|f.payload|, 8, i + 1) + rest;
    assert LengthParts(|f.payload|, 8, i) + rest == [b] + more;
    FeedOne(c, b, more, c', ev);
    if i < 8 {
      FeedLength64(c', f, i + 1, rest);
      var (d, ev') := AfterLength(c.(payloadLen := |f.payload|, received := 0));
      assert c'.(payloadLen := |f.payload|, received := 0).(state := c.state) == c.(payloadLen := |f.payload|, received := 0);
      AfterLengthState(c.(payloadLen := |f.payload|, received := 0), c'.state);
      assert [] + (ev' + Feed(d, rest).events) == ev' + Feed(d, rest).events;
    } else {
      assert more == rest;
    }
  }

  lemma SecondByte(c: Core, f: Frame, x: byte)
    requires Valid(c) && !Stopped(c) && c.state == FrameOpcode && x < 0x80
    ensures var c1 := c.(mask := f.mask != NoMask, hasMask := f.mask != NoMask);
            var r := Step(c, MaskBit(f.mask) | x);
            && Valid(r.0) && r.0.errno == Ok
            && r == (if x as nat < 126 then AfterLength(c1.(payloadLen := x as nat, lenType := 0, received := 0))
                     else if x as nat == 126 then (c1.(payloadLen := 0, lenType := 1, state := PayloadLen16(1)), [])
                     else (c1.(payloadLen := 0, lenType := 2, state := PayloadLen64(1)), []))
  {
    hide Valid, MaskBit, Step, AfterLength;
    SevenBits(f.mask, x);
    StepKeepsValid(c, MaskBit(f.mask) | x);
    OpcodeStep(c, MaskBit(f.mask) | x, f.mask != NoMask, x as nat);
  }

  lemma OpcodeStep(c: Core, b: byte, masked: bool, len7: nat)
    requires Valid(c) && !Stopped(c) && c.state == FrameOpcode && (b & 0x80 != 0) == masked && (b & 0x7F) as nat == len7
    ensures var c1 := c.(mask := masked, hasMask := masked);
            var r := Step(c, b);
            && r.0.errno == Ok
            && r == (if len7 < 126 then AfterLength(c1.(payloadLen := len7, lenType := 0, received := 0))
                     else if len7 == 126 then (c1.(payloadLen := 0, lenType := 1, state := PayloadLen16(1)), [])
                     else (c1.(payloadLen := 0, lenType := 2, state := PayloadLen64(1)), []))
  {
    hide Valid;
  }

  /** The fields once the length is known. */
  function WithLength(c: Core, f: Frame): Core {
    var len := |f.payload|;
    c.(mask := f.mask != NoMask, hasMask := f.mask != NoMask, payloadLen := len, received := 0,
       lenType := if len < 126 then 0 else if len < 65536 then 1 else 2)
  }

  /** The second byte and the length bytes. */
  lemma FeedLengthField(c: Core, f: Frame, rest: seq<byte>)
    requires Sendable(f) && Valid(c) && !Stopped(c) && c.state == FrameOpcode
    ensures var field := LengthField(f.mask, |f.payload|);
            var (d, ev) := AfterLength(WithLength(c, f));
            Valid(d) && Feed(c, field + rest) == Then(Out(d, |field|, ev), Feed(d, rest))
  {
    var len := |f.payload|;
    if len < 126 {
      FeedShort(c, f, rest);
    } else if len < 65536 {
      FeedLong(c, f, rest, 126);
      var c2 := WithLength(c, f).(payloadLen := 0, received := c.received, state := PayloadLen16(1));
      UpperEnds(len, 2);
      FeedLength16(c2, f, 1, rest);
      LengthGlue(c, f, c2, 126, LengthParts(len, 2, 1), rest);
    } else {
      FeedLong(c, f, rest, 127);
      var c2 := WithLength(c, f).(payloadLen := 0, received := c.received, state := PayloadLen64(1));
      UpperEnds(len, 8);
      FeedLength64(c2, f, 1, rest);
      LengthGlue(c, f, c2, 127, LengthParts(len, 8, 1), rest);
    }
  }

  lemma FeedShort(c: Core, f: Frame, rest: seq<byte>)
    requires Sendable(f) && Valid(c) && !Stopped(c) && c.state == FrameOpcode && |f.payload| < 126
    ensures var field := LengthField(f.mask, |f.payload|);
            var (d, ev) := AfterLength(WithLength(c, f));
            Valid(d) && Feed(c, field + rest) == Then(Out(d, |field|, ev), Feed(d, rest))
  {
    hide *;
    Radix.AsByte(|f.payload|);
    HighBitClear(|f.payload| as byte);
    ShortStep(c, f, |f.payload| as byte);
    assert LengthField(f.mask, |f.payload|) == [MaskBit(f.mask) | (|f.payload| as byte)] by { ShortField(f.mask, |f.payload|); }
    var (d, ev) := AfterLength(WithLength(c, f));
    FeedOne(c, MaskBit(f.mask) | (|f.payload| as byte), rest, d, ev);
  }

  lemma ShortField(m: Mask, len: nat)
    requires len < 126
    ensures LengthField(m, len) == [MaskBit(m) | (len as byte)]
  {
  }

  lemma ShortStep(c: Core, f: Frame, x: byte)
    requires Valid(c) && !Stopped(c) && c.state == FrameOpcode && x < 0x80 && x as nat == |f.payload| < 126
    ensures Step(c, MaskBit(f.mask) | x) == AfterLength(WithLength(c, f)) && AfterLength(WithLength(c, f)).0.errno == Ok
  {
    hide Valid, Step;
    SecondByte(c, f, x);
    AfterLengthState(WithLength(c, f), c.state);
  }

  /** A second byte that announces a longer length field. */
  lemma FeedLong(c: Core, f: Frame, rest: seq<byte>, x: byte)
    requires Sendable(f) && Valid(c) && !Stopped(c) && c.state == FrameOpcode
    requires if x == 126 then 126 <= |f.payload| < 65536 else x == 127 && 65536 <= |f.payload|
    ensures var state := if x == 126 then PayloadLen16(1) else PayloadLen64(1);
            var parts := if x == 126 then LengthParts(|f.payload|, 2, 1) else LengthParts(|f.payload|, 8, 1);
            var c2 := WithLength(c, f).(payloadLen := 0, received := c.received, state := state);
            Valid(c2) && Feed(c, [MaskBit(f.mask) | x] + (parts + rest)) == Then(Out(c2, 1, []), Feed(c2, parts + rest))
  {
    hide Valid, AfterLength, LengthParts;
    SecondByte(c, f, x);
    hide Step, Feed;
    var (c2, ev) := Step(c, MaskBit(f.mask) | x);
    FeedOne(c, MaskBit(f.mask) | x, (if x == 126 then LengthParts(|f.payload|, 2, 1) else LengthParts(|f.payload|, 8, 1)) + rest, c2, ev);
  }

  lemma LengthGlue(c: Core, f: Frame, c2: Core, x: byte, parts: seq<byte>, rest: seq<byte>)
    requires Valid(c) && Valid(c2)
    requires c2 == WithLength(c, f).(payloadLen := 0, received := c.received, state := c2.state)
    requires Feed(c, [MaskBit(f.mask) | x] + (parts + rest)) == Then(Out(c2, 1, []), Feed(c2, parts + rest))
    requires var (d, ev) := AfterLength(c2.(payloadLen := |f.payload|, received := 0));
             Valid(d) && Feed(c2, parts + rest) == Then(Out(d, |parts|, ev), Feed(d, rest))
    ensures var (d, ev) := AfterLength(WithLength(c, f));
            Valid(d) && Feed(c, ([MaskBit(f.mask) | x] + parts) + rest) == Then(Out(d, 1 + |parts|, ev), Feed(d, rest))
  {
    hide Valid, Feed, AfterLength;
    AfterLengthState(WithLength(c, f), c2.state);
    var (d, ev) := AfterLength(WithLength(c, f));
    LongField(c2, c, MaskBit(f.mask) | x, parts, rest, d, ev);
  }

  lemma LongField(c2: Core, c: Core, b: byte, parts: seq<byte>, rest: seq<byte>, d: Core, ev: seq<Event>)
    requires Valid(c) && Valid(c2) && Valid(d)
    requires Feed(c, [b] + (parts + rest)) == Then(Out(c2, 1, []), Feed(c2, parts + rest))
    requires Feed(c2, parts + rest) == Then(Out(d, |parts|, ev), Feed(d, rest))
    ensures Feed(c, ([b] + parts) + rest) == Then(Out(d, 1 + |parts|, ev), Feed(d, rest))
  {
    hide Feed, Valid;
    assert ([b] + parts) + rest == [b] + (parts + rest);
    assert [] + (ev + Feed(d, rest).events) == ev + Feed(d, rest).events;
  }

  // ----- the key and the payload

  lemma KeyStep(c: Core, i: nat, b: byte)
    requires Valid(c) && !Stopped(c) && c.state == MaskKey(i)
    ensures 1 <= i <= 4 && |c.key| == 4
    ensures var c1 := c.(key := c.key[i - 1 := b], maskIndex := if i == 1 then 0 else c.maskIndex);
            var r := Step(c, b);
            && Valid(r.0) && r.0.errno == Ok
            && r == (if i < 4 then (c1.(state := MaskKey(i + 1)), [])
                     else if c.payloadLen == 0 then FrameDone(c1.(received := 0))
                     else (c1.(received := 0, state := Payload), []))
  {
    StepKeepsValid(c, b);
    hide Valid;
  }

  /** The parser where the payload begins, or the frame's end when it has none. */
  function PayloadBegin(c: Core, key: seq<byte>): (Core, seq<Event>) {
    var c1 := c.(key := key, maskIndex := 0, received := 0);
    if c.payloadLen == 0 then FrameDone(c1) else (c1.(state := Payload), [])
  }

  /** The four bytes of the masking key. */
  lemma FeedKey(c: Core, key: seq<byte>, rest: seq<byte>)
    requires Valid(c) && !Stopped(c) && c.state == MaskKey(1) && |key| == 4
    ensures var (d, ev) := PayloadBegin(c, key);
            Valid(d) && Feed(c, key + rest) == Then(Out(d, 4, ev), Feed(d, rest))
  {
    hide Step, Feed, Valid, FrameDone;
    KeyStep(c, 1, key[0]);
    var c1 := Step(c, key[0]).0;
    KeyStep(c1, 2, key[1]);
    var c2 := Step(c1, key[1]).0;
    KeyStep(c2, 3, key[2]);
    var c3 := Step(c2, key[2]).0;
    KeyStep(c3, 4, key[3]);
    var (d, ev) := Step(c3, key[3]);
    FeedOne(c3, key[3], rest, d, ev);
    FeedOne(c2, key[2], [key[3]] + rest, c3, []);
    FeedOne(c1, key[1], [key[2]] + ([key[3]] + rest), c2, []);
    FeedOne(c, key[0], [key[1]] + ([key[2]] + ([key[3]] + rest)), c1, []);
    assert key + rest == [key[0]] + ([key[1]] + ([key[2]] + ([key[3]] + rest)));
    assert c3.key[3 := key[3]] == key;
    FrameDoneState(c.(key := key, maskIndex := 0, received := 0), c3.state);
    var e := ev + Feed(d, rest).events;
    assert [] + ([] + ([] + e)) == e;
  }

  lemma FrameDoneState(c: Core, state: State)
    ensures FrameDone(c.(state := state)) == FrameDone(c)
  {
  }

  /** The payload is unmasked by the key that masked it. */
  lemma UnmaskBody(c: Core, f: Frame)
    requires Sendable(f) && |c.key| == 4 && c.hasMask == (f.mask != NoMask) && (c.hasMask ==> c.key == KeyBytes(f.mask))
    ensures UnmaskFrom(c, 0, Body(f)) == f.payload
  {
    var s := UnmaskFrom(c, 0, Body(f));
    forall i | 0 <= i < |f.payload| ensures s[i] == f.payload[i] {
      assert s[i] == if c.hasMask then Body(f)[i] ^ c.key[(0 + i) % 4] else Body(f)[i];
      if c.hasMask { XorTwice(f.payload[i], c.key[i % 4]); }
    }
  }

  /** The payload bytes of a frame, up to its end. */
  lemma FeedBody(c: Core, f: Frame, rest: seq<byte>)
    requires Sendable(f) && Valid(c) && !Stopped(c) && c.state == Payload && c.received == 0 && c.maskIndex == 0
    requires c.payloadLen == |f.payload| && c.hasMask == (f.mask != NoMask) && (c.hasMask ==> c.key == KeyBytes(f.mask))
    ensures var (d, ev) := FrameDone(Advance(c, |f.payload|));
            Valid(d) && Feed(c, Body(f) + rest) == Then(Out(d, |f.payload|, DataEvents(f.payload) + ev), Feed(d, rest))
  {
    PayloadRanges(c);
    UnmaskBody(c, f);
    hide Feed, Valid, FrameDone, UnmaskFrom, DataEvents;
    var n := |f.payload|;
    var data := Body(f) + rest;
    FeedPayload(c, data, n);
    assert data[..n] == Body(f) && data[n..] == rest;
  }

  // ----- whole frames

  /** The parser between frames, or at its end after CLOSE. */
  ghost predicate Finished(c: Core, f: Frame) {
    Valid(c) && c.errno == Ok && (if f.opcode == CLOSE then c.closed else AtStart(c))
  }

  ghost predicate Headed(c: Core, f: Frame) {
    && c.fin == f.fin && c.opcode == f.opcode && c.hasMask == (f.mask != NoMask) && !c.closed && c.errno == Ok
    && c.payloadLen == |f.payload|
  }

  lemma EndOfFrame(c: Core, f: Frame)
    requires Headed(c, f) && Valid(FrameDone(c).0)
    ensures FrameDone(c).1 == [Done(f.fin, f.opcode, f.mask != NoMask, f.opcode == CLOSE)] && Finished(FrameDone(c).0, f)
  {
    hide Valid;
  }

  function Tail(f: Frame): seq<Event> {
    DataEvents(f.payload) + [Done(f.fin, f.opcode, f.mask != NoMask, f.opcode == CLOSE)]
  }

  /** From where the payload begins, with the key in place. */
  lemma FeedFromPayload(c: Core, f: Frame, d: Core, ev: seq<Event>, rest: seq<byte>) returns (e: Core)
    requires Sendable(f) && Headed(c, f) && c.received == 0 && c.maskIndex == 0 && (c.hasMask ==> c.key == KeyBytes(f.mask))
    requires (d, ev) == (if c.payloadLen == 0 then FrameDone(c) else (c.(state := Payload), [])) && Valid(d)
    ensures Valid(e) && Finished(e, f)
    ensures Then(Out(d, 0, ev), Feed(d, Body(f) + rest)) == Then(Out(e, |f.payload|, Tail(f)), Feed(e, rest))
  {
    hide Feed, Valid, FrameDone, DataEvents;
    if c.payloadLen == 0 {
      EndOfFrame(c, f);
      e := d;
      NoPayload(f);
      assert Body(f) + rest == rest;
    } else {
      FeedBody(d, f, rest);
      var c1 := Advance(d, |f.payload|);
      EndOfFrame(c1, f);
      e := FrameDone(c1).0;
      assert [] + (Tail(f) + Feed(e, rest).events) == Tail(f) + Feed(e, rest).events;
    }
  }

  lemma NoPayload(f: Frame)
    requires |f.payload| == 0 && (f.mask.Key? ==> |f.mask.bytes| == 4)
    ensures Body(f) == [] && Tail(f) == [Done(f.fin, f.opcode, f.mask != NoMask, f.opcode == CLOSE)]
  {
    assert DataEvents(f.payload) == [];
  }

  /** From where the length is known. */
  lemma FeedFromLength(c: Core, f: Frame, rest: seq<byte>) returns (e: Core)
    requires Sendable(f) && Headed(c, f) && c.received == 0 && c.mask == c.hasMask && Valid(AfterLength(c).0)
    ensures Valid(e) && Finished(e, f)
    ensures var (d, ev) := AfterLength(c);
            && Then(Out(d, 0, ev), Feed(d, KeyBytes(f.mask) + (Body(f) + rest)))
               == Then(Out(e, |KeyBytes(f.mask)| + |f.payload|, Tail(f)), Feed(e, rest))
  {
    hide Feed, Valid, FrameDone, DataEvents, Tail, Finished;
    var (d, ev) := AfterLength(c);
    var key := KeyBytes(f.mask);
    if c.mask {
      FeedKey(d, key, Body(f) + rest);
      var (d', ev') := PayloadBegin(d, key);
      var c' := d.(key := key, maskIndex := 0, received := 0);
      e := FeedFromPayload(c', f, d', ev', rest);
      assert [] + (ev' + Feed(d', Body(f) + rest).events) == ev' + Feed(d', Body(f) + rest).events;
    } else {
      e := FeedFromPayload(c.(maskIndex := 0, key := NO_KEY), f, d, ev, rest);
      assert key + (Body(f) + rest) == Body(f) + rest;
    }
  }

  lemma FirstStep(c: Core, f: Frame)
    requires Sendable(f) && Valid(c) && AtStart(c)
    ensures var r := Step(c, FirstByte(f));
            r == (c.(fin := f.fin, opcode := f.opcode, state := FrameOpcode), [Begin(f.fin, f.opcode)]) && Valid(r.0)
  {
    OpcodeByte(f);
    StepKeepsValid(c, FirstByte(f));
    hide Valid, FirstByte;
  }

  /** Parsing the wire bytes of a frame gives that frame back, whatever follows. */
  lemma FrameParsed(c: Core, f: Frame, rest: seq<byte>) returns (e: Core)
    requires Sendable(f) && Valid(c) && AtStart(c)
    ensures Valid(e) && Finished(e, f)
    ensures Feed(c, Wire(f) + rest) == Then(Out(e, |Wire(f)|, EventsOf(f)), Feed(e, rest))
  {
    hide Step, Feed, Valid, FrameDone, DataEvents, AfterLength, Finished, LengthField, KeyBytes, FirstByte;
    FirstStep(c, f);
    var (c1, ev1) := Step(c, FirstByte(f));
    var field, key, body := LengthField(f.mask, |f.payload|), KeyBytes(f.mask), Body(f);
    var after := key + (body + rest);
    FeedLengthField(c1, f, after);
    FeedOne(c, FirstByte(f), field + after, c1, ev1);
    var (d, ev) := AfterLength(WithLength(c1, f));
    e := FeedFromLength(WithLength(c1, f), f, rest);
    assert Wire(f) + rest == [FirstByte(f)] + (field + after);
    assert EventsOf(f) == ev1 + Tail(f);
    var x, y := Feed(d, after).events, Feed(e, rest).events;
    assert ev + x == Tail(f) + y;
    assert ev1 + (ev + x) == (ev1 + Tail(f)) + y;
  }

  // ----- streams of frames

  /** Frames that can be sent in a row: nothing follows CLOSE. */
  ghost predicate SendableAll(fs: seq<Frame>) {
    forall i :: 0 <= i < |fs| ==> Sendable(fs[i]) && (fs[i].opcode == CLOSE ==> i == |fs| - 1)
  }

  ghost function WireAll(fs: seq<Frame>): seq<byte>
    requires SendableAll(fs)
  {
    if fs == [] then [] else Wire(fs[0]) + WireAll(fs[1..])
  }

  function EventsAll(fs: seq<Frame>): seq<Event> {
    if fs == [] then [] else EventsOf(fs[0]) + EventsAll(fs[1..])
  }

  /** A stream of frames is parsed back into exactly those frames, to its last byte. */
  lemma {:induction false} StreamParsed(c: Core, fs: seq<Frame>)
    requires SendableAll(fs) && Valid(c) && AtStart(c)
    ensures var o := Feed(c, WireAll(fs));
            && o.events == EventsAll(fs) && o.consumed == |WireAll(fs)|
            && (if fs != [] && fs[|fs| - 1].opcode == CLOSE then o.core.closed && o.core.errno == Ok else AtStart(o.core))
    decreases |fs|
  {
    hide Step, Valid, Feed, Wire, EventsOf;
    if fs == [] {
      FeedStopped(c, []);
    } else {
      var rest := WireAll(fs[1..]);
      var e := FrameParsed(c, fs[0], rest);
      if fs[0].opcode == CLOSE {
        assert fs[1..] == [];
        FeedStopped(e, rest);
      } else {
        StreamParsed(e, fs[1..]);
      }
    }
  }

  lemma {:induction false} LateCallsLeaveBytes(c: Core, pieces: seq<seq<byte>>)
    requires Valid(c)
    ensures Calls(c, pieces).consumed <= |Concat(pieces)|
    ensures LateCalls(c, pieces) > 0 ==> Calls(c, pieces).consumed < |Concat(pieces)|
    decreases |pieces|
  {
    hide Step, Valid, Feed;
    if pieces != [] { LateCallsLeaveBytes(Call(c, pieces[0]).core, pieces[1..]); }
  }

  /** However the bytes of a stream of frames are cut into calls, the callbacks see
      those frames, once each, and every byte is consumed. */
  lemma CutStreamParsed(c: Core, fs: seq<Frame>, pieces: seq<seq<byte>>)
    requires SendableAll(fs) && Valid(c) && AtStart(c) && Concat(pieces) == WireAll(fs)
    ensures Calls(c, pieces).events == EventsAll(fs) && Calls(c, pieces).consumed == |WireAll(fs)|
  {
    hide Step, Valid, Feed, WireAll, Concat;
    StreamParsed(c, fs);
    AnySplit(c, pieces);
    LateCallsLeaveBytes(c, pieces);
    assert Again(LastDone(Feed(c, WireAll(fs)).core), 0) == [];
  }

  /** The events of a frame tell all of it apart from the key. */
  lemma EventsTell(f: Frame, g: Frame)
    requires EventsOf(f) == EventsOf(g)
    ensures f.fin == g.fin && f.opcode == g.opcode && f.payload == g.payload && (f.mask == NoMask <==> g.mask == NoMask)
  {
    assert EventsOf(f)[0] == Begin(f.fin, f.opcode) && EventsOf(g)[0] == Begin(g.fin, g.opcode);
    var n := |f.payload|;
    assert EventsOf(f)[n + 1] == Done(f.fin, f.opcode, f.mask != NoMask, f.opcode == CLOSE);
    assert EventsOf(g)[n + 1] == Done(g.fin, g.opcode, g.mask != NoMask, g.opcode == CLOSE);
    forall i | 0 <= i < n ensures f.payload[i] == g.payload[i] {
      assert EventsOf(f)[i + 1] == Data(f.payload[i]) && EventsOf(g)[i + 1] == Data(g.payload[i]);
    }
  }

  // ----- the printer

  lemma TwoParts(len: nat)
    ensures LengthParts(len, 2, 1) == [LengthPart(len, 2, 1), LengthPart(len, 2, 2)]
  {
  }

  lemma PartAt(len: nat, n: nat, i: nat, k: nat)
    requires 1 <= i <= n && k < n + 1 - i
    ensures LengthParts(len, n, i)[k] == LengthPart(len, n, i + k)
    decreases k
  {
    hide LengthPart;
    if k > 0 { PartAt(len, n, i + 1, k - 1); }
  }

  lemma WrittenAt(a: seq<byte>, start: nat, x: seq<byte>, b: seq<byte>)
    requires start + |x| <= |a| == |b|
    requires forall k :: 0 <= k < |x| ==> b[start + k] == x[k]
    requires forall k :: (0 <= k < start || start + |x| <= k < |a|) ==> b[k] == a[k]
    ensures b == Written(a, start, x)
  {
    forall k | 0 <= k < |a| ensures b[k] == Written(a, start, x)[k] {
      if start <= k < start + |x| { assert b[start + (k - start)] == x[k - start]; }
    }
  }

  /** The eight bytes of a 64-bit length. */
  method PutLength64(buffer: array<byte>, start: nat, len: nat)
    requires start + 8 <= buffer.Length
    modifies buffer
    ensures buffer[..] == Written(old(buffer[..]), start, LengthParts(len, 8, 1))
  {
    hide LengthPart, LengthParts, Written;
    var i := 7;
    while i >= 0
      invariant -1 <= i <= 7
      invariant forall k :: 0 <= k < 7 - i ==> buffer[start + k] == LengthParts(len, 8, 1)[k]
      invariant forall k :: (0 <= k < start || start + 8 <= k < buffer.Length) ==> buffer[k] == old(buffer[k])
    {
      PartAt(len, 8, 1, 7 - i);
      buffer[start + 7 - i] := LengthPart(len, 8, 8 - i);
      i := i - 1;
    }
    WrittenAt(old(buffer[..]), start, LengthParts(len, 8, 1), buffer[..]);
  }

  method PutByte(buffer: array<byte>, at: nat, b: byte)
    requires at < buffer.Length
    modifies buffer
    ensures buffer[..] == Written(old(buffer[..]), at, [b])
  {
    buffer[at] := b;
  }

  /** The length byte of a short frame. */
  function ShortByte(m: Mask, len: nat): byte
    requires len < 126
  {
    MaskBit(m) | (len as byte)
  }

  lemma FieldShape(m: Mask, len: nat)
    ensures len < 126 ==> LengthField(m, len) == [ShortByte(m, len)]
    ensures 126 <= len < 65536 ==> LengthField(m, len) == [MaskBit(m) | 126] + ([LengthPart(len, 2, 1)] + [LengthPart(len, 2, 2)])
    ensures 65536 <= len ==> LengthField(m, len) == [MaskBit(m) | 127] + LengthParts(len, 8, 1)
  {
    hide LengthPart, MaskBit;
    if 126 <= len < 65536 { TwoParts(len); }
  }

  /** The second byte and the length bytes; false when they do not fit. */
  method PutLength(buffer: array<byte>, start: nat, m: Mask, len: nat) returns (ok: bool, offset: nat)
    requires start <= buffer.Length && len < MAX_LEN
    modifies buffer
    ensures ok <==> start + |LengthField(m, len)| <= buffer.Length
    ensures ok ==> offset == start + |LengthField(m, len)| && buffer[..] == Written(old(buffer[..]), start, LengthField(m, len))
  {
    hide LengthPart, LengthParts, MaskBit, LengthField, Written, ShortByte;
    FieldShape(m, len);
    if start >= buffer.Length { return false, start; }
    ghost var was := buffer[..];
    if len < 126 {
      PutByte(buffer, start, ShortByte(m, len));
      return true, start + 1;
    }
    PutByte(buffer, start, MaskBit(m) | (if len < 65536 then 126 else 127));
    if len < 65536 {
      if start + 3 > buffer.Length { return false, start + 1; }
      PutByte(buffer, start + 1, LengthPart(len, 2, 1));
      PutByte(buffer, start + 2, LengthPart(len, 2, 2));
      WrittenTwice(Written(was, start, [MaskBit(m) | 126]), start + 1, [LengthPart(len, 2, 1)], [LengthPart(len, 2, 2)]);
      WrittenTwice(was, start, [MaskBit(m) | 126], [LengthPart(len, 2, 1)] + [LengthPart(len, 2, 2)]);
      return true, start + 3;
    } else {
      if start + 9 > buffer.Length { return false, start + 1; }
      PutLength64(buffer, start + 1, len);
      WrittenTwice(was, start, [MaskBit(m) | 127], LengthParts(len, 8, 1));
      return true, start + 9;
    }
  }

  /** The masking key; false when it does not fit. */
  method PutKey(buffer: array<byte>, start: nat, m: Mask) returns (ok: bool, offset: nat)
    requires start <= buffer.Length && (m.Key? ==> |m.bytes| == 4)
    modifies buffer
    ensures ok <==> start + |KeyBytes(m)| <= buffer.Length
    ensures ok ==> offset == start + |KeyBytes(m)| && buffer[..] == Written(old(buffer[..]), start, KeyBytes(m))
  {
    if m == NoMask { return true, start; }
    if start + 4 > buffer.Length { return false, start; }
    var key := KeyBytes(m);
    forall i | 0 <= i < 4 { buffer[start + i] := key[i]; }
    return true, start + 4;
  }

  /** The payload, masked; false when it does not fit. */
  method PutBody(buffer: array<byte>, start: nat, f: Frame) returns (ok: bool, offset: nat)
    requires start <= buffer.Length && (f.mask.Key? ==> |f.mask.bytes| == 4)
    modifies buffer
    ensures ok <==> start + |f.payload| <= buffer.Length
    ensures ok ==> offset == start + |f.payload| && buffer[..] == Written(old(buffer[..]), start, Body(f))
  {
    hide Written;
    var n := |f.payload|;
    if start + n > buffer.Length { return false, start; }
    var key := KeyBytes(f.mask);
    var i := 0;
    while i < n
      invariant 0 <= i <= n
      invariant forall k :: 0 <= k < i ==> buffer[start + k] == Body(f)[k]
      invariant forall k :: (0 <= k < start || start + n <= k < buffer.Length) ==> buffer[k] == old(buffer[k])
    {
      buffer[start + i] := if f.mask == NoMask then f.payload[i] else f.payload[i] ^ key[i % 4];
      i := i + 1;
    }
    WrittenAt(old(buffer[..]), start, Body(f), buffer[..]);
    return true, start + n;
  }

  /** build_websocket_frame: the wire bytes of a frame at the front of the buffer,
      or 0 exactly when they do not fit. */
  method Build(buffer: array<byte>, f: Frame) returns (offset: nat)
    requires |f.payload| < MAX_LEN && (f.mask.Key? ==> |f.mask.bytes| == 4)
    modifies buffer
    ensures offset == if |Wire(f)| <= buffer.Length then |Wire(f)| else 0
    ensures offset > 0 ==> buffer[..] == Wire(f) + old(buffer[..])[offset..]
  {
    hide LengthField, Body, KeyBytes, FirstByte, Written;
    if buffer.Length == 0 { return 0; }
    ghost var was := buffer[..];
    PutByte(buffer, 0, FirstByte(f));
    var ok, o1 := PutLength(buffer, 1, f.mask, |f.payload|);
    if !ok { return 0; }
    ghost var s1 := [FirstByte(f)] + LengthField(f.mask, |f.payload|);
    WrittenTwice(was, 0, [FirstByte(f)], LengthField(f.mask, |f.payload|));
    var ok2, o2 := PutKey(buffer, o1, f.mask);
    if !ok2 { return 0; }
    WrittenTwice(was, 0, s1, KeyBytes(f.mask));
    var ok3, o3 := PutBody(buffer, o2, f);
    if !ok3 { return 0; }
    WrittenTwice(was, 0, s1 + KeyBytes(f.mask), Body(f));
    WrittenFront(was, Wire(f));
    return o3;
  }

  lemma WrittenFront(a: seq<byte>, x: seq<byte>)
    requires |x| <= |a|
    ensures Written(a, 0, x) == x + a[|x|..]
  {
  }
}
