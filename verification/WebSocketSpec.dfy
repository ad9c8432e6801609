/** The WebSocket frame parser read one byte at a time (RFC 6455, sections 5.2
    and 5.3): what every byte does to the parser's fields and which events it
    brings.  The parser that works on whole buffers is proved against this. */
module WebSocketSpec {
  import Radix
  import opened ByteSeqs

  datatype State =
    | FrameStart
    | FrameOpcode
    | PayloadLen16(i: nat)
    | PayloadLen64(i: nat)
    | MaskKey(i: nat)
    | Payload
    | Complete

  datatype Errno = Ok | InvalidFrame | InvalidOpcode | InvalidPayloadLen | Unknown

  /** The fields of the parser. */
  datatype Core = Core(
    state: State, fin: bool, opcode: byte, mask: bool, hasMask: bool, lenType: nat,
    payloadLen: nat, received: nat, key: seq<byte>, maskIndex: nat, errno: Errno, closed: bool)

  /** What the callbacks get to see; payload is counted byte by byte. */
  datatype Event =
    | Begin(fin: bool, opcode: byte)
    | Data(b: byte)
    | Done(fin: bool, opcode: byte, masked: bool, closed: bool)

  datatype Out = Out(core: Core, consumed: nat, events: seq<Event>)

  const CLOSE: byte := 8
  const NO_KEY: seq<byte> := [0, 0, 0, 0]
  const MAX_LEN: nat := 0x1_0000_0000_0000_0000

  /** ez_websocket_parser_init */
  const INITIAL: Core := Core(FrameStart, false, 0, false, false, 0, 0, 0, NO_KEY, 0, Ok, false)

  predicate ValidOpcode(opcode: byte) {
    opcode <= 0x0A && !(0x02 < opcode < 0x08)
  }

  /** The weight of length byte i of n, most significant first. */
  function Weight(n: nat, i: nat): (w: nat)
    requires i <= n
    ensures w > 0
    decreases n - i
  {
    if i == n then 1 else 256 * Weight(n, i + 1)
  }

  /** The FIN bit of the first byte, and the mask bit of the second. */
  predicate TopBit(b: byte) { b & 0x80 != 0 }

  /** The length in the second byte of a frame. */
  function Len7(b: byte): nat { (b & 0x7F) as nat }

  /** Length byte i of n, shifted to its place. */
  function Placed(b: byte, n: nat, i: nat): nat
    requires i <= n
  {
    (b as nat) * Weight(n, i)
  }

  /** What holds of the fields between any two bytes.  A length byte is or-ed into
      bits that are still clear, so or-ing it in is adding it. */
  ghost predicate Valid(c: Core) {
    && |c.key| == 4 && c.maskIndex < 4 && c.payloadLen < MAX_LEN
    && (c.closed ==> c.state == Complete)
    && (c.state == Complete && c.errno == Ok ==> c.closed)
    && (c.state == Payload ==> c.received < c.payloadLen)
    && (c.state.PayloadLen16? ==> 1 <= c.state.i <= 2 && Aligned(c.payloadLen, 2, c.state.i))
    && (c.state.PayloadLen64? ==> 1 <= c.state.i <= 8 && Aligned(c.payloadLen, 8, c.state.i))
    && (c.state.MaskKey? ==> 1 <= c.state.i <= 4)
  }

  /** Only the bits above those of length byte i of n are in use. */
  ghost predicate Aligned(len: nat, n: nat, i: nat)
    requires 1 <= i <= n
  {
    len % Weight(n, i - 1) == 0 && len < Weight(n, 0)
  }

  predicate Stopped(c: Core) {
    c.errno != Ok || c.closed
  }

  function Reset(c: Core): Core {
    c.(state := FrameStart, fin := false, opcode := 0, mask := false, hasMask := false,
       payloadLen := 0, received := 0, maskIndex := 0, lenType := 0)
  }

  /** handle_frame_complete, with a callback that returns 0. */
  function FrameDone(c: Core): (Core, seq<Event>) {
    var closed := c.closed || c.opcode == CLOSE;
    (if closed then c.(state := Complete, closed := true) else Reset(c),
     [Done(c.fin, c.opcode, c.hasMask, closed)])
  }

  /** Where the parser goes once the length is known. */
  function AfterLength(c: Core): (Core, seq<Event>) {
    if c.mask then (c.(state := MaskKey(1)), []) else
      var c1 := c.(maskIndex := 0, key := NO_KEY);
      if c1.payloadLen == 0 then FrameDone(c1) else (c1.(state := Payload), [])
  }

  /** The payload byte as the callback gets it. */
  function Unmasked(c: Core, b: byte): byte
    requires Valid(c)
  {
    if c.hasMask then b ^ c.key[c.maskIndex] else b
  }

  function Advance(c: Core, n: nat): Core {
    c.(received := c.received + n, maskIndex := if c.hasMask then (c.maskIndex + n) % 4 else c.maskIndex)
  }

  /** One byte.  A byte that is not accepted leaves an error and is not consumed. */
  function Step(c: Core, b: byte): (r: (Core, seq<Event>))
    requires Valid(c) && !Stopped(c)
  {
    match c.state
    case FrameStart =>
      var c1 := c.(fin := TopBit(b), opcode := b & 0x0F);
      if !ValidOpcode(c1.opcode) then (c1.(errno := InvalidOpcode), [])
      else (c1.(state := FrameOpcode), [Begin(c1.fin, c1.opcode)])
    case FrameOpcode =>
      var len7 := Len7(b);
      var c1 := c.(mask := TopBit(b), hasMask := TopBit(b));
      if len7 < 126 then AfterLength(c1.(payloadLen := len7, lenType := 0, received := 0))
      else if len7 == 126 then (c1.(payloadLen := 0, lenType := 1, state := PayloadLen16(1)), [])
      else (c1.(payloadLen := 0, lenType := 2, state := PayloadLen64(1)), [])
    case PayloadLen16(i) =>
      var c1 := c.(payloadLen := c.payloadLen + Placed(b, 2, i));
      if i < 2 then (c1.(state := PayloadLen16(i + 1)), []) else AfterLength(c1.(received := 0))
    case PayloadLen64(i) =>
      var c1 := c.(payloadLen := c.payloadLen + Placed(b, 8, i));
      if i < 8 then (c1.(state := PayloadLen64(i + 1)), []) else AfterLength(c1.(received := 0))
    case MaskKey(i) =>
      var c1 := c.(key := c.key[i - 1 := b], maskIndex := if i == 1 then 0 else c.maskIndex);
      if i < 4 then (c1.(state := MaskKey(i + 1)), [])
      else if c1.payloadLen == 0 then FrameDone(c1.(received := 0))
      else (c1.(received := 0, state := Payload), [])
    case Payload =>
      var c1 := Advance(c, 1);
      if c1.received < c1.payloadLen then (c1, [Data(Unmasked(c, b))])
      else var (c2, ev) := FrameDone(c1); (c2, [Data(Unmasked(c, b))] + ev)
    case Complete => (c, [])
  }

  /** Feeding a stretch of bytes, up to a CLOSE frame or an error. */
  function Feed(c: Core, data: seq<byte>): (o: Out)
    requires Valid(c)
    ensures o.consumed <= |data| && Valid(o.core)
    ensures o.consumed < |data| ==> Stopped(o.core)
    decreases |data|
  {
    if data == [] || Stopped(c) then Out(c, 0, []) else
      StepKeepsValid(c, data[0]);
      var (c', ev) := Step(c, data[0]);
      if c'.errno != Ok then Out(c', 0, ev) else
        var o := Feed(c', data[1..]);
        Out(o.core, 1 + o.consumed, ev + o.events)
  }

  // ----- the fields stay valid

  lemma WeightDivides(n: nat, i: nat, j: nat) returns (k: nat)
    requires i <= j <= n
    ensures Weight(n, i) == k * Weight(n, j)
    decreases j - i
  {
    if i == j {
      k := 1;
    } else {
      var k' := WeightDivides(n, i + 1, j);
      k := 256 * k';
      Radix.Associate(256, k', Weight(n, j));
    }
  }

  /** len + b*w for a multiple `len` of u == 256*w, below the multiple k*u. */
  lemma NextMultiple(len: nat, u: nat, w: nat, k: nat, b: nat)
    requires w > 0 && u == 256 * w && len % u == 0 && len < k * u && b < 256
    ensures len + b * w < k * u && (len + b * w) % w == 0
  {
    var q := len / u;
    Radix.DivMod(len, u);
    if q >= k { Radix.MulMono(k, q, u); }
    Radix.MulMono(q + 1, k, u);
    Radix.Distribute(q, 1, u);
    Radix.MulMono(b, 255, w);
    Radix.Associate(q, 256, w);
    Radix.Distribute(q * 256, b, w);
    Radix.DivModUnique(q * 256 + b, 0, w);
  }

  /** One more length byte: its bits were clear, and the length stays in range. */
  lemma LengthByte(len: nat, n: nat, i: nat, b: nat)
    requires 1 <= i <= n && Aligned(len, n, i) && b < 256
    ensures len + b * Weight(n, i) < Weight(n, 0)
    ensures i < n ==> Aligned(len + b * Weight(n, i), n, i + 1)
  {
    var k := WeightDivides(n, 0, i - 1);
    assert Weight(n, i - 1) == 256 * Weight(n, i);
    hide Weight;
    NextMultiple(len, Weight(n, i - 1), Weight(n, i), k, b);
  }

  lemma Weights()
    ensures Weight(2, 0) == 0x1_0000 && Weight(8, 0) == MAX_LEN
  {
    assert Weight(8, 4) == 0x1_0000_0000;
  }

  ghost predicate Ranges(c: Core) {
    |c.key| == 4 && c.maskIndex < 4 && c.payloadLen < MAX_LEN && !c.closed && c.errno == Ok
  }

  lemma FrameDoneValid(c: Core)
    requires Ranges(c)
    ensures Valid(FrameDone(c).0)
  {
  }

  lemma AfterLengthValid(c: Core)
    requires Ranges(c) && c.received == 0
    ensures Valid(AfterLength(c).0)
  {
  }

  lemma StepLength16Valid(c: Core, b: byte)
    requires Valid(c) && !Stopped(c) && c.state.PayloadLen16?
    ensures Valid(Step(c, b).0)
  {
    Weights();
    LengthByte(c.payloadLen, 2, c.state.i, b as nat);
    var len := c.payloadLen + Placed(b, 2, c.state.i);
    if c.state.i == 2 { AfterLengthValid(c.(payloadLen := len, received := 0)); }
  }

  lemma StepLength64Valid(c: Core, b: byte)
    requires Valid(c) && !Stopped(c) && c.state.PayloadLen64?
    ensures Valid(Step(c, b).0)
  {
    Weights();
    LengthByte(c.payloadLen, 8, c.state.i, b as nat);
    var len := c.payloadLen + Placed(b, 8, c.state.i);
    if c.state.i == 8 { AfterLengthValid(c.(payloadLen := len, received := 0)); }
  }

  lemma StepOpcodeValid(c: Core, b: byte)
    requires Valid(c) && c.state == FrameOpcode && !Stopped(c)
    ensures Valid(Step(c, b).0)
  {
    ZeroAligned();
    ShortLength(b);
    hide Aligned, Weight, TopBit, Len7, AfterLength;
    var c1 := c.(mask := TopBit(b), hasMask := TopBit(b));
    if Len7(b) < 126 {
      AfterLengthValid(c1.(payloadLen := Len7(b), lenType := 0, received := 0));
    }
  }

  lemma ZeroAligned()
    ensures Aligned(0, 2, 1) && Aligned(0, 8, 1)
  {
    Weights();
    Radix.DivModUnique(0, 0, Weight(2, 0));
    Radix.DivModUnique(0, 0, Weight(8, 0));
  }

  lemma ShortLength(b: byte)
    ensures Len7(b) < 128 < MAX_LEN
  {
  }

  lemma StepKeepsValid(c: Core, b: byte)
    requires Valid(c) && !Stopped(c)
    ensures Valid(Step(c, b).0)
  {
    match c.state
    case FrameStart =>
    case FrameOpcode => StepOpcodeValid(c, b);
    case PayloadLen16(_) => StepLength16Valid(c, b);
    case PayloadLen64(_) => StepLength64Valid(c, b);
    case MaskKey(i) => FrameDoneValid(c.(key := c.key[i - 1 := b], maskIndex := if i == 1 then 0 else c.maskIndex, received := 0));
    case Payload => FrameDoneValid(Advance(c, 1));
    case Complete =>
  }

  // ----- cutting the stream into pieces

  function Then(o: Out, p: Out): Out {
    Out(p.core, o.consumed + p.consumed, o.events + p.events)
  }

  /** Feeding two stretches in turn is feeding them as one. */
  lemma {:induction false} FeedSplit(c: Core, a: seq<byte>, b: seq<byte>)
    requires Valid(c)
    ensures Feed(c, a + b) == Then(Feed(c, a), Feed(Feed(c, a).core, b))
    decreases |a|
  {
    hide Step, Valid, Feed, Then;
    FeedStopped(c, a);
    if Stopped(c) || a == [] {
      FeedStopped(c, a + b);
      FeedStopped(c, b);
      assert a == [] ==> a + b == b;
      ThenNothing(c, Feed(c, b));
    } else {
      var (c', ev) := Step(c, a[0]);
      assert a == [a[0]] + a[1..] && a + b == [a[0]] + (a[1..] + b);
      if c'.errno == Ok {
        FeedOne(c, a[0], a[1..], c', ev);
        FeedOne(c, a[0], a[1..] + b, c', ev);
        FeedSplit(c', a[1..], b);
        ThenJoins(Out(c', 1, ev), Feed(c', a[1..]), Feed(Feed(c', a[1..]).core, b));
      } else {
        FeedBad(c, a[0], a[1..]);
        FeedBad(c, a[0], a[1..] + b);
        FeedStopped(c', b);
        ThenStays(Out(c', 0, ev));
      }
    }
  }

  lemma ThenNothing(c: Core, o: Out)
    ensures Then(Out(c, 0, []), o) == o
  {
  }

  lemma ThenStays(o: Out)
    ensures Then(o, Out(o.core, 0, [])) == o
  {
  }

  lemma ThenJoins(o: Out, p: Out, q: Out)
    ensures Then(o, Then(p, q)) == Then(Then(o, p), q) && Then(o, p).core == p.core
  {
  }

  lemma FeedStopped(c: Core, data: seq<byte>)
    requires Valid(c)
    ensures data == [] || Stopped(c) ==> Feed(c, data) == Out(c, 0, [])
  {
  }

  /** One call of the parser with callbacks that return 0.  A parser that has seen
      CLOSE is left in the complete state and reports that frame once more. */
  function Call(c: Core, data: seq<byte>): (o: Out)
    requires Valid(c)
    ensures Valid(o.core)
  {
    if data == [] || c.errno != Ok then Out(c, 0, [])
    else if c.closed then Out(c, 0, [Done(c.fin, c.opcode, c.hasMask, true)])
    else Feed(c, data)
  }

  function Calls(c: Core, pieces: seq<seq<byte>>): Out
    requires Valid(c)
    decreases |pieces|
  {
    if pieces == [] then Out(c, 0, []) else
      var o := Call(c, pieces[0]);
      Then(o, Calls(o.core, pieces[1..]))
  }

  /** The calls with data that come after the call in which CLOSE was completed. */
  function LateCalls(c: Core, pieces: seq<seq<byte>>): nat
    requires Valid(c)
    decreases |pieces|
  {
    if pieces == [] then 0 else
      (if c.closed && c.errno == Ok && pieces[0] != [] then 1 else 0) + LateCalls(Call(c, pieces[0]).core, pieces[1..])
  }

  function Again(e: Event, n: nat): (s: seq<Event>)
    ensures |s| == n
  {
    if n == 0 then [] else [e] + Again(e, n - 1)
  }

  function LastDone(c: Core): Event { Done(c.fin, c.opcode, c.hasMask, true) }

  lemma {:induction false} ClosedCalls(c: Core, pieces: seq<seq<byte>>)
    requires Valid(c) && c.closed
    ensures Calls(c, pieces) == Out(c, 0, Again(LastDone(c), LateCalls(c, pieces)))
    decreases |pieces|
  {
    hide Step, Valid;
    if pieces != [] { ClosedCalls(c, pieces[1..]); }
  }

  lemma PiecesUnfold(c: Core, pieces: seq<seq<byte>>)
    requires Valid(c)
    ensures Again(LastDone(c), 0) == []
    ensures if pieces == [] then Concat(pieces) == [] else Concat(pieces) == pieces[0] + Concat(pieces[1..])
  {
  }

  /** However a stream is cut into calls, the parser ends with the same fields and
      has consumed the same bytes; the events are those of the whole stream,
      followed by one repeated completion for every late call. */
  lemma {:induction false} AnySplit(c: Core, pieces: seq<seq<byte>>)
    requires Valid(c) && !c.closed
    ensures var whole := Feed(c, Concat(pieces));
            var run := Calls(c, pieces);
            && run.core == whole.core
            && run.consumed == whole.consumed
            && run.events == whole.events + Again(LastDone(whole.core), LateCalls(c, pieces))
            && (!whole.core.closed ==> LateCalls(c, pieces) == 0)
    decreases |pieces|
  {
    hide Step, Valid, Feed, Again, Concat;
    PiecesUnfold(c, pieces);
    if pieces == [] {
      FeedStopped(c, []);
    } else {
      var o := Call(c, pieces[0]);
      FeedStopped(c, []);
      if c.errno != Ok { FeedStopped(c, pieces[0]); }
      FeedSplit(c, pieces[0], Concat(pieces[1..]));
      if o.core.closed {
        ClosedCalls(o.core, pieces[1..]);
        FeedStopped(o.core, Concat(pieces[1..]));
      } else {
        AnySplit(o.core, pieces[1..]);
      }
    }
  }

  /** So two ways of cutting a stream bring the same events exactly when equally
      many calls with data come late, and cutting is harmless exactly when none does. */
  lemma SplitHarmless(c: Core, pieces: seq<seq<byte>>)
    requires Valid(c) && !c.closed
    ensures Calls(c, pieces) == Feed(c, Concat(pieces)) <==> LateCalls(c, pieces) == 0
  {
    AnySplit(c, pieces);
  }

  lemma FeedOne(c: Core, b: byte, rest: seq<byte>, c': Core, ev: seq<Event>)
    requires Valid(c) && !Stopped(c) && Step(c, b) == (c', ev) && c'.errno == Ok
    ensures Valid(c') && Feed(c, [b] + rest) == Then(Out(c', 1, ev), Feed(c', rest))
  {
    hide Step, Valid;
    StepKeepsValid(c, b);
    assert ([b] + rest)[1..] == rest;
  }

  lemma FeedBad(c: Core, b: byte, rest: seq<byte>)
    requires Valid(c) && !Stopped(c) && Step(c, b).0.errno != Ok
    ensures Valid(Step(c, b).0) && Feed(c, [b] + rest) == Out(Step(c, b).0, 0, Step(c, b).1)
  {
    StepKeepsValid(c, b);
    hide Step, Valid;
  }

  lemma CloseHeader(rest: seq<byte>) returns (c: Core)
    ensures Valid(INITIAL) && Valid(c) && c.closed && c.errno == Ok && LastDone(c) == Done(true, CLOSE, false, true)
    ensures Feed(INITIAL, [0x88, 0x00] + rest) == Out(c, 2, [Begin(true, CLOSE), LastDone(c)])
  {
    var c1 := INITIAL.(fin := true, opcode := CLOSE, state := FrameOpcode);
    c := c1.(state := Complete, closed := true);
    FeedOne(INITIAL, 0x88, [0x00] + rest, c1, [Begin(true, CLOSE)]);
    FeedOne(c1, 0x00, rest, c, [LastDone(c)]);
    assert [0x88, 0x00] + rest == [0x88] + ([0x00] + rest);
    assert Feed(c, rest) == Out(c, 0, []);
  }

  /** A CLOSE frame followed by one more byte, in one call and in two. */
  lemma CloseReportedTwice()
    ensures Valid(INITIAL)
    ensures var done := Done(true, CLOSE, false, true);
            && Feed(INITIAL, [0x88, 0x00, 0x00]).events == [Begin(true, CLOSE), done]
            && Calls(INITIAL, [[0x88, 0x00], [0x00]]).events == [Begin(true, CLOSE), done, done]
  {
    hide Step, Valid, Feed;
    var c := CloseHeader([0x00]);
    var d := CloseHeader([]);
    var head: seq<byte>, tail: seq<byte> := [0x88, 0x00], [0x00];
    assert head + tail == [0x88, 0x00, 0x00] && head + [] == head;
    var pieces := [head, tail];
    assert pieces[1..] == [tail];
    ClosedCalls(d, pieces[1..]);
    assert LateCalls(d, pieces[1..]) == 1 + LateCalls(d, []);
    assert Again(LastDone(d), 1) == [LastDone(d)];
    assert Call(INITIAL, pieces[0]) == Out(d, 2, [Begin(true, CLOSE), LastDone(d)]);
    assert Calls(INITIAL, pieces) == Then(Call(INITIAL, pieces[0]), Calls(d, pieces[1..]));
  }
}
