/** src/ez_websocket_parser.c: the parser object, driven by buffers of any size,
    with callbacks that may refuse. */
module WebSocket {
  import opened ByteSeqs
  import opened WebSocketSpec

  /** One callback invocation; a payload callback gets a stretch of bytes. */
  datatype Callback =
    | OnBegin(fin: bool, opcode: byte)
    | OnPayload(bytes: seq<byte>)
    | OnComplete(fin: bool, opcode: byte, masked: bool, closed: bool)

  /** What the callbacks answer, given all invocations so far; true stands for 0.
      A callback that is not set is one that always answers 0. */
  type Answers = seq<Callback> -> bool

  const BATCH: nat := 4096

  function DataEvents(bytes: seq<byte>): (s: seq<Event>)
    ensures |s| == |bytes|
  {
    seq(|bytes|, i requires 0 <= i < |bytes| => Data(bytes[i]))
  }

  function Seen(cb: Callback): seq<Event> {
    match cb
    case OnBegin(fin, opcode) => [Begin(fin, opcode)]
    case OnPayload(bytes) => DataEvents(bytes)
    case OnComplete(fin, opcode, masked, closed) => [Done(fin, opcode, masked, closed)]
  }

  function SeenAll(cbs: seq<Callback>): seq<Event> {
    if cbs == [] then [] else SeenAll(cbs[..|cbs| - 1]) + Seen(cbs[|cbs| - 1])
  }

  /** The wire bytes of a payload as the callbacks get them, the first one being
      at key position `index`. */
  function UnmaskFrom(c: Core, index: nat, wire: seq<byte>): (s: seq<byte>)
    requires |c.key| == 4
    ensures |s| == |wire|
    ensures forall i {:trigger s[i]} :: 0 <= i < |wire| ==> s[i] == if c.hasMask then wire[i] ^ c.key[(index + i) % 4] else wire[i]
  {
    seq(|wire|, i requires 0 <= i < |wire| => if c.hasMask then wire[i] ^ c.key[(index + i) % 4] else wire[i])
  }

  /** The parser after a stretch of payload, and the completion it may bring. */
  function PayloadTaken(c: Core, n: nat): (Core, seq<Event>) {
    var c1 := Advance(c, n);
    if c1.received < c1.payloadLen then (c1, []) else FrameDone(c1)
  }

  lemma PayloadStep(c: Core, b: byte)
    requires Valid(c) && !Stopped(c) && c.state == Payload
    ensures var (c', ev) := PayloadTaken(c, 1);
            Step(c, b) == (c', [Data(Unmasked(c, b))] + ev) && Valid(c') && c'.errno == Ok
  {
    StepKeepsValid(c, b);
    assert [Data(Unmasked(c, b))] + [] == [Data(Unmasked(c, b))];
  }

  /** Taking n payload bytes at once is taking them one by one. */
  lemma {:induction false} FeedPayload(c: Core, data: seq<byte>, n: nat)
    requires Valid(c) && !Stopped(c) && c.state == Payload
    requires 0 < n <= |data| && n <= c.payloadLen - c.received
    ensures var (c', ev) := PayloadTaken(c, n);
            && Valid(c')
            && Feed(c, data) == Then(Out(c', n, DataEvents(UnmaskFrom(c, c.maskIndex, data[..n])) + ev), Feed(c', data[n..]))
    decreases n
  {
    hide *;
    ValidRanges(c);
    var (c', ev) := PayloadTaken(c, 1);
    var first := Data(Unmasked(c, data[0]));
    PayloadStep(c, data[0]);
    FeedOne(c, data[0], data[1..], c', [first] + ev);
    assert data == [data[0]] + data[1..];
    var wire := data[..n];
    UnmaskOne(c, wire);
    if n > 1 {
      MorePayload(c, n);
      FeedPayload(c', data[1..], n - 1);
      assert data[1..][..n - 1] == wire[1..] && data[1..][n - 1..] == data[n..];
      var (c2, ev2) := PayloadTaken(c, n);
      Glue(first, DataEvents(UnmaskFrom(c', c'.maskIndex, wire[1..])), ev2, c', c2, n, Feed(c2, data[n..]));
    } else {
      assert wire[1..] == [];
      NoData(Advance(c, 1), Advance(c, 1).maskIndex);
      assert [first] + [] + ev == [first] + ev;
    }
  }

  lemma ValidRanges(c: Core)
    requires Valid(c)
    ensures |c.key| == 4 && c.maskIndex < 4 && |Advance(c, 1).key| == 4
  {
  }

  lemma MorePayload(c: Core, n: nat)
    requires Valid(c) && !Stopped(c) && c.state == Payload && 1 < n <= c.payloadLen - c.received
    ensures var (c', ev) := PayloadTaken(c, 1);
            && c' == Advance(c, 1) && ev == [] && Valid(c') && !Stopped(c') && c'.state == Payload
            && n - 1 <= c'.payloadLen - c'.received && PayloadTaken(c', n - 1) == PayloadTaken(c, n)
  {
    KeyTurns(c.maskIndex, n - 1);
  }

  lemma Glue(first: Event, more: seq<Event>, ev: seq<Event>, c1: Core, c2: Core, n: nat, o: Out)
    requires n > 0
    ensures Then(Out(c1, 1, [first] + []), Then(Out(c2, n - 1, more + ev), o)) == Then(Out(c2, n, ([first] + more) + ev), o)
  {
    assert ([first] + []) + ((more + ev) + o.events) == (([first] + more) + ev) + o.events;
  }

  lemma NoData(c: Core, index: nat)
    requires |c.key| == 4
    ensures DataEvents(UnmaskFrom(c, index, [])) == []
  {
  }

  lemma KeyTurns(index: nat, i: nat)
    ensures ((index + 1) % 4 + i) % 4 == (index + (i + 1)) % 4
  {
    var q, r := (index + 1) / 4, (index + 1) % 4;
    var p, s := (r + i) / 4, (r + i) % 4;
    assert index + (i + 1) == 4 * (q + p) + s;
  }

  lemma UnmaskSplit(c: Core, wire: seq<byte>)
    requires |c.key| == 4 && c.maskIndex < 4 && wire != []
    ensures UnmaskFrom(c, c.maskIndex, wire)
         == [UnmaskFrom(c, c.maskIndex, wire[..1])[0]] + UnmaskFrom(Advance(c, 1), Advance(c, 1).maskIndex, wire[1..])
  {
    var c1 := Advance(c, 1);
    var s, t := UnmaskFrom(c, c.maskIndex, wire), UnmaskFrom(c1, c1.maskIndex, wire[1..]);
    forall i | 0 <= i < |wire| - 1 ensures t[i] == s[i + 1] {
      UnmaskAfter(c, wire, i);
    }
    assert |s| == 1 + |t| && s[0] == UnmaskFrom(c, c.maskIndex, wire[..1])[0];
    hide *;
    assert s == [s[0]] + t;
  }

  lemma UnmaskAfter(c: Core, wire: seq<byte>, i: nat)
    requires |c.key| == 4 && c.maskIndex < 4 && i + 1 < |wire|
    ensures UnmaskFrom(Advance(c, 1), Advance(c, 1).maskIndex, wire[1..])[i] == UnmaskFrom(c, c.maskIndex, wire)[i + 1]
  {
    assert wire[1..][i] == wire[i + 1];
    KeyTurns(c.maskIndex, i);
  }

  lemma UnmaskOne(c: Core, wire: seq<byte>)
    requires Valid(c) && wire != []
    ensures DataEvents(UnmaskFrom(c, c.maskIndex, wire))
         == [Data(Unmasked(c, wire[0]))] + DataEvents(UnmaskFrom(Advance(c, 1), Advance(c, 1).maskIndex, wire[1..]))
  {
    UnmaskSplit(c, wire);
    assert wire[..1][0] == wire[0] && (c.maskIndex + 0) % 4 == c.maskIndex;
    assert UnmaskFrom(c, c.maskIndex, wire[..1])[0] == Unmasked(c, wire[0]);
    hide UnmaskFrom, DataEvents, Unmasked;
    DataSplit(Unmasked(c, wire[0]), UnmaskFrom(Advance(c, 1), Advance(c, 1).maskIndex, wire[1..]));
  }

  lemma DataSplit(b: byte, bytes: seq<byte>)
    ensures DataEvents([b] + bytes) == [Data(b)] + DataEvents(bytes)
  {
  }

  // ----- the record of callback invocations

  /** Every invocation after the first `from` ones has been answered with 0. */
  ghost predicate Accepted(accept: Answers, cbs: seq<Callback>, from: nat) {
    forall k :: from < k <= |cbs| ==> accept(cbs[..k])
  }

  /** The last invocation is the only one after `from` that was not. */
  ghost predicate Refused(accept: Answers, cbs: seq<Callback>, from: nat) {
    |cbs| > from && !accept(cbs) && Accepted(accept, cbs[..|cbs| - 1], from)
  }

  lemma AcceptMore(accept: Answers, cbs: seq<Callback>, cb: Callback, from: nat)
    requires Accepted(accept, cbs, from) && from <= |cbs|
    ensures if accept(cbs + [cb]) then Accepted(accept, cbs + [cb], from) else Refused(accept, cbs + [cb], from)
  {
    var t := cbs + [cb];
    assert t[..|cbs|] == cbs && t[..|t|] == t;
    forall k | from < k <= |cbs| ensures accept(t[..k]) {
      assert t[..k] == cbs[..k];
    }
  }

  lemma SeenMore(cbs: seq<Callback>, cb: Callback, from: nat)
    requires from <= |cbs|
    ensures SeenAll((cbs + [cb])[from..]) == SeenAll(cbs[from..]) + Seen(cb)
  {
    var t := (cbs + [cb])[from..];
    assert t[..|t| - 1] == cbs[from..];
  }

  function AsCallbacks(ev: seq<Event>): (cbs: seq<Callback>)
    requires |ev| <= 1
  {
    if ev == [] then [] else
      match ev[0]
      case Begin(fin, opcode) => [OnBegin(fin, opcode)]
      case Data(b) => [OnPayload([b])]
      case Done(fin, opcode, masked, closed) => [OnComplete(fin, opcode, masked, closed)]
  }

  function Min(a: int, b: int): int { if a < b then a else b }

  /** What a stretch of payload lets the callbacks see. */
  ghost function PayloadSeen(c: Core, rest: seq<byte>): seq<Event>
    requires |c.key| == 4 && c.received <= c.payloadLen
  {
    var n := Min(c.payloadLen - c.received, |rest|);
    DataEvents(UnmaskFrom(c, c.maskIndex, rest[..n])) + PayloadTaken(c, n).1
  }

  /** The state of a run: the parser is at byte p, `seen` has been reported, and
      what is left to come is what the reference makes of the rest. */
  ghost predicate At(c0: Core, data: seq<byte>, c: Core, p: nat, seen: seq<Event>)
    requires Valid(c0) && Valid(c)
  {
    p <= |data| && Feed(c0, data) == Then(Out(c, p, seen), Feed(c, data[p..]))
  }

  /** The callbacks made so far are `before` and more, bringing `events` after
      those of `before`; after a refusal, the first of them. */
  ghost predicate Delivered(accept: Answers, from: nat, before: seq<Callback>, cbs: seq<Callback>, events: seq<Event>, ok: bool) {
    && from <= |before| <= |cbs| && before == cbs[..|before|]
    && if ok then Accepted(accept, cbs, from) && SeenAll(cbs[from..]) == SeenAll(before[from..]) + events
       else Refused(accept, cbs, from) && SeenAll(cbs[from..]) <= SeenAll(before[from..]) + events
  }

  /** The last callback has been refused: it was a batch of payload behind the first `used`
      bytes, or the completion of the frame behind all n. */
  ghost predicate PayloadRefused(c: Core, accept: Answers, from: nat, before: seq<Callback>, cbs: seq<Callback>,
                                 rest: seq<byte>, n: nat, used: nat)
    requires n <= |rest|
  {
    && |cbs| > |before| && used <= n && |c.key| == 4
    && Delivered(accept, from, before, cbs[..|cbs| - 1], DataEvents(UnmaskFrom(c, c.maskIndex, rest[..used])), true)
    && var last := cbs[|cbs| - 1];
       if used < n then last.OnPayload? else last.OnComplete? && PayloadTaken(c, n).1 == Seen(last)
  }

  /** What a stretch of payload comes to: all that belongs to the frame is delivered and
      counted, or a callback has been refused. */
  ghost predicate PayloadResult(c: Core, accept: Answers, from: nat, before: seq<Callback>, cbs: seq<Callback>,
                                rest: seq<byte>, d: Core, used: nat, goOn: bool)
  {
    && |c.key| == 4 && c.received < c.payloadLen
    && var n := Min(c.payloadLen - c.received, |rest|);
       && used <= n
       && Delivered(accept, from, before, cbs, PayloadSeen(c, rest), Accepted(accept, cbs, from))
       && (if Accepted(accept, cbs, from) then used == n && d == PayloadTaken(c, n).0 && goOn == !Stopped(d)
           else d.errno == Unknown && !goOn && Valid(d)
                && PayloadRefused(c, accept, from, before, cbs, rest, n, used))
  }

  /** The payload callbacks after those in `before` get 4096 bytes each, and the last one of a
      payload of len bytes what is left of it. */
  ghost predicate InBatches(before: seq<Callback>, cbs: seq<Callback>, len: nat) {
    forall k :: |before| <= k < |cbs| ==>
      var left := len - 4096 * (k - |before|);
      cbs[k].OnPayload? && |cbs[k].bytes| == Min(4096, left) && left > 0
  }

  /** A run has taken p bytes, brought `seen` and led to c. */
  ghost predicate Front(c0: Core, data: seq<byte>, c: Core, p: nat, seen: seq<Event>)
    requires Valid(c0)
  {
    p <= |data| && Feed(c0, data[..p]) == Out(c, p, seen)
  }

  /** The events of the first n bytes. */
  ghost function EventsOf(c0: Core, data: seq<byte>, n: nat): seq<Event>
    requires Valid(c0) && n <= |data|
  {
    Feed(c0, data[..n]).events
  }

  /** Where a call stops whose callback `last` is refused, `heard` having been accepted: in
      front of the byte that brings the refused event, or behind it when that is the
      completion of a frame. */
  ghost predicate Halted(c0: Core, data: seq<byte>, heard: seq<Event>, last: Callback, n: nat)
    requires Valid(c0)
  {
    if last.OnComplete? then
      0 < n <= |data| && EventsOf(c0, data, n) == heard + Seen(last) && |EventsOf(c0, data, n - 1)| <= |heard|
    else
      n < |data| && EventsOf(c0, data, n) == heard && |EventsOf(c0, data, n + 1)| > |heard|
  }

  /** What has been heard after the first `from` callbacks, without the last one. */
  function Heard(cbs: seq<Callback>, from: nat): seq<Event>
    requires from < |cbs|
  {
    SeenAll(cbs[from..|cbs| - 1])
  }

  /** The parser structure, with the callbacks' view of it recorded in `calls`. */
  class Parser {
    var state: State
    var opcode: byte
    var fin: bool
    var mask: bool
    var hasMask: bool
    var lenType: nat
    var payloadLen: nat
    var received: nat
    var key: seq<byte>
    var maskIndex: nat
    var errno: Errno
    var closeReceived: bool
    var calls: seq<Callback>

    function Fields(): Core
      reads this
    {
      Core(state, fin, opcode, mask, hasMask, lenType, payloadLen, received, key, maskIndex, errno, closeReceived)
    }

    /** ez_websocket_parser_init */
    constructor ()
      ensures Fields() == INITIAL && Valid(Fields()) && calls == []
    {
      state, opcode, fin, mask, hasMask := FrameStart, 0, false, false, false;
      lenType, payloadLen, received, key, maskIndex := 0, 0, 0, NO_KEY, 0;
      errno, closeReceived, calls := Ok, false, [];
    }

    method Notify(cb: Callback, accept: Answers) returns (ok: bool)
      modifies this`calls
      ensures calls == old(calls) + [cb] && ok == accept(calls)
    {
      calls := calls + [cb];
      ok := accept(calls);
    }

    /** How the state after a header byte relates to the reference: at most one
        callback, and unless it refuses the fields are those of the reference. */
    ghost predicate Outcome(accept: Answers, before: seq<Callback>, c: Core, ev: seq<Event>, goOn: bool)
      reads this
    {
      && |ev| <= 1
      && calls == before + AsCallbacks(ev)
      && if ev == [] || accept(calls) then Fields() == c && goOn == !Stopped(c)
         else errno == Unknown && !goOn && Valid(Fields())
    }

    /** handle_frame_complete; true stands for the result 0. */
    method HandleFrameComplete(accept: Answers) returns (goOn: bool)
      requires state == Complete && Ranges(Fields().(closed := false))
      modifies this
      ensures var (c', ev) := FrameDone(old(Fields()));
              Outcome(accept, old(calls), c', ev, goOn)
    {
      if opcode == CLOSE {
        closeReceived := true;
      }
      var ok := Notify(OnComplete(fin, opcode, hasMask, closeReceived), accept);
      if !ok {
        errno := Unknown;
        return false;
      }
      if closeReceived {
        return false;
      }
      NextFrame();
      return true;
    }

    method NextFrame()
      modifies this
      ensures Fields() == Reset(old(Fields())) && calls == old(calls)
    {
      state, fin, opcode, mask, hasMask := FrameStart, false, 0, false, false;
      payloadLen, received, maskIndex, lenType := 0, 0, 0, 0;
    }

    /** What follows the last length byte. */
    method LengthKnown(accept: Answers) returns (goOn: bool)
      requires Ranges(Fields())
      modifies this
      ensures var (c', ev) := AfterLength(old(Fields()));
              Outcome(accept, old(calls), c', ev, goOn)
    {
      if mask {
        state := MaskKey(1);
        return true;
      }
      maskIndex, key := 0, NO_KEY;
      if payloadLen == 0 {
        state := Complete;
        goOn := HandleFrameComplete(accept);
      } else {
        state := Payload;
        goOn := true;
      }
    }

    method OnFrameStart(ch: byte, accept: Answers) returns (taken: bool)
      requires Valid(Fields()) && !Stopped(Fields()) && state == FrameStart
      modifies this
      ensures var (c', ev) := Step(old(Fields()), ch);
              Outcome(accept, old(calls), c', ev, taken)
    {
      hide Step, ValidOpcode, TopBit, FrameDone;
      ghost var c := Fields();
      StartStep(c, ch);
      fin, opcode := TopBit(ch), ch & 0x0F;
      if opcode > 0x0A || (opcode > 0x02 && opcode < 0x08) {
        errno := InvalidOpcode;
        return false;
      }
      var ok := Notify(OnBegin(fin, opcode), accept);
      if !ok {
        errno := Unknown;
        return false;
      }
      state := FrameOpcode;
      return true;
    }

    method OnFrameOpcode(ch: byte, accept: Answers) returns (goOn: bool)
      requires Valid(Fields()) && !Stopped(Fields()) && state == FrameOpcode
      modifies this
      ensures var (c', ev) := Step(old(Fields()), ch);
              Outcome(accept, old(calls), c', ev, goOn)
    {
      hide Step, AfterLength, Valid, Ranges, TopBit, Len7, Stopped, Outcome;
      ghost var c := Fields();
      OpcodeByteStep(c, ch);
      mask := TopBit(ch);
      hasMask := mask;
      payloadLen := Len7(ch);
      if payloadLen < 126 {
        lenType, received := 0, 0;
        assert Step(c, ch) == AfterLength(Fields());
        goOn := LengthKnown(accept);
      } else {
        if payloadLen == 126 {
          lenType, payloadLen, state := 1, 0, PayloadLen16(1);
        } else {
          lenType, payloadLen, state := 2, 0, PayloadLen64(1);
        }
        goOn := true;
        assert Step(c, ch) == (Fields(), []);
        Quiet(accept);
      }
    }

    /** Going on without a callback. */
    lemma Quiet(accept: Answers)
      requires !Stopped(Fields())
      ensures Outcome(accept, calls, Fields(), [], true)
    {
    }

    method OnLength16(ch: byte, accept: Answers) returns (goOn: bool)
      requires Valid(Fields()) && !Stopped(Fields()) && state.PayloadLen16?
      modifies this
      ensures var (c', ev) := Step(old(Fields()), ch);
              Outcome(accept, old(calls), c', ev, goOn)
    {
      var i := state.i;
      LengthStep16(Fields(), ch, i, payloadLen + Placed(ch, 2, i));
      hide Step, AfterLength, Placed, Valid, Ranges;
      payloadLen := payloadLen + Placed(ch, 2, i);
      if i < 2 {
        state := PayloadLen16(i + 1);
        goOn := true;
      } else {
        received := 0;
        goOn := LengthKnown(accept);
      }
    }

    method OnLength64(ch: byte, accept: Answers) returns (goOn: bool)
      requires Valid(Fields()) && !Stopped(Fields()) && state.PayloadLen64?
      modifies this
      ensures var (c', ev) := Step(old(Fields()), ch);
              Outcome(accept, old(calls), c', ev, goOn)
    {
      var i := state.i;
      LengthStep64(Fields(), ch, i, payloadLen + Placed(ch, 8, i));
      hide Step, AfterLength, Placed, Valid, Ranges;
      payloadLen := payloadLen + Placed(ch, 8, i);
      if i < 8 {
        state := PayloadLen64(i + 1);
        goOn := true;
      } else {
        received := 0;
        goOn := LengthKnown(accept);
      }
    }

    method OnMaskKey(ch: byte, accept: Answers) returns (goOn: bool)
      requires Valid(Fields()) && !Stopped(Fields()) && state.MaskKey?
      modifies this
      ensures var (c', ev) := Step(old(Fields()), ch);
              Outcome(accept, old(calls), c', ev, goOn)
    {
      var i := state.i;
      key := key[i - 1 := ch];
      if i == 1 {
        maskIndex := 0;
      }
      if i < 4 {
        state := MaskKey(i + 1);
        return true;
      }
      received := 0;
      if payloadLen == 0 {
        state := Complete;
        goOn := HandleFrameComplete(accept);
      } else {
        state := Payload;
        goOn := true;
      }
    }

    /** The last callback is the one that was refused; those before it have brought the first
        `processed` bytes of the payload. */
    ghost predicate BatchRefused(accept: Answers, from: nat, before: seq<Callback>, wire: seq<byte>, processed: nat)
      reads this
    {
      && |calls| > |before| && calls[|calls| - 1].OnPayload? && processed < |wire| && |key| == 4
      && Delivered(accept, from, before, calls[..|calls| - 1], DataEvents(UnmaskFrom(Fields(), maskIndex, wire[..processed])), true)
    }

    /** The payload callback on masked data: batches go through a fixed buffer in
        which the mask is applied. */
    method DeliverMasked(wire: seq<byte>, accept: Answers, ghost from: nat) returns (ok: bool, processed: nat)
      requires Valid(Fields()) && hasMask && from <= |calls| && Accepted(accept, calls, from)
      modifies this`calls
      ensures processed <= |wire| && (ok ==> processed == |wire|)
      ensures Delivered(accept, from, old(calls), calls, DataEvents(UnmaskFrom(Fields(), maskIndex, wire)), ok)
      ensures InBatches(old(calls), calls, |wire|)
      ensures !ok ==> BatchRefused(accept, from, old(calls), wire, processed)
    {
      hide Valid, SeenAll, DataEvents, UnmaskFrom, Accepted, Refused, Delivered;
      ValidRanges(Fields());
      ghost var c := Fields();
      DeliverNothing(c, accept, from, calls, wire);
      var temp := new byte[BATCH];
      processed := 0;
      while processed < |wire|
        invariant processed <= |wire| && |calls| >= |old(calls)|
        invariant Delivered(accept, from, old(calls), calls, DataEvents(UnmaskFrom(c, maskIndex, wire[..processed])), true)
        invariant processed == Min(|wire|, 4096 * (|calls| - |old(calls)|)) && InBatches(old(calls), calls, |wire|)
      {
        var chunk := if |wire| - processed > BATCH then BATCH else |wire| - processed;
        var piece := wire[processed..processed + chunk];
        UnmaskBatch(temp, piece, maskIndex + processed);
        UnmaskConcat(c, maskIndex, wire, processed, processed + chunk);
        DeliverMore(accept, from, old(calls), calls, DataEvents(UnmaskFrom(c, maskIndex, wire[..processed])), temp[..chunk]);
        ghost var heard := calls;
        ok := Notify(OnPayload(temp[..chunk]), accept);
        if !ok {
          assert calls[..|calls| - 1] == heard;
          RestUnseen(c, accept, from, old(calls), calls, wire, processed + chunk);
          return false, processed;
        }
        processed := processed + chunk;
      }
      assert wire[..processed] == wire;
      ok := true;
    }

    /** A batch is copied into the fixed buffer and unmasked there. */
    method UnmaskBatch(temp: array<byte>, piece: seq<byte>, index: nat)
      requires |key| == 4 && hasMask && |piece| <= temp.Length
      modifies temp
      ensures temp[..|piece|] == UnmaskFrom(Fields(), index, piece)
    {
      forall i | 0 <= i < |piece| { temp[i] := piece[i]; }
      ApplyMask(temp, |piece|, key, index);
    }

    /** A stretch of payload: as much of `rest` as belongs to this frame. */
    method TakePayload(rest: seq<byte>, accept: Answers, ghost from: nat) returns (used: nat, goOn: bool)
      requires Valid(Fields()) && !Stopped(Fields()) && state == Payload && rest != []
      requires from <= |calls| && Accepted(accept, calls, from)
      modifies this
      ensures PayloadResult(old(Fields()), accept, from, old(calls), calls, rest, Fields(), used, goOn)
    {
      hide SeenAll, DataEvents, UnmaskFrom, Accepted, Refused, Delivered, PayloadTaken;
      ghost var c, before := Fields(), calls;
      var n := Min(payloadLen - received, |rest|);
      var ok, processed := Deliver(rest[..n], accept, from);
      ghost var bytes := DataEvents(UnmaskFrom(c, c.maskIndex, rest[..n]));
      if !ok {
        MoreUnseen(accept, from, before, calls, bytes, PayloadTaken(c, n).1);
        assert rest[..n][..processed] == rest[..processed];
        errno := Unknown;
        return processed, false;
      }
      used := n;
      ghost var mid := calls;
      goOn := CountPayload(n, accept);
      OutcomeDelivered(accept, from, before, mid, bytes, calls, PayloadTaken(c, n).1);
      LastCallback(c, n, mid, calls);
    }

    /** The bookkeeping after a stretch of payload has been delivered. */
    method CountPayload(n: nat, accept: Answers) returns (goOn: bool)
      requires Valid(Fields()) && !Stopped(Fields()) && state == Payload && 0 < n <= payloadLen - received
      modifies this
      ensures var (c', ev) := PayloadTaken(old(Fields()), n);
              Outcome(accept, old(calls), c', ev, goOn)
    {
      received := received + n;
      if hasMask {
        maskIndex := (maskIndex + n) % 4;
      }
      if received >= payloadLen {
        state := Complete;
        goOn := HandleFrameComplete(accept);
      } else {
        goOn := true;
      }
    }

    /** The payload callback: one invocation for plain data, batches for masked. */
    method Deliver(wire: seq<byte>, accept: Answers, ghost from: nat) returns (ok: bool, processed: nat)
      requires Valid(Fields()) && wire != [] && from <= |calls| && Accepted(accept, calls, from)
      modifies this`calls
      ensures processed <= |wire| && ok == Accepted(accept, calls, from)
      ensures Delivered(accept, from, old(calls), calls, DataEvents(UnmaskFrom(Fields(), maskIndex, wire)), ok)
      ensures if hasMask then InBatches(old(calls), calls, |wire|) else calls == old(calls) + [OnPayload(wire)]
      ensures !ok ==> BatchRefused(accept, from, old(calls), wire, processed)
    {
      if hasMask {
        ok, processed := DeliverMasked(wire, accept, from);
      } else {
        ghost var c := Fields();
        DeliverNothing(c, accept, from, calls, wire);
        DeliverMore(accept, from, calls, calls, DataEvents(UnmaskFrom(c, maskIndex, wire[..0])), wire);
        UnmaskConcat(c, maskIndex, wire, 0, |wire|);
        assert wire[..|wire|] == wire && UnmaskFrom(c, maskIndex, wire) == wire;
        ghost var heard := calls;
        ok := Notify(OnPayload(wire), accept);
        processed := if ok then |wire| else 0;
        assert calls[..|calls| - 1] == heard && wire[..0] == [];
      }
      RefusedNotAccepted(accept, calls, from);
    }

    /** One byte of a frame header, whatever part of it. */
    method TakeHeader(ch: byte, accept: Answers) returns (goOn: bool)
      requires Valid(Fields()) && !Stopped(Fields()) && state != Payload
      modifies this
      ensures var (c', ev) := Step(old(Fields()), ch);
              Outcome(accept, old(calls), c', ev, goOn)
    {
      hide Step, Outcome;
      match state
      case FrameStart => goOn := OnFrameStart(ch, accept);
      case FrameOpcode => goOn := OnFrameOpcode(ch, accept);
      case PayloadLen16(_) => goOn := OnLength16(ch, accept);
      case PayloadLen64(_) => goOn := OnLength64(ch, accept);
      case MaskKey(_) => goOn := OnMaskKey(ch, accept);
    }

    /** ez_websocket_parser_execute.  While the callbacks answer 0, a call does to
        the fields, consumes and reports exactly what the reference says; when one
        refuses, the parser is in error and what was reported is an initial part. */
    method Execute(data: seq<byte>, accept: Answers) returns (consumed: nat)
      requires Valid(Fields())
      modifies this
      ensures Valid(Fields())
      ensures var o := Call(old(Fields()), data);
              var from := |old(calls)|;
              && Delivered(accept, from, old(calls), calls, o.events, Accepted(accept, calls, from))
              && (if Accepted(accept, calls, from) then Fields() == o.core && consumed == o.consumed
                  else errno == Unknown && consumed <= o.consumed)
      ensures !Accepted(accept, calls, |old(calls)|) ==>
                && |calls| > |old(calls)|
                && if old(state) == Complete then consumed == 0
                   else Halted(old(Fields()), data, Heard(calls, |old(calls)|), calls[|calls| - 1], consumed)
    {
      hide Valid, Step, Feed, SeenAll, Accepted, Refused, Delivered, DataEvents, UnmaskFrom, PayloadTaken, At, AsCallbacks;
      hide Front, Halted, Heard, PayloadRefused;
      ghost var c0, before := Fields(), calls;
      ghost var from := |before|;
      NothingYet(accept, before);
      if errno != Ok || |data| == 0 {
        return 0;
      }
      if state == Complete {
        ClosedState(c0);
        var _ := HandleFrameComplete(accept);
        OutcomeDelivered(accept, from, before, before, [], calls, FrameDone(c0).1);
        assert [] + FrameDone(c0).1 == Call(c0, data).events;
        assert |calls| <= |before| ==> calls == before;
        return 0;
      }
      consumed := TakeAll(data, accept);
      EndedMeans(accept, before, c0, data, calls, Fields(), consumed);
    }

    /** The loop over a buffer that is not empty, with a parser that has not ended. */
    method TakeAll(data: seq<byte>, accept: Answers) returns (consumed: nat)
      requires Valid(Fields()) && errno == Ok && data != [] && state != Complete
      modifies this
      ensures Ended(accept, old(calls), old(Fields()), data, calls, Fields(), consumed)
    {
      ghost var c0, before := Fields(), calls;
      NotEnded(accept, before, c0, data);
      hide *;
      var p, goOn := 0, true;
      ghost var seen: seq<Event> := [];
      while p < |data|
        invariant p <= |data| && Going(accept, before, c0, data, calls, Fields(), p, seen)
        decreases |data| - p
      {
        GoingMeans(accept, before, c0, data, calls, Fields(), p, seen);
        if state == Payload {
          p, goOn, seen := PayloadMove(c0, data, p, accept, before, seen);
        } else {
          p, goOn, seen := HeaderMove(c0, data, p, accept, before, seen);
        }
        if !goOn {
          return p;
        }
      }
      AllTaken(accept, before, c0, data, calls, Fields(), p, seen);
      return p;
    }

    /** The case of the loop that is inside a payload. */
    method PayloadMove(ghost c0: Core, data: seq<byte>, p: nat, accept: Answers, ghost before: seq<Callback>, ghost seen: seq<Event>)
      returns (p': nat, goOn: bool, ghost seen': seq<Event>)
      requires p < |data| && state == Payload && Going(accept, before, c0, data, calls, Fields(), p, seen)
      modifies this
      ensures if goOn then p < p' <= |data| && Going(accept, before, c0, data, calls, Fields(), p', seen')
              else Ended(accept, before, c0, data, calls, Fields(), p')
    {
      hide *;
      ghost var c, mid := Fields(), calls;
      GoingMeans(accept, before, c0, data, mid, c, p, seen);
      SameState();
      var used;
      used, goOn := TakePayload(data[p..], accept, |before|);
      p' := p + used;
      PayloadMoved(accept, before, c0, data, mid, c, p, seen, calls, Fields(), used, goOn);
      seen' := seen + PayloadSeen(c, data[p..]);
    }

    lemma SameState()
      ensures Fields().state == state
    {
    }

    lemma OutcomeMeans(accept: Answers, before: seq<Callback>, c: Core, ev: seq<Event>, goOn: bool)
      requires Outcome(accept, before, c, ev, goOn)
      ensures |ev| <= 1 && calls == before + AsCallbacks(ev)
      ensures if ev == [] || accept(calls) then Fields() == c && goOn == !Stopped(c)
              else Fields().errno == Unknown && !goOn && Valid(Fields())
    {
    }

    /** The other cases of the loop. */
    method HeaderMove(ghost c0: Core, data: seq<byte>, p: nat, accept: Answers, ghost before: seq<Callback>, ghost seen: seq<Event>)
      returns (p': nat, goOn: bool, ghost seen': seq<Event>)
      requires p < |data| && state != Payload && Going(accept, before, c0, data, calls, Fields(), p, seen)
      modifies this
      ensures if goOn then p < p' <= |data| && Going(accept, before, c0, data, calls, Fields(), p', seen')
              else Ended(accept, before, c0, data, calls, Fields(), p')
    {
      hide *;
      ghost var c, mid := Fields(), calls;
      GoingMeans(accept, before, c0, data, mid, c, p, seen);
      SameState();
      var atStart := state == FrameStart;
      goOn := TakeHeader(data[p], accept);
      OutcomeMeans(accept, mid, Step(c, data[p]).0, Step(c, data[p]).1, goOn);
      p' := if atStart && !goOn then p else p + 1;
      seen' := seen + Step(c, data[p]).1;
      HeaderMoved(accept, before, c0, data, mid, c, p, seen, calls, Fields(), goOn);
    }
  }

  /** The loop is at byte p, every callback has been answered with 0, and the run has been
      followed so far. */
  ghost predicate Going(accept: Answers, before: seq<Callback>, c0: Core, data: seq<byte>,
                        cbs: seq<Callback>, c: Core, p: nat, seen: seq<Event>)
  {
    && Valid(c0) && Valid(c) && !Stopped(c) && c.state != Complete && |before| <= |cbs|
    && Accepted(accept, cbs, |before|) && Delivered(accept, |before|, before, cbs, seen, true)
    && At(c0, data, c, p, seen) && Front(c0, data, c, p, seen)
  }

  /** The loop has ended at byte p with the fields c: as the reference does, or in error
      because the last callback was refused. */
  ghost predicate Ended(accept: Answers, before: seq<Callback>, c0: Core, data: seq<byte>, cbs: seq<Callback>, c: Core, p: nat) {
    && Valid(c0) && Valid(c)
    && var o := Feed(c0, data);
       && Delivered(accept, |before|, before, cbs, o.events, Accepted(accept, cbs, |before|))
       && (if Accepted(accept, cbs, |before|) then c == o.core && p == o.consumed
           else c.errno == Unknown && p <= o.consumed && |cbs| > |before|
                && Halted(c0, data, Heard(cbs, |before|), cbs[|cbs| - 1], p))
  }

  lemma GoingMeans(accept: Answers, before: seq<Callback>, c0: Core, data: seq<byte>,
                   cbs: seq<Callback>, c: Core, p: nat, seen: seq<Event>)
    requires Going(accept, before, c0, data, cbs, c, p, seen)
    ensures Valid(c) && !Stopped(c) && c.state != Complete && |before| <= |cbs| && Accepted(accept, cbs, |before|)
  {
  }

  lemma EndedMeans(accept: Answers, before: seq<Callback>, c0: Core, data: seq<byte>, cbs: seq<Callback>, c: Core, p: nat)
    requires Ended(accept, before, c0, data, cbs, c, p)
    ensures Valid(c0) && Valid(c)
    ensures var o := Feed(c0, data);
            && Delivered(accept, |before|, before, cbs, o.events, Accepted(accept, cbs, |before|))
            && (if Accepted(accept, cbs, |before|) then c == o.core && p == o.consumed
                else c.errno == Unknown && p <= o.consumed && |cbs| > |before|
                     && Halted(c0, data, Heard(cbs, |before|), cbs[|cbs| - 1], p))
  {
  }

  lemma NotEnded(accept: Answers, before: seq<Callback>, c0: Core, data: seq<byte>)
    requires Valid(c0) && c0.errno == Ok && c0.state != Complete
    ensures Going(accept, before, c0, data, before, c0, 0, [])
  {
    NothingYet(accept, before);
    ClosedState(c0);
    StartFeed(c0, data);
    StartFront(c0, data);
    hide Valid, Feed, Accepted, Delivered, At, Front;
  }

  lemma AllTaken(accept: Answers, before: seq<Callback>, c0: Core, data: seq<byte>,
                 cbs: seq<Callback>, c: Core, p: nat, seen: seq<Event>)
    requires p >= |data| && Going(accept, before, c0, data, cbs, c, p, seen)
    ensures Ended(accept, before, c0, data, cbs, c, p)
  {
    hide Valid, Stopped, Feed, Accepted, Delivered, Front, Halted, Heard;
    AtEnd(c0, data, c, p, seen);
  }

  lemma PayloadMoved(accept: Answers, before: seq<Callback>, c0: Core, data: seq<byte>, mid: seq<Callback>, c: Core, p: nat,
                     seen: seq<Event>, cbs: seq<Callback>, d: Core, used: nat, goOn: bool)
    requires Going(accept, before, c0, data, mid, c, p, seen) && p < |data| && c.state == Payload
    requires PayloadResult(c, accept, |before|, mid, cbs, data[p..], d, used, goOn)
    ensures |c.key| == 4 && c.received < c.payloadLen && p + used <= |data|
    ensures if goOn then used > 0 && Going(accept, before, c0, data, cbs, d, p + used, seen + PayloadSeen(c, data[p..]))
            else Ended(accept, before, c0, data, cbs, d, p + used)
  {
    hide Valid, Stopped, Feed, Accepted, Delivered, DataEvents, UnmaskFrom, PayloadTaken, PayloadRefused, Front, At, Halted, Heard, PayloadSeen;
    var n := Min(c.payloadLen - c.received, |data| - p);
    var (c', now) := (PayloadTaken(c, n).0, seen + PayloadSeen(c, data[p..]));
    PayloadAt(c0, data, p, seen, c);
    SeenIs(c, data[p..], n);
    DeliveredMore(accept, before, mid, cbs, seen, PayloadSeen(c, data[p..]), Accepted(accept, cbs, |before|));
    if !Accepted(accept, cbs, |before|) {
      PayloadHalted(accept, c0, data, p, seen, c, before, mid, cbs, used);
      UnseenRest(accept, before, cbs, c0, data, c', p + n, now);
    } else if goOn {
      PayloadFront(c0, data, p, seen, c, n);
      NoFewer(accept, before, cbs, now);
      NotClosed(d);
    } else {
      AtEnd(c0, data, c', p + used, now);
    }
  }

  lemma SeenIs(c: Core, rest: seq<byte>, n: nat)
    requires |c.key| == 4 && c.received <= c.payloadLen && n == Min(c.payloadLen - c.received, |rest|)
    ensures PayloadSeen(c, rest) == DataEvents(UnmaskFrom(c, c.maskIndex, rest[..n])) + PayloadTaken(c, n).1
  {
  }

  lemma NotClosed(c: Core)
    requires Valid(c) && !Stopped(c)
    ensures c.state != Complete && c.errno == Ok
  {
  }

  lemma HeaderMoved(accept: Answers, before: seq<Callback>, c0: Core, data: seq<byte>, mid: seq<Callback>, c: Core, p: nat,
                    seen: seq<Event>, cbs: seq<Callback>, d: Core, goOn: bool)
    requires Going(accept, before, c0, data, mid, c, p, seen) && p < |data| && c.state != Payload
    requires var (c', ev) := Step(c, data[p]);
             && |ev| <= 1 && cbs == mid + AsCallbacks(ev)
             && if ev == [] || accept(cbs) then d == c' && goOn == !Stopped(c') else d.errno == Unknown && !goOn && Valid(d)
    ensures var (p', now) := (if c.state == FrameStart && !goOn then p else p + 1, seen + Step(c, data[p]).1);
            if goOn then p < p' <= |data| && Going(accept, before, c0, data, cbs, d, p', now)
            else Ended(accept, before, c0, data, cbs, d, p')
  {
    hide Valid, Stopped, Feed, Step, Accepted, Delivered, AsCallbacks, Front, At, Halted, Heard;
    var (c', ev) := Step(c, data[p]);
    var now := seen + ev;
    OneCallback(c, data[p]);
    HeaderAt(c0, data, p, seen, c);
    OutcomeDelivered(accept, |before|, before, mid, seen, cbs, ev);
    if !Accepted(accept, cbs, |before|) {
      HeaderHalted(accept, c0, data, p, seen, c, before, mid, cbs);
      UnseenRest(accept, before, cbs, c0, data, c', if c'.errno == Ok then p + 1 else p, now);
    } else if goOn {
      HeaderFront(c0, data, p, seen, c);
      NoFewer(accept, before, cbs, now);
      NotClosed(d);
    } else {
      AtEnd(c0, data, c', if c'.errno == Ok then p + 1 else p, now);
    }
  }

  lemma StartFront(c0: Core, data: seq<byte>)
    requires Valid(c0)
    ensures Front(c0, data, c0, 0, [])
  {
    assert data[..0] == [];
  }

  /** A run that has been followed up to p goes on. */
  lemma FrontMore(c0: Core, data: seq<byte>, p: nat, seen: seq<Event>, c: Core, n: nat, d: Core, ev: seq<Event>)
    requires Valid(c0) && Valid(c) && Front(c0, data, c, p, seen) && p + n <= |data|
    requires Feed(c, data[p..p + n]) == Out(d, n, ev)
    ensures Front(c0, data, d, p + n, seen + ev)
  {
    hide Feed, Valid;
    FeedSplit(c0, data[..p], data[p..p + n]);
    assert data[..p] + data[p..p + n] == data[..p + n];
  }

  lemma HeaderFront(c0: Core, data: seq<byte>, p: nat, seen: seq<Event>, c: Core)
    requires Valid(c0) && Valid(c) && !Stopped(c) && p < |data| && Front(c0, data, c, p, seen)
    ensures var (c', ev) := Step(c, data[p]);
            c'.errno == Ok ==> Front(c0, data, c', p + 1, seen + ev)
  {
    hide Feed, Valid, Step, Front, Stopped;
    var (c', ev) := Step(c, data[p]);
    StepKeepsValid(c, data[p]);
    if c'.errno == Ok {
      FeedOne(c, data[p], [], c', ev);
      FeedStopped(c', []);
      NothingMore(c', 1, ev);
      assert data[p..p + 1] == [data[p]] + [];
      FrontMore(c0, data, p, seen, c, 1, c', ev);
    }
  }

  lemma NothingMore(c: Core, n: nat, ev: seq<Event>)
    ensures Then(Out(c, n, ev), Out(c, 0, [])) == Out(c, n, ev)
  {
    assert ev + [] == ev;
  }

  /** Any stretch of payload up to the end of the frame. */
  lemma PayloadFront(c0: Core, data: seq<byte>, p: nat, seen: seq<Event>, c: Core, n: nat)
    requires Valid(c0) && Valid(c) && !Stopped(c) && c.state == Payload && p < |data| && Front(c0, data, c, p, seen)
    requires n <= c.payloadLen - c.received && p + n <= |data|
    ensures |c.key| == 4
    ensures var wire := UnmaskFrom(c, c.maskIndex, data[p..][..n]);
            if n == 0 then Front(c0, data, c, p, seen + DataEvents(wire))
            else Front(c0, data, PayloadTaken(c, n).0, p + n, seen + (DataEvents(wire) + PayloadTaken(c, n).1))
  {
    PayloadRanges(c);
    hide Feed, Valid, Front, Stopped, PayloadTaken, UnmaskFrom, DataEvents;
    var s := data[p..p + n];
    assert data[p..][..n] == s;
    if n == 0 {
      NoData(c, c.maskIndex);
      assert seen + [] == seen;
    } else {
      FeedPayload(c, s, n);
      var (c', ev) := PayloadTaken(c, n);
      assert s[..n] == s && s[n..] == [];
      FeedStopped(c', []);
      NothingMore(c', n, DataEvents(UnmaskFrom(c, c.maskIndex, s)) + ev);
      FrontMore(c0, data, p, seen, c, n, c', DataEvents(UnmaskFrom(c, c.maskIndex, s)) + ev);
    }
  }

  lemma HeardIs(accept: Answers, before: seq<Callback>, cbs: seq<Callback>, events: seq<Event>)
    requires |cbs| > |before| && Delivered(accept, |before|, before, cbs[..|cbs| - 1], events, true)
    ensures Heard(cbs, |before|) == events
  {
    assert cbs[..|cbs| - 1][|before|..] == cbs[|before|..|cbs| - 1] && before[|before|..] == [];
    assert [] + events == events;
  }

  /** A header callback is refused: the begin of a frame in front of its byte, the completion
      behind the last byte of the header. */
  lemma HeaderHalted(accept: Answers, c0: Core, data: seq<byte>, p: nat, seen: seq<Event>, c: Core,
                     before: seq<Callback>, mid: seq<Callback>, cbs: seq<Callback>)
    requires Valid(c0) && Valid(c) && !Stopped(c) && c.state != Payload && p < |data| && Front(c0, data, c, p, seen)
    requires Delivered(accept, |before|, before, mid, seen, true)
    requires |Step(c, data[p]).1| <= 1 && cbs == mid + AsCallbacks(Step(c, data[p]).1) && !Accepted(accept, cbs, |before|)
    ensures |cbs| > |before|
    ensures Halted(c0, data, Heard(cbs, |before|), cbs[|cbs| - 1], if c.state == FrameStart then p else p + 1)
  {
    hide Feed, Valid, Step, Stopped, SeenAll, Accepted, Delivered, AsCallbacks, Heard;
    var (c', ev) := Step(c, data[p]);
    HeaderEvent(c, data[p]);
    HeaderFront(c0, data, p, seen, c);
    RefusedOne(accept, before, mid, cbs, seen, ev);
    HeardIs(accept, before, cbs, seen);
  }

  lemma HeaderEvent(c: Core, b: byte)
    requires Valid(c) && !Stopped(c) && c.state != Payload
    ensures var (c', ev) := Step(c, b);
            ev != [] ==> c'.errno == Ok && |ev| == 1 && (if c.state == FrameStart then ev[0].Begin? else ev[0].Done?)
  {
    hide Valid, Weight;
  }

  lemma RefusedOne(accept: Answers, before: seq<Callback>, mid: seq<Callback>, cbs: seq<Callback>, seen: seq<Event>, ev: seq<Event>)
    requires Delivered(accept, |before|, before, mid, seen, true) && |ev| <= 1 && cbs == mid + AsCallbacks(ev)
    requires !Accepted(accept, cbs, |before|)
    ensures ev != [] && |cbs| > |before| && cbs[..|cbs| - 1] == mid && Seen(cbs[|cbs| - 1]) == ev
    ensures ev[0].Begin? ==> cbs[|cbs| - 1].OnBegin?
    ensures ev[0].Done? ==> cbs[|cbs| - 1].OnComplete?
  {
    assert ev == [] ==> cbs == mid;
  }

  /** A payload callback is refused, or the completion of the frame behind its payload. */
  lemma PayloadHalted(accept: Answers, c0: Core, data: seq<byte>, p: nat, seen: seq<Event>, c: Core,
                      before: seq<Callback>, mid: seq<Callback>, cbs: seq<Callback>, used: nat)
    requires Valid(c0) && Valid(c) && !Stopped(c) && c.state == Payload && p < |data| && Front(c0, data, c, p, seen)
    requires c.received < c.payloadLen && Delivered(accept, |before|, before, mid, seen, true)
    requires PayloadRefused(c, accept, |before|, mid, cbs, data[p..], Min(c.payloadLen - c.received, |data| - p), used)
    ensures |cbs| > |before| && Halted(c0, data, Heard(cbs, |before|), cbs[|cbs| - 1], p + used)
  {
    hide Feed, Valid, Stopped, SeenAll, Delivered, UnmaskFrom, DataEvents, PayloadTaken, Heard, Front, Halted;
    var heard := DataEvents(UnmaskFrom(c, c.maskIndex, data[p..][..used]));
    NoFewer(accept, before, mid, seen);
    DeliveredMore(accept, before, mid, cbs[..|cbs| - 1], seen, heard, true);
    HeardIs(accept, before, cbs, seen + heard);
    if used < Min(c.payloadLen - c.received, |data| - p) {
      BatchHalted(c0, data, p, seen, c, used, cbs[|cbs| - 1]);
    } else {
      CompletionHalted(c0, data, p, seen, c, used, cbs[|cbs| - 1]);
    }
  }

  lemma NoFewer(accept: Answers, before: seq<Callback>, mid: seq<Callback>, seen: seq<Event>)
    requires Delivered(accept, |before|, before, mid, seen, true)
    ensures |before| <= |mid|
  {
  }

  lemma BatchHalted(c0: Core, data: seq<byte>, p: nat, seen: seq<Event>, c: Core, used: nat, last: Callback)
    requires Valid(c0) && Valid(c) && !Stopped(c) && c.state == Payload && p + used < |data| && Front(c0, data, c, p, seen)
    requires used < c.payloadLen - c.received && |c.key| == 4 && last.OnPayload?
    ensures Halted(c0, data, seen + DataEvents(UnmaskFrom(c, c.maskIndex, data[p..][..used])), last, p + used)
  {
    PayloadFront(c0, data, p, seen, c, used);
    PayloadFront(c0, data, p, seen, c, used + 1);
    OneByteMore(c, data[p..], used);
    NotYetDone(c, used);
    hide Feed, Valid, Stopped, UnmaskFrom, DataEvents, PayloadTaken;
  }

  lemma CompletionHalted(c0: Core, data: seq<byte>, p: nat, seen: seq<Event>, c: Core, n: nat, last: Callback)
    requires Valid(c0) && Valid(c) && !Stopped(c) && c.state == Payload && p < p + n <= |data| && Front(c0, data, c, p, seen)
    requires n <= c.payloadLen - c.received && |c.key| == 4 && last.OnComplete? && PayloadTaken(c, n).1 == Seen(last)
    ensures Halted(c0, data, seen + DataEvents(UnmaskFrom(c, c.maskIndex, data[p..][..n])), last, p + n)
  {
    var heard := DataEvents(UnmaskFrom(c, c.maskIndex, data[p..][..n]));
    PayloadFront(c0, data, p, seen, c, n);
    PayloadFront(c0, data, p, seen, c, n - 1);
    OneByteMore(c, data[p..], n - 1);
    NotYetDone(c, n - 1);
    hide Feed, Valid, Stopped, UnmaskFrom, DataEvents, PayloadTaken;
    assert seen + (heard + PayloadTaken(c, n).1) == (seen + heard) + PayloadTaken(c, n).1;
  }

  lemma OneByteMore(c: Core, rest: seq<byte>, n: nat)
    requires |c.key| == 4 && n < |rest|
    ensures |DataEvents(UnmaskFrom(c, c.maskIndex, rest[..n + 1]))| == |DataEvents(UnmaskFrom(c, c.maskIndex, rest[..n]))| + 1
  {
  }

  lemma NotYetDone(c: Core, n: nat)
    requires n < c.payloadLen - c.received
    ensures PayloadTaken(c, n).1 == []
  {
  }

  lemma LastCallback(c: Core, n: nat, mid: seq<Callback>, cbs: seq<Callback>)
    requires |PayloadTaken(c, n).1| <= 1 && cbs == mid + AsCallbacks(PayloadTaken(c, n).1)
    ensures PayloadTaken(c, n).1 == [] ==> cbs == mid
    ensures PayloadTaken(c, n).1 != [] ==>
              |cbs| == |mid| + 1 && cbs[..|cbs| - 1] == mid && cbs[|mid|].OnComplete? && Seen(cbs[|mid|]) == PayloadTaken(c, n).1
  {
  }

  lemma NothingYet(accept: Answers, cbs: seq<Callback>)
    ensures Accepted(accept, cbs, |cbs|) && Delivered(accept, |cbs|, cbs, cbs, [], true)
  {
  }

  lemma ClosedState(c: Core)
    requires Valid(c) && c.errno == Ok
    ensures c.closed <==> c.state == Complete
    ensures Ranges(c.(closed := false)) && FrameDone(c).1 == [Done(c.fin, c.opcode, c.hasMask, c.closed || c.opcode == CLOSE)]
    ensures c.closed ==> FrameDone(c).0 == c
  {
  }

  lemma AtEnd(c0: Core, data: seq<byte>, c: Core, p: nat, seen: seq<Event>)
    requires Valid(c0) && Valid(c) && At(c0, data, c, p, seen) && (p == |data| || Stopped(c))
    ensures Feed(c0, data) == Out(c, p, seen)
  {
    FeedStopped(c, data[p..]);
  }

  lemma UnseenRest(accept: Answers, before: seq<Callback>, cbs: seq<Callback>, c0: Core, data: seq<byte>,
                   c: Core, p: nat, seen: seq<Event>)
    requires Valid(c0) && Valid(c) && At(c0, data, c, p, seen)
    requires Delivered(accept, |before|, before, cbs, seen, false)
    ensures Delivered(accept, |before|, before, cbs, Feed(c0, data).events, false) && p <= Feed(c0, data).consumed
  {
    MoreUnseen(accept, |before|, before, cbs, seen, Feed(c, data[p..]).events);
  }

  /** A header byte moves the run on. */
  lemma HeaderAt(c0: Core, data: seq<byte>, p: nat, seen: seq<Event>, c: Core)
    requires Valid(c0) && Valid(c) && !Stopped(c) && p < |data| && At(c0, data, c, p, seen)
    ensures var (c', ev) := Step(c, data[p]);
            Valid(c') && At(c0, data, c', if c'.errno == Ok then p + 1 else p, seen + ev)
  {
    hide Step, Valid, Feed;
    var (c', ev) := Step(c, data[p]);
    StepKeepsValid(c, data[p]);
    var rest := data[p + 1..];
    assert data[p..] == [data[p]] + rest;
    if c'.errno == Ok {
      FeedOne(c, data[p], rest, c', ev);
      assert seen + (ev + Feed(c', rest).events) == (seen + ev) + Feed(c', rest).events;
    } else {
      FeedBad(c, data[p], rest);
      FeedStopped(c', data[p..]);
      assert seen + ev + [] == seen + ev;
    }
  }

  /** So does a stretch of payload. */
  lemma PayloadAt(c0: Core, data: seq<byte>, p: nat, seen: seq<Event>, c: Core)
    requires Valid(c0) && Valid(c) && !Stopped(c) && c.state == Payload && p < |data| && At(c0, data, c, p, seen)
    ensures |c.key| == 4 && c.received < c.payloadLen
    ensures var n := Min(c.payloadLen - c.received, |data| - p);
            var c' := PayloadTaken(c, n).0;
            Valid(c') && At(c0, data, c', p + n, seen + PayloadSeen(c, data[p..]))
  {
    hide Feed, PayloadTaken, Stopped, PayloadSeen, At, Valid;
    FeedSeen(c, data[p..]);
    var n := Min(c.payloadLen - c.received, |data| - p);
    AtMore(c0, data, p, seen, c, PayloadTaken(c, n).0, n, PayloadSeen(c, data[p..]));
  }

  lemma FeedSeen(c: Core, rest: seq<byte>)
    requires Valid(c) && !Stopped(c) && c.state == Payload && rest != []
    ensures |c.key| == 4 && c.received < c.payloadLen
    ensures var n := Min(c.payloadLen - c.received, |rest|);
            var c' := PayloadTaken(c, n).0;
            Valid(c') && Feed(c, rest) == Then(Out(c', n, PayloadSeen(c, rest)), Feed(c', rest[n..]))
  {
    PayloadRanges(c);
    hide Valid, Feed, PayloadTaken, UnmaskFrom, DataEvents, Stopped;
    FeedPayload(c, rest, Min(c.payloadLen - c.received, |rest|));
  }

  /** Whatever the reference takes next moves the run on. */
  lemma AtMore(c0: Core, data: seq<byte>, p: nat, seen: seq<Event>, c: Core, d: Core, n: nat, ev: seq<Event>)
    requires Valid(c0) && Valid(c) && Valid(d) && At(c0, data, c, p, seen) && p + n <= |data|
    requires Feed(c, data[p..]) == Then(Out(d, n, ev), Feed(d, data[p..][n..]))
    ensures At(c0, data, d, p + n, seen + ev)
  {
    hide Valid, Feed;
    assert data[p..][n..] == data[p + n..];
    ThenJoins(Out(c, p, seen), Out(d, n, ev), Feed(d, data[p + n..]));
  }

  lemma PayloadRanges(c: Core)
    requires Valid(c) && !Stopped(c) && c.state == Payload
    ensures |c.key| == 4 && c.received < c.payloadLen
  {
  }

  lemma OneCallback(c: Core, b: byte)
    requires Valid(c) && !Stopped(c) && c.state != Payload
    ensures var (c', ev) := Step(c, b);
            && |ev| <= 1
            && (c'.errno != Ok ==> c.state == FrameStart && ev == [])
            && (c.state == FrameStart && c'.errno == Ok ==> !Stopped(c'))
  {
    hide Valid, Weight;
  }

  lemma DeliveredMore(accept: Answers, before: seq<Callback>, mid: seq<Callback>, cbs: seq<Callback>,
                      seen: seq<Event>, events: seq<Event>, ok: bool)
    requires Delivered(accept, |before|, before, mid, seen, true)
    requires Delivered(accept, |before|, mid, cbs, events, ok)
    ensures Delivered(accept, |before|, before, cbs, seen + events, ok)
  {
    assert mid == cbs[..|mid|] && before == mid[..|before|];
    assert before == cbs[..|before|];
    assert SeenAll(before[|before|..]) + (seen + events) == (SeenAll(before[|before|..]) + seen) + events;
  }

  lemma StartFeed(c: Core, data: seq<byte>)
    requires Valid(c)
    ensures At(c, data, c, 0, [])
  {
    assert data[0..] == data;
  }

  lemma RefusedNotAccepted(accept: Answers, cbs: seq<Callback>, from: nat)
    ensures Refused(accept, cbs, from) ==> !Accepted(accept, cbs, from)
  {
    assert cbs[..|cbs|] == cbs;
  }

  lemma MoreUnseen(accept: Answers, from: nat, before: seq<Callback>, cbs: seq<Callback>, events: seq<Event>, more: seq<Event>)
    requires Delivered(accept, from, before, cbs, events, false)
    ensures Delivered(accept, from, before, cbs, events + more, false)
  {
    assert SeenAll(before[from..]) + (events + more) == (SeenAll(before[from..]) + events) + more;
  }

  /** At most one callback on top of what has been delivered. */
  lemma OutcomeDelivered(accept: Answers, from: nat, before: seq<Callback>, mid: seq<Callback>, events: seq<Event>,
                         cbs: seq<Callback>, ev: seq<Event>)
    requires Delivered(accept, from, before, mid, events, true)
    requires |ev| <= 1 && cbs == mid + AsCallbacks(ev)
    ensures Accepted(accept, cbs, from) <==> ev == [] || accept(cbs)
    ensures Delivered(accept, from, before, cbs, events + ev, Accepted(accept, cbs, from))
  {
    if ev == [] {
      assert events + ev == events && cbs == mid;
    } else {
      var cb := AsCallbacks(ev)[0];
      assert cbs == mid + [cb] && Seen(cb) == ev;
      AcceptMore(accept, mid, cb, from);
      DeliverOne(accept, from, before, mid, events, cb);
      RefusedNotAccepted(accept, cbs, from);
    }
  }

  /** apply_mask */
  method ApplyMask(data: array<byte>, len: nat, key: seq<byte>, index: nat)
    requires len <= data.Length && |key| == 4
    modifies data
    ensures forall i :: 0 <= i < len ==> data[i] == old(data[i]) ^ key[(index + i) % 4]
    ensures forall i :: len <= i < data.Length ==> data[i] == old(data[i])
  {
    var i := 0;
    while i < len
      invariant 0 <= i <= len
      invariant forall k :: 0 <= k < i ==> data[k] == old(data[k]) ^ key[(index + k) % 4]
      invariant forall k :: i <= k < data.Length ==> data[k] == old(data[k])
    {
      data[i] := data[i] ^ key[(index + i) % 4];
      i := i + 1;
    }
  }

  lemma UnmaskConcat(c: Core, index: nat, wire: seq<byte>, i: nat, j: nat)
    requires |c.key| == 4 && i <= j <= |wire|
    ensures UnmaskFrom(c, index, wire[..j]) == UnmaskFrom(c, index, wire[..i]) + UnmaskFrom(c, index + i, wire[i..j])
    ensures DataEvents(UnmaskFrom(c, index, wire[..j]))
         == DataEvents(UnmaskFrom(c, index, wire[..i])) + DataEvents(UnmaskFrom(c, index + i, wire[i..j]))
  {
    var s, t := UnmaskFrom(c, index, wire[..i]), UnmaskFrom(c, index + i, wire[i..j]);
    assert wire[..j] == wire[..i] + wire[i..j];
    forall k | 0 <= k < j ensures UnmaskFrom(c, index, wire[..j])[k] == (s + t)[k] {
      if k >= i { assert (index + i) + (k - i) == index + k; }
    }
    DataConcat(s, t);
  }

  lemma DataConcat(s: seq<byte>, t: seq<byte>)
    ensures DataEvents(s + t) == DataEvents(s) + DataEvents(t)
  {
  }

  lemma DeliverOne(accept: Answers, from: nat, before: seq<Callback>, cbs: seq<Callback>, events: seq<Event>, cb: Callback)
    requires Delivered(accept, from, before, cbs, events, true)
    ensures var t := cbs + [cb];
            Delivered(accept, from, before, t, events + Seen(cb), accept(t))
  {
    hide SeenAll, Seen, Accepted, Refused;
    var t := cbs + [cb];
    AcceptMore(accept, cbs, cb, from);
    SeenMore(cbs, cb, from);
    assert before == t[..|before|];
    assert (SeenAll(before[from..]) + events) + Seen(cb) == SeenAll(before[from..]) + (events + Seen(cb));
  }

  lemma DeliverMore(accept: Answers, from: nat, before: seq<Callback>, cbs: seq<Callback>, events: seq<Event>, bytes: seq<byte>)
    requires Delivered(accept, from, before, cbs, events, true)
    ensures var t := cbs + [OnPayload(bytes)];
            Delivered(accept, from, before, t, events + DataEvents(bytes), accept(t))
  {
    DeliverOne(accept, from, before, cbs, events, OnPayload(bytes));
  }

  lemma DeliverNothing(c: Core, accept: Answers, from: nat, cbs: seq<Callback>, wire: seq<byte>)
    requires |c.key| == 4 && from <= |cbs| && Accepted(accept, cbs, from)
    ensures Delivered(accept, from, cbs, cbs, DataEvents(UnmaskFrom(c, c.maskIndex, wire[..0])), true)
  {
    assert DataEvents(UnmaskFrom(c, c.maskIndex, wire[..0])) == [];
  }

  lemma RestUnseen(c: Core, accept: Answers, from: nat, before: seq<Callback>, cbs: seq<Callback>, wire: seq<byte>, n: nat)
    requires |c.key| == 4 && n <= |wire|
    requires Delivered(accept, from, before, cbs, DataEvents(UnmaskFrom(c, c.maskIndex, wire[..n])), false)
    ensures Delivered(accept, from, before, cbs, DataEvents(UnmaskFrom(c, c.maskIndex, wire)), false)
  {
    UnmaskConcat(c, c.maskIndex, wire, n, |wire|);
    assert wire[..|wire|] == wire;
  }

  lemma StartStep(c: Core, b: byte)
    requires Valid(c) && !Stopped(c) && c.state == FrameStart
    ensures var (fin, opcode) := (TopBit(b), b & 0x0F);
            && (ValidOpcode(opcode) <==> !(opcode > 0x0A || (opcode > 0x02 && opcode < 0x08)))
            && Step(c, b) == if !ValidOpcode(opcode) then (c.(fin := fin, opcode := opcode, errno := InvalidOpcode), [])
                             else (c.(fin := fin, opcode := opcode, state := FrameOpcode), [Begin(fin, opcode)])
  {
  }

  lemma OpcodeByteStep(c: Core, b: byte)
    requires Valid(c) && !Stopped(c) && c.state == FrameOpcode
    ensures var (masked, len7) := (TopBit(b), Len7(b));
            var c1 := c.(mask := masked, hasMask := masked);
            && len7 < 128 && Ranges(c1.(payloadLen := len7, lenType := 0, received := 0))
            && (len7 < 126 ==> Step(c, b) == AfterLength(c1.(payloadLen := len7, lenType := 0, received := 0)))
            && (len7 == 126 ==> Step(c, b) == (c1.(payloadLen := 0, lenType := 1, state := PayloadLen16(1)), []))
            && (len7 > 126 ==> Step(c, b) == (c1.(payloadLen := 0, lenType := 2, state := PayloadLen64(1)), []))
            && (len7 >= 126 ==> !Stopped(Step(c, b).0))
  {
    hide AfterLength;
  }

  /** What a length byte does, and that the fields can take it. */
  lemma LengthStep16(c: Core, b: byte, i: nat, len: nat)
    requires Valid(c) && !Stopped(c) && c.state == PayloadLen16(i)
    requires 1 <= i <= 2 && len == c.payloadLen + Placed(b, 2, i)
    ensures Ranges(c.(payloadLen := len, received := 0))
    ensures i == 2 ==> Step(c, b) == AfterLength(c.(payloadLen := len, received := 0))
    ensures i < 2 ==> Step(c, b) == (c.(payloadLen := len, state := PayloadLen16(i + 1)), []) && !Stopped(Step(c, b).0)
  {
    LengthInRange(c, b);
    hide AfterLength, Placed, Weight, Aligned;
  }

  lemma LengthStep64(c: Core, b: byte, i: nat, len: nat)
    requires Valid(c) && !Stopped(c) && c.state == PayloadLen64(i)
    requires 1 <= i <= 8 && len == c.payloadLen + Placed(b, 8, i)
    ensures Ranges(c.(payloadLen := len, received := 0))
    ensures i == 8 ==> Step(c, b) == AfterLength(c.(payloadLen := len, received := 0))
    ensures i < 8 ==> Step(c, b) == (c.(payloadLen := len, state := PayloadLen64(i + 1)), []) && !Stopped(Step(c, b).0)
  {
    LengthInRange(c, b);
    hide AfterLength, Placed, Weight, Aligned;
  }

  lemma LengthInRange(c: Core, b: byte)
    requires Valid(c) && !Stopped(c) && (c.state.PayloadLen16? || c.state.PayloadLen64?)
    ensures var n := if c.state.PayloadLen16? then 2 else 8;
            c.payloadLen + Placed(b, n, c.state.i) < MAX_LEN
  {
    Weights();
    LengthByte(c.payloadLen, if c.state.PayloadLen16? then 2 else 8, c.state.i, b as nat);
  }
}
