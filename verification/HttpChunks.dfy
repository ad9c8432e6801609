/** Chunked bodies as they are sent, and the proof that the parser reads them back. */
module HttpChunks {
  import opened ByteSeqs
  import opened HttpChunkSpec

  /** A chunk: its size line with what follows the size, and its data. */
  datatype Chunk = Chunk(size: string, ext: string, data: string)

  predicate Digits(s: string) { forall i :: 0 <= i < |s| ==> Unhex(s[i]) != -1 }

  /** The value of hexadecimal digits that follow the value v. */
  function HexFrom(v: nat, s: string): nat
    requires Digits(s)
    decreases |s|
  {
    if s == [] then v else HexFrom(v * 16 + Unhex(s[0]), s[1..])
  }

  predicate Extension(e: string) {
    e == [] || ((e[0] == ';' || e[0] == ' ') && forall i :: 0 <= i < |e| ==> e[i] != '\r')
  }

  predicate SizeLine(size: string, ext: string) {
    size != [] && Digits(size) && Extension(ext) && |size| + |ext| + 2 <= MAX_HEADER
  }

  /** Chunks whose size line tells the size of their data, within the limits. */
  predicate Sendable(k: Chunk) {
    SizeLine(k.size, k.ext) && HexFrom(0, k.size) == |k.data| && 0 < |k.data| <= ULLONG_MAX - 16
  }

  const CRLF: string := ['\r'] + ['\n']

  function Wire(k: Chunk): string { k.size + (k.ext + (CRLF + (k.data + CRLF))) }

  /** The last chunk and the empty trailer. */
  function LastWire(size: string, ext: string): string { size + (ext + (CRLF + CRLF)) }

  function WireAll(ks: seq<Chunk>, size: string, ext: string): string {
    if ks == [] then LastWire(size, ext) else Wire(ks[0]) + WireAll(ks[1..], size, ext)
  }

  function EventsOf(k: Chunk): seq<Event> { [Header(|k.data|)] + (BodyEvents(k.data) + [ChunkComplete]) }

  const LAST_EVENTS: seq<Event> := [Header(0), ChunkComplete, MessageComplete]

  function EventsAll(ks: seq<Chunk>): seq<Event> {
    if ks == [] then LAST_EVENTS else EventsOf(ks[0]) + EventsAll(ks[1..])
  }

  /** The body that the callbacks get. */
  function BodyOf(ev: seq<Event>): string {
    if ev == [] then [] else BodyChar(ev[0]) + BodyOf(ev[1..])
  }

  function DataAll(ks: seq<Chunk>): string {
    if ks == [] then [] else ks[0].data + DataAll(ks[1..])
  }

  // ----- the size line

  lemma {:induction false} HexGrows(v: nat, s: string)
    requires Digits(s)
    ensures HexFrom(v, s) >= v
    decreases |s|
  {
    if s != [] { HexGrows(v * 16 + Unhex(s[0]), s[1..]); }
  }

  predicate InSize(c: Core) { Valid(c) && c.errno == Ok && c.state == Size }

  lemma DigitStep(c: Core, ch: char)
    requires InSize(c) && Unhex(ch) != -1 && c.nread < MAX_HEADER
    ensures var v := c.contentLength * 16 + Unhex(ch);
            Step(c, ch) == if v <= ULLONG_MAX - 16 then (c.(contentLength := v, nread := c.nread + 1), [])
                           else (c.(nread := c.nread + 1, errno := InvalidContentLength), [])
    ensures c.contentLength * 16 + Unhex(ch) <= ULLONG_MAX - 16 ==> InSize(Step(c, ch).0)
  {
  }

  /** Digits within the limits are taken, and give their true value. */
  lemma {:induction false} ReadsDigits(c: Core, s: string, rest: string)
    requires InSize(c) && Digits(s) && c.nread + |s| <= MAX_HEADER && HexFrom(c.contentLength, s) <= ULLONG_MAX - 16
    ensures var d := c.(contentLength := HexFrom(c.contentLength, s), nread := c.nread + |s|);
            InSize(d) && Reads(c, s, rest, d, [])
    decreases |s|
  {
    hide Reads, Step, Unhex;
    if s == [] {
      ReadsNothing(c, rest);
    } else {
      var v := c.contentLength * 16 + Unhex(s[0]);
      HexGrows(v, s[1..]);
      var d := c.(contentLength := v, nread := c.nread + 1);
      DigitStep(c, s[0]);
      ReadsOne(c, s[0], s[1..] + rest, d, []);
      ReadsDigits(d, s[1..], rest);
      HeadAndTail(s);
      ReadsJoin(c, [s[0]], d, [], s[1..], d.(contentLength := HexFrom(v, s[1..]), nread := d.nread + |s[1..]|), [], rest);
    }
  }

  /** Larger sizes are rejected, so that none is ever taken for the value that stands
      for an unknown length. */
  lemma {:induction false} OversizeRejected(c: Core, s: string, rest: string)
    requires InSize(c) && Digits(s) && c.nread + |s| <= MAX_HEADER && HexFrom(c.contentLength, s) > ULLONG_MAX - 16
    ensures Feed(c, s + rest).core.errno == InvalidContentLength && Feed(c, s + rest).events == []
    decreases |s|
  {
    hide Step, Unhex;
    if s != [] {
      var v := c.contentLength * 16 + Unhex(s[0]);
      DigitStep(c, s[0]);
      HeadAndTail(s);
      assert s + rest == [s[0]] + (s[1..] + rest);
      if v <= ULLONG_MAX - 16 {
        var d := c.(contentLength := v, nread := c.nread + 1);
        OversizeRejected(d, s[1..], rest);
        ReadsOne(c, s[0], s[1..] + rest, d, []);
      }
    }
  }

  predicate AtSizeStart(c: Core) { Valid(c) && c.errno == Ok && c.state == SizeStart }

  lemma FirstDigitStep(c: Core, ch: char)
    requires AtSizeStart(c) && Unhex(ch) != -1
    ensures var d := c.(state := Size, contentLength := Unhex(ch), nread := 1);
            Step(c, ch) == (d, []) && InSize(d)
  {
  }

  /** The size, from the start of a size line. */
  lemma ReadsSize(c: Core, s: string, rest: string)
    requires AtSizeStart(c) && s != [] && Digits(s) && |s| <= MAX_HEADER && HexFrom(0, s) <= ULLONG_MAX - 16
    ensures var d := c.(state := Size, contentLength := HexFrom(0, s), nread := |s|);
            InSize(d) && Reads(c, s, rest, d, [])
  {
    hide Reads, Step, Unhex;
    var d := c.(state := Size, contentLength := Unhex(s[0]), nread := 1);
    FirstDigitStep(c, s[0]);
    ReadsOne(c, s[0], s[1..] + rest, d, []);
    assert HexFrom(0, s) == HexFrom(Unhex(s[0]), s[1..]);
    ReadsDigits(d, s[1..], rest);
    HeadAndTail(s);
    ReadsJoin(c, [s[0]], d, [], s[1..], c.(state := Size, contentLength := HexFrom(0, s), nread := |s|), [], rest);
  }

  predicate InLine(c: Core) { Valid(c) && c.errno == Ok && (c.state == Size || c.state == Parameters) }

  lemma ExtensionStep(c: Core, ch: char)
    requires InLine(c) && c.nread < MAX_HEADER
    requires ch != '\r' && (c.state == Size ==> ch == ';' || ch == ' ')
    ensures var d := c.(nread := c.nread + 1, state := Parameters);
            Step(c, ch) == (d, []) && InLine(d)
  {
  }

  /** What follows the size, up to the end of the line. */
  lemma {:induction false} ReadsExtension(c: Core, s: string, rest: string)
    requires InLine(c) && c.nread + |s| <= MAX_HEADER && forall i :: 0 <= i < |s| ==> s[i] != '\r'
    requires s != [] && c.state == Size ==> s[0] == ';' || s[0] == ' '
    ensures var d := c.(nread := c.nread + |s|, state := if s == [] then c.state else Parameters);
            InLine(d) && Reads(c, s, rest, d, [])
    decreases |s|
  {
    hide Reads, Step;
    if s == [] {
      ReadsNothing(c, rest);
    } else {
      var d := c.(nread := c.nread + 1, state := Parameters);
      ExtensionStep(c, s[0]);
      ReadsOne(c, s[0], s[1..] + rest, d, []);
      ReadsExtension(d, s[1..], rest);
      HeadAndTail(s);
      ReadsJoin(c, [s[0]], d, [], s[1..], c.(nread := c.nread + |s|, state := Parameters), [], rest);
    }
  }

  /** The parser after a size line with size v. */
  function AfterLine(c: Core, v: nat): Core {
    c.(contentLength := v, nread := 0, trailing := v == 0, state := if v == 0 then FieldStart else Data)
  }

  lemma LineEndSteps(c: Core)
    requires InLine(c) && c.nread + 2 <= MAX_HEADER
    ensures var c1 := c.(nread := c.nread + 1, state := SizeAlmostDone);
            && Step(c, '\r') == (c1, []) && Valid(c1)
            && Step(c1, '\n') == (AfterLine(c, c.contentLength), [Header(c.contentLength)]) && Valid(AfterLine(c, c.contentLength))
  {
  }

  /** The end of the size line. */
  lemma ReadsLineEnd(c: Core, rest: string)
    requires InLine(c) && c.nread + 2 <= MAX_HEADER
    ensures var d := AfterLine(c, c.contentLength);
            Valid(d) && Reads(c, CRLF, rest, d, [Header(c.contentLength)])
  {
    hide Reads, Step;
    LineEndSteps(c);
    var c1, d := c.(nread := c.nread + 1, state := SizeAlmostDone), AfterLine(c, c.contentLength);
    ReadsOne(c, '\r', ['\n'] + rest, c1, []);
    ReadsOne(c1, '\n', rest, d, [Header(c.contentLength)]);
    ReadsJoin(c, ['\r'], c1, [], ['\n'], d, [Header(c.contentLength)], rest);
  }

  /** A whole size line. */
  lemma ReadsSizeLine(c: Core, size: string, ext: string, rest: string)
    requires AtSizeStart(c) && SizeLine(size, ext) && HexFrom(0, size) <= ULLONG_MAX - 16
    ensures var v := HexFrom(0, size);
            Valid(AfterLine(c, v)) && Reads(c, size + (ext + CRLF), rest, AfterLine(c, v), [Header(v)])
  {
    hide Reads, Step, HexFrom, AfterLine;
    ReadsSize(c, size, (ext + CRLF) + rest);
    var v := HexFrom(0, size);
    var c1 := c.(state := Size, contentLength := v, nread := |size|);
    ReadsExtension(c1, ext, CRLF + rest);
    var c2 := c1.(nread := |size| + |ext|, state := if ext == [] then Size else Parameters);
    ReadsLineEnd(c2, rest);
    SameAfterLine(c, c2, v);
    ReadsJoin(c1, ext, c2, [], CRLF, AfterLine(c, v), [Header(v)], rest);
    ReadsJoin(c, size, c1, [], ext + CRLF, AfterLine(c, v), [Header(v)], rest);
  }

  lemma SameAfterLine(c: Core, d: Core, v: nat)
    requires d == c.(contentLength := d.contentLength, nread := d.nread, state := d.state)
    ensures AfterLine(c, v) == AfterLine(d, v)
  {
  }

  // ----- the data

  lemma DataEndSteps(c: Core)
    requires InData(c, 0)
    ensures var c1, d := c.(state := DataDone), c.(nread := 0, state := SizeStart);
            Step(c, '\r') == (c1, []) && Valid(c1) && Step(c1, '\n') == (d, [ChunkComplete]) && AtSizeStart(d)
  {
  }

  lemma ReadsDataEnd(c: Core, rest: string)
    requires InData(c, 0)
    ensures var d := c.(nread := 0, state := SizeStart);
            AtSizeStart(d) && Reads(c, CRLF, rest, d, [ChunkComplete])
  {
    hide Reads, Step;
    DataEndSteps(c);
    var c1, d := c.(state := DataDone), c.(nread := 0, state := SizeStart);
    ReadsOne(c, '\r', ['\n'] + rest, c1, []);
    ReadsOne(c1, '\n', rest, d, [ChunkComplete]);
    ReadsJoin(c, ['\r'], c1, [], ['\n'], d, [ChunkComplete], rest);
  }

  /** A whole chunk. */
  lemma ReadsChunk(c: Core, k: Chunk, rest: string)
    requires AtSizeStart(c) && Sendable(k)
    ensures var d := c.(contentLength := 0);
            AtSizeStart(d) && Reads(c, Wire(k), rest, d, EventsOf(k))
  {
    hide Reads, Step, HexFrom, BodyEvents, SizeLine;
    var n := |k.data|;
    var line := k.size + (k.ext + CRLF);
    ReadsSizeLine(c, k.size, k.ext, (k.data + CRLF) + rest);
    var c1 := AfterLine(c, n);
    ReadsData(c1, k.data, CRLF + rest);
    var c2 := c1.(contentLength := 0, state := DataAlmostDone);
    ReadsDataEnd(c2, rest);
    var d := c.(contentLength := 0);
    assert d == c2.(nread := 0, state := SizeStart);
    ReadsJoin(c1, k.data, c2, BodyEvents(k.data), CRLF, d, [ChunkComplete], rest);
    ReadsJoin(c, line, c1, [Header(n)], k.data + CRLF, d, BodyEvents(k.data) + [ChunkComplete], rest);
    assert Wire(k) == line + (k.data + CRLF);
  }

  lemma TrailerSteps(c: Core)
    requires AtSizeStart(c)
    ensures var c1 := AfterLine(c, 0);
            var c2 := c1.(nread := 1, state := HeadersAlmostDone);
            var c3 := c2.(nread := 2, state := Finished);
            Step(c1, '\r') == (c2, []) && Valid(c2) && Step(c2, '\n') == (c3, [ChunkComplete, MessageComplete]) && Valid(c3)
  {
  }

  /** The last chunk and the end of the message. */
  lemma ReadsLast(c: Core, size: string, ext: string)
    requires AtSizeStart(c) && SizeLine(size, ext) && HexFrom(0, size) == 0
    ensures var o := Feed(c, LastWire(size, ext));
            o.events == LAST_EVENTS && o.consumed == |LastWire(size, ext)| && o.core.state == Finished && o.core.errno == Ok
  {
    hide Reads, Step, HexFrom, SizeLine;
    ReadsSizeLine(c, size, ext, CRLF + []);
    TrailerSteps(c);
    var c1 := AfterLine(c, 0);
    var c2 := c1.(nread := 1, state := HeadersAlmostDone);
    var c3 := c2.(nread := 2, state := Finished);
    ReadsOne(c1, '\r', ['\n'] + [], c2, []);
    ReadsOne(c2, '\n', [], c3, [ChunkComplete, MessageComplete]);
    ReadsJoin(c1, ['\r'], c2, [], ['\n'], c3, [ChunkComplete, MessageComplete], []);
    var line := size + (ext + CRLF);
    ReadsJoin(c, line, c1, [Header(0)], CRLF, c3, [ChunkComplete, MessageComplete], []);
    assert LastWire(size, ext) == line + CRLF;
    assert [Header(0)] + [ChunkComplete, MessageComplete] == LAST_EVENTS;
    ReadsToEnd(c, LastWire(size, ext), c3, LAST_EVENTS);
  }

  lemma ReadsToEnd(c: Core, x: string, d: Core, ev: seq<Event>)
    requires Reads(c, x, [], d, ev)
    ensures Valid(c) && Feed(c, x) == Out(d, |x|, ev)
  {
    assert x + [] == x && ev + [] == ev;
    FeedStopped(d, []);
  }

  /** A chunked body is read back to its last character, chunk by chunk, with one
      completion of the message. */
  lemma {:induction false} ChunkedIsRead(c: Core, ks: seq<Chunk>, size: string, ext: string)
    requires AtSizeStart(c)
    requires (forall i :: 0 <= i < |ks| ==> Sendable(ks[i])) && SizeLine(size, ext) && HexFrom(0, size) == 0
    ensures var o := Feed(c, WireAll(ks, size, ext));
            && o.events == EventsAll(ks) && o.consumed == |WireAll(ks, size, ext)|
            && o.core.state == Finished && o.core.errno == Ok
    decreases |ks|
  {
    hide Feed, Step, Sendable, SizeLine, Wire, LastWire, HexFrom, EventsOf;
    if ks == [] {
      ReadsLast(c, size, ext);
    } else {
      ReadsChunk(c, ks[0], WireAll(ks[1..], size, ext));
      ChunkedIsRead(c.(contentLength := 0), ks[1..], size, ext);
    }
  }

  /** So it is when it comes in any pieces. */
  lemma CutChunkedIsRead(c: Core, ks: seq<Chunk>, size: string, ext: string, pieces: seq<string>)
    requires AtSizeStart(c)
    requires (forall i :: 0 <= i < |ks| ==> Sendable(ks[i])) && SizeLine(size, ext) && HexFrom(0, size) == 0
    requires Concat(pieces) == WireAll(ks, size, ext) && forall i :: 0 <= i < |pieces| ==> pieces[i] != []
    ensures var o := Calls(c, pieces);
            && o.events == EventsAll(ks) && o.consumed == |WireAll(ks, size, ext)|
            && o.core.state == Finished && o.core.errno == Ok
  {
    hide Feed, Step, Sendable, SizeLine, WireAll, Concat, HexFrom;
    ChunkedIsRead(c, ks, size, ext);
    AnySplit(c, pieces);
  }

  /** The body that those callbacks get is the data of the chunks. */
  lemma {:induction false} BodyIsData(ks: seq<Chunk>)
    ensures BodyOf(EventsAll(ks)) == DataAll(ks)
  {
    if ks == [] {
      NoBody(MessageComplete);
      BodyConcat([Header(0)], [ChunkComplete] + [MessageComplete]);
      BodyConcat([ChunkComplete], [MessageComplete]);
      NoBody(Header(0));
      NoBody(ChunkComplete);
      assert LAST_EVENTS == [Header(0)] + ([ChunkComplete] + [MessageComplete]);
    } else {
      hide BodyOf, BodyEvents;
      BodyIsData(ks[1..]);
      BodyConcat(EventsOf(ks[0]), EventsAll(ks[1..]));
      ChunkBody(ks[0]);
    }
  }

  lemma ChunkBody(k: Chunk)
    ensures BodyOf(EventsOf(k)) == k.data
  {
    BodyConcat([Header(|k.data|)], BodyEvents(k.data) + [ChunkComplete]);
    BodyConcat(BodyEvents(k.data), [ChunkComplete]);
    BodyOfData(k.data);
    NoBody(Header(|k.data|));
    NoBody(ChunkComplete);
    hide BodyOf, BodyEvents;
    assert k.data + [] == k.data;
  }

  lemma NoBody(e: Event)
    requires !e.Body?
    ensures BodyOf([e]) == []
  {
    assert [e][1..] == [];
  }

  lemma {:induction false} BodyConcat(a: seq<Event>, b: seq<Event>)
    ensures BodyOf(a + b) == BodyOf(a) + BodyOf(b)
  {
    if a == [] {
      assert a + b == b;
    } else {
      BodyConcat(a[1..], b);
      BodyFirst(a);
      BodyFirst(a + b);
      hide BodyOf, BodyChar;
      assert (a + b)[1..] == a[1..] + b && (a + b)[0] == a[0];
      Regroup(BodyChar(a[0]), BodyOf(a[1..]), BodyOf(b));
    }
  }

  lemma Regroup(x: string, y: string, z: string)
    ensures x + (y + z) == (x + y) + z
  {
  }

  function BodyChar(e: Event): string { if e.Body? then [e.c] else [] }

  lemma BodyFirst(ev: seq<Event>)
    requires ev != []
    ensures BodyOf(ev) == BodyChar(ev[0]) + BodyOf(ev[1..])
  {
  }

  lemma {:induction false} BodyOfData(s: string)
    ensures BodyOf(BodyEvents(s)) == s
  {
    if s != [] {
      BodyOfData(s[1..]);
      assert BodyEvents(s)[1..] == BodyEvents(s[1..]);
    }
  }

  // ----- body that an error loses

  /** The start of a chunk with one character of data. */
  const OPENED: string := ['1', '\r', '\n', 'A']

  lemma ReadsOpened(rest: string)
    ensures Valid(BODY_START)
    ensures Reads(BODY_START, OPENED, rest, AfterData(AfterLine(BODY_START, 1), 1), [Header(1), Body('A')])
  {
    var c1 := AfterLine(BODY_START, 1);
    var one, nothing, data: string := ['1'], [], ['A'];
    OneDigit();
    ReadsSizeLine(BODY_START, one, nothing, data + rest);
    ReadsData(c1, data, rest);
    assert BodyEvents(data) == [Body('A')];
    hide Reads, Step, HexFrom, SizeLine, BodyEvents;
    ReadsJoin(BODY_START, one + (nothing + CRLF), c1, [Header(1)], data, AfterData(c1, 1), [Body('A')], rest);
    assert OPENED == (one + (nothing + CRLF)) + data;
    assert [Header(1)] + [Body('A')] == [Header(1), Body('A')];
  }

  lemma OneDigit()
    ensures SizeLine(['1'], []) && HexFrom(0, ['1']) == 1
  {
    assert HexFrom(1, ['1'][1..]) == 1;
  }

  /** A wrong character behind the data: in one call the data is lost, and with a cut in
      front of that character it is delivered. */
  lemma CutSavesBody()
    ensures Valid(BODY_START)
    ensures Calls(BODY_START, [OPENED + ['X']]).events == [Header(1)]
    ensures Calls(BODY_START, [OPENED, ['X']]).events == [Header(1), Body('A')]
  {
    ReadsOpened([]);
    var c2, ev := AfterData(AfterLine(BODY_START, 1), 1), [Header(1), Body('A')];
    ReadsToEnd(BODY_START, OPENED, c2, ev);
    FeedWrong(c2);
    WrongBehindData();
    hide Feed, Step, Reads, BodyFrom, Valid;
    OneCall(BODY_START, OPENED + ['X']);
    TwoCalls(BODY_START, OPENED, ['X']);
    assert ev + [] == ev;
  }

  lemma FeedWrong(c: Core)
    requires InData(c, 0)
    ensures Feed(c, ['X']) == Out(c.(errno := Strict), 0, []) && Call(c, ['X']).events == []
  {
  }

  lemma WrongBehindData()
    ensures Valid(BODY_START)
    ensures Call(BODY_START, OPENED + ['X']).events == [Header(1)]
  {
    var c2, ev := AfterData(AfterLine(BODY_START, 1), 1), [Header(1), Body('A')];
    ReadsOpened(['X']);
    FeedWrong(c2);
    BodyFromIs(ev, 1);
    hide Feed, Step, BodyFrom, Valid;
    assert ev + [] == ev && ev[..1] == [Header(1)];
  }

  lemma OneCall(c: Core, x: string)
    requires Valid(c)
    ensures Calls(c, [x]).events == Call(c, x).events
  {
    hide Call;
    assert [x][1..] == [];
  }

  lemma TwoCalls(c: Core, x: string, y: string)
    requires Valid(c)
    ensures Calls(c, [x, y]).events == Call(c, x).events + Call(Call(c, x).core, y).events
  {
    hide Call;
    assert [x, y][1..] == [y];
    OneCall(Call(c, x).core, y);
  }
}
