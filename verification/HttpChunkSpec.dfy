/** The chunked message body (RFC 7230, section 4.1) read one character at a time:
    what each one does to the parser's fields and which callbacks it brings.  The
    parser that works on whole buffers is proved against this. */
module HttpChunkSpec {
  import opened ByteSeqs

  datatype State =
    | SizeStart | Size | Parameters | SizeAlmostDone
    | Data | DataAlmostDone | DataDone
    | FieldStart | HeadersAlmostDone
    | Trailer | Finished

  datatype Errno = Ok | InvalidChunkSize | InvalidContentLength | HeaderOverflow | Strict | InvalidEofState

  /** The fields of the parser that the body states use. */
  datatype Core = Core(state: State, contentLength: nat, nread: nat, trailing: bool, errno: Errno)

  /** What the callbacks get to see; the body is counted character by character. */
  datatype Event = Header(size: nat) | Body(c: char) | ChunkComplete | MessageComplete

  datatype Out = Out(core: Core, consumed: nat, events: seq<Event>)

  const MAX_HEADER: nat := 80 * 1024
  const ULLONG_MAX: nat := 0xFFFF_FFFF_FFFF_FFFF

  /** Where the parser is once the headers are done. */
  const BODY_START: Core := Core(SizeStart, 0, 0, false, Ok)

  /** The table unhex.  It is written for ASCII only, so that the entries of the bytes from
      128 on are 0. */
  function Unhex(c: char): (v: int)
    ensures -1 <= v < 16
  {
    if '0' <= c <= '9' then c as int - '0' as int
    else if 'A' <= c <= 'F' then c as int - 'A' as int + 10
    else if 'a' <= c <= 'f' then c as int - 'a' as int + 10
    else if 128 <= c as int < 256 then 0
    else -1
  }

  /** States whose characters count against the header limit. */
  predicate Counted(s: State) {
    s == SizeStart || s == Size || s == Parameters || s == SizeAlmostDone || s == FieldStart || s == HeadersAlmostDone
  }

  /** What holds between any two characters; it makes the parser's assertions true. */
  predicate Valid(c: Core) {
    && c.nread <= MAX_HEADER + 1 && (c.errno != HeaderOverflow ==> c.nread <= MAX_HEADER)
    && c.contentLength <= ULLONG_MAX - 16
    && (c.state == SizeStart && c.errno == Ok ==> c.nread == 0)
    && (c.state == Data ==> c.contentLength > 0)
    && (c.state == DataAlmostDone || c.state == DataDone ==> c.contentLength == 0)
    && (c.trailing <==> c.state == FieldStart || c.state == HeadersAlmostDone || c.state == Trailer || c.state == Finished)
  }

  predicate Stopped(c: Core) { c.errno != Ok || c.state == Finished || c.state == Trailer }

  function Fail(c: Core, e: Errno): (Core, seq<Event>) { (c.(errno := e), []) }

  function Go(c: Core, s: State): (Core, seq<Event>) { (c.(state := s), []) }

  function FinishMessage(c: Core): (Core, seq<Event>) {
    (c.(state := Finished), [ChunkComplete, MessageComplete])
  }

  /** One character, already counted.  One that is not accepted leaves an error. */
  function Take(c: Core, ch: char): (Core, seq<Event>)
    requires c.state == Data ==> c.contentLength > 0
  {
    match c.state
    case SizeStart =>
      if Unhex(ch) == -1 then Fail(c, InvalidChunkSize) else (c.(contentLength := Unhex(ch), state := Size), [])
    case Size =>
      if ch == '\r' then Go(c, SizeAlmostDone)
      else if Unhex(ch) == -1 then
        if ch == ';' || ch == ' ' then Go(c, Parameters) else Fail(c, InvalidChunkSize)
      else if (ULLONG_MAX - 16) / 16 < c.contentLength then Fail(c, InvalidContentLength)
      else (c.(contentLength := c.contentLength * 16 + Unhex(ch)), [])
    case Parameters => if ch == '\r' then Go(c, SizeAlmostDone) else (c, [])
    case SizeAlmostDone =>
      if ch != '\n' then Fail(c, Strict)
      else if c.contentLength == 0 then (c.(nread := 0, trailing := true, state := FieldStart), [Header(0)])
      else (c.(nread := 0, state := Data), [Header(c.contentLength)])
    case Data =>
      (c.(contentLength := c.contentLength - 1, state := if c.contentLength == 1 then DataAlmostDone else Data), [Body(ch)])
    case DataAlmostDone => if ch != '\r' then Fail(c, Strict) else Go(c, DataDone)
    case DataDone => if ch != '\n' then Fail(c, Strict) else (c.(nread := 0, state := SizeStart), [ChunkComplete])
    case FieldStart =>
      if ch == '\r' then Go(c, HeadersAlmostDone)
      else if ch == '\n' then FinishMessage(c)
      else Go(c, Trailer)
    case HeadersAlmostDone => if ch != '\n' then Fail(c, Strict) else FinishMessage(c)
    case Trailer => (c, [])
    case Finished => (c, [])
  }

  /** One character, counted first where the header limit applies. */
  function Step(c: Core, ch: char): (Core, seq<Event>)
    requires Valid(c) && !Stopped(c)
  {
    if !Counted(c.state) then Take(c, ch) else
      var c1 := c.(nread := c.nread + 1);
      if c1.nread > MAX_HEADER then Fail(c1, HeaderOverflow) else Take(c1, ch)
  }

  lemma StepKeepsValid(c: Core, ch: char)
    requires Valid(c) && !Stopped(c)
    ensures Valid(Step(c, ch).0)
  {
  }

  /** The character that ended a run was not taken. */
  predicate NotTaken(c: Core) { c.errno != Ok || c.state == Trailer }

  /** Feeding a stretch, up to the end of the message, a trailer or an error. */
  function Feed(c: Core, data: string): (o: Out)
    requires Valid(c)
    ensures o.consumed <= |data| && Valid(o.core)
    ensures o.consumed < |data| ==> Stopped(o.core)
    decreases |data|
  {
    if data == [] || Stopped(c) then Out(c, 0, []) else
      StepKeepsValid(c, data[0]);
      var (c', ev) := Step(c, data[0]);
      if NotTaken(c') then Out(c', 0, ev) else
        var o := Feed(c', data[1..]);
        Out(o.core, 1 + o.consumed, ev + o.events)
  }

  function Then(o: Out, p: Out): Out {
    Out(p.core, o.consumed + p.consumed, o.events + p.events)
  }

  /** Feeding two stretches in turn is feeding them as one. */
  lemma {:induction false} FeedSplit(c: Core, a: string, b: string)
    requires Valid(c)
    ensures Feed(c, a + b) == Then(Feed(c, a), Feed(Feed(c, a).core, b))
    decreases |a|
  {
    hide Step, Valid, Stopped, NotTaken;
    if a == [] || Stopped(c) {
      assert a == [] ==> a + b == b;
      assert [] + Feed(c, b).events == Feed(c, b).events;
    } else {
      StepKeepsValid(c, a[0]);
      var (c', ev) := Step(c, a[0]);
      assert (a + b)[0] == a[0] && (a + b)[1..] == a[1..] + b;
      if NotTaken(c') {
        FailedStops(c', b);
        assert ev + [] == ev;
      } else {
        FeedSplit(c', a[1..], b);
        var o := Feed(c', a[1..]);
        var p := Feed(o.core, b);
        assert ev + (o.events + p.events) == (ev + o.events) + p.events;
      }
    }
  }

  lemma FailedStops(c: Core, data: string)
    requires Valid(c) && NotTaken(c)
    ensures Feed(c, data) == Out(c, 0, [])
  {
  }

  // ----- calls

  /** Where the body ends within the events: everything after it is body. */
  function BodyFrom(ev: seq<Event>): (n: nat)
    ensures n <= |ev| && (forall i :: n <= i < |ev| ==> ev[i].Body?) && (n > 0 ==> !ev[n - 1].Body?)
  {
    if ev != [] && ev[|ev| - 1].Body? then BodyFrom(ev[..|ev| - 1]) else |ev|
  }

  /** The error that comes right behind the data of a chunk. */
  predicate LosesBody(c: Core) { c.errno == Strict && c.state == DataAlmostDone }

  /** What a call delivers.  Body is delivered at the end of a chunk or of the buffer,
      so that an error in between loses what the call has marked. */
  function Visible(o: Out): seq<Event> {
    if LosesBody(o.core) then o.events[..BodyFrom(o.events)] else o.events
  }

  /** One call of the parser with callbacks that return 0.  A call without data says
      that the connection has ended. */
  function Call(c: Core, data: string): (o: Out)
    requires Valid(c)
    ensures Valid(o.core)
  {
    if c.errno != Ok then Out(c, 0, [])
    else if data == [] then
      if c.state == Finished then Out(c, 0, []) else Out(c.(errno := InvalidEofState), 1, [])
    else
      var o := Feed(c, data);
      Out(o.core, o.consumed, Visible(o))
  }

  function Calls(c: Core, pieces: seq<string>): Out
    requires Valid(c)
    decreases |pieces|
  {
    if pieces == [] then Out(c, 0, []) else
      var o := Call(c, pieces[0]);
      Then(o, Calls(o.core, pieces[1..]))
  }

  lemma FeedStopped(c: Core, data: string)
    requires Valid(c) && (data == [] || Stopped(c))
    ensures Feed(c, data) == Out(c, 0, [])
  {
  }

  lemma {:induction false} BodyFromIs(ev: seq<Event>, n: nat)
    requires n <= |ev| && (forall i :: n <= i < |ev| ==> ev[i].Body?) && (n > 0 ==> !ev[n - 1].Body?)
    ensures BodyFrom(ev) == n
  {
    if n < |ev| { BodyFromIs(ev[..|ev| - 1], n); }
  }

  lemma BodyFromMore(a: seq<Event>, b: seq<Event>)
    ensures BodyFrom(a + b) <= |a| + BodyFrom(b) && (a + b)[..BodyFrom(a + b)] <= a + b[..BodyFrom(b)]
  {
    var m := BodyFrom(b);
    var n := if m > 0 then |a| + m else BodyFrom(a);
    BodyFromIs(a + b, n);
    assert (a + b)[..n] == (a + b[..m])[..n];
  }

  /** However a stream is cut into calls with data, the fields and the number of
      characters taken are those of one run.  So are the callbacks, but that an error
      right behind chunk data may lose body that a cut in between would have saved. */
  lemma {:induction false} AnySplit(c: Core, pieces: seq<string>)
    requires Valid(c) && forall i :: 0 <= i < |pieces| ==> pieces[i] != []
    ensures var whole := Feed(c, Concat(pieces));
            var run := Calls(c, pieces);
            && run.core == whole.core && run.consumed == whole.consumed
            && (!LosesBody(whole.core) || LosesBody(c) ==> run.events == whole.events)
            && (LosesBody(whole.core) ==> Visible(whole) <= run.events <= whole.events)
    decreases |pieces|
  {
    hide Step, Valid, Feed, BodyFrom;
    if pieces == [] {
      FeedStopped(c, []);
    } else {
      var rest := Concat(pieces[1..]);
      if c.errno != Ok {
        FeedStopped(c, pieces[0]);
        FeedStopped(c, Concat(pieces));
      }
      FeedSplit(c, pieces[0], rest);
      var o := Feed(c, pieces[0]);
      var p := Feed(o.core, rest);
      if Stopped(o.core) { FeedStopped(o.core, rest); }
      AnySplit(o.core, pieces[1..]);
      BodyFromMore(o.events, p.events);
    }
  }

  // ----- reading piece by piece

  /** From c the text x, whatever follows it, is read in full: it leads to d and brings
      the events ev. */
  ghost predicate Reads(c: Core, x: string, rest: string, d: Core, ev: seq<Event>) {
    Valid(c) && Valid(d) && Feed(c, x + rest) == Then(Out(d, |x|, ev), Feed(d, rest))
  }

  lemma ReadsNothing(c: Core, rest: string)
    requires Valid(c)
    ensures Reads(c, [], rest, c, [])
  {
    hide Feed, Valid;
    assert [] + rest == rest && [] + Feed(c, rest).events == Feed(c, rest).events;
  }

  lemma ReadsOne(c: Core, ch: char, rest: string, d: Core, ev: seq<Event>)
    requires Valid(c) && !Stopped(c) && Step(c, ch) == (d, ev) && !NotTaken(d)
    ensures Reads(c, [ch], rest, d, ev)
  {
    hide Step, Valid;
    StepKeepsValid(c, ch);
    assert ([ch] + rest)[1..] == rest;
  }

  lemma ReadsJoin(c: Core, x: string, d: Core, ev: seq<Event>, y: string, e: Core, ev': seq<Event>, rest: string)
    requires Reads(c, x, y + rest, d, ev) && Reads(d, y, rest, e, ev')
    ensures Reads(c, x + y, rest, e, ev + ev') && (ev == [] ==> Reads(c, x + y, rest, e, ev'))
  {
    hide Feed, Valid;
    assert ev == [] ==> ev + ev' == ev';
    assert x + (y + rest) == (x + y) + rest;
    assert ev + (ev' + Feed(e, rest).events) == (ev + ev') + Feed(e, rest).events;
  }

  // ----- the data of a chunk

  function BodyEvents(data: string): (s: seq<Event>)
    ensures |s| == |data|
  {
    seq(|data|, i requires 0 <= i < |data| => Body(data[i]))
  }

  lemma HeadAndTail(s: string)
    requires s != []
    ensures s == [s[0]] + s[1..]
  {
  }

  /** The parser with n characters of the chunk still to come. */
  predicate InData(c: Core, n: nat) {
    Valid(c) && c.errno == Ok && c.contentLength == n && c.state == if n == 0 then DataAlmostDone else Data
  }

  function AfterData(c: Core, n: nat): Core
    requires n <= c.contentLength
  {
    c.(contentLength := c.contentLength - n, state := if n == c.contentLength then DataAlmostDone else Data)
  }

  lemma DataStep(c: Core, ch: char)
    requires InData(c, c.contentLength) && c.contentLength > 0
    ensures Step(c, ch) == (AfterData(c, 1), [Body(ch)]) && InData(AfterData(c, 1), c.contentLength - 1)
  {
  }

  lemma BodyEventsFirst(s: string)
    requires s != []
    ensures BodyEvents(s) == [Body(s[0])] + BodyEvents(s[1..])
  {
  }

  /** Data up to the size of the chunk is delivered as it is. */
  lemma {:induction false} ReadsData(c: Core, s: string, rest: string)
    requires InData(c, c.contentLength) && |s| <= c.contentLength
    ensures InData(AfterData(c, |s|), c.contentLength - |s|) && Reads(c, s, rest, AfterData(c, |s|), BodyEvents(s))
    decreases |s|
  {
    hide Reads, Step, BodyEvents;
    if s == [] {
      ReadsNothing(c, rest);
      assert AfterData(c, 0) == c && BodyEvents(s) == [];
    } else {
      var d := AfterData(c, 1);
      DataStep(c, s[0]);
      ReadsOne(c, s[0], s[1..] + rest, d, [Body(s[0])]);
      ReadsData(d, s[1..], rest);
      HeadAndTail(s);
      BodyEventsFirst(s);
      assert AfterData(d, |s| - 1) == AfterData(c, |s|);
      ReadsJoin(c, [s[0]], d, [Body(s[0])], s[1..], AfterData(c, |s|), BodyEvents(s[1..]), rest);
    }
  }
}
