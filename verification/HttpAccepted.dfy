/** What the parser takes for a complete body: a chunked body, and nothing else. */
module HttpAccepted {
  import opened HttpChunkSpec
  import opened HttpChunks

  /** The run reaches the end of the message. */
  ghost predicate Completes(c: Core, data: string)
    requires Valid(c)
  {
    Feed(c, data).core.state == Finished
  }

  /** Where a run that completes goes on, x having been taken. */
  ghost predicate Goes(c: Core, data: string, x: string, d: Core, ev: seq<Event>, rest: string) {
    && Valid(c) && Valid(d) && data == x + rest && Completes(d, rest)
    && Feed(c, data) == Then(Out(d, |x|, ev), Feed(d, rest))
  }

  lemma GoesNowhere(c: Core, data: string)
    requires Valid(c) && Completes(c, data)
    ensures Goes(c, data, [], c, [], data)
  {
    hide Feed, Valid;
    assert [] + data == data && [] + Feed(c, data).events == Feed(c, data).events;
  }

  /** A run that completes takes its first character without an error. */
  lemma GoesOn(c: Core, data: string)
    requires Valid(c) && !Stopped(c) && Completes(c, data)
    ensures data != [] && Goes(c, data, [data[0]], Step(c, data[0]).0, Step(c, data[0]).1, data[1..])
    ensures !NotTaken(Step(c, data[0]).0)
  {
    StepKeepsValid(c, data[0]);
    FailsWhere(c, data[0]);
    hide Step, Valid;
    assert data == [data[0]] + data[1..];
  }

  lemma FailsWhere(c: Core, ch: char)
    requires Valid(c) && !Stopped(c)
    ensures NotTaken(Step(c, ch).0) ==> Step(c, ch).0.state != Finished
  {
  }

  lemma GoesJoin(c: Core, data: string, x: string, d: Core, ev: seq<Event>, mid: string, y: string, e: Core, ev': seq<Event>, rest: string)
    requires Goes(c, data, x, d, ev, mid) && Goes(d, mid, y, e, ev', rest)
    ensures Goes(c, data, x + y, e, ev + ev', rest) && (ev == [] ==> Goes(c, data, x + y, e, ev', rest))
  {
    hide Feed, Valid;
    assert ev == [] ==> ev + ev' == ev';
    assert x + (y + rest) == (x + y) + rest;
    assert ev + (ev' + Feed(e, rest).events) == (ev + ev') + Feed(e, rest).events;
  }

  // ----- the size line

  lemma DigitTaken(c: Core, ch: char)
    requires InSize(c) && Unhex(ch) != -1 && !NotTaken(Step(c, ch).0)
    ensures c.nread < MAX_HEADER && c.contentLength * 16 + Unhex(ch) <= ULLONG_MAX - 16
    ensures var d := c.(contentLength := c.contentLength * 16 + Unhex(ch), nread := c.nread + 1);
            Step(c, ch) == (d, []) && InSize(d)
  {
  }

  /** The digits go on up to a character that is none. */
  lemma {:induction false} DigitsTaken(c: Core, data: string) returns (s: string, d: Core, rest: string)
    requires InSize(c) && Completes(c, data)
    ensures Digits(s) && rest != [] && Unhex(rest[0]) == -1 && InSize(d)
    ensures d == c.(contentLength := HexFrom(c.contentLength, s), nread := c.nread + |s|)
    ensures Goes(c, data, s, d, [], rest)
    decreases |data|
  {
    hide Unhex, Step, Goes;
    GoesOn(c, data);
    if Unhex(data[0]) == -1 {
      s, d, rest := [], c, data;
      GoesNowhere(c, data);
    } else {
      DigitTaken(c, data[0]);
      var d1 := Step(c, data[0]).0;
      GoesCompletes(c, data, [data[0]], d1, [], data[1..]);
      var t;
      t, d, rest := DigitsTaken(d1, data[1..]);
      s := [data[0]] + t;
      assert s[1..] == t;
      GoesJoin(c, data, [data[0]], d1, [], data[1..], t, d, [], rest);
    }
  }

  lemma GoesCompletes(c: Core, data: string, x: string, d: Core, ev: seq<Event>, rest: string)
    requires Goes(c, data, x, d, ev, rest)
    ensures Valid(d) && Completes(d, rest)
  {
  }

  lemma FirstDigitTaken(c: Core, ch: char)
    requires AtSizeStart(c) && !NotTaken(Step(c, ch).0)
    ensures Unhex(ch) != -1
    ensures var d := c.(state := Size, contentLength := Unhex(ch), nread := 1);
            Step(c, ch) == (d, []) && InSize(d)
  {
  }

  lemma LineTaken(c: Core, ch: char)
    requires InLine(c) && !NotTaken(Step(c, ch).0) && ch != '\r' && (c.state == Size ==> Unhex(ch) == -1)
    ensures c.state == Size ==> ch == ';' || ch == ' '
    ensures var d := c.(nread := c.nread + 1, state := Parameters);
            Step(c, ch) == (d, []) && InLine(d)
  {
  }

  /** What follows the size, up to the carriage return. */
  lemma {:induction false} ExtensionTaken(c: Core, data: string) returns (s: string, d: Core, rest: string)
    requires InLine(c) && Completes(c, data) && (c.state == Size ==> data != [] && Unhex(data[0]) == -1)
    ensures (forall i :: 0 <= i < |s| ==> s[i] != '\r') && rest != [] && rest[0] == '\r' && InLine(d)
    ensures s != [] && c.state == Size ==> s[0] == ';' || s[0] == ' '
    ensures d == c.(nread := c.nread + |s|, state := if s == [] then c.state else Parameters)
    ensures Goes(c, data, s, d, [], rest)
    decreases |data|
  {
    hide Unhex, Step, Goes;
    GoesOn(c, data);
    if data[0] == '\r' {
      s, d, rest := [], c, data;
      GoesNowhere(c, data);
    } else {
      LineTaken(c, data[0]);
      var d1 := Step(c, data[0]).0;
      GoesCompletes(c, data, [data[0]], d1, [], data[1..]);
      var t;
      t, d, rest := ExtensionTaken(d1, data[1..]);
      s := [data[0]] + t;
      GoesJoin(c, data, [data[0]], d1, [], data[1..], t, d, [], rest);
    }
  }

  lemma ReturnTaken(c: Core)
    requires InLine(c) && !NotTaken(Step(c, '\r').0)
    ensures c.nread < MAX_HEADER
    ensures var d := c.(nread := c.nread + 1, state := SizeAlmostDone);
            Step(c, '\r') == (d, []) && Valid(d) && !Stopped(d)
  {
  }

  lemma LineFeedTaken(c: Core, ch: char)
    requires Valid(c) && c.errno == Ok && c.state == SizeAlmostDone && !NotTaken(Step(c, ch).0)
    ensures ch == '\n' && c.nread < MAX_HEADER
    ensures Step(c, ch) == (AfterLine(c, c.contentLength), [Header(c.contentLength)]) && Valid(AfterLine(c, c.contentLength))
  {
  }

  /** The end of the size line. */
  lemma LineEndTaken(c: Core, data: string) returns (rest: string)
    requires InLine(c) && Completes(c, data) && data != [] && data[0] == '\r'
    ensures c.nread + 2 <= MAX_HEADER && Valid(AfterLine(c, c.contentLength))
    ensures Goes(c, data, CRLF, AfterLine(c, c.contentLength), [Header(c.contentLength)], rest)
  {
    hide Step, Goes;
    GoesOn(c, data);
    ReturnTaken(c);
    var d, mid := Step(c, '\r').0, data[1..];
    GoesCompletes(c, data, ['\r'], d, [], mid);
    GoesOn(d, mid);
    LineFeedTaken(d, mid[0]);
    rest := mid[1..];
    GoesJoin(c, data, ['\r'], d, [], mid, ['\n'], AfterLine(d, d.contentLength), [Header(d.contentLength)], rest);
    SameAfterLine(c, d, c.contentLength);
  }

  /** A size line, with its value. */
  lemma SizeLineTaken(c: Core, data: string) returns (size: string, ext: string, rest: string)
    requires AtSizeStart(c) && Completes(c, data)
    ensures SizeLine(size, ext) && HexFrom(0, size) <= ULLONG_MAX - 16
    ensures var v := HexFrom(0, size);
            Valid(AfterLine(c, v)) && Goes(c, data, size + (ext + CRLF), AfterLine(c, v), [Header(v)], rest)
  {
    hide Step, Goes, Unhex;
    GoesOn(c, data);
    FirstDigitTaken(c, data[0]);
    var c1 := Step(c, data[0]).0;
    GoesCompletes(c, data, [data[0]], c1, [], data[1..]);
    var s, c2, mid := DigitsTaken(c1, data[1..]);
    size := [data[0]] + s;
    assert size[1..] == s;
    GoesJoin(c, data, [data[0]], c1, [], data[1..], s, c2, [], mid);
    GoesCompletes(c1, data[1..], s, c2, [], mid);
    var e, c3, mid2 := ExtensionTaken(c2, mid);
    ext := e;
    GoesCompletes(c2, mid, ext, c3, [], mid2);
    rest := LineEndTaken(c3, mid2);
    var v := HexFrom(0, size);
    assert v == HexFrom(Unhex(data[0]), s);
    hide Digits, HexFrom;
    SameAfterLine(c, c3, v);
    GoesJoin(c2, mid, ext, c3, [], mid2, CRLF, AfterLine(c, v), [Header(v)], rest);
    GoesJoin(c, data, size, c2, [], mid, ext + CRLF, AfterLine(c, v), [Header(v)], rest);
  }

  // ----- the data

  lemma ReadsGoes(c: Core, x: string, rest: string, d: Core, ev: seq<Event>)
    requires Reads(c, x, rest, d, ev) && Completes(c, x + rest)
    ensures Goes(c, x + rest, x, d, ev, rest)
  {
    hide Feed, Valid;
  }

  /** All the data of a chunk comes. */
  lemma DataTaken(c: Core, n: nat, data: string) returns (x: string, rest: string)
    requires InData(c, n) && Completes(c, data)
    ensures |x| == n && InData(AfterData(c, n), 0) && Goes(c, data, x, AfterData(c, n), BodyEvents(x), rest)
  {
    if |data| < n {
      ReadsData(c, data, []);
      ReadsToEnd(c, data, AfterData(c, |data|), BodyEvents(data));
      assert false;
    }
    x, rest := data[..n], data[n..];
    ReadsData(c, x, rest);
    assert data == x + rest;
    hide Reads, Goes, Feed, Completes;
    ReadsGoes(c, x, rest, AfterData(c, n), BodyEvents(x));
  }

  lemma DataEndIs(c: Core, ch: char)
    requires InData(c, 0) && !NotTaken(Step(c, ch).0)
    ensures ch == '\r' && Step(c, ch) == (c.(state := DataDone), []) && Valid(c.(state := DataDone))
  {
  }

  lemma ChunkEndIs(c: Core, ch: char)
    requires Valid(c) && c.errno == Ok && c.state == DataDone && !NotTaken(Step(c, ch).0)
    ensures var d := c.(nread := 0, state := SizeStart);
            ch == '\n' && Step(c, ch) == (d, [ChunkComplete]) && AtSizeStart(d)
  {
  }

  lemma DataEndTaken(c: Core, data: string) returns (rest: string)
    requires InData(c, 0) && Completes(c, data)
    ensures var d := c.(nread := 0, state := SizeStart);
            AtSizeStart(d) && Goes(c, data, CRLF, d, [ChunkComplete], rest)
  {
    hide Step, Goes;
    GoesOn(c, data);
    DataEndIs(c, data[0]);
    var d, mid := Step(c, '\r').0, data[1..];
    GoesCompletes(c, data, ['\r'], d, [], mid);
    GoesOn(d, mid);
    ChunkEndIs(d, mid[0]);
    rest := mid[1..];
    GoesJoin(c, data, ['\r'], d, [], mid, ['\n'], d.(nread := 0, state := SizeStart), [ChunkComplete], rest);
  }

  /** A chunk behind its size line. */
  lemma ChunkTaken(c: Core, size: string, ext: string, line: string, data: string, mid: string) returns (k: Chunk, rest: string)
    requires AtSizeStart(c) && SizeLine(size, ext) && 0 < HexFrom(0, size) <= ULLONG_MAX - 16 && line == size + (ext + CRLF)
    requires Valid(AfterLine(c, HexFrom(0, size)))
    requires Goes(c, data, line, AfterLine(c, HexFrom(0, size)), [Header(HexFrom(0, size))], mid)
    ensures Sendable(k) && AtSizeStart(c.(contentLength := 0))
    ensures Goes(c, data, Wire(k), c.(contentLength := 0), EventsOf(k), rest)
  {
    var n := HexFrom(0, size);
    var c1, d := AfterLine(c, n), c.(contentLength := 0);
    LineLeads(c, n);
    hide *;
    GoesCompletes(c, data, line, c1, [Header(n)], mid);
    var x, mid2 := DataTaken(c1, n, mid);
    var c2 := AfterData(c1, n);
    GoesCompletes(c1, mid, x, c2, BodyEvents(x), mid2);
    rest := DataEndTaken(c2, mid2);
    k := Chunk(size, ext, x);
    GoesJoin(c1, mid, x, c2, BodyEvents(x), mid2, CRLF, d, [ChunkComplete], rest);
    GoesJoin(c, data, line, c1, [Header(n)], mid, x + CRLF, d, BodyEvents(x) + [ChunkComplete], rest);
    ChunkIs(k, n, line);
  }

  lemma LineLeads(c: Core, n: nat)
    requires AtSizeStart(c) && 0 < n <= ULLONG_MAX - 16 && Valid(AfterLine(c, n))
    ensures Valid(c) && InData(AfterLine(c, n), n)
    ensures AfterData(AfterLine(c, n), n).(nread := 0, state := SizeStart) == c.(contentLength := 0)
  {
  }

  lemma ChunkIs(k: Chunk, n: nat, line: string)
    requires SizeLine(k.size, k.ext) && n == HexFrom(0, k.size) == |k.data| && 0 < n <= ULLONG_MAX - 16 && line == k.size + (k.ext + CRLF)
    ensures Sendable(k) && Wire(k) == line + (k.data + CRLF) && EventsOf(k) == [Header(n)] + (BodyEvents(k.data) + [ChunkComplete])
  {
    hide SizeLine, HexFrom, BodyEvents;
  }

  // ----- the end of the message

  lemma TrailerIs(c: Core, ch: char)
    requires AtSizeStart(c) && !NotTaken(Step(AfterLine(c, 0), ch).0)
    ensures var c1 := AfterLine(c, 0);
            && (ch == '\r' || ch == '\n')
            && (ch == '\r' ==> Step(c1, ch) == (c1.(nread := 1, state := HeadersAlmostDone), []) && Valid(Step(c1, ch).0))
            && (ch == '\n' ==> Step(c1, ch) == (c1.(nread := 1, state := Finished), [ChunkComplete, MessageComplete]))
  {
  }

  lemma TrailerEndIs(c: Core, ch: char)
    requires Valid(c) && c.errno == Ok && c.state == HeadersAlmostDone && !NotTaken(Step(c, ch).0)
    ensures ch == '\n' && Step(c, ch) == (c.(nread := c.nread + 1, state := Finished), [ChunkComplete, MessageComplete])
  {
  }

  predicate LineEnd(x: string) { x == CRLF || x == ['\n'] }

  /** The empty trailer; a line feed alone will do. */
  lemma TrailerTaken(c: Core, data: string) returns (end: string, d: Core, rest: string)
    requires AtSizeStart(c) && Completes(AfterLine(c, 0), data)
    ensures LineEnd(end) && Stopped(d) && Goes(AfterLine(c, 0), data, end, d, [ChunkComplete, MessageComplete], rest)
  {
    hide Step, Goes;
    var c1 := AfterLine(c, 0);
    GoesOn(c1, data);
    TrailerIs(c, data[0]);
    if data[0] == '\n' {
      end, d, rest := ['\n'], Step(c1, data[0]).0, data[1..];
    } else {
      var c2, mid := Step(c1, '\r').0, data[1..];
      GoesCompletes(c1, data, ['\r'], c2, [], mid);
      GoesOn(c2, mid);
      TrailerEndIs(c2, mid[0]);
      end, d, rest := CRLF, Step(c2, mid[0]).0, mid[1..];
      GoesJoin(c1, data, ['\r'], c2, [], mid, ['\n'], d, [ChunkComplete, MessageComplete], rest);
    }
  }

  // ----- the whole body

  /** Chunks, the last size line and a line end. */
  function Whole(ks: seq<Chunk>, size: string, ext: string, end: string): string {
    if ks == [] then (size + (ext + CRLF)) + end else Wire(ks[0]) + Whole(ks[1..], size, ext, end)
  }

  /** The parts of a body that can be sent. */
  ghost predicate Proper(ks: seq<Chunk>, size: string, ext: string, end: string) {
    && (forall i :: 0 <= i < |ks| ==> Sendable(ks[i]))
    && SizeLine(size, ext) && HexFrom(0, size) == 0 && LineEnd(end)
  }

  /** A run that completes has taken a chunked body and nothing more, and brought its
      chunks to the callbacks. */
  lemma {:induction false} CompletedIsChunked(c: Core, data: string) returns (ks: seq<Chunk>, size: string, ext: string, end: string)
    requires AtSizeStart(c) && Completes(c, data)
    ensures Taken(Feed(c, data), data, ks, size, ext, end)
    decreases |data|
  {
    var line, e, mid := SizeLineTaken(c, data);
    size, ext := line, e;
    var v := HexFrom(0, size);
    if v == 0 {
      GoesCompletes(c, data, size + (ext + CRLF), AfterLine(c, 0), [Header(0)], mid);
      var x, d, rest := TrailerTaken(c, mid);
      ks, end := [], x;
      GoesJoin(c, data, size + (ext + CRLF), AfterLine(c, 0), [Header(0)], mid, end, d, [ChunkComplete, MessageComplete], rest);
      Stops(c, data, (size + (ext + CRLF)) + end, d, [Header(0)] + [ChunkComplete, MessageComplete], rest);
      hide Feed;
      assert [Header(0)] + [ChunkComplete, MessageComplete] == LAST_EVENTS;
    } else {
      var k, rest := ChunkTaken(c, size, ext, size + (ext + CRLF), data, mid);
      var d := c.(contentLength := 0);
      GoesCompletes(c, data, Wire(k), d, EventsOf(k), rest);
      Shorter(k, data, rest);
      var ls;
      ls, size, ext, end := CompletedIsChunked(d, rest);
      ks := [k] + ls;
      FirstChunk(c, data, k, d, rest, ls, size, ext, end);
    }
  }

  lemma Stops(c: Core, data: string, x: string, d: Core, ev: seq<Event>, rest: string)
    requires Goes(c, data, x, d, ev, rest) && Stopped(d)
    ensures Valid(c) && Feed(c, data).consumed == |x| <= |data| && data[..|x|] == x && Feed(c, data).events == ev
  {
    FeedStopped(d, rest);
    hide Feed;
    assert ev + [] == ev;
  }

  lemma Shorter(k: Chunk, data: string, rest: string)
    requires data == Wire(k) + rest
    ensures |rest| < |data|
  {
  }

  lemma FirstChunk(c: Core, data: string, k: Chunk, d: Core, rest: string, ls: seq<Chunk>, size: string, ext: string, end: string)
    requires Goes(c, data, Wire(k), d, EventsOf(k), rest) && Sendable(k)
    requires Valid(d) && Taken(Feed(d, rest), rest, ls, size, ext, end)
    ensures Valid(c) && Taken(Feed(c, data), data, [k] + ls, size, ext, end)
  {
    MoreChunks(k, ls, size, ext, end);
    GoesParts(c, data, Wire(k), d, EventsOf(k), rest);
    hide Goes, Feed, Valid, Sendable, Proper, Wire, EventsOf, Whole, EventsAll;
    var n, w := Feed(d, rest).consumed, Whole(ls, size, ext, end);
    Prefix(data, Wire(k), rest, n, w, Whole([k] + ls, size, ext, end));
  }

  /** What a run that completes has taken and brought. */
  ghost predicate Taken(o: Out, data: string, ks: seq<Chunk>, size: string, ext: string, end: string) {
    && Proper(ks, size, ext, end) && o.consumed <= |data|
    && data[..o.consumed] == Whole(ks, size, ext, end) && o.events == EventsAll(ks)
  }

  lemma MoreChunks(k: Chunk, ls: seq<Chunk>, size: string, ext: string, end: string)
    requires Sendable(k) && Proper(ls, size, ext, end)
    ensures Proper([k] + ls, size, ext, end) && Whole([k] + ls, size, ext, end) == Wire(k) + Whole(ls, size, ext, end)
    ensures EventsAll([k] + ls) == EventsOf(k) + EventsAll(ls)
  {
    hide Sendable, SizeLine, HexFrom, Wire, EventsOf;
    assert ([k] + ls)[1..] == ls;
  }

  lemma GoesParts(c: Core, data: string, x: string, d: Core, ev: seq<Event>, rest: string)
    requires Goes(c, data, x, d, ev, rest)
    ensures Valid(c) && Valid(d) && data == x + rest
    ensures Feed(c, data).consumed == |x| + Feed(d, rest).consumed && Feed(c, data).events == ev + Feed(d, rest).events
  {
    hide Feed, Valid;
  }

  lemma Prefix(data: string, x: string, rest: string, n: nat, w: string, whole: string)
    requires data == x + rest && n <= |rest| && rest[..n] == w && whole == x + w
    ensures |x| + n <= |data| && data[..|x| + n] == whole
  {
  }

  lemma EndSteps(c: Core)
    requires AtSizeStart(c)
    ensures var c1 := AfterLine(c, 0);
            var c2 := c1.(nread := 1, state := HeadersAlmostDone);
            && Step(c1, '\r') == (c2, []) && Valid(c2)
            && Step(c2, '\n') == (c2.(nread := 2, state := Finished), [ChunkComplete, MessageComplete])
            && Step(c1, '\n') == (c1.(nread := 1, state := Finished), [ChunkComplete, MessageComplete])
  {
  }

  lemma EndIsRead(c: Core, end: string, rest: string)
    requires AtSizeStart(c) && LineEnd(end)
    ensures Valid(AfterLine(c, 0)) && Completes(AfterLine(c, 0), end + rest)
  {
    EndSteps(c);
    var c1 := AfterLine(c, 0);
    hide Step;
    if end == CRLF {
      var c2 := c1.(nread := 1, state := HeadersAlmostDone);
      var more := ['\n'] + rest;
      FeedStopped(c2.(nread := 2, state := Finished), rest);
      assert more[0] == '\n' && more[1..] == rest;
      assert Completes(c2, more);
      assert (end + rest)[0] == '\r' && (end + rest)[1..] == more;
    } else {
      assert (end + rest)[1..] == rest;
      FeedStopped(c1.(nread := 1, state := Finished), rest);
    }
  }

  lemma ReadsCompletes(c: Core, x: string, d: Core, ev: seq<Event>, rest: string)
    requires Reads(c, x, rest, d, ev) && Completes(d, rest)
    ensures Valid(c) && Completes(c, x + rest)
  {
    hide Feed;
  }

  /** The other way round: a run over a chunked body completes, whatever follows it. */
  lemma {:induction false} ChunkedCompletes(c: Core, ks: seq<Chunk>, size: string, ext: string, end: string, rest: string)
    requires AtSizeStart(c) && Proper(ks, size, ext, end)
    ensures Completes(c, Whole(ks, size, ext, end) + rest)
    decreases |ks|
  {
    hide Feed, Step, Completes, Sendable, SizeLine, HexFrom, Wire, EventsOf, Reads, LineEnd;
    if ks == [] {
      var line := size + (ext + CRLF);
      ReadsSizeLine(c, size, ext, end + rest);
      EndIsRead(c, end, rest);
      ReadsCompletes(c, line, AfterLine(c, 0), [Header(0)], end + rest);
      assert (line + end) + rest == line + (end + rest);
    } else {
      var d, more := c.(contentLength := 0), Whole(ks[1..], size, ext, end);
      ReadsChunk(c, ks[0], more + rest);
      ChunkedCompletes(d, ks[1..], size, ext, end, rest);
      ReadsCompletes(c, Wire(ks[0]), d, EventsOf(ks[0]), more + rest);
      assert (Wire(ks[0]) + more) + rest == Wire(ks[0]) + (more + rest);
    }
  }

  /** A run completes exactly when the stream begins with a chunked body. */
  lemma CompletesExactly(c: Core, data: string)
    requires AtSizeStart(c)
    ensures Completes(c, data) <==>
            exists ks, size, ext, end :: Proper(ks, size, ext, end) && Whole(ks, size, ext, end) <= data
  {
    assert Valid(c);
    hide Completes, Proper, Whole, AtSizeStart, Valid;
    if Completes(c, data) {
      var ks, size, ext, end := CompletedIsChunked(c, data);
      TakenIs(Feed(c, data), data, ks, size, ext, end);
    }
    if ks, size, ext, end :| Proper(ks, size, ext, end) && Whole(ks, size, ext, end) <= data {
      var w := Whole(ks, size, ext, end);
      ChunkedCompletes(c, ks, size, ext, end, data[|w|..]);
      assert w + data[|w|..] == data;
    }
  }

  lemma TakenIs(o: Out, data: string, ks: seq<Chunk>, size: string, ext: string, end: string)
    requires Taken(o, data, ks, size, ext, end)
    ensures Proper(ks, size, ext, end) && Whole(ks, size, ext, end) <= data
  {
    hide Proper, Whole;
    assert data[..o.consumed] <= data;
  }
}
