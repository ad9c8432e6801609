/** src/http_parser.c: the chunked-body part of the parser, driven by buffers of any
    size, with callbacks that return 0. */
module HttpChunk {
  import opened HttpChunkSpec

  /** One callback invocation; the body comes in stretches of the buffer. */
  datatype Callback = OnHeader(size: nat) | OnBody(bytes: string) | OnChunkComplete | OnMessageComplete

  function Seen(cb: Callback): seq<Event> {
    match cb
    case OnHeader(n) => [Header(n)]
    case OnBody(bytes) => BodyEvents(bytes)
    case OnChunkComplete => [ChunkComplete]
    case OnMessageComplete => [MessageComplete]
  }

  function SeenAll(cbs: seq<Callback>): seq<Event> {
    if cbs == [] then [] else SeenAll(cbs[..|cbs| - 1]) + Seen(cbs[|cbs| - 1])
  }

  lemma SeenMore(cbs: seq<Callback>, cb: Callback)
    ensures SeenAll(cbs + [cb]) == SeenAll(cbs) + Seen(cb)
  {
    assert (cbs + [cb])[..|cbs|] == cbs;
  }

  /** The body between the mark, if there is one, and p. */
  function Marked(data: string, mark: int, p: nat): seq<Event>
    requires mark <= p <= |data|
  {
    if mark >= 0 then BodyEvents(data[mark..p]) else []
  }

  /** The parser is at character p, has brought the events ev, and what is left to come
      is what the reference makes of the rest. */
  ghost predicate At(c0: Core, data: string, c: Core, p: nat, ev: seq<Event>)
    requires Valid(c0) && Valid(c)
  {
    p <= |data| && Feed(c0, data) == Then(Out(c, p, ev), Feed(c, data[p..]))
  }

  /** All events but the marked body have been delivered; what is marked is all the body
      at the end of the events. */
  ghost predicate Pending(data: string, mark: int, p: nat, ev: seq<Event>, before: seq<Event>, seen: seq<Event>, c: Core) {
    && mark <= p <= |data|
    && before + ev == seen + Marked(data, mark, p)
    && (mark >= 0 ==> BodyFrom(ev) == |ev| - (p - mark))
    && (mark >= 0 ==> c.state == Data || c.state == DataAlmostDone)
    && (c.state == Data || c.state == DataAlmostDone ==> mark >= 0 || BodyFrom(ev) == |ev|)
  }

  class Parser {
    var state: State
    var contentLength: nat
    var nread: nat
    var trailing: bool
    var errno: Errno
    var calls: seq<Callback>

    function Fields(): Core
      reads this
    {
      Core(state, contentLength, nread, trailing, errno)
    }

    constructor ()
      ensures Fields() == BODY_START && calls == []
    {
      state, contentLength, nread, trailing, errno, calls := SizeStart, 0, 0, false, Ok, [];
    }

    method Notify(cb: Callback)
      modifies this`calls
      ensures calls == old(calls) + [cb] && SeenAll(calls) == SeenAll(old(calls)) + Seen(cb)
    {
      SeenMore(calls, cb);
      calls := calls + [cb];
    }

    /** The callbacks so far have brought what the reference brings for a header
        character, and the fields are those of the reference. */
    ghost predicate Took(before: seq<Callback>, c: Core, ev: seq<Event>)
      reads this
    {
      Fields() == c && SeenAll(calls) == SeenAll(before) + ev
    }

    method OnSizeStart(ch: char)
      requires Valid(Fields()) && errno == Ok && state == SizeStart
      modifies this
      ensures var (c, ev) := Step(old(Fields()), ch);
              Took(old(calls), c, ev)
    {
      nread := nread + 1;
      assert nread == 1;
      var v := Unhex(ch);
      if v == -1 {
        errno := InvalidChunkSize;
        return;
      }
      contentLength := v;
      state := Size;
    }

    method OnSize(ch: char)
      requires Valid(Fields()) && errno == Ok && state == Size
      modifies this
      ensures var (c, ev) := Step(old(Fields()), ch);
              Took(old(calls), c, ev)
    {
      nread := nread + 1;
      if nread > MAX_HEADER {
        errno := HeaderOverflow;
        return;
      }
      if ch == '\r' {
        state := SizeAlmostDone;
        return;
      }
      var v := Unhex(ch);
      if v == -1 {
        if ch == ';' || ch == ' ' {
          state := Parameters;
          return;
        }
        errno := InvalidChunkSize;
        return;
      }
      var t := (contentLength * 16 % (ULLONG_MAX + 1) + v) % (ULLONG_MAX + 1);
      if (ULLONG_MAX - 16) / 16 < contentLength {
        errno := InvalidContentLength;
        return;
      }
      assert t == contentLength * 16 + v;
      contentLength := t;
    }

    /** The rest of the size line. */
    method OnLine(ch: char)
      requires Valid(Fields()) && errno == Ok && (state == Parameters || state == SizeAlmostDone)
      modifies this
      ensures var (c, ev) := Step(old(Fields()), ch);
              Took(old(calls), c, ev)
    {
      nread := nread + 1;
      if nread > MAX_HEADER {
        errno := HeaderOverflow;
        return;
      }
      if state == Parameters {
        if ch == '\r' {
          state := SizeAlmostDone;
        }
        return;
      }
      if ch != '\n' {
        errno := Strict;
        return;
      }
      nread := 0;
      if contentLength == 0 {
        trailing := true;
        state := FieldStart;
      } else {
        state := Data;
      }
      Notify(OnHeader(contentLength));
    }

    method OnDataDone(ch: char)
      requires Valid(Fields()) && errno == Ok && state == DataDone
      modifies this
      ensures var (c, ev) := Step(old(Fields()), ch);
              Took(old(calls), c, ev)
    {
      if ch != '\n' {
        errno := Strict;
        return;
      }
      nread := 0;
      state := SizeStart;
      Notify(OnChunkComplete);
    }

    method FinishMessage()
      modifies this`state, this`calls
      ensures state == Finished && SeenAll(calls) == SeenAll(old(calls)) + [ChunkComplete, MessageComplete]
    {
      Notify(OnChunkComplete);
      state := Finished;
      Notify(OnMessageComplete);
      assert (SeenAll(old(calls)) + [ChunkComplete]) + [MessageComplete]
          == SeenAll(old(calls)) + [ChunkComplete, MessageComplete];
    }

    /** The empty trailer. */
    method OnTrailer(ch: char)
      requires Valid(Fields()) && errno == Ok && (state == FieldStart || state == HeadersAlmostDone)
      modifies this
      ensures var (c, ev) := Step(old(Fields()), ch);
              Took(old(calls), c, ev)
    {
      hide SeenAll;
      nread := nread + 1;
      if nread > MAX_HEADER {
        errno := HeaderOverflow;
        return;
      }
      if state == FieldStart {
        if ch == '\r' {
          state := HeadersAlmostDone;
          return;
        }
        if ch != '\n' {
          state := Trailer;
          return;
        }
        state := HeadersAlmostDone;
      }
      if ch != '\n' {
        errno := Strict;
        return;
      }
      FinishMessage();
    }

    /** One character of a state that takes single characters and has no body to
        deliver. */
    method TakeOne(ch: char)
      requires Valid(Fields()) && !Stopped(Fields()) && state != Data && state != DataAlmostDone
      modifies this
      ensures var (c, ev) := Step(old(Fields()), ch);
              Took(old(calls), c, ev)
    {
      hide Step, Took;
      match state {
        case SizeStart => OnSizeStart(ch);
        case Size => OnSize(ch);
        case Parameters => OnLine(ch);
        case SizeAlmostDone => OnLine(ch);
        case DataDone => OnDataDone(ch);
        case FieldStart => OnTrailer(ch);
        case HeadersAlmostDone => OnTrailer(ch);
      }
    }

    /** The body marked from `mark` up to p goes to its callback. */
    method DeliverBody(data: string, mark: int, p: nat)
      requires mark <= p <= |data|
      modifies this`calls
      ensures SeenAll(calls) == SeenAll(old(calls)) + Marked(data, mark, p)
    {
      hide SeenAll;
      if mark >= 0 {
        Notify(OnBody(data[mark..p]));
      } else {
        assert SeenAll(calls) + [] == SeenAll(calls);
      }
    }

    /** http_parser_execute in the chunked-body states: what a call takes, and what the
        callbacks have seen after it, is what the reference says. */
    method Execute(data: string) returns (consumed: nat)
      requires Valid(Fields())
      modifies this
      ensures Valid(Fields())
      ensures var o := Call(old(Fields()), data);
              Fields() == o.core && consumed == o.consumed && SeenAll(calls) == SeenAll(old(calls)) + o.events
    {
      hide Valid, Step, Feed, SeenAll, Stopped, BodyFrom, Visible;
      assert SeenAll(calls) + [] == SeenAll(calls);
      if errno != Ok {
        return 0;
      }
      if |data| == 0 {
        if state == Finished {
          return 0;
        }
        StaysValid(Fields());
        errno := InvalidEofState;
        return 1;
      }
      consumed := TakeAll(data);
    }

    /** The loop over a buffer that is not empty. */
    method TakeAll(data: string) returns (consumed: nat)
      requires Valid(Fields()) && errno == Ok && data != []
      modifies this
      ensures Valid(Fields())
      ensures var o := Call(old(Fields()), data);
              Fields() == o.core && consumed == o.consumed && SeenAll(calls) == SeenAll(old(calls)) + o.events
    {
      hide Valid, Step, Feed, SeenAll, Marked, Stopped, BodyFrom, At, Pending, Visible;
      ghost var c0, before := Fields(), SeenAll(calls);
      var p, mark := 0, -1;
      ghost var ev: seq<Event> := [];
      Start(c0, data, before);
      while p < |data|
        invariant p <= |data| && -1 <= mark <= p && errno == Ok && Valid(Fields())
        invariant At(c0, data, Fields(), p, ev) && Pending(data, mark, p, ev, before, SeenAll(calls), Fields())
        decreases |data| - p
      {
        ghost var c, seen := Fields(), SeenAll(calls);
        if state == Finished || state == Trailer {
          OutsideBody(c0, data, c, p, ev, mark, before, seen);
          return p;
        }
        if state == Data {
          DataRoom(c);
          var n := if contentLength < |data| - p then contentLength else |data| - p;
          DataMove(c0, data, c, p, n, ev, mark, before, seen);
          ev := ev + BodyEvents(data[p..p + n]);
          mark := if mark >= 0 then mark else p;
          contentLength := contentLength - n;
          p := p + n;
          if contentLength == 0 {
            state := DataAlmostDone;
          }
        } else if state == DataAlmostDone {
          DataEndMove(c0, data, c, p, ev, mark, before, seen);
          if data[p] != '\r' {
            errno := Strict;
            return p;
          }
          state := DataDone;
          DeliverBody(data, mark, p);
          mark := -1;
          p := p + 1;
        } else {
          HeaderMove(c0, data, c, p, ev, mark, before, seen);
          ghost var ev1 := Step(c, data[p]).1;
          ghost var was := calls;
          TakeOne(data[p]);
          assert before + (ev + ev1) == (before + ev) + ev1;
          if errno != Ok || state == Trailer {
            return p;
          }
          ev := ev + ev1;
          p := p + 1;
        }
      }
      BufferEnd(c0, data, Fields(), p, ev, mark, before, SeenAll(calls));
      DeliverBody(data, mark, p);
      return p;
    }
  }

  lemma StaysValid(c: Core)
    requires Valid(c)
    ensures c.errno == Ok ==> Valid(c.(errno := InvalidEofState))
  {
  }

  lemma Start(c0: Core, data: string, before: seq<Event>)
    requires Valid(c0)
    ensures At(c0, data, c0, 0, []) && Pending(data, -1, 0, [], before, before, c0)
  {
    assert data[0..] == data;
    assert [] + Feed(c0, data).events == Feed(c0, data).events;
  }

  lemma DataRoom(c: Core)
    requires Valid(c) && c.errno == Ok && c.state == Data
    ensures 0 < c.contentLength <= ULLONG_MAX - 16 && InData(c, c.contentLength)
  {
  }

  /** Nothing more of this buffer belongs to the body. */
  lemma OutsideBody(c0: Core, data: string, c: Core, p: nat, ev: seq<Event>, mark: int, before: seq<Event>, seen: seq<Event>)
    requires Valid(c0) && Valid(c) && At(c0, data, c, p, ev) && Pending(data, mark, p, ev, before, seen, c)
    requires c.errno == Ok && (c.state == Finished || c.state == Trailer)
    ensures Feed(c0, data) == Out(c, p, ev) && Visible(Out(c, p, ev)) == ev && seen == before + ev
  {
    hide Feed, Valid;
    FeedStopped(c, data[p..]);
    assert ev + [] == ev && seen + [] == seen;
  }

  /** The end of the buffer: what is marked is delivered. */
  lemma BufferEnd(c0: Core, data: string, c: Core, p: nat, ev: seq<Event>, mark: int, before: seq<Event>, seen: seq<Event>)
    requires Valid(c0) && Valid(c) && At(c0, data, c, p, ev) && Pending(data, mark, p, ev, before, seen, c)
    requires c.errno == Ok && p == |data|
    ensures mark <= p && Feed(c0, data) == Out(c, p, ev) && Visible(Out(c, p, ev)) == ev && seen + Marked(data, mark, p) == before + ev
  {
    hide Feed, Valid;
    FeedStopped(c, data[p..]);
    assert ev + [] == ev;
  }

  lemma BodyFromLast(ev: seq<Event>)
    requires ev == [] || !ev[|ev| - 1].Body?
    ensures BodyFrom(ev) == |ev|
  {
  }

  lemma BodyFromData(ev: seq<Event>, data: string)
    ensures BodyFrom(ev + BodyEvents(data)) == BodyFrom(ev)
  {
    BodyFromIs(ev + BodyEvents(data), BodyFrom(ev));
  }

  lemma MarkedGrows(data: string, mark: int, p: nat, n: nat)
    requires mark <= p && p + n <= |data|
    ensures Marked(data, mark, p) + BodyEvents(data[p..p + n]) == Marked(data, if mark >= 0 then mark else p, p + n)
  {
    if mark >= 0 { assert data[mark..p + n] == data[mark..p] + data[p..p + n]; }
  }

  /** Reading a piece of the buffer moves the run on. */
  lemma AtReads(c0: Core, data: string, c: Core, p: nat, ev: seq<Event>, x: string, d: Core, ev1: seq<Event>)
    requires Valid(c0) && Valid(c) && At(c0, data, c, p, ev) && p + |x| <= |data| && data[p..p + |x|] == x
    requires Reads(c, x, data[p + |x|..], d, ev1)
    ensures Valid(d) && At(c0, data, d, p + |x|, ev + ev1)
  {
    hide Feed, Valid;
    assert data[p..] == x + data[p + |x|..];
    var e := Feed(d, data[p + |x|..]).events;
    assert ev + (ev1 + e) == (ev + ev1) + e;
  }

  lemma DataPending(data: string, p: nat, n: nat, ev: seq<Event>, mark: int, before: seq<Event>, seen: seq<Event>, c: Core)
    requires Pending(data, mark, p, ev, before, seen, c) && c.state == Data && n <= c.contentLength && p + n <= |data|
    ensures mark <= p
    ensures var d, more, mark' := AfterData(c, n), BodyEvents(data[p..p + n]), if mark >= 0 then mark else p;
            Pending(data, mark', p + n, ev + more, before, seen, d)
  {
    var x := data[p..p + n];
    BodyFromData(ev, x);
    MarkedGrows(data, mark, p, n);
    EventsJoin(before, ev, seen, Marked(data, mark, p), BodyEvents(x));
    hide BodyFrom, Marked;
  }

  lemma EventsJoin(before: seq<Event>, ev: seq<Event>, seen: seq<Event>, marked: seq<Event>, more: seq<Event>)
    requires before + ev == seen + marked
    ensures before + (ev + more) == seen + (marked + more)
  {
    assert before + (ev + more) == (before + ev) + more;
    assert seen + (marked + more) == (seen + marked) + more;
  }

  /** A stretch of chunk data. */
  lemma DataMove(c0: Core, data: string, c: Core, p: nat, n: nat, ev: seq<Event>, mark: int, before: seq<Event>, seen: seq<Event>)
    requires Valid(c0) && Valid(c) && At(c0, data, c, p, ev) && Pending(data, mark, p, ev, before, seen, c)
    requires c.errno == Ok && c.state == Data && n <= c.contentLength && p + n <= |data|
    ensures var d, more, mark' := AfterData(c, n), BodyEvents(data[p..p + n]), if mark >= 0 then mark else p;
            && Valid(d) && At(c0, data, d, p + n, ev + more)
            && Pending(data, mark', p + n, ev + more, before, seen, d)
  {
    DataPending(data, p, n, ev, mark, before, seen, c);
    DataAt(c0, data, c, p, n, ev);
  }

  lemma DataAt(c0: Core, data: string, c: Core, p: nat, n: nat, ev: seq<Event>)
    requires Valid(c0) && Valid(c) && At(c0, data, c, p, ev)
    requires c.errno == Ok && c.state == Data && n <= c.contentLength && p + n <= |data|
    ensures Valid(AfterData(c, n)) && At(c0, data, AfterData(c, n), p + n, ev + BodyEvents(data[p..p + n]))
  {
    DataRoom(c);
    hide *;
    var x, rest := data[p..p + n], data[p + n..];
    assert |x| == n;
    ReadsData(c, x, rest);
    AtReads(c0, data, c, p, ev, x, AfterData(c, n), BodyEvents(x));
  }

  /** A character that moves the run on, or ends it. */
  lemma OneMove(c0: Core, data: string, c: Core, p: nat, ev: seq<Event>)
    requires Valid(c0) && Valid(c) && At(c0, data, c, p, ev) && p < |data| && !Stopped(c)
    ensures var (d, ev1) := Step(c, data[p]);
            && Valid(d)
            && (if NotTaken(d) then Feed(c0, data) == Out(d, p, ev + ev1) else At(c0, data, d, p + 1, ev + ev1))
  {
    hide Step, Valid, NotTaken, Stopped, Feed, Reads;
    StepKeepsValid(c, data[p]);
    var (d, ev1) := Step(c, data[p]);
    if NotTaken(d) {
      assert data[p..] == [data[p]] + data[p + 1..];
      FeedBad(c, data[p], data[p + 1..]);
    } else {
      ReadsOne(c, data[p], data[p + 1..], d, ev1);
      AtReads(c0, data, c, p, ev, [data[p]], d, ev1);
    }
  }

  lemma FeedBad(c: Core, ch: char, rest: string)
    requires Valid(c) && !Stopped(c) && NotTaken(Step(c, ch).0)
    ensures Feed(c, [ch] + rest) == Out(Step(c, ch).0, 0, Step(c, ch).1)
  {
    hide Step, Valid, NotTaken, Stopped;
  }

  lemma DataEndPending(data: string, c: Core, p: nat, ev: seq<Event>, mark: int, before: seq<Event>, seen: seq<Event>)
    requires Pending(data, mark, p, ev, before, seen, c) && p < |data| && c.state == DataAlmostDone
    ensures mark <= p
    ensures Pending(data, -1, p + 1, ev, before, seen + Marked(data, mark, p), c.(state := DataDone))
    ensures seen == before + ev[..BodyFrom(ev)]
  {
    hide BodyFrom;
    assert (seen + Marked(data, mark, p)) + Marked(data, -1, p + 1) == before + ev;
    var n := BodyFrom(ev);
    assert before + ev[..n] == (before + ev)[..|before| + n];
    assert (seen + Marked(data, mark, p))[..|seen|] == seen;
  }

  /** The character behind the data of a chunk. */
  lemma DataEndMove(c0: Core, data: string, c: Core, p: nat, ev: seq<Event>, mark: int, before: seq<Event>, seen: seq<Event>)
    requires Valid(c0) && Valid(c) && At(c0, data, c, p, ev) && Pending(data, mark, p, ev, before, seen, c) && p < |data|
    requires c.errno == Ok && c.state == DataAlmostDone
    ensures mark <= p
    ensures data[p] == '\r' ==>
              var d := c.(state := DataDone);
              Valid(d) && At(c0, data, d, p + 1, ev) && Pending(data, -1, p + 1, ev, before, seen + Marked(data, mark, p), d)
    ensures data[p] != '\r' ==>
              var d := c.(errno := Strict);
              Valid(d) && Feed(c0, data) == Out(d, p, ev) && seen == before + Visible(Out(d, p, ev))
  {
    DataEndStep(c, data[p]);
    hide Feed, Valid, Step, BodyFrom, At, Pending, Stopped;
    OneMove(c0, data, c, p, ev);
    DataEndPending(data, c, p, ev, mark, before, seen);
    assert ev + [] == ev;
  }

  lemma DataEndStep(c: Core, ch: char)
    requires Valid(c) && c.errno == Ok && c.state == DataAlmostDone
    ensures Step(c, ch) == (if ch == '\r' then c.(state := DataDone) else c.(errno := Strict), []) && !Stopped(c)
  {
  }

  lemma HeaderPending(data: string, c: Core, p: nat, ev: seq<Event>, mark: int, before: seq<Event>, seen: seq<Event>,
                      d: Core, ev1: seq<Event>)
    requires Pending(data, mark, p, ev, before, seen, c) && p < |data| && c.state != Data && c.state != DataAlmostDone
    requires d.state != DataAlmostDone && (d.state == Data ==> ev1 != [] && !ev1[|ev1| - 1].Body?)
    ensures mark < 0 && seen == before + ev && Pending(data, mark, p + 1, ev + ev1, before, seen + ev1, d)
  {
    assert seen + [] == seen;
    assert (before + ev) + ev1 == before + (ev + ev1);
    assert (seen + ev1) + [] == seen + ev1;
    if d.state == Data { BodyFromLast(ev + ev1); }
  }

  /** A character of a size line, of the end of a chunk, or of the trailer. */
  lemma HeaderMove(c0: Core, data: string, c: Core, p: nat, ev: seq<Event>, mark: int, before: seq<Event>, seen: seq<Event>)
    requires Valid(c0) && Valid(c) && At(c0, data, c, p, ev) && Pending(data, mark, p, ev, before, seen, c) && p < |data|
    requires c.errno == Ok && c.state != Data && c.state != DataAlmostDone && c.state != Finished && c.state != Trailer
    ensures !Stopped(c) && mark < 0
    ensures var (d, ev1) := Step(c, data[p]);
            && Valid(d) && seen == before + ev
            && (d.errno != Ok || d.state == Trailer ==>
                  Feed(c0, data) == Out(d, p, ev + ev1) && Visible(Out(d, p, ev + ev1)) == ev + ev1)
            && (d.errno == Ok && d.state != Trailer ==>
                  At(c0, data, d, p + 1, ev + ev1) && Pending(data, mark, p + 1, ev + ev1, before, seen + ev1, d))
  {
    HeaderStep(c, data[p]);
    var (d, ev1) := Step(c, data[p]);
    hide Feed, Valid, Step, BodyFrom, At, Pending, Stopped;
    OneMove(c0, data, c, p, ev);
    HeaderPending(data, c, p, ev, mark, before, seen, d, ev1);
  }

  lemma HeaderStep(c: Core, ch: char)
    requires Valid(c) && c.errno == Ok && c.state != Data && c.state != DataAlmostDone && c.state != Finished && c.state != Trailer
    ensures !Stopped(c) && Step(c, ch).0.state != DataAlmostDone
    ensures Step(c, ch).0.state == Data ==> Step(c, ch).1 == [Header(c.contentLength)]
  {
  }

}
