/** Which cuts of a chunked stream change what the callbacks get: exactly those that
    deliver part of a chunk before the call that brings a wrong character behind it. */
module HttpCuts {
  import opened ByteSeqs
  import opened HttpChunkSpec

  /** Behind x the data of a chunk begins, or goes on there when x is empty, with n
      characters to come. */
  ghost predicate DataBegins(c: Core, x: string, n: nat)
    requires Valid(c)
  {
    && Feed(c, x).consumed == |x| && InData(Feed(c, x).core, n)
    && (x != [] ==> Feed(c, x[..|x| - 1]).core.state == SizeAlmostDone)
  }

  /** At position s the data of a chunk begins, and a character other than CR comes
      behind its last n characters. */
  ghost predicate WrongAt(c: Core, data: string, s: nat, n: nat)
    requires Valid(c)
  {
    s + n < |data| && data[s + n] != '\r' && DataBegins(c, data[..s], n)
  }

  /** Where the piece begins that holds position p. */
  function PieceStart(pieces: seq<string>, p: nat): (t: nat)
    requires p < |Concat(pieces)|
    ensures t <= p
  {
    if p < |pieces[0]| then 0 else |pieces[0]| + PieceStart(pieces[1..], p - |pieces[0]|)
  }

  function Wrong(c: Core): Core {
    c.(contentLength := 0, state := DataAlmostDone, errno := Strict)
  }

  function ChunkDone(c: Core): Core {
    c.(contentLength := 0, state := DataDone)
  }

  lemma BehindData(c: Core, ch: char)
    requires InData(c, 0)
    ensures Step(c, ch) == (if ch == '\r' then ChunkDone(c) else Wrong(c), [])
    ensures !Stopped(c) && Valid(Wrong(c)) && Valid(ChunkDone(c)) && !NotTaken(ChunkDone(c)) && NotTaken(Wrong(c))
  {
  }

  lemma FeedOne(c: Core, ch: char, rest: string)
    requires Valid(c) && !Stopped(c)
    ensures var (d, ev) := Step(c, ch);
            && Valid(d)
            && Feed(c, [ch] + rest) == if NotTaken(d) then Out(d, 0, ev) else Then(Out(d, 1, ev), Feed(d, rest))
  {
    StepKeepsValid(c, ch);
    hide Step, Valid, NotTaken, Stopped;
    assert ([ch] + rest)[1..] == rest;
  }

  /** Data that does not go beyond its chunk. */
  lemma FeedWithin(c: Core, n: nat, s: string)
    requires InData(c, n) && |s| <= n
    ensures Feed(c, s) == Out(AfterData(c, |s|), |s|, BodyEvents(s)) && InData(AfterData(c, |s|), n - |s|)
  {
    ReadsData(c, s, []);
    hide Step, Valid, BodyEvents;
    FeedStopped(AfterData(c, |s|), []);
    assert s + [] == s && BodyEvents(s) + [] == BodyEvents(s);
  }

  /** The rest of a chunk and what comes behind it. */
  lemma FeedPast(c: Core, s: string, ch: char, rest: string)
    requires InData(c, |s|)
    ensures Valid(ChunkDone(c))
    ensures Feed(c, s + ([ch] + rest)) == if ch != '\r' then Out(Wrong(c), |s|, BodyEvents(s))
                                          else Then(Out(ChunkDone(c), |s| + 1, BodyEvents(s)), Feed(ChunkDone(c), rest))
  {
    var d := AfterData(c, |s|);
    ReadsData(c, s, [ch] + rest);
    BehindData(d, ch);
    FeedOne(d, ch, rest);
    hide Step, Valid, BodyEvents, InData, NotTaken, Feed, Stopped;
    assert BodyEvents(s) + [] == BodyEvents(s);
    assert [] + Feed(ChunkDone(c), rest).events == Feed(ChunkDone(c), rest).events;
  }

  /** The data from position i on, with the character behind its first n. */
  lemma Around(data: string, i: nat, n: nat)
    requires i + n < |data|
    ensures data == data[..i] + data[i..] && data[i..] == data[i..i + n] + ([data[i + n]] + data[i + n + 1..])
  {
  }

  lemma LineEnd(c: Core, ch: char)
    requires Valid(c) && c.state == SizeAlmostDone && !Stopped(c) && Step(c, ch).0.state == Data
    ensures Step(c, ch).1 == [Header(Step(c, ch).0.contentLength)]
  {
  }

  /** The events before the data of a chunk do not end with body. */
  lemma BeforeData(c: Core, x: string, n: nat)
    requires Valid(c) && DataBegins(c, x, n)
    ensures var ev := Feed(c, x).events;
            ev == [] || !ev[|ev| - 1].Body?
  {
    if x == [] {
      FeedStopped(c, x);
    } else {
      var a, ch := x[..|x| - 1], x[|x| - 1];
      var d := Feed(c, a).core;
      hide Step, Valid, InData, Feed;
      assert x == a + [ch];
      FeedSplit(c, a, [ch]);
      LastStep(d, ch, n);
    }
  }

  lemma LastStep(d: Core, ch: char, n: nat)
    requires Valid(d) && d.state == SizeAlmostDone && InData(Feed(d, [ch]).core, n)
    ensures Feed(d, [ch]).events == [Header(n)]
  {
    FailedStays(d, [ch]);
    FeedOne(d, ch, []);
    FeedStopped(Step(d, ch).0, []);
    LineEnd(d, ch);
    hide Step, Valid, Feed;
    assert [ch] + [] == [ch];
  }

  lemma FailedStays(c: Core, data: string)
    requires Valid(c)
    ensures c.errno != Ok ==> Feed(c, data) == Out(c, 0, [])
  {
  }

  /** A wrong character behind a chunk: one call delivers what comes before the data,
      and loses exactly the data. */
  lemma LostByCall(c: Core, data: string, s: nat, n: nat)
    requires Valid(c) && WrongAt(c, data, s, n)
    ensures var ev := Feed(c, data[..s]).events;
            var o := Feed(c, data);
            && LosesBody(o.core) && o.consumed == s + n && o.events == ev + BodyEvents(data[s..s + n])
            && Call(c, data).events == ev && c.errno == Ok
  {
    var ev, body := Feed(c, data[..s]).events, BodyEvents(data[s..s + n]);
    BeforeData(c, data[..s], n);
    FeedToWrong(c, data, s, n);
    BodyFromIs(ev + body, |ev|);
    hide Feed, Valid, WrongAt, BodyEvents, BodyFrom;
    assert (ev + body)[..|ev|] == ev;
  }

  lemma FeedToWrong(c: Core, data: string, s: nat, n: nat)
    requires Valid(c) && WrongAt(c, data, s, n)
    ensures var o := Feed(c, data);
            && LosesBody(o.core) && o.consumed == s + n && c.errno == Ok
            && o.events == Feed(c, data[..s]).events + BodyEvents(data[s..s + n])
  {
    var o := Feed(c, data[..s]);
    Around(data, s, n);
    FeedSplit(c, data[..s], data[s..]);
    FeedPast(o.core, data[s..s + n], data[s + n], data[s + n + 1..]);
    FailedStays(c, data[..s]);
    hide Feed, Valid, InData, BodyEvents;
  }

  /** Where a run that loses body lost it. */
  lemma {:induction false} WrongExists(c: Core, data: string) returns (s: nat, n: nat)
    requires Valid(c) && LosesBody(Feed(c, data).core) && !LosesBody(c)
    ensures WrongAt(c, data, s, n)
    decreases |data|
  {
    hide Feed, Valid, InData, WrongAt, LosesBody, Stopped, ChunkDone, Step, NotTaken;
    FeedEnds(c, data);
    var m := c.contentLength;
    if InData(c, m) {
      NotWithin(c, data);
      if data[m] != '\r' {
        s, n := 0, m;
        StartsWrong(c, data);
      } else {
        var rest := data[m + 1..];
        var d := AfterChunk(c, data);
        s, n := WrongExists(d, rest);
        WrongAfterChunk(c, data[..m], rest, s, n);
        SplitBehind(data, m);
        s := s + (m + 1);
      }
    } else {
      var d := AfterChar(c, data);
      s, n := WrongExists(d, data[1..]);
      WrongAfterChar(c, data, s, n);
      s := s + 1;
    }
  }

  lemma FeedEnds(c: Core, data: string)
    requires Valid(c) && LosesBody(Feed(c, data).core) && !LosesBody(c)
    ensures data != [] && !Stopped(c)
  {
  }

  lemma NotWithin(c: Core, data: string)
    requires InData(c, c.contentLength) && LosesBody(Feed(c, data).core)
    ensures |data| > c.contentLength
  {
    if |data| <= c.contentLength {
      FeedWithin(c, c.contentLength, data);
      hide Feed, InData;
    }
  }

  lemma StartsWrong(c: Core, data: string)
    requires InData(c, c.contentLength) && |data| > c.contentLength && data[c.contentLength] != '\r'
    ensures WrongAt(c, data, 0, c.contentLength)
  {
    FeedStopped(c, []);
  }

  /** The chunk ends well, and the run goes on behind it. */
  lemma AfterChunk(c: Core, data: string) returns (d: Core)
    requires InData(c, c.contentLength) && |data| > c.contentLength && data[c.contentLength] == '\r'
    ensures Valid(d) && d == ChunkDone(c) && !LosesBody(d)
    ensures Feed(c, data).core == Feed(d, data[c.contentLength + 1..]).core
  {
    var m := c.contentLength;
    d := ChunkDone(c);
    Pieces(data, m);
    FeedPast(c, data[..m], data[m], data[m + 1..]);
    hide Feed, Valid, InData;
  }

  lemma Pieces(data: string, m: nat)
    requires m < |data|
    ensures data == data[..m] + ([data[m]] + data[m + 1..])
  {
  }

  lemma WrongAfterChunk(c: Core, x: string, rest: string, s: nat, n: nat)
    requires InData(c, |x|) && Valid(ChunkDone(c)) && WrongAt(ChunkDone(c), rest, s, n)
    ensures WrongAt(c, x + ['\r'] + rest, s + (|x| + 1), n)
  {
    NotAtStart(ChunkDone(c), rest, s, n);
    ReachesDone(c, x);
    hide Feed, InData, WrongAt, Valid;
    WrongLater(c, x + ['\r'], rest, s, n);
  }

  lemma SplitBehind(data: string, m: nat)
    requires m < |data|
    ensures data == data[..m] + [data[m]] + data[m + 1..] && data[..m] == (data[..m] + [data[m]])[..m]
  {
  }

  lemma ReachesDone(c: Core, x: string)
    requires InData(c, |x|)
    ensures var o := Feed(c, x + ['\r']);
            o.core == ChunkDone(c) && o.consumed == |x| + 1
  {
    FeedPast(c, x, '\r', []);
    FeedStopped(ChunkDone(c), []);
    hide Feed, InData, Valid, BodyEvents;
    assert ['\r'] + [] == ['\r'];
  }

  lemma NotAtStart(d: Core, data: string, s: nat, n: nat)
    requires Valid(d) && WrongAt(d, data, s, n) && d.state == DataDone
    ensures s > 0
  {
    FeedStopped(d, []);
  }

  lemma AfterChar(c: Core, data: string) returns (d: Core)
    requires Valid(c) && !Stopped(c) && data != [] && !InData(c, c.contentLength) && LosesBody(Feed(c, data).core)
    ensures Valid(d) && d == Step(c, data[0]).0 && !LosesBody(d) && !NotTaken(d)
    ensures Feed(c, data).core == Feed(d, data[1..]).core
  {
    d := Step(c, data[0]).0;
    OutsideData(c, data[0]);
    hide Step, InData;
    StepKeepsValid(c, data[0]);
  }

  lemma WrongAfterChar(c: Core, data: string, s: nat, n: nat)
    requires Valid(c) && !Stopped(c) && data != [] && !InData(c, c.contentLength)
    requires var d := Step(c, data[0]).0;
             Valid(d) && !NotTaken(d) && WrongAt(d, data[1..], s, n)
    ensures WrongAt(c, data, s + 1, n)
  {
    var ch, rest, d := data[0], data[1..], Step(c, data[0]).0;
    FeedOne(c, ch, []);
    FeedStopped(d, []);
    FeedStopped(c, []);
    if s == 0 {
      StartInData(d, rest, n);
      OnlyLineEnd(c, ch);
    }
    hide Feed, InData, WrongAt, Step;
    assert [ch] + [] == [ch] && [ch][..0] == [] && data == [ch] + rest;
    WrongLater(c, [ch], rest, s, n);
  }

  lemma StartInData(d: Core, data: string, n: nat)
    requires Valid(d) && WrongAt(d, data, 0, n)
    ensures InData(d, n) && n == d.contentLength
  {
    FeedStopped(d, []);
  }

  /** A character outside the data of a chunk cannot lose body. */
  lemma OutsideData(c: Core, ch: char)
    requires Valid(c) && !Stopped(c) && !InData(c, c.contentLength)
    ensures !LosesBody(Step(c, ch).0) && (Step(c, ch).0.errno == Ok ==> Step(c, ch).0.state != DataAlmostDone)
  {
  }

  lemma OnlyLineEnd(c: Core, ch: char)
    requires Valid(c) && !Stopped(c) && !InData(c, c.contentLength) && InData(Step(c, ch).0, Step(c, ch).0.contentLength)
    ensures c.state == SizeAlmostDone
  {
  }

  /** Data that begins behind the first piece begins there in the whole. */
  lemma BeginsLater(c: Core, a: string, x: string, n: nat)
    requires Valid(c) && Feed(c, a).consumed == |a| && DataBegins(Feed(c, a).core, x, n)
    requires x == [] ==> a != [] && Feed(c, a[..|a| - 1]).core.state == SizeAlmostDone
    ensures DataBegins(c, a + x, n)
  {
    var d := Feed(c, a).core;
    FeedStopped(d, []);
    hide Feed, Valid, InData;
    FeedSplit(c, a, x);
    if x == [] {
      assert a + x == a;
    } else {
      FeedSplit(c, a, x[..|x| - 1]);
      assert (a + x)[..|a + x| - 1] == a + x[..|x| - 1];
    }
  }

  lemma WrongLater(c: Core, a: string, b: string, s: nat, n: nat)
    requires Valid(c) && Feed(c, a).consumed == |a| && WrongAt(Feed(c, a).core, b, s, n)
    requires s == 0 ==> a != [] && Feed(c, a[..|a| - 1]).core.state == SizeAlmostDone
    ensures WrongAt(c, a + b, |a| + s, n)
  {
    hide Feed, Valid, DataBegins;
    BeginsLater(c, a, b[..s], n);
    assert (a + b)[..|a| + s] == a + b[..s] && (a + b)[|a| + s + n] == b[s + n];
  }

  /** What is wrong beyond the first piece is wrong in the rest, from the start of its
      data or from the cut. */
  lemma WrongBehind(c: Core, a: string, b: string, s: nat, n: nat)
    requires Valid(c) && WrongAt(c, a + b, s, n) && |a| <= s + n
    ensures var o := Feed(c, a);
            && o.consumed == |a| && o.core.errno == Ok && !LosesBody(o.core)
            && (|a| <= s ==> WrongAt(o.core, b, s - |a|, n))
            && (|a| > s ==> WrongAt(o.core, b, 0, n - (|a| - s))
                            && o.events == Feed(c, (a + b)[..s]).events + BodyEvents((a + b)[s..|a|]))
  {
    var data, o := a + b, Feed(c, a);
    if |a| <= s {
      WrongBehindStart(c, a, b, s, n);
    } else {
      var p, x := Feed(c, data[..s]), data[s..|a|];
      assert a == data[..s] + x;
      FeedSplit(c, data[..s], x);
      FeedWithin(p.core, n, x);
      FeedStopped(o.core, b[..0]);
      hide Feed, Valid, InData, BodyEvents;
      assert data[s + n] == b[s + n - |a|];
    }
  }

  lemma WrongBehindStart(c: Core, a: string, b: string, s: nat, n: nat)
    requires Valid(c) && WrongAt(c, a + b, s, n) && |a| <= s
    ensures var o := Feed(c, a);
            && o.consumed == |a| && o.core.errno == Ok && !LosesBody(o.core) && WrongAt(o.core, b, s - |a|, n)
  {
    hide Feed, Valid, DataBegins;
    var x := b[..s - |a|];
    assert (a + b)[..s] == a + x && (a + b)[s + n] == b[s - |a| + n];
    BeginsBehind(c, a, x, n);
  }

  lemma BeginsBehind(c: Core, a: string, x: string, n: nat)
    requires Valid(c) && DataBegins(c, a + x, n)
    ensures var o := Feed(c, a);
            o.consumed == |a| && o.core.errno == Ok && DataBegins(o.core, x, n)
  {
    FailedStays(Feed(c, a).core, x);
    hide Feed, Valid, InData;
    FeedSplit(c, a, x);
    if x != [] {
      FeedSplit(c, a, x[..|x| - 1]);
      assert (a + x)[..|a + x| - 1] == a + x[..|x| - 1];
    }
  }

  // ----- cuts

  function Max(a: int, b: int): int { if a < b then b else a }

  /** Position s and what the callbacks get of the stream. */
  ghost predicate DeliveredIs(c: Core, pieces: seq<string>, s: nat, n: nat)
    requires Valid(c) && s + n < |Concat(pieces)|
  {
    var data := Concat(pieces);
    Calls(c, pieces).events == Feed(c, data[..s]).events + BodyEvents(data[s..Max(s, PieceStart(pieces, s + n))])
  }

  ghost predicate NoneEmpty(pieces: seq<string>) {
    forall i :: 0 <= i < |pieces| ==> pieces[i] != []
  }

  /** What the callbacks get of a stream with a wrong character behind a chunk, however
      it is cut: of that chunk, what came in earlier calls. */
  lemma {:induction false} Delivered(c: Core, pieces: seq<string>, s: nat, n: nat)
    requires Valid(c) && NoneEmpty(pieces) && WrongAt(c, Concat(pieces), s, n)
    ensures DeliveredIs(c, pieces, s, n)
    decreases |pieces|
  {
    hide *;
    FirstPiece(c, pieces, s, n);
    var a, d := pieces[0], Feed(c, pieces[0]).core;
    if s + n < |a| {
      LastCall(c, pieces, s, n);
    } else if |a| <= s {
      WrongInRest(c, pieces, s, n);
      Delivered(d, pieces[1..], s - |a|, n);
      FirstEvents(c, pieces, s, n);
      DeliveredLater(c, pieces, s, n);
    } else {
      WrongInRest(c, pieces, s, n);
      Delivered(d, pieces[1..], 0, n - (|a| - s));
      FirstEvents(c, pieces, s, n);
      DeliveredBegun(c, pieces, s, n);
    }
  }

  lemma WrongInRest(c: Core, pieces: seq<string>, s: nat, n: nat)
    requires Valid(c) && WrongAt(c, Concat(pieces), s, n) && pieces != [] && |pieces[0]| <= s + n
    ensures var a, d, rest := pieces[0], Feed(c, pieces[0]).core, Concat(pieces[1..]);
            if |a| <= s then WrongAt(d, rest, s - |a|, n) else WrongAt(d, rest, 0, n - (|a| - s))
  {
    WrongBehind(c, pieces[0], Concat(pieces[1..]), s, n);
    hide WrongAt, Feed, Valid;
  }

  lemma FirstEvents(c: Core, pieces: seq<string>, s: nat, n: nat)
    requires Valid(c) && WrongAt(c, Concat(pieces), s, n) && pieces != [] && 0 < |pieces[0]| <= s + n < |Concat(pieces)|
    ensures var (o, data) := (Feed(c, pieces[0]), Concat(pieces));
            && Calls(c, pieces).events == o.events + Calls(o.core, pieces[1..]).events
            && (|pieces[0]| > s ==> o.events == Feed(c, data[..s]).events + BodyEvents(data[s..|pieces[0]|]))
  {
    WrongBehind(c, pieces[0], Concat(pieces[1..]), s, n);
    FirstCall(c, pieces);
    hide WrongAt, Feed, Valid, Calls, BodyEvents;
  }

  lemma DeliveredLater(c: Core, pieces: seq<string>, s: nat, n: nat)
    requires Valid(c) && pieces != [] && |pieces[0]| <= s && s + n < |Concat(pieces)|
    requires var o := Feed(c, pieces[0]);
             && Calls(c, pieces).events == o.events + Calls(o.core, pieces[1..]).events
             && DeliveredIs(o.core, pieces[1..], s - |pieces[0]|, n)
    ensures DeliveredIs(c, pieces, s, n)
  {
    hide Feed, BodyEvents, Calls, Valid;
    var a, b := pieces[0], Concat(pieces[1..]);
    DataLater(c, a, b, s, Max(s, PieceStart(pieces, s + n)));
  }

  lemma DeliveredBegun(c: Core, pieces: seq<string>, s: nat, n: nat)
    requires Valid(c) && pieces != [] && s < |pieces[0]| <= s + n < |Concat(pieces)|
    requires var (o, data) := (Feed(c, pieces[0]), Concat(pieces));
             && Calls(c, pieces).events == o.events + Calls(o.core, pieces[1..]).events
             && o.events == Feed(c, data[..s]).events + BodyEvents(data[s..|pieces[0]|])
             && DeliveredIs(o.core, pieces[1..], 0, n - (|pieces[0]| - s))
    ensures DeliveredIs(c, pieces, s, n)
  {
    hide Feed, BodyEvents, Calls, Valid;
    var a, b := pieces[0], Concat(pieces[1..]);
    DataBegun(c, a, b, s, PieceStart(pieces, s + n));
  }

  lemma FirstPiece(c: Core, pieces: seq<string>, s: nat, n: nat)
    requires Valid(c) && NoneEmpty(pieces) && WrongAt(c, Concat(pieces), s, n)
    ensures s + n < |Concat(pieces)| && pieces != [] && pieces[0] != [] && NoneEmpty(pieces[1..])
  {
    hide DataBegins, Valid;
  }

  lemma FirstCall(c: Core, pieces: seq<string>)
    requires Valid(c) && pieces != [] && pieces[0] != []
    requires Feed(c, pieces[0]).core.errno == Ok
    ensures var o := Feed(c, pieces[0]);
            Calls(c, pieces).events == o.events + Calls(o.core, pieces[1..]).events
  {
    FailedStays(c, pieces[0]);
    hide Feed, Valid;
  }

  /** The events up to position t, when the data at s comes after the first piece. */
  lemma DataLater(c: Core, a: string, b: string, s: nat, t: nat)
    requires Valid(c) && |a| <= s <= t <= |a + b|
    ensures var o := Feed(c, a);
            o.events + (Feed(o.core, b[..s - |a|]).events + BodyEvents(b[s - |a|..t - |a|]))
            == Feed(c, (a + b)[..s]).events + BodyEvents((a + b)[s..t])
  {
    hide Feed, Valid, BodyEvents;
    assert (a + b)[..s] == a + b[..s - |a|] && (a + b)[s..t] == b[s - |a|..t - |a|];
    FeedSplit(c, a, b[..s - |a|]);
  }

  /** And when the data begins in the first piece. */
  lemma DataBegun(c: Core, a: string, b: string, s: nat, t: nat)
    requires Valid(c) && s <= |a| <= t <= |a + b|
    ensures var d, p := Feed(c, a).core, Feed(c, (a + b)[..s]).events;
            (p + BodyEvents((a + b)[s..|a|])) + (Feed(d, b[..0]).events + BodyEvents(b[0..t - |a|]))
            == p + BodyEvents((a + b)[s..t])
  {
    var d, x, y := Feed(c, a).core, (a + b)[s..|a|], b[0..t - |a|];
    FeedStopped(d, b[..0]);
    hide Feed, Valid, BodyEvents;
    assert (a + b)[s..t] == x + y;
    BodyJoin(x, y, Feed(c, (a + b)[..s]).events);
  }

  lemma BodyJoin(x: string, y: string, p: seq<Event>)
    ensures (p + BodyEvents(x)) + ([] + BodyEvents(y)) == p + BodyEvents(x + y)
  {
    assert BodyEvents(x + y) == BodyEvents(x) + BodyEvents(y);
  }

  /** The wrong character comes with the first call. */
  lemma LastCall(c: Core, pieces: seq<string>, s: nat, n: nat)
    requires Valid(c) && NoneEmpty(pieces) && WrongAt(c, Concat(pieces), s, n)
    requires s + n < |pieces[0]|
    ensures DeliveredIs(c, pieces, s, n)
  {
    var a, data := pieces[0], Concat(pieces);
    assert data[..s] == a[..s] && (s > 0 ==> data[..s - 1] == a[..s - 1]) && data[s + n] == a[s + n];
    assert WrongAt(c, a, s, n);
    LostByCall(c, a, s, n);
    hide WrongAt, Feed;
    NoMoreCalls(Call(c, a).core, pieces[1..]);
    var ev := Feed(c, a[..s]).events;
    assert data[s..s] == [] && ev + [] == ev && BodyEvents([]) == [];
  }

  /** The piece that holds the character behind the data begins no later than the data. */
  ghost predicate AtOnce(pieces: seq<string>, s: nat, n: nat) {
    s + n < |Concat(pieces)| ==> PieceStart(pieces, s + n) <= s
  }

  /** Cutting a stream is harmless exactly when every chunk that has a wrong character
      behind it comes, with that character, in one call. */
  lemma CutHarmless(c: Core, pieces: seq<string>)
    requires Valid(c) && NoneEmpty(pieces)
    ensures Calls(c, pieces).events == Call(c, Concat(pieces)).events
            <==> forall s: nat, n: nat :: WrongAt(c, Concat(pieces), s, n) ==> AtOnce(pieces, s, n)
  {
    hide Feed, Calls, Call, WrongAt, Concat, Valid, AtOnce;
    var data := Concat(pieces);
    var found, s0, n0 := FindWrong(c, data);
    forall s: nat, n: nat | WrongAt(c, data, s, n)
      ensures Calls(c, pieces).events == Call(c, data).events <==> AtOnce(pieces, s, n)
    {
      HarmlessAt(c, pieces, s, n);
    }
    if !found {
      AnySplit(c, pieces);
    }
  }

  /** Body is lost behind some data, or not at all. */
  lemma FindWrong(c: Core, data: string) returns (found: bool, s: nat, n: nat)
    requires Valid(c)
    ensures found ==> WrongAt(c, data, s, n)
    ensures !found ==> (LosesBody(Feed(c, data).core) ==> LosesBody(c)) && Call(c, data).events == Feed(c, data).events
    ensures !found ==> forall s: nat, n: nat :: !WrongAt(c, data, s, n)
  {
    found, s, n := false, 0, 0;
    if LosesBody(Feed(c, data).core) && !LosesBody(c) {
      found := true;
      s, n := WrongExists(c, data);
    } else {
      NothingLost(c, data);
    }
  }

  lemma HarmlessAt(c: Core, pieces: seq<string>, s: nat, n: nat)
    requires Valid(c) && NoneEmpty(pieces) && WrongAt(c, Concat(pieces), s, n)
    ensures Calls(c, pieces).events == Call(c, Concat(pieces)).events <==> AtOnce(pieces, s, n)
  {
    Delivered(c, pieces, s, n);
    LostByCall(c, Concat(pieces), s, n);
    hide Feed, Calls, Call, Concat, Valid, BodyEvents;
  }

  lemma NothingLost(c: Core, data: string)
    requires Valid(c) && (LosesBody(Feed(c, data).core) ==> LosesBody(c))
    ensures Call(c, data).events == Feed(c, data).events
    ensures forall s: nat, n: nat :: !WrongAt(c, data, s, n)
  {
    FailedStays(c, data);
    if data == [] { FeedStopped(c, data); }
    forall s: nat, n: nat ensures !WrongAt(c, data, s, n) {
      if WrongAt(c, data, s, n) { LostByCall(c, data, s, n); }
    }
  }

  /** A single call loses body exactly when a wrong character comes behind data that came
      in the same call. */
  lemma CallLosesBody(c: Core, data: string)
    requires Valid(c)
    ensures Call(c, data).events != Feed(c, data).events <==>
            exists s: nat, n: nat :: n > 0 && WrongAt(c, data, s, n)
  {
    hide Feed, Call, WrongAt, Valid;
    forall s: nat, n: nat | WrongAt(c, data, s, n)
      ensures Call(c, data).events != Feed(c, data).events <==> n > 0
    {
      LostByCall(c, data, s, n);
    }
    var found, s, n := FindWrong(c, data);
  }

  /** In the middle of a chunk with n characters to come, that is when the character
      behind them is there and no CR. */
  lemma InDataGuard(c: Core, n: nat, data: string)
    requires InData(c, n)
    ensures WrongAt(c, data, 0, n) <==> |data| > n && data[n] != '\r'
    ensures |data| > n > 0 && data[n] != '\r' ==>
              Call(c, data).events == [] && Feed(c, data).events == BodyEvents(data[..n])
    ensures |data| <= n ==> Call(c, data).events == Feed(c, data).events == BodyEvents(data)
  {
    FeedStopped(c, []);
    if |data| <= n {
      FeedWithin(c, n, data);
    } else if data[n] != '\r' {
      assert WrongAt(c, data, 0, n);
      LostByCall(c, data, 0, n);
      hide Feed, BodyEvents, InData, WrongAt;
      assert data[..0] == [] && data[0..0 + n] == data[..n] && [] + BodyEvents(data[..n]) == BodyEvents(data[..n]);
    }
  }

  // ----- the end of the input

  /** A call without data says that the connection has ended.  Unless the message has
      been finished or has failed before, that is an error, and whatever comes later is
      neither taken nor delivered. */
  lemma EndOfInput(c: Core, pieces: seq<string>, more: seq<string>)
    requires Valid(c)
    ensures var run := Calls(c, pieces);
            Calls(c, pieces + [[]] + more)
            == if run.core.errno != Ok || run.core.state == Finished then run
               else Out(run.core.(errno := InvalidEofState), run.consumed + 1, run.events)
  {
    var d := Calls(c, pieces).core;
    assert pieces + [[]] + more == pieces + ([[]] + more);
    CallsSplit(c, pieces, [[]] + more);
    var e := Call(d, []).core;
    hide Feed;
    assert ([[]] + more)[1..] == more;
    NoMoreCalls(e, more);
  }

  lemma {:induction false} CallsSplit(c: Core, p: seq<string>, q: seq<string>)
    requires Valid(c)
    ensures Valid(Calls(c, p).core) && Calls(c, p + q) == Then(Calls(c, p), Calls(Calls(c, p).core, q))
    decreases |p|
  {
    hide Call, Valid;
    if p == [] {
      assert p + q == q && [] + Calls(c, q).events == Calls(c, q).events;
    } else {
      var o := Call(c, p[0]);
      assert (p + q)[0] == p[0] && (p + q)[1..] == p[1..] + q;
      CallsSplit(o.core, p[1..], q);
      var r := Calls(o.core, p[1..]);
      var u := Calls(r.core, q);
      assert o.events + (r.events + u.events) == (o.events + r.events) + u.events;
    }
  }

  lemma {:induction false} NoMoreCalls(c: Core, pieces: seq<string>)
    requires Valid(c) && (c.errno != Ok || c.state == Finished)
    ensures Calls(c, pieces) == Out(c, 0, [])
    decreases |pieces|
  {
    if pieces != [] {
      FeedStopped(c, pieces[0]);
      NoMoreCalls(c, pieces[1..]);
    }
  }
}
