/** The JSON tokenizer one token at a time: what each character of the text does to
    the parser and its tokens, and what that keeps.  The parser that works on a
    token array is proved against this. */
module JsmnSpec {
  datatype Kind = Undefined | Object | Array | String | Primitive

  datatype Token = Token(kind: Kind, start: int, end: int, size: nat)

  /** The parser: its position, the index of the superior token or -1, and the tokens
      allocated so far. */
  datatype State = State(pos: nat, super: int, toks: seq<Token>)

  /** A step goes on, or the run stops with a code and leaves the parser so. */
  datatype Outcome = Go(st: State) | Stop(code: int, st: State)

  datatype Scan = Found(at: nat) | Bad(code: int)

  const NOMEM: int := -1
  const INVAL: int := -2
  const PART: int := -3

  const INITIAL: State := State(0, -1, [])

  predicate Ended(js: string, i: nat) { i >= |js| || js[i] == '\0' }

  predicate Blank(c: char) { c == '\t' || c == '\r' || c == '\n' || c == ' ' }

  predicate EndsPrimitive(c: char) { Blank(c) || c == ':' || c == ',' || c == ']' || c == '}' }

  predicate Printable(c: char) { 32 <= c as int < 127 }

  predicate Hex(c: char) { '0' <= c <= '9' || 'A' <= c <= 'F' || 'a' <= c <= 'f' }

  predicate Escapable(c: char) {
    c == '\"' || c == '/' || c == '\\' || c == 'b' || c == 'f' || c == 'r' || c == 'n' || c == 't'
  }

  /** The end of a primitive that has gone on up to i. */
  function PrimitiveEnd(js: string, i: nat): (r: Scan)
    ensures r.Found? ==> i <= r.at && (i <= |js| ==> r.at <= |js|)
    ensures r.Bad? ==> r.code == INVAL
    decreases |js| - i
  {
    if Ended(js, i) || EndsPrimitive(js[i]) then Found(i)
    else if !Printable(js[i]) then Bad(INVAL)
    else PrimitiveEnd(js, i + 1)
  }

  /** The end of at most n hexadecimal digits from i on. */
  function HexEnd(js: string, i: nat, n: nat): (r: Scan)
    ensures r.Found? ==> i <= r.at && (i <= |js| ==> r.at <= |js|)
    ensures r.Bad? ==> r.code == INVAL
    decreases n
  {
    if n == 0 || Ended(js, i) then Found(i)
    else if !Hex(js[i]) then Bad(INVAL)
    else HexEnd(js, i + 1, n - 1)
  }

  /** The closing quote of a string that has gone on up to i. */
  function StringEnd(js: string, i: nat): (r: Scan)
    ensures r.Found? ==> i <= r.at < |js| && js[r.at] == '\"'
    ensures r.Bad? ==> r.code == INVAL || r.code == PART
    decreases |js| - i
  {
    if Ended(js, i) then Bad(PART)
    else if js[i] == '\"' then Found(i)
    else if js[i] == '\\' && i + 1 < |js| then
      if Escapable(js[i + 1]) then StringEnd(js, i + 2)
      else if js[i + 1] == 'u' then
        var h := HexEnd(js, i + 2, 4);
        if h.Found? then StringEnd(js, h.at) else h
      else Bad(INVAL)
    else StringEnd(js, i + 1)
  }

  /** The text between the quotes of a JSON string (RFC 8259, section 7). */
  predicate StringBody(s: string) {
    if s == "" then true
    else if s[0] == '\\' then
      || (|s| >= 2 && Escapable(s[1]) && StringBody(s[2..]))
      || (|s| >= 6 && s[1] == 'u' && Hex(s[2]) && Hex(s[3]) && Hex(s[4]) && Hex(s[5]) && StringBody(s[6..]))
    else s[0] != '\"' && s[0] != '\0' && StringBody(s[1..])
  }

  predicate Open(t: Token) { t.start != -1 && t.end == -1 }

  predicate Container(t: Token) { t.kind == Object || t.kind == Array }

  /** The last open token, or -1. */
  function LastOpen(toks: seq<Token>): (i: int)
    ensures -1 <= i < |toks| && (i >= 0 ==> Open(toks[i]))
    ensures forall j :: i < j < |toks| ==> !Open(toks[j])
  {
    if toks == [] then -1
    else if Open(toks[|toks| - 1]) then |toks| - 1
    else LastOpen(toks[..|toks| - 1])
  }

  /** The last open object or array, or -1. */
  function LastOpenContainer(toks: seq<Token>): (i: int)
    ensures -1 <= i < |toks|
    ensures i >= 0 ==> Open(toks[i]) && Container(toks[i])
    ensures forall j :: i < j < |toks| ==> !(Open(toks[j]) && Container(toks[j]))
  {
    if toks == [] then -1
    else if Container(toks[|toks| - 1]) && Open(toks[|toks| - 1]) then |toks| - 1
    else LastOpenContainer(toks[..|toks| - 1])
  }

  predicate SuperOk(st: State) { -1 <= st.super < |st.toks| }

  /** One more child for the superior token. */
  function Bump(toks: seq<Token>, super: int): (r: seq<Token>)
    requires -1 <= super < |toks|
    ensures |r| == |toks|
  {
    if super == -1 then toks else toks[super := toks[super].(size := toks[super].size + 1)]
  }

  function Allocate(st: State, pos: nat, t: Token): State
    requires SuperOk(st)
  {
    State(pos, st.super, Bump(st.toks, st.super) + [t])
  }

  function OpenKind(c: char): Kind { if c == '{' then Object else Array }

  function CloseKind(c: char): Kind { if c == '}' then Object else Array }

  /** A closing bracket closes the last open token, which must be of its kind. */
  function Close(st: State, c: char): Outcome {
    var i := LastOpen(st.toks);
    if i == -1 || st.toks[i].kind != CloseKind(c) then Stop(INVAL, st)
    else Go(State(st.pos + 1, LastOpen(st.toks[..i]), st.toks[i := st.toks[i].(end := st.pos + 1)]))
  }

  /** A comma after a key or value leads back to the container. */
  function Comma(st: State): State
    requires SuperOk(st)
  {
    var i := LastOpenContainer(st.toks);
    if st.super != -1 && !Container(st.toks[st.super]) && i != -1 then State(st.pos + 1, i, st.toks)
    else State(st.pos + 1, st.super, st.toks)
  }

  /** What the character at the position does, with room for `room` tokens in all. */
  function Step(js: string, st: State, room: nat): (o: Outcome)
    requires SuperOk(st) && !Ended(js, st.pos)
    ensures SuperOk(o.st) && (o.Go? ==> st.pos < o.st.pos <= |js|)
    ensures o.Stop? ==> o.st == st && o.code < 0
  {
    var c := js[st.pos];
    if c == '{' || c == '[' then
      if |st.toks| >= room then Stop(NOMEM, st)
      else Go(Allocate(st, st.pos + 1, Token(OpenKind(c), st.pos, -1, 0)).(super := |st.toks|))
    else if c == '}' || c == ']' then Close(st, c)
    else if c == '\"' then
      var r := StringEnd(js, st.pos + 1);
      if r.Bad? then Stop(r.code, st)
      else if |st.toks| >= room then Stop(NOMEM, st)
      else Go(Allocate(st, r.at + 1, Token(String, st.pos + 1, r.at, 0)))
    else if Blank(c) then Go(st.(pos := st.pos + 1))
    else if c == ':' then Go(st.(pos := st.pos + 1, super := |st.toks| - 1))
    else if c == ',' then Go(Comma(st))
    else
      var r := PrimitiveEnd(js, st.pos);
      if r.Bad? then Stop(r.code, st)
      else if |st.toks| >= room then Stop(NOMEM, st)
      else Go(Allocate(st, r.at, Token(Primitive, st.pos, r.at, 0)))
  }

  /** A whole run: its result and where it leaves the parser. */
  function Run(js: string, st: State, room: nat): (r: (int, State))
    requires SuperOk(st)
    ensures SuperOk(r.1)
    decreases |js| - st.pos
  {
    if Ended(js, st.pos) then (if LastOpen(st.toks) >= 0 then PART else |st.toks|, st)
    else
      var o := Step(js, st, room);
      if o.Stop? then (o.code, o.st) else Run(js, o.st, room)
  }

  // ----- running out of tokens and going on

  /** A run that stops for want of tokens, gone on with in a larger array that keeps
      the tokens, ends as one run with the larger array does. */
  lemma {:induction false} Resume(js: string, st: State, small: nat, large: nat)
    requires SuperOk(st) && small <= large && Run(js, st, small).0 == NOMEM
    ensures Run(js, Run(js, st, small).1, large) == Run(js, st, large)
    decreases |js| - st.pos
  {
    hide StringEnd, PrimitiveEnd, Close, Comma, Allocate;
    if !Ended(js, st.pos) {
      var o := Step(js, st, small);
      if o.Go? { Resume(js, o.st, small, large); }
    }
  }

  /** And a run that does not stop so does the same in every larger array. */
  lemma {:induction false} MoreRoom(js: string, st: State, small: nat, large: nat)
    requires SuperOk(st) && small <= large && Run(js, st, small).0 != NOMEM
    ensures Run(js, st, large) == Run(js, st, small)
    decreases |js| - st.pos
  {
    hide StringEnd, PrimitiveEnd, Close, Comma, Allocate;
    if !Ended(js, st.pos) {
      var o := Step(js, st, small);
      if o.Go? { MoreRoom(js, o.st, small, large); }
    }
  }

  // ----- counting without tokens

  /** The run without a token array: it counts, and checks no brackets. */
  function CountRun(js: string, pos: nat, count: nat): (r: (int, nat))
    decreases |js| - pos
  {
    if Ended(js, pos) then (count, pos)
    else
      var c := js[pos];
      if c == '{' || c == '[' then CountRun(js, pos + 1, count + 1)
      else if c == '\"' then
        var r := StringEnd(js, pos + 1);
        if r.Bad? then (r.code, pos) else CountRun(js, r.at + 1, count + 1)
      else if c == '}' || c == ']' || Blank(c) || c == ':' || c == ',' then CountRun(js, pos + 1, count)
      else
        var r := PrimitiveEnd(js, pos);
        if r.Bad? then (r.code, pos) else CountRun(js, r.at, count + 1)
  }

  /** When a run with tokens succeeds, counting gives the number of its tokens. */
  lemma {:induction false} CountAgrees(js: string, st: State, room: nat)
    requires SuperOk(st) && Run(js, st, room).0 >= 0
    ensures CountRun(js, st.pos, |st.toks|) == (Run(js, st, room).0, Run(js, st, room).1.pos)
    ensures Run(js, st, room).0 == |Run(js, st, room).1.toks| <= room || |st.toks| > room
    decreases |js| - st.pos
  {
    hide StringEnd, PrimitiveEnd;
    if !Ended(js, st.pos) {
      var o := Step(js, st, room);
      CountAgrees(js, o.st, room);
    }
  }
}
