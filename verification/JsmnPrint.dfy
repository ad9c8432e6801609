/** The tokenizer on the text of a JSON value: it returns the tokens of the value in
    order, with their slices and their numbers of children. */
module JsmnPrint {
  import opened JsmnSpec

  /** Values as the tokenizer sees them: strings and primitives by their text. */
  datatype Json =
    | Text(s: string)
    | Bare(s: string)
    | Arr(items: seq<Json>)
    | Obj(members: seq<Member>)

  datatype Member = Member(key: string, value: Json)

  /** Numbers, true, false, null: anything that neither ends nor is taken for
      something else. */
  predicate BareBody(s: string) {
    && s != "" && s[0] != '{' && s[0] != '[' && s[0] != '\"'
    && forall i :: 0 <= i < |s| ==> Printable(s[i]) && !EndsPrimitive(s[i])
  }

  predicate Valid(v: Json) {
    match v
    case Text(s) => StringBody(s)
    case Bare(s) => BareBody(s)
    case Arr(items) => forall i :: 0 <= i < |items| ==> Valid(items[i])
    case Obj(members) => forall i :: 0 <= i < |members| ==> StringBody(members[i].key) && Valid(members[i].value)
  }

  predicate Blanks(w: string) { forall i :: 0 <= i < |w| ==> Blank(w[i]) }

  function Quoted(s: string): string { ['\"'] + s + ['\"'] }

  /** The comma before the next of n things, if there is one. */
  function CommaText(n: nat, w: string): string { if n > 1 then [','] + w else [] }

  /** The text of a value, with the blanks w wherever blanks are allowed inside it. */
  function Print(v: Json, w: string): string {
    match v
    case Text(s) => Quoted(s)
    case Bare(s) => s
    case Arr(items) => ['['] + (w + PrintItems(items, w)) + [']']
    case Obj(members) => ['{'] + (w + PrintMembers(members, w)) + ['}']
  }

  function PrintItems(items: seq<Json>, w: string): string {
    if items == [] then "" else
      Print(items[0], w) + (w + (CommaText(|items|, w) + PrintItems(items[1..], w)))
  }

  function PrintMembers(members: seq<Member>, w: string): string {
    if members == [] then "" else
      Quoted(members[0].key) + (w + ([':'] + (w + (Print(members[0].value, w)
      + (w + (CommaText(|members|, w) + PrintMembers(members[1..], w)))))))
  }

  /** The tokens of a value that is printed at position p. */
  function Tokens(v: Json, w: string, p: nat): seq<Token> {
    match v
    case Text(s) => [Token(String, p + 1, p + 1 + |s|, 0)]
    case Bare(s) => [Token(Primitive, p, p + |s|, 0)]
    case Arr(items) =>
      [Token(Array, p, p + |Print(v, w)|, |items|)] + ItemTokens(items, w, p + 1 + |w|)
    case Obj(members) =>
      [Token(Object, p, p + |Print(v, w)|, |members|)] + MemberTokens(members, w, p + 1 + |w|)
  }

  /** Where the items after the first one begin. */
  function ItemNext(items: seq<Json>, w: string, p: nat): nat
    requires items != []
  {
    p + |Print(items[0], w)| + |w| + |CommaText(|items|, w)|
  }

  function ItemTokens(items: seq<Json>, w: string, p: nat): seq<Token> {
    if items == [] then [] else
      Tokens(items[0], w, p)
      + ItemTokens(items[1..], w, ItemNext(items, w, p))
  }

  /** Where the members after the first one begin. */
  function MemberNext(members: seq<Member>, w: string, p: nat): nat
    requires members != []
  {
    p + |Quoted(members[0].key)| + 2 * |w| + 1 + |Print(members[0].value, w)| + |w| + |CommaText(|members|, w)|
  }

  /** A key counts its value as a child. */
  function MemberTokens(members: seq<Member>, w: string, p: nat): seq<Token> {
    if members == [] then [] else
      [Token(String, p + 1, p + 1 + |members[0].key|, 1)]
      + Tokens(members[0].value, w, p + |Quoted(members[0].key)| + 2 * |w| + 1)
      + MemberTokens(members[1..], w, MemberNext(members, w, p))
  }

  // ----- texts within the text

  /** The text x stands at position p. */
  predicate At(js: string, p: nat, x: string) { p + |x| <= |js| && js[p..p + |x|] == x }

  lemma AtSplit(js: string, p: nat, x: string, y: string)
    requires At(js, p, x + y)
    ensures At(js, p, x) && At(js, p + |x|, y)
  {
    var z := x + y;
    assert js[p..p + |x|] == z[..|x|];
    assert js[p + |x|..p + |x| + |y|] == z[|x|..];
  }

  lemma AtHead(js: string, p: nat, c: char, y: string)
    requires At(js, p, [c] + y)
    ensures p < |js| && js[p] == c && At(js, p + 1, y)
  {
    AtSplit(js, p, [c], y);
    assert js[p..p + 1][0] == js[p];
  }

  lemma AtIndex(js: string, p: nat, x: string, i: nat)
    requires At(js, p, x) && i < |x|
    ensures js[p + i] == x[i] && At(js, p + i, x[i..])
  {
    assert x == x[..i] + x[i..];
    AtSplit(js, p, x[..i], x[i..]);
    assert js[p..p + |x|][i] == js[p + i];
  }

  predicate EndsHere(js: string, p: nat) { Ended(js, p) || EndsPrimitive(js[p]) }

  lemma {:induction false} StringEnds(js: string, i: nat, s: string)
    requires At(js, i, s + ['"']) && StringBody(s)
    ensures StringEnd(js, i) == Found(i + |s|)
    decreases |s|
  {
    if s == "" {
      AtIndex(js, i, s + ['"'], 0);
    } else if s[0] == '\\' {
      AtIndex(js, i, s + ['"'], 0);
      AtIndex(js, i, s + ['"'], 1);
      if |s| >= 2 && Escapable(s[1]) && StringBody(s[2..]) {
        Drop(js, i, s, 2);
        StringEnds(js, i + 2, s[2..]);
      } else {
        FourDigits(js, i, s);
        Drop(js, i, s, 6);
        StringEnds(js, i + 6, s[6..]);
      }
    } else {
      AtIndex(js, i, s + ['"'], 0);
      Drop(js, i, s, 1);
      StringEnds(js, i + 1, s[1..]);
    }
  }

  lemma Drop(js: string, i: nat, s: string, n: nat)
    requires At(js, i, s + ['"']) && n <= |s|
    ensures At(js, i + n, s[n..] + ['"'])
  {
    AtIndex(js, i, s + ['"'], n);
    assert (s + ['"'])[n..] == s[n..] + ['"'];
  }

  lemma FourDigits(js: string, i: nat, s: string)
    requires At(js, i, s + ['"']) && |s| >= 6 && Hex(s[2]) && Hex(s[3]) && Hex(s[4]) && Hex(s[5])
    ensures HexEnd(js, i + 2, 4) == Found(i + 6)
  {
    AtIndex(js, i, s + ['"'], 2);
    AtIndex(js, i, s + ['"'], 3);
    AtIndex(js, i, s + ['"'], 4);
    AtIndex(js, i, s + ['"'], 5);
    assert HexEnd(js, i + 4, 2) == Found(i + 6);
  }

  lemma {:induction false} PrimitiveEnds(js: string, i: nat, s: string)
    requires At(js, i, s) && EndsHere(js, i + |s|)
    requires forall k :: 0 <= k < |s| ==> Printable(s[k]) && !EndsPrimitive(s[k])
    ensures PrimitiveEnd(js, i) == Found(i + |s|)
    decreases |s|
  {
    if s != "" {
      AtIndex(js, i, s, 0);
      AtSplit(js, i, s[..1], s[1..]);
      assert s[..1] + s[1..] == s;
      PrimitiveEnds(js, i + 1, s[1..]);
    }
  }

  // ----- runs over pieces of text

  lemma RunGo(js: string, st: State, room: nat)
    requires SuperOk(st) && !Ended(js, st.pos) && Step(js, st, room).Go?
    ensures Run(js, st, room) == Run(js, Step(js, st, room).st, room)
  {
  }

  lemma {:induction false} RunBlanks(js: string, st: State, w: string, room: nat)
    requires SuperOk(st) && Blanks(w) && At(js, st.pos, w)
    ensures Run(js, st, room) == Run(js, st.(pos := st.pos + |w|), room)
    decreases |w|
  {
    if w == "" {
      assert st == st.(pos := st.pos + |w|);
    } else {
      assert w == [w[0]] + w[1..] && Blank(w[0]);
      AtHead(js, st.pos, w[0], w[1..]);
      assert Blanks(w[1..]);
      hide Run, Step, Blank, At, Blanks, Ended;
      BlankStep(js, st, room);
      RunGo(js, st, room);
      RunBlanks(js, st.(pos := st.pos + 1), w[1..], room);
    }
  }

  lemma BlankStep(js: string, st: State, room: nat)
    requires SuperOk(st) && st.pos < |js| && Blank(js[st.pos])
    ensures !Ended(js, st.pos) && Step(js, st, room) == Go(st.(pos := st.pos + 1))
  {
  }

  lemma QuotedStep(js: string, st: State, s: string, room: nat)
    requires SuperOk(st) && At(js, st.pos, Quoted(s)) && StringBody(s) && |st.toks| < room
    ensures !Ended(js, st.pos)
    ensures Step(js, st, room) == Go(Allocate(st, st.pos + |Quoted(s)|, Token(String, st.pos + 1, st.pos + 1 + |s|, 0)))
  {
    hide Step, StringEnd, Allocate, StringBody, At;
    assert Quoted(s) == ['"'] + (s + ['"']);
    AtHead(js, st.pos, '"', s + ['"']);
    StringEnds(js, st.pos + 1, s);
    StringRead(js, st, room);
  }

  lemma StringRead(js: string, st: State, room: nat)
    requires SuperOk(st) && st.pos < |js| && js[st.pos] == '"' && |st.toks| < room
    ensures !Ended(js, st.pos)
    ensures var r := StringEnd(js, st.pos + 1);
            !r.Bad? ==> Step(js, st, room) == Go(Allocate(st, r.at + 1, Token(String, st.pos + 1, r.at, 0)))
  {
    hide StringEnd, Allocate;
  }

  lemma BareStep(js: string, st: State, s: string, room: nat)
    requires SuperOk(st) && At(js, st.pos, s) && BareBody(s) && EndsHere(js, st.pos + |s|) && |st.toks| < room
    ensures !Ended(js, st.pos)
    ensures Step(js, st, room) == Go(Allocate(st, st.pos + |s|, Token(Primitive, st.pos, st.pos + |s|, 0)))
  {
    AtIndex(js, st.pos, s, 0);
    assert Printable(s[0]) && !EndsPrimitive(s[0]);
    PrimitiveEnds(js, st.pos, s);
    hide PrimitiveEnd, Allocate;
  }

  // ----- open tokens

  lemma {:induction false} LastOpenIs(toks: seq<Token>, i: int)
    requires -1 <= i < |toks| && (i >= 0 ==> Open(toks[i])) && forall j :: i < j < |toks| ==> !Open(toks[j])
    ensures LastOpen(toks) == i
  {
  }

  predicate Closed(toks: seq<Token>) { forall i :: 0 <= i < |toks| ==> !Open(toks[i]) }

  lemma BumpOpens(toks: seq<Token>, super: int)
    requires -1 <= super < |toks|
    ensures forall i :: 0 <= i < |toks| ==> (Open(Bump(toks, super)[i]) <==> Open(toks[i]))
    ensures LastOpen(Bump(toks, super)) == LastOpen(toks)
  {
    LastOpenIs(Bump(toks, super), LastOpen(toks));
  }

  lemma {:induction false} TokensClosed(v: Json, w: string, p: nat)
    ensures Closed(Tokens(v, w, p))
    decreases v
  {
    match v
    case Text(_) =>
    case Bare(_) =>
    case Arr(items) => ItemTokensClosed(items, w, p + 1 + |w|);
    case Obj(members) => MemberTokensClosed(members, w, p + 1 + |w|);
  }

  lemma {:induction false} ItemTokensClosed(items: seq<Json>, w: string, p: nat)
    ensures Closed(ItemTokens(items, w, p))
    decreases items
  {
    hide Tokens, PrintItems;
    if items != [] {
      TokensClosed(items[0], w, p);
      ItemTokensClosed(items[1..], w, ItemNext(items, w, p));
    }
  }

  lemma {:induction false} MemberTokensClosed(members: seq<Member>, w: string, p: nat)
    ensures Closed(MemberTokens(members, w, p))
    decreases members
  {
    hide Tokens, PrintMembers, Quoted;
    if members != [] {
      TokensClosed(members[0].value, w, p + |Quoted(members[0].key)| + 2 * |w| + 1);
      MemberTokensClosed(members[1..], w, MemberNext(members, w, p));
    }
  }

  // ----- the run over a value

  /** The parser after a value: its tokens are there, and the superior token counts it.
      After a container the last open token is the superior one. */
  function After(st: State, v: Json, w: string): State
    requires SuperOk(st)
  {
    State(st.pos + |Print(v, w)|, if v.Arr? || v.Obj? then LastOpen(st.toks) else st.super,
          Bump(st.toks, st.super) + Tokens(v, w, st.pos))
  }

  /** The parser is inside container a. */
  predicate Inside(st: State, a: nat, kind: Kind) {
    SuperOk(st) && a < |st.toks| && LastOpen(st.toks) == a && st.toks[a].kind == kind && (kind == Array || kind == Object)
  }

  /** The parser after the bracket at q that closes container a with n more children. */
  function Finished(st: State, a: nat, n: nat, more: seq<Token>, q: nat): State
    requires a < |st.toks|
  {
    State(q + 1, LastOpen(st.toks[..a]),
          st.toks[a := st.toks[a].(size := st.toks[a].size + n, end := q + 1)] + more)
  }

  lemma InsideFacts(st: State, a: nat, kind: Kind)
    requires Inside(st, a, kind)
    ensures SuperOk(st) && a < |st.toks| && LastOpen(st.toks) == a
  {
  }

  lemma CloseStep(js: string, st: State, a: nat, kind: Kind, room: nat)
    requires Inside(st, a, kind) && At(js, st.pos, [if kind == Array then ']' else '}'])
    ensures !Ended(js, st.pos) && Step(js, st, room) == Go(Finished(st, a, 0, [], st.pos))
  {
    AtIndex(js, st.pos, [if kind == Array then ']' else '}'], 0);
    var toks := st.toks[a := st.toks[a].(end := st.pos + 1)];
    assert toks + [] == toks;
  }

  lemma LastContainer(toks: seq<Token>, a: nat)
    requires a < |toks| && LastOpen(toks) == a && Container(toks[a])
    ensures LastOpenContainer(toks) == a
  {
    var i := LastOpenContainer(toks);
    assert Open(toks[a]) && Container(toks[a]);
  }

  lemma CommaStep(js: string, st: State, a: nat, kind: Kind, room: nat)
    requires Inside(st, a, kind) && (st.super == a || (st.super >= 0 && !Container(st.toks[st.super])))
    requires st.pos < |js| && js[st.pos] == ','
    ensures !Ended(js, st.pos) && Step(js, st, room) == Go(State(st.pos + 1, a, st.toks))
  {
    LastContainer(st.toks, a);
  }

  /** Between two things in a container, or before its closing bracket. */
  lemma RunGap(js: string, st: State, a: nat, kind: Kind, n: nat, w: string, tail: string, room: nat)
    requires Inside(st, a, kind) && (st.super == a || (st.super >= 0 && !Container(st.toks[st.super]))) && Blanks(w)
    requires At(js, st.pos, w + (CommaText(n, w) + tail))
    ensures var q := st.pos + |w| + |CommaText(n, w)|;
            && At(js, q, tail)
            && Run(js, st, room) == Run(js, State(q, if n > 1 then a else st.super, st.toks), room)
  {
    hide Run, Step;
    AtSplit(js, st.pos, w, CommaText(n, w) + tail);
    RunBlanks(js, st, w, room);
    var st1 := st.(pos := st.pos + |w|);
    if n > 1 {
      assert CommaText(n, w) + tail == [','] + (w + tail);
      AtHead(js, st1.pos, ',', w + tail);
      CommaStep(js, st1, a, kind, room);
      RunGo(js, st1, room);
      var st2 := State(st1.pos + 1, a, st.toks);
      AtSplit(js, st2.pos, w, tail);
      RunBlanks(js, st2, w, room);
    } else {
      assert CommaText(n, w) + tail == tail;
    }
  }

  /** After a value there is something that ends a primitive. */
  lemma GapEnds(js: string, q: nat, n: nat, w: string, tail: string)
    requires Blanks(w) && At(js, q, w + (CommaText(n, w) + tail)) && tail != "" && (n <= 1 ==> EndsPrimitive(tail[0]))
    ensures EndsHere(js, q)
  {
    var x := w + (CommaText(n, w) + tail);
    AtIndex(js, q, x, 0);
    if w != "" { assert x[0] == w[0]; } else if n > 1 { assert x[0] == ','; } else { assert x[0] == tail[0]; }
  }

  lemma SimpleParts(st: State, v: Json, w: string)
    requires Valid(v) && SuperOk(st)
    ensures v.Text? ==> Print(v, w) == Quoted(v.s) && StringBody(v.s)
                        && After(st, v, w) == Allocate(st, st.pos + |Quoted(v.s)|, Token(String, st.pos + 1, st.pos + 1 + |v.s|, 0))
    ensures v.Bare? ==> Print(v, w) == v.s && BareBody(v.s)
                        && After(st, v, w) == Allocate(st, st.pos + |v.s|, Token(Primitive, st.pos, st.pos + |v.s|, 0))
  {
    hide StringBody, BareBody;
  }

  lemma SimpleValue(js: string, st: State, v: Json, w: string, room: nat)
    requires Valid(v) && SuperOk(st) && At(js, st.pos, Print(v, w)) && (v.Text? || v.Bare?) && |st.toks| < room
    requires v.Bare? ==> EndsHere(js, st.pos + |Print(v, w)|)
    ensures SuperOk(After(st, v, w)) && Run(js, st, room) == Run(js, After(st, v, w), room)
  {
    hide *;
    SimpleParts(st, v, w);
    if v.Text? {
      QuotedStep(js, st, v.s, room);
    } else {
      BareStep(js, st, v.s, room);
    }
    RunGo(js, st, room);
  }

  /** Opening a container. */
  function Opened(st: State, kind: Kind): State
    requires SuperOk(st)
  {
    Allocate(st, st.pos + 1, Token(kind, st.pos, -1, 0)).(super := |st.toks|)
  }

  lemma OpenStep(js: string, st: State, kind: Kind, room: nat)
    requires SuperOk(st) && (kind == Array || kind == Object) && |st.toks| < room
    requires st.pos < |js| && js[st.pos] == if kind == Array then '[' else '{'
    ensures !Ended(js, st.pos) && Step(js, st, room) == Go(Opened(st, kind)) && Inside(Opened(st, kind), |st.toks|, kind)
  {
    LastOpenIs(Opened(st, kind).toks, |st.toks|);
  }

  /** Opening, the blanks after the bracket, and the state that everything inside
      leads to, put together. */
  lemma ContainerFinished(st: State, kind: Kind, w: string, n: nat, more: seq<Token>, q: nat)
    requires SuperOk(st)
    ensures var st1 := Opened(st, kind).(pos := st.pos + 1 + |w|);
            Finished(st1, |st.toks|, n, more, q)
            == State(q + 1, LastOpen(st.toks), Bump(st.toks, st.super) + ([Token(kind, st.pos, q + 1, n)] + more))
  {
    BumpOpens(st.toks, st.super);
    var st1 := Opened(st, kind).(pos := st.pos + 1 + |w|);
    var a := |st.toks|;
    assert st1.toks[..a] == Bump(st.toks, st.super);
    assert st1.toks[a := Token(kind, st.pos, q + 1, n)] == Bump(st.toks, st.super) + [Token(kind, st.pos, q + 1, n)];
  }

  /** The opening bracket and the blanks after it. */
  lemma Enter(js: string, st: State, kind: Kind, w: string, inner: string, room: nat)
    requires SuperOk(st) && (kind == Array || kind == Object) && |st.toks| < room && Blanks(w)
    requires At(js, st.pos, [if kind == Array then '[' else '{'] + (w + inner))
    ensures var st2 := Opened(st, kind).(pos := st.pos + 1 + |w|);
            && Inside(st2, |st.toks|, kind) && st2.super == |st.toks| && |st2.toks| == |st.toks| + 1 && At(js, st2.pos, inner)
            && Run(js, st, room) == Run(js, st2, room)
  {
    hide Run, Step;
    AtHead(js, st.pos, if kind == Array then '[' else '{', w + inner);
    OpenStep(js, st, kind, room);
    RunGo(js, st, room);
    AtSplit(js, st.pos + 1, w, inner);
    RunBlanks(js, Opened(st, kind), w, room);
  }

  lemma {:induction false} RunValue(js: string, st: State, v: Json, w: string, room: nat)
    requires Valid(v) && Blanks(w) && SuperOk(st) && At(js, st.pos, Print(v, w))
    requires |st.toks| + |Tokens(v, w, st.pos)| <= room && (v.Bare? ==> EndsHere(js, st.pos + |Print(v, w)|))
    ensures SuperOk(After(st, v, w)) && Run(js, st, room) == Run(js, After(st, v, w), room)
    decreases v, 1
  {
    if v.Text? || v.Bare? {
      SimpleValue(js, st, v, w, room);
    } else if v.Arr? {
      RunArray(js, st, v, w, room);
    } else {
      RunObject(js, st, v, w, room);
    }
  }

  lemma ArrayParts(v: Json, w: string, p: nat)
    requires Valid(v) && v.Arr?
    ensures Print(v, w) == ['['] + (w + (PrintItems(v.items, w) + [']']))
    ensures Tokens(v, w, p) == [Token(Array, p, p + |Print(v, w)|, |v.items|)] + ItemTokens(v.items, w, p + 1 + |w|)
    ensures forall i :: 0 <= i < |v.items| ==> Valid(v.items[i])
  {
    hide PrintItems, ItemTokens;
    assert (w + PrintItems(v.items, w)) + [']'] == w + (PrintItems(v.items, w) + [']']);
  }

  lemma {:induction false} RunArray(js: string, st: State, v: Json, w: string, room: nat)
    requires Valid(v) && v.Arr? && Blanks(w) && SuperOk(st) && At(js, st.pos, Print(v, w))
    requires |st.toks| + |Tokens(v, w, st.pos)| <= room
    ensures SuperOk(After(st, v, w)) && Run(js, st, room) == Run(js, After(st, v, w), room)
    decreases v, 0
  {
    hide Run, Finished, PrintItems, ItemTokens, Inside, Print, Tokens, Valid, Opened, At, Bump;
    ArrayParts(v, w, st.pos);
    var inner, more := PrintItems(v.items, w) + [']'], ItemTokens(v.items, w, st.pos + 1 + |w|);
    Enter(js, st, Array, w, inner, room);
    var st2 := Opened(st, Array).(pos := st.pos + 1 + |w|);
    ContainerFinished(st, Array, w, |v.items|, more, st2.pos + |inner| - 1);
    RunItems(js, st2, |st.toks|, v.items, w, room);
  }

  lemma ObjectParts(v: Json, w: string, p: nat)
    requires Valid(v) && v.Obj?
    ensures Print(v, w) == ['{'] + (w + (PrintMembers(v.members, w) + ['}']))
    ensures Tokens(v, w, p) == [Token(Object, p, p + |Print(v, w)|, |v.members|)] + MemberTokens(v.members, w, p + 1 + |w|)
    ensures forall i :: 0 <= i < |v.members| ==> StringBody(v.members[i].key) && Valid(v.members[i].value)
  {
    hide PrintMembers, MemberTokens;
    assert (w + PrintMembers(v.members, w)) + ['}'] == w + (PrintMembers(v.members, w) + ['}']);
  }

  lemma {:induction false} RunObject(js: string, st: State, v: Json, w: string, room: nat)
    requires Valid(v) && v.Obj? && Blanks(w) && SuperOk(st) && At(js, st.pos, Print(v, w))
    requires |st.toks| + |Tokens(v, w, st.pos)| <= room
    ensures SuperOk(After(st, v, w)) && Run(js, st, room) == Run(js, After(st, v, w), room)
    decreases v, 0
  {
    hide Run, Finished, PrintMembers, MemberTokens, Inside, Print, Tokens, Valid, Opened, At, Bump;
    ObjectParts(v, w, st.pos);
    var inner, more := PrintMembers(v.members, w) + ['}'], MemberTokens(v.members, w, st.pos + 1 + |w|);
    Enter(js, st, Object, w, inner, room);
    var st2 := Opened(st, Object).(pos := st.pos + 1 + |w|);
    ContainerFinished(st, Object, w, |v.members|, more, st2.pos + |inner| - 1);
    RunMembers(js, st2, |st.toks|, v.members, w, room);
  }

  lemma ItemsText(items: seq<Json>, w: string)
    requires items != []
    ensures PrintItems(items, w) + [']']
         == Print(items[0], w) + (w + (CommaText(|items|, w) + (PrintItems(items[1..], w) + [']'])))
    ensures |PrintItems(items, w)| == |Print(items[0], w)| + |w| + |CommaText(|items|, w)| + |PrintItems(items[1..], w)|
    ensures |items| == 1 ==> PrintItems(items[1..], w) == ""
  {
    hide Print, CommaText;
    var c, r := CommaText(|items|, w), PrintItems(items[1..], w);
    assert (Print(items[0], w) + (w + (c + r))) + [']'] == Print(items[0], w) + (w + (c + (r + [']'])));
  }

  /** Inside a container, a value leaves the parser inside it. */
  lemma StaysInside(st: State, v: Json, w: string, a: nat, kind: Kind)
    requires Inside(st, a, kind)
    ensures Inside(After(st, v, w), a, kind)
    ensures After(st, v, w).super == if v.Arr? || v.Obj? then a else st.super
  {
    BumpOpens(st.toks, st.super);
    TokensClosed(v, w, st.pos);
    hide Print, Tokens;
    LastOpenIs(After(st, v, w).toks, a);
  }

  lemma FinishedMore(st: State, st': State, a: nat, ts: seq<Token>, n: nat, more: seq<Token>, q: nat)
    requires a < |st.toks| && n > 0 && st'.toks == Bump(st.toks, a) + ts
    ensures Finished(st', a, n - 1, more, q) == Finished(st, a, n, ts + more, q)
  {
    assert st'.toks[..a] == st.toks[..a];
    var t := st.toks[a].(size := st.toks[a].size + n, end := q + 1);
    assert st'.toks[a := t] == st.toks[a := t] + ts;
  }

  lemma {:induction false} RunItems(js: string, st: State, a: nat, items: seq<Json>, w: string, room: nat)
    requires Blanks(w) && Inside(st, a, Array) && (items != [] ==> st.super == a)
    requires forall i :: 0 <= i < |items| ==> Valid(items[i])
    requires At(js, st.pos, PrintItems(items, w) + [']'])
    requires |st.toks| + |ItemTokens(items, w, st.pos)| <= room
    ensures a < |st.toks|
    ensures var e := Finished(st, a, |items|, ItemTokens(items, w, st.pos), st.pos + |PrintItems(items, w)|);
            SuperOk(e) && Run(js, st, room) == Run(js, e, room)
    decreases items, 0
  {
    hide Run, Step, Print, Tokens, Finished, At, Inside, CommaText, Valid;
    InsideFacts(st, a, Array);
    if items == [] {
      assert PrintItems(items, w) + [']'] == [']'];
      CloseStep(js, st, a, Array, room);
      RunGo(js, st, room);
    } else {
      var v, rest, n := items[0], items[1..], |items|;
      var tail := PrintItems(rest, w) + [']'];
      ItemsText(items, w);
      AtSplit(js, st.pos, Print(v, w), w + (CommaText(n, w) + tail));
      GapEnds(js, st.pos + |Print(v, w)|, n, w, tail);
      var ts, more := Tokens(v, w, st.pos), ItemTokens(rest, w, ItemNext(items, w, st.pos));
      RunValue(js, st, v, w, room);
      StaysInside(st, v, w, a, Array);
      var st1 := After(st, v, w);
      RunGap(js, st1, a, Array, n, w, tail, room);
      var st2 := State(ItemNext(items, w, st.pos), a, st1.toks);
      SameInside(st1, st2, a, Array);
      RunItems(js, st2, a, rest, w, room);
      FinishedMore(st, st2, a, ts, n, more, st.pos + |PrintItems(items, w)|);
    }
  }

  lemma SameInside(st: State, st': State, a: nat, kind: Kind)
    requires Inside(st, a, kind) && st'.toks == st.toks && SuperOk(st')
    ensures Inside(st', a, kind)
  {
  }

  lemma MembersText(members: seq<Member>, w: string)
    requires members != []
    ensures PrintMembers(members, w) + ['}']
         == Quoted(members[0].key) + (w + ([':'] + (w + (Print(members[0].value, w)
            + (w + (CommaText(|members|, w) + (PrintMembers(members[1..], w) + ['}'])))))))
    ensures |PrintMembers(members, w)|
         == |Quoted(members[0].key)| + 2 * |w| + 1 + |Print(members[0].value, w)| + |w| + |CommaText(|members|, w)|
          + |PrintMembers(members[1..], w)|
    ensures |members| == 1 ==> PrintMembers(members[1..], w) == ""
  {
    hide Print, CommaText, Quoted;
    var k, p, c, r := Quoted(members[0].key), Print(members[0].value, w), CommaText(|members|, w), PrintMembers(members[1..], w);
    assert (k + (w + ([':'] + (w + (p + (w + (c + r))))))) + ['}'] == k + (w + ([':'] + (w + (p + (w + (c + (r + ['}'])))))));
  }

  /** The parser after a key and its colon: the key is the superior token. */
  function AfterKey(st: State, key: string, w: string): State
    requires SuperOk(st)
  {
    State(st.pos + |Quoted(key)| + 2 * |w| + 1, |st.toks|,
          Bump(st.toks, st.super) + [Token(String, st.pos + 1, st.pos + 1 + |key|, 0)])
  }

  lemma ColonStep(js: string, st: State, room: nat)
    requires SuperOk(st) && st.pos < |js| && js[st.pos] == ':'
    ensures !Ended(js, st.pos) && Step(js, st, room) == Go(State(st.pos + 1, |st.toks| - 1, st.toks))
  {
  }

  lemma RunKey(js: string, st: State, a: nat, key: string, w: string, tail: string, room: nat)
    requires Inside(st, a, Object) && StringBody(key) && Blanks(w) && |st.toks| < room
    requires At(js, st.pos, Quoted(key) + (w + ([':'] + (w + tail))))
    ensures SuperOk(st)
    ensures var st4 := AfterKey(st, key, w);
            && Inside(st4, a, Object) && At(js, st4.pos, tail)
            && Run(js, st, room) == Run(js, st4, room)
  {
    hide Run, Step, At, Quoted, StringBody;
    AtSplit(js, st.pos, Quoted(key), w + ([':'] + (w + tail)));
    QuotedStep(js, st, key, room);
    RunGo(js, st, room);
    var st1 := Allocate(st, st.pos + |Quoted(key)|, Token(String, st.pos + 1, st.pos + 1 + |key|, 0));
    AtSplit(js, st1.pos, w, [':'] + (w + tail));
    RunBlanks(js, st1, w, room);
    var st2 := st1.(pos := st1.pos + |w|);
    AtHead(js, st2.pos, ':', w + tail);
    ColonStep(js, st2, room);
    RunGo(js, st2, room);
    var st3 := State(st2.pos + 1, |st.toks|, st1.toks);
    AtSplit(js, st3.pos, w, tail);
    RunBlanks(js, st3, w, room);
    KeyInside(st, a, key, w);
  }

  lemma KeyInside(st: State, a: nat, key: string, w: string)
    requires Inside(st, a, Object)
    ensures Inside(AfterKey(st, key, w), a, Object)
  {
    BumpOpens(st.toks, st.super);
    LastOpenIs(AfterKey(st, key, w).toks, a);
  }

  /** A key with its value, as the container's tokens grow. */
  lemma KeyAndValue(st: State, a: nat, key: string, v: Json, w: string)
    requires Inside(st, a, Object) && st.super == a
    ensures var st4 := AfterKey(st, key, w);
            After(st4, v, w).toks
            == Bump(st.toks, a) + ([Token(String, st.pos + 1, st.pos + 1 + |key|, 1)] + Tokens(v, w, st4.pos))
  {
    hide Tokens, Print, Quoted;
    var st4 := AfterKey(st, key, w);
    assert Bump(st4.toks, |st.toks|) == Bump(st.toks, a) + [Token(String, st.pos + 1, st.pos + 1 + |key|, 1)];
  }

  lemma {:induction false} RunMembers(js: string, st: State, a: nat, members: seq<Member>, w: string, room: nat)
    requires Blanks(w) && Inside(st, a, Object) && (members != [] ==> st.super == a)
    requires forall i :: 0 <= i < |members| ==> StringBody(members[i].key) && Valid(members[i].value)
    requires At(js, st.pos, PrintMembers(members, w) + ['}'])
    requires |st.toks| + |MemberTokens(members, w, st.pos)| <= room
    ensures a < |st.toks|
    ensures var e := Finished(st, a, |members|, MemberTokens(members, w, st.pos), st.pos + |PrintMembers(members, w)|);
            SuperOk(e) && Run(js, st, room) == Run(js, e, room)
    decreases members, 0
  {
    hide Run, Step, Print, Tokens, Finished, At, Inside, CommaText, Valid, StringBody, Quoted;
    InsideFacts(st, a, Object);
    if members == [] {
      assert PrintMembers(members, w) + ['}'] == ['}'];
      CloseStep(js, st, a, Object, room);
      RunGo(js, st, room);
    } else {
      var key, v, rest, n := members[0].key, members[0].value, members[1..], |members|;
      var tail := PrintMembers(rest, w) + ['}'];
      var gap := w + (CommaText(n, w) + tail);
      MembersText(members, w);
      RunKey(js, st, a, key, w, Print(v, w) + gap, room);
      var st4 := AfterKey(st, key, w);
      AtSplit(js, st4.pos, Print(v, w), gap);
      GapEnds(js, st4.pos + |Print(v, w)|, n, w, tail);
      var ts := [Token(String, st.pos + 1, st.pos + 1 + |key|, 1)] + Tokens(v, w, st4.pos);
      var more := MemberTokens(rest, w, MemberNext(members, w, st.pos));
      RunValue(js, st4, v, w, room);
      StaysInside(st4, v, w, a, Object);
      KeyAndValue(st, a, key, v, w);
      var st5 := After(st4, v, w);
      RunGap(js, st5, a, Object, n, w, tail, room);
      var st6 := State(MemberNext(members, w, st.pos), if n > 1 then a else st5.super, st5.toks);
      SameInside(st5, st6, a, Object);
      RunMembers(js, st6, a, rest, w, room);
      FinishedMore(st, st6, a, ts, n, more, st.pos + |PrintMembers(members, w)|);
    }
  }

  /** From the start, the text of a value between blanks gives exactly the tokens of the
      value, when there is room for them. */
  lemma PrintedIsTokenized(v: Json, w: string, before: string, after: string, room: nat)
    requires Valid(v) && Blanks(w) && Blanks(before) && Blanks(after)
    requires |Tokens(v, w, |before|)| <= room
    ensures var (r, st) := Run(before + (Print(v, w) + after), INITIAL, room);
            && r == |Tokens(v, w, |before|)| && st.toks == Tokens(v, w, |before|)
            && st.pos == |before| + |Print(v, w)| + |after|
  {
    hide *;
    var js := before + (Print(v, w) + after);
    var st := State(|before|, -1, []);
    ThreeParts(js, before, Print(v, w), after);
    AfterStart(v, w, |before|);
    RunBlanks(js, INITIAL, before, room);
    assert INITIAL.(pos := INITIAL.pos + |before|) == st;
    RunValue(js, st, v, w, room);
    var st1 := After(st, v, w);
    RunBlanks(js, st1, after, room);
    RunAtEnd(js, st1.(pos := st1.pos + |after|), room);
  }

  lemma ThreeParts(js: string, before: string, x: string, after: string)
    requires js == before + (x + after) && Blanks(after)
    ensures At(js, 0, before) && At(js, |before|, x) && At(js, |before| + |x|, after)
    ensures EndsHere(js, |before| + |x|) && Ended(js, |before| + |x| + |after|)
  {
    assert js[0..|js|] == js;
    AtSplit(js, 0, before, x + after);
    AtSplit(js, |before|, x, after);
    if after != "" { AtIndex(js, |before| + |x|, after, 0); }
  }

  lemma AfterStart(v: Json, w: string, p: nat)
    ensures SuperOk(State(p, -1, [])) && SuperOk(INITIAL) && INITIAL == State(0, -1, [])
    ensures var e := After(State(p, -1, []), v, w);
            e.toks == Tokens(v, w, p) && e.pos == p + |Print(v, w)| && SuperOk(e) && LastOpen(e.toks) == -1
  {
    TokensClosed(v, w, p);
    hide Tokens, Print;
    var i := LastOpen(Tokens(v, w, p));
    assert Bump([], -1) + Tokens(v, w, p) == Tokens(v, w, p);
  }

  lemma RunAtEnd(js: string, st: State, room: nat)
    requires SuperOk(st) && Ended(js, st.pos) && LastOpen(st.toks) == -1
    ensures Run(js, st, room) == (|st.toks|, st)
  {
  }
}
