/** What every step of the tokenizer keeps: the tokens are a forest of slices of the
    text in the order of their starts. */
module JsmnForest {
  import opened JsmnSpec
  import opened JsmnTexts

  function Opener(k: Kind): char { if k == Object then '{' else '[' }

  function Closer(k: Kind): char { if k == Object then '}' else ']' }

  /** A token's slice lies in the first `pos` characters and is what its kind says. */
  ghost predicate TokenOk(js: string, t: Token, pos: nat)
    requires pos <= |js|
  {
    match t.kind
    case Undefined => false
    case Object => ContainerOk(js, t, pos)
    case Array => ContainerOk(js, t, pos)
    case String =>
      && 1 <= t.start <= t.end < pos && js[t.start - 1] == '\"' && js[t.end] == '\"'
      && StringBody(js[t.start..t.end])
    case Primitive =>
      0 <= t.start < t.end <= pos && forall i :: t.start <= i < t.end ==> Printable(js[i]) && !EndsPrimitive(js[i])
  }

  /** A container begins with its bracket and, once closed, ends with the bracket of
      its own kind. */
  ghost predicate ContainerOk(js: string, t: Token, pos: nat)
    requires pos <= |js|
  {
    && 0 <= t.start < pos && js[t.start] == Opener(t.kind)
    && (t.end == -1 || (t.start < t.end <= pos && js[t.end - 1] == Closer(t.kind)))
  }

  /** The earlier token t starts first, and either t is still open, or it ends before u
      starts, or u lies within it. */
  predicate InOrder(t: Token, u: Token) {
    t.start < u.start && (t.end == -1 || t.end <= u.start || (u.end != -1 && u.end <= t.end))
  }

  ghost predicate Forest(js: string, st: State) {
    && st.pos <= |js| && SuperOk(st)
    && (forall i :: 0 <= i < |st.toks| ==> TokenOk(js, st.toks[i], st.pos))
    && forall i, j :: 0 <= i < j < |st.toks| ==> InOrder(st.toks[i], st.toks[j])
  }

  /** What is left of a token when its size does not matter. */
  function Slice(t: Token): Token { t.(size := 0) }

  lemma SizeDoesNotMatter(js: string, t: Token, n: nat, pos: nat)
    requires pos <= |js|
    ensures TokenOk(js, t.(size := n), pos) <==> TokenOk(js, t, pos)
  {
  }

  lemma BumpKeeps(js: string, st: State)
    requires Forest(js, st)
    ensures Forest(js, st.(toks := Bump(st.toks, st.super)))
  {
    if st.super >= 0 {
      SizeDoesNotMatter(js, st.toks[st.super], st.toks[st.super].size + 1, st.pos);
    }
  }

  lemma LaterPosition(js: string, t: Token, p: nat, q: nat)
    requires p <= q <= |js| && TokenOk(js, t, p)
    ensures TokenOk(js, t, q) && t.start < p && t.end <= p
  {
  }

  /** A token that starts at or after the position fits in behind the others. */
  lemma AppendKeeps(js: string, st: State, t: Token, pos: nat, super: int)
    requires Forest(js, st) && st.pos <= pos <= |js| && st.pos <= t.start && TokenOk(js, t, pos)
    requires -1 <= super <= |st.toks|
    ensures Forest(js, State(pos, super, st.toks + [t]))
  {
    hide TokenOk;
    forall i | 0 <= i < |st.toks| ensures TokenOk(js, st.toks[i], pos) && st.toks[i].start < st.pos && st.toks[i].end <= st.pos {
      LaterPosition(js, st.toks[i], st.pos, pos);
    }
  }

  lemma MoveKeeps(js: string, st: State, pos: nat, super: int)
    requires Forest(js, st) && st.pos <= pos <= |js| && -1 <= super < |st.toks|
    ensures Forest(js, State(pos, super, st.toks))
  {
    hide TokenOk;
    forall i | 0 <= i < |st.toks| ensures TokenOk(js, st.toks[i], pos) {
      LaterPosition(js, st.toks[i], st.pos, pos);
    }
  }

  lemma OpenIsContainer(js: string, t: Token, pos: nat)
    requires pos <= |js| && TokenOk(js, t, pos) && t.end == -1
    ensures Container(t) && ContainerOk(js, t, pos)
  {
  }

  lemma CloseKeeps(js: string, st: State)
    requires Forest(js, st) && !Ended(js, st.pos) && (js[st.pos] == '}' || js[st.pos] == ']')
    ensures Forest(js, Close(st, js[st.pos]).st)
  {
    var c := js[st.pos];
    var i := LastOpen(st.toks);
    if i >= 0 && st.toks[i].kind == CloseKind(c) {
      var t := st.toks[i];
      var u := t.(end := st.pos + 1);
      OpenIsContainer(js, t, st.pos);
      assert ContainerOk(js, u, st.pos + 1);
      hide TokenOk;
      var toks := st.toks[i := u];
      forall k | 0 <= k < |toks| ensures TokenOk(js, toks[k], st.pos + 1) {
        LaterPosition(js, st.toks[k], st.pos, st.pos + 1);
        if k == i { ClosedContainer(js, u, st.pos + 1); }
      }
      forall j, k | 0 <= j < k < |toks| ensures InOrder(toks[j], toks[k]) {
        assert InOrder(st.toks[j], st.toks[k]);
        LaterPosition(js, st.toks[k], st.pos, st.pos);
        if j == i { assert !Open(st.toks[k]); StartsInText(js, st.toks[k], st.pos); }
      }
    }
  }

  lemma ClosedContainer(js: string, t: Token, pos: nat)
    requires pos <= |js| && Container(t) && ContainerOk(js, t, pos)
    ensures TokenOk(js, t, pos)
  {
  }

  lemma StartsInText(js: string, t: Token, pos: nat)
    requires pos <= |js| && TokenOk(js, t, pos)
    ensures t.start >= 0 && (t.end == -1 || t.start <= t.end)
  {
  }

  lemma {:induction false} PrimitiveText(js: string, i: nat)
    ensures PrimitiveEnd(js, i).Found? ==>
              forall k :: i <= k < PrimitiveEnd(js, i).at ==> k < |js| && Printable(js[k]) && !EndsPrimitive(js[k])
    decreases |js| - i
  {
    if !Ended(js, i) { PrimitiveText(js, i + 1); }
  }

  /** Every step keeps the forest. */
  lemma StepKeeps(js: string, st: State, room: nat)
    requires Forest(js, st) && !Ended(js, st.pos)
    ensures Forest(js, Step(js, st, room).st)
  {
    hide TokenOk, InOrder, Forest, StringEnd, PrimitiveEnd;
    ForestFacts(js, st);
    var c := js[st.pos];
    var bumped := st.(toks := Bump(st.toks, st.super));
    BumpKeeps(js, st);
    if c == '{' || c == '[' {
      var t := Token(OpenKind(c), st.pos, -1, 0);
      ClosedContainer(js, t, st.pos + 1);
      AppendKeeps(js, bumped, t, st.pos + 1, |st.toks|);
    } else if c == '}' || c == ']' {
      CloseKeeps(js, st);
    } else if c == '\"' {
      var r := StringEnd(js, st.pos + 1);
      if r.Found? {
        var t := Token(String, st.pos + 1, r.at, 0);
        FoundIsBody(js, st.pos + 1);
        StringToken(js, t, r.at + 1);
        AppendKeeps(js, bumped, t, r.at + 1, st.super);
      }
    } else if Blank(c) || c == ':' || c == ',' {
      MoveKeeps(js, st, st.pos + 1, Step(js, st, room).st.super);
    } else {
      var r := PrimitiveEnd(js, st.pos);
      if r.Found? {
        PrimitiveText(js, st.pos);
        var t := Token(Primitive, st.pos, r.at, 0);
        PrimitiveGrows(js, st.pos);
        PrimitiveToken(js, t, r.at);
        AppendKeeps(js, bumped, t, r.at, st.super);
      }
    }
  }

  lemma ForestFacts(js: string, st: State)
    requires Forest(js, st)
    ensures st.pos <= |js| && SuperOk(st)
  {
  }

  lemma StringToken(js: string, t: Token, pos: nat)
    requires pos <= |js| && t.kind == String && 1 <= t.start <= t.end < pos && js[t.start - 1] == '\"' && js[t.end] == '\"'
    requires StringBody(js[t.start..t.end])
    ensures TokenOk(js, t, pos)
  {
  }

  lemma PrimitiveToken(js: string, t: Token, pos: nat)
    requires pos <= |js| && t.kind == Primitive && 0 <= t.start < t.end <= pos
    requires forall i :: t.start <= i < t.end ==> Printable(js[i]) && !EndsPrimitive(js[i])
    ensures TokenOk(js, t, pos)
  {
  }

  lemma PrimitiveGrows(js: string, i: nat)
    requires !Ended(js, i) && !EndsPrimitive(js[i]) && PrimitiveEnd(js, i).Found?
    ensures PrimitiveEnd(js, i).at > i
  {
  }

  /** So does every run. */
  lemma {:induction false} RunKeeps(js: string, st: State, room: nat)
    requires Forest(js, st)
    ensures Forest(js, Run(js, st, room).1)
    decreases |js| - st.pos
  {
    ForestFacts(js, st);
    hide Forest, Step;
    if !Ended(js, st.pos) {
      StepKeeps(js, st, room);
      var o := Step(js, st, room);
      if o.Go? { RunKeeps(js, o.st, room); }
    }
  }

  /** Slices in bounds, starts strictly increasing, any two disjoint or nested, and
      every container between brackets of its own kind. */
  ghost predicate WellFormed(js: string, toks: seq<Token>) {
    && (forall i :: 0 <= i < |toks| ==> 0 <= toks[i].start <= toks[i].end <= |js| && TokenOk(js, toks[i], |js|))
    && forall i, j :: 0 <= i < j < |toks| ==>
         toks[i].start < toks[j].start && (toks[i].end <= toks[j].start || toks[j].end <= toks[i].end)
  }

  /** A run from the start that succeeds returns the number of its tokens, which are
      well formed. */
  lemma SuccessIsWellFormed(js: string, room: nat)
    ensures var (r, st) := Run(js, INITIAL, room);
            r >= 0 ==> r == |st.toks| <= room && WellFormed(js, st.toks)
  {
    var (r, st) := Run(js, INITIAL, room);
    RunKeeps(js, INITIAL, room);
    if r >= 0 {
      CountAgrees(js, INITIAL, room);
      RunEnds(js, INITIAL, room);
      hide Run, TokenOk;
      forall i | 0 <= i < |st.toks| ensures 0 <= st.toks[i].start <= st.toks[i].end <= |js| && TokenOk(js, st.toks[i], |js|) {
        StartsInText(js, st.toks[i], st.pos);
        LaterPosition(js, st.toks[i], st.pos, |js|);
        assert !Open(st.toks[i]);
      }
      forall i, j | 0 <= i < j < |st.toks|
        ensures st.toks[i].start < st.toks[j].start
                && (st.toks[i].end <= st.toks[j].start || st.toks[j].end <= st.toks[i].end) {
        assert InOrder(st.toks[i], st.toks[j]);
      }
    }
  }

  lemma {:induction false} RunEnds(js: string, st: State, room: nat)
    requires SuperOk(st) && Run(js, st, room).0 >= 0
    ensures LastOpen(Run(js, st, room).1.toks) == -1 && Ended(js, Run(js, st, room).1.pos)
    decreases |js| - st.pos
  {
    hide Step;
    if !Ended(js, st.pos) { RunEnds(js, Step(js, st, room).st, room); }
  }
}
