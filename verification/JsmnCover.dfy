/** The tokens leave nothing of the text out: what is in none of them is a blank, a colon or a
    comma. */
module JsmnCover {
  import opened JsmnSpec
  import opened JsmnForest

  /** The character at p belongs to the token: a bracket of it, a quote, or its text. */
  predicate Tells(t: Token, p: nat) {
    match t.kind
    case Undefined => false
    case Object => p == t.start || p == t.end - 1
    case Array => p == t.start || p == t.end - 1
    case String => t.start - 1 <= p <= t.end
    case Primitive => t.start <= p < t.end
  }

  predicate Between(c: char) { Blank(c) || c == ':' || c == ',' }

  ghost predicate Told(js: string, toks: seq<Token>, p: nat)
    requires p < |js|
  {
    Between(js[p]) || exists i :: 0 <= i < |toks| && Tells(toks[i], p)
  }

  /** Everything before the position is told. */
  ghost predicate Covered(js: string, st: State) {
    st.pos <= |js| && forall p :: 0 <= p < st.pos ==> Told(js, st.toks, p)
  }

  /** Tokens that tell at least as much as before. */
  ghost predicate TellsMore(toks: seq<Token>, more: seq<Token>) {
    |toks| <= |more| && forall i, p: nat :: 0 <= i < |toks| && Tells(toks[i], p) ==> Tells(more[i], p)
  }

  lemma StillTold(js: string, toks: seq<Token>, more: seq<Token>, p: nat)
    requires p < |js| && Told(js, toks, p) && TellsMore(toks, more)
    ensures Told(js, more, p)
  {
    hide Tells;
    if !Between(js[p]) {
      var i :| 0 <= i < |toks| && Tells(toks[i], p);
      assert Tells(more[i], p);
    }
  }

  lemma CoverGrows(js: string, st: State, st': State)
    requires Covered(js, st) && TellsMore(st.toks, st'.toks) && st.pos <= st'.pos <= |js|
    requires forall p :: st.pos <= p < st'.pos ==> Told(js, st'.toks, p)
    ensures Covered(js, st')
  {
    hide Told, TellsMore;
    forall p | 0 <= p < st'.pos ensures Told(js, st'.toks, p) {
      if p < st.pos {
        StillTold(js, st.toks, st'.toks, p);
      }
    }
  }

  lemma AllocateTells(st: State, pos: nat, t: Token)
    requires SuperOk(st)
    ensures TellsMore(st.toks, Allocate(st, pos, t).toks)
  {
  }

  lemma CloseTells(st: State, i: nat, end: nat)
    requires i < |st.toks| && Open(st.toks[i]) && Container(st.toks[i])
    ensures TellsMore(st.toks, st.toks[i := st.toks[i].(end := end)])
  {
  }

  lemma TokenTells(js: string, toks: seq<Token>, t: Token, p: nat)
    requires p < |js| && Tells(t, p)
    ensures Told(js, toks + [t], p)
  {
    assert (toks + [t])[|toks|] == t;
  }

  lemma CloseTellsBracket(js: string, toks: seq<Token>, i: nat, p: nat)
    requires i < |toks| && p < |js| && Tells(toks[i], p)
    ensures Told(js, toks, p)
  {
  }

  /** Every step that goes on covers what it takes. */
  lemma StepCovers(js: string, st: State, room: nat)
    requires Forest(js, st) && Covered(js, st) && !Ended(js, st.pos) && Step(js, st, room).Go?
    ensures Covered(js, Step(js, st, room).st)
  {
    var c, st' := js[st.pos], Step(js, st, room).st;
    ForestFacts(js, st);
    if c == '{' || c == '[' {
      var t := Token(OpenKind(c), st.pos, -1, 0);
      AllocateTells(st, st.pos + 1, t);
      TokenTells(js, Bump(st.toks, st.super), t, st.pos);
    } else if c == '}' || c == ']' {
      var i := LastOpen(st.toks);
      OpenIsContainer(js, st.toks[i], st.pos);
      CloseTells(st, i, st.pos + 1);
      CloseTellsBracket(js, st'.toks, i, st.pos);
    } else if c == '\"' {
      var at := StringEnd(js, st.pos + 1).at;
      var t := Token(String, st.pos + 1, at, 0);
      AllocateTells(st, at + 1, t);
      forall p | st.pos <= p < at + 1 ensures Told(js, st'.toks, p) {
        TokenTells(js, Bump(st.toks, st.super), t, p);
      }
    } else if Between(c) {
      SameTells(st.toks);
      assert st'.toks == st.toks && st'.pos == st.pos + 1;
    } else {
      var at := PrimitiveEnd(js, st.pos).at;
      var t := Token(Primitive, st.pos, at, 0);
      AllocateTells(st, at, t);
      forall p | st.pos <= p < at ensures Told(js, st'.toks, p) {
        TokenTells(js, Bump(st.toks, st.super), t, p);
      }
    }
    hide *;
    CoverGrows(js, st, st');
  }

  lemma SameTells(toks: seq<Token>)
    ensures TellsMore(toks, toks)
  {
  }

  lemma {:induction false} RunCovers(js: string, st: State, room: nat)
    requires Forest(js, st) && Covered(js, st)
    ensures Covered(js, Run(js, st, room).1)
    decreases |js| - st.pos
  {
    ForestFacts(js, st);
    hide Forest, Covered, Step;
    if !Ended(js, st.pos) {
      var o := Step(js, st, room);
      if o.Go? {
        StepKeeps(js, st, room);
        StepCovers(js, st, room);
        RunCovers(js, o.st, room);
      }
    }
  }

  /** When a run succeeds, every character up to the end of the text is told: in particular
      each bracket outside strings is one of a container's. */
  lemma NothingLeftOut(js: string, room: nat)
    ensures var (r, st) := Run(js, INITIAL, room);
            r >= 0 ==> Ended(js, st.pos) && st.pos <= |js| && forall p :: 0 <= p < st.pos ==> Told(js, st.toks, p)
  {
    RunCovers(js, INITIAL, room);
    if Run(js, INITIAL, room).0 >= 0 {
      RunEnds(js, INITIAL, room);
    }
    hide Run, Told;
  }
}
