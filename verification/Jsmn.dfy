/** src/jsmn.c: the tokenizer over a token array, in its default build. */
module Jsmn {
  import opened JsmnSpec

  predicate Bare(c: char) {
    c != '{' && c != '[' && c != '}' && c != ']' && c != '\"' && !Blank(c) && c != ':' && c != ','
  }

  class Parser {
    var pos: nat
    var toknext: nat
    var toksuper: int

    /** The parser and its tokens as a value. */
    function St(tokens: array<Token>): State
      requires toknext <= tokens.Length
      reads this, tokens
    {
      State(pos, toksuper, tokens[..toknext])
    }

    ghost predicate Valid(tokens: array<Token>)
      reads this`toknext, this`toksuper
    {
      toknext <= tokens.Length && -1 <= toksuper < toknext
    }

    /** jsmn_init */
    constructor ()
      ensures pos == 0 && toknext == 0 && toksuper == -1
    {
      pos, toknext, toksuper := 0, 0, -1;
    }

    /** jsmn_alloc_token and jsmn_fill_token; false when there is no room. */
    method AllocToken(tokens: array<Token>, kind: Kind, start: int, end: int) returns (ok: bool)
      requires toknext <= tokens.Length
      modifies this`toknext, tokens
      ensures ok <==> old(toknext) < tokens.Length
      ensures !ok ==> toknext == old(toknext) && tokens[..] == old(tokens[..])
      ensures ok ==> toknext == old(toknext) + 1
                     && tokens[..toknext] == old(tokens[..toknext]) + [Token(kind, start, end, 0)]
    {
      if toknext >= tokens.Length {
        return false;
      }
      tokens[toknext] := Token(kind, start, end, 0);
      toknext := toknext + 1;
      return true;
    }

    /** One more child for the superior token. */
    method CountChild(tokens: array<Token>, ghost was: seq<Token>, ghost t: Token)
      requires toknext <= tokens.Length && -1 <= toksuper < |was| && tokens[..toknext] == was + [t]
      modifies tokens
      ensures tokens[..toknext] == Bump(was, toksuper) + [t]
    {
      if toksuper != -1 {
        tokens[toksuper] := tokens[toksuper].(size := tokens[toksuper].size + 1);
      }
    }

    /** jsmn_parse_primitive; the position ends on the last character taken. */
    method ParsePrimitive(js: string, tokens: array?<Token>) returns (r: int)
      requires !Ended(js, pos) && !EndsPrimitive(js[pos])
      requires tokens != null ==> toknext <= tokens.Length
      modifies this`pos, this`toknext, tokens
      ensures var s := PrimitiveEnd(js, old(pos));
              && (s.Bad? ==> r == s.code && pos == old(pos))
              && (s.Found? && tokens != null && old(toknext) >= tokens.Length ==> r == NOMEM && pos == old(pos))
              && (s.Found? && (tokens == null || old(toknext) < tokens.Length) ==> r == 0 && pos + 1 == s.at)
      ensures pos >= old(pos) && (r < 0 || tokens == null ==> toknext == old(toknext))
      ensures r < 0 && tokens != null ==> tokens[..] == old(tokens[..])
      ensures r >= 0 && tokens != null ==>
                toknext == old(toknext) + 1 <= tokens.Length
                && tokens[..toknext] == old(tokens[..toknext]) + [Token(Primitive, old(pos), pos + 1, 0)]
    {
      var start := pos;
      while pos < |js| && js[pos] != '\0'
        invariant start <= pos && PrimitiveEnd(js, start) == PrimitiveEnd(js, pos)
        invariant toknext == old(toknext) && (tokens != null ==> tokens[..] == old(tokens[..]))
        invariant pos == start ==> !Ended(js, pos) && !EndsPrimitive(js[pos])
        decreases |js| - pos
      {
        if EndsPrimitive(js[pos]) {
          break;
        }
        if !Printable(js[pos]) {
          pos := start;
          return INVAL;
        }
        pos := pos + 1;
      }
      if tokens == null {
        pos := pos - 1;
        return 0;
      }
      var ok := AllocToken(tokens, Primitive, start, pos);
      if !ok {
        pos := start;
        return NOMEM;
      }
      pos := pos - 1;
      return 0;
    }

    /** The characters after a backslash; the position ends on the last of them. */
    method ParseEscape(js: string) returns (r: int)
      requires pos < |js|
      modifies this`pos
      ensures r == 0 || r == INVAL
      ensures r == 0 <==> Escapable(js[old(pos)]) || (js[old(pos)] == 'u' && HexEnd(js, old(pos) + 1, 4).Found?)
      ensures r == 0 ==> pos + 1 == if Escapable(js[old(pos)]) then old(pos) + 1 else HexEnd(js, old(pos) + 1, 4).at
    {
      if Escapable(js[pos]) {
        return 0;
      }
      if js[pos] != 'u' {
        return INVAL;
      }
      pos := pos + 1;
      var i := 0;
      while i < 4 && pos < |js| && js[pos] != '\0'
        invariant 0 <= i <= 4 && pos == old(pos) + 1 + i
        invariant HexEnd(js, old(pos) + 1, 4) == HexEnd(js, pos, 4 - i)
      {
        if !Hex(js[pos]) {
          return INVAL;
        }
        pos := pos + 1;
        i := i + 1;
      }
      pos := pos - 1;
      return 0;
    }

    /** jsmn_parse_string; the position ends on the closing quote. */
    method ParseString(js: string, tokens: array?<Token>) returns (r: int)
      requires pos < |js| && (tokens != null ==> toknext <= tokens.Length)
      modifies this`pos, this`toknext, tokens
      ensures var s := StringEnd(js, old(pos) + 1);
              && (s.Bad? ==> r == s.code && pos == old(pos))
              && (s.Found? && tokens != null && old(toknext) >= tokens.Length ==> r == NOMEM && pos == old(pos))
              && (s.Found? && (tokens == null || old(toknext) < tokens.Length) ==> r == 0 && pos == s.at)
      ensures r < 0 || tokens == null ==> toknext == old(toknext)
      ensures r < 0 && tokens != null ==> tokens[..] == old(tokens[..])
      ensures r >= 0 && tokens != null ==>
                toknext == old(toknext) + 1 <= tokens.Length
                && tokens[..toknext] == old(tokens[..toknext]) + [Token(String, old(pos) + 1, pos, 0)]
    {
      hide HexEnd, Escapable;
      var start := pos;
      pos := pos + 1;
      while pos < |js| && js[pos] != '\0'
        invariant start < pos && StringEnd(js, start + 1) == StringEnd(js, pos)
        invariant toknext == old(toknext) && (tokens != null ==> tokens[..] == old(tokens[..]))
        decreases |js| - pos
      {
        var c := js[pos];
        if c == '\"' {
          if tokens == null {
            return 0;
          }
          var ok := AllocToken(tokens, String, start + 1, pos);
          if !ok {
            pos := start;
            return NOMEM;
          }
          return 0;
        }
        if c == '\\' && pos + 1 < |js| {
          pos := pos + 1;
          var e := ParseEscape(js);
          if e < 0 {
            pos := start;
            return INVAL;
          }
        }
        pos := pos + 1;
      }
      pos := start;
      return PART;
    }

    /** The opening bracket. */
    method OpenBracket(js: string, tokens: array<Token>) returns (r: int)
      requires !Ended(js, pos) && Valid(tokens) && (js[pos] == '{' || js[pos] == '[')
      modifies this`toknext, this`toksuper, tokens
      ensures CharDone(js, old(St(tokens)), tokens, r) && (r >= 0 ==> toknext == old(toknext) + 1)
    {
      ghost var was := tokens[..toknext];
      var ok := AllocToken(tokens, OpenKind(js[pos]), pos, -1);
      if !ok {
        return NOMEM;
      }
      CountChild(tokens, was, Token(OpenKind(js[pos]), pos, -1, 0));
      toksuper := toknext - 1;
      return 0;
    }

    /** How one character's case ends: the step's state but for the position, which the
        loop then moves on by one. */
    ghost predicate CharDone(js: string, st: State, tokens: array<Token>, r: int)
      requires SuperOk(st) && !Ended(js, st.pos)
      reads this, tokens
    {
      && Valid(tokens)
      && var o := Step(js, st, tokens.Length);
         if o.Stop? then r == o.code && St(tokens) == o.st
         else r >= 0 && St(tokens).(pos := pos + 1) == o.st
    }

    /** The closing bracket: the last open token is closed, the one before it becomes
        the superior one. */
    method CloseBracket(js: string, tokens: array<Token>) returns (r: int)
      requires !Ended(js, pos) && Valid(tokens) && (js[pos] == '}' || js[pos] == ']')
      modifies this`toksuper, tokens
      ensures CharDone(js, old(St(tokens)), tokens, r)
    {
      hide LastOpen;
      var kind := CloseKind(js[pos]);
      ghost var toks := tokens[..toknext];
      var i: int := toknext - 1;
      assert toks[..i + 1] == toks;
      while i >= 0
        invariant -1 <= i < toknext && tokens[..toknext] == toks && toksuper == old(toksuper)
        invariant LastOpen(toks) == LastOpen(toks[..i + 1])
      {
        LastOpenStep(toks, i);
        if Open(tokens[i]) {
          if tokens[i].kind != kind {
            return INVAL;
          }
          break;
        }
        i := i - 1;
      }
      if i == -1 {
        assert toks[..0] == [];
        return INVAL;
      }
      tokens[i] := tokens[i].(end := pos + 1);
      toksuper := -1;
      SuperiorBefore(tokens, i);
      assert tokens[..toknext][..i] == toks[..i];
      return 0;
    }

    /** The last open token up to i becomes the superior one. */
    method SuperiorBefore(tokens: array<Token>, i: int)
      requires 0 <= i < toknext <= tokens.Length && !Open(tokens[i]) && toksuper == -1
      modifies this`toksuper
      ensures toksuper == LastOpen(tokens[..toknext][..i])
    {
      hide LastOpen;
      ghost var toks := tokens[..toknext];
      LastOpenStep(toks, i);
      var k := i;
      while k >= 0
        invariant -1 <= k <= i && toksuper == -1
        invariant LastOpen(toks[..i]) == LastOpen(toks[..k + 1])
      {
        LastOpenStep(toks, k);
        if Open(tokens[k]) {
          toksuper := k;
          break;
        }
        k := k - 1;
      }
      assert k == -1 ==> toks[..0] == [];
    }

    /** The comma: after a key or value the open container is superior again. */
    method CommaChar(js: string, tokens: array<Token>) returns (r: int)
      requires !Ended(js, pos) && Valid(tokens) && js[pos] == ','
      modifies this`toksuper
      ensures CharDone(js, old(St(tokens)), tokens, r)
    {
      hide LastOpenContainer;
      r := 0;
      ghost var toks := tokens[..toknext];
      if toksuper != -1 && tokens[toksuper].kind != Array && tokens[toksuper].kind != Object {
        var i: int := toknext - 1;
        assert toks[..i + 1] == toks;
        while i >= 0
          invariant -1 <= i < toknext && toksuper == old(toksuper)
          invariant LastOpenContainer(toks) == LastOpenContainer(toks[..i + 1])
        {
          LastContainerStep(toks, i);
          if tokens[i].kind == Array || tokens[i].kind == Object {
            if Open(tokens[i]) {
              toksuper := i;
              break;
            }
          }
          i := i - 1;
        }
        assert i == -1 ==> toks[..0] == [];
        if i == -1 { LastContainerNone(); }
      }
    }

    /** A string or a primitive, and the superior token's count. */
    method ValueChar(js: string, tokens: array<Token>) returns (r: int)
      requires !Ended(js, pos) && Valid(tokens) && (js[pos] == '\"' || Bare(js[pos]))
      modifies this`pos, this`toknext, tokens
      ensures CharDone(js, old(St(tokens)), tokens, r) && (r >= 0 ==> toknext == old(toknext) + 1)
    {
      hide StringEnd, PrimitiveEnd;
      ghost var was, p0 := tokens[..toknext], pos;
      if js[pos] == '\"' {
        r := ParseString(js, tokens);
      } else {
        r := ParsePrimitive(js, tokens);
      }
      if r < 0 {
        return;
      }
      ghost var t := if js[p0] == '\"' then Token(String, p0 + 1, pos, 0) else Token(Primitive, p0, pos + 1, 0);
      CountChild(tokens, was, t);
    }

    method BlankOrColon(js: string, tokens: array<Token>) returns (r: int)
      requires !Ended(js, pos) && Valid(tokens) && (Blank(js[pos]) || js[pos] == ':')
      modifies this`toksuper
      ensures r >= 0 && CharDone(js, old(St(tokens)), tokens, r)
    {
      if js[pos] == ':' {
        toksuper := toknext - 1;
      }
      return 0;
    }

    /** The switch of jsmn_parse on one character, with a token array. */
    method ParseChar(js: string, tokens: array<Token>, count0: nat) returns (r: int, count: nat)
      requires !Ended(js, pos) && Valid(tokens) && count0 == toknext
      modifies this, tokens
      ensures CharDone(js, old(St(tokens)), tokens, r) && (r >= 0 ==> count == toknext)
    {
      hide CharDone, StringEnd, PrimitiveEnd, Close, LastOpenContainer;
      var c := js[pos];
      count := count0;
      if c == '{' || c == '[' {
        count := count + 1;
        r := OpenBracket(js, tokens);
      } else if c == '}' || c == ']' {
        r := CloseBracket(js, tokens);
      } else if c == '\"' || Bare(c) {
        r := ValueChar(js, tokens);
        if r >= 0 {
          count := count + 1;
        }
      } else if c == ',' {
        r := CommaChar(js, tokens);
      } else {
        r := BlankOrColon(js, tokens);
      }
    }

    /** The same switch without a token array: it only counts. */
    method CountChar(js: string, count0: nat) returns (r: int, count: nat)
      requires !Ended(js, pos)
      modifies this
      ensures toknext == old(toknext)
      ensures r < 0 ==> CountRun(js, old(pos), count0) == (r, pos)
      ensures r >= 0 ==> pos >= old(pos) && CountRun(js, old(pos), count0) == CountRun(js, pos + 1, count)
    {
      hide StringEnd, PrimitiveEnd;
      var c := js[pos];
      r, count := 0, count0;
      if c == '{' || c == '[' {
        count := count + 1;
      } else if c == '\"' {
        r := ParseString(js, null);
        if r >= 0 {
          count := count + 1;
        }
      } else if c == ':' {
        toksuper := toknext - 1;
      } else if Bare(c) {
        r := ParsePrimitive(js, null);
        if r >= 0 {
          count := count + 1;
        }
      }
    }

    /** The check at the end: is any token still open? */
    method AnyOpen(tokens: array<Token>) returns (open: bool)
      requires toknext <= tokens.Length
      ensures open <==> LastOpen(tokens[..toknext]) >= 0
    {
      hide LastOpen;
      var i: int := toknext - 1;
      ghost var toks := tokens[..toknext];
      assert toks[..i + 1] == toks;
      while i >= 0
        invariant -1 <= i < toknext && LastOpen(toks) == LastOpen(toks[..i + 1])
      {
        LastOpenStep(toks, i);
        if Open(tokens[i]) {
          return true;
        }
        i := i - 1;
      }
      LastOpenStep0(toks);
      return false;
    }

    /** jsmn_parse: with a token array the run of the reference, without one the count.
        Nothing of the array beyond the tokens in use is looked at. */
    method Parse(js: string, tokens: array?<Token>) returns (r: int)
      requires tokens != null ==> Valid(tokens)
      modifies this, tokens
      ensures tokens != null ==> Valid(tokens) && (r, St(tokens)) == Run(js, old(St(tokens)), tokens.Length)
      ensures tokens == null ==> (r, pos) == CountRun(js, old(pos), old(toknext)) && toknext == old(toknext)
    {
      hide Step, Run, CountRun, LastOpen;
      var count := toknext;
      while pos < |js| && js[pos] != '\0'
        invariant tokens != null ==> Valid(tokens) && count == toknext
        invariant tokens != null ==> Run(js, old(St(tokens)), tokens.Length) == Run(js, St(tokens), tokens.Length)
        invariant tokens == null ==> toknext == old(toknext) && CountRun(js, old(pos), old(toknext)) == CountRun(js, pos, count)
        decreases |js| - pos
      {
        if tokens != null {
          RunMoves(js, St(tokens), tokens.Length);
          r, count := ParseChar(js, tokens, count);
        } else {
          r, count := CountChar(js, count);
        }
        if r < 0 {
          return r;
        }
        pos := pos + 1;
      }
      CountEnds(js, pos, count);
      if tokens != null {
        RunEnds(js, St(tokens), tokens.Length);
        var open := AnyOpen(tokens);
        if open {
          return PART;
        }
      }
      return count;
    }
  }

  lemma RunMoves(js: string, st: State, room: nat)
    requires SuperOk(st) && !Ended(js, st.pos)
    ensures var o := Step(js, st, room);
            Run(js, st, room) == if o.Stop? then (o.code, o.st) else Run(js, o.st, room)
  {
  }

  lemma RunEnds(js: string, st: State, room: nat)
    requires SuperOk(st) && Ended(js, st.pos)
    ensures Run(js, st, room) == (if LastOpen(st.toks) >= 0 then PART else |st.toks|, st)
  {
  }

  lemma CountEnds(js: string, pos: nat, count: nat)
    ensures Ended(js, pos) ==> CountRun(js, pos, count) == (count, pos)
  {
  }

  lemma LastOpenStep0(toks: seq<Token>)
    ensures LastOpen(toks[..0]) == -1
  {
  }

  lemma LastContainerNone()
    ensures LastOpenContainer([]) == -1
  {
  }

  lemma LastOpenStep(toks: seq<Token>, i: nat)
    requires i < |toks|
    ensures LastOpen(toks[..i + 1]) == if Open(toks[i]) then i else LastOpen(toks[..i])
    ensures LastOpen([]) == -1
  {
    assert toks[..i + 1][..i] == toks[..i];
  }

  lemma LastContainerStep(toks: seq<Token>, i: nat)
    requires i < |toks|
    ensures LastOpenContainer(toks[..i + 1]) == if Container(toks[i]) && Open(toks[i]) then i else LastOpenContainer(toks[..i])
    ensures LastOpenContainer([]) == -1
  {
    assert toks[..i + 1][..i] == toks[..i];
  }
}
