/** Which texts the tokenizer takes for strings and primitives, and why it refuses the others. */
module JsmnTexts {
  import opened JsmnSpec

  // ----- the characters

  lemma Classes(c: char)
    ensures Hex(c) <==> c in "0123456789abcdefABCDEF"
    ensures Escapable(c) <==> c in "\"\\/bfnrt"
    ensures Blank(c) <==> c in " \t\r\n"
    ensures EndsPrimitive(c) <==> c in " \t\r\n:,]}"
    ensures Printable(c) <==> ' ' <= c <= '~'
  {
    HexDigits(c);
  }

  lemma HexDigits(c: char)
    ensures Hex(c) <==> c in "0123456789abcdefABCDEF"
  {
    var d := "0123456789abcdefABCDEF";
    if '0' <= c <= '9' {
      assert d[c as int - '0' as int] == c;
    } else if 'a' <= c <= 'f' {
      assert d[c as int - 'a' as int + 10] == c;
    } else if 'A' <= c <= 'F' {
      assert d[c as int - 'A' as int + 16] == c;
    }
  }

  // ----- strings

  /** Four hexadecimal digits, or the end of the text before them. */
  lemma HexEndIs(js: string, i: nat, n: nat)
    requires HexEnd(js, i, n).Found?
    ensures var at := HexEnd(js, i, n).at;
            at <= i + n && (forall k :: i <= k < at ==> k < |js| && Hex(js[k])) && (at < i + n ==> Ended(js, at))
    decreases n
  {
    if n > 0 && !Ended(js, i) {
      HexEndIs(js, i + 1, n - 1);
    }
  }

  /** What stands between the quotes is the body of a JSON string. */
  lemma {:induction false} FoundIsBody(js: string, i: nat)
    requires StringEnd(js, i).Found?
    ensures i <= StringEnd(js, i).at && StringBody(js[i..StringEnd(js, i).at])
    decreases |js| - i
  {
    var at := StringEnd(js, i).at;
    if js[i] == '\"' {
      assert js[i..at] == "";
    } else {
      var s := js[i..at];
      if js[i] == '\\' && i + 1 < |js| {
        if Escapable(js[i + 1]) {
          FoundIsBody(js, i + 2);
          assert s[2..] == js[i + 2..at];
        } else {
          HexEndIs(js, i + 2, 4);
          var h := HexEnd(js, i + 2, 4).at;
          FoundIsBody(js, h);
          assert s[6..] == js[i + 6..at];
        }
      } else {
        FoundIsBody(js, i + 1);
        assert s[1..] == js[i + 1..at];
      }
    }
  }

  /** A backslash at p begins no escape of JSON. */
  predicate WrongEscape(js: string, p: nat) {
    && p + 1 < |js| && js[p] == '\\' && !Escapable(js[p + 1])
    && (js[p + 1] == 'u' ==> HexEnd(js, p + 2, 4).Bad?)
  }

  /** The four digits are refused exactly for a character that is none. */
  lemma {:induction false} WrongDigit(js: string, i: nat, n: nat)
    ensures HexEnd(js, i, n).Bad? <==>
            exists k :: i <= k < i + n && !Ended(js, k) && !Hex(js[k]) && forall j :: i <= j < k ==> !Ended(js, j) && Hex(js[j])
    decreases n
  {
    if n > 0 && !Ended(js, i) && Hex(js[i]) {
      WrongDigit(js, i + 1, n - 1);
    }
  }

  /** A string is refused as invalid only for a wrong escape behind the body of a string. */
  lemma {:induction false} InvalidString(js: string, i: nat) returns (p: nat)
    requires StringEnd(js, i) == Bad(INVAL)
    ensures i <= p < |js| && StringBody(js[i..p]) && WrongEscape(js, p)
    decreases |js| - i
  {
    if WrongEscape(js, i) {
      p := i;
      assert js[i..p] == "";
    } else if js[i] == '\\' && i + 1 < |js| {
      if Escapable(js[i + 1]) {
        p := InvalidString(js, i + 2);
        assert js[i..p][2..] == js[i + 2..p];
      } else {
        HexEndIs(js, i + 2, 4);
        var h := HexEnd(js, i + 2, 4).at;
        p := InvalidString(js, h);
        assert js[i..p][6..] == js[i + 6..p];
      }
    } else {
      p := InvalidString(js, i + 1);
      assert js[i..p][1..] == js[i + 1..p];
    }
  }

  /** And it is refused for every such escape. */
  lemma {:induction false} WrongEscapeRefused(js: string, i: nat, p: nat)
    requires i <= p < |js| && StringBody(js[i..p]) && WrongEscape(js, p)
    ensures StringEnd(js, i) == Bad(INVAL)
    decreases p - i
  {
    var s := js[i..p];
    if i < p {
      assert s[0] == js[i];
      if s[0] == '\\' {
        assert s[1] == js[i + 1];
        if Escapable(s[1]) && StringBody(s[2..]) {
          assert s[2..] == js[i + 2..p];
          WrongEscapeRefused(js, i + 2, p);
        } else {
          assert s[6..] == js[i + 6..p];
          assert s[2] == js[i + 2] && s[3] == js[i + 3] && s[4] == js[i + 4] && s[5] == js[i + 5];
          assert HexEnd(js, i + 4, 2) == Found(i + 6);
          WrongEscapeRefused(js, i + 6, p);
        }
      } else {
        assert s[1..] == js[i + 1..p];
        WrongEscapeRefused(js, i + 1, p);
      }
    }
  }

  // ----- primitives

  predicate PrimitiveChar(c: char) { Printable(c) && !EndsPrimitive(c) }

  /** The primitive goes on up to its end, and is refused exactly for a character that it
      cannot hold. */
  lemma {:induction false} PrimitiveExactly(js: string, i: nat, at: nat)
    requires i <= |js|
    ensures PrimitiveEnd(js, i) == Found(at) <==>
            && i <= at <= |js| && (Ended(js, at) || EndsPrimitive(js[at]))
            && forall k :: i <= k < at ==> !Ended(js, k) && PrimitiveChar(js[k])
    decreases |js| - i
  {
    if !Ended(js, i) && !EndsPrimitive(js[i]) && Printable(js[i]) {
      PrimitiveExactly(js, i + 1, at);
    } else if i < at {
      assert PrimitiveEnd(js, i) != Found(at);
    }
  }
}
