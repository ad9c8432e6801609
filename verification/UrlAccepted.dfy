/** Which texts are accepted as URLs: exactly those that are printed from components. */
module UrlAccepted {
  import opened UrlSpec
  import opened UrlPrint

  // ----- reading from the front

  /** The text leads from s to a living state. */
  ghost predicate Lives(s: State, text: string) { Run(s, text, |text|) != Dead }

  /** The text leads from s to the end of a host. */
  ghost predicate Ends(s: HostState, text: string) { HostEnds(RunHost(s, text, |text|)) }

  lemma Front(s: State, text: string)
    requires text != []
    ensures Lives(s, text) <==> Lives(UrlChar(s, text[0]), text[1..])
  {
    hide UrlChar;
    var a, b := [text[0]], text[1..];
    assert text == a + b && Run(s, a, 0) == s;
    RunAppend(s, a, b, |text|);
  }

  lemma HostFront(s: HostState, text: string)
    requires text != []
    ensures Ends(s, text) <==> Ends(HostChar(s, text[0]), text[1..])
  {
    hide HostChar;
    var a, b := [text[0]], text[1..];
    assert text == a + b && RunHost(s, a, 0) == s;
    RunHostAppend(s, a, b, |text|);
  }

  lemma {:induction false} DeadStays(text: string)
    ensures !Lives(Dead, text)
    decreases |text|
  {
    if text != [] {
      Front(Dead, text);
      DeadStays(text[1..]);
    }
  }

  lemma {:induction false} HostDeadStays(text: string)
    ensures !Ends(HostDead, text)
    decreases |text|
  {
    if text != [] {
      HostFront(HostDead, text);
      HostDeadStays(text[1..]);
    }
  }

  /** A text that lives takes its first character alive. */
  lemma LivesOn(s: State, text: string)
    requires text != [] && Lives(s, text)
    ensures UrlChar(s, text[0]) != Dead && Lives(UrlChar(s, text[0]), text[1..])
  {
    Front(s, text);
    DeadStays(text[1..]);
  }

  lemma EndsOn(s: HostState, text: string)
    requires text != [] && Ends(s, text)
    ensures HostChar(s, text[0]) != HostDead && Ends(HostChar(s, text[0]), text[1..])
  {
    HostFront(s, text);
    HostDeadStays(text[1..]);
  }

  lemma FirstAndRest(text: string)
    requires text != []
    ensures text == [text[0]] + text[1..]
  {
  }

  // ----- the host automaton

  lemma {:induction false} PortTaken(s: HostState, t: string)
    requires Ends(s, t) && (s == Port || s == PortStart)
    ensures Nums(t) && (s == PortStart ==> t != "")
    decreases |t|
  {
    if t != "" {
      EndsOn(s, t);
      PortTaken(Port, t[1..]);
      FirstAndRest(t);
    }
  }

  /** Behind a host: nothing, or a colon and a port. */
  lemma AfterHost(t: string) returns (port: string)
    requires t == "" || (t[0] == ':' && Ends(PortStart, t[1..]))
    ensures Nums(port) && t == After(":", port)
  {
    if t == "" {
      port := "";
    } else {
      port := t[1..];
      PortTaken(PortStart, port);
      FirstAndRest(t);
    }
  }

  lemma {:induction false} NameTaken(t: string) returns (h: string, port: string)
    requires Ends(UrlSpec.Host, t)
    ensures (forall i :: 0 <= i < |h| ==> IsHostChar(h[i])) && Nums(port) && t == h + After(":", port)
    decreases |t|
  {
    if t != "" {
      EndsOn(UrlSpec.Host, t);
    }
    if t != "" && IsHostChar(t[0]) {
      var more;
      more, port := NameTaken(t[1..]);
      h := [t[0]] + more;
      FirstAndRest(t);
      hide After, Nums;
      assert t == [t[0]] + (more + After(":", port));
    } else {
      h := "";
      port := AfterHost(t);
    }
  }

  lemma BracketTaken(t: string) returns (port: string)
    requires Ends(V6End, t)
    ensures Nums(port) && t == After(":", port)
  {
    if t != "" {
      EndsOn(V6End, t);
    }
    port := AfterHost(t);
  }

  lemma {:induction false} ZoneTaken(s: HostState, t: string) returns (z: string, port: string)
    requires Ends(s, t) && (s == Zone || s == ZoneStart)
    ensures (forall i :: 0 <= i < |z| ==> IsZoneChar(z[i])) && Nums(port) && (s == ZoneStart ==> z != "")
    ensures t == z + ("]" + After(":", port))
    decreases |t|
  {
    EndsOn(s, t);
    FirstAndRest(t);
    if s == Zone && t[0] == ']' {
      z := "";
      port := BracketTaken(t[1..]);
      assert "" + ("]" + After(":", port)) == "]" + After(":", port);
    } else {
      var more;
      more, port := ZoneTaken(Zone, t[1..]);
      z := [t[0]] + more;
      hide After, Nums, IsZoneChar;
      Longer(t[0], more, "]" + After(":", port));
    }
  }

  lemma {:induction false} AddressTaken(s: HostState, t: string) returns (x: string, zone: string, port: string)
    requires Ends(s, t) && (s == V6 || s == V6Start)
    ensures (forall i :: 0 <= i < |x| ==> IsAddressChar(x[i])) && (forall i :: 0 <= i < |zone| ==> IsZoneChar(zone[i]))
    ensures Nums(port) && (s == V6Start ==> x != "")
    ensures t == x + (After("%", zone) + ("]" + After(":", port)))
    decreases |t|
  {
    EndsOn(s, t);
    FirstAndRest(t);
    if s == V6 && t[0] == ']' {
      x, zone := "", "";
      port := BracketTaken(t[1..]);
      Nothing("]" + After(":", port));
    } else if s == V6 && t[0] == '%' {
      x := "";
      zone, port := ZoneTaken(ZoneStart, t[1..]);
      Marked("%", zone, "]" + After(":", port));
    } else {
      var more;
      more, zone, port := AddressTaken(V6, t[1..]);
      x := [t[0]] + more;
      hide After, Nums, IsAddressChar, IsZoneChar;
      Longer(t[0], more, After("%", zone) + ("]" + After(":", port)));
    }
  }

  lemma Longer(c: char, more: string, tail: string)
    ensures [c] + (more + tail) == ([c] + more) + tail
  {
  }

  lemma Nothing(tail: string)
    ensures tail == "" + (After("%", "") + tail)
  {
  }

  lemma Marked(mark: string, text: string, tail: string)
    requires text != ""
    ensures mark + (text + tail) == "" + (After(mark, text) + tail)
  {
  }

  /** A host with its port. */
  lemma HostTaken(t: string) returns (h: Host, port: string)
    requires Ends(HostStart, t)
    ensures HostOk(h) && Nums(port) && t == PrintedHost(h) + After(":", port)
  {
    EndsOn(HostStart, t);
    FirstAndRest(t);
    if t[0] == '[' {
      var x, zone;
      x, zone, port := AddressTaken(V6Start, t[1..]);
      h := Address(x, zone);
      Bracketed(x, After("%", zone), After(":", port));
    } else {
      var more;
      more, port := NameTaken(t[1..]);
      h := Name([t[0]] + more);
      Longer(t[0], more, After(":", port));
    }
    hide After, Nums, IsAddressChar, IsZoneChar, IsHostChar, Ends;
  }

  lemma Bracketed(x: string, zone: string, port: string)
    ensures "[" + (x + (zone + ("]" + port))) == ("[" + (x + zone) + "]") + port
  {
  }

  lemma {:induction false} UserinfoTaken(s: HostState, t: string) returns (u: string, rest: string)
    requires Ends(s, t) && (s == UserinfoStart || s == Userinfo)
    ensures (forall i :: 0 <= i < |u| ==> IsUserinfoChar(u[i])) && t == u + ("@" + rest) && Ends(HostStart, rest)
    decreases |t|
  {
    EndsOn(s, t);
    FirstAndRest(t);
    if t[0] == '@' {
      u, rest := "", t[1..];
    } else {
      var more;
      more, rest := UserinfoTaken(Userinfo, t[1..]);
      u := [t[0]] + more;
      assert t == [t[0]] + (more + ("@" + rest));
    }
  }

  /** A text that the second automaton accepts is an authority. */
  lemma AuthorityTaken(at: bool, t: string) returns (a: Authority)
    requires Ends(if at then UserinfoStart else HostStart, t)
    ensures AuthorityText(a) && a.at == at && t == PrintedAuthority(a)
  {
    hide Ends;
    var u, rest := "", t;
    if at {
      u, rest := UserinfoTaken(UserinfoStart, t);
    }
    var h, port := HostTaken(rest);
    a := Authority(at, u, h, port);
    AuthorityIsText(a, rest, t);
  }

  lemma AuthorityIsText(a: Authority, rest: string, t: string)
    requires rest == PrintedHost(a.host) + After(":", a.port) && t == (if a.at then a.userinfo + ("@" + rest) else rest)
    requires !a.at ==> a.userinfo == ""
    ensures t == PrintedAuthority(a)
  {
    hide PrintedHost, After;
    BehindSign(a.userinfo, rest);
    assert "" + rest == rest;
  }

  lemma BehindSign(u: string, rest: string)
    ensures u + ("@" + rest) == (u + "@") + rest
  {
  }

  // ----- the automaton of the URL

  predicate QueryText(q: string) { forall i :: 0 <= i < |q| ==> IsUrlChar(q[i]) || q[i] == '?' }

  predicate FragmentText(f: string) { forall i :: 0 <= i < |f| ==> IsUrlChar(f[i]) || f[i] == '?' || f[i] == '#' }

  lemma {:induction false} FragmentTaken(t: string)
    requires Lives(Fragment, t)
    ensures FragmentText(t)
    decreases |t|
  {
    if t != "" {
      LivesOn(Fragment, t);
      FragmentTaken(t[1..]);
      FirstAndRest(t);
    }
  }

  lemma HashesMore(n: nat)
    ensures Hashes(n + 1) == "#" + Hashes(n)
  {
  }

  /** Behind a hash: more of them, and a fragment. */
  lemma {:induction false} HashesTaken(t: string) returns (n: nat, f: string)
    requires Lives(FragmentStart, t)
    ensures FragmentText(f) && (f != "" ==> f[0] != '#') && t == Hashes(n) + f
    decreases |t|
  {
    if t != "" {
      LivesOn(FragmentStart, t);
    }
    if t != "" && t[0] == '#' {
      var m;
      m, f := HashesTaken(t[1..]);
      n := m + 1;
      HashesMore(m);
      FirstAndRest(t);
      hide Hashes, FragmentText;
      Longer('#', Hashes(m), f);
    } else {
      n, f := 0, t;
      if t != "" {
        FragmentTaken(t[1..]);
        FirstAndRest(t);
      }
      assert Hashes(0) + t == t;
    }
  }

  /** What stands behind a query. */
  predicate Behind(n: nat, f: string) { FragmentText(f) && (f != "" ==> f[0] != '#') && (n == 0 ==> f == "") }

  lemma HashTaken(t: string) returns (n: nat, f: string)
    requires t == "" || (t[0] == '#' && Lives(FragmentStart, t[1..]))
    ensures Behind(n, f) && t == Hashes(n) + f
  {
    if t == "" {
      n, f := 0, "";
      assert Hashes(0) + "" == "";
    } else {
      var m;
      m, f := HashesTaken(t[1..]);
      n := m + 1;
      HashesMore(m);
      FirstAndRest(t);
      hide Hashes, FragmentText;
      Longer('#', Hashes(m), f);
    }
  }

  lemma {:induction false} QueryTaken(s: State, t: string) returns (q: string, n: nat, f: string)
    requires Lives(s, t) && (s == QueryStart || s == Query)
    ensures QueryText(q) && Behind(n, f) && t == q + (Hashes(n) + f)
    decreases |t|
  {
    if t != "" {
      LivesOn(s, t);
    }
    if t != "" && t[0] != '#' {
      var more;
      more, n, f := QueryTaken(Query, t[1..]);
      q := [t[0]] + more;
      FirstAndRest(t);
      hide Behind, Hashes;
      Longer(t[0], more, Hashes(n) + f);
    } else {
      q := "";
      n, f := HashTaken(t);
      assert "" + t == t;
    }
  }

  /** What stands behind a path. */
  predicate Asking(asked: bool, q: string, n: nat, f: string) {
    QueryText(q) && Behind(n, f) && (!asked ==> q == "")
  }

  lemma QuestionTaken(t: string) returns (asked: bool, q: string, n: nat, f: string)
    requires t == "" || (t[0] == '?' && Lives(QueryStart, t[1..])) || (t[0] == '#' && Lives(FragmentStart, t[1..]))
    ensures Asking(asked, q, n, f) && t == PrintedQuery(asked, q) + (Hashes(n) + f)
    ensures asked <==> t != "" && t[0] == '?'
  {
    if t != "" && t[0] == '?' {
      asked := true;
      q, n, f := QueryTaken(QueryStart, t[1..]);
      FirstAndRest(t);
      hide Behind, Hashes;
      Longer('?', q, Hashes(n) + f);
    } else {
      asked, q := false, "";
      n, f := HashTaken(t);
      assert "" + t == t;
    }
  }

  lemma {:induction false} PathTaken(t: string) returns (p: string, asked: bool, q: string, n: nat, f: string)
    requires Lives(Path, t)
    ensures (forall i :: 0 <= i < |p| ==> IsUrlChar(p[i])) && Asking(asked, q, n, f)
    ensures t == p + (PrintedQuery(asked, q) + (Hashes(n) + f))
    decreases |t|
  {
    if t != "" {
      LivesOn(Path, t);
    }
    if t != "" && IsUrlChar(t[0]) {
      var more;
      more, asked, q, n, f := PathTaken(t[1..]);
      p := [t[0]] + more;
      FirstAndRest(t);
      hide Asking, PrintedQuery, Hashes;
      Longer(t[0], more, PrintedQuery(asked, q) + (Hashes(n) + f));
    } else {
      p := "";
      asked, q, n, f := QuestionTaken(t);
      assert "" + t == t;
    }
  }

  /** A path with what is behind it. */
  lemma TailTaken(c: char, t: string) returns (x: Tail)
    requires Lives(Path, t) && IsUrlChar(c)
    ensures TailOk(x) && x.path != "" && x.path[0] == c && [c] + t == PrintedTail(x)
  {
    var p, asked, q, n, f := PathTaken(t);
    x := Tail([c] + p, asked, q, n, f);
    hide PrintedQuery, Hashes;
    Longer(c, p, PrintedQuery(asked, q) + (Hashes(n) + f));
  }

  /** The authority goes on up to a slash, a question mark or the end. */
  lemma {:induction false} ServerTaken(s: State, t: string) returns (x: string, y: Tail, u: State, at: bool)
    requires Lives(s, t) && InServer(s)
    ensures InServer(u) && Leads(s, x, u, Const(HostPart, |x|), at)
    ensures TailOk(y) && PathBegins(u, y) && (y.path != "" ==> y.path[0] == '/') && t == x + PrintedTail(y)
    decreases |t|
  {
    hide Leads, PrintedTail;
    if t != "" {
      LivesOn(s, t);
      FirstAndRest(t);
    }
    if t == "" || t[0] == '/' || t[0] == '?' {
      x, u, at := "", s, false;
      RunNone(s);
      assert Const(HostPart, 0) == [];
      y := TailBehind(t);
      assert "" + t == t;
    } else {
      var d, more, at' := UrlChar(s, t[0]), "", false;
      more, y, u, at' := ServerTaken(d, t[1..]);
      x, at := [t[0]] + more, t[0] == '@' || at';
      LeadsOne(s, t[0]);
      Then(s, [t[0]], d, [HostPart], t[0] == '@', more, u, Const(HostPart, |more|), at');
      assert [HostPart] + Const(HostPart, |more|) == Const(HostPart, |x|);
      Longer(t[0], more, PrintedTail(y));
    }
  }

  lemma TailBehind(t: string) returns (y: Tail)
    requires t == "" || (t[0] == '/' && Lives(Path, t[1..])) || (t[0] == '?' && Lives(QueryStart, t[1..]))
    ensures TailOk(y) && (y.path != "" ==> y.path[0] == '/') && t == PrintedTail(y)
  {
    if t != "" && t[0] == '/' {
      FirstAndRest(t);
      SlashInPath('/');
      y := TailTaken('/', t[1..]);
    } else {
      var asked, q, n, f := QuestionTaken(t);
      y := Tail("", asked, q, n, f);
      hide PrintedQuery, Hashes;
      if t == "" {
        NoHashes(q, n, f, asked);
      }
      assert "" + t == t;
    }
  }

  lemma SlashInPath(c: char)
    requires c == '/' || c == '*'
    ensures IsUrlChar(c)
  {
    assert c as int == 47 || c as int == 42;
  }

  lemma NoHashes(q: string, n: nat, f: string, asked: bool)
    requires !asked && PrintedQuery(asked, q) + (Hashes(n) + f) == ""
    ensures n == 0
  {
    assert |Hashes(n)| == n;
  }

  // ----- the scheme

  lemma {:induction false} LettersTaken(t: string) returns (x: string, rest: string)
    requires Lives(Schema, t)
    ensures (forall i :: 0 <= i < |x| ==> IsAlpha(x[i])) && t == x + rest
    ensures rest != "" ==> rest[0] == ':' && Lives(SchemaSlash, rest[1..])
    decreases |t|
  {
    if t != "" {
      LivesOn(Schema, t);
    }
    if t != "" && IsAlpha(t[0]) {
      var more;
      more, rest := LettersTaken(t[1..]);
      x := [t[0]] + more;
      FirstAndRest(t);
      Longer(t[0], more, rest);
    } else {
      x, rest := "", t;
    }
  }

  /** Behind the colon: two slashes and what comes then, or the end of the text. */
  lemma SlashesTaken(t: string) returns (whole: bool, rest: string)
    requires Lives(SchemaSlash, t)
    ensures if whole then t == "//" + rest && Lives(ServerStart, rest) else t == "" || t == "/"
  {
    whole, rest := false, "";
    if t != "" {
      LivesOn(SchemaSlash, t);
      FirstAndRest(t);
      var u := t[1..];
      if u != "" {
        LivesOn(SchemaSlashSlash, u);
        FirstAndRest(u);
        whole, rest := true, u[1..];
        assert "//" + rest == "/" + ("/" + rest);
      }
    }
  }

  // ----- what is accepted

  /** A host is needed where there is a scheme. */
  lemma SchemaNeedsHost(buf: string, t: State, l: seq<Part>, at: bool)
    requires Leads(SpacesBefore, buf, t, l, at) && SchemaPart in l && HostPart !in l
    ensures !Accepts(buf, false)
  {
    if Accepts(buf, false) {
      hide Leads, FirstFields, FinalFields, HostAccepted;
      LabelsOfRun(buf, t, l, at);
      FirstCovers(buf, false, SchemaPart);
      FirstCovers(buf, false, HostPart);
    }
  }

  lemma LabelsOfRun(buf: string, t: State, l: seq<Part>, at: bool)
    requires Leads(SpacesBefore, buf, t, l, at)
    ensures Labels(SpacesBefore, buf) == l && Labels(Start(false), buf) == l
  {
  }

  lemma SchemaOnly(schema: string, rest: string, t: State, l: seq<Part>)
    requires SchemaOk(schema) && Leads(Schema, rest, t, l, false) && HostPart !in l
    ensures !Accepts(schema + rest, false)
  {
    hide Leads;
    LeadsSame(SpacesBefore, schema, Schema);
    Then(SpacesBefore, schema, Schema, Const(SchemaPart, |schema|), false, rest, t, l, false);
    var k := Const(SchemaPart, |schema|) + l;
    assert k[0] == SchemaPart;
    SchemaNeedsHost(schema + rest, t, k, false);
  }

  /** A scheme without its two slashes makes no URL. */
  lemma CutSchema(schema: string, rest: string)
    requires SchemaOk(schema) && (rest == "" || rest == ":" || rest == ":/")
    ensures !Accepts(schema + rest, false)
  {
    hide Leads;
    if rest == "" {
      RunNone(Schema);
      SchemaOnly(schema, rest, Schema, []);
    } else {
      LeadsOne(Schema, ':');
      if rest == ":" {
        SchemaOnly(schema, rest, SchemaSlash, [NoPart]);
      } else {
        LeadsOne(SchemaSlash, '/');
        assert ":" + "/" == ":/" && [NoPart] + [NoPart] == [NoPart, NoPart];
        Then(Schema, ":", SchemaSlash, [NoPart], false, "/", SchemaSlashSlash, [NoPart], false);
        SchemaOnly(schema, rest, SchemaSlashSlash, [NoPart, NoPart]);
      }
    }
  }

  /** The authority of an accepted URL, whatever is around it. */
  lemma AuthorityIs(buf: string, connect: bool, x: string, p: seq<Part>, s: string, y: string, q: seq<Part>, at: bool) returns (a: Authority)
    requires Accepts(buf, connect) && |x| == |p| && |y| == |q| && HostPart !in p && HostPart !in q && s != ""
    requires buf == x + s + y && Labels(Start(connect), buf) == p + Const(HostPart, |s|) + q
    requires FoundAt(buf, connect) <==> at
    ensures AuthorityOk(a) && a.at == at && s == PrintedAuthority(a)
    ensures AuthorityGiven(buf, FinalFields(buf, connect), a)
  {
    AcceptsParts(buf, connect);
    hide Accepts, Alive, FirstFields, FinalFields, HostAccepted, FoundAt, AuthorityText, AuthorityGiven, PrintedAuthority;
    FirstGives(buf, connect, x, p, s, y, q, HostPart);
    HostSliceIs(buf, connect);
    HostEndsWell(buf, connect);
    a := AuthorityTaken(at, s);
    AuthorityFields(buf, connect, x, p, a, y, q);
    PortInBounds(buf, connect, a);
  }

  lemma AcceptsParts(buf: string, connect: bool)
    requires Accepts(buf, connect)
    ensures Alive(buf, connect) && HostAccepted(buf, connect)
  {
  }

  lemma HostEndsWell(buf: string, connect: bool)
    requires Alive(buf, connect) && HostAccepted(buf, connect) && HostPart in FirstFields(buf, connect)
    ensures Ends(if FoundAt(buf, connect) then UserinfoStart else HostStart, Text(buf, HostSlice(buf, connect)))
  {
    hide RunHost, FoundAt, FirstFields;
  }

  lemma PortInBounds(buf: string, connect: bool, a: Authority)
    requires Accepts(buf, connect) && Alive(buf, connect) && HostAccepted(buf, connect)
    requires AuthorityText(a) && AuthorityGiven(buf, FinalFields(buf, connect), a)
    ensures AuthorityOk(a)
  {
    hide FirstFields, FinalFields, AuthorityText, HostField;
  }

  /** The components of an accepted URL: with a scheme and an authority, or a path at the
      beginning. */
  datatype Components = Absolute(schema: string, authority: Authority, tail: Tail) | Relative(tail: Tail)

  ghost predicate Proper(c: Components) {
    && TailOk(c.tail)
    && if c.Absolute? then SchemaOk(c.schema) && AuthorityOk(c.authority) && (c.tail.path != "" ==> c.tail.path[0] == '/')
       else c.tail.path != "" && (c.tail.path[0] == '/' || c.tail.path[0] == '*')
  }

  function PrintedUrl(c: Components): string {
    if c.Absolute? then Printed(c.schema, c.authority, c.tail) else PrintedTail(c.tail)
  }

  lemma AbsoluteTaken(buf: string, schema: string, rest: string) returns (c: Components)
    requires Accepts(buf, false) && SchemaOk(schema) && buf == (schema + "://") + rest && Lives(ServerStart, rest)
    ensures Proper(c) && buf == PrintedUrl(c)
  {
    assert InServer(ServerStart);
    hide *;
    var x, y, u, at := ServerTaken(ServerStart, rest);
    WholeLeads(schema, x, y, u, at);
    Longest(schema + "://", x, PrintedTail(y));
    c := AbsoluteIs(buf, schema, x, y, u, at);
  }

  lemma Longest(a: string, b: string, c: string)
    ensures a + (b + c) == (a + b) + c
  {
  }

  lemma AbsoluteIs(buf: string, schema: string, x: string, y: Tail, u: State, at: bool) returns (c: Components)
    requires Accepts(buf, false) && SchemaOk(schema) && buf == ((schema + "://") + x) + PrintedTail(y) && InServer(u)
    requires TailOk(y) && (y.path != "" ==> y.path[0] == '/')
    requires Leads(SpacesBefore, buf, TailState(u, y), SchemaLabels(schema) + Const(HostPart, |x|) + TailLabels(y), at)
    ensures Proper(c) && buf == PrintedUrl(c)
  {
    LabelsApart(schema, y);
    SchemaFirst(schema);
    TailStateLives(u, y);
    var l := SchemaLabels(schema) + Const(HostPart, |x|) + TailLabels(y);
    hide Leads, Lives, Accepts, Alive, FoundAt, FirstFields, FinalFields, AuthorityOk, SchemaLabels, TailLabels;
    hide PrintedTail, PrintedAuthority, TailState, TailOk, SchemaOk, AuthorityGiven;
    if x == "" {
      assert SchemaLabels(schema)[0] == l[0];
      SchemaNeedsHost(buf, TailState(u, y), l, at);
    }
    LedAlive(buf, false, TailState(u, y), l, at);
    var a := AuthorityIs(buf, false, schema + "://", SchemaLabels(schema), x, PrintedTail(y), TailLabels(y), at);
    c := Absolute(schema, a, y);
  }

  lemma SchemaFirst(schema: string)
    requires SchemaOk(schema)
    ensures SchemaLabels(schema) != [] && SchemaLabels(schema)[0] == SchemaPart
  {
  }

  lemma WholeLeads(schema: string, x: string, y: Tail, u: State, at: bool)
    requires SchemaOk(schema) && TailOk(y) && InServer(u) && PathBegins(u, y) && Leads(ServerStart, x, u, Const(HostPart, |x|), at)
    ensures Leads(SpacesBefore, ((schema + "://") + x) + PrintedTail(y), TailState(u, y),
                  SchemaLabels(schema) + Const(HostPart, |x|) + TailLabels(y), at)
  {
    hide Leads, SchemaOk, TailOk, PrintedTail, SchemaLabels, TailLabels, Const, TailState;
    SchemaLeads(schema);
    TailLeads(u, y);
    Then(SpacesBefore, schema + "://", ServerStart, SchemaLabels(schema), false, x, u, Const(HostPart, |x|), at);
    Then(SpacesBefore, (schema + "://") + x, u, SchemaLabels(schema) + Const(HostPart, |x|), at,
         PrintedTail(y), TailState(u, y), TailLabels(y), false);
  }

  /** Every accepted URL is printed from components. */
  lemma AcceptedIsPrinted(buf: string) returns (c: Components)
    requires Accepts(buf, false)
    ensures Proper(c) && buf == PrintedUrl(c)
  {
    AcceptsLives(buf, false);
    hide Accepts, Lives;
    LivesOn(SpacesBefore, buf);
    FirstAndRest(buf);
    if buf[0] == '/' || buf[0] == '*' {
      SlashInPath(buf[0]);
      var y := TailTaken(buf[0], buf[1..]);
      c := Relative(y);
    } else {
      var more, rest := LettersTaken(buf[1..]);
      var schema := [buf[0]] + more;
      Longer(buf[0], more, rest);
      if rest == "" {
        CutSchema(schema, rest);
      }
      var whole, rest2 := SlashesTaken(rest[1..]);
      FirstAndRest(rest);
      if !whole {
        CutSchema(schema, rest);
      }
      assert schema + (":" + ("//" + rest2)) == (schema + "://") + rest2;
      c := AbsoluteTaken(buf, schema, rest2);
    }
  }

  lemma AcceptsLives(buf: string, connect: bool)
    requires Accepts(buf, connect)
    ensures buf != "" && Lives(Start(connect), buf)
  {
  }

  /** Exactly the printed URLs are accepted. */
  lemma AcceptedExactly(buf: string)
    ensures Accepts(buf, false) <==> exists c :: Proper(c) && buf == PrintedUrl(c)
  {
    if Accepts(buf, false) {
      var c := AcceptedIsPrinted(buf);
    }
    if c :| Proper(c) && buf == PrintedUrl(c) {
      hide Accepts, PrintedTail, Printed;
      if c.Absolute? {
        PrintedParsed(c.schema, c.authority, c.tail);
      } else {
        PathParsed(c.tail);
      }
    }
  }

  /** And as the target of a CONNECT request exactly hosts with ports, but for delimiters
      behind them. */
  lemma TargetExactly(buf: string)
    ensures Accepts(buf, true) <==>
            exists a, y :: AuthorityOk(a) && a.userinfo == "" && a.port != "" && Bare(y) && buf == PrintedAuthority(a) + PrintedTail(y)
  {
    if Accepts(buf, true) {
      var a, y := TargetTaken(buf);
    }
    if a, y :| AuthorityOk(a) && a.userinfo == "" && a.port != "" && Bare(y) && buf == PrintedAuthority(a) + PrintedTail(y) {
      hide Accepts, PrintedAuthority, PrintedTail, AuthorityOk;
      TargetParsed(a, y);
    }
  }

  lemma TargetTaken(buf: string) returns (a: Authority, y: Tail)
    requires Accepts(buf, true)
    ensures AuthorityOk(a) && a.userinfo == "" && a.port != "" && Bare(y) && buf == PrintedAuthority(a) + PrintedTail(y)
  {
    AcceptsLives(buf, true);
    assert InServer(ServerStart);
    hide *;
    var x, u, at;
    x, y, u, at := ServerTaken(ServerStart, buf);
    TargetLeads(x, y, u, at);
    a := TargetIs(buf, x, y, u, at);
  }

  lemma TargetIs(buf: string, x: string, y: Tail, u: State, at: bool) returns (a: Authority)
    requires Accepts(buf, true) && buf == x + PrintedTail(y) && InServer(u) && TailOk(y)
    requires Leads(ServerStart, buf, TailState(u, y), Const(HostPart, |x|) + TailLabels(y), at)
    ensures AuthorityOk(a) && a.userinfo == "" && a.port != "" && Bare(y) && buf == PrintedAuthority(a) + PrintedTail(y)
  {
    TailStateLives(u, y);
    KeysAre(buf);
    var l := Const(HostPart, |x|) + TailLabels(y);
    LabelsApart("", y);
    hide Leads, Accepts, TailLabels, PrintedTail, PrintedAuthority, TailState, TailOk, AuthorityOk, Bare;
    hide AuthorityGiven, TailGiven, FinalFields, FirstFields, HostAccepted, Alive, FoundAt;
    LedAlive(buf, true, TailState(u, y), l, at);
    assert buf == "" + x + PrintedTail(y) && l == [] + Const(HostPart, |x|) + TailLabels(y);
    HostNeeded(buf, x, l, y);
    a := AuthorityIs(buf, true, "", [], x, PrintedTail(y), TailLabels(y), at);
    TargetKeys(FinalFields(buf, true), buf, a);
    BareTail(buf, x, y, l);
  }

  lemma BareTail(buf: string, x: string, y: Tail, l: seq<Part>)
    requires Alive(buf, true) && HostAccepted(buf, true) && FinalFields(buf, true).Keys == {HostPart, PortPart}
    requires TailOk(y) && buf == x + PrintedTail(y) && Labels(Start(true), buf) == l == Const(HostPart, |x|) + TailLabels(y)
    ensures Bare(y)
  {
    hide TailLabels, PrintedTail, TailOk, Bare, TailGiven, FinalFields, FirstFields, HostAccepted, Alive;
    TailFields(buf, true, x, Const(HostPart, |x|), y);
    NoTail(buf, y);
  }

  lemma KeysAre(buf: string)
    requires Accepts(buf, true)
    ensures Alive(buf, true) && HostAccepted(buf, true) && FinalFields(buf, true).Keys == {HostPart, PortPart}
  {
  }

  lemma HostNeeded(buf: string, x: string, l: seq<Part>, y: Tail)
    requires Alive(buf, true) && HostAccepted(buf, true) && FinalFields(buf, true).Keys == {HostPart, PortPart}
    requires Labels(Start(true), buf) == l == Const(HostPart, |x|) + TailLabels(y) && HostPart !in TailLabels(y)
    ensures x != ""
  {
    hide FirstFields, FinalFields, Alive, HostAccepted, TailLabels;
    FirstCovers(buf, true, HostPart);
    FinalCovers(buf, true, HostPart);
    assert HostPart in FinalFields(buf, true).Keys;
  }

  lemma NoTail(buf: string, y: Tail)
    requires Alive(buf, true) && HostAccepted(buf, true) && FinalFields(buf, true).Keys == {HostPart, PortPart}
    requires TailOk(y) && TailGiven(buf, FirstFields(buf, true), y)
    ensures Bare(y)
  {
    KeptTail(buf, true, y);
    hide FirstFields, FinalFields, Alive, HostAccepted, TailOk;
    assert PathPart !in {HostPart, PortPart} && QueryPart !in {HostPart, PortPart} && FragmentPart !in {HostPart, PortPart};
    assert PathPart !in FinalFields(buf, true).Keys && QueryPart !in FinalFields(buf, true).Keys && FragmentPart !in FinalFields(buf, true).Keys;
  }

  lemma TargetKeys(f: Fields, buf: string, a: Authority)
    requires AuthorityGiven(buf, f, a) && f.Keys == {HostPart, PortPart}
    ensures a.userinfo == "" && a.port != ""
  {
    assert UserinfoPart !in {HostPart, PortPart} && PortPart in {HostPart, PortPart};
  }
}
