/** A URL put together from its components (RFC 3986, section 3) is parsed back into them. */
module UrlPrint {
  import opened ByteSeqs
  import opened UrlSpec
  import opened UrlFields

  // ----- reading one stretch after the other

  function Const(part: Part, n: nat): (l: seq<Part>)
    ensures |l| == n && forall i :: 0 <= i < n ==> l[i] == part
  {
    seq(n, i requires 0 <= i < n => part)
  }

  /** From s the text leads to t, its characters have these labels, and `at` tells whether an
      at sign came. */
  ghost predicate Leads(s: State, text: string, t: State, labels: seq<Part>, at: bool) {
    Run(s, text, |text|) == t && Labels(s, text) == labels && (FoundBy(s, text, |text|) <==> at)
  }

  ghost predicate HostLeads(s: HostState, text: string, t: HostState, labels: seq<Part>) {
    RunHost(s, text, |text|) == t && HostLabels(s, text) == labels
  }

  lemma {:induction false} RunAppend(s: State, a: string, b: string, n: nat)
    requires n <= |a + b|
    ensures n <= |a| ==> Run(s, a + b, n) == Run(s, a, n) && FoundBy(s, a + b, n) == FoundBy(s, a, n)
    ensures n > |a| ==> Run(s, a + b, n) == Run(Run(s, a, |a|), b, n - |a|)
    ensures n > |a| ==> FoundBy(s, a + b, n) == (FoundBy(s, a, |a|) || FoundBy(Run(s, a, |a|), b, n - |a|))
  {
    hide UrlChar;
    if n > 0 {
      RunAppend(s, a, b, n - 1);
      assert n - 1 < |a| ==> (a + b)[n - 1] == a[n - 1];
      assert n - 1 >= |a| ==> (a + b)[n - 1] == b[n - 1 - |a|];
    }
  }

  lemma {:induction false} RunHostAppend(s: HostState, a: string, b: string, n: nat)
    requires n <= |a + b|
    ensures RunHost(s, a + b, n) == if n <= |a| then RunHost(s, a, n) else RunHost(RunHost(s, a, |a|), b, n - |a|)
  {
    hide HostChar;
    if n > 0 {
      RunHostAppend(s, a, b, n - 1);
      assert n - 1 < |a| ==> (a + b)[n - 1] == a[n - 1];
      assert n - 1 >= |a| ==> (a + b)[n - 1] == b[n - 1 - |a|];
    }
  }

  lemma Then(s: State, a: string, t: State, k: seq<Part>, x: bool, b: string, u: State, l: seq<Part>, y: bool)
    requires Leads(s, a, t, k, x) && Leads(t, b, u, l, y)
    ensures Leads(s, a + b, u, k + l, x || y)
  {
    hide Run, FoundBy, Label;
    RunAppend(s, a, b, |a + b|);
    RunAppend(t, b, "", 0);
    forall i | 0 <= i < |a + b| ensures Labels(s, a + b)[i] == (k + l)[i] {
      RunAppend(s, a, b, i + 1);
    }
    if b == "" {
      RunNone(t);
    }
  }

  lemma RunNone(s: State)
    ensures Run(s, "", 0) == s && !FoundBy(s, "", 0) && Leads(s, "", s, [], false)
  {
  }

  lemma ThenHost(s: HostState, a: string, t: HostState, k: seq<Part>, b: string, u: HostState, l: seq<Part>)
    requires HostLeads(s, a, t, k) && HostLeads(t, b, u, l)
    ensures HostLeads(s, a + b, u, k + l)
  {
    hide HostChar, HostLabel;
    RunHostAppend(s, a, b, |a + b|);
    forall i | 0 <= i < |a + b| ensures HostLabels(s, a + b)[i] == (k + l)[i] {
      RunHostAppend(s, a, b, i + 1);
    }
  }

  /** A stretch of one part. */
  lemma {:induction false} Same(s: State, text: string, t: State, n: nat)
    requires 0 < n <= |text| && UrlChar(s, text[0]) == t && forall i :: 0 < i < |text| ==> UrlChar(t, text[i]) == t
    ensures Run(s, text, n) == t && (t != ServerWithAt ==> !FoundBy(s, text, n))
  {
    hide UrlChar;
    if n > 1 {
      Same(s, text, t, n - 1);
    } else {
      assert Run(s, text, 0) == s && !FoundBy(s, text, 0);
    }
  }

  lemma LeadsSame(s: State, text: string, t: State)
    requires |text| > 0 && UrlChar(s, text[0]) == t && forall i :: 0 < i < |text| ==> UrlChar(t, text[i]) == t
    requires t != ServerWithAt
    ensures Leads(s, text, t, Const(Label(t), |text|), false)
  {
    hide UrlChar, Run, FoundBy, Label;
    forall n | 0 < n <= |text| ensures Run(s, text, n) == t && !FoundBy(s, text, n) {
      Same(s, text, t, n);
    }
  }

  lemma LeadsOne(s: State, ch: char)
    ensures var t := UrlChar(s, ch);
            Leads(s, [ch], t, [Label(t)], t == ServerWithAt)
  {
    hide UrlChar, Label;
    assert Run(s, [ch], 0) == s && !FoundBy(s, [ch], 0);
  }

  lemma {:induction false} SameHost(s: HostState, text: string, t: HostState, n: nat)
    requires 0 < n <= |text| && HostChar(s, text[0]) == t && forall i :: 0 < i < |text| ==> HostChar(t, text[i]) == t
    ensures RunHost(s, text, n) == t
  {
    hide HostChar;
    if n > 1 {
      SameHost(s, text, t, n - 1);
    } else {
      assert RunHost(s, text, 0) == s;
    }
  }

  lemma HostLeadsSame(s: HostState, text: string, t: HostState)
    requires |text| > 0 && HostChar(s, text[0]) == t && forall i :: 0 < i < |text| ==> HostChar(t, text[i]) == t
    ensures HostLeads(s, text, t, Const(HostLabel(t), |text|))
  {
    hide HostChar, RunHost, HostLabel;
    forall n | 0 < n <= |text| ensures RunHost(s, text, n) == t {
      SameHost(s, text, t, n);
    }
  }

  lemma HostLeadsOne(s: HostState, ch: char)
    ensures HostLeads(s, [ch], HostChar(s, ch), [HostLabel(HostChar(s, ch))])
  {
    hide HostChar, HostLabel;
    assert RunHost(s, [ch], 0) == s;
  }

  lemma HostLeadsNone(s: HostState)
    ensures HostLeads(s, "", s, [])
  {
  }

  /** There is only one slice for a part that is a stretch of the labels. */
  lemma OnlySlice(x: Slice, a: seq<Part>, n: nat, b: seq<Part>, part: Part, off: nat)
    requires part !in a && part !in b && Covers(x, a + Const(part, n) + b, part, off, |a| + n + |b|)
    ensures x == Slice(off + |a|, n)
  {
    var l := a + Const(part, n) + b;
    assert forall i :: 0 <= i < |l| ==> (l[i] == part <==> |a| <= i < |a| + n) by {
      assert forall i :: 0 <= i < |a| ==> l[i] == a[i];
      assert forall i :: |a| <= i < |a| + n ==> l[i] == part;
      assert forall i :: |a| + n <= i < |l| ==> l[i] == b[i - |a| - n];
    }
    assert l[x.off - off] == part && l[x.off + x.len - 1 - off] == part;
    assert l[|a|] == part && l[|a| + n - 1] == part;
  }

  // ----- components

  datatype Host = Name(text: string) | Address(text: string, zone: string)

  /** `at` and `asked` tell whether there is an at sign and a question mark. */
  datatype Authority = Authority(at: bool, userinfo: string, host: Host, port: string)

  datatype Tail = Tail(path: string, asked: bool, query: string, hashes: nat, fragment: string)

  /** A component whose delimiter goes with it. */
  function After(mark: string, text: string): string { if text == "" then "" else mark + text }

  function PrintedHost(h: Host): string {
    if h.Name? then h.text else "[" + (h.text + After("%", h.zone)) + "]"
  }

  function PrintedUserinfo(at: bool, text: string): string { if at then text + "@" else "" }

  function PrintedAuthority(a: Authority): string {
    PrintedUserinfo(a.at, a.userinfo) + (PrintedHost(a.host) + After(":", a.port))
  }

  function PrintedQuery(asked: bool, text: string): string { if asked then "?" + text else "" }

  function Hashes(n: nat): (s: string)
    ensures |s| == n && forall i :: 0 <= i < n ==> s[i] == '#'
  {
    seq(n, _ => '#')
  }

  function PrintedTail(t: Tail): string { t.path + (PrintedQuery(t.asked, t.query) + (Hashes(t.hashes) + t.fragment)) }

  /** What the host field of such a URL is. */
  function HostField(h: Host): string { if h.Name? then h.text else h.text + After("%", h.zone) }

  predicate Nums(s: string) { forall i :: 0 <= i < |s| ==> IsNum(s[i]) }

  predicate IsAddressChar(c: char) { IsHex(c) || c == ':' || c == '.' }

  predicate HostOk(h: Host) {
    && h.text != ""
    && (h.Name? ==> forall i :: 0 <= i < |h.text| ==> IsHostChar(h.text[i]))
    && (h.Address? ==> (forall i :: 0 <= i < |h.text| ==> IsAddressChar(h.text[i])) && forall i :: 0 <= i < |h.zone| ==> IsZoneChar(h.zone[i]))
  }

  predicate AuthorityText(a: Authority) {
    && HostOk(a.host) && Nums(a.port) && (!a.at ==> a.userinfo == "")
    && forall i :: 0 <= i < |a.userinfo| ==> IsUserinfoChar(a.userinfo[i])
  }

  predicate AuthorityOk(a: Authority) { AuthorityText(a) && Decimal(a.port) <= 0xFFFF }

  /** After an authority a path begins with a slash, and without path and query the code takes
      no fragment. */
  predicate TailOk(t: Tail) {
    && (forall i :: 0 <= i < |t.path| ==> IsUrlChar(t.path[i]))
    && (forall i :: 0 <= i < |t.query| ==> IsUrlChar(t.query[i]) || t.query[i] == '?')
    && (!t.asked ==> t.query == "") && (t.hashes == 0 ==> t.fragment == "")
    && (t.hashes > 0 ==> t.path != "" || t.asked) && (t.fragment != "" ==> t.fragment[0] != '#')
    && (forall i :: 0 <= i < |t.fragment| ==> IsUrlChar(t.fragment[i]) || t.fragment[i] == '?' || t.fragment[i] == '#')
  }

  // ----- their labels in the first pass

  function Marked(part: Part, text: string): seq<Part> { if text == "" then [] else [NoPart] + Const(part, |text|) }

  function QueryLabels(asked: bool, text: string): seq<Part> { if asked then [NoPart] + Const(QueryPart, |text|) else [] }

  function TailLabels(t: Tail): seq<Part> {
    Const(PathPart, |t.path|) + (QueryLabels(t.asked, t.query) + (Const(NoPart, t.hashes) + Const(FragmentPart, |t.fragment|)))
  }

  function PathState(s: State, path: string): State { if path == "" then s else Path }

  function QueryState(s: State, asked: bool, query: string): State {
    if !asked then s else if query == "" then QueryStart else Query
  }

  function FragmentState(s: State, hashes: nat, fragment: string): State {
    if hashes == 0 then s else if fragment == "" then FragmentStart else Fragment
  }

  function TailState(s: State, t: Tail): State {
    FragmentState(QueryState(PathState(s, t.path), t.asked, t.query), t.hashes, t.fragment)
  }

  /** Somewhere in an authority. */
  predicate InServer(s: State) { s == ServerStart || s == Server || s == ServerWithAt }

  lemma PathLeads(s: State, path: string)
    requires forall i :: 0 <= i < |path| ==> IsUrlChar(path[i])
    requires path != "" ==> (InServer(s) || s == SpacesBefore) && (path[0] == '/' || (path[0] == '*' && s == SpacesBefore))
    ensures Leads(s, path, PathState(s, path), Const(PathPart, |path|), false)
  {
    hide Leads;
    if path == "" {
      RunNone(s);
      assert Const(PathPart, 0) == [];
    } else {
      LeadsSame(s, path, Path);
    }
  }

  lemma QueryLeads(s: State, asked: bool, query: string)
    requires (forall i :: 0 <= i < |query| ==> IsUrlChar(query[i]) || query[i] == '?') && (!asked ==> query == "")
    requires asked ==> InServer(s) || s == Path
    ensures Leads(s, PrintedQuery(asked, query), QueryState(s, asked, query), QueryLabels(asked, query), false)
  {
    hide Leads;
    if !asked {
      RunNone(s);
    } else {
      LeadsOne(s, '?');
      if query == "" {
        RunNone(QueryStart);
      } else {
        LeadsSame(QueryStart, query, Query);
      }
      Then(s, "?", QueryStart, [NoPart], false, query, QueryState(s, true, query), Const(QueryPart, |query|), false);
    }
  }

  lemma FragmentLeads(s: State, hashes: nat, fragment: string)
    requires forall i :: 0 <= i < |fragment| ==> IsUrlChar(fragment[i]) || fragment[i] == '?' || fragment[i] == '#'
    requires (fragment != "" ==> fragment[0] != '#') && (hashes == 0 ==> fragment == "")
    requires hashes > 0 ==> s == Path || s == QueryStart || s == Query
    ensures Leads(s, Hashes(hashes) + fragment, FragmentState(s, hashes, fragment),
                  Const(NoPart, hashes) + Const(FragmentPart, |fragment|), false)
  {
    hide Leads;
    if hashes == 0 {
      RunNone(s);
      assert Hashes(0) + fragment == "" && Const(NoPart, 0) + Const(FragmentPart, 0) == [];
    } else {
      LeadsSame(s, Hashes(hashes), FragmentStart);
      if fragment == "" {
        RunNone(FragmentStart);
      } else {
        LeadsSame(FragmentStart, fragment, Fragment);
      }
      Then(s, Hashes(hashes), FragmentStart, Const(NoPart, hashes), false,
           fragment, FragmentState(s, hashes, fragment), Const(FragmentPart, |fragment|), false);
    }
  }

  predicate PathBegins(s: State, t: Tail) {
    if t.path == "" then InServer(s) else (InServer(s) || s == SpacesBefore) && (t.path[0] == '/' || (t.path[0] == '*' && s == SpacesBefore))
  }

  lemma TailLeads(s: State, t: Tail)
    requires TailOk(t) && PathBegins(s, t)
    ensures Leads(s, PrintedTail(t), TailState(s, t), TailLabels(t), false)
  {
    hide Leads, PrintedQuery, QueryLabels, Hashes, Const;
    var u := PathState(s, t.path);
    var v := QueryState(u, t.asked, t.query);
    var w := FragmentState(v, t.hashes, t.fragment);
    PathLeads(s, t.path);
    QueryLeads(u, t.asked, t.query);
    FragmentLeads(v, t.hashes, t.fragment);
    var q, ql := PrintedQuery(t.asked, t.query), QueryLabels(t.asked, t.query);
    var f, fl := Hashes(t.hashes) + t.fragment, Const(NoPart, t.hashes) + Const(FragmentPart, |t.fragment|);
    Then(u, q, v, ql, false, f, w, fl, false);
    Then(s, t.path, u, Const(PathPart, |t.path|), false, q + f, w, ql + fl, false);
  }

  /** All characters of a text may come in an authority, at signs aside. */
  predicate ServerText(s: string) {
    forall i :: 0 <= i < |s| ==> IsUserinfoChar(s[i]) || s[i] == '[' || s[i] == ']'
  }

  lemma ServerLeads(s: State, text: string)
    requires text != "" && ServerText(text) && InServer(s)
    ensures Leads(s, text, Server, Const(HostPart, |text|), false)
  {
    hide Leads;
    LeadsSame(s, text, Server);
  }

  lemma HostIsServerText(h: Host)
    requires HostOk(h)
    ensures PrintedHost(h) != "" && ServerText(PrintedHost(h))
  {
  }

  lemma PortIsServerText(port: string)
    requires Nums(port)
    ensures ServerText(After(":", port))
  {
  }

  lemma ServerTextAppend(a: string, b: string)
    requires ServerText(a) && ServerText(b)
    ensures ServerText(a + b)
  {
  }

  lemma AuthorityLeads(a: Authority)
    requires AuthorityText(a)
    ensures Leads(ServerStart, PrintedAuthority(a), Server, Const(HostPart, |PrintedAuthority(a)|), a.at)
  {
    hide Leads, After, PrintedHost, ServerText, HostOk, Nums;
    var rest := PrintedHost(a.host) + After(":", a.port);
    HostIsServerText(a.host);
    PortIsServerText(a.port);
    ServerTextAppend(PrintedHost(a.host), After(":", a.port));
    if !a.at {
      ServerLeads(ServerStart, rest);
      assert PrintedAuthority(a) == rest;
    } else {
      UserinfoIsServerText(a.userinfo);
      var u := if a.userinfo == "" then ServerStart else Server;
      if a.userinfo == "" {
        RunNone(ServerStart);
        assert Const(HostPart, 0) == [];
      } else {
        ServerLeads(ServerStart, a.userinfo);
      }
      LeadsOne(u, '@');
      ServerLeads(ServerWithAt, rest);
      Then(ServerStart, a.userinfo, u, Const(HostPart, |a.userinfo|), false, "@", ServerWithAt, [HostPart], true);
      Then(ServerStart, a.userinfo + "@", ServerWithAt, Const(HostPart, |a.userinfo|) + [HostPart], true,
           rest, Server, Const(HostPart, |rest|), false);
      assert Const(HostPart, |a.userinfo|) + [HostPart] + Const(HostPart, |rest|) == Const(HostPart, |PrintedAuthority(a)|);
    }
  }

  lemma UserinfoIsServerText(text: string)
    requires forall i :: 0 <= i < |text| ==> IsUserinfoChar(text[i])
    ensures ServerText(text)
  {
  }

  // ----- and in the second

  function HostTextLabels(h: Host): seq<Part> {
    if h.Name? then Const(HostPart, |h.text|) else [NoPart] + Const(HostPart, |HostField(h)|) + [NoPart]
  }

  function HostState1(h: Host): HostState { if h.Name? then UrlSpec.Host else V6End }

  lemma HostLeadsTo(h: Host)
    requires HostOk(h)
    ensures HostLeads(HostStart, PrintedHost(h), HostState1(h), HostTextLabels(h))
  {
    hide HostLeads;
    if h.Name? {
      HostLeadsSame(HostStart, h.text, UrlSpec.Host);
    } else {
      HostLeadsOne(HostStart, '[');
      HostLeadsSame(V6Start, h.text, V6);
      if h.zone == "" {
        HostLeadsOne(V6, ']');
        ThenHost(HostStart, "[", V6Start, [NoPart], h.text, V6, Const(HostPart, |h.text|));
        ThenHost(HostStart, "[" + h.text, V6, [NoPart] + Const(HostPart, |h.text|), "]", V6End, [NoPart]);
        assert HostField(h) == h.text && "[" + h.text + "]" == PrintedHost(h);
      } else {
        ZoneLeads(h);
      }
    }
  }

  lemma ZoneLeads(h: Host)
    requires HostOk(h) && h.Address? && h.zone != ""
    ensures HostLeads(HostStart, PrintedHost(h), V6End, [NoPart] + Const(HostPart, |HostField(h)|) + [NoPart])
  {
    hide HostLeads;
    HostLeadsOne(HostStart, '[');
    HostLeadsSame(V6Start, h.text, V6);
    HostLeadsOne(V6, '%');
    HostLeadsSame(ZoneStart, h.zone, Zone);
    HostLeadsOne(Zone, ']');
    var n, z := |h.text|, |h.zone|;
    ThenHost(V6Start, h.text, V6, Const(HostPart, n), "%", ZoneStart, [HostPart]);
    ThenHost(V6Start, h.text + "%", ZoneStart, Const(HostPart, n) + [HostPart], h.zone, Zone, Const(HostPart, z));
    assert Const(HostPart, n) + [HostPart] + Const(HostPart, z) == Const(HostPart, |HostField(h)|);
    assert h.text + "%" + h.zone == HostField(h);
    ThenHost(HostStart, "[", V6Start, [NoPart], HostField(h), Zone, Const(HostPart, |HostField(h)|));
    ThenHost(HostStart, "[" + HostField(h), Zone, [NoPart] + Const(HostPart, |HostField(h)|), "]", V6End, [NoPart]);
  }

  function UserinfoLabels(at: bool, text: string): seq<Part> { if at then Const(UserinfoPart, |text|) + [NoPart] else [] }

  function AuthorityLabels(a: Authority): seq<Part> {
    UserinfoLabels(a.at, a.userinfo) + (HostTextLabels(a.host) + Marked(PortPart, a.port))
  }

  function AuthorityEnd(a: Authority): HostState { if a.port == "" then HostState1(a.host) else Port }

  lemma UserinfoLeads(at: bool, text: string)
    requires (forall i :: 0 <= i < |text| ==> IsUserinfoChar(text[i])) && (!at ==> text == "")
    ensures HostLeads(if at then UserinfoStart else HostStart, PrintedUserinfo(at, text), HostStart, UserinfoLabels(at, text))
  {
    hide HostLeads;
    if !at {
      HostLeadsNone(HostStart);
    } else {
      var u := if text == "" then UserinfoStart else Userinfo;
      if text == "" {
        HostLeadsNone(UserinfoStart);
        assert Const(UserinfoPart, 0) == [];
      } else {
        HostLeadsSame(UserinfoStart, text, Userinfo);
      }
      HostLeadsOne(u, '@');
      ThenHost(UserinfoStart, text, u, Const(UserinfoPart, |text|), "@", HostStart, [NoPart]);
    }
  }

  lemma PortLeads(s: HostState, port: string)
    requires Nums(port) && (s == UrlSpec.Host || s == V6End)
    ensures HostLeads(s, After(":", port), if port == "" then s else Port, Marked(PortPart, port))
  {
    hide HostLeads;
    if port == "" {
      HostLeadsNone(s);
    } else {
      HostLeadsOne(s, ':');
      HostLeadsSame(PortStart, port, Port);
      ThenHost(s, ":", PortStart, [NoPart], port, Port, Const(PortPart, |port|));
    }
  }

  lemma SecondPass(a: Authority)
    requires AuthorityText(a)
    ensures HostLeads(if a.at then UserinfoStart else HostStart, PrintedAuthority(a), AuthorityEnd(a), AuthorityLabels(a))
  {
    hide HostLeads, After, PrintedHost, PrintedUserinfo, UserinfoLabels, HostTextLabels, Marked, HostOk;
    UserinfoLeads(a.at, a.userinfo);
    HostLeadsTo(a.host);
    PortLeads(HostState1(a.host), a.port);
    ThenHost(HostStart, PrintedHost(a.host), HostState1(a.host), HostTextLabels(a.host),
             After(":", a.port), AuthorityEnd(a), Marked(PortPart, a.port));
    ThenHost(if a.at then UserinfoStart else HostStart, PrintedUserinfo(a.at, a.userinfo), HostStart, UserinfoLabels(a.at, a.userinfo),
             PrintedHost(a.host) + After(":", a.port), AuthorityEnd(a), HostTextLabels(a.host) + Marked(PortPart, a.port));
  }

  // ----- the fields

  /** The field of a part is this text, and there is none when the text is empty. */
  ghost predicate Gives(buf: string, f: Fields, part: Part, text: string) {
    if text == "" then part !in f
    else part in f && f[part].off + f[part].len <= |buf| && Text(buf, f[part]) == text
  }

  lemma TextThere(x: string, text: string, y: string)
    ensures (x + text + y)[|x|..|x| + |text|] == text
  {
  }

  /** A part that the first pass finds in one stretch. */
  lemma FirstGives(buf: string, connect: bool, x: string, a: seq<Part>, text: string, y: string, b: seq<Part>, part: Part)
    requires Alive(buf, connect) && part != NoPart && part !in a && part !in b && |x| == |a| && |y| == |b|
    requires buf == x + text + y && Labels(Start(connect), buf) == a + Const(part, |text|) + b
    ensures Gives(buf, FirstFields(buf, connect), part, text)
    ensures text != "" ==> FirstFields(buf, connect)[part] == Slice(|x|, |text|)
  {
    FirstCovers(buf, connect, part);
    hide Alive, FirstFields, Covers;
    var f, l := FirstFields(buf, connect), Labels(Start(connect), buf);
    TextThere(x, text, y);
    if text != "" {
      assert l[|a|] == part;
    }
    if part in f {
      OnlySlice(f[part], a, |text|, b, part, 0);
    }
  }

  /** A part that the second pass finds in one stretch of the host's text. */
  lemma HostGives(buf: string, connect: bool, x: string, a: seq<Part>, text: string, y: string, b: seq<Part>, part: Part)
    requires Alive(buf, connect) && HostAccepted(buf, connect) && HostPart in FirstFields(buf, connect) && InHost(part)
    requires Text(buf, HostSlice(buf, connect)) == x + text + y && part !in a && part !in b && |x| == |a| && |y| == |b|
    requires HostParts(buf, connect) == a + Const(part, |text|) + b
    ensures Gives(buf, FinalFields(buf, connect), part, text)
  {
    FinalCovers(buf, connect, part);
    hide Alive, HostAccepted, FirstFields, FinalFields, Covers, HostParts;
    var g, l, h := FinalFields(buf, connect), HostParts(buf, connect), HostSlice(buf, connect);
    TextThere(x, text, y);
    if text != "" {
      assert l[|a|] == part;
    }
    if part in g {
      OnlySlice(g[part], a, |text|, b, part, h.off);
      TextWithin(buf, h, g[part]);
    }
  }

  lemma TextWithin(buf: string, h: Slice, x: Slice)
    requires h.off <= x.off && x.off + x.len <= h.off + h.len <= |buf|
    ensures Text(buf, x) == Text(buf, h)[x.off - h.off..x.off - h.off + x.len]
  {
    SliceOfSlice(buf, h.off, h.off + h.len, x.off - h.off, x.len);
  }

  /** The parts after the authority. */
  ghost predicate TailGiven(buf: string, f: Fields, t: Tail) {
    Gives(buf, f, PathPart, t.path) && Gives(buf, f, QueryPart, t.query) && Gives(buf, f, FragmentPart, t.fragment)
  }

  /** The parts of the authority. */
  ghost predicate AuthorityGiven(buf: string, f: Fields, a: Authority) {
    Gives(buf, f, UserinfoPart, a.userinfo) && Gives(buf, f, HostPart, HostField(a.host)) && Gives(buf, f, PortPart, a.port)
  }

  function Mark(text: string): seq<Part> { if text == "" then [] else [NoPart] }

  function MarkText(mark: string, text: string): string { if text == "" then "" else mark }

  lemma MarkIs(mark: string, text: string, part: Part)
    ensures After(mark, text) == MarkText(mark, text) + text && Marked(part, text) == Mark(text) + Const(part, |text|)
  {
  }

  predicate InTail(part: Part) { part == PathPart || part == QueryPart || part == FragmentPart }

  lemma TailFields(buf: string, connect: bool, x: string, p: seq<Part>, t: Tail)
    requires Alive(buf, connect) && |x| == |p| && TailOk(t) && forall i :: 0 <= i < |p| ==> !InTail(p[i])
    requires buf == x + PrintedTail(t) && Labels(Start(connect), buf) == p + TailLabels(t)
    ensures TailGiven(buf, FirstFields(buf, connect), t)
  {
    TailIs(t);
    TailMarks(t);
    hide *;
    var qx, q, fx, f := AskText(t.asked), AskLabel(t.asked), Hashes(t.hashes), Const(NoPart, t.hashes);
    var n, m, k := Const(PathPart, |t.path|), Const(QueryPart, |t.query|), Const(FragmentPart, |t.fragment|);
    NotInFront(p);
    ThreeGiven(buf, connect, x, p, t.path, n, qx, q, t.query, m, fx, f, t.fragment, k);
    TailGivenIs(buf, FirstFields(buf, connect), t);
  }

  lemma TailGivenIs(buf: string, f: Fields, t: Tail)
    requires Gives(buf, f, PathPart, t.path) && Gives(buf, f, QueryPart, t.query) && Gives(buf, f, FragmentPart, t.fragment)
    ensures TailGiven(buf, f, t)
  {
  }

  lemma NotInFront(p: seq<Part>)
    requires forall i :: 0 <= i < |p| ==> !InTail(p[i])
    ensures PathPart !in p && QueryPart !in p && FragmentPart !in p
  {
  }

  lemma TailIs(t: Tail)
    requires TailOk(t)
    ensures PrintedTail(t) == t.path + ((AskText(t.asked) + t.query) + (Hashes(t.hashes) + t.fragment))
    ensures TailLabels(t) == Const(PathPart, |t.path|) + ((AskLabel(t.asked) + Const(QueryPart, |t.query|))
                             + (Const(NoPart, t.hashes) + Const(FragmentPart, |t.fragment|)))
  {
    QueryIs(t.asked, t.query);
    hide PrintedQuery, QueryLabels, Hashes, Const;
  }

  /** Nothing but these parts, each in its place. */
  ghost predicate Only(l: seq<Part>, part: Part) { forall i :: 0 <= i < |l| ==> l[i] == part }

  lemma TailMarks(t: Tail)
    ensures Only(Const(PathPart, |t.path|), PathPart) && Only(Const(QueryPart, |t.query|), QueryPart)
    ensures Only(Const(FragmentPart, |t.fragment|), FragmentPart)
    ensures Only(AskLabel(t.asked), NoPart) && Only(Const(NoPart, t.hashes), NoPart)
  {
    hide Const;
  }

  lemma OnlyParts(a: seq<Part>, p: Part, b: seq<Part>, q: Part, part: Part)
    requires Only(a, p) && Only(b, q) && part != p && part != q
    ensures part !in a && part !in b && part !in a + b
  {
  }

  /** Three texts with marks between them, and their labels. */
  lemma ThreeGiven(buf: string, connect: bool, x: string, p: seq<Part>, path: string, n: seq<Part>, qx: string, q: seq<Part>,
                   query: string, m: seq<Part>, fx: string, f: seq<Part>, fragment: string, k: seq<Part>)
    requires Alive(buf, connect) && |x| == |p| && PathPart !in p && QueryPart !in p && FragmentPart !in p
    requires n == Const(PathPart, |path|) && m == Const(QueryPart, |query|) && k == Const(FragmentPart, |fragment|)
    requires |qx| == |q| && |fx| == |f| && Only(q, NoPart) && Only(f, NoPart)
    requires Only(n, PathPart) && Only(m, QueryPart) && Only(k, FragmentPart)
    requires buf == x + (path + ((qx + query) + (fx + fragment)))
    requires Labels(Start(connect), buf) == p + (n + ((q + m) + (f + k)))
    ensures Gives(buf, FirstFields(buf, connect), PathPart, path)
    ensures Gives(buf, FirstFields(buf, connect), QueryPart, query)
    ensures Gives(buf, FirstFields(buf, connect), FragmentPart, fragment)
  {
    hide Alive, FirstFields, Gives, Const, Only, Labels;
    PathGiven(buf, connect, x, p, path, n, (qx + query) + (fx + fragment), (q + m) + (f + k)) by {
      OnlyParts(q, NoPart, m, QueryPart, PathPart);
      OnlyParts(f, NoPart, k, FragmentPart, PathPart);
    }
    QueryGiven(buf, connect, x, p, path, n, qx, q, query, m, fx + fragment, f + k) by {
      OnlyParts(n, PathPart, q, NoPart, QueryPart);
      OnlyParts(f, NoPart, k, FragmentPart, QueryPart);
    }
    FragmentGiven(buf, connect, x, p, path, n, qx + query, q + m, fx, f, fragment, k) by {
      OnlyParts(q, NoPart, m, QueryPart, FragmentPart);
      OnlyParts(n, PathPart, f, NoPart, FragmentPart);
    }
  }

  lemma PathGiven(buf: string, connect: bool, x: string, p: seq<Part>, path: string, n: seq<Part>, y: string, l: seq<Part>)
    requires Alive(buf, connect) && |x| == |p| && |y| == |l| && PathPart !in p && PathPart !in l && n == Const(PathPart, |path|)
    requires buf == x + (path + y) && Labels(Start(connect), buf) == p + (n + l)
    ensures Gives(buf, FirstFields(buf, connect), PathPart, path)
  {
    hide *;
    Flat(x, path, y);
    Flat(p, n, l);
    FirstGives(buf, connect, x, p, path, y, l, PathPart);
  }

  lemma QueryGiven(buf: string, connect: bool, x: string, p: seq<Part>, path: string, n: seq<Part>, qx: string, q: seq<Part>,
                   query: string, m: seq<Part>, y: string, l: seq<Part>)
    requires Alive(buf, connect) && |x| == |p| && |path| == |n| && |qx| == |q| && |y| == |l| && m == Const(QueryPart, |query|)
    requires QueryPart !in p && QueryPart !in n && QueryPart !in q && QueryPart !in l
    requires buf == x + (path + ((qx + query) + y)) && Labels(Start(connect), buf) == p + (n + ((q + m) + l))
    ensures Gives(buf, FirstFields(buf, connect), QueryPart, query)
  {
    hide *;
    Parts(x, path, qx, query, y);
    Parts(p, n, q, m, l);
    FirstGives(buf, connect, x + path + qx, p + n + q, query, y, l, QueryPart);
  }

  lemma FragmentGiven(buf: string, connect: bool, x: string, p: seq<Part>, path: string, n: seq<Part>, y: string, l: seq<Part>,
                      fx: string, f: seq<Part>, fragment: string, k: seq<Part>)
    requires Alive(buf, connect) && |x| == |p| && |path| == |n| && |y| == |l| && |fx| == |f| && k == Const(FragmentPart, |fragment|)
    requires FragmentPart !in p && FragmentPart !in n && FragmentPart !in l && FragmentPart !in f
    requires buf == x + (path + (y + (fx + fragment))) && Labels(Start(connect), buf) == p + (n + (l + (f + k)))
    ensures Gives(buf, FirstFields(buf, connect), FragmentPart, fragment)
  {
    hide *;
    LastPart(x, path, y, fx, fragment);
    LastPart(p, n, l, f, k);
    FirstGives(buf, connect, x + path + y + fx, p + n + l + f, fragment, "", [], FragmentPart);
  }

  lemma Flat<T>(a: seq<T>, b: seq<T>, c: seq<T>)
    ensures a + (b + c) == a + b + c
  {
  }

  function AskText(asked: bool): string { if asked then "?" else "" }

  function AskLabel(asked: bool): (l: seq<Part>)
    ensures |l| == |AskText(asked)| && forall i :: 0 <= i < |l| ==> l[i] == NoPart
  {
    if asked then [NoPart] else []
  }

  lemma QueryIs(asked: bool, text: string)
    requires !asked ==> text == ""
    ensures PrintedQuery(asked, text) == AskText(asked) + text && QueryLabels(asked, text) == AskLabel(asked) + Const(QueryPart, |text|)
  {
  }

  lemma Parts<T>(a: seq<T>, b: seq<T>, c: seq<T>, d: seq<T>, e: seq<T>)
    ensures a + (b + ((c + d) + e)) == (a + b + c) + d + e == a + b + ((c + d) + e)
  {
  }

  lemma LastPart<T>(a: seq<T>, b: seq<T>, c: seq<T>, d: seq<T>, e: seq<T>)
    ensures a + (b + (c + (d + e))) == (a + b + c + d) + e + []
  {
  }

  /** What comes before and behind the authority, in the URL and in the labels. */
  ghost predicate Around(buf: string, connect: bool, x: string, p: seq<Part>, a: Authority, y: string, q: seq<Part>) {
    && |x| == |p| && |y| == |q| && HostPart !in p && HostPart !in q
    && buf == x + PrintedAuthority(a) + y
    && Labels(Start(connect), buf) == p + Const(HostPart, |PrintedAuthority(a)|) + q
  }

  lemma AuthorityFields(buf: string, connect: bool, x: string, p: seq<Part>, a: Authority, y: string, q: seq<Part>)
    requires Alive(buf, connect) && AuthorityText(a) && Around(buf, connect, x, p, a, y, q)
    requires FoundAt(buf, connect) <==> a.at
    ensures HostPart in FirstFields(buf, connect) && HostAccepted(buf, connect)
    ensures AuthorityGiven(buf, FinalFields(buf, connect), a)
  {
    hide Alive, FirstFields, FinalFields, HostAccepted, HostSlice, HostParts, PrintedAuthority, AuthorityText, AuthorityGiven, FoundAt;
    PrintedIsSome(a);
    FirstGives(buf, connect, x, p, PrintedAuthority(a), y, q, HostPart);
    HostSliceIs(buf, connect);
    HostRead(buf, connect, a);
    SecondFieldsAre(buf, connect, a);
  }

  lemma HostSliceIs(buf: string, connect: bool)
    requires Alive(buf, connect) && HostPart in FirstFields(buf, connect)
    ensures HostSlice(buf, connect) == FirstFields(buf, connect)[HostPart]
  {
    hide Alive, FirstFields;
  }

  lemma HostRead(buf: string, connect: bool, a: Authority)
    requires Alive(buf, connect) && HostPart in FirstFields(buf, connect) && AuthorityText(a)
    requires Text(buf, HostSlice(buf, connect)) == PrintedAuthority(a)
    requires FoundAt(buf, connect) <==> a.at
    ensures HostAccepted(buf, connect) && HostParts(buf, connect) == AuthorityLabels(a)
  {
    HostSliceIs(buf, connect);
    hide Alive, FirstFields, FoundAt, PrintedAuthority, AuthorityText, AuthorityLabels, AuthorityEnd, HostEnds;
    SecondPass(a);
    SecondEnds(a);
  }

  lemma PrintedIsSome(a: Authority)
    requires AuthorityText(a)
    ensures PrintedAuthority(a) != ""
  {
    hide After;
  }

  lemma SecondEnds(a: Authority)
    ensures HostEnds(AuthorityEnd(a))
  {
  }

  lemma SecondFieldsAre(buf: string, connect: bool, a: Authority)
    requires Alive(buf, connect) && HostPart in FirstFields(buf, connect) && HostAccepted(buf, connect)
    requires AuthorityText(a) && Text(buf, HostSlice(buf, connect)) == PrintedAuthority(a)
    requires HostParts(buf, connect) == AuthorityLabels(a)
    ensures AuthorityGiven(buf, FinalFields(buf, connect), a)
  {
    NoSignNoUserinfo(a);
    hide *;
    UserinfoGiven(buf, connect, a);
    HostGiven(buf, connect, a);
    PortGiven(buf, connect, a);
    AllGiven(buf, FinalFields(buf, connect), a);
  }

  lemma NoSignNoUserinfo(a: Authority)
    requires AuthorityText(a)
    ensures !a.at ==> a.userinfo == ""
  {
  }

  lemma AllGiven(buf: string, f: Fields, a: Authority)
    requires Gives(buf, f, UserinfoPart, a.userinfo) && Gives(buf, f, HostPart, HostField(a.host)) && Gives(buf, f, PortPart, a.port)
    ensures AuthorityGiven(buf, f, a)
  {
  }

  lemma UserinfoGiven(buf: string, connect: bool, a: Authority)
    requires Alive(buf, connect) && HostPart in FirstFields(buf, connect) && HostAccepted(buf, connect)
    requires Text(buf, HostSlice(buf, connect)) == PrintedAuthority(a) && HostParts(buf, connect) == AuthorityLabels(a)
    requires !a.at ==> a.userinfo == ""
    ensures Gives(buf, FinalFields(buf, connect), UserinfoPart, a.userinfo)
  {
    hide Alive, FirstFields, FinalFields, HostAccepted, HostParts, Gives, HostSlice, Const;
    hide PrintedUserinfo, UserinfoLabels, PrintedHost, HostTextLabels, After, Marked, HostField;
    UserinfoParts(a.at, a.userinfo);
    NotUserinfo(a);
    var y, l := PrintedHost(a.host) + After(":", a.port), HostTextLabels(a.host) + Marked(PortPart, a.port);
    First(a.userinfo, AtSign(a.at), y);
    First(Const(UserinfoPart, |a.userinfo|), AtLabel(a.at), l);
    HostLength(a.host);
    MarkIs(":", a.port, PortPart);
    HostGives(buf, connect, "", [], a.userinfo, AtSign(a.at) + y, AtLabel(a.at) + l, UserinfoPart);
  }

  lemma HostGiven(buf: string, connect: bool, a: Authority)
    requires Alive(buf, connect) && HostPart in FirstFields(buf, connect) && HostAccepted(buf, connect)
    requires Text(buf, HostSlice(buf, connect)) == PrintedAuthority(a) && HostParts(buf, connect) == AuthorityLabels(a)
    requires !a.at ==> a.userinfo == ""
    ensures Gives(buf, FinalFields(buf, connect), HostPart, HostField(a.host))
  {
    hide Alive, FirstFields, FinalFields, HostAccepted, HostParts, Gives, HostSlice, Const;
    hide PrintedUserinfo, UserinfoLabels, PrintedHost, HostTextLabels, After, Marked, HostField;
    HostTextParts(a.host);
    UserinfoParts(a.at, a.userinfo);
    MarkIs(":", a.port, PortPart);
    NotHost(a);
    var u, c := PrintedUserinfo(a.at, a.userinfo), After(":", a.port);
    var ul, cl := UserinfoLabels(a.at, a.userinfo), Marked(PortPart, a.port);
    Middle(u, Opened(a.host), HostField(a.host), Closed(a.host), c);
    Middle(ul, Bracket(a.host), Const(HostPart, |HostField(a.host)|), Bracket(a.host), cl);
    HostGives(buf, connect, u + Opened(a.host), ul + Bracket(a.host), HostField(a.host), Closed(a.host) + c, Bracket(a.host) + cl, HostPart);
  }

  lemma PortGiven(buf: string, connect: bool, a: Authority)
    requires Alive(buf, connect) && HostPart in FirstFields(buf, connect) && HostAccepted(buf, connect)
    requires Text(buf, HostSlice(buf, connect)) == PrintedAuthority(a) && HostParts(buf, connect) == AuthorityLabels(a)
    requires !a.at ==> a.userinfo == ""
    ensures Gives(buf, FinalFields(buf, connect), PortPart, a.port)
  {
    hide Alive, FirstFields, FinalFields, HostAccepted, HostParts, Gives, HostSlice, Const;
    hide PrintedUserinfo, UserinfoLabels, PrintedHost, HostTextLabels, After, Marked, HostField;
    HostLength(a.host);
    UserinfoParts(a.at, a.userinfo);
    MarkIs(":", a.port, PortPart);
    NotPort(a);
    var u, h, c := PrintedUserinfo(a.at, a.userinfo), PrintedHost(a.host), MarkText(":", a.port);
    var ul, hl, cl := UserinfoLabels(a.at, a.userinfo), HostTextLabels(a.host), Mark(a.port);
    Last(u, h, c, a.port);
    Last(ul, hl, cl, Const(PortPart, |a.port|));
    HostGives(buf, connect, u + h + c, ul + hl + cl, a.port, "", [], PortPart);
  }

  lemma HostLength(h: Host)
    ensures |PrintedHost(h)| == |HostTextLabels(h)|
  {
    HostTextParts(h);
    hide PrintedHost, HostTextLabels, HostField;
  }

  lemma NotUserinfo(a: Authority)
    ensures UserinfoPart !in AtLabel(a.at) + (HostTextLabels(a.host) + Marked(PortPart, a.port))
  {
    hide HostField;
  }

  lemma NotHost(a: Authority)
    ensures HostPart !in UserinfoLabels(a.at, a.userinfo) + Bracket(a.host) && HostPart !in Bracket(a.host) + Marked(PortPart, a.port)
  {
  }

  lemma NotPort(a: Authority)
    ensures PortPart !in UserinfoLabels(a.at, a.userinfo) + HostTextLabels(a.host) + Mark(a.port)
  {
    hide HostField;
  }

  lemma First<T>(a: seq<T>, b: seq<T>, c: seq<T>)
    ensures (a + b) + c == [] + a + (b + c)
  {
  }

  lemma Last<T>(a: seq<T>, b: seq<T>, c: seq<T>, d: seq<T>)
    ensures a + (b + (c + d)) == (a + b + c) + d + []
  {
  }

  function Opened(h: Host): string { if h.Name? then "" else "[" }

  function Closed(h: Host): string { if h.Name? then "" else "]" }

  function Bracket(h: Host): (l: seq<Part>)
    ensures |l| == |Opened(h)| == |Closed(h)|
  {
    if h.Name? then [] else [NoPart]
  }

  lemma Middle<T>(a: seq<T>, b: seq<T>, c: seq<T>, d: seq<T>, e: seq<T>)
    ensures a + ((b + c + d) + e) == (a + b) + c + (d + e)
  {
  }

  lemma UserinfoParts(at: bool, text: string)
    requires !at ==> text == ""
    ensures PrintedUserinfo(at, text) == text + AtSign(at)
    ensures UserinfoLabels(at, text) == Const(UserinfoPart, |text|) + AtLabel(at)
  {
  }

  function AtSign(at: bool): string { if at then "@" else "" }

  function AtLabel(at: bool): (l: seq<Part>)
    ensures |l| == |AtSign(at)|
  {
    if at then [NoPart] else []
  }

  lemma HostTextParts(h: Host)
    ensures PrintedHost(h) == Opened(h) + HostField(h) + Closed(h)
    ensures HostTextLabels(h) == Bracket(h) + Const(HostPart, |HostField(h)|) + Bracket(h)
  {
  }

  // ----- the three kinds of URL

  predicate SchemaOk(s: string) { s != "" && forall i :: 0 <= i < |s| ==> IsAlpha(s[i]) }

  /** A URL with an authority. */
  function Printed(schema: string, a: Authority, t: Tail): string {
    (schema + "://") + PrintedAuthority(a) + PrintedTail(t)
  }

  function SchemaLabels(schema: string): seq<Part> { Const(SchemaPart, |schema|) + [NoPart, NoPart, NoPart] }

  lemma SchemaLeads(schema: string)
    requires SchemaOk(schema)
    ensures Leads(SpacesBefore, schema + "://", ServerStart, SchemaLabels(schema), false)
  {
    hide Leads;
    LeadsSame(SpacesBefore, schema, Schema);
    LeadsOne(Schema, ':');
    LeadsOne(SchemaSlash, '/');
    LeadsOne(SchemaSlashSlash, '/');
    assert ":" + "/" == ":/" && ":/" + "/" == "://";
    assert [NoPart] + [NoPart] == [NoPart, NoPart] && [NoPart, NoPart] + [NoPart] == [NoPart, NoPart, NoPart];
    Then(Schema, ":", SchemaSlash, [NoPart], false, "/", SchemaSlashSlash, [NoPart], false);
    Then(Schema, ":/", SchemaSlashSlash, [NoPart, NoPart], false, "/", ServerStart, [NoPart], false);
    Then(SpacesBefore, schema, Schema, Const(SchemaPart, |schema|), false, "://", ServerStart, [NoPart, NoPart, NoPart], false);
  }

  lemma PrintedLeads(schema: string, a: Authority, t: Tail)
    requires SchemaOk(schema) && AuthorityText(a) && TailOk(t) && (t.path != "" ==> t.path[0] == '/')
    ensures Leads(SpacesBefore, Printed(schema, a, t), TailState(Server, t),
                  SchemaLabels(schema) + Const(HostPart, |PrintedAuthority(a)|) + TailLabels(t), a.at)
  {
    hide Leads, SchemaOk, AuthorityText, TailOk, PrintedAuthority, PrintedTail, SchemaLabels, TailLabels, Const, TailState;
    SchemaLeads(schema);
    AuthorityLeads(a);
    TailLeads(Server, t);
    Then(SpacesBefore, schema + "://", ServerStart, SchemaLabels(schema), false,
         PrintedAuthority(a), Server, Const(HostPart, |PrintedAuthority(a)|), a.at);
    Then(SpacesBefore, schema + "://" + PrintedAuthority(a), Server, SchemaLabels(schema) + Const(HostPart, |PrintedAuthority(a)|), a.at,
         PrintedTail(t), TailState(Server, t), TailLabels(t), false);
  }

  /** What a run tells about acceptance. */
  lemma LedAlive(buf: string, connect: bool, t: State, l: seq<Part>, at: bool)
    requires Leads(Start(connect), buf, t, l, at) && t != Dead
    ensures Alive(buf, connect) && (FoundAt(buf, connect) <==> at) && Labels(Start(connect), buf) == l && |l| == |buf|
  {
    hide Run, FoundBy;
  }

  lemma TailStateLives(s: State, t: Tail)
    ensures s != Dead ==> TailState(s, t) != Dead
  {
  }

  /** The fields of the first pass that are none of the host's are final. */
  lemma KeptGives(buf: string, connect: bool, part: Part, text: string)
    requires Alive(buf, connect) && HostAccepted(buf, connect) && part != NoPart && !InHost(part)
    requires Gives(buf, FirstFields(buf, connect), part, text)
    ensures Gives(buf, FinalFields(buf, connect), part, text)
  {
    FinalCovers(buf, connect, part);
    hide Alive, HostAccepted, FirstFields, FinalFields;
  }

  lemma KeptTail(buf: string, connect: bool, t: Tail)
    requires Alive(buf, connect) && HostAccepted(buf, connect) && TailGiven(buf, FirstFields(buf, connect), t)
    ensures TailGiven(buf, FinalFields(buf, connect), t)
  {
    hide Alive, HostAccepted, FirstFields, FinalFields, Gives;
    KeptGives(buf, connect, PathPart, t.path);
    KeptGives(buf, connect, QueryPart, t.query);
    KeptGives(buf, connect, FragmentPart, t.fragment);
  }

  /** The port is the number that was printed. */
  lemma PortIsNumeric(buf: string, f: Fields, a: Authority)
    requires AuthorityOk(a) && AuthorityGiven(buf, f, a) && PortPart in f
    ensures Numeric(buf, f[PortPart]) && Decimal(Text(buf, f[PortPart])) == Decimal(a.port) <= 0xFFFF
  {
    hide Decimal, HostOk, HostField;
    var x := f[PortPart];
    forall i | x.off <= i < x.off + x.len ensures IsNum(buf[i]) {
      assert buf[i] == Text(buf, x)[i - x.off];
    }
  }

  /** A URL printed from its components is accepted, and its fields are those components. */
  lemma PrintedParsed(schema: string, a: Authority, t: Tail)
    requires SchemaOk(schema) && AuthorityOk(a) && TailOk(t) && (t.path != "" ==> t.path[0] == '/')
    ensures var buf := Printed(schema, a, t);
            && Accepts(buf, false)
            && Gives(buf, FinalFields(buf, false), SchemaPart, schema)
            && AuthorityGiven(buf, FinalFields(buf, false), a) && TailGiven(buf, FinalFields(buf, false), t)
  {
    assert AuthorityText(a);
    hide *;
    var buf := Printed(schema, a, t);
    PrintedLeads(schema, a, t);
    WholeFields(buf, schema, a, t);
  }

  lemma WholeFields(buf: string, schema: string, a: Authority, t: Tail)
    requires SchemaOk(schema) && AuthorityOk(a) && TailOk(t) && buf == Printed(schema, a, t)
    requires Leads(SpacesBefore, buf, TailState(Server, t), SchemaLabels(schema) + Const(HostPart, |PrintedAuthority(a)|) + TailLabels(t), a.at)
    ensures Accepts(buf, false)
    ensures Gives(buf, FinalFields(buf, false), SchemaPart, schema)
    ensures AuthorityGiven(buf, FinalFields(buf, false), a) && TailGiven(buf, FinalFields(buf, false), t)
  {
    hide Leads, SchemaOk, AuthorityText, TailOk, TailState, FirstFields, FinalFields, Alive, HostAccepted, FoundAt, AuthorityGiven, TailGiven, Gives, PrintedAuthority, PrintedTail, SchemaLabels, TailLabels;
    TailStateLives(Server, t);
    LedAlive(buf, false, TailState(Server, t), SchemaLabels(schema) + Const(HostPart, |PrintedAuthority(a)|) + TailLabels(t), a.at);
    LabelsApart(schema, t);
    var h := Const(HostPart, |PrintedAuthority(a)|);
    AuthorityFields(buf, false, schema + "://", SchemaLabels(schema), a, PrintedTail(t), TailLabels(t));
    TailFields(buf, false, schema + "://" + PrintedAuthority(a), SchemaLabels(schema) + h, t);
    KeptTail(buf, false, t);
    SchemaGiven(buf, schema, PrintedAuthority(a) + PrintedTail(t), h + TailLabels(t));
    KeptGives(buf, false, SchemaPart, schema);
    if PortPart in FinalFields(buf, false) {
      PortIsNumeric(buf, FinalFields(buf, false), a);
    }
  }

  lemma LabelsApart(schema: string, t: Tail)
    ensures |SchemaLabels(schema)| == |schema| + 3 && |TailLabels(t)| == |PrintedTail(t)|
    ensures HostPart !in SchemaLabels(schema) && HostPart !in TailLabels(t) && SchemaPart !in TailLabels(t)
    ensures forall i :: 0 <= i < |schema| + 3 ==> !InTail(SchemaLabels(schema)[i])
  {
  }

  lemma SchemaGiven(buf: string, schema: string, y: string, l: seq<Part>)
    requires Alive(buf, false) && buf == (schema + "://") + y && |l| == |y| && SchemaPart !in l
    requires Labels(SpacesBefore, buf) == SchemaLabels(schema) + l
    ensures Gives(buf, FirstFields(buf, false), SchemaPart, schema)
  {
    hide Alive, FirstFields, Gives;
    assert buf == "" + schema + ("://" + y);
    assert SchemaLabels(schema) + l == [] + Const(SchemaPart, |schema|) + ([NoPart, NoPart, NoPart] + l);
    FirstGives(buf, false, "", [], schema, "://" + y, [NoPart, NoPart, NoPart] + l, SchemaPart);
  }

  /** Nothing but delimiters behind an authority. */
  predicate Bare(y: Tail) { TailOk(y) && y.path == "" && y.query == "" && y.fragment == "" }

  /** The target of a CONNECT request is a host and a port; a question mark and hashes behind
      them do not matter. */
  lemma TargetParsed(a: Authority, y: Tail)
    requires AuthorityOk(a) && a.userinfo == "" && a.port != "" && Bare(y)
    ensures var buf := PrintedAuthority(a) + PrintedTail(y);
            Accepts(buf, true) && AuthorityGiven(buf, FinalFields(buf, true), a) && FinalFields(buf, true).Keys == {HostPart, PortPart}
  {
    var buf := PrintedAuthority(a) + PrintedTail(y);
    TargetLeads(PrintedAuthority(a), y, Server, a.at) by {
      AuthorityLeads(a);
    }
    TargetFields(buf, a, y);
  }

  lemma TargetLeads(x: string, y: Tail, u: State, at: bool)
    requires TailOk(y) && PathBegins(u, y) && Leads(ServerStart, x, u, Const(HostPart, |x|), at)
    ensures Leads(ServerStart, x + PrintedTail(y), TailState(u, y), Const(HostPart, |x|) + TailLabels(y), at)
  {
    hide Leads, TailOk, PrintedTail, TailLabels, Const, TailState;
    TailLeads(u, y);
    Then(ServerStart, x, u, Const(HostPart, |x|), at, PrintedTail(y), TailState(u, y), TailLabels(y), false);
  }

  lemma TargetFields(buf: string, a: Authority, y: Tail)
    requires AuthorityOk(a) && a.userinfo == "" && a.port != "" && Bare(y) && buf == PrintedAuthority(a) + PrintedTail(y)
    requires Leads(ServerStart, buf, TailState(Server, y), Const(HostPart, |PrintedAuthority(a)|) + TailLabels(y), a.at)
    ensures Accepts(buf, true) && AuthorityGiven(buf, FinalFields(buf, true), a) && FinalFields(buf, true).Keys == {HostPart, PortPart}
  {
    TailStateLives(Server, y);
    BareLabels(y);
    hide Leads, AuthorityText, FirstFields, FinalFields, Alive, HostAccepted, FoundAt, PrintedAuthority, PrintedTail, TailLabels, TailState, AuthorityGiven;
    var h := Const(HostPart, |PrintedAuthority(a)|);
    LedAlive(buf, true, TailState(Server, y), h + TailLabels(y), a.at);
    PrintedIsSome(a);
    assert buf == "" + PrintedAuthority(a) + PrintedTail(y) && h + TailLabels(y) == [] + h + TailLabels(y);
    AuthorityFields(buf, true, "", [], a, PrintedTail(y), TailLabels(y));
    OnlyHost(buf, a, h + TailLabels(y));
    PortIsNumeric(buf, FinalFields(buf, true), a);
  }

  lemma BareLabels(y: Tail)
    requires Bare(y)
    ensures |TailLabels(y)| == |PrintedTail(y)| && forall i :: 0 <= i < |TailLabels(y)| ==> TailLabels(y)[i] == NoPart
  {
  }

  lemma OnlyHost(buf: string, a: Authority, l: seq<Part>)
    requires Alive(buf, true) && HostAccepted(buf, true) && AuthorityGiven(buf, FinalFields(buf, true), a)
    requires HostField(a.host) != "" && a.userinfo == "" && a.port != ""
    requires Labels(ServerStart, buf) == l && forall i :: 0 <= i < |l| ==> l[i] == HostPart || l[i] == NoPart
    ensures FinalFields(buf, true).Keys == {HostPart, PortPart} && SchemaPart !in FirstFields(buf, true)
  {
    NoPartHere(buf, true);
    hide FirstFields, FinalFields, Alive, HostAccepted;
    forall part | part == SchemaPart || part == PathPart || part == QueryPart || part == FragmentPart
      ensures part !in FinalFields(buf, true) && part !in FirstFields(buf, true)
    {
      FirstCovers(buf, true, part);
      FinalCovers(buf, true, part);
    }
    forall part ensures part in FinalFields(buf, true) <==> part == HostPart || part == PortPart {
      assert part.SchemaPart? || part.PathPart? || part.QueryPart? || part.FragmentPart? || part.UserinfoPart? || part.HostPart? || part.PortPart? || part.NoPart?;
    }
  }

  /** A request target that begins with its path has no host. */
  lemma PathParsed(t: Tail)
    requires TailOk(t) && t.path != "" && (t.path[0] == '/' || t.path[0] == '*')
    ensures var buf := PrintedTail(t);
            && Accepts(buf, false) && TailGiven(buf, FinalFields(buf, false), t)
            && forall part :: part in FinalFields(buf, false) ==> InTail(part)
  {
    var buf := PrintedTail(t);
    TailLeads(SpacesBefore, t);
    PathFields(buf, t);
  }

  lemma PathFields(buf: string, t: Tail)
    requires t.path != "" && TailOk(t) && buf == PrintedTail(t) && Leads(SpacesBefore, buf, TailState(SpacesBefore, t), TailLabels(t), false)
    ensures Accepts(buf, false) && TailGiven(buf, FinalFields(buf, false), t)
    ensures forall part :: part in FinalFields(buf, false) ==> InTail(part)
  {
    hide Leads, TailOk, TailState, FirstFields, FinalFields, Alive, FoundAt, TailGiven, PrintedTail, TailLabels;
    TailStateLives(SpacesBefore, t);
    LedAlive(buf, false, TailState(SpacesBefore, t), TailLabels(t), false);
    NoHost(buf, t);
    assert buf == "" + PrintedTail(t) && TailLabels(t) == [] + TailLabels(t);
    TailFields(buf, false, "", [], t);
    KeptTail(buf, false, t);
    PathIsSome(t);
  }

  lemma PathIsSome(t: Tail)
    ensures t.path != "" ==> PrintedTail(t) != ""
  {
  }

  lemma NoHost(buf: string, t: Tail)
    requires Alive(buf, false) && Labels(SpacesBefore, buf) == TailLabels(t)
    ensures HostAccepted(buf, false) && SchemaPart !in FirstFields(buf, false) && HostPart !in FirstFields(buf, false)
    ensures forall part :: part in FinalFields(buf, false) ==> InTail(part)
  {
    LabelsApart("", t);
    FirstCovers(buf, false, HostPart);
    FirstCovers(buf, false, SchemaPart);
    assert SchemaPart !in TailLabels(t);
    NoPartHere(buf, false);
    hide FirstFields, FinalFields, Alive, TailLabels;
    forall part | part in FinalFields(buf, false) ensures InTail(part) {
      FinalCovers(buf, false, part);
    }
  }

  /** A fragment straight after the authority, which RFC 3986 allows, is not taken. */
  lemma FragmentAlone(schema: string, a: Authority, fragment: string)
    requires SchemaOk(schema) && AuthorityText(a) && fragment != ""
    ensures !Accepts(Printed(schema, a, Tail("", false, "", 1, fragment)), false)
  {
    hide Leads, SchemaOk, AuthorityText, PrintedAuthority, SchemaLabels, Const, Run, FoundBy;
    var buf := Printed(schema, a, Tail("", false, "", 1, fragment));
    var x := schema + "://" + PrintedAuthority(a);
    SchemaLeads(schema);
    AuthorityLeads(a);
    Then(SpacesBefore, schema + "://", ServerStart, SchemaLabels(schema), false,
         PrintedAuthority(a), Server, Const(HostPart, |PrintedAuthority(a)|), a.at);
    LeadsOne(Server, '#');
    Then(SpacesBefore, x, Server, SchemaLabels(schema) + Const(HostPart, |PrintedAuthority(a)|), a.at, "#", Dead, [NoPart], false);
    assert buf == (x + "#") + fragment;
    Dies(x + "#", fragment, SchemaLabels(schema) + Const(HostPart, |PrintedAuthority(a)|) + [NoPart], a.at);
  }

  lemma Dies(x: string, y: string, l: seq<Part>, at: bool)
    requires Leads(SpacesBefore, x, Dead, l, at)
    ensures !Alive(x + y, false)
  {
    RunAppend(SpacesBefore, x, y, |x|);
    if Alive(x + y, false) {
      RunGrows(SpacesBefore, x + y, |x|, |x + y|);
    }
  }

  /** A CONNECT target without a port, or with userinfo, is refused. */
  lemma TargetRefused(a: Authority)
    requires AuthorityText(a) && (a.userinfo != "" || a.port == "")
    ensures !Accepts(PrintedAuthority(a), true)
  {
    AuthorityLeads(a);
    RefusedFields(PrintedAuthority(a), a);
  }

  lemma RefusedFields(buf: string, a: Authority)
    requires AuthorityText(a) && (a.userinfo != "" || a.port == "") && buf == PrintedAuthority(a)
    requires Leads(ServerStart, buf, Server, Const(HostPart, |buf|), a.at)
    ensures !Accepts(buf, true)
  {
    hide Leads, AuthorityText, FirstFields, FinalFields, Alive, HostAccepted, FoundAt, PrintedAuthority;
    LedAlive(buf, true, Server, Const(HostPart, |buf|), a.at);
    assert buf == "" + buf + "" && Const(HostPart, |buf|) == [] + Const(HostPart, |buf|) + [];
    AuthorityFields(buf, true, "", [], a, "", []);
    WrongKeys(FinalFields(buf, true), buf, a);
  }

  lemma WrongKeys(f: Fields, buf: string, a: Authority)
    requires AuthorityGiven(buf, f, a) && (a.userinfo != "" || a.port == "")
    ensures f.Keys != {HostPart, PortPart}
  {
    assert UserinfoPart !in {HostPart, PortPart} && PortPart in {HostPart, PortPart};
  }
}
