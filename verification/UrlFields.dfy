/** What is true of the fields of every URL that is accepted (RFC 3986, section 3). */
module UrlFields {
  import opened UrlSpec

  /** The order of the parts in a URL. */
  function Order(part: Part): nat {
    match part
    case SchemaPart => 0
    case UserinfoPart => 1
    case HostPart => 2
    case PortPart => 3
    case PathPart => 4
    case QueryPart => 5
    case FragmentPart => 6
    case NoPart => 7
  }

  /** The characters that a part may hold. */
  predicate PartChar(part: Part, c: char) {
    match part
    case SchemaPart => IsAlpha(c)
    case UserinfoPart => IsUserinfoChar(c)
    case HostPart => IsHostChar(c) || c == ':' || IsZoneChar(c)
    case PortPart => IsNum(c)
    case PathPart => IsUrlChar(c)
    case QueryPart => IsUrlChar(c) || c == '?'
    case FragmentPart => IsUrlChar(c) || c == '?' || c == '#'
    case NoPart => false
  }

  predicate Delimiter(c: char) { c == ':' || c == '/' || c == '?' || c == '#' || c == '@' || c == '[' || c == ']' }

  predicate Within(i: nat, x: Slice) { x.off <= i < x.off + x.len }

  /** A field is a non-empty slice of the URL that holds what its part may hold. */
  ghost predicate FieldOk(buf: string, part: Part, x: Slice) {
    0 < x.len && x.off + x.len <= |buf| && forall i :: x.off <= i < x.off + x.len ==> PartChar(part, buf[i])
  }

  // ----- ranks of labelled characters

  function PartRank(part: Part): nat {
    match part
    case SchemaPart => 1
    case HostPart => 5
    case PathPart => 6
    case QueryPart => 8
    case FragmentPart => 10
    case _ => 0
  }

  function HostPartRank(part: Part): nat {
    match part
    case UserinfoPart => 1
    case HostPart => 4
    case PortPart => 7
    case _ => 0
  }

  lemma RankOfLabel(s: State)
    ensures Label(s) != NoPart ==> Rank(s) == PartRank(Label(s))
  {
  }

  lemma RankOfHostLabel(s: HostState)
    ensures HostLabel(s) != NoPart ==> HostRank(s) == HostPartRank(HostLabel(s))
  {
  }

  /** Labels come in the order of their ranks. */
  lemma LabelsAscend(s: State, buf: string, i: nat, k: nat)
    requires Run(s, buf, |buf|) != Dead && i <= k < |buf| && Labels(s, buf)[i] != NoPart && Labels(s, buf)[k] != NoPart
    ensures PartRank(Labels(s, buf)[i]) <= PartRank(Labels(s, buf)[k])
  {
    hide Run, Rank, Label, PartRank;
    RunGrows(s, buf, k + 1, |buf|);
    RunGrows(s, buf, i + 1, k + 1);
    RankOfLabel(Run(s, buf, i + 1));
    RankOfLabel(Run(s, buf, k + 1));
  }

  lemma HostLabelsAscend(s: HostState, buf: string, i: nat, k: nat)
    requires RunHost(s, buf, |buf|) != HostDead && i <= k < |buf| && HostLabels(s, buf)[i] != NoPart && HostLabels(s, buf)[k] != NoPart
    ensures HostPartRank(HostLabels(s, buf)[i]) <= HostPartRank(HostLabels(s, buf)[k])
  {
    hide RunHost, HostRank, HostLabel, HostPartRank;
    RunHostGrows(s, buf, k + 1, |buf|);
    RunHostGrows(s, buf, i + 1, k + 1);
    RankOfHostLabel(RunHost(s, buf, i + 1));
    RankOfHostLabel(RunHost(s, buf, k + 1));
  }

  // ----- slices in order

  lemma FirstInOrder(buf: string, connect: bool, p: Part, q: Part)
    requires Alive(buf, connect) && p != NoPart && q != NoPart && PartRank(p) < PartRank(q)
    requires p in FirstFields(buf, connect) && q in FirstFields(buf, connect)
    ensures var f := FirstFields(buf, connect);
            f[p].off + f[p].len <= f[q].off
  {
    FirstCovers(buf, connect, p);
    FirstCovers(buf, connect, q);
    hide Run, FirstFields, Labels, PartRank;
    var f, l := FirstFields(buf, connect), Labels(Start(connect), buf);
    var a, b := f[p].off + f[p].len - 1, f[q].off;
    assert l[a] == p && l[b] == q;
    if b <= a { LabelsAscend(Start(connect), buf, b, a); }
  }

  lemma HostInOrder(buf: string, connect: bool, p: Part, q: Part)
    requires Alive(buf, connect) && HostAccepted(buf, connect) && InHost(p) && InHost(q) && HostPartRank(p) < HostPartRank(q)
    requires p in FinalFields(buf, connect) && q in FinalFields(buf, connect)
    ensures var g := FinalFields(buf, connect);
            g[p].off + g[p].len <= g[q].off
  {
    FinalCovers(buf, connect, p);
    FinalCovers(buf, connect, q);
    HostStaysAlive(buf, connect);
    hide Run, RunHost, FirstFields, FinalFields, HostLabels, HostPartRank, HostBegin;
    var g, l, off := FinalFields(buf, connect), HostParts(buf, connect), HostSlice(buf, connect).off;
    var a, b := g[p].off + g[p].len - 1 - off, g[q].off - off;
    assert l[a] == p && l[b] == q;
    if b <= a { HostLabelsAscend(HostBegin(buf, connect), Text(buf, HostSlice(buf, connect)), b, a); }
  }

  lemma HostStaysAlive(buf: string, connect: bool)
    requires Alive(buf, connect) && HostAccepted(buf, connect) && HostPart in FirstFields(buf, connect)
    ensures var text := Text(buf, HostSlice(buf, connect));
            RunHost(HostBegin(buf, connect), text, |text|) != HostDead
  {
  }

  /** Where a part lies in the first pass. */
  function Home(part: Part): Part { if InHost(part) then HostPart else part }

  lemma HomeHolds(buf: string, connect: bool, p: Part)
    requires Alive(buf, connect) && HostAccepted(buf, connect) && p != NoPart && p in FinalFields(buf, connect)
    ensures var f, g := FirstFields(buf, connect), FinalFields(buf, connect);
            Home(p) in f && f[Home(p)].off <= g[p].off && g[p].off + g[p].len <= f[Home(p)].off + f[Home(p)].len && g[p].len > 0
  {
    FinalCovers(buf, connect, p);
    FirstCovers(buf, connect, Home(p));
  }

  /** The fields are disjoint and in the order of a URL. */
  lemma FieldsInOrder(buf: string, connect: bool, p: Part, q: Part)
    requires Accepts(buf, connect) && p != NoPart && q != NoPart && Order(p) < Order(q)
    requires p in FinalFields(buf, connect) && q in FinalFields(buf, connect)
    ensures var g := FinalFields(buf, connect);
            g[p].off + g[p].len <= g[q].off
  {
    hide FinalFields, FirstFields, HostAccepted, Alive;
    HomeHolds(buf, connect, p);
    HomeHolds(buf, connect, q);
    if Home(p) != Home(q) {
      FirstInOrder(buf, connect, Home(p), Home(q));
    } else {
      HostInOrder(buf, connect, p, q);
    }
  }

  // ----- what the fields hold

  lemma LabelledChar(s: State, ch: char)
    ensures var t := UrlChar(s, ch);
            Label(t) != NoPart && Label(t) != HostPart ==> PartChar(Label(t), ch)
    ensures var t := UrlChar(s, ch);
            t != Dead && Label(t) == NoPart ==> Delimiter(ch)
  {
  }

  lemma LabelledHostChar(s: HostState, ch: char)
    ensures var t := HostChar(s, ch);
            HostLabel(t) != NoPart ==> PartChar(HostLabel(t), ch)
    ensures var t := HostChar(s, ch);
            t != HostDead && HostLabel(t) == NoPart ==> Delimiter(ch)
  {
  }

  lemma NoPartHere(buf: string, connect: bool)
    requires Alive(buf, connect)
    ensures NoPart !in FinalFields(buf, connect)
  {
    hide Run, RunHost, FoundAt, Labels, HostLabels;
    CollectNoPart(map[], Labels(Start(connect), buf), 0, |buf|);
    var f := FirstFields(buf, connect);
    if HostPart in f {
      FirstCovers(buf, connect, HostPart);
      var text := Text(buf, f[HostPart]);
      CollectNoPart(f - {HostPart}, HostLabels(HostBegin(buf, connect), text), f[HostPart].off, |text|);
    }
  }

  lemma {:induction false} CollectNoPart(f: Fields, labels: seq<Part>, off: nat, n: nat)
    requires n <= |labels| && NoPart !in f
    ensures NoPart !in Collect(f, labels, off, n)
  {
    if n > 0 { CollectNoPart(f, labels, off, n - 1); }
  }

  lemma UrlFieldOk(buf: string, connect: bool, p: Part)
    requires Alive(buf, connect) && !InHost(p) && p != NoPart && p in FirstFields(buf, connect)
    ensures FieldOk(buf, p, FirstFields(buf, connect)[p])
  {
    FirstCovers(buf, connect, p);
    hide FirstFields, Label, PartChar, UrlChar;
    var x, l := FirstFields(buf, connect)[p], Labels(Start(connect), buf);
    forall i | x.off <= i < x.off + x.len ensures PartChar(p, buf[i]) {
      assert l[i] == p;
      LabelledChar(Run(Start(connect), buf, i), buf[i]);
    }
  }

  lemma HostFieldOk(buf: string, connect: bool, p: Part)
    requires Alive(buf, connect) && HostAccepted(buf, connect) && InHost(p) && p in FinalFields(buf, connect)
    ensures FieldOk(buf, p, FinalFields(buf, connect)[p])
  {
    FinalCovers(buf, connect, p);
    hide FirstFields, FinalFields, HostLabel, PartChar, HostChar, Run, HostBegin;
    var x, l, h := FinalFields(buf, connect)[p], HostParts(buf, connect), HostSlice(buf, connect);
    var text := Text(buf, h);
    forall i | x.off <= i < x.off + x.len ensures PartChar(p, buf[i]) {
      var k := i - h.off;
      assert l[k] == p && text[k] == buf[i];
      LabelledHostChar(RunHost(HostBegin(buf, connect), text, k), text[k]);
    }
  }

  /** Every field of an accepted URL is a non-empty slice of its proper characters. */
  lemma FieldsOk(buf: string, connect: bool, p: Part)
    requires Accepts(buf, connect) && p in FinalFields(buf, connect)
    ensures p != NoPart && FieldOk(buf, p, FinalFields(buf, connect)[p])
  {
    NoPartHere(buf, connect);
    if InHost(p) {
      HostFieldOk(buf, connect, p);
    } else {
      FinalCovers(buf, connect, p);
      UrlFieldOk(buf, connect, p);
    }
  }

  /** What lies outside the fields is a delimiter. */
  lemma OutsideIsDelimiter(buf: string, connect: bool, i: nat)
    requires Accepts(buf, connect) && i < |buf|
    requires forall p :: p in FinalFields(buf, connect) ==> !Within(i, FinalFields(buf, connect)[p])
    ensures Delimiter(buf[i])
  {
    var l := Labels(Start(connect), buf);
    var f := FirstFields(buf, connect);
    RunGrows(Start(connect), buf, i + 1, |buf|);
    LabelledChar(Run(Start(connect), buf, i), buf[i]);
    hide FirstFields, FinalFields, Label, UrlChar, HostAccepted, HostChar, RunHost, HostBegin;
    var p := l[i];
    if p != NoPart {
      FirstCovers(buf, connect, p);
      FinalCovers(buf, connect, p);
      assert Within(i, f[p]);
      if p == HostPart { InsideHost(buf, connect, i); } else { UrlLabelsOnly(Start(connect), buf, p); }
    }
  }

  lemma InsideHost(buf: string, connect: bool, i: nat)
    requires Alive(buf, connect) && HostAccepted(buf, connect) && HostPart in FirstFields(buf, connect)
    requires Within(i, HostSlice(buf, connect))
    requires forall p :: p in FinalFields(buf, connect) ==> !Within(i, FinalFields(buf, connect)[p])
    ensures i < |buf| && Delimiter(buf[i])
  {
    HostStaysAlive(buf, connect);
    hide FirstFields, FinalFields, HostLabel, HostChar, Run, HostBegin;
    var h := HostSlice(buf, connect);
    var text, k := Text(buf, h), i - h.off;
    var begin := HostBegin(buf, connect);
    RunHostGrows(begin, text, k + 1, |text|);
    LabelledHostChar(RunHost(begin, text, k), text[k]);
    var p := HostParts(buf, connect)[k];
    if p != NoPart {
      HostLabelsOnly(begin, text, p);
      FinalCovers(buf, connect, p);
    }
  }

  // ----- the delimiters around the fields

  lemma Entered(s: State, ch: char)
    ensures UrlChar(s, ch) == Query && s != Query ==> s == QueryStart
    ensures UrlChar(s, ch) == Fragment && s != Fragment ==> s == FragmentStart
    ensures UrlChar(s, ch) == Schema && s != Schema ==> s == SpacesBefore
    ensures UrlChar(s, ch) == QueryStart ==> ch == '?'
    ensures UrlChar(s, ch) == FragmentStart ==> ch == '#'
    ensures UrlChar(s, ch) != SpacesBefore
    ensures s == Schema && UrlChar(s, ch) != Schema && UrlChar(s, ch) != Dead ==> UrlChar(s, ch) == SchemaSlash && ch == ':'
    ensures s == SchemaSlash && UrlChar(s, ch) != Dead ==> UrlChar(s, ch) == SchemaSlashSlash && ch == '/'
    ensures s == SchemaSlashSlash && UrlChar(s, ch) != Dead ==> UrlChar(s, ch) == ServerStart && ch == '/'
  {
  }

  lemma LabelIs(s: State)
    ensures Label(s) == QueryPart <==> s == Query
    ensures Label(s) == FragmentPart <==> s == Fragment
    ensures Label(s) == SchemaPart <==> s == Schema
  {
  }

  /** The query follows its question mark and the fragment its hash. */
  lemma QueryAndFragmentMarked(buf: string, connect: bool, p: Part)
    requires Alive(buf, connect) && (p == QueryPart || p == FragmentPart) && p in FirstFields(buf, connect)
    ensures var off := FirstFields(buf, connect)[p].off;
            0 < off <= |buf| && buf[off - 1] == if p == QueryPart then '?' else '#'
  {
    FirstCovers(buf, connect, p);
    var i, s, l := FirstFields(buf, connect)[p].off, Start(connect), Labels(Start(connect), buf);
    hide FirstFields, UrlChar, Label;
    assert l[i] == p && Run(s, buf, i + 1) == UrlChar(Run(s, buf, i), buf[i]);
    LabelIs(Run(s, buf, i + 1));
    LabelIs(Run(s, buf, i));
    Entered(Run(s, buf, i), buf[i]);
    if i > 0 {
      assert l[i - 1] != p && l[i - 1] == Label(Run(s, buf, i));
      Entered(Run(s, buf, i - 1), buf[i - 1]);
    }
  }

  /** The scheme comes first, and :// follows it. */
  lemma SchemaMarked(buf: string, connect: bool)
    requires Accepts(buf, connect) && SchemaPart in FirstFields(buf, connect)
    ensures var x := FirstFields(buf, connect)[SchemaPart];
            x.off == 0 && x.len + 3 <= |buf| && buf[x.len] == ':' && buf[x.len + 1] == '/' && buf[x.len + 2] == '/'
  {
    hide FirstFields, FinalFields, HostAccepted, Run, Label, Labels;
    FirstCovers(buf, connect, SchemaPart);
    FirstCovers(buf, connect, HostPart);
    FirstInOrder(buf, connect, SchemaPart, HostPart);
    var x, h := FirstFields(buf, connect)[SchemaPart], FirstFields(buf, connect)[HostPart];
    var s, l := Start(connect), Labels(Start(connect), buf);
    SchemaFirst(s, buf, x.off, l);
    AfterSchema(s, buf, x.off + x.len, h.off, l);
  }

  lemma SchemaFirst(s: State, buf: string, i: nat, l: seq<Part>)
    requires i < |buf| && l == Labels(s, buf) && l[i] == SchemaPart && (i > 0 ==> l[i - 1] != SchemaPart)
    ensures i == 0
  {
    hide UrlChar, Label;
    assert Run(s, buf, i + 1) == UrlChar(Run(s, buf, i), buf[i]);
    LabelIs(Run(s, buf, i + 1));
    LabelIs(Run(s, buf, i));
    Entered(Run(s, buf, i), buf[i]);
    if i > 0 { Entered(Run(s, buf, i - 1), buf[i - 1]); }
  }

  lemma AfterSchema(s: State, buf: string, e: nat, h: nat, l: seq<Part>)
    requires 0 < e <= h < |buf| && Run(s, buf, |buf|) != Dead && l == Labels(s, buf)
    requires l[e - 1] == SchemaPart && l[e] != SchemaPart && l[h] == HostPart
    ensures e + 3 <= |buf| && buf[e] == ':' && buf[e + 1] == '/' && buf[e + 2] == '/'
  {
    hide UrlChar;
    RunGrows(s, buf, e + 1, |buf|);
    Entered(Run(s, buf, e), buf[e]);
    assert Run(s, buf, e + 1) == SchemaSlash && h > e;
    RunGrows(s, buf, e + 2, |buf|);
    Entered(Run(s, buf, e + 1), buf[e + 1]);
    assert Run(s, buf, e + 2) == SchemaSlashSlash && h > e + 1;
    RunGrows(s, buf, e + 3, |buf|);
    Entered(Run(s, buf, e + 2), buf[e + 2]);
  }

  lemma HostEntered(s: HostState, ch: char)
    ensures HostChar(s, ch) == Port && s != Port ==> s == PortStart
    ensures HostChar(s, ch) == PortStart ==> ch == ':'
    ensures s == Userinfo && HostChar(s, ch) != Userinfo && HostChar(s, ch) != HostDead ==> ch == '@'
    ensures HostLabel(s) == PortPart <==> s == Port
    ensures HostLabel(s) == UserinfoPart <==> s == Userinfo
    ensures HostLabel(HostChar(s, ch)) == UserinfoPart <==> HostChar(s, ch) == Userinfo
    ensures HostLabel(HostChar(s, ch)) == PortPart <==> HostChar(s, ch) == Port
  {
  }

  /** The port follows its colon. */
  lemma PortMarked(buf: string, connect: bool)
    requires Alive(buf, connect) && HostAccepted(buf, connect) && PortPart in FinalFields(buf, connect)
    ensures var off := FinalFields(buf, connect)[PortPart].off;
            0 < off <= |buf| && buf[off - 1] == ':'
  {
    FinalCovers(buf, connect, PortPart);
    hide FirstFields, FinalFields, HostLabel, HostChar, Run, FoundAt;
    var h, l := HostSlice(buf, connect), HostParts(buf, connect);
    var text, begin := Text(buf, h), HostBegin(buf, connect);
    var k := FinalFields(buf, connect)[PortPart].off - h.off;
    assert l[k] == PortPart && RunHost(begin, text, k + 1) == HostChar(RunHost(begin, text, k), text[k]);
    HostEntered(RunHost(begin, text, k), text[k]);
    if k > 0 {
      assert l[k - 1] != PortPart && l[k - 1] == HostLabel(RunHost(begin, text, k));
      HostEntered(RunHost(begin, text, k - 1), text[k - 1]);
    }
  }

  /** The userinfo is followed by its at sign. */
  lemma UserinfoMarked(buf: string, connect: bool)
    requires Alive(buf, connect) && HostAccepted(buf, connect) && UserinfoPart in FinalFields(buf, connect)
    ensures var x := FinalFields(buf, connect)[UserinfoPart];
            x.off + x.len < |buf| && buf[x.off + x.len] == '@'
  {
    hide FirstFields, FinalFields, Run, RunHost, HostBegin, HostLabels;
    FinalCovers(buf, connect, UserinfoPart);
    HostStaysAlive(buf, connect);
    var h := HostSlice(buf, connect);
    var x := FinalFields(buf, connect)[UserinfoPart];
    AfterUserinfo(HostBegin(buf, connect), Text(buf, h), x.off + x.len - h.off, HostParts(buf, connect));
  }

  lemma AfterUserinfo(s: HostState, text: string, k: nat, l: seq<Part>)
    requires 0 < k <= |text| && l == HostLabels(s, text) && HostEnds(RunHost(s, text, |text|))
    requires l[k - 1] == UserinfoPart && (k < |text| ==> l[k] != UserinfoPart)
    ensures k < |text| && text[k] == '@'
  {
    hide HostChar, HostLabel;
    HostEntered(RunHost(s, text, k - 1), text[k - 1]);
    if k < |text| {
      RunHostGrows(s, text, k + 1, |text|);
      HostEntered(RunHost(s, text, k), text[k]);
    }
  }
}
