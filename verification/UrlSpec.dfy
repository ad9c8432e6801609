/** URLs as http_parser_parse_url reads them: two automata over the characters, the
    parts they label, and the fields that come of it. */
module UrlSpec {

  datatype State =
    | Dead | SpacesBefore | Schema | SchemaSlash | SchemaSlashSlash | ServerStart | Server | ServerWithAt
    | Path | QueryStart | Query | FragmentStart | Fragment

  datatype HostState =
    | HostDead | UserinfoStart | Userinfo | HostStart | V6Start | Host | V6 | V6End
    | ZoneStart | Zone | PortStart | Port

  datatype Part = SchemaPart | UserinfoPart | HostPart | PortPart | PathPart | QueryPart | FragmentPart | NoPart

  /** A field: where it starts and how long it is. */
  datatype Slice = Slice(off: nat, len: nat)

  type Fields = map<Part, Slice>

  predicate IsNum(c: char) { '0' <= c <= '9' }

  predicate IsAlpha(c: char) { 'a' <= c <= 'z' || 'A' <= c <= 'Z' }

  predicate IsHex(c: char) { IsNum(c) || 'a' <= c <= 'f' || 'A' <= c <= 'F' }

  predicate IsMark(c: char) {
    c == '-' || c == '_' || c == '.' || c == '!' || c == '~' || c == '*' || c == '\'' || c == '(' || c == ')'
  }

  predicate IsUserinfoChar(c: char) {
    IsAlpha(c) || IsNum(c) || IsMark(c) || c == '%' || c == ';' || c == ':' || c == '&' || c == '=' || c == '+'
    || c == '$' || c == ','
  }

  /** normal_url_char of the strict build */
  predicate IsUrlChar(c: char) { 33 <= c as int <= 126 && c != '#' && c != '?' }

  predicate IsHostChar(c: char) { IsAlpha(c) || IsNum(c) || c == '.' || c == '-' }

  predicate IsZoneChar(c: char) { IsAlpha(c) || IsNum(c) || c == '%' || c == '.' || c == '-' || c == '_' || c == '~' }

  predicate IsSpace(c: char) { c == ' ' || c == '\r' || c == '\n' || c == '\t' || c as int == 12 }

  /** parse_url_char */
  function UrlChar(s: State, ch: char): State {
    if IsSpace(ch) then Dead else
      match s
      case SpacesBefore => if ch == '/' || ch == '*' then Path else if IsAlpha(ch) then Schema else Dead
      case Schema => if IsAlpha(ch) then Schema else if ch == ':' then SchemaSlash else Dead
      case SchemaSlash => if ch == '/' then SchemaSlashSlash else Dead
      case SchemaSlashSlash => if ch == '/' then ServerStart else Dead
      case ServerWithAt => if ch == '@' then Dead else ServerChar(ch)
      case ServerStart => ServerChar(ch)
      case Server => ServerChar(ch)
      case Path => if IsUrlChar(ch) then Path else if ch == '?' then QueryStart else if ch == '#' then FragmentStart else Dead
      case QueryStart => QueryChar(ch)
      case Query => QueryChar(ch)
      case FragmentStart => if IsUrlChar(ch) || ch == '?' then Fragment else if ch == '#' then FragmentStart else Dead
      case Fragment => if IsUrlChar(ch) || ch == '?' || ch == '#' then Fragment else Dead
      case Dead => Dead
  }

  function ServerChar(ch: char): State {
    if ch == '/' then Path
    else if ch == '?' then QueryStart
    else if ch == '@' then ServerWithAt
    else if IsUserinfoChar(ch) || ch == '[' || ch == ']' then Server
    else Dead
  }

  function QueryChar(ch: char): State {
    if IsUrlChar(ch) || ch == '?' then Query else if ch == '#' then FragmentStart else Dead
  }

  /** http_parse_host_char */
  function HostChar(s: HostState, ch: char): HostState {
    match s
    case UserinfoStart => UserinfoChar(ch)
    case Userinfo => UserinfoChar(ch)
    case HostStart => if ch == '[' then V6Start else if IsHostChar(ch) then Host else HostDead
    case Host => if IsHostChar(ch) then Host else if ch == ':' then PortStart else HostDead
    case V6End => if ch == ':' then PortStart else HostDead
    case V6 =>
      if ch == ']' then V6End
      else if IsHex(ch) || ch == ':' || ch == '.' then V6
      else if ch == '%' then ZoneStart
      else HostDead
    case V6Start => if IsHex(ch) || ch == ':' || ch == '.' then V6 else HostDead
    case Zone => if ch == ']' then V6End else if IsZoneChar(ch) then Zone else HostDead
    case ZoneStart => if IsZoneChar(ch) then Zone else HostDead
    case Port => if IsNum(ch) then Port else HostDead
    case PortStart => if IsNum(ch) then Port else HostDead
    case HostDead => HostDead
  }

  function UserinfoChar(ch: char): HostState {
    if ch == '@' then HostStart else if IsUserinfoChar(ch) then Userinfo else HostDead
  }

  /** The part that a character belongs to, by the state it leads to. */
  function Label(s: State): Part {
    match s
    case Schema => SchemaPart
    case Server => HostPart
    case ServerWithAt => HostPart
    case Path => PathPart
    case Query => QueryPart
    case Fragment => FragmentPart
    case _ => NoPart
  }

  function HostLabel(s: HostState): Part {
    match s
    case Userinfo => UserinfoPart
    case Host => HostPart
    case V6 => HostPart
    case ZoneStart => HostPart
    case Zone => HostPart
    case Port => PortPart
    case _ => NoPart
  }

  /** The states after n characters. */
  function Run(s: State, buf: string, n: nat): State
    requires n <= |buf|
  {
    if n == 0 then s else UrlChar(Run(s, buf, n - 1), buf[n - 1])
  }

  function RunHost(s: HostState, buf: string, n: nat): HostState
    requires n <= |buf|
  {
    if n == 0 then s else HostChar(RunHost(s, buf, n - 1), buf[n - 1])
  }

  function Labels(s: State, buf: string): (r: seq<Part>)
    ensures |r| == |buf| && forall i {:trigger r[i]} :: 0 <= i < |buf| ==> r[i] == Label(Run(s, buf, i + 1))
  {
    seq(|buf|, i requires 0 <= i < |buf| => Label(Run(s, buf, i + 1)))
  }

  function HostLabels(s: HostState, buf: string): (r: seq<Part>)
    ensures |r| == |buf| && forall i {:trigger r[i]} :: 0 <= i < |buf| ==> r[i] == HostLabel(RunHost(s, buf, i + 1))
  {
    seq(|buf|, i requires 0 <= i < |buf| => HostLabel(RunHost(s, buf, i + 1)))
  }

  /** One more labelled character at position p. */
  function AddChar(f: Fields, part: Part, p: nat): Fields {
    if part == NoPart then f
    else if part in f then f[part := Slice(f[part].off, f[part].len + 1)]
    else f[part := Slice(p, 1)]
  }

  /** The fields that the first n labels make, the first label being at position off. */
  function Collect(f: Fields, labels: seq<Part>, off: nat, n: nat): Fields
    requires n <= |labels|
  {
    if n == 0 then f else AddChar(Collect(f, labels, off, n - 1), labels[n - 1], off + n - 1)
  }

  // ----- the parts are blocks

  /** No part is left and taken up again. */
  predicate Blocks(labels: seq<Part>) {
    forall i, k {:trigger labels[i], labels[k]} :: 0 <= i < k < |labels| && labels[i] == labels[k] && labels[i] != NoPart ==>
      forall j :: i < j < k ==> labels[j] == labels[i]
  }

  /** The slice of a part is where its labels are. */
  ghost predicate Covers(s: Slice, labels: seq<Part>, part: Part, off: nat, n: nat)
    requires n <= |labels|
  {
    && off <= s.off && 0 < s.len && s.off + s.len <= off + n
    && forall i :: 0 <= i < n ==> (labels[i] == part <==> s.off <= off + i < s.off + s.len)
  }

  /** Collecting blocks gives every part the slice where its labels are, and leaves
      the parts without labels as they were. */
  lemma {:induction false} CollectCovers(f: Fields, labels: seq<Part>, off: nat, n: nat, part: Part)
    requires n <= |labels| && Blocks(labels) && part != NoPart && (part in f ==> part !in labels)
    ensures var g := Collect(f, labels, off, n);
            && (part in f ==> part in g && g[part] == f[part])
            && (part !in f ==> (part in g <==> part in labels[..n]))
            && (part !in f && part in g ==> Covers(g[part], labels, part, off, n))
  {
    if n > 0 {
      CollectCovers(f, labels, off, n - 1, part);
      var g := Collect(f, labels, off, n - 1);
      hide Blocks, Covers;
      if part in f {
        assert labels[n - 1] != part;
      } else {
        AddCovers(g, labels, off, n, part);
      }
    } else {
      assert labels[..n] == [];
    }
  }

  /** One more label. */
  lemma AddCovers(g: Fields, labels: seq<Part>, off: nat, n: nat, part: Part)
    requires 0 < n <= |labels| && Blocks(labels) && part != NoPart
    requires part in g <==> part in labels[..n - 1]
    requires part in g ==> Covers(g[part], labels, part, off, n - 1)
    ensures var h := AddChar(g, labels[n - 1], off + n - 1);
            (part in h <==> part in labels[..n]) && (part in h ==> Covers(h[part], labels, part, off, n))
  {
    hide Blocks, Covers;
    assert labels[..n] == labels[..n - 1] + [labels[n - 1]];
    if part in g {
      CoversMore(g[part], labels, part, off, n);
    } else if labels[n - 1] == part {
      CoversFirst(labels, part, off, n);
    }
  }

  lemma CoversMore(s: Slice, labels: seq<Part>, part: Part, off: nat, n: nat)
    requires 0 < n <= |labels| && Blocks(labels) && part != NoPart && Covers(s, labels, part, off, n - 1)
    ensures labels[n - 1] != part ==> Covers(s, labels, part, off, n)
    ensures labels[n - 1] == part ==> Covers(Slice(s.off, s.len + 1), labels, part, off, n)
  {
    var last := s.off + s.len - 1 - off;
    assert labels[last] == part;
    assert last + 1 < n - 1 ==> labels[last + 1] != part;
    if labels[n - 1] == part {
      NoGap(labels, last, n - 1);
    }
  }

  lemma NoGap(labels: seq<Part>, i: nat, k: nat)
    requires Blocks(labels) && i < k < |labels| && labels[i] == labels[k] != NoPart
    ensures forall j :: i <= j <= k ==> labels[j] == labels[i]
  {
  }

  lemma CoversFirst(labels: seq<Part>, part: Part, off: nat, n: nat)
    requires 0 < n <= |labels| && labels[n - 1] == part && part !in labels[..n - 1]
    ensures Covers(Slice(off + n - 1, 1), labels, part, off, n)
  {
    forall i | 0 <= i < n - 1 ensures labels[i] != part {
      assert labels[i] == labels[..n - 1][i];
    }
  }

  /** How far into a URL a state is. */
  function Rank(s: State): nat {
    match s
    case Dead => 0
    case SpacesBefore => 0
    case Schema => 1
    case SchemaSlash => 2
    case SchemaSlashSlash => 3
    case ServerStart => 4
    case Server => 5
    case ServerWithAt => 5
    case Path => 6
    case QueryStart => 7
    case Query => 8
    case FragmentStart => 9
    case Fragment => 10
  }

  function HostRank(s: HostState): nat {
    match s
    case HostDead => 0
    case UserinfoStart => 0
    case Userinfo => 1
    case HostStart => 2
    case V6Start => 3
    case Host => 4
    case V6 => 4
    case ZoneStart => 4
    case Zone => 4
    case V6End => 5
    case PortStart => 6
    case Port => 7
  }

  lemma RankGrows(s: State, ch: char)
    ensures UrlChar(s, ch) != Dead ==> s != Dead && Rank(s) <= Rank(UrlChar(s, ch))
  {
  }

  lemma HostRankGrows(s: HostState, ch: char)
    ensures HostChar(s, ch) != HostDead ==> s != HostDead && HostRank(s) <= HostRank(HostChar(s, ch))
  {
  }

  lemma {:induction false} RunGrows(s: State, buf: string, i: nat, j: nat)
    requires i <= j <= |buf| && Run(s, buf, j) != Dead
    ensures Run(s, buf, i) != Dead && Rank(Run(s, buf, i)) <= Rank(Run(s, buf, j))
    decreases j - i
  {
    hide UrlChar, Rank;
    if i < j {
      RankGrows(Run(s, buf, j - 1), buf[j - 1]);
      RunGrows(s, buf, i, j - 1);
    }
  }

  lemma {:induction false} RunHostGrows(s: HostState, buf: string, i: nat, j: nat)
    requires i <= j <= |buf| && RunHost(s, buf, j) != HostDead
    ensures RunHost(s, buf, i) != HostDead && HostRank(RunHost(s, buf, i)) <= HostRank(RunHost(s, buf, j))
    decreases j - i
  {
    hide HostChar, HostRank;
    if i < j {
      HostRankGrows(RunHost(s, buf, j - 1), buf[j - 1]);
      RunHostGrows(s, buf, i, j - 1);
    }
  }

  /** What a part's rank is. */
  lemma LabelRank(s: State, t: State)
    ensures Rank(s) == Rank(t) && s != Dead && t != Dead ==> Label(s) == Label(t)
    ensures Label(s) == Label(t) != NoPart ==> Rank(s) == Rank(t)
  {
  }

  lemma HostLabelRank(s: HostState, t: HostState)
    ensures HostRank(s) == HostRank(t) && s != HostDead && t != HostDead ==> HostLabel(s) == HostLabel(t)
    ensures HostLabel(s) == HostLabel(t) != NoPart ==> HostRank(s) == HostRank(t)
  {
  }

  lemma LabelsAreBlocks(s: State, buf: string)
    requires Run(s, buf, |buf|) != Dead
    ensures Blocks(Labels(s, buf))
  {
    hide Run, Rank, Label;
    var l := Labels(s, buf);
    forall i, j, k {:trigger l[i], l[j], l[k]} | 0 <= i < j < k < |l| && l[i] == l[k] && l[i] != NoPart ensures l[j] == l[i] {
      RunGrows(s, buf, k + 1, |buf|);
      RunGrows(s, buf, j + 1, k + 1);
      RunGrows(s, buf, i + 1, j + 1);
      LabelRank(Run(s, buf, i + 1), Run(s, buf, k + 1));
      LabelRank(Run(s, buf, i + 1), Run(s, buf, j + 1));
    }
  }

  lemma HostLabelsAreBlocks(s: HostState, buf: string)
    requires RunHost(s, buf, |buf|) != HostDead
    ensures Blocks(HostLabels(s, buf))
  {
    hide RunHost, HostRank, HostLabel;
    var l := HostLabels(s, buf);
    forall i, j, k {:trigger l[i], l[j], l[k]} | 0 <= i < j < k < |l| && l[i] == l[k] && l[i] != NoPart ensures l[j] == l[i] {
      RunHostGrows(s, buf, k + 1, |buf|);
      RunHostGrows(s, buf, j + 1, k + 1);
      RunHostGrows(s, buf, i + 1, j + 1);
      HostLabelRank(RunHost(s, buf, i + 1), RunHost(s, buf, k + 1));
      HostLabelRank(RunHost(s, buf, i + 1), RunHost(s, buf, j + 1));
    }
  }

  // ----- acceptance and the fields

  function Start(connect: bool): State { if connect then ServerStart else SpacesBefore }

  /** The fields of the first pass, in which the host still has its userinfo and port. */
  function FirstFields(buf: string, connect: bool): Fields {
    Collect(map[], Labels(Start(connect), buf), 0, |buf|)
  }

  /** Whether an at sign has come within the first n characters. */
  predicate FoundBy(s: State, buf: string, n: nat)
    requires n <= |buf|
  {
    n > 0 && (FoundBy(s, buf, n - 1) || Run(s, buf, n) == ServerWithAt)
  }

  predicate FoundAt(buf: string, connect: bool) { FoundBy(Start(connect), buf, |buf|) }

  function HostBegin(buf: string, connect: bool): HostState {
    if FoundAt(buf, connect) then UserinfoStart else HostStart
  }

  predicate HostEnds(s: HostState) { s == Host || s == V6End || s == Port }

  /** The text of a slice. */
  function Text(buf: string, x: Slice): string
    requires x.off + x.len <= |buf|
  {
    buf[x.off..x.off + x.len]
  }

  /** The fields after the second pass has taken the host apart. */
  function SecondFields(buf: string, f: Fields, begin: HostState): Fields
    requires HostPart in f ==> f[HostPart].off + f[HostPart].len <= |buf|
  {
    if HostPart !in f then f else
      var text := Text(buf, f[HostPart]);
      Collect(f - {HostPart}, HostLabels(begin, text), f[HostPart].off, |text|)
  }

  function Decimal(s: string): nat
    requires forall i :: 0 <= i < |s| ==> IsNum(s[i])
  {
    if s == [] then 0 else
      assert IsNum(s[|s| - 1]);
      Decimal(s[..|s| - 1]) * 10 + (s[|s| - 1] as int - '0' as int)
  }

  predicate Alive(buf: string, connect: bool) { Run(Start(connect), buf, |buf|) != Dead }

  lemma FirstCovers(buf: string, connect: bool, part: Part)
    requires Alive(buf, connect) && part != NoPart
    ensures var f, labels := FirstFields(buf, connect), Labels(Start(connect), buf);
            && (part in f <==> part in labels)
            && (part in f ==> Covers(f[part], labels, part, 0, |buf|) && f[part].off + f[part].len <= |buf|)
  {
    hide Run, Collect, Labels;
    var labels := Labels(Start(connect), buf);
    LabelsAreBlocks(Start(connect), buf);
    CollectCovers(map[], labels, 0, |buf|, part);
    assert labels[..|buf|] == labels;
  }

  /** All fields of a URL that the first automaton accepts. */
  function FinalFields(buf: string, connect: bool): Fields
    requires Alive(buf, connect)
  {
    FirstCovers(buf, connect, HostPart);
    SecondFields(buf, FirstFields(buf, connect), HostBegin(buf, connect))
  }

  /** What the first pass takes for the host. */
  function HostSlice(buf: string, connect: bool): (x: Slice)
    requires Alive(buf, connect) && HostPart in FirstFields(buf, connect)
    ensures x.off + x.len <= |buf|
  {
    FirstCovers(buf, connect, HostPart);
    FirstFields(buf, connect)[HostPart]
  }

  /** The labels of the second pass. */
  function HostParts(buf: string, connect: bool): (r: seq<Part>)
    requires Alive(buf, connect) && HostPart in FirstFields(buf, connect)
    ensures |r| == HostSlice(buf, connect).len
  {
    HostLabels(HostBegin(buf, connect), Text(buf, HostSlice(buf, connect)))
  }

  /** The host automaton ends well on the host's text. */
  predicate HostAccepted(buf: string, connect: bool)
    requires Alive(buf, connect)
  {
    HostPart in FirstFields(buf, connect) ==>
      var text := Text(buf, HostSlice(buf, connect));
      HostEnds(RunHost(HostBegin(buf, connect), text, |text|))
  }

  predicate Numeric(buf: string, x: Slice) {
    x.off + x.len <= |buf| && forall i :: x.off <= i < x.off + x.len ==> IsNum(buf[i])
  }

  /** When http_parser_parse_url returns 0. */
  predicate Accepts(buf: string, connect: bool) {
    && buf != "" && Alive(buf, connect)
    && (SchemaPart in FirstFields(buf, connect) ==> HostPart in FirstFields(buf, connect))
    && HostAccepted(buf, connect)
    && var g := FinalFields(buf, connect);
       && (connect ==> g.Keys == {HostPart, PortPart})
       && (PortPart in g ==> Numeric(buf, g[PortPart]) && Decimal(Text(buf, g[PortPart])) <= 0xFFFF)
  }

  // ----- what the fields are

  predicate InHost(part: Part) { part == UserinfoPart || part == HostPart || part == PortPart }

  lemma HostLabelsOnly(s: HostState, buf: string, part: Part)
    requires part in HostLabels(s, buf) && part != NoPart
    ensures InHost(part)
  {
    var i :| 0 <= i < |buf| && HostLabels(s, buf)[i] == part;
    hide RunHost;
    assert part == HostLabel(RunHost(s, buf, i + 1));
  }

  lemma UrlLabelsOnly(s: State, buf: string, part: Part)
    requires part in Labels(s, buf)
    ensures part != UserinfoPart && part != PortPart
  {
    var i :| 0 <= i < |buf| && Labels(s, buf)[i] == part;
    hide Run;
    assert part == Label(Run(s, buf, i + 1));
  }

  /** A part of the host lies where the host automaton labels it; the others are those
      of the first pass. */
  lemma FinalCovers(buf: string, connect: bool, part: Part)
    requires Alive(buf, connect) && HostAccepted(buf, connect) && part != NoPart
    ensures var f, g := FirstFields(buf, connect), FinalFields(buf, connect);
            && (!InHost(part) ==> (part in g <==> part in f) && (part in f ==> g[part] == f[part]))
            && (HostPart in f && InHost(part) ==>
                  && (part in g <==> part in HostParts(buf, connect))
                  && (part in g ==> Covers(g[part], HostParts(buf, connect), part, HostSlice(buf, connect).off, HostSlice(buf, connect).len)))
            && (HostPart !in f && InHost(part) ==> part !in g)
  {
    var f := FirstFields(buf, connect);
    FirstCovers(buf, connect, part);
    FirstCovers(buf, connect, HostPart);
    hide Run, RunHost, Collect, FirstFields, FoundAt, Labels, HostLabels;
    if part in Labels(Start(connect), buf) { UrlLabelsOnly(Start(connect), buf, part); }
    if HostPart in f {
      var text := Text(buf, f[HostPart]);
      var begin := HostBegin(buf, connect);
      var labels := HostLabels(begin, text);
      HostLabelsAreBlocks(begin, text);
      if part in labels { HostLabelsOnly(begin, text, part); }
      CollectCovers(f - {HostPart}, labels, f[HostPart].off, |text|, part);
      assert labels[..|text|] == labels;
    }
  }
}
