/** src/http_parser.c: http_parser_parse_url. */
module Url {
  import opened UrlSpec
  import opened UrlFields

  /** The part taken up last has the highest rank of the fields, and the state is not
      before it. */
  ghost predicate Latest(f: Fields, last: Part, s: State) {
    && (last != NoPart ==> last in f) && PartRank(last) <= Rank(s)
    && forall p :: p in f ==> p != NoPart && (p == last || PartRank(p) < PartRank(last))
  }

  /** The host parts taken up so far, by the state. */
  predicate HostLatest(f: Fields, s: HostState) {
    && (s == Userinfo ==> UserinfoPart in f) && (UserinfoPart in f ==> HostRank(s) >= 1)
    && (HostRank(s) == 4 ==> HostPart in f) && (HostPart in f ==> HostRank(s) >= 4)
    && (s == Port ==> PortPart in f) && (PortPart in f ==> s == Port)
  }

  /** The URL structure; a field that is not set is not in the map. */
  class Url {
    var fields: Fields
    var port: nat

    constructor ()
    {
      fields, port := map[], 0;
    }

    /** One more character of the part, at p; a part that was not the one before is new. */
    method Extend(part: Part, known: bool, p: nat)
      requires part != NoPart && (known <==> part in fields)
      modifies this`fields
      ensures fields == AddChar(old(fields), part, p)
    {
      if known {
        fields := fields[part := Slice(fields[part].off, fields[part].len + 1)];
      } else {
        fields := fields[part := Slice(p, 1)];
      }
    }

    /** The first pass. */
    method Split(buf: string, connect: bool) returns (ok: bool, foundAt: bool)
      modifies this`fields
      ensures ok <==> Alive(buf, connect)
      ensures ok ==> fields == FirstFields(buf, connect) && (foundAt <==> FoundAt(buf, connect))
    {
      hide UrlChar, Label, Rank, PartRank;
      var s := Start(connect);
      var last := NoPart;
      fields, foundAt := map[], false;
      ghost var labels := Labels(Start(connect), buf);
      StartRank(connect);
      for p := 0 to |buf|
        invariant s == Run(Start(connect), buf, p) && s != Dead
        invariant foundAt <==> FoundBy(Start(connect), buf, p)
        invariant fields == Collect(map[], labels, 0, p)
        invariant Latest(fields, last, s)
      {
        ghost var was := s;
        s := UrlChar(s, buf[p]);
        RankGrows(was, buf[p]);
        if s == Dead {
          StaysDead(Start(connect), buf, p + 1);
          return false, foundAt;
        }
        assert labels[p] == Label(s);
        if s == ServerWithAt {
          foundAt := true;
        }
        LatestKnown(fields, last, was, s);
        CollectStep(map[], labels, 0, p);
        if Label(s) == NoPart {
          continue;
        }
        Extend(Label(s), Label(s) == last, p);
        last := Label(s);
      }
      return true, foundAt;
    }

    /** http_parse_host: the second pass, over what the first one took for the host. */
    method ParseHost(buf: string, connect: bool, foundAt: bool) returns (ret: int)
      requires Alive(buf, connect) && fields == FirstFields(buf, connect) && HostPart in fields
      requires foundAt <==> FoundAt(buf, connect)
      modifies this`fields
      ensures ret == 0 || ret == 1
      ensures ret == 0 <==> HostAccepted(buf, connect)
      ensures ret == 0 ==> fields == FinalFields(buf, connect)
    {
      hide HostChar, HostLabel, HostRank, Alive, FirstFields, FoundAt, HostLabels;
      ghost var base, text := fields - {HostPart}, Text(buf, HostSlice(buf, connect));
      ghost var labels := HostParts(buf, connect);
      var off, len := fields[HostPart].off, fields[HostPart].len;
      OnlyUrlParts(buf, connect);
      fields := fields - {HostPart};
      var s := if foundAt then UserinfoStart else HostStart;
      ghost var begin := s;
      HostStartRank(base, foundAt);
      for i := 0 to len
        invariant s == RunHost(begin, text, i) && s != HostDead
        invariant fields == Collect(base, labels, off, i) && HostLatest(fields, s)
      {
        var t := HostChar(s, buf[off + i]);
        HostRankGrows(s, buf[off + i]);
        assert text[i] == buf[off + i];
        if t == HostDead {
          HostStaysDead(begin, text, i + 1);
          return 1;
        }
        HostLabelAt(begin, text, i);
        CollectStep(base, labels, off, i);
        HostKnown(fields, s, buf[off + i]);
        if t == Host || t == V6 {
          Extend(HostPart, s == t, off + i);
        } else if t == ZoneStart || t == Zone {
          Extend(HostPart, true, off + i);
        } else if t == Port {
          Extend(PortPart, s == Port, off + i);
        } else if t == Userinfo {
          Extend(UserinfoPart, s == Userinfo, off + i);
        }
        s := t;
      }
      if HostEnds(s) {
        return 0;
      }
      return 1;
    }

    /** The port's number, unless it is too large. */
    method ParsePort(buf: string) returns (ret: int)
      requires PortPart in fields && Numeric(buf, fields[PortPart])
      modifies this`port
      ensures ret == 0 || ret == 1
      ensures ret == 0 <==> Decimal(Text(buf, fields[PortPart])) <= 0xFFFF
      ensures ret == 0 ==> port == Decimal(Text(buf, fields[PortPart]))
    {
      var off, len := fields[PortPart].off, fields[PortPart].len;
      ghost var text := Text(buf, fields[PortPart]);
      var v := 0;
      for i := 0 to len
        invariant v == Decimal(text[..i]) <= 0xFFFF
      {
        assert text[i] == buf[off + i];
        DecimalStep(text, i);
        v := v * 10 + (buf[off + i] as int - '0' as int);
        if v > 0xffff {
          DecimalGrows(text, i + 1);
          return 1;
        }
      }
      assert text[..len] == text;
      port := v;
      return 0;
    }

    /** http_parser_parse_url: 0 exactly for the URLs of the two automata, and then the
        fields are where their characters are labelled. */
    method ParseUrl(buf: string, connect: bool) returns (ret: int)
      requires |buf| <= 0xFFFF
      modifies this
      ensures ret == 0 || ret == 1
      ensures ret == 0 <==> Accepts(buf, connect)
      ensures ret == 0 ==> fields == FinalFields(buf, connect)
                           && port == if PortPart in fields then Decimal(Text(buf, fields[PortPart])) else 0
    {
      hide FirstFields, FinalFields, Alive, FoundAt, HostAccepted;
      if |buf| == 0 {
        return 1;
      }
      port := 0;
      var ok, foundAt := Split(buf, connect);
      if !ok {
        return 1;
      }
      if SchemaPart in fields && HostPart !in fields {
        return 1;
      }
      if HostPart in fields {
        ret := ParseHost(buf, connect, foundAt);
        if ret != 0 {
          return 1;
        }
      } else {
        NoHost(buf, connect);
      }
      if connect && fields.Keys != {HostPart, PortPart} {
        return 1;
      }
      if PortPart in fields {
        PortNumeric(buf, connect);
        ret := ParsePort(buf);
        return ret;
      }
      return 0;
    }
  }

  lemma NoHost(buf: string, connect: bool)
    requires Alive(buf, connect) && HostPart !in FirstFields(buf, connect)
    ensures HostAccepted(buf, connect) && FinalFields(buf, connect) == FirstFields(buf, connect)
  {
  }

  lemma PortNumeric(buf: string, connect: bool)
    requires Alive(buf, connect) && HostAccepted(buf, connect) && PortPart in FinalFields(buf, connect)
    ensures Numeric(buf, FinalFields(buf, connect)[PortPart])
  {
    hide FinalFields, Alive, HostAccepted;
    HostFieldOk(buf, connect, PortPart);
  }

  lemma DecimalStep(s: string, i: nat)
    requires i < |s| && forall k :: 0 <= k < |s| ==> IsNum(s[k])
    ensures Decimal(s[..i + 1]) == Decimal(s[..i]) * 10 + (s[i] as int - '0' as int)
  {
    assert s[..i + 1][..i] == s[..i];
  }

  lemma {:induction false} DecimalGrows(s: string, i: nat)
    requires i <= |s| && forall k :: 0 <= k < |s| ==> IsNum(s[k])
    ensures Decimal(s[..i]) <= Decimal(s)
  {
    if i < |s| {
      DecimalGrows(s[..|s| - 1], i);
      assert s[..|s| - 1][..i] == s[..i];
    } else {
      assert s[..i] == s;
    }
  }

  lemma OnlyUrlParts(buf: string, connect: bool)
    requires Alive(buf, connect)
    ensures UserinfoPart !in FirstFields(buf, connect) && PortPart !in FirstFields(buf, connect)
  {
    FirstCovers(buf, connect, UserinfoPart);
    FirstCovers(buf, connect, PortPart);
    hide FirstFields, Run;
    var l := Labels(Start(connect), buf);
    if UserinfoPart in l { UrlLabelsOnly(Start(connect), buf, UserinfoPart); }
    if PortPart in l { UrlLabelsOnly(Start(connect), buf, PortPart); }
  }

  lemma HostStartRank(base: Fields, foundAt: bool)
    requires UserinfoPart !in base && PortPart !in base && HostPart !in base
    ensures HostLatest(base, if foundAt then UserinfoStart else HostStart)
  {
  }

  lemma HostLabelAt(s: HostState, text: string, i: nat)
    requires i < |text|
    ensures HostLabels(s, text)[i] == HostLabel(HostChar(RunHost(s, text, i), text[i]))
  {
  }

  /** Whether a part is taken up or gone on with shows in the states. */
  lemma HostKnown(f: Fields, s: HostState, ch: char)
    requires HostLatest(f, s) && HostChar(s, ch) != HostDead
    ensures var t := HostChar(s, ch);
            && (t == Host || t == V6 ==> HostLabel(t) == HostPart && (s == t <==> HostPart in f))
            && (t == ZoneStart || t == Zone ==> HostLabel(t) == HostPart && HostPart in f)
            && (t == Port ==> HostLabel(t) == PortPart && (s == t <==> PortPart in f))
            && (t == Userinfo ==> HostLabel(t) == UserinfoPart && (s == t <==> UserinfoPart in f))
            && (t != Host && t != V6 && t != ZoneStart && t != Zone && t != Port && t != Userinfo ==> HostLabel(t) == NoPart)
            && forall p: nat :: HostLatest(AddChar(f, HostLabel(t), p), t)
  {
  }

  lemma {:induction false} HostStaysDead(s: HostState, text: string, n: nat)
    requires n <= |text| && RunHost(s, text, n) == HostDead
    ensures RunHost(s, text, |text|) == HostDead
    decreases |text| - n
  {
    if n < |text| { HostStaysDead(s, text, n + 1); }
  }

  lemma CollectStep(f: Fields, labels: seq<Part>, off: nat, n: nat)
    requires n < |labels|
    ensures Collect(f, labels, off, n + 1) == AddChar(Collect(f, labels, off, n), labels[n], off + n)
  {
  }

  lemma StartRank(connect: bool)
    ensures Start(connect) != Dead && Latest(map[], NoPart, Start(connect))
  {
  }

  lemma LatestKnown(f: Fields, last: Part, s: State, t: State)
    requires Latest(f, last, s) && Rank(s) <= Rank(t) && t != Dead
    ensures Label(t) == NoPart ==> Latest(f, last, t)
    ensures Label(t) != NoPart ==> (Label(t) == last <==> Label(t) in f)
    ensures forall p: nat :: Label(t) != NoPart ==> Latest(AddChar(f, Label(t), p), Label(t), t)
  {
    RankOfLabel(t);
    if Label(t) != NoPart && Label(t) != last { RanksDiffer(Label(t), last); }
  }

  lemma RanksDiffer(p: Part, q: Part)
    ensures p != q && PartRank(p) == PartRank(q) ==> PartRank(p) == 0
  {
  }

  lemma {:induction false} StaysDead(s: State, buf: string, n: nat)
    requires n <= |buf| && Run(s, buf, n) == Dead
    ensures Run(s, buf, |buf|) == Dead
    decreases |buf| - n
  {
    if n < |buf| { StaysDead(s, buf, n + 1); }
  }
}
