/** src/ez_hdlc.c: the receiver that finds packets in a stream of bytes and
    resynchronises after garbage. */
module HdlcScan {
  import opened ByteSeqs

  const FLAG: byte := 0xFE
  const ROOM: nat := 506

  /** A packet in the stream: a flag, the length of the whole, and no flag inside. */
  ghost predicate PacketAt(s: seq<byte>, k: nat) {
    && k + 1 < |s| && s[k] == FLAG
    && 3 <= s[k + 1] as nat && k + s[k + 1] as nat <= |s|
    && forall j :: k < j < k + s[k + 1] as nat ==> s[j] != FLAG
  }

  function Slice(s: seq<byte>, i: nat, j: nat): seq<byte>
    requires i <= j <= |s|
  {
    s[i..j]
  }

  function Packet(s: seq<byte>, k: nat): seq<byte>
    requires k + 1 < |s| && k + s[k + 1] as nat <= |s|
  {
    Slice(s, k, k + s[k + 1] as nat)
  }

  /** All packets that start at positions from..to, in order. */
  ghost function Packets(s: seq<byte>, from: nat, to: nat): seq<seq<byte>>
    decreases to - from
  {
    if from >= to then [] else
      (if PacketAt(s, from) then [Packet(s, from)] else []) + Packets(s, from + 1, to)
  }

  /** The first flag at or after i, or `end`. */
  function NextFlag(s: seq<byte>, i: nat, end: nat): (k: nat)
    requires i <= end <= |s|
    ensures i <= k <= end && (k < end ==> s[k] == FLAG) && forall j :: i <= j < k ==> s[j] != FLAG
    decreases end - i
  {
    if i == end || s[i] == FLAG then i else NextFlag(s, i + 1, end)
  }

  /** What the scanner does at position i: it delivers a packet, moves on, or waits. */
  datatype Move = Deliver(to: nat) | Skip(to: nat) | Wait

  function Look(s: seq<byte>, i: nat): (m: Move)
    requires i <= |s|
    ensures m != Wait ==> i < m.to <= |s|
  {
    if i + 3 >= |s| then Wait
    else if s[i] != FLAG then Skip(i + 1)
    else
      var total := s[i + 1] as nat;
      if total < 3 then Skip(i + 1)
      else if |s| < i + total then Wait
      else
        var k := NextFlag(s, i + 1, i + total);
        if k < i + total then Skip(k) else Deliver(i + total)
  }

  /** The packets found from position i on, and where the scan ends. */
  function Scan(s: seq<byte>, i: nat): (r: (seq<seq<byte>>, nat))
    requires i <= |s|
    ensures i <= r.1 <= |s| && Look(s, r.1) == Wait
    decreases |s| - i
  {
    match Look(s, i)
    case Wait => ([], i)
    case Skip(to) => Scan(s, to)
    case Deliver(to) => var r := Scan(s, to); ([Slice(s, i, to)] + r.0, r.1)
  }

  // ----- the scan finds exactly the packets

  lemma {:induction false} NoFlagNoPackets(s: seq<byte>, i: nat, j: nat)
    requires i <= j <= |s| && forall k :: i <= k < j ==> s[k] != FLAG
    ensures Packets(s, i, j) == []
    decreases j - i
  {
    if i < j { NoFlagNoPackets(s, i + 1, j); }
  }

  lemma {:induction false} PacketsConcat(s: seq<byte>, i: nat, j: nat, k: nat)
    requires i <= j <= k
    ensures Packets(s, i, k) == Packets(s, i, j) + Packets(s, j, k)
    decreases j - i
  {
    hide PacketAt, Packet;
    if i < j { PacketsConcat(s, i + 1, j, k); }
  }

  lemma MoveFinds(s: seq<byte>, i: nat)
    requires i <= |s| && Look(s, i) != Wait
    ensures Packets(s, i, Look(s, i).to) == if Look(s, i).Deliver? then [Slice(s, i, Look(s, i).to)] else []
  {
    var to := Look(s, i).to;
    NoFlagNoPackets(s, i + 1, to);
    assert Packets(s, i, to) == (if PacketAt(s, i) then [Packet(s, i)] else []) + Packets(s, i + 1, to);
    if s[i] == FLAG && s[i + 1] as nat >= 3 && Look(s, i).Skip? {
      assert s[to] == FLAG;
    }
  }

  /** The scan delivers every packet that starts before the place where it ends, and
      nothing else, whatever else the stream holds. */
  lemma {:induction false} ScanFindsPackets(s: seq<byte>, i: nat)
    requires i <= |s|
    ensures Scan(s, i).0 == Packets(s, i, Scan(s, i).1)
    decreases |s| - i
  {
    hide Look, Packets;
    if Look(s, i) == Wait {
      assert Packets(s, i, i) == [] by { EmptyRange(s, i); }
    } else {
      var to := Look(s, i).to;
      MoveFinds(s, i);
      ScanFindsPackets(s, to);
      PacketsConcat(s, i, to, Scan(s, to).1);
    }
  }

  lemma EmptyRange(s: seq<byte>, i: nat)
    ensures Packets(s, i, i) == []
  {
  }

  /** It ends less than 255 bytes before the end of the stream. */
  lemma LittleIsKept(s: seq<byte>, i: nat)
    requires i <= |s|
    ensures |s| - Scan(s, i).1 <= 254
  {
    var e := Scan(s, i).1;
    if e + 3 < |s| { assert s[e + 1] as nat <= 255; }
  }

  // ----- cutting the stream into pieces

  /** A move that was possible stays the same when more bytes come. */
  lemma LookExtends(a: seq<byte>, b: seq<byte>, i: nat)
    requires i <= |a| && Look(a, i) != Wait
    ensures Look(a + b, i) == Look(a, i)
  {
    hide NextFlag;
    var s := a + b;
    assert s[i] == a[i] && s[i + 1] == a[i + 1];
    if a[i] == FLAG && a[i + 1] as nat >= 3 {
      NextFlagExtends(a, b, i + 1, i + a[i + 1] as nat);
    }
  }

  lemma {:induction false} NextFlagUnique(s: seq<byte>, i: nat, end: nat, k: nat)
    requires i <= k <= end <= |s| && (k < end ==> s[k] == FLAG) && forall j :: i <= j < k ==> s[j] != FLAG
    ensures NextFlag(s, i, end) == k
    decreases end - i
  {
    if i < k { NextFlagUnique(s, i + 1, end, k); }
  }

  lemma NextFlagExtends(a: seq<byte>, b: seq<byte>, i: nat, end: nat)
    requires i <= end <= |a|
    ensures NextFlag(a + b, i, end) == NextFlag(a, i, end)
  {
    NextFlagUnique(a + b, i, end, NextFlag(a, i, end));
  }

  lemma {:induction false} ScanExtends(a: seq<byte>, b: seq<byte>, i: nat)
    requires i <= |a|
    ensures var (p, e) := Scan(a, i);
            Scan(a + b, i) == (p + Scan(a + b, e).0, Scan(a + b, e).1)
    decreases |a| - i
  {
    hide Look;
    if Look(a, i) == Wait {
      assert [] + Scan(a + b, i).0 == Scan(a + b, i).0;
    } else {
      LookExtends(a, b, i);
      var to := Look(a, i).to;
      ScanExtends(a, b, to);
      assert Slice(a + b, i, to) == Slice(a, i, to);
      var (p, e) := Scan(a, to);
      assert [Slice(a, i, to)] + (p + Scan(a + b, e).0) == ([Slice(a, i, to)] + p) + Scan(a + b, e).0;
    }
  }

  lemma LookShifts(s: seq<byte>, d: nat, i: nat)
    requires d + i <= |s|
    ensures var m := Look(s, d + i);
            Look(s[d..], i) == if m.Wait? then Wait else if m.Skip? then Skip(m.to - d) else Deliver(m.to - d)
  {
    if i + 3 < |s| - d && s[d + i] == FLAG {
      var total := s[d + i + 1] as nat;
      assert s[d..][i + 1] == s[d + i + 1];
      if 3 <= total && d + i + total <= |s| { NextFlagShifts(s, d, i + 1, i + total); }
    }
  }

  lemma NextFlagShifts(s: seq<byte>, d: nat, i: nat, end: nat)
    requires i <= end && d + end <= |s|
    ensures NextFlag(s[d..], i, end) + d == NextFlag(s, d + i, d + end)
  {
    NextFlagUnique(s[d..], i, end, NextFlag(s, d + i, d + end) - d);
  }

  /** t scanned from i and s scanned from j make corresponding moves. */
  lemma SameMove(t: seq<byte>, i: nat, s: seq<byte>, j: nat)
    requires i <= |t| && j <= |s|
    requires var (m, n) := (Look(t, i), Look(s, j));
             && (m.Wait? <==> n.Wait?) && (m.Deliver? <==> n.Deliver?)
             && (!m.Wait? ==> Scan(t, m.to).0 == Scan(s, n.to).0)
             && (m.Deliver? ==> Slice(t, i, m.to) == Slice(s, j, n.to))
    ensures Scan(t, i).0 == Scan(s, j).0
    ensures Scan(t, i).1 == if Look(t, i).Wait? then i else Scan(t, Look(t, i).to).1
    ensures Scan(s, j).1 == if Look(s, j).Wait? then j else Scan(s, Look(s, j).to).1
  {
    hide Look, Slice;
  }

  lemma {:induction false} ScanShifts(s: seq<byte>, d: nat, i: nat)
    requires d + i <= |s|
    ensures Scan(s[d..], i).0 == Scan(s, d + i).0 && Scan(s[d..], i).1 == Scan(s, d + i).1 - d
    decreases |s| - d - i
  {
    hide Look, Scan, Slice;
    var t, m := s[d..], Look(s, d + i);
    LookShifts(s, d, i);
    if m != Wait {
      ScanShifts(s, d, m.to - d);
      if m.Deliver? { SliceShifts(s, d, i, m.to); }
    }
    SameMove(t, i, s, d + i);
  }

  lemma SliceShifts(s: seq<byte>, d: nat, i: nat, j: nat)
    requires d + i <= j <= |s|
    ensures Slice(s[d..], i, j - d) == Slice(s, d + i, j)
  {
  }

  /** What is kept for the next call. */
  function Kept(s: seq<byte>): (k: seq<byte>) { s[Scan(s, 0).1..] }

  /** Scanning what was kept, followed by more bytes, goes on where the scan ended. */
  lemma KeptContinues(a: seq<byte>, b: seq<byte>)
    ensures Scan(a + b, 0).0 == Scan(a, 0).0 + Scan(Kept(a) + b, 0).0
    ensures Kept(a + b) == Kept(Kept(a) + b)
  {
    hide Scan;
    var e := Scan(a, 0).1;
    ScanExtends(a, b, 0);
    ScanShifts(a + b, e, 0);
    assert (a + b)[e..] == Kept(a) + b;
    var f := Scan(a + b, e).1;
    assert (a + b)[f..] == (a + b)[e..][f - e..];
  }

  /** One call of the receiver: the packets it delivers and what it keeps. */
  function Call(held: seq<byte>, data: seq<byte>): (r: (seq<seq<byte>>, seq<byte>)) {
    if data == [] then ([], held)
    else if |held| + |data| > ROOM then ([], [])
    else (Scan(held + data, 0).0, Kept(held + data))
  }

  function Calls(held: seq<byte>, pieces: seq<seq<byte>>): (r: (seq<seq<byte>>, seq<byte>))
    decreases |pieces|
  {
    if pieces == [] then ([], held) else
      var (p, h) := Call(held, pieces[0]);
      var (ps, h') := Calls(h, pieces[1..]);
      (p + ps, h')
  }

  lemma KeptWaits(s: seq<byte>)
    ensures Scan(Kept(s), 0) == ([], 0) && Kept(Kept(s)) == Kept(s) && |Kept(s)| <= 254
  {
    LookShifts(s, Scan(s, 0).1, 0);
    LittleIsKept(s, 0);
    hide Look;
    assert Kept(s)[0..] == Kept(s);
  }

  /** However a stream is cut into pieces of at most 252 bytes, the receiver never
      overflows and delivers the packets of one scan of the whole stream. */
  lemma {:induction false} AnySplit(seen: seq<byte>, pieces: seq<seq<byte>>)
    requires forall i :: 0 <= i < |pieces| ==> |pieces[i]| <= 252
    ensures Scan(seen + Concat(pieces), 0).0 == Scan(seen, 0).0 + Calls(Kept(seen), pieces).0
    ensures Calls(Kept(seen), pieces).1 == Kept(seen + Concat(pieces))
    decreases |pieces|
  {
    hide Scan, Kept;
    if pieces == [] {
      assert seen + Concat(pieces) == seen;
    } else {
      KeptWaits(seen);
      KeptContinues(seen, pieces[0]);
      AnySplit(seen + pieces[0], pieces[1..]);
      assert seen + Concat(pieces) == (seen + pieces[0]) + Concat(pieces[1..]);
      if pieces[0] == [] {
        assert Kept(seen) + pieces[0] == Kept(seen) && seen + pieces[0] == seen;
      }
      assert Call(Kept(seen), pieces[0]) == (Scan(Kept(seen) + pieces[0], 0).0, Kept(seen + pieces[0]));
      var p, q, r := Scan(seen, 0).0, Call(Kept(seen), pieces[0]).0, Calls(Kept(seen + pieces[0]), pieces[1..]).0;
      assert (p + q) + r == p + (q + r);
    }
  }

  /** So a packet is delivered from a stream that started empty as soon as 255 bytes
      have come from its first one on, whatever came before and in whatever pieces. */
  lemma PacketArrives(pieces: seq<seq<byte>>, k: nat)
    requires forall i :: 0 <= i < |pieces| ==> |pieces[i]| <= 252
    requires PacketAt(Concat(pieces), k) && k + 255 <= |Concat(pieces)|
    ensures Packet(Concat(pieces), k) in Calls([], pieces).0
  {
    var s := Concat(pieces);
    var e := Scan(s, 0).1;
    AnySplit([], pieces);
    assert [] + s == s && Scan([], 0) == ([], 0) && Kept([]) == [];
    ScanFindsPackets(s, 0);
    LittleIsKept(s, 0);
    hide Scan, Kept, PacketAt, Packet;
    PacketsConcat(s, 0, k, e);
    assert Packets(s, k, e)[0] == Packet(s, k);
    assert Packets(s, 0, e)[|Packets(s, 0, k)|] == Packet(s, k);
  }
}
