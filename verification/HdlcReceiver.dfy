/** src/ez_hdlc.c: the receiver object with its fixed buffer. */
module HdlcReceiver {
  import opened ByteSeqs
  import opened HdlcScan

  /** The handler; what the packet callback gets is recorded in `calls`. */
  class Receiver {
    const rx: array<byte>
    var len: nat
    var calls: seq<seq<byte>>

    predicate Valid()
      reads this`len
    {
      rx.Length == ROOM && len <= ROOM
    }

    /** The bytes in the buffer. */
    function Held(): seq<byte>
      requires Valid()
      reads this`len, rx
    {
      rx[..len]
    }

    /** hdlc_new */
    constructor ()
      ensures Valid() && fresh(rx) && Held() == [] && calls == []
    {
      rx := new byte[ROOM];
      len, calls := 0, [];
    }

    /** The first flag within the packet that starts at ii, as an offset. */
    method FindFlag(ii: nat, total: nat) returns (jj: nat)
      requires Valid() && 1 <= total && ii + total <= len
      ensures jj <= total && ii + jj == NextFlag(Held(), ii + 1, ii + total)
    {
      jj := 1;
      while jj < total
        invariant 1 <= jj <= total
        invariant NextFlag(Held(), ii + 1, ii + total) == NextFlag(Held(), ii + jj, ii + total)
      {
        if rx[ii + jj] == FLAG {
          break;
        }
        jj := jj + 1;
      }
    }

    /** The stretch of the buffer that the callback gets. */
    function Sent(ii: nat, total: nat): (p: seq<byte>)
      requires Valid() && ii + total <= len
      reads this`len, rx
      ensures p == Slice(Held(), ii, ii + total)
    {
      rx[ii..ii + total]
    }

    /** What to do with the byte at ii. */
    method Decide(ii: nat) returns (m: Move)
      requires Valid() && ii + 3 < len
      ensures m == Look(Held(), ii)
    {
      hide NextFlag;
      if rx[ii] != FLAG {
        return Skip(ii + 1);
      }
      var total := rx[ii + 1] as nat;
      if total < 3 {
        return Skip(ii + 1);
      }
      if len < ii + total {
        return Wait;
      }
      var jj := FindFlag(ii, total);
      return if jj < total then Skip(ii + jj) else Deliver(ii + total);
    }

    /** hdlc_ondata: the packets found and the bytes kept are those of the scan. */
    method OnData(data: seq<byte>) returns (n: int)
      requires Valid()
      modifies this, rx
      ensures Valid() && Held() == Call(old(Held()), data).1
      ensures calls == old(calls) + Call(old(Held()), data).0
      ensures n == if data == [] then -1 else if |old(Held())| + |data| > ROOM then -2 else |Call(old(Held()), data).0|
    {
      hide Look, Scan, Slice;
      if |data| == 0 {
        return -1;
      }
      if len + |data| > ROOM {
        len := 0;
        return -2;
      }
      ghost var s := Held() + data;
      Append(data);
      n := 0;
      if len < 4 {
        ScanWaits(s, 0);
        assert Kept(s) == s;
        return n;
      }
      var ii := 0;
      ghost var found: seq<seq<byte>> := [];
      while ii < len - 3
        invariant ii <= len <= ROOM && Held() == s && n == |found| && calls == old(calls) + found
        invariant Scan(s, 0).0 == found + Scan(s, ii).0 && Scan(s, 0).1 == Scan(s, ii).1
        decreases len - ii
      {
        ScanMoves(s, ii);
        var m := Decide(ii);
        if m.Wait? {
          break;
        }
        if m.Deliver? {
          assert found + ([Slice(s, ii, m.to)] + Scan(s, m.to).0) == (found + [Slice(s, ii, m.to)]) + Scan(s, m.to).0;
          found := found + [Slice(s, ii, m.to)];
          calls := calls + [Sent(ii, m.to - ii)];
          n := n + 1;
        }
        ii := m.to;
      }
      ScanWaits(s, ii);
      if ii > 0 {
        Drop(ii);
      }
      assert Held() == s[ii..];
    }

    /** The new bytes go behind those in the buffer. */
    method Append(data: seq<byte>)
      requires Valid() && len + |data| <= ROOM
      modifies this`len, rx
      ensures Valid() && Held() == old(Held()) + data
    {
      forall i | 0 <= i < |data| { rx[len + i] := data[i]; }
      len := len + |data|;
    }

    /** What is left moves to the front. */
    method Drop(n: nat)
      requires Valid() && n <= len
      modifies this`len, rx
      ensures Valid() && Held() == old(Held())[n..]
    {
      len := len - n;
      forall k | 0 <= k < len { rx[k] := rx[n + k]; }
    }
  }

  lemma ScanMoves(s: seq<byte>, i: nat)
    requires i <= |s|
    ensures Look(s, i).Skip? ==> Scan(s, i) == Scan(s, Look(s, i).to)
    ensures Look(s, i).Deliver? ==>
              Scan(s, i).0 == [Slice(s, i, Look(s, i).to)] + Scan(s, Look(s, i).to).0 && Scan(s, i).1 == Scan(s, Look(s, i).to).1
  {
    hide Look;
  }

  lemma ScanWaits(s: seq<byte>, i: nat)
    requires i <= |s|
    ensures Look(s, i).Wait? || i + 3 >= |s| ==> Scan(s, i) == ([], i)
  {
  }
}
