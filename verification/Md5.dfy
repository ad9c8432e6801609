/** src/std_md5.c: buffered updates and the final padding, against the digest of RFC 1321
    sections 3.1 to 3.5 of the whole message. */
module Md5 {
  import Radix
  import opened ByteSeqs
  import opened Md5Rounds
  import opened WordValues

  // ----- the reference

  const INITIAL := State(0x67452301, 0xefcdab89, 0x98badcfe, 0x10325476)

  /** The chaining words after whole blocks of data. */
  function Fold(s: State, data: seq<byte>): State
    requires |data| % 64 == 0
    decreases |data|
  {
    hide Compressed;
    if data == [] then s else Compressed(Fold(s, data[..|data| - 64]), data[|data| - 64..])
  }

  lemma FoldOne(s: State, data: seq<byte>, block: seq<byte>)
    requires |data| % 64 == 0 && |block| == 64
    ensures |data + block| % 64 == 0 && Fold(s, data + block) == Compressed(Fold(s, data), block)
  {
    hide Compressed;
    var t := data + block;
    assert t[..|t| - 64] == data && t[|t| - 64..] == block;
  }

  lemma FoldNone(s: State)
    ensures Fold(s, []) == s
  {
  }

  lemma {:induction false} FoldAppend(s: State, x: seq<byte>, y: seq<byte>)
    requires |x| % 64 == 0 && |y| % 64 == 0
    ensures |x + y| % 64 == 0 && Fold(s, x + y) == Fold(Fold(s, x), y)
    decreases |y|
  {
    FoldNone(Fold(s, x));
    hide Compressed, Fold;
    if y == [] {
      assert x + y == x;
    } else {
      var z, b := y[..|y| - 64], y[|y| - 64..];
      LastBlock(x, y, z, b);
      FoldAppend(s, x, z);
      FoldOne(s, x + z, b);
      FoldOne(Fold(s, x), z, b);
    }
  }

  lemma LastBlock(x: seq<byte>, y: seq<byte>, z: seq<byte>, b: seq<byte>)
    requires |y| >= 64 && z == y[..|y| - 64] && b == y[|y| - 64..]
    ensures y == z + b && x + y == (x + z) + b
  {
  }

  function ByteOf(n: nat): byte
    requires n < 256
  {
    n as byte
  }

  /** A number below 2^32 as four bytes, the lowest first. */
  function Low4(n: nat): (s: seq<byte>)
    requires n < 0x1_0000_0000
    ensures |s| == 4
  {
    hide ByteOf;
    [ByteOf(n % 0x100), ByteOf(n / 0x100 % 0x100), ByteOf(n / 0x1_0000 % 0x100), ByteOf(n / 0x100_0000 % 0x100)]
  }

  /** Section 3.2: the number of bits modulo 2^64, low word first. */
  function BitLength(n: nat): (s: seq<byte>)
    ensures |s| == 8
  {
    var bits := 8 * n % 0x1_0000_0000_0000_0000;
    Low4(bits % 0x1_0000_0000) + Low4(bits / 0x1_0000_0000)
  }

  /** The bytes are the number of bits modulo 2^64, the lowest byte first. */
  lemma BitLengthValue(n: nat)
    ensures var b := BitLength(n);
            LittleValue(b[..4]) + 0x1_0000_0000 * LittleValue(b[4..]) == 8 * n % 0x1_0000_0000_0000_0000
  {
    var bits := 8 * n % 0x1_0000_0000_0000_0000;
    Low4Value(bits % 0x1_0000_0000);
    Low4Value(bits / 0x1_0000_0000);
    hide Low4, LittleValue;
    var b, low, high := BitLength(n), Low4(bits % 0x1_0000_0000), Low4(bits / 0x1_0000_0000);
    assert b[..4] == low && b[4..] == high;
  }

  function LittleValue(b: seq<byte>): nat
    requires |b| == 4
  {
    b[0] as nat + 0x100 * (b[1] as nat) + 0x1_0000 * (b[2] as nat) + 0x100_0000 * (b[3] as nat)
  }

  lemma Low4Value(n: nat)
    requires n < 0x1_0000_0000
    ensures LittleValue(Low4(n)) == n
  {
    ByteIs(n % 0x100);
    ByteIs(n / 0x100 % 0x100);
    ByteIs(n / 0x1_0000 % 0x100);
    ByteIs(n / 0x100_0000 % 0x100);
    hide ByteOf;
    FourDigits(n);
  }

  lemma ByteIs(n: nat)
    requires n < 256
    ensures ByteOf(n) as nat == n
  {
    Radix.AsByte(n);
  }

  lemma FourDigits(n: nat)
    requires n < 0x1_0000_0000
    ensures n % 0x100 + 0x100 * (n / 0x100 % 0x100) + 0x1_0000 * (n / 0x1_0000 % 0x100) + 0x100_0000 * (n / 0x100_0000 % 0x100) == n
  {
  }

  /** Section 3.1: how many zero bytes follow the first byte of padding. */
  function Filling(n: nat): (k: nat)
    ensures k < 64 && (n + 1 + k) % 64 == 56
  {
    (55 - n % 64) % 64
  }

  /** No other number below 64 fits. */
  lemma FillingUnique(n: nat, k: nat)
    requires k < 64 && (n + 1 + k) % 64 == 56
    ensures k == Filling(n)
  {
  }

  function Padding(n: nat): (s: seq<byte>)
    ensures (n + |s|) % 64 == 0
  {
    FillingWhole(n);
    hide *;
    [0x80] + Zeros(Filling(n)) + BitLength(n)
  }

  lemma FillingWhole(n: nat)
    ensures (n + (1 + Filling(n) + 8)) % 64 == 0
  {
  }

  function WordBytes(w: word): (s: seq<byte>)
    ensures |s| == 4
  {
    [(w & 0xff) as byte, ((w >> 8) & 0xff) as byte, ((w >> 16) & 0xff) as byte, ((w >> 24) & 0xff) as byte]
  }

  function Output(s: State): (r: seq<byte>)
    ensures |r| == 16
  {
    WordBytes(s.a) + WordBytes(s.b) + WordBytes(s.c) + WordBytes(s.d)
  }

  /** The message digest. */
  function Digest(m: seq<byte>): (r: seq<byte>)
    ensures |r| == 16
  {
    hide Padding, Output, Fold;
    Output(Fold(INITIAL, m + Padding(|m|)))
  }

  // ----- what the context stands for

  /** The chaining words have taken the message up to the bytes still buffered. */
  predicate Holds(s: State, tail: seq<byte>, m: seq<byte>) {
    && |tail| <= |m| && (|m| - |tail|) % 64 == 0
    && s == Fold(INITIAL, m[..|m| - |tail|]) && tail == m[|m| - |tail|..]
  }

  lemma HoldsNothing()
    ensures Holds(INITIAL, [], [])
  {
    FoldNone(INITIAL);
  }

  lemma Buffered(s: State, tail: seq<byte>, m: seq<byte>, x: seq<byte>)
    requires Holds(s, tail, m)
    ensures Holds(s, tail + x, m + x)
  {
    hide Fold;
    var n := |m| - |tail|;
    assert (m + x)[..n] == m[..n] && (m + x)[n..] == m[n..] + x;
  }

  lemma Taken(s: State, tail: seq<byte>, m: seq<byte>, x: seq<byte>)
    requires Holds(s, tail, m) && |tail + x| % 64 == 0
    ensures Holds(Fold(s, tail + x), [], m + x)
  {
    hide Fold;
    var n := |m| - |tail|;
    FoldAppend(INITIAL, m[..n], tail + x);
    assert m[..n] + (tail + x) == m + x;
    assert (m + x)[..|m + x|] == m + x;
  }

  lemma FoldNext(s: State, data: seq<byte>, i: nat)
    requires 64 * i + 64 <= |data|
    ensures Fold(s, data[..64 * (i + 1)]) == Compressed(Fold(s, data[..64 * i]), data[64 * i..64 * i + 64])
  {
    hide Fold, Compressed;
    FoldOne(s, data[..64 * i], data[64 * i..64 * i + 64]);
    assert data[..64 * i] + data[64 * i..64 * i + 64] == data[..64 * (i + 1)];
  }

  lemma FoldEnds(s: State, data: seq<byte>)
    requires |data| % 64 == 0
    ensures Fold(s, data[..0]) == s && data[..64 * (|data| / 64)] == data
  {
    FoldNone(s);
    hide Fold;
    assert data[..0] == [];
  }

  // ----- the byte count in two words

  predicate Counts(lo: nat, hi: nat, n: nat) {
    lo == n % 0x2000_0000 && hi == n / 0x2000_0000 % 0x1_0000_0000
  }

  /** The two words are the count modulo 2^61. */
  lemma CountsAre(lo: nat, hi: nat, n: nat)
    ensures Counts(lo, hi, n) <==> lo < 0x2000_0000 && hi * 0x2000_0000 + lo == n % 0x2000_0000_0000_0000
  {
    var q := n / 0x2000_0000;
    SplitMod(n, q, n % 0x2000_0000);
    if lo < 0x2000_0000 && hi * 0x2000_0000 + lo == n % 0x2000_0000_0000_0000 {
      assert q % 0x1_0000_0000 * 0x2000_0000 + n % 0x2000_0000 == hi * 0x2000_0000 + lo;
    }
  }

  lemma SplitMod(n: nat, q: nat, r: nat)
    requires n == q * 0x2000_0000 + r && r < 0x2000_0000
    ensures n % 0x2000_0000_0000_0000 == q % 0x1_0000_0000 * 0x2000_0000 + r
  {
    var p := q / 0x1_0000_0000;
    assert n == p * 0x2000_0000_0000_0000 + (q % 0x1_0000_0000 * 0x2000_0000 + r);
  }

  /** A carry out of the low word is seen as its becoming smaller. */
  lemma CountMore(lo: nat, hi: nat, n: nat, size: nat, lo1: nat, hi1: nat)
    requires Counts(lo, hi, n) && lo1 == (lo + size) % 0x1_0000_0000_0000_0000 % 0x2000_0000
    requires hi1 == ((if lo1 < lo then (hi + 1) % 0x1_0000_0000 else hi) + size / 0x2000_0000) % 0x1_0000_0000
    ensures Counts(lo1, hi1, n + size)
  {
    var c := if lo1 < lo then 1 else 0;
    Carried(lo, n, size, lo1, c);
    WrappedSum(n / 0x2000_0000, size / 0x2000_0000, c, hi);
  }

  lemma Carried(lo: nat, n: nat, size: nat, lo1: nat, c: nat)
    requires lo == n % 0x2000_0000 && lo1 == (lo + size) % 0x1_0000_0000_0000_0000 % 0x2000_0000
    requires c == if lo1 < lo then 1 else 0
    ensures lo1 == (n + size) % 0x2000_0000 && (n + size) / 0x2000_0000 == n / 0x2000_0000 + size / 0x2000_0000 + c
  {
    assert lo1 == (lo + size) % 0x2000_0000;
    var q, u, r := n / 0x2000_0000, size / 0x2000_0000, size % 0x2000_0000;
    assert lo + size == u * 0x2000_0000 + (lo + r) && n + size == (q + u) * 0x2000_0000 + (lo + r);
    if lo + r < 0x2000_0000 {
      assert lo1 == lo + r;
    } else {
      assert lo1 == lo + r - 0x2000_0000;
    }
  }

  lemma WrappedSum(q: nat, u: nat, c: nat, hi: nat)
    requires hi == q % 0x1_0000_0000 && c <= 1
    ensures ((if c == 1 then (hi + 1) % 0x1_0000_0000 else hi) + u) % 0x1_0000_0000 == (q + u + c) % 0x1_0000_0000
  {
  }

  /** How many bytes wait in the buffer. */
  function Used(n: nat): (u: nat)
    ensures u < 64
  {
    n % 64
  }

  lemma UsedIs(lo: nat, hi: nat, n: nat)
    requires Counts(lo, hi, n)
    ensures Used(lo) == Used(n)
  {
  }

  lemma LengthOut(lo: nat, hi: nat, n: nat)
    requires Counts(lo, hi, n)
    ensures 8 * lo < 0x1_0000_0000 && hi < 0x1_0000_0000 && BitLength(n) == Low4(8 * lo) + Low4(hi)
  {
    hide Low4;
    CountsAre(lo, hi, n);
    BitCount(n);
    hide *;
    BitLengthIs(n, lo, hi);
  }

  lemma BitCount(n: nat)
    ensures 8 * n % 0x1_0000_0000_0000_0000 == 8 * (n % 0x2000_0000_0000_0000)
  {
    var q, r := n / 0x2000_0000_0000_0000, n % 0x2000_0000_0000_0000;
    assert 8 * n == q * 0x1_0000_0000_0000_0000 + 8 * r;
  }

  lemma BitLengthIs(n: nat, lo: nat, hi: nat)
    requires lo < 0x2000_0000 && 8 * n % 0x1_0000_0000_0000_0000 == 8 * (hi * 0x2000_0000 + lo)
    ensures 8 * lo < 0x1_0000_0000 && hi < 0x1_0000_0000 && BitLength(n) == Low4(8 * lo) + Low4(hi)
  {
    hide Low4;
    var bits := 8 * n % 0x1_0000_0000_0000_0000;
    assert bits == hi * 0x1_0000_0000 + 8 * lo;
    assert bits % 0x1_0000_0000 == 8 * lo && bits / 0x1_0000_0000 == hi;
  }

  lemma Pieces(m: seq<byte>, data: seq<byte>, n: nat)
    requires n <= |data|
    ensures [] + data[..n] == data[..n] && [] + data[n..] == data[n..] && (m + data[..n]) + data[n..] == m + data
  {
  }

  // ----- the context

  /** What the fields and the buffer stand for. */
  ghost predicate Represents(lo: nat, hi: nat, s: State, buffer: seq<byte>, m: seq<byte>) {
    |buffer| == 64 && Counts(lo, hi, |m|) && Holds(s, buffer[..Used(|m|)], m)
  }

  function LastOf(start: seq<byte>, low: seq<byte>, high: seq<byte>): (b: seq<byte>)
    requires |start| <= 56 && |low| == 4 && |high| == 4
    ensures |b| == 64
  {
    start + Zeros(56 - |start|) + low + high
  }

  /** What is left of the message with its padding, in one block or two. */
  function Ended(tail: seq<byte>, low: seq<byte>, high: seq<byte>): (b: seq<byte>)
    requires |tail| < 64 && |low| == 4 && |high| == 4
    ensures |b| % 64 == 0
  {
    if |tail| < 56 then LastOf(tail + [0x80], low, high)
    else ((tail + [0x80]) + Zeros(63 - |tail|)) + LastOf([], low, high)
  }

  class Context {
    var lo: nat
    var hi: nat
    var state: State
    const buffer: array<byte>
    /** All the bytes taken so far. */
    ghost var message: seq<byte>

    ghost predicate Valid()
      reads this, buffer
    {
      Represents(lo, hi, state, buffer[..], message)
    }

    /** std_MD5_Init */
    constructor ()
      ensures Valid() && fresh(buffer) && message == []
    {
      HoldsNothing();
      lo, hi, state, message := 0, 0, INITIAL, [];
      buffer := new byte[64];
    }

    /** memcpy into the buffer. */
    method Copy(at: nat, data: seq<byte>)
      requires at + |data| <= buffer.Length
      modifies buffer
      ensures buffer[..at + |data|] == old(buffer[..at]) + data
      ensures buffer[at + |data|..] == old(buffer[at + |data|..])
    {
      for i := 0 to |data|
        invariant forall k :: 0 <= k < at ==> buffer[k] == old(buffer[k])
        invariant forall k :: 0 <= k < i ==> buffer[at + k] == data[k]
        invariant forall k :: at + i <= k < buffer.Length ==> buffer[k] == old(buffer[k])
      {
        buffer[at + i] := data[i];
      }
    }

    /** body: one or more blocks. */
    method Body(data: seq<byte>)
      requires |data| % 64 == 0 && data != []
      modifies this`state
      ensures state == Fold(old(state), data)
    {
      FoldEnds(state, data);
      hide *;
      for i := 0 to |data| / 64
        invariant state == Fold(old(state), data[..64 * i])
      {
        FoldNext(old(state), data, i);
        state := Steps(state, data[64 * i..64 * i + 64]);
      }
    }

    /** std_MD5_Update */
    method Update(data: seq<byte>)
      requires Valid()
      modifies this, buffer
      ensures Valid() && message == old(message) + data
    {
      hide Represents;
      Take(data, message);
      message := message + data;
    }

    /** Counts the bytes and takes them. */
    method Take(data: seq<byte>, ghost m: seq<byte>)
      requires Represents(lo, hi, state, buffer[..], m)
      modifies this`lo, this`hi, this`state, buffer
      ensures Represents(lo, hi, state, buffer[..], m + data)
    {
      Opened(lo, hi, state, buffer[..], m);
      hide *;
      var used := Used(lo);
      Count(|data|, |m|);
      Absorb(used, data, m);
      Joined(lo, hi, state, buffer[..], m, data);
    }

    /** The part of the update that counts. */
    method Count(size: nat, ghost n: nat)
      requires Counts(lo, hi, n)
      modifies this`lo, this`hi
      ensures Counts(lo, hi, n + size)
    {
      hide Counts;
      var savedLo := lo;
      lo := (savedLo + size) % 0x1_0000_0000_0000_0000 % 0x2000_0000;
      if lo < savedLo {
        hi := (hi + 1) % 0x1_0000_0000;
      }
      hi := (hi + size / 0x2000_0000) % 0x1_0000_0000;
      CountMore(savedLo, old(hi), n, size, lo, hi);
    }

    /** The part of the update that moves bytes. */
    method Absorb(used: nat, data: seq<byte>, ghost m: seq<byte>)
      requires buffer.Length == 64 && used == Used(|m|) && Holds(state, buffer[..][..used], m)
      modifies this`state, buffer
      ensures Holds(state, buffer[..][..Used(|m| + |data|)], m + data)
    {
      hide Holds, Fold;
      if used == 0 {
        assert buffer[..][..used] == [];
        AbsorbWhole(data, m);
        assert buffer[..][..Used(|m| + |data|)] == buffer[..Used(|m| + |data|)];
        return;
      }
      var available := 64 - used;
      if |data| < available {
        ghost var tail := buffer[..used];
        assert buffer[..][..used] == tail;
        Buffered(state, tail, m, data);
        Copy(used, data);
        assert buffer[..][..Used(|m| + |data|)] == buffer[..used + |data|];
        return;
      }
      var first, rest := data[..available], data[available..];
      FillBuffer(used, first, m);
      TwoStretches(m, first, rest, data);
      AbsorbWhole(rest, m + first);
      assert buffer[..][..Used(|m| + |data|)] == buffer[..Used(|m| + |data|)];
    }

    /** The buffer is filled up and taken. */
    method FillBuffer(used: nat, first: seq<byte>, ghost m: seq<byte>)
      requires buffer.Length == 64 && used + |first| == 64 && used == Used(|m|) && Holds(state, buffer[..][..used], m)
      modifies this`state, buffer
      ensures |m + first| % 64 == 0 && Holds(state, [], m + first)
    {
      hide Holds, Fold;
      ghost var tail := buffer[..used];
      assert buffer[..][..used] == tail;
      Taken(state, tail, m, first);
      Copy(used, first);
      assert buffer[..] == buffer[..used + |first|] == tail + first;
      Body(buffer[..]);
    }

    /** Whole blocks straight from the data, the rest into the buffer. */
    method AbsorbWhole(data: seq<byte>, ghost m: seq<byte>)
      requires buffer.Length == 64 && |m| % 64 == 0 && Holds(state, [], m)
      modifies this`state, buffer
      ensures Holds(state, buffer[..Used(|m| + |data|)], m + data)
    {
      hide Holds, Fold;
      if |data| < 64 {
        Buffered(state, [], m, data);
        assert [] + data == data;
        Copy(0, data);
        return;
      }
      var n := |data| / 64 * 64;
      var blocks, rest := data[..n], data[n..];
      Pieces(m, data, n);
      Taken(state, [], m, blocks);
      Body(blocks);
      Buffered(state, [], m + blocks, rest);
      Copy(0, rest);
      assert |rest| == Used(|m| + |data|);
    }

    /** std_MD5_Final: the digest; the context is wiped. */
    method Final() returns (result: seq<byte>)
      requires Valid()
      modifies this, buffer
      ensures result == Digest(old(message))
      ensures lo == 0 && hi == 0 && state == State(0, 0, 0, 0) && buffer[..] == Zeros(64)
    {
      FinalValue(lo, hi, state, buffer[..], message);
      hide *;
      Finish(Used(lo), Low4(8 * lo), Low4(hi));
      result := Output(state);
      Wipe();
    }

    method Wipe()
      requires buffer.Length == 64
      modifies this, buffer
      ensures lo == 0 && hi == 0 && state == State(0, 0, 0, 0) && buffer[..] == Zeros(64)
    {
      Copy(0, Zeros(64));
      assert buffer[..] == buffer[..64];
      lo, hi, state := 0, 0, State(0, 0, 0, 0);
    }

    method Finish(used: nat, low: seq<byte>, high: seq<byte>)
      requires buffer.Length == 64 && used < 64 && |low| == 4 && |high| == 4
      modifies this`state, buffer
      ensures state == Fold(old(state), Ended(old(buffer[..])[..used], low, high))
    {
      hide Fold, Zeros;
      assert buffer[..][..used] == buffer[..used];
      ghost var tail, s := buffer[..used], state;
      Copy(used, [0x80]);
      var available := 64 - (used + 1);
      if available < 8 {
        Copy(used + 1, Zeros(available));
        Body(buffer[..]);
        ghost var first := (tail + [0x80]) + Zeros(available);
        assert buffer[..] == buffer[..64] == first;
        FillLast(0, low, high);
        FoldAppend(s, first, LastOf([], low, high));
      } else {
        FillLast(used + 1, low, high);
      }
    }

    /** The last block ends with the length. */
    method FillLast(used: nat, low: seq<byte>, high: seq<byte>)
      requires buffer.Length == 64 && used <= 56 && |low| == 4 && |high| == 4
      modifies this`state, buffer
      ensures state == Fold(old(state), LastOf(old(buffer[..used]), low, high))
    {
      hide Fold, Zeros;
      Copy(used, Zeros(56 - used));
      Copy(56, low);
      Copy(60, high);
      assert buffer[..] == buffer[..64];
      Body(buffer[..]);
    }
  }

  lemma TwoStretches(m: seq<byte>, first: seq<byte>, rest: seq<byte>, data: seq<byte>)
    requires data == first + rest
    ensures (m + first) + rest == m + data && |m + first| + |rest| == |m| + |data|
  {
  }

  lemma Opened(lo: nat, hi: nat, s: State, buffer: seq<byte>, m: seq<byte>)
    requires Represents(lo, hi, s, buffer, m)
    ensures |buffer| == 64 && Counts(lo, hi, |m|) && Used(lo) == Used(|m|) && Holds(s, buffer[..Used(lo)], m)
  {
    UsedIs(lo, hi, |m|);
  }

  lemma Joined(lo: nat, hi: nat, s: State, buffer: seq<byte>, m: seq<byte>, data: seq<byte>)
    requires |buffer| == 64 && Counts(lo, hi, |m| + |data|) && Holds(s, buffer[..Used(|m| + |data|)], m + data)
    ensures Represents(lo, hi, s, buffer, m + data)
  {
    hide Counts, Holds, Used;
    assert |m + data| == |m| + |data|;
  }

  lemma PaddingIs(n: nat, tail: seq<byte>, low: seq<byte>, high: seq<byte>)
    requires |tail| == n % 64 && |low| == 4 && |high| == 4 && BitLength(n) == low + high
    ensures tail + Padding(n) == Ended(tail, low, high)
  {
    hide BitLength;
    if |tail| < 56 {
      assert Filling(n) == 55 - |tail|;
    } else {
      assert Filling(n) == 119 - |tail|;
      assert Zeros(63 - |tail|) + Zeros(56) == Zeros(119 - |tail|);
    }
  }

  lemma FinalValue(lo: nat, hi: nat, s: State, buffer: seq<byte>, m: seq<byte>)
    requires Represents(lo, hi, s, buffer, m)
    ensures |buffer| == 64 && 8 * lo < 0x1_0000_0000 && hi < 0x1_0000_0000
    ensures Digest(m) == Output(Fold(s, Ended(buffer[..Used(lo)], Low4(8 * lo), Low4(hi))))
  {
    Opened(lo, hi, s, buffer, m);
    EndedIs(lo, hi, s, buffer[..Used(lo)], m);
  }

  lemma EndedIs(lo: nat, hi: nat, s: State, tail: seq<byte>, m: seq<byte>)
    requires Counts(lo, hi, |m|) && |tail| == Used(|m|) && Holds(s, tail, m)
    ensures 8 * lo < 0x1_0000_0000 && hi < 0x1_0000_0000
    ensures Digest(m) == Output(Fold(s, Ended(tail, Low4(8 * lo), Low4(hi))))
  {
    var n := |m|;
    LengthOut(lo, hi, n);
    PaddingIs(n, tail, Low4(8 * lo), Low4(hi));
    Taken(s, tail, m, Padding(n));
    HoldsNoTail(Fold(s, tail + Padding(n)), m + Padding(n));
    hide Holds, Fold, Padding, Counts, Low4, Output;
  }

  lemma HoldsNoTail(s: State, m: seq<byte>)
    requires Holds(s, [], m)
    ensures |m| % 64 == 0 && s == Fold(INITIAL, m)
  {
    hide Fold;
    assert m[..|m|] == m;
  }

  /** A whole run: however the message is cut into updates, the digest is that of all of it. */
  method DigestOf(pieces: seq<seq<byte>>) returns (result: seq<byte>)
    ensures result == Digest(Concat(pieces))
  {
    hide Digest;
    var context := new Context();
    for i := 0 to |pieces|
      invariant context.Valid() && fresh(context) && fresh(context.buffer) && context.message == Concat(pieces[..i])
    {
      ConcatMore(pieces, i);
      context.Update(pieces[i]);
    }
    assert pieces[..|pieces|] == pieces;
    result := context.Final();
  }
}
