/** Bytes and stretches of sequences, for all parts of the library. */
module ByteSeqs {
  type byte = bv8

  function Zeros(n: nat): (s: seq<byte>)
    ensures |s| == n
  {
    seq(n, _ => 0)
  }

  lemma XorTwice(a: byte, b: byte)
    ensures (a ^ b) ^ b == a
  {
  }

  /** An array's contents with x written at `at`. */
  function Written(a: seq<byte>, at: nat, x: seq<byte>): (r: seq<byte>)
    requires at + |x| <= |a|
    ensures |r| == |a|
  {
    a[..at] + x + a[at + |x|..]
  }

  lemma WrittenTwice(a: seq<byte>, at: nat, x: seq<byte>, y: seq<byte>)
    requires at + |x| + |y| <= |a|
    ensures Written(Written(a, at, x), at + |x|, y) == Written(a, at, x + y)
  {
  }

  /** Unchanged from n on. */
  ghost predicate KeptFrom<T>(now: seq<T>, was: seq<T>, n: nat) {
    |now| == |was| && forall m :: n <= m < |was| ==> now[m] == was[m]
  }

  lemma SliceFront<T>(a: seq<T>, b: seq<T>, i: nat, n: nat)
    requires i + n <= |a|
    ensures (a + b)[i..i + n] == a[i..i + n]
  {
  }

  lemma SliceBehind<T>(a: seq<T>, b: seq<T>, i: nat, n: nat)
    requires i + n <= |b|
    ensures (a + b)[|a| + i..|a| + i + n] == b[i..i + n]
  {
  }

  lemma SliceOfSlice<T>(s: seq<T>, a: nat, b: nat, i: nat, n: nat)
    requires a <= b <= |s| && i + n <= b - a
    ensures s[a..b][i..i + n] == s[a + i..a + i + n]
  {
    var t := s[a..b];
    var u, v := t[i..i + n], s[a + i..a + i + n];
    forall k | 0 <= k < n ensures u[k] == v[k] {
      assert u[k] == t[i + k];
    }
  }

  /** Pieces of a stream put together. */
  function Concat<T>(pieces: seq<seq<T>>): seq<T> {
    if pieces == [] then [] else pieces[0] + Concat(pieces[1..])
  }

  lemma {:induction false} ConcatMore<T>(pieces: seq<seq<T>>, i: nat)
    requires i < |pieces|
    ensures Concat(pieces[..i + 1]) == Concat(pieces[..i]) + pieces[i]
  {
    var p, q := pieces[..i + 1], pieces[..i];
    if i == 0 {
      assert p[1..] == [];
    } else {
      ConcatMore(pieces[1..], i - 1);
      assert p[1..] == pieces[1..][..i] && q[1..] == pieces[1..][..i - 1];
    }
  }
}
