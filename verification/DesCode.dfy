/** src/d3des.c: the key register, single blocks, and ECB over any number of bytes. */
module DesCode {
  import opened ByteSeqs
  import opened Des
  import opened DesKeys
  import opened DesTables

  /** Exchanges bits between two halves: one line group of desfunc each. */
  method DoSwap4(h0: word, l0: word) returns (h: word, l: word)
    ensures Halves(h, l) == Swap4(Halves(h0, l0))
  {
    hide Work4, Mix, Up4;
    var work := Work4(h0, l0);
    l := Mix(l0, work);
    h := Mix(h0, Up4(work));
  }

  method DoSwap16(h0: word, l0: word) returns (h: word, l: word)
    ensures Halves(h, l) == Swap16(Halves(h0, l0))
  {
    hide Work16, Mix, Up16;
    var work := Work16(h0, l0);
    l := Mix(l0, work);
    h := Mix(h0, Up16(work));
  }

  method DoSwap2(h0: word, l0: word) returns (h: word, l: word)
    ensures Halves(h, l) == Swap2(Halves(h0, l0))
  {
    hide Work2, Mix, Up2;
    var work := Work2(h0, l0);
    l := Mix(l0, work);
    h := Mix(h0, Up2(work));
  }

  method DoSwap8(h0: word, l0: word) returns (h: word, l: word)
    ensures Halves(h, l) == Swap8(Halves(h0, l0))
  {
    hide Work8, Mix, Up8;
    var work := Work8(h0, l0);
    l := Mix(l0, work);
    h := Mix(h0, Up8(work));
  }

  method DoSwap1(h0: word, l0: word) returns (h: word, l: word)
    ensures Halves(h, l) == Swap1(Halves(h0, l0))
  {
    hide Work1, Mix;
    var work := Work1(h0, l0);
    h := Mix(h0, work);
    l := Mix(l0, work);
  }

  /** desfunc, in place on the two words of a block. */
  method DesFunc(block: array<word>, keys: array<word>, sp: seq<seq<word>>)
    requires block.Length == 2 && keys.Length == 32 && block != keys && Boxes(sp)
    modifies block
    ensures Halves(block[0], block[1]) == Crypt(sp, old(Halves(block[0], block[1])), keys[..])
  {
    hide Swap1, Swap2, Swap4, Swap8, Swap16, RotateLeft, RotateRight, F, Mix, Boxes;
    ghost var p, ks := Halves(block[0], block[1]), keys[..];
    var leftt, right := block[0], block[1];
    leftt, right := DoSwap4(leftt, right);
    leftt, right := DoSwap16(leftt, right);
    right, leftt := DoSwap2(right, leftt);
    right, leftt := DoSwap8(right, leftt);
    right := RotateLeft(right);
    leftt, right := DoSwap1(leftt, right);
    leftt := RotateLeft(leftt);
    assert Halves(leftt, right) == Open(p);

    for round := 0 to 8
      invariant Halves(leftt, right) == Rounds(sp, Open(p), ks, round) && keys[..] == ks
    {
      leftt := Mix(leftt, F(sp, right, keys[4 * round], keys[4 * round + 1]));
      right := Mix(right, F(sp, leftt, keys[4 * round + 2], keys[4 * round + 3]));
    }

    ghost var q := Halves(leftt, right);
    right := RotateRight(right);
    leftt, right := DoSwap1(leftt, right);
    leftt := RotateRight(leftt);
    leftt, right := DoSwap8(leftt, right);
    leftt, right := DoSwap2(leftt, right);
    right, leftt := DoSwap16(right, leftt);
    right, leftt := DoSwap4(right, leftt);
    assert Halves(right, leftt) == Close(q);
    block[0] := right;
    block[1] := leftt;
  }

  /** The internal key register. */
  class Register {
    const knl: array<word>

    predicate Valid() { knl.Length == 32 }

    constructor ()
      ensures Valid() && fresh(knl)
    {
      knl := new word[32];
    }

    /** usekey */
    method UseKey(from: array<word>)
      requires Valid() && from.Length == 32 && from != knl
      modifies knl
      ensures knl[..] == from[..]
    {
      for i := 0 to 32
        invariant forall k :: 0 <= k < i ==> knl[k] == from[k]
      {
        knl[i] := from[i];
      }
    }

    /** cookey */
    method CookKey(raw: array<word>)
      requires Valid() && raw.Length == 32 && raw != knl
      modifies knl
      ensures knl[..] == CookedKeys(raw[..])
    {
      hide *;
      var dough := new word[32];
      ghost var c := CookedKeys(raw[..]);
      for i := 0 to 16
        invariant forall t :: 0 <= t < 2 * i ==> dough[t] == c[t]
      {
        CookedPair(raw[..], i);
        dough[2 * i] := Cooked0(raw[2 * i], raw[2 * i + 1]);
        dough[2 * i + 1] := Cooked1(raw[2 * i], raw[2 * i + 1]);
      }
      assert dough[..] == c;
      UseKey(dough);
    }

    /** deskey: the register holds the schedule of the key. */
    method DesKey(key: seq<byte>, de: bool)
      requires Valid() && |key| == 8
      modifies knl
      ensures knl[..] == Schedule(key, de)
    {
      hide Raw, RawKeys, CookedKeys, Chosen;
      var pc1m := ChooseBits(key);
      var kn := new word[32];
      for i := 0 to 16
        invariant forall t :: 0 <= t < 32 && RoundAt(de, t / 2) < i ==> kn[t] == RawKeys(key, de)[t]
        invariant pc1m[..] == Chosen(key)
      {
        var m := if de then (15 - i) * 2 else i * 2;
        var n := m + 1;
        RawAt(key, de, i);
        OtherPlaces(de, i, m);
        var w0, w1 := RoundWords(pc1m, key, i);
        kn[m], kn[n] := w0, w1;
      }
      assert kn[..] == RawKeys(key, de);
      CookKey(kn);
    }
  }

  /** The two raw words of round i. */
  method RoundWords(pc1m: array<bool>, ghost key: seq<byte>, i: nat) returns (w0: word, w1: word)
    requires |key| == 8 && i < 16 && pc1m.Length == 56 && pc1m[..] == Chosen(key)
    ensures w0 == Raw(key, i, 0) && w1 == Raw(key, i, 24)
  {
    hide Raw, Chosen, Gathered, Turned;
    RawIs(key, i);
    var pcr := TurnBits(pc1m, i);
    w0 := Gather(pcr, 0);
    w1 := Gather(pcr, 24);
  }

  lemma Places(i: nat)
    ensures (2 * i) % 2 == 0 && (2 * i + 1) % 2 == 1 && (2 * i) / 2 == i && (2 * i + 1) / 2 == i
  {
  }

  lemma CookedPair(raw: seq<word>, i: nat)
    requires |raw| == 32 && i < 16
    ensures var c := CookedKeys(raw);
            c[2 * i] == Cooked0(raw[2 * i], raw[2 * i + 1]) && c[2 * i + 1] == Cooked1(raw[2 * i], raw[2 * i + 1])
  {
    hide CookedKeys, Cooked0, Cooked1;
    Places(i);
  }

  /** Round i fills exactly the places m and m + 1. */
  lemma OtherPlaces(de: bool, i: nat, m: nat)
    requires i < 16 && m == if de then (15 - i) * 2 else i * 2
    ensures forall t :: 0 <= t < 32 ==> (RoundAt(de, t / 2) == i <==> t == m || t == m + 1)
  {
  }

  lemma RawAt(key: seq<byte>, de: bool, i: nat)
    requires |key| == 8 && i < 16
    ensures var m := if de then (15 - i) * 2 else i * 2;
            RawKeys(key, de)[m] == Raw(key, i, 0) && RawKeys(key, de)[m + 1] == Raw(key, i, 24)
  {
    hide Raw, RawKeys;
    var m := if de then (15 - i) * 2 else i * 2;
    Places(m / 2);
    assert RoundAt(de, m / 2) == i && RoundAt(de, (m + 1) / 2) == i;
  }

  lemma RawIs(key: seq<byte>, i: nat)
    requires |key| == 8 && i < 16
    ensures |ROTATIONS| == 16 && ROTATIONS[i] <= 28
    ensures Raw(key, i, 0) == Gathered(Turned(Chosen(key), ROTATIONS[i]), 0, 24)
    ensures Raw(key, i, 24) == Gathered(Turned(Chosen(key), ROTATIONS[i]), 24, 24)
  {
    RotationsFit();
    hide Gathered, Turned, Chosen, ROTATIONS;
  }

  method ChooseBits(key: seq<byte>) returns (pc1m: array<bool>)
    requires |key| == 8
    ensures fresh(pc1m) && pc1m.Length == 56 && pc1m[..] == Chosen(key)
  {
    Pc1Fits();
    hide PC1, ByteBit;
    pc1m := new bool[56];
    for j := 0 to 56
      invariant forall k :: 0 <= k < j ==> pc1m[k] == Chosen(key)[k]
    {
      var l := PC1[j];
      var m := l % 8;
      pc1m[j] := key[l / 8] & ByteBit(m) != 0;
    }
    assert pc1m[..] == Chosen(key);
  }

  /** Both halves of the bits, turned for round i. */
  method TurnBits(pc1m: array<bool>, i: nat) returns (pcr: array<bool>)
    requires pc1m.Length == 56 && i < 16 && |ROTATIONS| == 16 && ROTATIONS[i] <= 28
    ensures fresh(pcr) && pcr.Length == 56 && pcr[..] == Turned(pc1m[..], ROTATIONS[i])
  {
    hide ROTATIONS;
    pcr := new bool[56];
    for j := 0 to 28
      invariant forall k :: 0 <= k < j ==> pcr[k] == Turned(pc1m[..], ROTATIONS[i])[k]
    {
      var l := j + ROTATIONS[i];
      pcr[j] := if l < 28 then pc1m[l] else pc1m[l - 28];
    }
    for j := 28 to 56
      invariant forall k :: 0 <= k < j ==> pcr[k] == Turned(pc1m[..], ROTATIONS[i])[k]
    {
      var l := j + ROTATIONS[i];
      pcr[j] := if l < 56 then pc1m[l] else pc1m[l - 28];
    }
    assert pcr[..] == Turned(pc1m[..], ROTATIONS[i]);
  }

  method Gather(pcr: array<bool>, from: nat) returns (w: word)
    requires pcr.Length == 56 && from + 24 <= 48
    ensures w == Gathered(pcr[..], from, 24)
  {
    Pc2Fits();
    hide PC2, BigByte;
    w := 0;
    for j := 0 to 24
      invariant w == Gathered(pcr[..], from, j)
    {
      if pcr[PC2[from + j]] {
        w := w | BigByte(j);
      }
    }
  }

  // ----- one block

  /** des */
  method DesBlock(input: seq<byte>, keys: array<word>, sp: seq<seq<word>>) returns (b: seq<byte>)
    requires |input| == 8 && keys.Length == 32 && Boxes(sp)
    ensures b == Block(sp, input, keys[..])
  {
    hide Crypt, Unscrun, Word, Byte0, Byte1, Byte2, Byte3, Boxes;
    var work := new word[2];
    work[0] := Word(input[0], input[1], input[2], input[3]);
    work[1] := Word(input[4], input[5], input[6], input[7]);
    DesFunc(work, keys, sp);
    b := Unscrun(Halves(work[0], work[1]));
  }

  method Store(b: seq<byte>, output: array<byte>, at: nat)
    requires |b| == 8 && at + 8 <= output.Length
    modifies output
    ensures output[..at + 8] == old(output[..at]) + b
    ensures forall k :: at + 8 <= k < output.Length ==> output[k] == old(output[k])
  {
    for i := 0 to 8
      invariant forall k :: 0 <= k < at ==> output[k] == old(output[k])
      invariant forall k :: 0 <= k < i ==> output[at + k] == b[k]
      invariant forall k :: at + i <= k < output.Length ==> output[k] == old(output[k])
    {
      output[at + i] := b[i];
    }
  }

  // ----- ECB

  /** Every block by itself. */
  function Blocks(sp: seq<seq<word>>, s: seq<byte>, keys: seq<word>): (r: seq<byte>)
    requires Boxes(sp) && |keys| == 32 && |s| % 8 == 0
    ensures |r| == |s|
    decreases |s|
  {
    hide Block;
    if s == [] then [] else Blocks(sp, s[..|s| - 8], keys) + Block(sp, s[|s| - 8..], keys)
  }

  lemma {:induction false} BlocksUndone(sp: seq<seq<word>>, s: seq<byte>, keys: seq<word>, back: seq<word>)
    requires Boxes(sp) && Reversed(keys, back) && |s| % 8 == 0
    ensures |keys| == 32 && |back| == 32 && Blocks(sp, Blocks(sp, s, keys), back) == s
    decreases |s|
  {
    Lengths(keys, back);
    Nothing(sp, keys);
    Nothing(sp, back);
    hide *;
    if s != [] {
      var t, b := s[..|s| - 8], s[|s| - 8..];
      LastEight(s, t, b);
      BlocksUndone(sp, t, keys, back);
      BlockUndone(sp, b, keys, back);
      OneMore(sp, t, b, keys);
      OneMore(sp, Blocks(sp, t, keys), Block(sp, b, keys), back);
    }
  }

  lemma LastEight(s: seq<byte>, t: seq<byte>, b: seq<byte>)
    requires |s| % 8 == 0 && |s| >= 8 && t == s[..|s| - 8] && b == s[|s| - 8..]
    ensures s == t + b && |t| % 8 == 0 && |b| == 8
  {
  }

  lemma Nothing(sp: seq<seq<word>>, keys: seq<word>)
    requires Boxes(sp) && |keys| == 32
    ensures Blocks(sp, [], keys) == []
  {
  }

  lemma OneMore(sp: seq<seq<word>>, t: seq<byte>, b: seq<byte>, keys: seq<word>)
    requires Boxes(sp) && |keys| == 32 && |t| % 8 == 0 && |b| == 8
    ensures |t + b| % 8 == 0 && Blocks(sp, t + b, keys) == Blocks(sp, t, keys) + Block(sp, b, keys)
  {
    hide Block, Boxes;
    var s := t + b;
    assert s[..|s| - 8] == t && s[|s| - 8..] == b;
  }

  /** Every block is enciphered on its own. */
  lemma {:induction false} BlockAt(sp: seq<seq<word>>, s: seq<byte>, keys: seq<word>, i: nat)
    requires Boxes(sp) && |keys| == 32 && |s| % 8 == 0 && 8 * i + 8 <= |s|
    ensures Blocks(sp, s, keys)[8 * i..8 * i + 8] == Block(sp, s[8 * i..8 * i + 8], keys)
    decreases |s|
  {
    hide *;
    var t, b := s[..|s| - 8], s[|s| - 8..];
    WholeBlocks(i, |s|);
    LastEight(s, t, b);
    OneMore(sp, t, b, keys);
    var r, e := Blocks(sp, t, keys), Block(sp, b, keys);
    if 8 * i + 8 < |s| {
      BlockAt(sp, t, keys, i);
      SliceFront(r, e, 8 * i, 8);
      SliceFront(t, b, 8 * i, 8);
    } else {
      SliceBehind(r, e, 0, 8);
      SliceBehind(t, b, 0, 8);
      assert e[0..8] == e && b[0..8] == b;
    }
  }

  lemma WholeBlocks(i: nat, n: nat)
    requires n % 8 == 0 && 8 * i + 8 <= n
    ensures 8 * i + 8 == n || 8 * i + 16 <= n
  {
  }

  /** __ez_des_set_key */
  function FixedKey(key: seq<byte>): (k: seq<byte>)
    ensures |k| == 8
  {
    if |key| > 8 then key[..8] else key + Zeros(8 - |key|)
  }

  function PaddedLength(n: nat): (m: nat)
    ensures m % 8 == 0 && n <= m < n + 8
  {
    (n + 7) / 8 * 8
  }

  function Padded(s: seq<byte>): (p: seq<byte>)
    ensures |p| == PaddedLength(|s|)
  {
    s + Zeros(PaddedLength(|s|) - |s|)
  }

  function Sealed(key: seq<byte>, text: seq<byte>): (r: seq<byte>)
    ensures |r| == PaddedLength(|text|)
  {
    TablesFit();
    hide TABLES, Schedule, Blocks;
    Blocks(TABLES, Padded(text), Schedule(FixedKey(key), false))
  }

  function Opened(key: seq<byte>, data: seq<byte>): (r: seq<byte>)
    requires |data| % 8 == 0
    ensures |r| == |data|
  {
    TablesFit();
    hide TABLES, Schedule, Blocks;
    Blocks(TABLES, data, Schedule(FixedKey(key), true))
  }

  lemma PaddedBytes(text: seq<byte>)
    ensures var t := Padded(text);
            text <= t && |t| < |text| + 8 && |t| % 8 == 0 && forall i :: |text| <= i < |t| ==> t[i] == 0
  {
  }

  /** The bytes of the key that is used. */
  lemma FixedKeyIs(key: seq<byte>, i: nat)
    requires i < 8
    ensures FixedKey(key)[i] == if i < |key| then key[i] else 0
  {
  }

  /** Opening what was sealed gives the text back, filled up with zeros. */
  lemma OpenedSealed(key: seq<byte>, text: seq<byte>)
    ensures Opened(key, Sealed(key, text)) == Padded(text)
    ensures var t := Opened(key, Sealed(key, text));
            text <= t && |t| < |text| + 8 && |t| % 8 == 0 && forall i :: |text| <= i < |t| ==> t[i] == 0
  {
    PaddedBytes(text);
    TablesFit();
    hide TABLES, Schedule, Blocks, Reversed;
    SchedulesReversed(FixedKey(key), false);
    BlocksUndone(TABLES, Padded(text), Schedule(FixedKey(key), false), Schedule(FixedKey(key), true));
  }

  /** The first j blocks of `result` are done; `s` and `rest` are what the arrays held. */
  ghost predicate Done(result: seq<byte>, orig: seq<byte>, s: seq<byte>, rest: seq<byte>, j: nat, keys: seq<word>, sp: seq<seq<word>>)
    requires Boxes(sp) && |keys| == 32
  {
    8 * j <= |s| && 8 * j <= |result|
    && result[..8 * j] == Blocks(sp, s[..8 * j], keys)
    && KeptFrom(result, rest, 8 * j) && KeptFrom(orig, s, 8 * j)
  }

  lemma NoneYet(sp: seq<seq<word>>, s: seq<byte>, rest: seq<byte>, keys: seq<word>)
    requires Boxes(sp) && |keys| == 32
    ensures Done(rest, s, s, rest, 0, keys, sp)
  {
  }

  /** des on the first j blocks; the arrays may be the same one. */
  method Ecb(result: array<byte>, orig: array<byte>, j: nat, keys: array<word>, sp: seq<seq<word>>)
    requires 8 * j <= orig.Length && 8 * j <= result.Length && keys.Length == 32 && Boxes(sp)
    modifies result
    ensures Done(result[..], orig[..], old(orig[..]), old(result[..]), j, keys[..], sp)
  {
    NoneYet(sp, orig[..], result[..], keys[..]);
    hide *;
    for i := 0 to j
      invariant Done(result[..], orig[..], old(orig[..]), old(result[..]), i, keys[..], sp)
    {
      EcbStep(result, orig, i, old(orig[..]), old(result[..]), keys, sp);
    }
  }

  method EcbStep(result: array<byte>, orig: array<byte>, i: nat, ghost s: seq<byte>, ghost rest: seq<byte>,
                 keys: array<word>, sp: seq<seq<word>>)
    requires 8 * i + 8 <= orig.Length && 8 * i + 8 <= result.Length && keys.Length == 32 && Boxes(sp)
    requires Done(result[..], orig[..], s, rest, i, keys[..], sp)
    modifies result
    ensures keys[..] == old(keys[..]) && Done(result[..], orig[..], s, rest, i + 1, keys[..], sp)
  {
    hide Block, Blocks, Boxes;
    var at := 8 * i;
    assert orig[at..at + 8] == s[at..at + 8];
    var b := DesBlock(orig[at..at + 8], keys, sp);
    Store(b, result, at);
    assert s[..at + 8] == s[..at] + s[at..at + 8];
    OneMore(sp, s[..at], s[at..at + 8], keys[..]);
  }

  method SetKey(key: seq<byte>) returns (fixedKey: seq<byte>)
    ensures fixedKey == FixedKey(key)
  {
    fixedKey := if |key| > 8 then key[..8] else key + Zeros(8 - |key|);
  }

  /** ez_des_ecb_encrypt */
  method EcbEncrypt(result: array<byte>, orig: array<byte>, key: seq<byte>, register: Register)
    returns (r: int)
    requires register.Valid()
    requires PaddedLength(orig.Length) <= result.Length
    modifies result, register.knl
    ensures r == PaddedLength(orig.Length)
    ensures result[..r] == Sealed(key, old(orig[..]))
    ensures KeptFrom(result[..], old(result[..]), r)
  {
    ghost var s := orig[..];
    r := PaddedLength(orig.Length);
    TablesFit();
    hide TABLES, Schedule, Blocks, Block, Boxes, Padded, FixedKey;
    var j := orig.Length / 8;
    var desKey := SetKey(key);
    register.DesKey(desKey, false);
    Ecb(result, orig, j, register.knl, TABLES);
    EcbLast(result, orig, s, register.knl, TABLES);
  }

  /** What is left after the whole blocks is filled up with zeros. */
  method EcbLast(result: array<byte>, orig: array<byte>, ghost s: seq<byte>, keys: array<word>, sp: seq<seq<word>>)
    requires |s| == orig.Length && PaddedLength(|s|) <= result.Length && keys.Length == 32 && Boxes(sp)
    requires KeptFrom(orig[..], s, |s| / 8 * 8)
    requires result[..|s| / 8 * 8] == Blocks(sp, s[..|s| / 8 * 8], keys[..])
    modifies result
    ensures result[..PaddedLength(|s|)] == Blocks(sp, Padded(s), keys[..])
    ensures KeptFrom(result[..], old(result[..]), PaddedLength(|s|))
  {
    PaddedIs(s);
    hide Block, Blocks, Boxes, Padded, PaddedLength, Zeros;
    var n, m := orig.Length / 8 * 8, orig.Length % 8;
    if m != 0 {
      var last := orig[n..] + Zeros(8 - m);
      assert orig[n..] == s[n..];
      var b := DesBlock(last, keys, sp);
      Store(b, result, n);
      OneMore(sp, s[..n], last, keys[..]);
    }
  }

  lemma PaddedIs(s: seq<byte>)
    ensures |s| % 8 == 0 ==> PaddedLength(|s|) == |s| && Padded(s) == s[..|s| / 8 * 8]
    ensures |s| % 8 != 0 ==>
      var n, m := |s| / 8 * 8, |s| % 8;
      PaddedLength(|s|) == n + 8 && Padded(s) == s[..n] + (s[n..] + Zeros(8 - m))
  {
    var n := |s| / 8 * 8;
    assert s == s[..n] + s[n..];
  }

  /** ez_des_ecb_decrypt */
  method EcbDecrypt(result: array<byte>, orig: array<byte>, key: seq<byte>, register: Register)
    returns (r: int)
    requires register.Valid()
    requires orig.Length % 8 == 0 ==> orig.Length <= result.Length
    modifies result, register.knl
    ensures orig.Length % 8 != 0 ==> r == -1 && result[..] == old(result[..]) && register.knl[..] == old(register.knl[..])
    ensures orig.Length % 8 == 0 ==>
      r == orig.Length && result[..r] == Opened(key, old(orig[..])) && KeptFrom(result[..], old(result[..]), r)
  {
    TablesFit();
    hide TABLES, Schedule, Blocks, Boxes;
    if orig.Length % 8 != 0 {
      return -1;
    }
    ghost var s := orig[..];
    var desKey := SetKey(key);
    register.DesKey(desKey, true);
    assert s[..orig.Length] == s;
    Ecb(result, orig, orig.Length / 8, register.knl, TABLES);
    r := orig.Length;
  }
}
