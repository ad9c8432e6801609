/** Cipher block chaining with AES and the zero-padding wrappers of src/aes.c. */
module AesCbc {
  import opened ByteSeqs
  import opened AesField
  import opened Aes

  predicate IsBlocks(s: seq<byte>) { |s| % BLOCK == 0 }

  /** The block before the next one: the last of s, or iv when there is none. */
  function Last(iv: seq<byte>, s: seq<byte>): (r: seq<byte>)
    requires IsBlock(iv) && IsBlocks(s)
    ensures IsBlock(r)
  {
    if s == [] then iv else s[|s| - BLOCK..]
  }

  function Encrypt(rk: seq<byte>, iv: seq<byte>, s: seq<byte>): (r: seq<byte>)
    requires IsSchedule(rk) && IsBlock(iv) && IsBlocks(s)
    ensures |r| == |s|
    decreases |s|
  {
    hide Cipher, Xor;
    if s == [] then [] else
      var c := Cipher(Xor(s[..BLOCK], iv), rk);
      c + Encrypt(rk, c, s[BLOCK..])
  }

  function Decrypt(rk: seq<byte>, iv: seq<byte>, s: seq<byte>): (r: seq<byte>)
    requires IsSchedule(rk) && IsBlock(iv) && IsBlocks(s)
    ensures |r| == |s|
    decreases |s|
  {
    hide InvCipher, Xor;
    if s == [] then [] else
      Xor(InvCipher(s[..BLOCK], rk), iv) + Decrypt(rk, s[..BLOCK], s[BLOCK..])
  }

  lemma Halves(c: seq<byte>, t: seq<byte>)
    requires IsBlock(c)
    ensures (c + t)[..BLOCK] == c && (c + t)[BLOCK..] == t
  {
  }

  /** Decryption undoes encryption, for any number of blocks. */
  lemma {:induction false} DecryptUndoes(rk: seq<byte>, iv: seq<byte>, s: seq<byte>)
    requires IsSchedule(rk) && IsBlock(iv) && IsBlocks(s)
    ensures Decrypt(rk, iv, Encrypt(rk, iv, s)) == s
    decreases |s|
  {
    hide Cipher, InvCipher, Xor;
    if s != [] {
      var x := Xor(s[..BLOCK], iv);
      var c := Cipher(x, rk);
      Halves(c, Encrypt(rk, c, s[BLOCK..]));
      InvCipherUndoes(x, rk);
      XorUndoes(s[..BLOCK], iv);
      DecryptUndoes(rk, c, s[BLOCK..]);
      assert s == s[..BLOCK] + s[BLOCK..];
    }
  }

  lemma LastMore(iv: seq<byte>, c: seq<byte>, t: seq<byte>)
    requires IsBlock(iv) && IsBlock(c) && IsBlocks(t)
    ensures Last(iv, c + t) == Last(c, t)
  {
    if t == [] {
      assert c + t == c;
    } else {
      assert |t| >= BLOCK;
      assert (c + t)[|c + t| - BLOCK..] == t[|t| - BLOCK..];
    }
  }

  /** Going on with the last block as the new start is encrypting the whole. */
  lemma {:induction false} EncryptSplit(rk: seq<byte>, iv: seq<byte>, s: seq<byte>, t: seq<byte>)
    requires IsSchedule(rk) && IsBlock(iv) && IsBlocks(s) && IsBlocks(t)
    ensures Encrypt(rk, iv, s + t) == Encrypt(rk, iv, s) + Encrypt(rk, Last(iv, Encrypt(rk, iv, s)), t)
    decreases |s|
  {
    hide Cipher, Xor, Last;
    if s == [] {
      assert s + t == t;
      assert Last(iv, []) == iv by { NoLast(iv); }
    } else {
      var c := Cipher(Xor(s[..BLOCK], iv), rk);
      var r := s[BLOCK..];
      assert (s + t)[..BLOCK] == s[..BLOCK] && (s + t)[BLOCK..] == r + t;
      EncryptSplit(rk, c, r, t);
      LastMore(iv, c, Encrypt(rk, c, r));
      var e, f := Encrypt(rk, c, r), Encrypt(rk, Last(c, Encrypt(rk, c, r)), t);
      assert c + (e + f) == (c + e) + f;
    }
  }

  lemma NoLast(iv: seq<byte>)
    requires IsBlock(iv)
    ensures Last(iv, []) == iv
  {
  }

  lemma {:induction false} DecryptSplit(rk: seq<byte>, iv: seq<byte>, s: seq<byte>, t: seq<byte>)
    requires IsSchedule(rk) && IsBlock(iv) && IsBlocks(s) && IsBlocks(t)
    ensures Decrypt(rk, iv, s + t) == Decrypt(rk, iv, s) + Decrypt(rk, Last(iv, s), t)
    decreases |s|
  {
    hide InvCipher, Xor, Last;
    if s == [] {
      assert s + t == t;
      assert Last(iv, []) == iv by { NoLast(iv); }
    } else {
      var b, r := s[..BLOCK], s[BLOCK..];
      assert (s + t)[..BLOCK] == b && (s + t)[BLOCK..] == r + t && s == b + r;
      DecryptSplit(rk, b, r, t);
      LastMore(iv, b, r);
      var x, e, f := Xor(InvCipher(b, rk), iv), Decrypt(rk, b, r), Decrypt(rk, Last(b, r), t);
      assert x + (e + f) == (x + e) + f;
    }
  }

  /** Block i of the ciphertext is the cipher of the plaintext block with the ciphertext block
      before it added (SP 800-38A, section 6.2). */
  lemma {:induction false} EncryptedBlockIs(rk: seq<byte>, iv: seq<byte>, s: seq<byte>, i: nat)
    requires IsSchedule(rk) && IsBlock(iv) && IsBlocks(s) && BLOCK * i + BLOCK <= |s|
    ensures var (c, o) := (Encrypt(rk, iv, s), BLOCK * i);
            c[o..o + BLOCK] == Cipher(Xor(s[o..o + BLOCK], if i == 0 then iv else c[o - BLOCK..o]), rk)
    decreases i
  {
    hide Cipher, Xor;
    var x, r := s[..BLOCK], s[BLOCK..];
    assert s == x + r;
    EncryptFirst(rk, iv, x, r);
    hide *;
    var b := Cipher(Xor(x, iv), rk);
    var t := Encrypt(rk, b, r);
    if i == 0 {
      SliceFront(b, t, 0, BLOCK);
      SliceFront(x, r, 0, BLOCK);
      assert b[0..BLOCK] == b && x[0..BLOCK] == x;
    } else {
      EncryptedBlockIs(rk, b, r, i - 1);
      var o := BLOCK * (i - 1);
      SliceBehind(b, t, o, BLOCK);
      SliceBehind(x, r, o, BLOCK);
      if i == 1 {
        SliceFront(b, t, 0, BLOCK);
        assert b[0..BLOCK] == b;
      } else {
        SliceBehind(b, t, o - BLOCK, BLOCK);
      }
    }
  }

  lemma EncryptFirst(rk: seq<byte>, iv: seq<byte>, x: seq<byte>, r: seq<byte>)
    requires IsSchedule(rk) && IsBlock(iv) && IsBlock(x) && IsBlocks(r)
    ensures IsBlocks(x + r) && Encrypt(rk, iv, x + r) == Cipher(Xor(x, iv), rk) + Encrypt(rk, Cipher(Xor(x, iv), rk), r)
  {
    hide Cipher, Xor;
    Halves(x, r);
  }
}
