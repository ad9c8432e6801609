/** src/aes.c: the key schedule, CBC over buffers, and the zero-padding wrappers. */
module AesBuffers {
  import opened ByteSeqs
  import opened AesField
  import opened Aes
  import opened AesCbc
  import opened AesCode

  const KEYLEN: nat := 16
  const KEYS: nat := 176

  // ----- the key schedule

  function Rcon(i: nat): byte
    requires i <= 10
  {
    if i == 0 then 0x8d else if i == 1 then 0x01 else if i == 2 then 0x02 else if i == 3 then 0x04
    else if i == 4 then 0x08 else if i == 5 then 0x10 else if i == 6 then 0x20 else if i == 7 then 0x40
    else if i == 8 then 0x80 else if i == 9 then 0x1b else 0x36
  }

  /** The constants are the powers of 2 in the field. */
  lemma RconPowers(i: nat)
    requires 1 <= i < 10
    ensures Rcon(1) == 1 && Rcon(i + 1) == Xtime(Rcon(i))
  {
  }

  predicate IsWord(w: seq<byte>) { |w| == 4 }

  function XorWord(a: seq<byte>, b: seq<byte>): (r: seq<byte>)
    requires IsWord(a) && IsWord(b)
    ensures IsWord(r)
  {
    [Add(a[0], b[0]), Add(a[1], b[1]), Add(a[2], b[2]), Add(a[3], b[3])]
  }

  /** The previous word as it goes into word i (FIPS 197, section 5.2). */
  function Turned(w: seq<byte>, i: nat): (r: seq<byte>)
    requires IsWord(w) && 4 <= i < 44
    ensures IsWord(r)
  {
    if i % 4 == 0 then [Sbox(w[1]) ^ Rcon(i / 4), Sbox(w[2]), Sbox(w[3]), Sbox(w[0])] else w
  }

  function KeyWord(key: seq<byte>, i: nat): (w: seq<byte>)
    requires |key| == KEYLEN && i < 44
    ensures IsWord(w)
  {
    if i < 4 then key[4 * i..4 * i + 4] else XorWord(KeyWord(key, i - 4), Turned(KeyWord(key, i - 1), i))
  }

  /** The first n words of the schedule. */
  function Words(key: seq<byte>, n: nat): (r: seq<byte>)
    requires |key| == KEYLEN && n <= 44
    ensures |r| == 4 * n
  {
    if n == 0 then [] else Words(key, n - 1) + KeyWord(key, n - 1)
  }

  function Expanded(key: seq<byte>): (r: seq<byte>)
    requires |key| == KEYLEN
    ensures |r| == KEYS
  {
    Words(key, 44)
  }

  lemma WordAt(key: seq<byte>, n: nat, i: nat)
    requires |key| == KEYLEN && i < n <= 44
    ensures Words(key, n)[4 * i..4 * i + 4] == KeyWord(key, i)
  {
    hide KeyWord;
    if i < n - 1 {
      WordAt(key, n - 1, i);
      assert Words(key, n)[4 * i..4 * i + 4] == Words(key, n - 1)[4 * i..4 * i + 4];
    }
  }

  /** RotWord, SubWord and the round constant, as the code does them. */
  method TurnWord(t0: byte, t1: byte, t2: byte, t3: byte, i: nat) returns (u0: byte, u1: byte, u2: byte, u3: byte)
    requires 4 <= i < 44
    ensures [u0, u1, u2, u3] == Turned([t0, t1, t2, t3], i)
  {
    hide Sbox, Rcon;
    u0, u1, u2, u3 := t0, t1, t2, t3;
    if i % 4 == 0 {
      var tmp := u0;
      u0 := u1;
      u1 := u2;
      u2 := u3;
      u3 := tmp;
      u0, u1, u2, u3 := Sbox(u0), Sbox(u1), Sbox(u2), Sbox(u3);
      u0 := u0 ^ Rcon(i / 4);
    }
  }

  lemma FourBytes(s: seq<byte>, k: nat)
    requires k + 4 <= |s|
    ensures s[k..k + 4] == [s[k], s[k + 1], s[k + 2], s[k + 3]]
  {
  }

  method PutWord(roundKey: array<byte>, j: nat, w0: byte, w1: byte, w2: byte, w3: byte)
    requires j + 4 <= roundKey.Length
    modifies roundKey
    ensures roundKey[..] == old(roundKey[..j]) + [w0, w1, w2, w3] + old(roundKey[j + 4..])
  {
    roundKey[j] := w0;
    roundKey[j + 1] := w1;
    roundKey[j + 2] := w2;
    roundKey[j + 3] := w3;
  }

  /** Word i of the schedule, from those before it. */
  method ExpandWord(roundKey: array<byte>, i: nat)
    requires roundKey.Length == KEYS && 4 <= i < 44
    modifies roundKey
    ensures var s := old(roundKey[..]);
            roundKey[..] == s[..4 * i] + XorWord(s[4 * i - 16..4 * i - 12], Turned(s[4 * i - 4..4 * i], i)) + s[4 * i + 4..]
  {
    hide Turned, XorWord;
    ghost var s := roundKey[..];
    var k := 4 * i - 4;
    var t0, t1, t2, t3 := TurnWord(roundKey[k], roundKey[k + 1], roundKey[k + 2], roundKey[k + 3], i);
    FourBytes(s, k);
    k := 4 * i - 16;
    FourBytes(s, k);
    var w := XorBytes(roundKey[k], roundKey[k + 1], roundKey[k + 2], roundKey[k + 3], t0, t1, t2, t3);
    PutWord(roundKey, 4 * i, w[0], w[1], w[2], w[3]);
    assert w == [w[0], w[1], w[2], w[3]];
  }

  method XorBytes(a0: byte, a1: byte, a2: byte, a3: byte, b0: byte, b1: byte, b2: byte, b3: byte) returns (w: seq<byte>)
    ensures |w| == 4 && w == XorWord([a0, a1, a2, a3], [b0, b1, b2, b3])
  {
    w := [Add(a0, b0), Add(a1, b1), Add(a2, b2), Add(a3, b3)];
  }

  /** KeyExpansion */
  method KeyExpansion(roundKey: array<byte>, key: seq<byte>)
    requires roundKey.Length == KEYS && |key| == KEYLEN
    modifies roundKey
    ensures roundKey[..] == Expanded(key)
  {
    hide KeyWord, Turned, XorWord;
    for i := 0 to 4
      invariant roundKey[..4 * i] == Words(key, i)
    {
      ghost var s := roundKey[..];
      PutWord(roundKey, 4 * i, key[4 * i], key[4 * i + 1], key[4 * i + 2], key[4 * i + 3]);
      FirstWords(key, s, roundKey[..], i);
    }
    for i := 4 to 44
      invariant roundKey[..4 * i] == Words(key, i)
    {
      ghost var s := roundKey[..];
      ExpandWord(roundKey, i);
      WordsGrow(key, s, roundKey[..], i);
    }
    assert roundKey[..] == roundKey[..4 * 44];
  }

  lemma WordsGrow(key: seq<byte>, s: seq<byte>, t: seq<byte>, i: nat)
    requires |key| == KEYLEN && |s| == |t| == KEYS && 4 <= i < 44 && s[..4 * i] == Words(key, i)
    requires t == s[..4 * i] + XorWord(s[4 * i - 16..4 * i - 12], Turned(s[4 * i - 4..4 * i], i)) + s[4 * i + 4..]
    ensures t[..4 * (i + 1)] == Words(key, i + 1)
  {
    hide KeyWord, Turned, XorWord;
    WordAt(key, i, i - 1);
    WordAt(key, i, i - 4);
    NextWord(key, i);
    assert s[4 * i - 16..4 * i - 12] == s[..4 * i][4 * (i - 4)..4 * (i - 4) + 4];
    assert s[4 * i - 4..4 * i] == s[..4 * i][4 * (i - 1)..4 * (i - 1) + 4];
  }

  lemma FirstWords(key: seq<byte>, s: seq<byte>, t: seq<byte>, i: nat)
    requires |key| == KEYLEN && |s| == |t| == KEYS && i < 4 && s[..4 * i] == Words(key, i)
    requires t == s[..4 * i] + [key[4 * i], key[4 * i + 1], key[4 * i + 2], key[4 * i + 3]] + s[4 * i + 4..]
    ensures t[..4 * (i + 1)] == Words(key, i + 1)
  {
    FirstWord(key, i);
    FourBytes(key, 4 * i);
    hide KeyWord;
  }

  lemma FirstWord(key: seq<byte>, i: nat)
    requires |key| == KEYLEN && i < 4
    ensures KeyWord(key, i) == key[4 * i..4 * i + 4]
  {
  }

  lemma FirstByte(key: seq<byte>, i: nat, k: nat)
    requires |key| == KEYLEN && i < 4 && k < 4
    ensures KeyWord(key, i)[k] == key[4 * i + k]
  {
  }

  lemma NextWord(key: seq<byte>, i: nat)
    requires |key| == KEYLEN && 4 <= i < 44
    ensures KeyWord(key, i) == XorWord(KeyWord(key, i - 4), Turned(KeyWord(key, i - 1), i))
  {
    hide XorWord, Turned;
  }

  /** Byte k of what comes to word i from the word before it, w: the first word of a round
      key takes it turned round, substituted and with the round constant. */
  function Contribution(w: seq<byte>, i: nat, k: nat): byte
    requires IsWord(w) && 4 <= i < 44 && k < 4
  {
    if i % 4 == 0 then Sbox(w[(k + 1) % 4]) ^ (if k == 0 then Rcon(i / 4) else 0) else w[k]
  }

  /** Section 5.2 byte by byte: the first four words are the key, and every later byte is the
      sum of the one four words before it and of what comes from the word before it. */
  lemma ScheduleBytes(key: seq<byte>, i: nat, k: nat)
    requires |key| == KEYLEN && i < 44 && k < 4
    ensures var s := Expanded(key);
            if i < 4 then s[4 * i + k] == key[4 * i + k]
            else Sum(s[4 * i + k], s[4 * i - 16 + k], Contribution(s[4 * i - 4..4 * i], i, k))
  {
    hide *;
    WordBytes(key, i, k);
    if i < 4 {
      FirstByte(key, i, k);
    } else {
      WordBytes(key, i - 4, k);
      WordSlice(key, i - 1);
      NextWord(key, i);
      NextByte(KeyWord(key, i - 4), KeyWord(key, i - 1), i, k);
      assert 4 * (i - 4) + k == 4 * i - 16 + k && 4 * (i - 1) == 4 * i - 4 && 4 * (i - 1) + 4 == 4 * i;
    }
  }

  lemma WordSlice(key: seq<byte>, i: nat)
    requires |key| == KEYLEN && i < 44
    ensures Expanded(key)[4 * i..4 * i + 4] == KeyWord(key, i)
  {
    WordAt(key, 44, i);
    hide Words, KeyWord;
  }

  lemma WordBytes(key: seq<byte>, i: nat, k: nat)
    requires |key| == KEYLEN && i < 44 && k < 4
    ensures Expanded(key)[4 * i + k] == KeyWord(key, i)[k]
  {
    WordAt(key, 44, i);
    hide Words, KeyWord;
    assert Words(key, 44)[4 * i..4 * i + 4][k] == Words(key, 44)[4 * i + k];
  }

  lemma NextByte(a: seq<byte>, w: seq<byte>, i: nat, k: nat)
    requires IsWord(a) && IsWord(w) && 4 <= i < 44 && k < 4
    ensures Sum(XorWord(a, Turned(w, i))[k], a[k], Contribution(w, i, k))
  {
    TurnedByte(w, i, k);
    hide Turned, Contribution;
    XorByte(a, Turned(w, i), k);
    hide XorWord, Sum;
  }

  lemma XorByte(a: seq<byte>, b: seq<byte>, k: nat)
    requires IsWord(a) && IsWord(b) && k < 4
    ensures Sum(XorWord(a, b)[k], a[k], b[k])
  {
    AddIsSum(a[k], b[k]);
    hide Sum, Add;
  }

  lemma TurnedByte(w: seq<byte>, i: nat, k: nat)
    requires IsWord(w) && 4 <= i < 44 && k < 4
    ensures Turned(w, i)[k] == Contribution(w, i, k)
  {
    hide Sbox, Rcon;
    XorZero(Sbox(w[(k + 1) % 4]));
  }

  lemma XorZero(b: byte)
    ensures b ^ 0 == b
  {
  }

  // ----- CBC over buffers

  /** A buffer with the block at `off` replaced. */
  function WithBlock(s: seq<byte>, off: nat, b: seq<byte>): (r: seq<byte>)
    requires IsBlock(b) && off + BLOCK <= |s|
    ensures |r| == |s|
  {
    s[..off] + b + s[off + BLOCK..]
  }

  function BlockAt(s: seq<byte>, off: nat): (b: seq<byte>)
    requires off + BLOCK <= |s|
    ensures IsBlock(b)
  {
    s[off..off + BLOCK]
  }

  /** The state of the cipher: the code casts the buffer, here its block is copied. */
  method Load(buf: array<byte>, off: nat) returns (state: array<byte>)
    requires off + BLOCK <= buf.Length
    ensures fresh(state) && state.Length == BLOCK && state[..] == BlockAt(buf[..], off)
  {
    state := new byte[BLOCK];
    forall k | 0 <= k < BLOCK { state[k] := buf[off + k]; }
  }

  method Store(buf: array<byte>, off: nat, state: array<byte>)
    requires off + BLOCK <= buf.Length && state.Length == BLOCK && state != buf
    modifies buf
    ensures buf[..] == WithBlock(old(buf[..]), off, state[..])
  {
    forall k | 0 <= k < BLOCK { buf[off + k] := state[k]; }
  }

  method XorWithIv(buf: array<byte>, off: nat, iv: seq<byte>)
    requires off + BLOCK <= buf.Length && IsBlock(iv)
    modifies buf
    ensures buf[..] == WithBlock(old(buf[..]), off, Xor(BlockAt(old(buf[..]), off), iv))
  {
    ghost var b, s := BlockAt(buf[..], off), buf[..];
    for i := 0 to BLOCK
      invariant forall k :: 0 <= k < buf.Length ==> buf[k] == if off <= k < off + i then b[k - off] ^ iv[k - off] else s[k]
    {
      buf[off + i] := buf[off + i] ^ iv[i];
    }
    assert buf[..] == WithBlock(s, off, Xor(b, iv));
  }

  lemma BlockTwice(s: seq<byte>, off: nat, b: seq<byte>, c: seq<byte>)
    requires IsBlock(b) && IsBlock(c) && off + BLOCK <= |s|
    ensures BlockAt(WithBlock(s, off, b), off) == b && WithBlock(WithBlock(s, off, b), off, c) == WithBlock(s, off, c)
  {
  }

  function EncryptedBlock(rk: seq<byte>, prev: seq<byte>, b: seq<byte>): (c: seq<byte>)
    requires IsSchedule(rk) && IsBlock(prev) && IsBlock(b)
    ensures IsBlock(c)
  {
    Cipher(Xor(b, prev), rk)
  }

  function DecryptedBlock(rk: seq<byte>, prev: seq<byte>, b: seq<byte>): (c: seq<byte>)
    requires IsSchedule(rk) && IsBlock(prev) && IsBlock(b)
    ensures IsBlock(c)
  {
    Xor(InvCipher(b, rk), prev)
  }

  /** e is what the first i bytes of s become, and prev is the block before the next. */
  predicate Encrypted(rk: seq<byte>, iv: seq<byte>, s: seq<byte>, i: nat, e: seq<byte>, prev: seq<byte>)
    requires IsSchedule(rk) && IsBlock(iv) && i <= |s|
  {
    hide Cipher;
    i % BLOCK == 0 && |e| == i && e == Encrypt(rk, iv, s[..i]) && prev == Last(iv, e)
  }

  predicate Decrypted(rk: seq<byte>, iv: seq<byte>, s: seq<byte>, i: nat, d: seq<byte>, prev: seq<byte>)
    requires IsSchedule(rk) && IsBlock(iv) && i <= |s|
  {
    hide InvCipher;
    i % BLOCK == 0 && |d| == i && d == Decrypt(rk, iv, s[..i]) && prev == Last(iv, s[..i])
  }

  class AesCtx {
    const roundKey: array<byte>
    var iv: seq<byte>

    predicate Valid()
      reads this`iv
    {
      roundKey.Length == KEYS && IsBlock(iv)
    }

    /** AES_init_ctx_iv */
    constructor (key: seq<byte>, iv0: seq<byte>)
      requires |key| == KEYLEN && IsBlock(iv0)
      ensures Valid() && fresh(roundKey) && roundKey[..] == Expanded(key) && iv == iv0
    {
      roundKey := new byte[KEYS];
      iv := iv0;
      new;
      KeyExpansion(roundKey, key);
    }

    /** One block of AES_CBC_encrypt_buffer. */
    method EncryptBlock(buf: array<byte>, off: nat, prev: seq<byte>)
      requires Valid() && off + BLOCK <= buf.Length && buf != roundKey && IsBlock(prev)
      modifies buf
      ensures buf[..] == WithBlock(old(buf[..]), off, EncryptedBlock(roundKey[..], prev, BlockAt(old(buf[..]), off)))
    {
      hide Cipher, Xor, WithBlock, BlockAt;
      ghost var s, rk := buf[..], roundKey[..];
      XorWithIv(buf, off, prev);
      BlockTwice(s, off, Xor(BlockAt(s, off), prev), Cipher(Xor(BlockAt(s, off), prev), rk));
      var state := Load(buf, off);
      CipherInPlace(state, roundKey);
      Store(buf, off, state);
    }

    /** One block of AES_CBC_decrypt_buffer. */
    method DecryptBlock(buf: array<byte>, off: nat)
      requires Valid() && off + BLOCK <= buf.Length && buf != roundKey
      modifies this`iv, buf
      ensures Valid() && iv == BlockAt(old(buf[..]), off)
      ensures buf[..] == WithBlock(old(buf[..]), off, DecryptedBlock(roundKey[..], old(iv), BlockAt(old(buf[..]), off)))
    {
      hide InvCipher, Xor, WithBlock, BlockAt;
      ghost var s, rk := buf[..], roundKey[..];
      var next := buf[off..off + BLOCK];
      assert next == BlockAt(s, off) by { IsBlockAt(s, off); }
      var state := Load(buf, off);
      InvCipherInPlace(state, roundKey);
      Store(buf, off, state);
      ghost var b := InvCipher(BlockAt(s, off), rk);
      BlockTwice(s, off, b, Xor(b, iv));
      XorWithIv(buf, off, iv);
      iv := next;
    }

    /** AES_CBC_encrypt_buffer: the buffer becomes its encryption, and the last block is
        kept for the next call. */
    method EncryptBuffer(buf: array<byte>, length: nat)
      requires Valid() && length <= buf.Length && length % BLOCK == 0 && buf != roundKey
      modifies this`iv, buf
      ensures Valid() && Encrypted(roundKey[..], old(iv), old(buf[..]), length, buf[..length], iv)
      ensures buf[length..] == old(buf[length..])
    {
      hide Encrypted, EncryptedBlock, WithBlock, BlockAt;
      ghost var s, rk, iv0 := buf[..], roundKey[..], iv;
      var prev := iv;
      var i := 0;
      NothingYet(rk, iv0, s);
      assert buf[..0] == [];
      while i < length
        invariant i <= length && i % BLOCK == 0 && roundKey[..] == rk && iv == iv0 && IsBlock(prev)
        invariant Encrypted(rk, iv0, s, i, buf[..i], prev) && buf[i..] == s[i..]
      {
        ghost var was, e := buf[..], buf[..i];
        SameBlock(was, s, i);
        ghost var c := EncryptedBlock(rk, prev, BlockAt(s, i));
        EncryptMore(rk, iv0, s, i, e, prev);
        EncryptBlock(buf, i, prev);
        Around(e, s, i, was, c, buf[..]);
        prev := buf[i..i + BLOCK];
        i := i + BLOCK;
      }
      iv := prev;
    }

    /** AES_CBC_decrypt_buffer */
    method DecryptBuffer(buf: array<byte>, length: nat)
      requires Valid() && length <= buf.Length && length % BLOCK == 0 && buf != roundKey
      modifies this`iv, buf
      ensures Valid() && Decrypted(roundKey[..], old(iv), old(buf[..]), length, buf[..length], iv)
      ensures buf[length..] == old(buf[length..])
    {
      hide Decrypted, DecryptedBlock, WithBlock, BlockAt;
      ghost var s, rk, iv0 := buf[..], roundKey[..], iv;
      var i := 0;
      NothingYet(rk, iv0, s);
      assert buf[..0] == [];
      while i < length
        invariant i <= length && i % BLOCK == 0 && roundKey[..] == rk && Valid()
        invariant Decrypted(rk, iv0, s, i, buf[..i], iv) && buf[i..] == s[i..]
      {
        ghost var was, d := buf[..], buf[..i];
        SameBlock(was, s, i);
        ghost var c := DecryptedBlock(rk, iv, BlockAt(s, i));
        DecryptMore(rk, iv0, s, i, d, iv);
        DecryptBlock(buf, i);
        Around(d, s, i, was, c, buf[..]);
        i := i + BLOCK;
      }
    }
  }

  lemma NothingYet(rk: seq<byte>, iv: seq<byte>, s: seq<byte>)
    requires IsSchedule(rk) && IsBlock(iv)
    ensures Encrypted(rk, iv, s, 0, [], iv) && Decrypted(rk, iv, s, 0, [], iv)
  {
    assert s[..0] == [];
  }

  lemma IsBlockAt(s: seq<byte>, off: nat)
    requires off + BLOCK <= |s|
    ensures BlockAt(s, off) == s[off..off + BLOCK]
  {
  }

  lemma EncryptOne(rk: seq<byte>, iv: seq<byte>, b: seq<byte>)
    requires IsSchedule(rk) && IsBlock(iv) && IsBlock(b)
    ensures Encrypt(rk, iv, b) == Cipher(Xor(b, iv), rk)
  {
    hide Cipher, Xor;
    assert b[..BLOCK] == b && b[BLOCK..] == [];
    assert Cipher(Xor(b, iv), rk) + [] == Cipher(Xor(b, iv), rk);
  }

  lemma DecryptOne(rk: seq<byte>, iv: seq<byte>, b: seq<byte>)
    requires IsSchedule(rk) && IsBlock(iv) && IsBlock(b)
    ensures Decrypt(rk, iv, b) == Xor(InvCipher(b, rk), iv)
  {
    hide InvCipher, Xor;
    assert b[..BLOCK] == b && b[BLOCK..] == [];
    assert Xor(InvCipher(b, rk), iv) + [] == Xor(InvCipher(b, rk), iv);
  }

  /** One more block of a loop. */
  lemma EncryptMore(rk: seq<byte>, iv: seq<byte>, s: seq<byte>, i: nat, e: seq<byte>, prev: seq<byte>)
    requires IsSchedule(rk) && IsBlock(iv) && i + BLOCK <= |s| && IsBlock(prev) && Encrypted(rk, iv, s, i, e, prev)
    ensures var c := EncryptedBlock(rk, prev, BlockAt(s, i));
            Encrypted(rk, iv, s, i + BLOCK, e + c, c)
  {
    hide Cipher, Xor, Encrypt;
    var b := s[i..i + BLOCK];
    EncryptSplit(rk, iv, s[..i], b);
    EncryptOne(rk, prev, b);
    assert s[..i + BLOCK] == s[..i] + b;
    var c := EncryptedBlock(rk, prev, b);
    assert (e + c)[i..] == c;
  }

  lemma DecryptMore(rk: seq<byte>, iv: seq<byte>, s: seq<byte>, i: nat, d: seq<byte>, prev: seq<byte>)
    requires IsSchedule(rk) && IsBlock(iv) && i + BLOCK <= |s| && IsBlock(prev) && Decrypted(rk, iv, s, i, d, prev)
    ensures var b := BlockAt(s, i);
            Decrypted(rk, iv, s, i + BLOCK, d + DecryptedBlock(rk, prev, b), b)
  {
    hide InvCipher, Xor, Decrypt;
    var b := s[i..i + BLOCK];
    DecryptSplit(rk, iv, s[..i], b);
    DecryptOne(rk, prev, b);
    assert s[..i + BLOCK] == s[..i] + b;
    assert (s[..i] + b)[i..] == b;
  }

  /** The buffer around the block at i, when its front is e and the rest is that of s. */
  lemma Around(e: seq<byte>, s: seq<byte>, i: nat, was: seq<byte>, c: seq<byte>, t: seq<byte>)
    requires |e| == i && i + BLOCK <= |s| == |was| && was[..i] == e && was[i..] == s[i..] && IsBlock(c)
    requires t == WithBlock(was, i, c)
    ensures BlockAt(was, i) == s[i..i + BLOCK] == was[i..i + BLOCK]
    ensures |t| == |s| && t[..i + BLOCK] == e + c && t[i..i + BLOCK] == c && t[i + BLOCK..] == s[i + BLOCK..]
  {
    assert was[i..i + BLOCK] == was[i..][..BLOCK];
    assert s[i..i + BLOCK] == s[i..][..BLOCK];
    assert was[i + BLOCK..] == was[i..][BLOCK..];
    assert s[i + BLOCK..] == s[i..][BLOCK..];
  }

  lemma SameBlock(was: seq<byte>, s: seq<byte>, i: nat)
    requires i + BLOCK <= |s| == |was| && was[i..] == s[i..]
    ensures BlockAt(was, i) == BlockAt(s, i)
  {
    assert was[i..i + BLOCK] == was[i..][..BLOCK];
    assert s[i..i + BLOCK] == s[i..][..BLOCK];
  }

  // ----- the zero-padding wrappers

  /** __ez_aes_set_key: a key cut off or filled up with zeros. */
  function FixedKey(key: seq<byte>): (k: seq<byte>)
    ensures |k| == KEYLEN
  {
    if |key| > KEYLEN then key[..KEYLEN] else key + Zeros(KEYLEN - |key|)
  }

  /** ez_aes_cbc_encrypt_out_len: the least multiple of the block length. */
  function OutLen(n: nat): (m: nat)
    ensures m % BLOCK == 0 && n <= m < n + BLOCK
  {
    (n + BLOCK - 1) / BLOCK * BLOCK
  }

  function Padded(s: seq<byte>): (p: seq<byte>)
    ensures IsBlocks(p) && |p| == OutLen(|s|)
  {
    s + Zeros(OutLen(|s|) - |s|)
  }

  /** What the wrappers make of a text: the key is the first block as well. */
  function Sealed(key: seq<byte>, text: seq<byte>): (r: seq<byte>)
    ensures IsBlocks(r) && |r| == OutLen(|text|)
  {
    hide Encrypt, Expanded;
    Encrypt(Expanded(FixedKey(key)), FixedKey(key), Padded(text))
  }

  function Opened(key: seq<byte>, data: seq<byte>): (r: seq<byte>)
    requires IsBlocks(data)
    ensures |r| == |data|
  {
    hide Decrypt, Expanded;
    Decrypt(Expanded(FixedKey(key)), FixedKey(key), data)
  }

  lemma PaddedBytes(text: seq<byte>)
    ensures var t := Padded(text);
            text <= t && |t| < |text| + BLOCK && |t| % BLOCK == 0 && forall i :: |text| <= i < |t| ==> t[i] == 0
  {
  }

  /** The bytes of the key that is used. */
  lemma FixedKeyIs(key: seq<byte>, i: nat)
    requires i < KEYLEN
    ensures FixedKey(key)[i] == if i < |key| then key[i] else 0
  {
  }

  /** Opening what was sealed gives the text back, filled up with zeros. */
  lemma OpenedSealed(key: seq<byte>, text: seq<byte>)
    ensures Opened(key, Sealed(key, text)) == Padded(text)
    ensures var t := Opened(key, Sealed(key, text));
            text <= t && |t| < |text| + BLOCK && |t| % BLOCK == 0 && forall i :: |text| <= i < |t| ==> t[i] == 0
  {
    PaddedBytes(text);
    hide Encrypt, Decrypt, Expanded, Padded;
    DecryptUndoes(Expanded(FixedKey(key)), FixedKey(key), Padded(text));
  }

  /** The buffer with the text at its front and zeros behind it. */
  method Fill(out: array<byte>, text: seq<byte>)
    requires |text| <= out.Length
    modifies out
    ensures out[..] == text + Zeros(out.Length - |text|)
  {
    forall i | 0 <= i < out.Length { out[i] := if i < |text| then text[i] else 0; }
  }

  lemma FrontIsPadded(s: seq<byte>, text: seq<byte>, n: nat)
    requires n == OutLen(|text|) <= |s| && s == text + Zeros(|s| - |text|)
    ensures s[..n] == Padded(text) && s[n..] == Zeros(|s| - n)
  {
  }

  /** ez_aes_cbc_encrypt */
  method CbcEncrypt(out: array<byte>, text: seq<byte>, key: seq<byte>) returns (r: int)
    modifies out
    ensures r == if |text| < 1 || out.Length < |text| || |key| < 1 then -1
                 else if out.Length < OutLen(|text|) then -3
                 else OutLen(|text|)
    ensures r < 0 ==> out[..] == old(out[..])
    ensures r >= 0 ==> out[..] == Sealed(key, text) + Zeros(out.Length - r)
  {
    hide Encrypt, Expanded, FixedKey, Padded, Zeros, OutLen;
    if |text| < 1 || out.Length < |text| || |key| < 1 {
      return -1;
    }
    var k := FixedKey(key);
    var n := OutLen(|text|);
    if out.Length < n {
      return -3;
    }
    Fill(out, text);
    FrontIsPadded(out[..], text, n);
    ghost var s := out[..];
    var ctx := new AesCtx(k, k);
    ctx.EncryptBuffer(out, n);
    assert out[..] == out[..n] + out[n..];
    return n;
  }

  /** ez_aes_cbc_decrypt */
  method CbcDecrypt(out: array<byte>, data: seq<byte>, key: seq<byte>) returns (r: int)
    modifies out
    ensures r == if |data| < 1 || out.Length < |data| || |key| < 1 then -1
                 else if |data| % BLOCK != 0 then -3
                 else |data|
    ensures r < 0 ==> out[..] == old(out[..])
    ensures r >= 0 ==> IsBlocks(data) && out[..] == Opened(key, data) + Zeros(out.Length - r)
  {
    hide Decrypt, Expanded, FixedKey, Zeros;
    if |data| < 1 || out.Length < |data| || |key| < 1 {
      return -1;
    }
    var k := FixedKey(key);
    if |data| % BLOCK != 0 {
      return -3;
    }
    Fill(out, data);
    assert out[..][..|data|] == data && out[..][|data|..] == Zeros(out.Length - |data|);
    var ctx := new AesCtx(k, k);
    ctx.DecryptBuffer(out, |data|);
    assert out[..] == out[..|data|] + out[|data|..];
    return |data|;
  }
}
