/**
  The block-cipher interface of the KMS crypto library: an AES context that
  holds a key schedule and its round count, the in-place block operations
  AesInitKey, AesEncryptBlock and AesDecryptBlock, and the in-place XorBlock
  primitive. Each method is proved against the pure FIPS 197 functions of
  module Aes.
*/
module AesContext {
  import opened Types
  import opened Aes
  import opened AesVectors

  /** The size of an AES block in bytes. */
  const BlockBytes: nat := 16

  /** The capacity of the key-schedule buffer of a context in bytes: the 15
      round keys of a 14-round schedule. */
  const ScheduleCapacity: nat := 240

  /** memcmp on the first n bytes: 0 when they agree, otherwise -1 or 1 as the
      first differing byte of a is below or above the one of b (bytes are
      compared unsigned). */
  function MemCmp(a: seq<Byte>, b: seq<Byte>, n: nat): (c: int)
    requires n <= |a| && n <= |b|
    ensures -1 <= c <= 1
    ensures c == 0 <==> a[..n] == b[..n]
    decreases n
  {
    if n == 0 then 0
    else if a[0] != b[0] then (if a[0] < b[0] then -1 else 1)
    else
      var c := MemCmp(a[1..], b[1..], n - 1);
      assert a[..n] == [a[0]] + a[1..][..n - 1];
      assert b[..n] == [b[0]] + b[1..][..n - 1];
      c
  }

  /** XorBlock(src, dst): every byte of the 16-byte block dst is XORed with
      the byte of src at the same place. */
  method XorBlock(src: seq<Byte>, dst: array<Byte>)
    requires |src| == BlockBytes && dst.Length == BlockBytes
    modifies dst
    ensures dst[..] == XorBytes(old(dst[..]), src)
  {
    for i := 0 to BlockBytes
      invariant forall j :: 0 <= j < i ==> dst[j] == Add(old(dst[j]), src[j])
      invariant forall j :: i <= j < BlockBytes ==> dst[j] == old(dst[j])
    {
      dst[i] := Add(dst[i], src[i]);
    }
    forall j | 0 <= j < BlockBytes
      ensures dst[..][j] == XorBytes(old(dst[..]), src)[j]
    {
      XorBytesAt(old(dst[..]), src, j);
    }
  }

  /** SubBytes on a block in place, one byte at a time. */
  method SubBytesInPlace(block: array<Byte>)
    requires block.Length == BlockBytes
    modifies block
    ensures block[..] == SubBytes(old(block[..]))
  {
    hide SBox;
    for i := 0 to BlockBytes
      invariant forall j :: 0 <= j < i ==> block[j] == SBox(old(block[j]))
      invariant forall j :: i <= j < BlockBytes ==> block[j] == old(block[j])
    {
      block[i] := SBox(block[i]);
    }
  }

  /** InvSubBytes on a block in place, one byte at a time. */
  method InvSubBytesInPlace(block: array<Byte>)
    requires block.Length == BlockBytes
    modifies block
    ensures block[..] == InvSubBytes(old(block[..]))
  {
    hide InvSBox;
    for i := 0 to BlockBytes
      invariant forall j :: 0 <= j < i ==> block[j] == InvSBox(old(block[j]))
      invariant forall j :: i <= j < BlockBytes ==> block[j] == old(block[j])
    {
      block[i] := InvSBox(block[i]);
    }
  }

  /** Overwrites the block with the 16 bytes of s. */
  method StoreBlock(block: array<Byte>, s: seq<Byte>)
    requires block.Length == BlockBytes && |s| == BlockBytes
    modifies block
    ensures block[..] == s
  {
    for i := 0 to BlockBytes
      invariant forall j :: 0 <= j < i ==> block[j] == s[j]
    {
      block[i] := s[i];
    }
  }

  /** Stores the word w at bytes at .. at + 3 of buf, after the at bytes
      already there. */
  method AppendWord(buf: array<Byte>, at: nat, w: seq<Byte>)
    requires |w| == 4 && at + 4 <= buf.Length
    modifies buf
    ensures buf[..at + 4] == old(buf[..at]) + w
  {
    buf[at] := w[0];
    buf[at + 1] := w[1];
    buf[at + 2] := w[2];
    buf[at + 3] := w[3];
  }

  /** Fills buf with the first n words of the key schedule of a key of nk
      words: the key itself, then one word at a time by the recurrence of
      section 5.2 of FIPS 197. */
  method ExpandKeyInto(buf: array<Byte>, key: seq<Byte>, nk: nat, n: nat)
    requires 1 <= nk <= n && |key| == 4 * nk && 4 * n <= buf.Length
    modifies buf
    ensures buf[..4 * n] == ExpandedKey(key, nk, n)
  {
    hide KeyWord;
    for i := 0 to 4 * nk
      invariant forall j :: 0 <= j < i ==> buf[j] == key[j]
    {
      buf[i] := key[i];
    }
    assert buf[..4 * nk] == ExpandedKey(key, nk, nk);
    var i := nk;
    while i < n
      invariant nk <= i <= n
      invariant buf[..4 * i] == ExpandedKey(key, nk, i)
    {
      var w := KeyWord(buf[..4 * i], nk, i);
      AppendWord(buf, 4 * i, w);
      i := i + 1;
    }
  }

  /** The state of AesInitKey, AesEncryptBlock and AesDecryptBlock. */
  class AesCtx {
    /** The key schedule, 16 bytes per round key. */
    var Key: array<Byte>
    /** The number of rounds Nr. */
    var rounds: nat

    /** A context whose key has not been set: an empty schedule of zero rounds. */
    constructor ()
      ensures fresh(Key) && Key.Length == ScheduleCapacity && rounds == 0
    {
      Key := new Byte[ScheduleCapacity];
      rounds := 0;
    }

    /** The part of the buffer the rounds use: round keys 0 .. rounds. */
    function Schedule(): (w: seq<Byte>)
      reads this, Key
      requires 16 * (rounds + 1) <= Key.Length
      ensures |w| == 16 * (rounds + 1)
    {
      Key[..16 * (rounds + 1)]
    }

    /** AesInitKey(ctx, key, selector, keyBytes): sets the round count for a
        key of keyBytes bytes and fills the schedule. For selector 0 the
        schedule is the KeyExpansion of FIPS 197; the variant that selector 1
        requests is not modelled, so the contract leaves its schedule open. */
    method InitKey(key: seq<Byte>, selector: nat, keyBytes: nat)
      requires keyBytes == 16 || keyBytes == 24 || keyBytes == 32
      requires |key| == keyBytes && Key.Length == ScheduleCapacity
      modifies this, Key
      ensures Key == old(Key) && Key.Length == ScheduleCapacity
      ensures rounds == NumRounds(keyBytes)
      ensures 16 * (rounds + 1) <= Key.Length
      ensures selector == 0 ==> Schedule() == KeyExpansion(key)
    {
      var nk := if keyBytes == 16 then 4 else if keyBytes == 24 then 6 else 8;
      assert nk == keyBytes / 4 && 4 * nk == keyBytes;
      ExpandKeyInto(Key, key, nk, 4 * (NumRounds(keyBytes) + 1));
      rounds := NumRounds(keyBytes);
    }

    /** AddRoundKey with round key r of the schedule, through XorBlock. */
    method AddRoundKey(block: array<Byte>, r: nat)
      requires block.Length == BlockBytes && block != Key
      requires r <= rounds && 16 * (rounds + 1) <= Key.Length
      modifies block
      ensures block[..] == XorBytes(old(block[..]), RoundKey(Schedule(), r))
    {
      assert Key[16 * r .. 16 * r + 16] == RoundKey(Schedule(), r);
      XorBlock(Key[16 * r .. 16 * r + 16], block);
    }

    /** AesEncryptBlock(ctx, block): the cipher of section 5.1 of FIPS 197 on
        the block, in place. */
    method EncryptBlock(block: array<Byte>)
      requires block.Length == BlockBytes && block != Key
      requires 1 <= rounds && 16 * (rounds + 1) <= Key.Length
      modifies block
      ensures block[..] == Encrypt(Schedule(), rounds, old(block[..]))
    {
      hide SubBytes, ShiftRows, MixColumns, XorBytes, RoundKey;
      ghost var w := Schedule();
      ghost var s0 := XorBytes(block[..], RoundKey(w, 0));
      AddRoundKey(block, 0);
      var r := 1;
      while r < rounds
        invariant 1 <= r <= rounds
        invariant block[..] == CipherRounds(s0, w, r - 1)
      {
        ghost var s := block[..];
        SubBytesInPlace(block);
        StoreBlock(block, ShiftRows(block[..]));
        StoreBlock(block, MixColumns(block[..]));
        AddRoundKey(block, r);
        assert block[..] == Round(s, RoundKey(w, r));
        r := r + 1;
      }
      ghost var s := block[..];
      SubBytesInPlace(block);
      StoreBlock(block, ShiftRows(block[..]));
      AddRoundKey(block, rounds);
      assert block[..] == FinalRound(s, RoundKey(w, rounds));
    }

    /** AesDecryptBlock(ctx, block): the inverse cipher of section 5.3 of
        FIPS 197 on the block, in place. */
    method DecryptBlock(block: array<Byte>)
      requires block.Length == BlockBytes && block != Key
      requires 1 <= rounds && 16 * (rounds + 1) <= Key.Length
      modifies block
      ensures block[..] == Decrypt(Schedule(), rounds, old(block[..]))
    {
      hide InvSubBytes, InvShiftRows, InvMixColumns, XorBytes, RoundKey;
      ghost var w := Schedule();
      AddRoundKey(block, rounds);
      ghost var s0 := block[..];
      var r := rounds - 1;
      while r > 0
        invariant 0 <= r <= rounds - 1
        invariant InvCipherRounds(block[..], w, r) == InvCipherRounds(s0, w, rounds - 1)
      {
        ghost var s := block[..];
        StoreBlock(block, InvShiftRows(block[..]));
        InvSubBytesInPlace(block);
        AddRoundKey(block, r);
        StoreBlock(block, InvMixColumns(block[..]));
        assert block[..] == InvRound(s, RoundKey(w, r));
        r := r - 1;
      }
      ghost var s := block[..];
      StoreBlock(block, InvShiftRows(block[..]));
      InvSubBytesInPlace(block);
      AddRoundKey(block, 0);
      assert block[..] == InvFinalRound(s, RoundKey(w, 0));
    }
  }

  /** A fresh block holding the 16 bytes of s. */
  method NewBlock(s: seq<Byte>) returns (block: array<Byte>)
    requires |s| == BlockBytes
    ensures fresh(block) && block[..] == s
  {
    block := new Byte[BlockBytes];
    StoreBlock(block, s);
  }

  /** Key setup of a 16-byte key: 10 rounds for selector 0 (V5) and for
      selector 1 (V6) alike. */
  method InitKeyRounds(key: seq<Byte>) returns (roundsV5: nat, roundsV6: nat)
    requires |key| == 16
    ensures roundsV5 == 10 && roundsV6 == 10
  {
    var ctx := new AesCtx();
    ctx.InitKey(key, 0, 16);
    roundsV5 := ctx.rounds;
    ctx.InitKey(key, 1, 16);
    roundsV6 := ctx.rounds;
  }

  /** Key setup with selector 0, encryption of a copy of the plaintext, then
      decryption of a copy of the ciphertext: the plaintext comes back, and
      for the FIPS 197 example the ciphertext differs from the plaintext. */
  method EncryptDecryptRoundTrip(key: seq<Byte>, plaintext: seq<Byte>)
    returns (encrypted: seq<Byte>, decrypted: seq<Byte>)
    requires |key| == 16 && |plaintext| == BlockBytes
    ensures |encrypted| == BlockBytes
    ensures decrypted == plaintext
    ensures key == FipsKey && plaintext == FipsPlaintext ==> MemCmp(plaintext, encrypted, 16) != 0
  {
    hide Encrypt, Decrypt, KeyExpansion, ExpandedKey, MemCmp;
    var ctx := new AesCtx();
    ctx.InitKey(key, 0, 16);
    var block := NewBlock(plaintext);
    ctx.EncryptBlock(block);
    encrypted := block[..];
    var block2 := NewBlock(encrypted);
    ctx.DecryptBlock(block2);
    decrypted := block2[..];
    DecryptEncrypt(ctx.Schedule(), 10, plaintext);
    if key == FipsKey && plaintext == FipsPlaintext {
      FipsEncrypt();
      FipsDecrypt();
      assert encrypted == FipsCiphertext;
      assert plaintext[..16] == plaintext && encrypted[..16] == encrypted;
    }
  }

  /** The FIPS 197 Appendix B example through the context: key setup with
      selector 0 and AesEncryptBlock give the listed ciphertext. */
  method EncryptKnownVector() returns (ciphertext: seq<Byte>)
    ensures ciphertext == FipsCiphertext
  {
    hide Encrypt, KeyExpansion, ExpandedKey;
    var ctx := new AesCtx();
    ctx.InitKey(FipsKey, 0, 16);
    var block := NewBlock(FipsPlaintext);
    ctx.EncryptBlock(block);
    ciphertext := block[..];
    FipsEncrypt();
  }

  /** XorBlock on the blocks of the XorBlock checks: complementary blocks give
      all 0xff bytes, and a block XORed into a copy of itself gives zeros. */
  method XorBlockChecks() returns (ones: seq<Byte>, zeros: seq<Byte>)
    ensures ones == seq(16, _ => 0xff)
    ensures zeros == seq(16, _ => 0)
  {
    var input1: seq<Byte> := [0x00, 0x11, 0x22, 0x33, 0x44, 0x55, 0x66, 0x77,
                              0x88, 0x99, 0xaa, 0xbb, 0xcc, 0xdd, 0xee, 0xff];
    var input2: seq<Byte> := [0xff, 0xee, 0xdd, 0xcc, 0xbb, 0xaa, 0x99, 0x88,
                              0x77, 0x66, 0x55, 0x44, 0x33, 0x22, 0x11, 0x00];
    var output := NewBlock(input2);
    XorBlock(input1, output);
    ones := output[..];
    XorBytesComplement(input1, input2);
    var output2 := NewBlock(input1);
    XorBlock(input1, output2);
    zeros := output2[..];
    XorBytesSelf(input1);
  }

  /** The built-in keys AesKeyV5 and AesKeyV6 are 16-byte blocks that differ,
      so memcmp over their 16 bytes is not 0. */
  lemma BuiltinKeysDiffer(keyV5: seq<Byte>, keyV6: seq<Byte>)
    requires |keyV5| == 16 && |keyV6| == 16 && keyV5 != keyV6
    ensures MemCmp(keyV5, keyV6, 16) != 0
    ensures exists i :: 0 <= i < 16 && keyV5[i] != keyV6[i]
  {
    assert keyV5[..16] == keyV5 && keyV6[..16] == keyV6;
  }
}
