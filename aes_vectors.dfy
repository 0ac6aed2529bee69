/**
  The AES-128 cipher example of FIPS 197 Appendix B, with the key expansion
  of Appendix A.1: the key 2b7e1516..09cf4f3c encrypts the block
  3243f6a8..e0370734 to 3925841d..196a0b32, and the inverse cipher maps it
  back. The proof follows the example round by round: every schedule word and
  every round is checked on its listed values, and the checks are chained by
  induction over the rounds.
*/
module AesVectors {
  import opened Types
  import opened Aes

  /** The key, plaintext and ciphertext of the cipher example of FIPS 197
      Appendix B. */
  const FipsKey: seq<Byte> :=
    [0x2b, 0x7e, 0x15, 0x16, 0x28, 0xae, 0xd2, 0xa6, 0xab, 0xf7, 0x15, 0x88, 0x09, 0xcf, 0x4f, 0x3c]
  const FipsPlaintext: seq<Byte> :=
    [0x32, 0x43, 0xf6, 0xa8, 0x88, 0x5a, 0x30, 0x8d, 0x31, 0x31, 0x98, 0xa2, 0xe0, 0x37, 0x07, 0x34]
  const FipsCiphertext: seq<Byte> :=
    [0x39, 0x25, 0x84, 0x1d, 0x02, 0xdc, 0x09, 0xfb, 0xdc, 0x11, 0x85, 0x97, 0x19, 0x6a, 0x0b, 0x32]

  /** Xor of two words, byte by byte. */
  lemma XorWord(a: seq<Byte>, b: seq<Byte>)
    requires |a| == |b| == 4
    ensures XorBytes(a, b) == [Add(a[0], b[0]), Add(a[1], b[1]), Add(a[2], b[2]), Add(a[3], b[3])]
  {
    hide Add;
  }

  /** Words 4r .. 4r + 3 of an AES-128 schedule from the four words before them. */
  function RoundKeyAfter(p: seq<Byte>, r: nat): (k: seq<Byte>)
    requires |p| == 16 && 1 <= r
    ensures |k| == 16
  {
    var w0 := ScheduleWord(p[0..4], p[12..16], 4, 4 * r);
    var w1 := ScheduleWord(p[4..8], w0, 4, 4 * r + 1);
    var w2 := ScheduleWord(p[8..12], w1, 4, 4 * r + 2);
    var w3 := ScheduleWord(p[12..16], w2, 4, 4 * r + 3);
    w0 + w1 + w2 + w3
  }

  /** In an AES-128 schedule the words of round key r follow from those of
      round key r - 1 alone. */
  lemma RoundKeyStep(key: seq<Byte>, r: nat)
    requires |key| == 16 && 1 <= r
    ensures ExpandedKey(key, 4, 4 * r + 4)[16 * r .. 16 * r + 16]
         == RoundKeyAfter(ExpandedKey(key, 4, 4 * r)[16 * r - 16 .. 16 * r], r)
  {
    hide ScheduleWord;
    var e0 := ExpandedKey(key, 4, 4 * r);
    var p := e0[16 * r - 16 .. 16 * r];
    var w0 := ScheduleWord(p[0..4], p[12..16], 4, 4 * r);
    var w1 := ScheduleWord(p[4..8], w0, 4, 4 * r + 1);
    var w2 := ScheduleWord(p[8..12], w1, 4, 4 * r + 2);
    var w3 := ScheduleWord(p[12..16], w2, 4, 4 * r + 3);
    var e1 := ExpandedKey(key, 4, 4 * r + 1);
    assert e1 == e0 + w0 by {
      assert e0[16 * r - 16 .. 16 * r - 12] == p[0..4];
      assert e0[16 * r - 4 .. 16 * r] == p[12..16];
    }
    var e2 := ExpandedKey(key, 4, 4 * r + 2);
    assert e2 == e1 + w1 by {
      assert e1[16 * r - 12 .. 16 * r - 8] == p[4..8];
      assert e1[16 * r .. 16 * r + 4] == w0;
    }
    var e3 := ExpandedKey(key, 4, 4 * r + 3);
    assert e3 == e2 + w2 by {
      assert e2[16 * r - 8 .. 16 * r - 4] == p[8..12];
      assert e2[16 * r + 4 .. 16 * r + 8] == w1;
    }
    var e4 := ExpandedKey(key, 4, 4 * r + 4);
    assert e4 == e3 + w3 by {
      assert e3[16 * r - 4 .. 16 * r] == p[12..16];
      assert e3[16 * r + 8 .. 16 * r + 12] == w2;
    }
    assert e4[16 * r .. 16 * r + 16] == w0 + w1 + w2 + w3;
  }

  /** Xor of two blocks, byte by byte. */
  lemma XorBlockBytes(a: seq<Byte>, b: seq<Byte>)
    requires |a| == |b| == 16
    ensures XorBytes(a, b)
         == [Add(a[0], b[0]), Add(a[1], b[1]), Add(a[2], b[2]), Add(a[3], b[3]),
             Add(a[4], b[4]), Add(a[5], b[5]), Add(a[6], b[6]), Add(a[7], b[7]),
             Add(a[8], b[8]), Add(a[9], b[9]), Add(a[10], b[10]), Add(a[11], b[11]),
             Add(a[12], b[12]), Add(a[13], b[13]), Add(a[14], b[14]), Add(a[15], b[15])]
  {
    hide *;
    var x := XorBytes(a, b);
    assert |x| == 16;
    forall i | 0 <= i < 16
      ensures x[i] == Add(a[i], b[i])
    {
      XorBytesAt(a, b, i);
    }
  }

  /** The round keys of the example, from the expansion of FipsKey listed in
      FIPS 197 Appendix A.1. */
  function FipsRoundKey(r: nat): (k: seq<Byte>)
    requires r <= 10
    ensures |k| == 16
  {

    if r == 0 then [0x2b, 0x7e, 0x15, 0x16, 0x28, 0xae, 0xd2, 0xa6, 0xab, 0xf7, 0x15, 0x88, 0x09, 0xcf, 0x4f, 0x3c]
    else
    if r == 1 then [0xa0, 0xfa, 0xfe, 0x17, 0x88, 0x54, 0x2c, 0xb1, 0x23, 0xa3, 0x39, 0x39, 0x2a, 0x6c, 0x76, 0x05]
    else
    if r == 2 then [0xf2, 0xc2, 0x95, 0xf2, 0x7a, 0x96, 0xb9, 0x43, 0x59, 0x35, 0x80, 0x7a, 0x73, 0x59, 0xf6, 0x7f]
    else
    if r == 3 then [0x3d, 0x80, 0x47, 0x7d, 0x47, 0x16, 0xfe, 0x3e, 0x1e, 0x23, 0x7e, 0x44, 0x6d, 0x7a, 0x88, 0x3b]
    else
    if r == 4 then [0xef, 0x44, 0xa5, 0x41, 0xa8, 0x52, 0x5b, 0x7f, 0xb6, 0x71, 0x25, 0x3b, 0xdb, 0x0b, 0xad, 0x00]
    else
    if r == 5 then [0xd4, 0xd1, 0xc6, 0xf8, 0x7c, 0x83, 0x9d, 0x87, 0xca, 0xf2, 0xb8, 0xbc, 0x11, 0xf9, 0x15, 0xbc]
    else
    if r == 6 then [0x6d, 0x88, 0xa3, 0x7a, 0x11, 0x0b, 0x3e, 0xfd, 0xdb, 0xf9, 0x86, 0x41, 0xca, 0x00, 0x93, 0xfd]
    else
    if r == 7 then [0x4e, 0x54, 0xf7, 0x0e, 0x5f, 0x5f, 0xc9, 0xf3, 0x84, 0xa6, 0x4f, 0xb2, 0x4e, 0xa6, 0xdc, 0x4f]
    else
    if r == 8 then [0xea, 0xd2, 0x73, 0x21, 0xb5, 0x8d, 0xba, 0xd2, 0x31, 0x2b, 0xf5, 0x60, 0x7f, 0x8d, 0x29, 0x2f]
    else
    if r == 9 then [0xac, 0x77, 0x66, 0xf3, 0x19, 0xfa, 0xdc, 0x21, 0x28, 0xd1, 0x29, 0x41, 0x57, 0x5c, 0x00, 0x6e]
    else
    [0xd0, 0x14, 0xf9, 0xa8, 0xc9, 0xee, 0x25, 0x89, 0xe1, 0x3f, 0x0c, 0xc8, 0xb6, 0x63, 0x0c, 0xa6]
  }


  /** The state at the start of round r + 1 of the example (the "Start of
      Round" column of FIPS 197 Appendix B); FipsState(10) is the output. */
  function FipsState(r: nat): (s: seq<Byte>)
    requires r <= 10
    ensures |s| == 16
  {
    if r == 0 then [0x19, 0x3d, 0xe3, 0xbe, 0xa0, 0xf4, 0xe2, 0x2b, 0x9a, 0xc6, 0x8d, 0x2a, 0xe9, 0xf8, 0x48, 0x08]
    else
    if r == 1 then [0xa4, 0x9c, 0x7f, 0xf2, 0x68, 0x9f, 0x35, 0x2b, 0x6b, 0x5b, 0xea, 0x43, 0x02, 0x6a, 0x50, 0x49]
    else
    if r == 2 then [0xaa, 0x8f, 0x5f, 0x03, 0x61, 0xdd, 0xe3, 0xef, 0x82, 0xd2, 0x4a, 0xd2, 0x68, 0x32, 0x46, 0x9a]
    else
    if r == 3 then [0x48, 0x6c, 0x4e, 0xee, 0x67, 0x1d, 0x9d, 0x0d, 0x4d, 0xe3, 0xb1, 0x38, 0xd6, 0x5f, 0x58, 0xe7]
    else
    if r == 4 then [0xe0, 0x92, 0x7f, 0xe8, 0xc8, 0x63, 0x63, 0xc0, 0xd9, 0xb1, 0x35, 0x50, 0x85, 0xb8, 0xbe, 0x01]
    else
    if r == 5 then [0xf1, 0x00, 0x6f, 0x55, 0xc1, 0x92, 0x4c, 0xef, 0x7c, 0xc8, 0x8b, 0x32, 0x5d, 0xb5, 0xd5, 0x0c]
    else
    if r == 6 then [0x26, 0x0e, 0x2e, 0x17, 0x3d, 0x41, 0xb7, 0x7d, 0xe8, 0x64, 0x72, 0xa9, 0xfd, 0xd2, 0x8b, 0x25]
    else
    if r == 7 then [0x5a, 0x41, 0x42, 0xb1, 0x19, 0x49, 0xdc, 0x1f, 0xa3, 0xe0, 0x19, 0x65, 0x7a, 0x8c, 0x04, 0x0c]
    else
    if r == 8 then [0xea, 0x83, 0x5c, 0xf0, 0x04, 0x45, 0x33, 0x2d, 0x65, 0x5d, 0x98, 0xad, 0x85, 0x96, 0xb0, 0xc5]
    else
    if r == 9 then [0xeb, 0x40, 0xf2, 0x1e, 0x59, 0x2e, 0x38, 0x84, 0x8b, 0xa1, 0x13, 0xe7, 0x1b, 0xc3, 0x42, 0xd2]
    else
    [0x39, 0x25, 0x84, 0x1d, 0x02, 0xdc, 0x09, 0xfb, 0xdc, 0x11, 0x85, 0x97, 0x19, 0x6a, 0x0b, 0x32]
  }


  /** Word i of the schedule of FipsKey from words i - 4 and i - 1, as listed
      in Appendix A.1. */
  lemma FipsWord4()
    ensures ScheduleWord([0x2b, 0x7e, 0x15, 0x16], [0x09, 0xcf, 0x4f, 0x3c], 4, 4) == [0xa0, 0xfa, 0xfe, 0x17]
  {
    XorWord([0x2b, 0x7e, 0x15, 0x16], XorBytes(SubWord(RotWord([0x09, 0xcf, 0x4f, 0x3c])), [RconByte(1), 0, 0, 0]));
  }

  lemma FipsWord5()
    ensures ScheduleWord([0x28, 0xae, 0xd2, 0xa6], [0xa0, 0xfa, 0xfe, 0x17], 4, 5) == [0x88, 0x54, 0x2c, 0xb1]
  {
    XorWord([0x28, 0xae, 0xd2, 0xa6], [0xa0, 0xfa, 0xfe, 0x17]);
  }

  lemma FipsWord6()
    ensures ScheduleWord([0xab, 0xf7, 0x15, 0x88], [0x88, 0x54, 0x2c, 0xb1], 4, 6) == [0x23, 0xa3, 0x39, 0x39]
  {
    XorWord([0xab, 0xf7, 0x15, 0x88], [0x88, 0x54, 0x2c, 0xb1]);
  }

  lemma FipsWord7()
    ensures ScheduleWord([0x09, 0xcf, 0x4f, 0x3c], [0x23, 0xa3, 0x39, 0x39], 4, 7) == [0x2a, 0x6c, 0x76, 0x05]
  {
    XorWord([0x09, 0xcf, 0x4f, 0x3c], [0x23, 0xa3, 0x39, 0x39]);
  }

  lemma FipsWord8()
    ensures ScheduleWord([0xa0, 0xfa, 0xfe, 0x17], [0x2a, 0x6c, 0x76, 0x05], 4, 8) == [0xf2, 0xc2, 0x95, 0xf2]
  {
    XorWord([0xa0, 0xfa, 0xfe, 0x17], XorBytes(SubWord(RotWord([0x2a, 0x6c, 0x76, 0x05])), [RconByte(2), 0, 0, 0]));
  }

  lemma FipsWord9()
    ensures ScheduleWord([0x88, 0x54, 0x2c, 0xb1], [0xf2, 0xc2, 0x95, 0xf2], 4, 9) == [0x7a, 0x96, 0xb9, 0x43]
  {
    XorWord([0x88, 0x54, 0x2c, 0xb1], [0xf2, 0xc2, 0x95, 0xf2]);
  }

  lemma FipsWord10()
    ensures ScheduleWord([0x23, 0xa3, 0x39, 0x39], [0x7a, 0x96, 0xb9, 0x43], 4, 10) == [0x59, 0x35, 0x80, 0x7a]
  {
    XorWord([0x23, 0xa3, 0x39, 0x39], [0x7a, 0x96, 0xb9, 0x43]);
  }

  lemma FipsWord11()
    ensures ScheduleWord([0x2a, 0x6c, 0x76, 0x05], [0x59, 0x35, 0x80, 0x7a], 4, 11) == [0x73, 0x59, 0xf6, 0x7f]
  {
    XorWord([0x2a, 0x6c, 0x76, 0x05], [0x59, 0x35, 0x80, 0x7a]);
  }

  lemma FipsWord12()
    ensures ScheduleWord([0xf2, 0xc2, 0x95, 0xf2], [0x73, 0x59, 0xf6, 0x7f], 4, 12) == [0x3d, 0x80, 0x47, 0x7d]
  {
    XorWord([0xf2, 0xc2, 0x95, 0xf2], XorBytes(SubWord(RotWord([0x73, 0x59, 0xf6, 0x7f])), [RconByte(3), 0, 0, 0]));
  }

  lemma FipsWord13()
    ensures ScheduleWord([0x7a, 0x96, 0xb9, 0x43], [0x3d, 0x80, 0x47, 0x7d], 4, 13) == [0x47, 0x16, 0xfe, 0x3e]
  {
    XorWord([0x7a, 0x96, 0xb9, 0x43], [0x3d, 0x80, 0x47, 0x7d]);
  }

  lemma FipsWord14()
    ensures ScheduleWord([0x59, 0x35, 0x80, 0x7a], [0x47, 0x16, 0xfe, 0x3e], 4, 14) == [0x1e, 0x23, 0x7e, 0x44]
  {
    XorWord([0x59, 0x35, 0x80, 0x7a], [0x47, 0x16, 0xfe, 0x3e]);
  }

  lemma FipsWord15()
    ensures ScheduleWord([0x73, 0x59, 0xf6, 0x7f], [0x1e, 0x23, 0x7e, 0x44], 4, 15) == [0x6d, 0x7a, 0x88, 0x3b]
  {
    XorWord([0x73, 0x59, 0xf6, 0x7f], [0x1e, 0x23, 0x7e, 0x44]);
  }

  lemma FipsWord16()
    ensures ScheduleWord([0x3d, 0x80, 0x47, 0x7d], [0x6d, 0x7a, 0x88, 0x3b], 4, 16) == [0xef, 0x44, 0xa5, 0x41]
  {
    XorWord([0x3d, 0x80, 0x47, 0x7d], XorBytes(SubWord(RotWord([0x6d, 0x7a, 0x88, 0x3b])), [RconByte(4), 0, 0, 0]));
  }

  lemma FipsWord17()
    ensures ScheduleWord([0x47, 0x16, 0xfe, 0x3e], [0xef, 0x44, 0xa5, 0x41], 4, 17) == [0xa8, 0x52, 0x5b, 0x7f]
  {
    XorWord([0x47, 0x16, 0xfe, 0x3e], [0xef, 0x44, 0xa5, 0x41]);
  }

  lemma FipsWord18()
    ensures ScheduleWord([0x1e, 0x23, 0x7e, 0x44], [0xa8, 0x52, 0x5b, 0x7f], 4, 18) == [0xb6, 0x71, 0x25, 0x3b]
  {
    XorWord([0x1e, 0x23, 0x7e, 0x44], [0xa8, 0x52, 0x5b, 0x7f]);
  }

  lemma FipsWord19()
    ensures ScheduleWord([0x6d, 0x7a, 0x88, 0x3b], [0xb6, 0x71, 0x25, 0x3b], 4, 19) == [0xdb, 0x0b, 0xad, 0x00]
  {
    XorWord([0x6d, 0x7a, 0x88, 0x3b], [0xb6, 0x71, 0x25, 0x3b]);
  }

  lemma FipsWord20()
    ensures ScheduleWord([0xef, 0x44, 0xa5, 0x41], [0xdb, 0x0b, 0xad, 0x00], 4, 20) == [0xd4, 0xd1, 0xc6, 0xf8]
  {
    XorWord([0xef, 0x44, 0xa5, 0x41], XorBytes(SubWord(RotWord([0xdb, 0x0b, 0xad, 0x00])), [RconByte(5), 0, 0, 0]));
  }

  lemma FipsWord21()
    ensures ScheduleWord([0xa8, 0x52, 0x5b, 0x7f], [0xd4, 0xd1, 0xc6, 0xf8], 4, 21) == [0x7c, 0x83, 0x9d, 0x87]
  {
    XorWord([0xa8, 0x52, 0x5b, 0x7f], [0xd4, 0xd1, 0xc6, 0xf8]);
  }

  lemma FipsWord22()
    ensures ScheduleWord([0xb6, 0x71, 0x25, 0x3b], [0x7c, 0x83, 0x9d, 0x87], 4, 22) == [0xca, 0xf2, 0xb8, 0xbc]
  {
    XorWord([0xb6, 0x71, 0x25, 0x3b], [0x7c, 0x83, 0x9d, 0x87]);
  }

  lemma FipsWord23()
    ensures ScheduleWord([0xdb, 0x0b, 0xad, 0x00], [0xca, 0xf2, 0xb8, 0xbc], 4, 23) == [0x11, 0xf9, 0x15, 0xbc]
  {
    XorWord([0xdb, 0x0b, 0xad, 0x00], [0xca, 0xf2, 0xb8, 0xbc]);
  }

  lemma FipsWord24()
    ensures ScheduleWord([0xd4, 0xd1, 0xc6, 0xf8], [0x11, 0xf9, 0x15, 0xbc], 4, 24) == [0x6d, 0x88, 0xa3, 0x7a]
  {
    XorWord([0xd4, 0xd1, 0xc6, 0xf8], XorBytes(SubWord(RotWord([0x11, 0xf9, 0x15, 0xbc])), [RconByte(6), 0, 0, 0]));
  }

  lemma FipsWord25()
    ensures ScheduleWord([0x7c, 0x83, 0x9d, 0x87], [0x6d, 0x88, 0xa3, 0x7a], 4, 25) == [0x11, 0x0b, 0x3e, 0xfd]
  {
    XorWord([0x7c, 0x83, 0x9d, 0x87], [0x6d, 0x88, 0xa3, 0x7a]);
  }

  lemma FipsWord26()
    ensures ScheduleWord([0xca, 0xf2, 0xb8, 0xbc], [0x11, 0x0b, 0x3e, 0xfd], 4, 26) == [0xdb, 0xf9, 0x86, 0x41]
  {
    XorWord([0xca, 0xf2, 0xb8, 0xbc], [0x11, 0x0b, 0x3e, 0xfd]);
  }

  lemma FipsWord27()
    ensures ScheduleWord([0x11, 0xf9, 0x15, 0xbc], [0xdb, 0xf9, 0x86, 0x41], 4, 27) == [0xca, 0x00, 0x93, 0xfd]
  {
    XorWord([0x11, 0xf9, 0x15, 0xbc], [0xdb, 0xf9, 0x86, 0x41]);
  }

  lemma FipsWord28()
    ensures ScheduleWord([0x6d, 0x88, 0xa3, 0x7a], [0xca, 0x00, 0x93, 0xfd], 4, 28) == [0x4e, 0x54, 0xf7, 0x0e]
  {
    XorWord([0x6d, 0x88, 0xa3, 0x7a], XorBytes(SubWord(RotWord([0xca, 0x00, 0x93, 0xfd])), [RconByte(7), 0, 0, 0]));
  }

  lemma FipsWord29()
    ensures ScheduleWord([0x11, 0x0b, 0x3e, 0xfd], [0x4e, 0x54, 0xf7, 0x0e], 4, 29) == [0x5f, 0x5f, 0xc9, 0xf3]
  {
    XorWord([0x11, 0x0b, 0x3e, 0xfd], [0x4e, 0x54, 0xf7, 0x0e]);
  }

  lemma FipsWord30()
    ensures ScheduleWord([0xdb, 0xf9, 0x86, 0x41], [0x5f, 0x5f, 0xc9, 0xf3], 4, 30) == [0x84, 0xa6, 0x4f, 0xb2]
  {
    XorWord([0xdb, 0xf9, 0x86, 0x41], [0x5f, 0x5f, 0xc9, 0xf3]);
  }

  lemma FipsWord31()
    ensures ScheduleWord([0xca, 0x00, 0x93, 0xfd], [0x84, 0xa6, 0x4f, 0xb2], 4, 31) == [0x4e, 0xa6, 0xdc, 0x4f]
  {
    XorWord([0xca, 0x00, 0x93, 0xfd], [0x84, 0xa6, 0x4f, 0xb2]);
  }

  lemma FipsWord32()
    ensures ScheduleWord([0x4e, 0x54, 0xf7, 0x0e], [0x4e, 0xa6, 0xdc, 0x4f], 4, 32) == [0xea, 0xd2, 0x73, 0x21]
  {
    XorWord([0x4e, 0x54, 0xf7, 0x0e], XorBytes(SubWord(RotWord([0x4e, 0xa6, 0xdc, 0x4f])), [RconByte(8), 0, 0, 0]));
  }

  lemma FipsWord33()
    ensures ScheduleWord([0x5f, 0x5f, 0xc9, 0xf3], [0xea, 0xd2, 0x73, 0x21], 4, 33) == [0xb5, 0x8d, 0xba, 0xd2]
  {
    XorWord([0x5f, 0x5f, 0xc9, 0xf3], [0xea, 0xd2, 0x73, 0x21]);
  }

  lemma FipsWord34()
    ensures ScheduleWord([0x84, 0xa6, 0x4f, 0xb2], [0xb5, 0x8d, 0xba, 0xd2], 4, 34) == [0x31, 0x2b, 0xf5, 0x60]
  {
    XorWord([0x84, 0xa6, 0x4f, 0xb2], [0xb5, 0x8d, 0xba, 0xd2]);
  }

  lemma FipsWord35()
    ensures ScheduleWord([0x4e, 0xa6, 0xdc, 0x4f], [0x31, 0x2b, 0xf5, 0x60], 4, 35) == [0x7f, 0x8d, 0x29, 0x2f]
  {
    XorWord([0x4e, 0xa6, 0xdc, 0x4f], [0x31, 0x2b, 0xf5, 0x60]);
  }

  lemma FipsWord36()
    ensures ScheduleWord([0xea, 0xd2, 0x73, 0x21], [0x7f, 0x8d, 0x29, 0x2f], 4, 36) == [0xac, 0x77, 0x66, 0xf3]
  {
    XorWord([0xea, 0xd2, 0x73, 0x21], XorBytes(SubWord(RotWord([0x7f, 0x8d, 0x29, 0x2f])), [RconByte(9), 0, 0, 0]));
  }

  lemma FipsWord37()
    ensures ScheduleWord([0xb5, 0x8d, 0xba, 0xd2], [0xac, 0x77, 0x66, 0xf3], 4, 37) == [0x19, 0xfa, 0xdc, 0x21]
  {
    XorWord([0xb5, 0x8d, 0xba, 0xd2], [0xac, 0x77, 0x66, 0xf3]);
  }

  lemma FipsWord38()
    ensures ScheduleWord([0x31, 0x2b, 0xf5, 0x60], [0x19, 0xfa, 0xdc, 0x21], 4, 38) == [0x28, 0xd1, 0x29, 0x41]
  {
    XorWord([0x31, 0x2b, 0xf5, 0x60], [0x19, 0xfa, 0xdc, 0x21]);
  }

  lemma FipsWord39()
    ensures ScheduleWord([0x7f, 0x8d, 0x29, 0x2f], [0x28, 0xd1, 0x29, 0x41], 4, 39) == [0x57, 0x5c, 0x00, 0x6e]
  {
    XorWord([0x7f, 0x8d, 0x29, 0x2f], [0x28, 0xd1, 0x29, 0x41]);
  }

  lemma FipsWord40()
    ensures ScheduleWord([0xac, 0x77, 0x66, 0xf3], [0x57, 0x5c, 0x00, 0x6e], 4, 40) == [0xd0, 0x14, 0xf9, 0xa8]
  {
    XorWord([0xac, 0x77, 0x66, 0xf3], XorBytes(SubWord(RotWord([0x57, 0x5c, 0x00, 0x6e])), [RconByte(10), 0, 0, 0]));
  }

  lemma FipsWord41()
    ensures ScheduleWord([0x19, 0xfa, 0xdc, 0x21], [0xd0, 0x14, 0xf9, 0xa8], 4, 41) == [0xc9, 0xee, 0x25, 0x89]
  {
    XorWord([0x19, 0xfa, 0xdc, 0x21], [0xd0, 0x14, 0xf9, 0xa8]);
  }

  lemma FipsWord42()
    ensures ScheduleWord([0x28, 0xd1, 0x29, 0x41], [0xc9, 0xee, 0x25, 0x89], 4, 42) == [0xe1, 0x3f, 0x0c, 0xc8]
  {
    XorWord([0x28, 0xd1, 0x29, 0x41], [0xc9, 0xee, 0x25, 0x89]);
  }

  lemma FipsWord43()
    ensures ScheduleWord([0x57, 0x5c, 0x00, 0x6e], [0xe1, 0x3f, 0x0c, 0xc8], 4, 43) == [0xb6, 0x63, 0x0c, 0xa6]
  {
    XorWord([0x57, 0x5c, 0x00, 0x6e], [0xe1, 0x3f, 0x0c, 0xc8]);
  }

  /** Round key r of the example from round key r - 1. */
  lemma FipsRoundKeyStep1()
    ensures RoundKeyAfter(FipsRoundKey(0), 1) == FipsRoundKey(1)
  {
    hide ScheduleWord;
    var p := [0x2b, 0x7e, 0x15, 0x16, 0x28, 0xae, 0xd2, 0xa6, 0xab, 0xf7, 0x15, 0x88, 0x09, 0xcf, 0x4f, 0x3c];
    assert p[0..4] == [0x2b, 0x7e, 0x15, 0x16];
    assert p[4..8] == [0x28, 0xae, 0xd2, 0xa6];
    assert p[8..12] == [0xab, 0xf7, 0x15, 0x88];
    assert p[12..16] == [0x09, 0xcf, 0x4f, 0x3c];
    FipsWord4();
    FipsWord5();
    FipsWord6();
    FipsWord7();
    assert FipsRoundKey(0) == p;
    assert RoundKeyAfter(p, 1) == [0xa0, 0xfa, 0xfe, 0x17] + [0x88, 0x54, 0x2c, 0xb1] + [0x23, 0xa3, 0x39, 0x39] + [0x2a, 0x6c, 0x76, 0x05];
  }

  lemma FipsRoundKeyStep2()
    ensures RoundKeyAfter(FipsRoundKey(1), 2) == FipsRoundKey(2)
  {
    hide ScheduleWord;
    var p := [0xa0, 0xfa, 0xfe, 0x17, 0x88, 0x54, 0x2c, 0xb1, 0x23, 0xa3, 0x39, 0x39, 0x2a, 0x6c, 0x76, 0x05];
    assert p[0..4] == [0xa0, 0xfa, 0xfe, 0x17];
    assert p[4..8] == [0x88, 0x54, 0x2c, 0xb1];
    assert p[8..12] == [0x23, 0xa3, 0x39, 0x39];
    assert p[12..16] == [0x2a, 0x6c, 0x76, 0x05];
    FipsWord8();
    FipsWord9();
    FipsWord10();
    FipsWord11();
    assert FipsRoundKey(1) == p;
    assert RoundKeyAfter(p, 2) == [0xf2, 0xc2, 0x95, 0xf2] + [0x7a, 0x96, 0xb9, 0x43] + [0x59, 0x35, 0x80, 0x7a] + [0x73, 0x59, 0xf6, 0x7f];
  }

  lemma FipsRoundKeyStep3()
    ensures RoundKeyAfter(FipsRoundKey(2), 3) == FipsRoundKey(3)
  {
    hide ScheduleWord;
    var p := [0xf2, 0xc2, 0x95, 0xf2, 0x7a, 0x96, 0xb9, 0x43, 0x59, 0x35, 0x80, 0x7a, 0x73, 0x59, 0xf6, 0x7f];
    assert p[0..4] == [0xf2, 0xc2, 0x95, 0xf2];
    assert p[4..8] == [0x7a, 0x96, 0xb9, 0x43];
    assert p[8..12] == [0x59, 0x35, 0x80, 0x7a];
    assert p[12..16] == [0x73, 0x59, 0xf6, 0x7f];
    FipsWord12();
    FipsWord13();
    FipsWord14();
    FipsWord15();
    assert FipsRoundKey(2) == p;
    assert RoundKeyAfter(p, 3) == [0x3d, 0x80, 0x47, 0x7d] + [0x47, 0x16, 0xfe, 0x3e] + [0x1e, 0x23, 0x7e, 0x44] + [0x6d, 0x7a, 0x88, 0x3b];
  }

  lemma FipsRoundKeyStep4()
    ensures RoundKeyAfter(FipsRoundKey(3), 4) == FipsRoundKey(4)
  {
    hide ScheduleWord;
    var p := [0x3d, 0x80, 0x47, 0x7d, 0x47, 0x16, 0xfe, 0x3e, 0x1e, 0x23, 0x7e, 0x44, 0x6d, 0x7a, 0x88, 0x3b];
    assert p[0..4] == [0x3d, 0x80, 0x47, 0x7d];
    assert p[4..8] == [0x47, 0x16, 0xfe, 0x3e];
    assert p[8..12] == [0x1e, 0x23, 0x7e, 0x44];
    assert p[12..16] == [0x6d, 0x7a, 0x88, 0x3b];
    FipsWord16();
    FipsWord17();
    FipsWord18();
    FipsWord19();
    assert FipsRoundKey(3) == p;
    assert RoundKeyAfter(p, 4) == [0xef, 0x44, 0xa5, 0x41] + [0xa8, 0x52, 0x5b, 0x7f] + [0xb6, 0x71, 0x25, 0x3b] + [0xdb, 0x0b, 0xad, 0x00];
  }

  lemma FipsRoundKeyStep5()
    ensures RoundKeyAfter(FipsRoundKey(4), 5) == FipsRoundKey(5)
  {
    hide ScheduleWord;
    var p := [0xef, 0x44, 0xa5, 0x41, 0xa8, 0x52, 0x5b, 0x7f, 0xb6, 0x71, 0x25, 0x3b, 0xdb, 0x0b, 0xad, 0x00];
    assert p[0..4] == [0xef, 0x44, 0xa5, 0x41];
    assert p[4..8] == [0xa8, 0x52, 0x5b, 0x7f];
    assert p[8..12] == [0xb6, 0x71, 0x25, 0x3b];
    assert p[12..16] == [0xdb, 0x0b, 0xad, 0x00];
    FipsWord20();
    FipsWord21();
    FipsWord22();
    FipsWord23();
    assert FipsRoundKey(4) == p;
    assert RoundKeyAfter(p, 5) == [0xd4, 0xd1, 0xc6, 0xf8] + [0x7c, 0x83, 0x9d, 0x87] + [0xca, 0xf2, 0xb8, 0xbc] + [0x11, 0xf9, 0x15, 0xbc];
  }

  lemma FipsRoundKeyStep6()
    ensures RoundKeyAfter(FipsRoundKey(5), 6) == FipsRoundKey(6)
  {
    hide ScheduleWord;
    var p := [0xd4, 0xd1, 0xc6, 0xf8, 0x7c, 0x83, 0x9d, 0x87, 0xca, 0xf2, 0xb8, 0xbc, 0x11, 0xf9, 0x15, 0xbc];
    assert p[0..4] == [0xd4, 0xd1, 0xc6, 0xf8];
    assert p[4..8] == [0x7c, 0x83, 0x9d, 0x87];
    assert p[8..12] == [0xca, 0xf2, 0xb8, 0xbc];
    assert p[12..16] == [0x11, 0xf9, 0x15, 0xbc];
    FipsWord24();
    FipsWord25();
    FipsWord26();
    FipsWord27();
    assert FipsRoundKey(5) == p;
    assert RoundKeyAfter(p, 6) == [0x6d, 0x88, 0xa3, 0x7a] + [0x11, 0x0b, 0x3e, 0xfd] + [0xdb, 0xf9, 0x86, 0x41] + [0xca, 0x00, 0x93, 0xfd];
  }

  lemma FipsRoundKeyStep7()
    ensures RoundKeyAfter(FipsRoundKey(6), 7) == FipsRoundKey(7)
  {
    hide ScheduleWord;
    var p := [0x6d, 0x88, 0xa3, 0x7a, 0x11, 0x0b, 0x3e, 0xfd, 0xdb, 0xf9, 0x86, 0x41, 0xca, 0x00, 0x93, 0xfd];
    assert p[0..4] == [0x6d, 0x88, 0xa3, 0x7a];
    assert p[4..8] == [0x11, 0x0b, 0x3e, 0xfd];
    assert p[8..12] == [0xdb, 0xf9, 0x86, 0x41];
    assert p[12..16] == [0xca, 0x00, 0x93, 0xfd];
    FipsWord28();
    FipsWord29();
    FipsWord30();
    FipsWord31();
    assert FipsRoundKey(6) == p;
    assert RoundKeyAfter(p, 7) == [0x4e, 0x54, 0xf7, 0x0e] + [0x5f, 0x5f, 0xc9, 0xf3] + [0x84, 0xa6, 0x4f, 0xb2] + [0x4e, 0xa6, 0xdc, 0x4f];
  }

  lemma FipsRoundKeyStep8()
    ensures RoundKeyAfter(FipsRoundKey(7), 8) == FipsRoundKey(8)
  {
    hide ScheduleWord;
    var p := [0x4e, 0x54, 0xf7, 0x0e, 0x5f, 0x5f, 0xc9, 0xf3, 0x84, 0xa6, 0x4f, 0xb2, 0x4e, 0xa6, 0xdc, 0x4f];
    assert p[0..4] == [0x4e, 0x54, 0xf7, 0x0e];
    assert p[4..8] == [0x5f, 0x5f, 0xc9, 0xf3];
    assert p[8..12] == [0x84, 0xa6, 0x4f, 0xb2];
    assert p[12..16] == [0x4e, 0xa6, 0xdc, 0x4f];
    FipsWord32();
    FipsWord33();
    FipsWord34();
    FipsWord35();
    assert FipsRoundKey(7) == p;
    assert RoundKeyAfter(p, 8) == [0xea, 0xd2, 0x73, 0x21] + [0xb5, 0x8d, 0xba, 0xd2] + [0x31, 0x2b, 0xf5, 0x60] + [0x7f, 0x8d, 0x29, 0x2f];
  }

  lemma FipsRoundKeyStep9()
    ensures RoundKeyAfter(FipsRoundKey(8), 9) == FipsRoundKey(9)
  {
    hide ScheduleWord;
    var p := [0xea, 0xd2, 0x73, 0x21, 0xb5, 0x8d, 0xba, 0xd2, 0x31, 0x2b, 0xf5, 0x60, 0x7f, 0x8d, 0x29, 0x2f];
    assert p[0..4] == [0xea, 0xd2, 0x73, 0x21];
    assert p[4..8] == [0xb5, 0x8d, 0xba, 0xd2];
    assert p[8..12] == [0x31, 0x2b, 0xf5, 0x60];
    assert p[12..16] == [0x7f, 0x8d, 0x29, 0x2f];
    FipsWord36();
    FipsWord37();
    FipsWord38();
    FipsWord39();
    assert FipsRoundKey(8) == p;
    assert RoundKeyAfter(p, 9) == [0xac, 0x77, 0x66, 0xf3] + [0x19, 0xfa, 0xdc, 0x21] + [0x28, 0xd1, 0x29, 0x41] + [0x57, 0x5c, 0x00, 0x6e];
  }

  lemma FipsRoundKeyStep10()
    ensures RoundKeyAfter(FipsRoundKey(9), 10) == FipsRoundKey(10)
  {
    hide ScheduleWord;
    var p := [0xac, 0x77, 0x66, 0xf3, 0x19, 0xfa, 0xdc, 0x21, 0x28, 0xd1, 0x29, 0x41, 0x57, 0x5c, 0x00, 0x6e];
    assert p[0..4] == [0xac, 0x77, 0x66, 0xf3];
    assert p[4..8] == [0x19, 0xfa, 0xdc, 0x21];
    assert p[8..12] == [0x28, 0xd1, 0x29, 0x41];
    assert p[12..16] == [0x57, 0x5c, 0x00, 0x6e];
    FipsWord40();
    FipsWord41();
    FipsWord42();
    FipsWord43();
    assert FipsRoundKey(9) == p;
    assert RoundKeyAfter(p, 10) == [0xd0, 0x14, 0xf9, 0xa8] + [0xc9, 0xee, 0x25, 0x89] + [0xe1, 0x3f, 0x0c, 0xc8] + [0xb6, 0x63, 0x0c, 0xa6];
  }
  /** Round r of the cipher maps the state listed before it to the state
      listed after it: SubBytes, ShiftRows, MixColumns and AddRoundKey with
      the intermediate values of Appendix B. */
  lemma FipsRound1()
    ensures Round(FipsState(0), FipsRoundKey(1)) == FipsState(1)
  {
    assert SubBytes([0x19, 0x3d, 0xe3, 0xbe, 0xa0, 0xf4, 0xe2, 0x2b, 0x9a, 0xc6, 0x8d, 0x2a, 0xe9, 0xf8, 0x48, 0x08]) == [0xd4, 0x27, 0x11, 0xae, 0xe0, 0xbf, 0x98, 0xf1, 0xb8, 0xb4, 0x5d, 0xe5, 0x1e, 0x41, 0x52, 0x30];
    assert ShiftRows([0xd4, 0x27, 0x11, 0xae, 0xe0, 0xbf, 0x98, 0xf1, 0xb8, 0xb4, 0x5d, 0xe5, 0x1e, 0x41, 0x52, 0x30]) == [0xd4, 0xbf, 0x5d, 0x30, 0xe0, 0xb4, 0x52, 0xae, 0xb8, 0x41, 0x11, 0xf1, 0x1e, 0x27, 0x98, 0xe5];
    assert MixColumns([0xd4, 0xbf, 0x5d, 0x30, 0xe0, 0xb4, 0x52, 0xae, 0xb8, 0x41, 0x11, 0xf1, 0x1e, 0x27, 0x98, 0xe5]) == [0x04, 0x66, 0x81, 0xe5, 0xe0, 0xcb, 0x19, 0x9a, 0x48, 0xf8, 0xd3, 0x7a, 0x28, 0x06, 0x26, 0x4c];
    XorBlockBytes([0x04, 0x66, 0x81, 0xe5, 0xe0, 0xcb, 0x19, 0x9a, 0x48, 0xf8, 0xd3, 0x7a, 0x28, 0x06, 0x26, 0x4c], [0xa0, 0xfa, 0xfe, 0x17, 0x88, 0x54, 0x2c, 0xb1, 0x23, 0xa3, 0x39, 0x39, 0x2a, 0x6c, 0x76, 0x05]);
  }

  lemma FipsRound2()
    ensures Round(FipsState(1), FipsRoundKey(2)) == FipsState(2)
  {
    assert SubBytes([0xa4, 0x9c, 0x7f, 0xf2, 0x68, 0x9f, 0x35, 0x2b, 0x6b, 0x5b, 0xea, 0x43, 0x02, 0x6a, 0x50, 0x49]) == [0x49, 0xde, 0xd2, 0x89, 0x45, 0xdb, 0x96, 0xf1, 0x7f, 0x39, 0x87, 0x1a, 0x77, 0x02, 0x53, 0x3b];
    assert ShiftRows([0x49, 0xde, 0xd2, 0x89, 0x45, 0xdb, 0x96, 0xf1, 0x7f, 0x39, 0x87, 0x1a, 0x77, 0x02, 0x53, 0x3b]) == [0x49, 0xdb, 0x87, 0x3b, 0x45, 0x39, 0x53, 0x89, 0x7f, 0x02, 0xd2, 0xf1, 0x77, 0xde, 0x96, 0x1a];
    assert MixColumns([0x49, 0xdb, 0x87, 0x3b, 0x45, 0x39, 0x53, 0x89, 0x7f, 0x02, 0xd2, 0xf1, 0x77, 0xde, 0x96, 0x1a]) == [0x58, 0x4d, 0xca, 0xf1, 0x1b, 0x4b, 0x5a, 0xac, 0xdb, 0xe7, 0xca, 0xa8, 0x1b, 0x6b, 0xb0, 0xe5];
    XorBlockBytes([0x58, 0x4d, 0xca, 0xf1, 0x1b, 0x4b, 0x5a, 0xac, 0xdb, 0xe7, 0xca, 0xa8, 0x1b, 0x6b, 0xb0, 0xe5], [0xf2, 0xc2, 0x95, 0xf2, 0x7a, 0x96, 0xb9, 0x43, 0x59, 0x35, 0x80, 0x7a, 0x73, 0x59, 0xf6, 0x7f]);
  }

  lemma FipsRound3()
    ensures Round(FipsState(2), FipsRoundKey(3)) == FipsState(3)
  {
    assert SubBytes([0xaa, 0x8f, 0x5f, 0x03, 0x61, 0xdd, 0xe3, 0xef, 0x82, 0xd2, 0x4a, 0xd2, 0x68, 0x32, 0x46, 0x9a]) == [0xac, 0x73, 0xcf, 0x7b, 0xef, 0xc1, 0x11, 0xdf, 0x13, 0xb5, 0xd6, 0xb5, 0x45, 0x23, 0x5a, 0xb8];
    assert ShiftRows([0xac, 0x73, 0xcf, 0x7b, 0xef, 0xc1, 0x11, 0xdf, 0x13, 0xb5, 0xd6, 0xb5, 0x45, 0x23, 0x5a, 0xb8]) == [0xac, 0xc1, 0xd6, 0xb8, 0xef, 0xb5, 0x5a, 0x7b, 0x13, 0x23, 0xcf, 0xdf, 0x45, 0x73, 0x11, 0xb5];
    assert MixColumns([0xac, 0xc1, 0xd6, 0xb8, 0xef, 0xb5, 0x5a, 0x7b, 0x13, 0x23, 0xcf, 0xdf, 0x45, 0x73, 0x11, 0xb5]) == [0x75, 0xec, 0x09, 0x93, 0x20, 0x0b, 0x63, 0x33, 0x53, 0xc0, 0xcf, 0x7c, 0xbb, 0x25, 0xd0, 0xdc];
    XorBlockBytes([0x75, 0xec, 0x09, 0x93, 0x20, 0x0b, 0x63, 0x33, 0x53, 0xc0, 0xcf, 0x7c, 0xbb, 0x25, 0xd0, 0xdc], [0x3d, 0x80, 0x47, 0x7d, 0x47, 0x16, 0xfe, 0x3e, 0x1e, 0x23, 0x7e, 0x44, 0x6d, 0x7a, 0x88, 0x3b]);
  }

  lemma FipsRound4()
    ensures Round(FipsState(3), FipsRoundKey(4)) == FipsState(4)
  {
    assert SubBytes([0x48, 0x6c, 0x4e, 0xee, 0x67, 0x1d, 0x9d, 0x0d, 0x4d, 0xe3, 0xb1, 0x38, 0xd6, 0x5f, 0x58, 0xe7]) == [0x52, 0x50, 0x2f, 0x28, 0x85, 0xa4, 0x5e, 0xd7, 0xe3, 0x11, 0xc8, 0x07, 0xf6, 0xcf, 0x6a, 0x94];
    assert ShiftRows([0x52, 0x50, 0x2f, 0x28, 0x85, 0xa4, 0x5e, 0xd7, 0xe3, 0x11, 0xc8, 0x07, 0xf6, 0xcf, 0x6a, 0x94]) == [0x52, 0xa4, 0xc8, 0x94, 0x85, 0x11, 0x6a, 0x28, 0xe3, 0xcf, 0x2f, 0xd7, 0xf6, 0x50, 0x5e, 0x07];
    assert MixColumns([0x52, 0xa4, 0xc8, 0x94, 0x85, 0x11, 0x6a, 0x28, 0xe3, 0xcf, 0x2f, 0xd7, 0xf6, 0x50, 0x5e, 0x07]) == [0x0f, 0xd6, 0xda, 0xa9, 0x60, 0x31, 0x38, 0xbf, 0x6f, 0xc0, 0x10, 0x6b, 0x5e, 0xb3, 0x13, 0x01];
    XorBlockBytes([0x0f, 0xd6, 0xda, 0xa9, 0x60, 0x31, 0x38, 0xbf, 0x6f, 0xc0, 0x10, 0x6b, 0x5e, 0xb3, 0x13, 0x01], [0xef, 0x44, 0xa5, 0x41, 0xa8, 0x52, 0x5b, 0x7f, 0xb6, 0x71, 0x25, 0x3b, 0xdb, 0x0b, 0xad, 0x00]);
  }

  lemma FipsRound5()
    ensures Round(FipsState(4), FipsRoundKey(5)) == FipsState(5)
  {
    assert SubBytes([0xe0, 0x92, 0x7f, 0xe8, 0xc8, 0x63, 0x63, 0xc0, 0xd9, 0xb1, 0x35, 0x50, 0x85, 0xb8, 0xbe, 0x01]) == [0xe1, 0x4f, 0xd2, 0x9b, 0xe8, 0xfb, 0xfb, 0xba, 0x35, 0xc8, 0x96, 0x53, 0x97, 0x6c, 0xae, 0x7c];
    assert ShiftRows([0xe1, 0x4f, 0xd2, 0x9b, 0xe8, 0xfb, 0xfb, 0xba, 0x35, 0xc8, 0x96, 0x53, 0x97, 0x6c, 0xae, 0x7c]) == [0xe1, 0xfb, 0x96, 0x7c, 0xe8, 0xc8, 0xae, 0x9b, 0x35, 0x6c, 0xd2, 0xba, 0x97, 0x4f, 0xfb, 0x53];
    assert MixColumns([0xe1, 0xfb, 0x96, 0x7c, 0xe8, 0xc8, 0xae, 0x9b, 0x35, 0x6c, 0xd2, 0xba, 0x97, 0x4f, 0xfb, 0x53]) == [0x25, 0xd1, 0xa9, 0xad, 0xbd, 0x11, 0xd1, 0x68, 0xb6, 0x3a, 0x33, 0x8e, 0x4c, 0x4c, 0xc0, 0xb0];
    XorBlockBytes([0x25, 0xd1, 0xa9, 0xad, 0xbd, 0x11, 0xd1, 0x68, 0xb6, 0x3a, 0x33, 0x8e, 0x4c, 0x4c, 0xc0, 0xb0], [0xd4, 0xd1, 0xc6, 0xf8, 0x7c, 0x83, 0x9d, 0x87, 0xca, 0xf2, 0xb8, 0xbc, 0x11, 0xf9, 0x15, 0xbc]);
  }

  lemma FipsRound6()
    ensures Round(FipsState(5), FipsRoundKey(6)) == FipsState(6)
  {
    assert SubBytes([0xf1, 0x00, 0x6f, 0x55, 0xc1, 0x92, 0x4c, 0xef, 0x7c, 0xc8, 0x8b, 0x32, 0x5d, 0xb5, 0xd5, 0x0c]) == [0xa1, 0x63, 0xa8, 0xfc, 0x78, 0x4f, 0x29, 0xdf, 0x10, 0xe8, 0x3d, 0x23, 0x4c, 0xd5, 0x03, 0xfe];
    assert ShiftRows([0xa1, 0x63, 0xa8, 0xfc, 0x78, 0x4f, 0x29, 0xdf, 0x10, 0xe8, 0x3d, 0x23, 0x4c, 0xd5, 0x03, 0xfe]) == [0xa1, 0x4f, 0x3d, 0xfe, 0x78, 0xe8, 0x03, 0xfc, 0x10, 0xd5, 0xa8, 0xdf, 0x4c, 0x63, 0x29, 0x23];
    assert MixColumns([0xa1, 0x4f, 0x3d, 0xfe, 0x78, 0xe8, 0x03, 0xfc, 0x10, 0xd5, 0xa8, 0xdf, 0x4c, 0x63, 0x29, 0x23]) == [0x4b, 0x86, 0x8d, 0x6d, 0x2c, 0x4a, 0x89, 0x80, 0x33, 0x9d, 0xf4, 0xe8, 0x37, 0xd2, 0x18, 0xd8];
    XorBlockBytes([0x4b, 0x86, 0x8d, 0x6d, 0x2c, 0x4a, 0x89, 0x80, 0x33, 0x9d, 0xf4, 0xe8, 0x37, 0xd2, 0x18, 0xd8], [0x6d, 0x88, 0xa3, 0x7a, 0x11, 0x0b, 0x3e, 0xfd, 0xdb, 0xf9, 0x86, 0x41, 0xca, 0x00, 0x93, 0xfd]);
  }

  lemma FipsRound7()
    ensures Round(FipsState(6), FipsRoundKey(7)) == FipsState(7)
  {
    assert SubBytes([0x26, 0x0e, 0x2e, 0x17, 0x3d, 0x41, 0xb7, 0x7d, 0xe8, 0x64, 0x72, 0xa9, 0xfd, 0xd2, 0x8b, 0x25]) == [0xf7, 0xab, 0x31, 0xf0, 0x27, 0x83, 0xa9, 0xff, 0x9b, 0x43, 0x40, 0xd3, 0x54, 0xb5, 0x3d, 0x3f];
    assert ShiftRows([0xf7, 0xab, 0x31, 0xf0, 0x27, 0x83, 0xa9, 0xff, 0x9b, 0x43, 0x40, 0xd3, 0x54, 0xb5, 0x3d, 0x3f]) == [0xf7, 0x83, 0x40, 0x3f, 0x27, 0x43, 0x3d, 0xf0, 0x9b, 0xb5, 0x31, 0xff, 0x54, 0xab, 0xa9, 0xd3];
    assert MixColumns([0xf7, 0x83, 0x40, 0x3f, 0x27, 0x43, 0x3d, 0xf0, 0x9b, 0xb5, 0x31, 0xff, 0x54, 0xab, 0xa9, 0xd3]) == [0x14, 0x15, 0xb5, 0xbf, 0x46, 0x16, 0x15, 0xec, 0x27, 0x46, 0x56, 0xd7, 0x34, 0x2a, 0xd8, 0x43];
    XorBlockBytes([0x14, 0x15, 0xb5, 0xbf, 0x46, 0x16, 0x15, 0xec, 0x27, 0x46, 0x56, 0xd7, 0x34, 0x2a, 0xd8, 0x43], [0x4e, 0x54, 0xf7, 0x0e, 0x5f, 0x5f, 0xc9, 0xf3, 0x84, 0xa6, 0x4f, 0xb2, 0x4e, 0xa6, 0xdc, 0x4f]);
  }

  lemma FipsRound8()
    ensures Round(FipsState(7), FipsRoundKey(8)) == FipsState(8)
  {
    assert SubBytes([0x5a, 0x41, 0x42, 0xb1, 0x19, 0x49, 0xdc, 0x1f, 0xa3, 0xe0, 0x19, 0x65, 0x7a, 0x8c, 0x04, 0x0c]) == [0xbe, 0x83, 0x2c, 0xc8, 0xd4, 0x3b, 0x86, 0xc0, 0x0a, 0xe1, 0xd4, 0x4d, 0xda, 0x64, 0xf2, 0xfe];
    assert ShiftRows([0xbe, 0x83, 0x2c, 0xc8, 0xd4, 0x3b, 0x86, 0xc0, 0x0a, 0xe1, 0xd4, 0x4d, 0xda, 0x64, 0xf2, 0xfe]) == [0xbe, 0x3b, 0xd4, 0xfe, 0xd4, 0xe1, 0xf2, 0xc8, 0x0a, 0x64, 0x2c, 0xc0, 0xda, 0x83, 0x86, 0x4d];
    assert MixColumns([0xbe, 0x3b, 0xd4, 0xfe, 0xd4, 0xe1, 0xf2, 0xc8, 0x0a, 0x64, 0x2c, 0xc0, 0xda, 0x83, 0x86, 0x4d]) == [0x00, 0x51, 0x2f, 0xd1, 0xb1, 0xc8, 0x89, 0xff, 0x54, 0x76, 0x6d, 0xcd, 0xfa, 0x1b, 0x99, 0xea];
    XorBlockBytes([0x00, 0x51, 0x2f, 0xd1, 0xb1, 0xc8, 0x89, 0xff, 0x54, 0x76, 0x6d, 0xcd, 0xfa, 0x1b, 0x99, 0xea], [0xea, 0xd2, 0x73, 0x21, 0xb5, 0x8d, 0xba, 0xd2, 0x31, 0x2b, 0xf5, 0x60, 0x7f, 0x8d, 0x29, 0x2f]);
  }

  lemma FipsRound9()
    ensures Round(FipsState(8), FipsRoundKey(9)) == FipsState(9)
  {
    assert SubBytes([0xea, 0x83, 0x5c, 0xf0, 0x04, 0x45, 0x33, 0x2d, 0x65, 0x5d, 0x98, 0xad, 0x85, 0x96, 0xb0, 0xc5]) == [0x87, 0xec, 0x4a, 0x8c, 0xf2, 0x6e, 0xc3, 0xd8, 0x4d, 0x4c, 0x46, 0x95, 0x97, 0x90, 0xe7, 0xa6];
    assert ShiftRows([0x87, 0xec, 0x4a, 0x8c, 0xf2, 0x6e, 0xc3, 0xd8, 0x4d, 0x4c, 0x46, 0x95, 0x97, 0x90, 0xe7, 0xa6]) == [0x87, 0x6e, 0x46, 0xa6, 0xf2, 0x4c, 0xe7, 0x8c, 0x4d, 0x90, 0x4a, 0xd8, 0x97, 0xec, 0xc3, 0x95];
    assert MixColumns([0x87, 0x6e, 0x46, 0xa6, 0xf2, 0x4c, 0xe7, 0x8c, 0x4d, 0x90, 0x4a, 0xd8, 0x97, 0xec, 0xc3, 0x95]) == [0x47, 0x37, 0x94, 0xed, 0x40, 0xd4, 0xe4, 0xa5, 0xa3, 0x70, 0x3a, 0xa6, 0x4c, 0x9f, 0x42, 0xbc];
    XorBlockBytes([0x47, 0x37, 0x94, 0xed, 0x40, 0xd4, 0xe4, 0xa5, 0xa3, 0x70, 0x3a, 0xa6, 0x4c, 0x9f, 0x42, 0xbc], [0xac, 0x77, 0x66, 0xf3, 0x19, 0xfa, 0xdc, 0x21, 0x28, 0xd1, 0x29, 0x41, 0x57, 0x5c, 0x00, 0x6e]);
  }

  lemma FipsRound10()
    ensures FinalRound(FipsState(9), FipsRoundKey(10)) == FipsState(10)
  {
    assert SubBytes([0xeb, 0x40, 0xf2, 0x1e, 0x59, 0x2e, 0x38, 0x84, 0x8b, 0xa1, 0x13, 0xe7, 0x1b, 0xc3, 0x42, 0xd2]) == [0xe9, 0x09, 0x89, 0x72, 0xcb, 0x31, 0x07, 0x5f, 0x3d, 0x32, 0x7d, 0x94, 0xaf, 0x2e, 0x2c, 0xb5];
    assert ShiftRows([0xe9, 0x09, 0x89, 0x72, 0xcb, 0x31, 0x07, 0x5f, 0x3d, 0x32, 0x7d, 0x94, 0xaf, 0x2e, 0x2c, 0xb5]) == [0xe9, 0x31, 0x7d, 0xb5, 0xcb, 0x32, 0x2c, 0x72, 0x3d, 0x2e, 0x89, 0x5f, 0xaf, 0x09, 0x07, 0x94];
    XorBlockBytes([0xe9, 0x31, 0x7d, 0xb5, 0xcb, 0x32, 0x2c, 0x72, 0x3d, 0x2e, 0x89, 0x5f, 0xaf, 0x09, 0x07, 0x94], [0xd0, 0x14, 0xf9, 0xa8, 0xc9, 0xee, 0x25, 0x89, 0xe1, 0x3f, 0x0c, 0xc8, 0xb6, 0x63, 0x0c, 0xa6]);
  }
  /** Each listed round key follows from the one before it by the key
      schedule recurrence. */
  lemma FipsRoundKeyFollows(r: nat)
    requires 1 <= r <= 10
    ensures RoundKeyAfter(FipsRoundKey(r - 1), r) == FipsRoundKey(r)
  {
    hide *;
    if r == 1 { FipsRoundKeyStep1(); }
    else if r == 2 { FipsRoundKeyStep2(); }
    else if r == 3 { FipsRoundKeyStep3(); }
    else if r == 4 { FipsRoundKeyStep4(); }
    else if r == 5 { FipsRoundKeyStep5(); }
    else if r == 6 { FipsRoundKeyStep6(); }
    else if r == 7 { FipsRoundKeyStep7(); }
    else if r == 8 { FipsRoundKeyStep8(); }
    else if r == 9 { FipsRoundKeyStep9(); }
    else { FipsRoundKeyStep10(); }
  }

  /** The schedule of FipsKey starts with the key itself. */
  lemma FipsScheduleStart()
    ensures ExpandedKey(FipsKey, 4, 4)[0..16] == FipsRoundKey(0)
  {
    hide KeyWord;
  }

  /** Words 4r .. 4r + 3 of the schedule of FipsKey are the round key r listed
      in Appendix A.1. */
  lemma {:induction false} FipsScheduleWindow(r: nat)
    requires r <= 10
    ensures ExpandedKey(FipsKey, 4, 4 * r + 4)[16 * r .. 16 * r + 16] == FipsRoundKey(r)
  {
    hide ExpandedKey, RoundKeyAfter, FipsRoundKey, KeyWord;
    if r == 0 {
      FipsScheduleStart();
    } else {
      FipsScheduleWindow(r - 1);
      RoundKeyStep(FipsKey, r);
      FipsRoundKeyFollows(r);
    }
  }

  /** KeyExpansion of FipsKey yields the eleven round keys of Appendix A.1. */
  lemma FipsKeySchedule(r: nat)
    requires r <= 10
    ensures |KeyExpansion(FipsKey)| == 176
    ensures RoundKey(KeyExpansion(FipsKey), r) == FipsRoundKey(r)
  {
    hide ExpandedKey, FipsRoundKey, KeyWord;
    ExpandedKeyPrefix(FipsKey, 4, 4 * r + 4, 44);
    FipsScheduleWindow(r);
    var w := KeyExpansion(FipsKey);
    assert w == ExpandedKey(FipsKey, 4, 44);
    assert w[16 * r .. 16 * r + 16] == w[..16 * r + 16][16 * r .. 16 * r + 16];
  }

  /** Each listed state after round n follows from the one before it. */
  lemma FipsRoundFollows(n: nat)
    requires 1 <= n <= 9
    ensures Round(FipsState(n - 1), FipsRoundKey(n)) == FipsState(n)
  {
    hide *;
    if n == 1 { FipsRound1(); }
    else if n == 2 { FipsRound2(); }
    else if n == 3 { FipsRound3(); }
    else if n == 4 { FipsRound4(); }
    else if n == 5 { FipsRound5(); }
    else if n == 6 { FipsRound6(); }
    else if n == 7 { FipsRound7(); }
    else if n == 8 { FipsRound8(); }
    else { FipsRound9(); }
  }

  /** The cipher rounds 1 .. n on the example pass through the states of
      Appendix B. */
  lemma {:induction false} FipsCipherRounds(n: nat)
    requires n <= 9
    ensures |KeyExpansion(FipsKey)| == 176
    ensures CipherRounds(FipsState(0), KeyExpansion(FipsKey), n) == FipsState(n)
  {
    hide Round, KeyExpansion, ExpandedKey, KeyWord, FipsState, FipsRoundKey, RoundKey;
    FipsKeySchedule(0);
    if n > 0 {
      FipsCipherRounds(n - 1);
      FipsKeySchedule(n);
      FipsRoundFollows(n);
    }
  }

  /** AddRoundKey with round key 0 gives the state before round 1. */
  lemma FipsInitialState()
    ensures XorBytes(FipsPlaintext, FipsRoundKey(0)) == FipsState(0)
  {
    XorBlockBytes(FipsPlaintext, FipsRoundKey(0));
  }

  /** The cipher example of FIPS 197 Appendix B: AES-128 under FipsKey maps
      FipsPlaintext to FipsCiphertext. */
  lemma FipsEncrypt()
    ensures |KeyExpansion(FipsKey)| == 16 * (NumRounds(16) + 1) && NumRounds(16) == 10
    ensures Encrypt(KeyExpansion(FipsKey), 10, FipsPlaintext) == FipsCiphertext
  {
    hide Round, FinalRound, CipherRounds, KeyExpansion, ExpandedKey, KeyWord, FipsRoundKey, XorBytes, RoundKey;
    FipsKeySchedule(0);
    FipsKeySchedule(10);
    FipsCipherRounds(9);
    FipsInitialState();
    FipsRound10();
  }

  /** The example ciphertext differs from its plaintext, and the inverse
      cipher maps it back. */
  lemma FipsDecrypt()
    ensures |KeyExpansion(FipsKey)| == 176
    ensures FipsCiphertext != FipsPlaintext
    ensures Decrypt(KeyExpansion(FipsKey), 10, FipsCiphertext) == FipsPlaintext
  {
    FipsEncrypt();
    hide Encrypt, Decrypt, KeyExpansion;
    DecryptEncrypt(KeyExpansion(FipsKey), 10, FipsPlaintext);
    assert FipsCiphertext[0] != FipsPlaintext[0];
  }
}
