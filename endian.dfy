/**
  The byte-order utilities: byte swaps of 16-, 32- and 64-bit words, the
  conversions between host order and little- or big-endian order, and the
  unaligned stores and loads of 16-, 32- and 64-bit values in a byte buffer.
  The byte order of the host is a parameter.
*/
module Endian {

  import opened Types

  /** The two byte orders a host can have. */
  datatype HostOrder = LittleEndianHost | BigEndianHost

  // ---------------------------------------------------------------------------
  // Byte strings of a word, least significant byte first or last
  // ---------------------------------------------------------------------------

  /** The bytes of v, least significant first. */
  function Le16Bytes(v: bv16): (b: seq<Byte>)
    ensures |b| == 2
  {
    [(v & 0xff) as Byte, (v >> 8) as Byte]
  }

  function Le32Bytes(v: bv32): (b: seq<Byte>)
    ensures |b| == 4
  {
    [(v & 0xff) as Byte, ((v >> 8) & 0xff) as Byte,
     ((v >> 16) & 0xff) as Byte, (v >> 24) as Byte]
  }

  function Le64Bytes(v: bv64): (b: seq<Byte>)
    ensures |b| == 8
  {
    [(v & 0xff) as Byte, ((v >> 8) & 0xff) as Byte,
     ((v >> 16) & 0xff) as Byte, ((v >> 24) & 0xff) as Byte,
     ((v >> 32) & 0xff) as Byte, ((v >> 40) & 0xff) as Byte,
     ((v >> 48) & 0xff) as Byte, (v >> 56) as Byte]
  }

  /** The value whose bytes, least significant first, are b. */
  function FromLe16(b: seq<Byte>): bv16
    requires |b| == 2
  {
    (b[0] as bv16) | ((b[1] as bv16) << 8)
  }

  function FromLe32(b: seq<Byte>): bv32
    requires |b| == 4
  {
    (b[0] as bv32) | ((b[1] as bv32) << 8) | ((b[2] as bv32) << 16) | ((b[3] as bv32) << 24)
  }

  function FromLe64(b: seq<Byte>): bv64
    requires |b| == 8
  {
    (b[0] as bv64) | ((b[1] as bv64) << 8) | ((b[2] as bv64) << 16) | ((b[3] as bv64) << 24)
    | ((b[4] as bv64) << 32) | ((b[5] as bv64) << 40) | ((b[6] as bv64) << 48) | ((b[7] as bv64) << 56)
  }

  /** The bytes of v, most significant first. */
  function Be16Bytes(v: bv16): (b: seq<Byte>)
    ensures |b| == 2
  {
    [(v >> 8) as Byte, (v & 0xff) as Byte]
  }

  function Be32Bytes(v: bv32): (b: seq<Byte>)
    ensures |b| == 4
  {
    [(v >> 24) as Byte, ((v >> 16) & 0xff) as Byte,
     ((v >> 8) & 0xff) as Byte, (v & 0xff) as Byte]
  }

  function Be64Bytes(v: bv64): (b: seq<Byte>)
    ensures |b| == 8
  {
    [(v >> 56) as Byte, ((v >> 48) & 0xff) as Byte,
     ((v >> 40) & 0xff) as Byte, ((v >> 32) & 0xff) as Byte,
     ((v >> 24) & 0xff) as Byte, ((v >> 16) & 0xff) as Byte,
     ((v >> 8) & 0xff) as Byte, (v & 0xff) as Byte]
  }

  /** The value whose bytes, most significant first, are b. */
  function FromBe16(b: seq<Byte>): bv16
    requires |b| == 2
  {
    ((b[0] as bv16) << 8) | (b[1] as bv16)
  }

  function FromBe32(b: seq<Byte>): bv32
    requires |b| == 4
  {
    ((b[0] as bv32) << 24) | ((b[1] as bv32) << 16) | ((b[2] as bv32) << 8) | (b[3] as bv32)
  }

  function FromBe64(b: seq<Byte>): bv64
    requires |b| == 8
  {
    ((b[0] as bv64) << 56) | ((b[1] as bv64) << 48) | ((b[2] as bv64) << 40) | ((b[3] as bv64) << 32)
    | ((b[4] as bv64) << 24) | ((b[5] as bv64) << 16) | ((b[6] as bv64) << 8) | (b[7] as bv64)
  }

  /** The bytes of a sequence in the opposite order. */
  function Reverse(s: seq<Byte>): (r: seq<Byte>)
  {
    seq(|s|, i requires 0 <= i < |s| => s[|s| - 1 - i])
  }

  /** The big-endian bytes of a word are its little-endian bytes reversed. */
  lemma Be16Reversed(v: bv16)
    ensures Be16Bytes(v) == Reverse(Le16Bytes(v))
  {
  }

  lemma Be32Reversed(v: bv32)
    ensures Be32Bytes(v) == Reverse(Le32Bytes(v))
  {
  }

  lemma Be64Reversed(v: bv64)
    ensures Be64Bytes(v) == Reverse(Le64Bytes(v))
  {
    hide Le64Bytes, Be64Bytes;
    var l := Le64Bytes(v);
    assert Reverse(l) == [l[7], l[6], l[5], l[4], l[3], l[2], l[1], l[0]];
    Be64Bytes8(v);
  }

  lemma Be64Bytes8(v: bv64)
    ensures Be64Bytes(v) == [Le64Bytes(v)[7], Le64Bytes(v)[6], Le64Bytes(v)[5], Le64Bytes(v)[4],
                             Le64Bytes(v)[3], Le64Bytes(v)[2], Le64Bytes(v)[1], Le64Bytes(v)[0]]
  {
  }

  /** Encoding and decoding are inverse, in both directions and byte orders. */
  lemma Le16RoundTrip(v: bv16, b: seq<Byte>)
    requires |b| == 2
    ensures FromLe16(Le16Bytes(v)) == v
    ensures Le16Bytes(FromLe16(b)) == b
  {
  }

  lemma Le32RoundTrip(v: bv32, b: seq<Byte>)
    requires |b| == 4
    ensures FromLe32(Le32Bytes(v)) == v
    ensures Le32Bytes(FromLe32(b)) == b
  {
  }

  lemma Le64RoundTrip(v: bv64, b: seq<Byte>)
    requires |b| == 8
    ensures FromLe64(Le64Bytes(v)) == v
    ensures Le64Bytes(FromLe64(b)) == b
  {
  }

  lemma Be16RoundTrip(v: bv16, b: seq<Byte>)
    requires |b| == 2
    ensures FromBe16(Be16Bytes(v)) == v
    ensures Be16Bytes(FromBe16(b)) == b
  {
  }

  lemma Be32RoundTrip(v: bv32, b: seq<Byte>)
    requires |b| == 4
    ensures FromBe32(Be32Bytes(v)) == v
    ensures Be32Bytes(FromBe32(b)) == b
  {
  }

  lemma Be64RoundTrip(v: bv64, b: seq<Byte>)
    requires |b| == 8
    ensures FromBe64(Be64Bytes(v)) == v
    ensures Be64Bytes(FromBe64(b)) == b
  {
  }

  // ---------------------------------------------------------------------------
  // Byte swaps
  // ---------------------------------------------------------------------------

  /** BS16, BS32, BS64: the bytes of a word in the opposite order; the
      little-endian bytes of the swapped word are the big-endian bytes of
      the word. */
  function BS16(x: bv16): (r: bv16)
    ensures Le16Bytes(r) == Be16Bytes(x)
  {
    (x << 8) | (x >> 8)
  }

  function BS32(x: bv32): (r: bv32)
    ensures Le32Bytes(r) == Be32Bytes(x)
  {
    (x << 24) | ((x << 8) & 0x00ff_0000) | ((x >> 8) & 0x0000_ff00) | (x >> 24)
  }

  function BS64(x: bv64): (r: bv64)
    ensures Le64Bytes(r) == Be64Bytes(x)
  {
    (x << 56)
    | ((x << 40) & 0x00ff_0000_0000_0000)
    | ((x << 24) & 0x0000_ff00_0000_0000)
    | ((x << 8) & 0x0000_00ff_0000_0000)
    | ((x >> 8) & 0x0000_0000_ff00_0000)
    | ((x >> 24) & 0x0000_0000_00ff_0000)
    | ((x >> 40) & 0x0000_0000_0000_ff00)
    | (x >> 56)
  }

  /** Swapping twice gives back the word. */
  lemma BS16Involution(x: bv16)
    ensures BS16(BS16(x)) == x
  {
  }

  lemma BS32Involution(x: bv32)
    ensures BS32(BS32(x)) == x
  {
  }

  lemma BS64Involution(x: bv64)
    ensures BS64(BS64(x)) == x
  {
  }

  /** The byte-swap checks on 0x1234, 0x12345678 and 0x123456789abcdef0. */
  lemma ByteSwapExamples()
    ensures BS16(0x1234) == 0x3412
    ensures BS32(0x1234_5678) == 0x7856_3412
    ensures BS64(0x1234_5678_9abc_def0) == 0xf0de_bc9a_7856_3412
  {
  }

  // ---------------------------------------------------------------------------
  // Host order and little- or big-endian order
  // ---------------------------------------------------------------------------

  /** The bytes of v as a host of the given order keeps v in memory. */
  function HostBytes16(host: HostOrder, v: bv16): seq<Byte>
  {
    if host == LittleEndianHost then Le16Bytes(v) else Be16Bytes(v)
  }

  function HostBytes32(host: HostOrder, v: bv32): seq<Byte>
  {
    if host == LittleEndianHost then Le32Bytes(v) else Be32Bytes(v)
  }

  function HostBytes64(host: HostOrder, v: bv64): seq<Byte>
  {
    if host == LittleEndianHost then Le64Bytes(v) else Be64Bytes(v)
  }

  /** LE16, LE32, LE64: conversion between host order and little-endian
      order, the identity on a little-endian host and a byte swap on a
      big-endian one. The host keeps the converted word in memory as the
      little-endian bytes of the word. BE16, BE32, BE64 the same with
      big-endian order. */
  function LE16(host: HostOrder, x: bv16): (r: bv16)
    ensures HostBytes16(host, r) == Le16Bytes(x)
  {
    if host == LittleEndianHost then x else BS16(x)
  }

  function LE32(host: HostOrder, x: bv32): (r: bv32)
    ensures HostBytes32(host, r) == Le32Bytes(x)
  {
    if host == LittleEndianHost then x else BS32(x)
  }

  function LE64(host: HostOrder, x: bv64): (r: bv64)
    ensures HostBytes64(host, r) == Le64Bytes(x)
  {
    if host == LittleEndianHost then x else BS64(x)
  }

  function BE16(host: HostOrder, x: bv16): (r: bv16)
    ensures HostBytes16(host, r) == Be16Bytes(x)
  {
    if host == BigEndianHost then x else BS16(x)
  }

  function BE32(host: HostOrder, x: bv32): (r: bv32)
    ensures HostBytes32(host, r) == Be32Bytes(x)
  {
    if host == BigEndianHost then x else BS32(x)
  }

  function BE64(host: HostOrder, x: bv64): (r: bv64)
    ensures HostBytes64(host, r) == Be64Bytes(x)
  {
    if host == BigEndianHost then x else BS64(x)
  }

  /** Every conversion undoes itself, on either host. */
  lemma ConversionInvolutions(host: HostOrder, x16: bv16, x32: bv32, x64: bv64)
    ensures LE16(host, LE16(host, x16)) == x16 && BE16(host, BE16(host, x16)) == x16
    ensures LE32(host, LE32(host, x32)) == x32 && BE32(host, BE32(host, x32)) == x32
    ensures LE64(host, LE64(host, x64)) == x64 && BE64(host, BE64(host, x64)) == x64
  {
    hide BS16, BS32, BS64;
    BS16Involution(x16);
    BS32Involution(x32);
    BS64Involution(x64);
  }

  /** One of LE32 and BE32 is the identity and the other is BS32; and the
      case split on whether LE32 leaves the word alone decides which. */
  lemma ConversionConsistency(host: HostOrder, x: bv32)
    ensures (LE32(host, x) == x && BE32(host, x) == BS32(x))
         || (BE32(host, x) == x && LE32(host, x) == BS32(x))
    ensures LE32(host, x) == x ==> BE32(host, x) == BS32(x)
    ensures LE32(host, x) != x ==> BE32(host, x) == x && LE32(host, x) == BS32(x)
  {
    hide BS32, Le32Bytes, Be32Bytes, HostBytes32;
  }

  /** A host order is told apart by LE32 on a word that is not its own swap. */
  lemma HostOrderDetected(host: HostOrder)
    ensures LE32(host, 0x1234_5678) == 0x1234_5678 <==> host == LittleEndianHost
  {
  }

  // ---------------------------------------------------------------------------
  // Unaligned stores and loads
  // ---------------------------------------------------------------------------

  /** PUT_UA16LE(buf + at, v): stores the bytes of v, least significant first,
      at bytes at .. at + 1 of buf; nothing else changes. */
  method PutUa16Le(buf: array<Byte>, at: nat, v: bv16)
    requires at + 2 <= buf.Length
    modifies buf
    ensures buf[..] == old(buf[..at]) + Le16Bytes(v) + old(buf[at + 2..])
  {
    var b := Le16Bytes(v);
    buf[at] := b[0];
    buf[at + 1] := b[1];
  }

  /** GET_UA16LE(buf + at): the value whose little-endian bytes are at
      at .. at + 1. */
  method GetUa16Le(buf: array<Byte>, at: nat) returns (v: bv16)
    requires at + 2 <= buf.Length
    ensures Le16Bytes(v) == buf[at .. at + 2]
  {
    v := FromLe16(buf[at .. at + 2]);
    Le16RoundTrip(v, buf[at .. at + 2]);
  }

  method PutUa32Le(buf: array<Byte>, at: nat, v: bv32)
    requires at + 4 <= buf.Length
    modifies buf
    ensures buf[..] == old(buf[..at]) + Le32Bytes(v) + old(buf[at + 4..])
  {
    var b := Le32Bytes(v);
    buf[at] := b[0];
    buf[at + 1] := b[1];
    buf[at + 2] := b[2];
    buf[at + 3] := b[3];
  }

  method GetUa32Le(buf: array<Byte>, at: nat) returns (v: bv32)
    requires at + 4 <= buf.Length
    ensures Le32Bytes(v) == buf[at .. at + 4]
  {
    v := FromLe32(buf[at .. at + 4]);
    Le32RoundTrip(v, buf[at .. at + 4]);
  }

  method PutUa64Le(buf: array<Byte>, at: nat, v: bv64)
    requires at + 8 <= buf.Length
    modifies buf
    ensures buf[..] == old(buf[..at]) + Le64Bytes(v) + old(buf[at + 8..])
  {
    var b := Le64Bytes(v);
    for k := 0 to 8
      invariant forall j :: 0 <= j < buf.Length ==>
        buf[j] == if at <= j < at + k then b[j - at] else old(buf[j])
    {
      buf[at + k] := b[k];
    }
  }

  method GetUa64Le(buf: array<Byte>, at: nat) returns (v: bv64)
    requires at + 8 <= buf.Length
    ensures Le64Bytes(v) == buf[at .. at + 8]
  {
    v := FromLe64(buf[at .. at + 8]);
    Le64RoundTrip(v, buf[at .. at + 8]);
  }

  /** PUT_UA16BE and the rest store and load most significant byte first. */
  method PutUa16Be(buf: array<Byte>, at: nat, v: bv16)
    requires at + 2 <= buf.Length
    modifies buf
    ensures buf[..] == old(buf[..at]) + Be16Bytes(v) + old(buf[at + 2..])
  {
    var b := Be16Bytes(v);
    buf[at] := b[0];
    buf[at + 1] := b[1];
  }

  method GetUa16Be(buf: array<Byte>, at: nat) returns (v: bv16)
    requires at + 2 <= buf.Length
    ensures Be16Bytes(v) == buf[at .. at + 2]
  {
    v := FromBe16(buf[at .. at + 2]);
    Be16RoundTrip(v, buf[at .. at + 2]);
  }

  method PutUa32Be(buf: array<Byte>, at: nat, v: bv32)
    requires at + 4 <= buf.Length
    modifies buf
    ensures buf[..] == old(buf[..at]) + Be32Bytes(v) + old(buf[at + 4..])
  {
    var b := Be32Bytes(v);
    buf[at] := b[0];
    buf[at + 1] := b[1];
    buf[at + 2] := b[2];
    buf[at + 3] := b[3];
  }

  method GetUa32Be(buf: array<Byte>, at: nat) returns (v: bv32)
    requires at + 4 <= buf.Length
    ensures Be32Bytes(v) == buf[at .. at + 4]
  {
    v := FromBe32(buf[at .. at + 4]);
    Be32RoundTrip(v, buf[at .. at + 4]);
  }

  method PutUa64Be(buf: array<Byte>, at: nat, v: bv64)
    requires at + 8 <= buf.Length
    modifies buf
    ensures buf[..] == old(buf[..at]) + Be64Bytes(v) + old(buf[at + 8..])
  {
    var b := Be64Bytes(v);
    for k := 0 to 8
      invariant forall j :: 0 <= j < buf.Length ==>
        buf[j] == if at <= j < at + k then b[j - at] else old(buf[j])
    {
      buf[at + k] := b[k];
    }
  }

  method GetUa64Be(buf: array<Byte>, at: nat) returns (v: bv64)
    requires at + 8 <= buf.Length
    ensures Be64Bytes(v) == buf[at .. at + 8]
  {
    v := FromBe64(buf[at .. at + 8]);
    Be64RoundTrip(v, buf[at .. at + 8]);
  }

  /** A load after a store at the same place gives back the stored value. */
  lemma StoreLoad16(v: bv16, w: bv16)
    ensures Le16Bytes(w) == Le16Bytes(v) ==> w == v
    ensures Be16Bytes(w) == Be16Bytes(v) ==> w == v
  {
    Le16RoundTrip(v, Le16Bytes(v));
    Le16RoundTrip(w, Le16Bytes(w));
    Be16RoundTrip(v, Be16Bytes(v));
    Be16RoundTrip(w, Be16Bytes(w));
  }

  lemma StoreLoad32(v: bv32, w: bv32)
    ensures Le32Bytes(w) == Le32Bytes(v) ==> w == v
    ensures Be32Bytes(w) == Be32Bytes(v) ==> w == v
  {
    Le32RoundTrip(v, Le32Bytes(v));
    Le32RoundTrip(w, Le32Bytes(w));
    Be32RoundTrip(v, Be32Bytes(v));
    Be32RoundTrip(w, Be32Bytes(w));
  }

  lemma StoreLoad64(v: bv64, w: bv64)
    ensures Le64Bytes(w) == Le64Bytes(v) ==> w == v
    ensures Be64Bytes(w) == Be64Bytes(v) ==> w == v
  {
    Le64RoundTrip(v, Le64Bytes(v));
    Le64RoundTrip(w, Le64Bytes(w));
    Be64RoundTrip(v, Be64Bytes(v));
    Be64RoundTrip(w, Be64Bytes(w));
  }

  /** A load after a store at the same place gives back the stored value,
      at any offset and in either byte order. */
  method PutGet16Le(buf: array<Byte>, at: nat, v: bv16) returns (r: bv16)
    requires at + 2 <= buf.Length
    modifies buf
    ensures r == v
    ensures buf[..] == old(buf[..at]) + Le16Bytes(v) + old(buf[at + 2..])
  {
    PutUa16Le(buf, at, v);
    assert buf[at .. at + 2] == buf[..][at .. at + 2];
    r := GetUa16Le(buf, at);
    StoreLoad16(v, r);
  }

  method PutGet16Be(buf: array<Byte>, at: nat, v: bv16) returns (r: bv16)
    requires at + 2 <= buf.Length
    modifies buf
    ensures r == v
    ensures buf[..] == old(buf[..at]) + Be16Bytes(v) + old(buf[at + 2..])
  {
    PutUa16Be(buf, at, v);
    assert buf[at .. at + 2] == buf[..][at .. at + 2];
    r := GetUa16Be(buf, at);
    StoreLoad16(v, r);
  }

  method PutGet32Le(buf: array<Byte>, at: nat, v: bv32) returns (r: bv32)
    requires at + 4 <= buf.Length
    modifies buf
    ensures r == v
    ensures buf[..] == old(buf[..at]) + Le32Bytes(v) + old(buf[at + 4..])
  {
    PutUa32Le(buf, at, v);
    assert buf[at .. at + 4] == buf[..][at .. at + 4];
    r := GetUa32Le(buf, at);
    StoreLoad32(v, r);
  }

  method PutGet32Be(buf: array<Byte>, at: nat, v: bv32) returns (r: bv32)
    requires at + 4 <= buf.Length
    modifies buf
    ensures r == v
    ensures buf[..] == old(buf[..at]) + Be32Bytes(v) + old(buf[at + 4..])
  {
    PutUa32Be(buf, at, v);
    assert buf[at .. at + 4] == buf[..][at .. at + 4];
    r := GetUa32Be(buf, at);
    StoreLoad32(v, r);
  }

  method PutGet64Le(buf: array<Byte>, at: nat, v: bv64) returns (r: bv64)
    requires at + 8 <= buf.Length
    modifies buf
    ensures r == v
    ensures buf[..] == old(buf[..at]) + Le64Bytes(v) + old(buf[at + 8..])
  {
    PutUa64Le(buf, at, v);
    assert buf[at .. at + 8] == buf[..][at .. at + 8];
    r := GetUa64Le(buf, at);
    StoreLoad64(v, r);
  }

  method PutGet64Be(buf: array<Byte>, at: nat, v: bv64) returns (r: bv64)
    requires at + 8 <= buf.Length
    modifies buf
    ensures r == v
    ensures buf[..] == old(buf[..at]) + Be64Bytes(v) + old(buf[at + 8..])
  {
    PutUa64Be(buf, at, v);
    assert buf[at .. at + 8] == buf[..][at .. at + 8];
    r := GetUa64Be(buf, at);
    StoreLoad64(v, r);
  }

  /** The little-endian store-and-load checks on a zeroed 16-byte buffer:
      each value written at the start of the buffer reads back unchanged. */
  method UnalignedLeChecks() returns (v16: bv16, v32: bv32, v64: bv64)
    ensures v16 == 0x1234 && v32 == 0x1234_5678 && v64 == 0x1234_5678_9abc_def0
  {
    var buffer := new Byte[16](_ => 0);
    PutUa16Le(buffer, 0, 0x1234);
    v16 := GetUa16Le(buffer, 0);
    StoreLoad16(0x1234, v16);
    PutUa32Le(buffer, 0, 0x1234_5678);
    v32 := GetUa32Le(buffer, 0);
    StoreLoad32(0x1234_5678, v32);
    PutUa64Le(buffer, 0, 0x1234_5678_9abc_def0);
    v64 := GetUa64Le(buffer, 0);
    StoreLoad64(0x1234_5678_9abc_def0, v64);
  }

  /** The same checks in big-endian order. */
  method UnalignedBeChecks() returns (v16: bv16, v32: bv32, v64: bv64)
    ensures v16 == 0x1234 && v32 == 0x1234_5678 && v64 == 0x1234_5678_9abc_def0
  {
    var buffer := new Byte[16](_ => 0);
    PutUa16Be(buffer, 0, 0x1234);
    v16 := GetUa16Be(buffer, 0);
    StoreLoad16(0x1234, v16);
    PutUa32Be(buffer, 0, 0x1234_5678);
    v32 := GetUa32Be(buffer, 0);
    StoreLoad32(0x1234_5678, v32);
    PutUa64Be(buffer, 0, 0x1234_5678_9abc_def0);
    v64 := GetUa64Be(buffer, 0);
    StoreLoad64(0x1234_5678_9abc_def0, v64);
  }
}
