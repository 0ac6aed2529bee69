/**
  The AES block cipher of FIPS 197 on values: the arithmetic in GF(2^8) of
  section 4, the transformations of the cipher (section 5.1), the key
  expansion (section 5.2) and the inverse cipher (section 5.3), and the laws
  that make the inverse cipher undo the cipher.

  A block or cipher state is a sequence of 16 bytes in input order, so the
  state byte in row r and column c is byte r + 4 * c (section 3.4). A key
  schedule is the byte sequence of the words w[0], w[1], ... of section 5.2,
  four bytes per word.
*/
module Aes {

  import opened Types

  // ---------------------------------------------------------------------------
  // GF(2^8), section 4
  // ---------------------------------------------------------------------------

  /** Addition in GF(2^8) is the bitwise exclusive or of the two bytes (section 4.1). */
  function Add(a: Byte, b: Byte): Byte
  {
    a ^ b
  }

  /** Multiplication by {02} modulo m(x) = x^8 + x^4 + x^3 + x + 1 (section 4.2.1):
      a left shift, with the bit shifted out folded back in as {1b}. */
  function XTime(b: Byte): Byte
  {
    (b << 1) ^ ((b >> 7) * 0x1b)
  }

  /** Multiplication by the constants of the MixColumns matrix ({02}, {03},
      {01}, {01}, section 5.1.3) and of the InvMixColumns matrix ({0e}, {0b},
      {0d}, {09}, section 5.3.3), as sums of powers of {02}. */
  function Times3(b: Byte): Byte
  {
    Add(XTime(b), b)
  }

  function Times9(b: Byte): Byte
  {
    Add(XTime(XTime(XTime(b))), b)
  }

  function Times11(b: Byte): Byte
  {
    Add(Add(XTime(XTime(XTime(b))), XTime(b)), b)
  }

  function Times13(b: Byte): Byte
  {
    Add(Add(XTime(XTime(XTime(b))), XTime(XTime(b))), b)
  }

  function Times14(b: Byte): Byte
  {
    Add(Add(XTime(XTime(XTime(b))), XTime(XTime(b))), XTime(b))
  }

  /** Multiplication in GF(2^8) as section 4.2.1 describes it: a * b is the sum
      of the a * {02}^k over the set bits k of b, here over the low `bits` bits. */
  function FieldMul(a: Byte, b: Byte, bits: nat): Byte
    decreases bits
  {
    if bits == 0 then 0
    else Add(if b & 1 == 1 then a else 0, FieldMul(XTime(a), b >> 1, bits - 1))
  }

  /** The product a * b of section 4.2. */
  function Mul(a: Byte, b: Byte): Byte
  {
    FieldMul(a, b, 8)
  }

  /** xtime as section 4.2.1 states it: a left shift, followed by an XOR with
      {1b} exactly when the high bit of b was set. */
  lemma XTimeReduction(b: Byte)
    ensures XTime(b) == if b & 0x80 == 0 then b << 1 else (b << 1) ^ 0x1b
  {
  }

  lemma AddComm(a: Byte, b: Byte)
    ensures Add(a, b) == Add(b, a)
  {
  }

  lemma AddAssoc(a: Byte, b: Byte, c: Byte)
    ensures Add(Add(a, b), c) == Add(a, Add(b, c))
  {
  }

  /** 0 is the neutral element and every byte is its own additive inverse. */
  lemma AddZero(a: Byte)
    ensures Add(a, 0) == a && Add(0, a) == a
    ensures Add(a, a) == 0
  {
  }

  /** (a + b) + (c + d) == (a + c) + (b + d), from associativity and commutativity. */
  lemma Interchange(a: Byte, b: Byte, c: Byte, d: Byte)
    ensures Add(Add(a, b), Add(c, d)) == Add(Add(a, c), Add(b, d))
  {
    hide Add;
    AddAssoc(a, b, Add(c, d));
    AddAssoc(b, c, d);
    AddComm(b, c);
    AddAssoc(c, b, d);
    AddAssoc(a, c, Add(b, d));
  }

  /** A sum of four pairwise sums regroups into the sum of the first members
      plus the sum of the second members. */
  lemma Interchange4(a0: Byte, a1: Byte, a2: Byte, a3: Byte, b0: Byte, b1: Byte, b2: Byte, b3: Byte)
    ensures Add(Add(Add(Add(a0, b0), Add(a1, b1)), Add(a2, b2)), Add(a3, b3))
         == Add(Add(Add(Add(a0, a1), a2), a3), Add(Add(Add(b0, b1), b2), b3))
  {
    hide Add;
    Interchange(a0, b0, a1, b1);
    Interchange(Add(a0, a1), Add(b0, b1), a2, b2);
    Interchange(Add(Add(a0, a1), a2), Add(Add(b0, b1), b2), a3, b3);
  }

  /** Multiplication by {02} distributes over addition. */
  lemma XTimeLinear(p: Byte, q: Byte)
    ensures XTime(Add(p, q)) == Add(XTime(p), XTime(q))
  {
  }

  lemma XTime2Linear(p: Byte, q: Byte)
    ensures XTime(XTime(Add(p, q))) == Add(XTime(XTime(p)), XTime(XTime(q)))
  {
    hide XTime, Add;
    XTimeLinear(p, q);
    XTimeLinear(XTime(p), XTime(q));
  }

  lemma XTime3Linear(p: Byte, q: Byte)
    ensures XTime(XTime(XTime(Add(p, q)))) == Add(XTime(XTime(XTime(p))), XTime(XTime(XTime(q))))
  {
    hide XTime, Add;
    XTime2Linear(p, q);
    XTimeLinear(XTime(XTime(p)), XTime(XTime(q)));
  }

  lemma Times3Linear(p: Byte, q: Byte)
    ensures Times3(Add(p, q)) == Add(Times3(p), Times3(q))
  {
    hide XTime, Add;
    XTimeLinear(p, q);
    Interchange(XTime(p), XTime(q), p, q);
  }

  lemma Times9Linear(p: Byte, q: Byte)
    ensures Times9(Add(p, q)) == Add(Times9(p), Times9(q))
  {
    hide XTime, Add;
    XTime3Linear(p, q);
    Interchange(XTime(XTime(XTime(p))), XTime(XTime(XTime(q))), p, q);
  }

  lemma Times11Linear(p: Byte, q: Byte)
    ensures Times11(Add(p, q)) == Add(Times11(p), Times11(q))
  {
    hide XTime, Add;
    var p3, q3 := XTime(XTime(XTime(p))), XTime(XTime(XTime(q)));
    XTime3Linear(p, q);
    XTimeLinear(p, q);
    Interchange(p3, q3, XTime(p), XTime(q));
    Interchange(Add(p3, XTime(p)), Add(q3, XTime(q)), p, q);
  }

  lemma Times13Linear(p: Byte, q: Byte)
    ensures Times13(Add(p, q)) == Add(Times13(p), Times13(q))
  {
    hide XTime, Add;
    var p3, q3 := XTime(XTime(XTime(p))), XTime(XTime(XTime(q)));
    var p2, q2 := XTime(XTime(p)), XTime(XTime(q));
    XTime3Linear(p, q);
    XTime2Linear(p, q);
    Interchange(p3, q3, p2, q2);
    Interchange(Add(p3, p2), Add(q3, q2), p, q);
  }

  lemma Times14Linear(p: Byte, q: Byte)
    ensures Times14(Add(p, q)) == Add(Times14(p), Times14(q))
  {
    hide XTime, Add;
    var p3, q3 := XTime(XTime(XTime(p))), XTime(XTime(XTime(q)));
    var p2, q2 := XTime(XTime(p)), XTime(XTime(q));
    XTime3Linear(p, q);
    XTime2Linear(p, q);
    XTimeLinear(p, q);
    Interchange(p3, q3, p2, q2);
    Interchange(Add(p3, p2), Add(q3, q2), XTime(p), XTime(q));
  }

  /** Multiplying by the zero byte gives zero, whatever the number of bits. */
  lemma {:induction false} FieldMulZero(a: Byte, bits: nat)
    ensures FieldMul(a, 0, bits) == 0
    decreases bits
  {
    if bits > 0 {
      FieldMulZero(XTime(a), bits - 1);
    }
  }

  /** The product by a constant whose high nibble is zero, unfolded: the
      terms a * {02}^k for k = 0..3, each present when bit k of b is set. */
  lemma MulLowNibble(a: Byte, b: Byte, a0: Byte, a1: Byte, a2: Byte, a3: Byte)
    requires b & 0xf0 == 0
    requires a0 == (if b & 1 == 0 then 0 else a)
    requires a1 == (if b & 2 == 0 then 0 else XTime(a))
    requires a2 == (if b & 4 == 0 then 0 else XTime(XTime(a)))
    requires a3 == (if b & 8 == 0 then 0 else XTime(XTime(XTime(a))))
    ensures Mul(a, b) == Add(a0, Add(a1, Add(a2, Add(a3, 0))))
  {
    hide XTime, Add;
    var x1 := XTime(a);
    var x2 := XTime(x1);
    var x3 := XTime(x2);
    FieldMulZero(XTime(x3), 4);
    assert FieldMul(x3, b >> 3, 5) == Add(a3, FieldMul(XTime(x3), b >> 4, 4));
    assert FieldMul(x2, b >> 2, 6) == Add(a2, FieldMul(x3, b >> 3, 5));
    assert FieldMul(x1, b >> 1, 7) == Add(a1, FieldMul(x2, b >> 2, 6));
    assert FieldMul(a, b, 8) == Add(a0, FieldMul(x1, b >> 1, 7));
  }

  /** The shift-and-add multipliers agree with the product of section 4.2 for
      each constant of the two MixColumns matrices. */
  lemma TimesAgreeWithMul(b: Byte)
    ensures XTime(b) == Mul(b, 0x02)
    ensures Times3(b) == Mul(b, 0x03)
    ensures Times9(b) == Mul(b, 0x09)
    ensures Times11(b) == Mul(b, 0x0b)
    ensures Times13(b) == Mul(b, 0x0d)
    ensures Times14(b) == Mul(b, 0x0e)
  {
    hide XTime, Add, Mul;
    var x1 := XTime(b);
    var x2 := XTime(x1);
    var x3 := XTime(x2);
    AddZero(b); AddZero(x1); AddZero(x2); AddZero(x3);
    MulLowNibble(b, 0x02, 0, x1, 0, 0);
    MulLowNibble(b, 0x03, b, x1, 0, 0);
    MulLowNibble(b, 0x09, b, 0, 0, x3);
    MulLowNibble(b, 0x0b, b, x1, 0, x3);
    MulLowNibble(b, 0x0d, b, 0, x2, x3);
    MulLowNibble(b, 0x0e, 0, x1, x2, x3);
    AddZero(0); AddZero(Add(x2, x3)); AddZero(Add(x1, Add(x2, x3)));
    AddComm(x1, b);
    AddComm(x3, b);
    AddComm(x3, x1);
    AddComm(Add(x1, x3), b);
    AddComm(x3, x2);
    AddComm(Add(x2, x3), b);
    AddComm(Add(x2, x3), x1);
  }

  // ---------------------------------------------------------------------------
  // S-box, sections 5.1.1 and 5.3.2
  // ---------------------------------------------------------------------------

  /** The S-box of section 5.1.1 of FIPS 197 (Figure 7), selected on the bits of x,
      high nibble first: the row of the table is x >> 4, the column x & 0x0f. */
  function SBox(x: Byte): Byte
  {
    if x & 0x80 == 0 then (
      if x & 0x40 == 0 then (
        if x & 0x20 == 0 then (
          if x & 0x10 == 0 then (
            // row 0x0_
            if x & 0x08 == 0 then
              (if x & 0x04 == 0 then (if x & 0x02 == 0 then (if x & 0x01 == 0 then 0x63 else 0x7c) else (if x & 0x01 == 0 then 0x77 else 0x7b)) else (if x & 0x02 == 0 then (if x & 0x01 == 0 then 0xf2 else 0x6b) else (if x & 0x01 == 0 then 0x6f else 0xc5)))
            else
              (if x & 0x04 == 0 then (if x & 0x02 == 0 then (if x & 0x01 == 0 then 0x30 else 0x01) else (if x & 0x01 == 0 then 0x67 else 0x2b)) else (if x & 0x02 == 0 then (if x & 0x01 == 0 then 0xfe else 0xd7) else (if x & 0x01 == 0 then 0xab else 0x76)))
          ) else (
            // row 0x1_
            if x & 0x08 == 0 then
              (if x & 0x04 == 0 then (if x & 0x02 == 0 then (if x & 0x01 == 0 then 0xca else 0x82) else (if x & 0x01 == 0 then 0xc9 else 0x7d)) else (if x & 0x02 == 0 then (if x & 0x01 == 0 then 0xfa else 0x59) else (if x & 0x01 == 0 then 0x47 else 0xf0)))
            else
              (if x & 0x04 == 0 then (if x & 0x02 == 0 then (if x & 0x01 == 0 then 0xad else 0xd4) else (if x & 0x01 == 0 then 0xa2 else 0xaf)) else (if x & 0x02 == 0 then (if x & 0x01 == 0 then 0x9c else 0xa4) else (if x & 0x01 == 0 then 0x72 else 0xc0)))
          )
        ) else (
          if x & 0x10 == 0 then (
            // row 0x2_
            if x & 0x08 == 0 then
              (if x & 0x04 == 0 then (if x & 0x02 == 0 then (if x & 0x01 == 0 then 0xb7 else 0xfd) else (if x & 0x01 == 0 then 0x93 else 0x26)) else (if x & 0x02 == 0 then (if x & 0x01 == 0 then 0x36 else 0x3f) else (if x & 0x01 == 0 then 0xf7 else 0xcc)))
            else
              (if x & 0x04 == 0 then (if x & 0x02 == 0 then (if x & 0x01 == 0 then 0x34 else 0xa5) else (if x & 0x01 == 0 then 0xe5 else 0xf1)) else (if x & 0x02 == 0 then (if x & 0x01 == 0 then 0x71 else 0xd8) else (if x & 0x01 == 0 then 0x31 else 0x15)))
          ) else (
            // row 0x3_
            if x & 0x08 == 0 then
              (if x & 0x04 == 0 then (if x & 0x02 == 0 then (if x & 0x01 == 0 then 0x04 else 0xc7) else (if x & 0x01 == 0 then 0x23 else 0xc3)) else (if x & 0x02 == 0 then (if x & 0x01 == 0 then 0x18 else 0x96) else (if x & 0x01 == 0 then 0x05 else 0x9a)))
            else
              (if x & 0x04 == 0 then (if x & 0x02 == 0 then (if x & 0x01 == 0 then 0x07 else 0x12) else (if x & 0x01 == 0 then 0x80 else 0xe2)) else (if x & 0x02 == 0 then (if x & 0x01 == 0 then 0xeb else 0x27) else (if x & 0x01 == 0 then 0xb2 else 0x75)))
          )
        )
      ) else (
        if x & 0x20 == 0 then (
          if x & 0x10 == 0 then (
            // row 0x4_
            if x & 0x08 == 0 then
              (if x & 0x04 == 0 then (if x & 0x02 == 0 then (if x & 0x01 == 0 then 0x09 else 0x83) else (if x & 0x01 == 0 then 0x2c else 0x1a)) else (if x & 0x02 == 0 then (if x & 0x01 == 0 then 0x1b else 0x6e) else (if x & 0x01 == 0 then 0x5a else 0xa0)))
            else
              (if x & 0x04 == 0 then (if x & 0x02 == 0 then (if x & 0x01 == 0 then 0x52 else 0x3b) else (if x & 0x01 == 0 then 0xd6 else 0xb3)) else (if x & 0x02 == 0 then (if x & 0x01 == 0 then 0x29 else 0xe3) else (if x & 0x01 == 0 then 0x2f else 0x84)))
          ) else (
            // row 0x5_
            if x & 0x08 == 0 then
              (if x & 0x04 == 0 then (if x & 0x02 == 0 then (if x & 0x01 == 0 then 0x53 else 0xd1) else (if x & 0x01 == 0 then 0x00 else 0xed)) else (if x & 0x02 == 0 then (if x & 0x01 == 0 then 0x20 else 0xfc) else (if x & 0x01 == 0 then 0xb1 else 0x5b)))
            else
              (if x & 0x04 == 0 then (if x & 0x02 == 0 then (if x & 0x01 == 0 then 0x6a else 0xcb) else (if x & 0x01 == 0 then 0xbe else 0x39)) else (if x & 0x02 == 0 then (if x & 0x01 == 0 then 0x4a else 0x4c) else (if x & 0x01 == 0 then 0x58 else 0xcf)))
          )
        ) else (
          if x & 0x10 == 0 then (
            // row 0x6_
            if x & 0x08 == 0 then
              (if x & 0x04 == 0 then (if x & 0x02 == 0 then (if x & 0x01 == 0 then 0xd0 else 0xef) else (if x & 0x01 == 0 then 0xaa else 0xfb)) else (if x & 0x02 == 0 then (if x & 0x01 == 0 then 0x43 else 0x4d) else (if x & 0x01 == 0 then 0x33 else 0x85)))
            else
              (if x & 0x04 == 0 then (if x & 0x02 == 0 then (if x & 0x01 == 0 then 0x45 else 0xf9) else (if x & 0x01 == 0 then 0x02 else 0x7f)) else (if x & 0x02 == 0 then (if x & 0x01 == 0 then 0x50 else 0x3c) else (if x & 0x01 == 0 then 0x9f else 0xa8)))
          ) else (
            // row 0x7_
            if x & 0x08 == 0 then
              (if x & 0x04 == 0 then (if x & 0x02 == 0 then (if x & 0x01 == 0 then 0x51 else 0xa3) else (if x & 0x01 == 0 then 0x40 else 0x8f)) else (if x & 0x02 == 0 then (if x & 0x01 == 0 then 0x92 else 0x9d) else (if x & 0x01 == 0 then 0x38 else 0xf5)))
            else
              (if x & 0x04 == 0 then (if x & 0x02 == 0 then (if x & 0x01 == 0 then 0xbc else 0xb6) else (if x & 0x01 == 0 then 0xda else 0x21)) else (if x & 0x02 == 0 then (if x & 0x01 == 0 then 0x10 else 0xff) else (if x & 0x01 == 0 then 0xf3 else 0xd2)))
          )
        )
      )
    ) else (
      if x & 0x40 == 0 then (
        if x & 0x20 == 0 then (
          if x & 0x10 == 0 then (
            // row 0x8_
            if x & 0x08 == 0 then
              (if x & 0x04 == 0 then (if x & 0x02 == 0 then (if x & 0x01 == 0 then 0xcd else 0x0c) else (if x & 0x01 == 0 then 0x13 else 0xec)) else (if x & 0x02 == 0 then (if x & 0x01 == 0 then 0x5f else 0x97) else (if x & 0x01 == 0 then 0x44 else 0x17)))
            else
              (if x & 0x04 == 0 then (if x & 0x02 == 0 then (if x & 0x01 == 0 then 0xc4 else 0xa7) else (if x & 0x01 == 0 then 0x7e else 0x3d)) else (if x & 0x02 == 0 then (if x & 0x01 == 0 then 0x64 else 0x5d) else (if x & 0x01 == 0 then 0x19 else 0x73)))
          ) else (
            // row 0x9_
            if x & 0x08 == 0 then
              (if x & 0x04 == 0 then (if x & 0x02 == 0 then (if x & 0x01 == 0 then 0x60 else 0x81) else (if x & 0x01 == 0 then 0x4f else 0xdc)) else (if x & 0x02 == 0 then (if x & 0x01 == 0 then 0x22 else 0x2a) else (if x & 0x01 == 0 then 0x90 else 0x88)))
            else
              (if x & 0x04 == 0 then (if x & 0x02 == 0 then (if x & 0x01 == 0 then 0x46 else 0xee) else (if x & 0x01 == 0 then 0xb8 else 0x14)) else (if x & 0x02 == 0 then (if x & 0x01 == 0 then 0xde else 0x5e) else (if x & 0x01 == 0 then 0x0b else 0xdb)))
          )
        ) else (
          if x & 0x10 == 0 then (
            // row 0xa_
            if x & 0x08 == 0 then
              (if x & 0x04 == 0 then (if x & 0x02 == 0 then (if x & 0x01 == 0 then 0xe0 else 0x32) else (if x & 0x01 == 0 then 0x3a else 0x0a)) else (if x & 0x02 == 0 then (if x & 0x01 == 0 then 0x49 else 0x06) else (if x & 0x01 == 0 then 0x24 else 0x5c)))
            else
              (if x & 0x04 == 0 then (if x & 0x02 == 0 then (if x & 0x01 == 0 then 0xc2 else 0xd3) else (if x & 0x01 == 0 then 0xac else 0x62)) else (if x & 0x02 == 0 then (if x & 0x01 == 0 then 0x91 else 0x95) else (if x & 0x01 == 0 then 0xe4 else 0x79)))
          ) else (
            // row 0xb_
            if x & 0x08 == 0 then
              (if x & 0x04 == 0 then (if x & 0x02 == 0 then (if x & 0x01 == 0 then 0xe7 else 0xc8) else (if x & 0x01 == 0 then 0x37 else 0x6d)) else (if x & 0x02 == 0 then (if x & 0x01 == 0 then 0x8d else 0xd5) else (if x & 0x01 == 0 then 0x4e else 0xa9)))
            else
              (if x & 0x04 == 0 then (if x & 0x02 == 0 then (if x & 0x01 == 0 then 0x6c else 0x56) else (if x & 0x01 == 0 then 0xf4 else 0xea)) else (if x & 0x02 == 0 then (if x & 0x01 == 0 then 0x65 else 0x7a) else (if x & 0x01 == 0 then 0xae else 0x08)))
          )
        )
      ) else (
        if x & 0x20 == 0 then (
          if x & 0x10 == 0 then (
            // row 0xc_
            if x & 0x08 == 0 then
              (if x & 0x04 == 0 then (if x & 0x02 == 0 then (if x & 0x01 == 0 then 0xba else 0x78) else (if x & 0x01 == 0 then 0x25 else 0x2e)) else (if x & 0x02 == 0 then (if x & 0x01 == 0 then 0x1c else 0xa6) else (if x & 0x01 == 0 then 0xb4 else 0xc6)))
            else
              (if x & 0x04 == 0 then (if x & 0x02 == 0 then (if x & 0x01 == 0 then 0xe8 else 0xdd) else (if x & 0x01 == 0 then 0x74 else 0x1f)) else (if x & 0x02 == 0 then (if x & 0x01 == 0 then 0x4b else 0xbd) else (if x & 0x01 == 0 then 0x8b else 0x8a)))
          ) else (
            // row 0xd_
            if x & 0x08 == 0 then
              (if x & 0x04 == 0 then (if x & 0x02 == 0 then (if x & 0x01 == 0 then 0x70 else 0x3e) else (if x & 0x01 == 0 then 0xb5 else 0x66)) else (if x & 0x02 == 0 then (if x & 0x01 == 0 then 0x48 else 0x03) else (if x & 0x01 == 0 then 0xf6 else 0x0e)))
            else
              (if x & 0x04 == 0 then (if x & 0x02 == 0 then (if x & 0x01 == 0 then 0x61 else 0x35) else (if x & 0x01 == 0 then 0x57 else 0xb9)) else (if x & 0x02 == 0 then (if x & 0x01 == 0 then 0x86 else 0xc1) else (if x & 0x01 == 0 then 0x1d else 0x9e)))
          )
        ) else (
          if x & 0x10 == 0 then (
            // row 0xe_
            if x & 0x08 == 0 then
              (if x & 0x04 == 0 then (if x & 0x02 == 0 then (if x & 0x01 == 0 then 0xe1 else 0xf8) else (if x & 0x01 == 0 then 0x98 else 0x11)) else (if x & 0x02 == 0 then (if x & 0x01 == 0 then 0x69 else 0xd9) else (if x & 0x01 == 0 then 0x8e else 0x94)))
            else
              (if x & 0x04 == 0 then (if x & 0x02 == 0 then (if x & 0x01 == 0 then 0x9b else 0x1e) else (if x & 0x01 == 0 then 0x87 else 0xe9)) else (if x & 0x02 == 0 then (if x & 0x01 == 0 then 0xce else 0x55) else (if x & 0x01 == 0 then 0x28 else 0xdf)))
          ) else (
            // row 0xf_
            if x & 0x08 == 0 then
              (if x & 0x04 == 0 then (if x & 0x02 == 0 then (if x & 0x01 == 0 then 0x8c else 0xa1) else (if x & 0x01 == 0 then 0x89 else 0x0d)) else (if x & 0x02 == 0 then (if x & 0x01 == 0 then 0xbf else 0xe6) else (if x & 0x01 == 0 then 0x42 else 0x68)))
            else
              (if x & 0x04 == 0 then (if x & 0x02 == 0 then (if x & 0x01 == 0 then 0x41 else 0x99) else (if x & 0x01 == 0 then 0x2d else 0x0f)) else (if x & 0x02 == 0 then (if x & 0x01 == 0 then 0xb0 else 0x54) else (if x & 0x01 == 0 then 0xbb else 0x16)))
          )
        )
      )
    )
  }

  /** The inverse S-box of section 5.3.2 of FIPS 197 (Figure 14), laid out like SBox. */
  function InvSBox(x: Byte): Byte
  {
    if x & 0x80 == 0 then (
      if x & 0x40 == 0 then (
        if x & 0x20 == 0 then (
          if x & 0x10 == 0 then (
            // row 0x0_
            if x & 0x08 == 0 then
              (if x & 0x04 == 0 then (if x & 0x02 == 0 then (if x & 0x01 == 0 then 0x52 else 0x09) else (if x & 0x01 == 0 then 0x6a else 0xd5)) else (if x & 0x02 == 0 then (if x & 0x01 == 0 then 0x30 else 0x36) else (if x & 0x01 == 0 then 0xa5 else 0x38)))
            else
              (if x & 0x04 == 0 then (if x & 0x02 == 0 then (if x & 0x01 == 0 then 0xbf else 0x40) else (if x & 0x01 == 0 then 0xa3 else 0x9e)) else (if x & 0x02 == 0 then (if x & 0x01 == 0 then 0x81 else 0xf3) else (if x & 0x01 == 0 then 0xd7 else 0xfb)))
          ) else (
            // row 0x1_
            if x & 0x08 == 0 then
              (if x & 0x04 == 0 then (if x & 0x02 == 0 then (if x & 0x01 == 0 then 0x7c else 0xe3) else (if x & 0x01 == 0 then 0x39 else 0x82)) else (if x & 0x02 == 0 then (if x & 0x01 == 0 then 0x9b else 0x2f) else (if x & 0x01 == 0 then 0xff else 0x87)))
            else
              (if x & 0x04 == 0 then (if x & 0x02 == 0 then (if x & 0x01 == 0 then 0x34 else 0x8e) else (if x & 0x01 == 0 then 0x43 else 0x44)) else (if x & 0x02 == 0 then (if x & 0x01 == 0 then 0xc4 else 0xde) else (if x & 0x01 == 0 then 0xe9 else 0xcb)))
          )
        ) else (
          if x & 0x10 == 0 then (
            // row 0x2_
            if x & 0x08 == 0 then
              (if x & 0x04 == 0 then (if x & 0x02 == 0 then (if x & 0x01 == 0 then 0x54 else 0x7b) else (if x & 0x01 == 0 then 0x94 else 0x32)) else (if x & 0x02 == 0 then (if x & 0x01 == 0 then 0xa6 else 0xc2) else (if x & 0x01 == 0 then 0x23 else 0x3d)))
            else
              (if x & 0x04 == 0 then (if x & 0x02 == 0 then (if x & 0x01 == 0 then 0xee else 0x4c) else (if x & 0x01 == 0 then 0x95 else 0x0b)) else (if x & 0x02 == 0 then (if x & 0x01 == 0 then 0x42 else 0xfa) else (if x & 0x01 == 0 then 0xc3 else 0x4e)))
          ) else (
            // row 0x3_
            if x & 0x08 == 0 then
              (if x & 0x04 == 0 then (if x & 0x02 == 0 then (if x & 0x01 == 0 then 0x08 else 0x2e) else (if x & 0x01 == 0 then 0xa1 else 0x66)) else (if x & 0x02 == 0 then (if x & 0x01 == 0 then 0x28 else 0xd9) else (if x & 0x01 == 0 then 0x24 else 0xb2)))
            else
              (if x & 0x04 == 0 then (if x & 0x02 == 0 then (if x & 0x01 == 0 then 0x76 else 0x5b) else (if x & 0x01 == 0 then 0xa2 else 0x49)) else (if x & 0x02 == 0 then (if x & 0x01 == 0 then 0x6d else 0x8b) else (if x & 0x01 == 0 then 0xd1 else 0x25)))
          )
        )
      ) else (
        if x & 0x20 == 0 then (
          if x & 0x10 == 0 then (
            // row 0x4_
            if x & 0x08 == 0 then
              (if x & 0x04 == 0 then (if x & 0x02 == 0 then (if x & 0x01 == 0 then 0x72 else 0xf8) else (if x & 0x01 == 0 then 0xf6 else 0x64)) else (if x & 0x02 == 0 then (if x & 0x01 == 0 then 0x86 else 0x68) else (if x & 0x01 == 0 then 0x98 else 0x16)))
            else
              (if x & 0x04 == 0 then (if x & 0x02 == 0 then (if x & 0x01 == 0 then 0xd4 else 0xa4) else (if x & 0x01 == 0 then 0x5c else 0xcc)) else (if x & 0x02 == 0 then (if x & 0x01 == 0 then 0x5d else 0x65) else (if x & 0x01 == 0 then 0xb6 else 0x92)))
          ) else (
            // row 0x5_
            if x & 0x08 == 0 then
              (if x & 0x04 == 0 then (if x & 0x02 == 0 then (if x & 0x01 == 0 then 0x6c else 0x70) else (if x & 0x01 == 0 then 0x48 else 0x50)) else (if x & 0x02 == 0 then (if x & 0x01 == 0 then 0xfd else 0xed) else (if x & 0x01 == 0 then 0xb9 else 0xda)))
            else
              (if x & 0x04 == 0 then (if x & 0x02 == 0 then (if x & 0x01 == 0 then 0x5e else 0x15) else (if x & 0x01 == 0 then 0x46 else 0x57)) else (if x & 0x02 == 0 then (if x & 0x01 == 0 then 0xa7 else 0x8d) else (if x & 0x01 == 0 then 0x9d else 0x84)))
          )
        ) else (
          if x & 0x10 == 0 then (
            // row 0x6_
            if x & 0x08 == 0 then
              (if x & 0x04 == 0 then (if x & 0x02 == 0 then (if x & 0x01 == 0 then 0x90 else 0xd8) else (if x & 0x01 == 0 then 0xab else 0x00)) else (if x & 0x02 == 0 then (if x & 0x01 == 0 then 0x8c else 0xbc) else (if x & 0x01 == 0 then 0xd3 else 0x0a)))
            else
              (if x & 0x04 == 0 then (if x & 0x02 == 0 then (if x & 0x01 == 0 then 0xf7 else 0xe4) else (if x & 0x01 == 0 then 0x58 else 0x05)) else (if x & 0x02 == 0 then (if x & 0x01 == 0 then 0xb8 else 0xb3) else (if x & 0x01 == 0 then 0x45 else 0x06)))
          ) else (
            // row 0x7_
            if x & 0x08 == 0 then
              (if x & 0x04 == 0 then (if x & 0x02 == 0 then (if x & 0x01 == 0 then 0xd0 else 0x2c) else (if x & 0x01 == 0 then 0x1e else 0x8f)) else (if x & 0x02 == 0 then (if x & 0x01 == 0 then 0xca else 0x3f) else (if x & 0x01 == 0 then 0x0f else 0x02)))
            else
              (if x & 0x04 == 0 then (if x & 0x02 == 0 then (if x & 0x01 == 0 then 0xc1 else 0xaf) else (if x & 0x01 == 0 then 0xbd else 0x03)) else (if x & 0x02 == 0 then (if x & 0x01 == 0 then 0x01 else 0x13) else (if x & 0x01 == 0 then 0x8a else 0x6b)))
          )
        )
      )
    ) else (
      if x & 0x40 == 0 then (
        if x & 0x20 == 0 then (
          if x & 0x10 == 0 then (
            // row 0x8_
            if x & 0x08 == 0 then
              (if x & 0x04 == 0 then (if x & 0x02 == 0 then (if x & 0x01 == 0 then 0x3a else 0x91) else (if x & 0x01 == 0 then 0x11 else 0x41)) else (if x & 0x02 == 0 then (if x & 0x01 == 0 then 0x4f else 0x67) else (if x & 0x01 == 0 then 0xdc else 0xea)))
            else
              (if x & 0x04 == 0 then (if x & 0x02 == 0 then (if x & 0x01 == 0 then 0x97 else 0xf2) else (if x & 0x01 == 0 then 0xcf else 0xce)) else (if x & 0x02 == 0 then (if x & 0x01 == 0 then 0xf0 else 0xb4) else (if x & 0x01 == 0 then 0xe6 else 0x73)))
          ) else (
            // row 0x9_
            if x & 0x08 == 0 then
              (if x & 0x04 == 0 then (if x & 0x02 == 0 then (if x & 0x01 == 0 then 0x96 else 0xac) else (if x & 0x01 == 0 then 0x74 else 0x22)) else (if x & 0x02 == 0 then (if x & 0x01 == 0 then 0xe7 else 0xad) else (if x & 0x01 == 0 then 0x35 else 0x85)))
            else
              (if x & 0x04 == 0 then (if x & 0x02 == 0 then (if x & 0x01 == 0 then 0xe2 else 0xf9) else (if x & 0x01 == 0 then 0x37 else 0xe8)) else (if x & 0x02 == 0 then (if x & 0x01 == 0 then 0x1c else 0x75) else (if x & 0x01 == 0 then 0xdf else 0x6e)))
          )
        ) else (
          if x & 0x10 == 0 then (
            // row 0xa_
            if x & 0x08 == 0 then
              (if x & 0x04 == 0 then (if x & 0x02 == 0 then (if x & 0x01 == 0 then 0x47 else 0xf1) else (if x & 0x01 == 0 then 0x1a else 0x71)) else (if x & 0x02 == 0 then (if x & 0x01 == 0 then 0x1d else 0x29) else (if x & 0x01 == 0 then 0xc5 else 0x89)))
            else
              (if x & 0x04 == 0 then (if x & 0x02 == 0 then (if x & 0x01 == 0 then 0x6f else 0xb7) else (if x & 0x01 == 0 then 0x62 else 0x0e)) else (if x & 0x02 == 0 then (if x & 0x01 == 0 then 0xaa else 0x18) else (if x & 0x01 == 0 then 0xbe else 0x1b)))
          ) else (
            // row 0xb_
            if x & 0x08 == 0 then
              (if x & 0x04 == 0 then (if x & 0x02 == 0 then (if x & 0x01 == 0 then 0xfc else 0x56) else (if x & 0x01 == 0 then 0x3e else 0x4b)) else (if x & 0x02 == 0 then (if x & 0x01 == 0 then 0xc6 else 0xd2) else (if x & 0x01 == 0 then 0x79 else 0x20)))
            else
              (if x & 0x04 == 0 then (if x & 0x02 == 0 then (if x & 0x01 == 0 then 0x9a else 0xdb) else (if x & 0x01 == 0 then 0xc0 else 0xfe)) else (if x & 0x02 == 0 then (if x & 0x01 == 0 then 0x78 else 0xcd) else (if x & 0x01 == 0 then 0x5a else 0xf4)))
          )
        )
      ) else (
        if x & 0x20 == 0 then (
          if x & 0x10 == 0 then (
            // row 0xc_
            if x & 0x08 == 0 then
              (if x & 0x04 == 0 then (if x & 0x02 == 0 then (if x & 0x01 == 0 then 0x1f else 0xdd) else (if x & 0x01 == 0 then 0xa8 else 0x33)) else (if x & 0x02 == 0 then (if x & 0x01 == 0 then 0x88 else 0x07) else (if x & 0x01 == 0 then 0xc7 else 0x31)))
            else
              (if x & 0x04 == 0 then (if x & 0x02 == 0 then (if x & 0x01 == 0 then 0xb1 else 0x12) else (if x & 0x01 == 0 then 0x10 else 0x59)) else (if x & 0x02 == 0 then (if x & 0x01 == 0 then 0x27 else 0x80) else (if x & 0x01 == 0 then 0xec else 0x5f)))
          ) else (
            // row 0xd_
            if x & 0x08 == 0 then
              (if x & 0x04 == 0 then (if x & 0x02 == 0 then (if x & 0x01 == 0 then 0x60 else 0x51) else (if x & 0x01 == 0 then 0x7f else 0xa9)) else (if x & 0x02 == 0 then (if x & 0x01 == 0 then 0x19 else 0xb5) else (if x & 0x01 == 0 then 0x4a else 0x0d)))
            else
              (if x & 0x04 == 0 then (if x & 0x02 == 0 then (if x & 0x01 == 0 then 0x2d else 0xe5) else (if x & 0x01 == 0 then 0x7a else 0x9f)) else (if x & 0x02 == 0 then (if x & 0x01 == 0 then 0x93 else 0xc9) else (if x & 0x01 == 0 then 0x9c else 0xef)))
          )
        ) else (
          if x & 0x10 == 0 then (
            // row 0xe_
            if x & 0x08 == 0 then
              (if x & 0x04 == 0 then (if x & 0x02 == 0 then (if x & 0x01 == 0 then 0xa0 else 0xe0) else (if x & 0x01 == 0 then 0x3b else 0x4d)) else (if x & 0x02 == 0 then (if x & 0x01 == 0 then 0xae else 0x2a) else (if x & 0x01 == 0 then 0xf5 else 0xb0)))
            else
              (if x & 0x04 == 0 then (if x & 0x02 == 0 then (if x & 0x01 == 0 then 0xc8 else 0xeb) else (if x & 0x01 == 0 then 0xbb else 0x3c)) else (if x & 0x02 == 0 then (if x & 0x01 == 0 then 0x83 else 0x53) else (if x & 0x01 == 0 then 0x99 else 0x61)))
          ) else (
            // row 0xf_
            if x & 0x08 == 0 then
              (if x & 0x04 == 0 then (if x & 0x02 == 0 then (if x & 0x01 == 0 then 0x17 else 0x2b) else (if x & 0x01 == 0 then 0x04 else 0x7e)) else (if x & 0x02 == 0 then (if x & 0x01 == 0 then 0xba else 0x77) else (if x & 0x01 == 0 then 0xd6 else 0x26)))
            else
              (if x & 0x04 == 0 then (if x & 0x02 == 0 then (if x & 0x01 == 0 then 0xe1 else 0x69) else (if x & 0x01 == 0 then 0x14 else 0x63)) else (if x & 0x02 == 0 then (if x & 0x01 == 0 then 0x55 else 0x21) else (if x & 0x01 == 0 then 0x0c else 0x7d)))
          )
        )
      )
    )
  }

  /** InvSBox undoes SBox and SBox undoes InvSBox: the two tables are inverse
      permutations of the 256 byte values. */
  lemma SBoxInverse(x: Byte)
    ensures InvSBox(SBox(x)) == x
    ensures SBox(InvSBox(x)) == x
  {
  }

  // ---------------------------------------------------------------------------
  // Columns: MixColumns (section 5.1.3) and InvMixColumns (section 5.3.3)
  // ---------------------------------------------------------------------------

  /** The byte of row r of a column after MixColumns, given the column's bytes
      read downwards from row r: {02} * a0 + {03} * a1 + a2 + a3 (equation 5.6). */
  function MixByte(a0: Byte, a1: Byte, a2: Byte, a3: Byte): Byte
  {
    Add(Add(Add(XTime(a0), Times3(a1)), a2), a3)
  }

  /** The same for InvMixColumns: {0e} * a0 + {0b} * a1 + {0d} * a2 + {09} * a3
      (equation 5.10). */
  function InvMixByte(a0: Byte, a1: Byte, a2: Byte, a3: Byte): Byte
  {
    Add(Add(Add(Times14(a0), Times11(a1)), Times13(a2)), Times9(a3))
  }

  /** Row 0 of InvMixColumns applied to the MixColumns of the column a0..a3. */
  function MixThenUnmix(a0: Byte, a1: Byte, a2: Byte, a3: Byte): Byte
  {
    InvMixByte(MixByte(a0, a1, a2, a3), MixByte(a1, a2, a3, a0), MixByte(a2, a3, a0, a1), MixByte(a3, a0, a1, a2))
  }

  lemma MixByteLinear(a0: Byte, a1: Byte, a2: Byte, a3: Byte, b0: Byte, b1: Byte, b2: Byte, b3: Byte)
    ensures MixByte(Add(a0, b0), Add(a1, b1), Add(a2, b2), Add(a3, b3))
         == Add(MixByte(a0, a1, a2, a3), MixByte(b0, b1, b2, b3))
  {
    hide XTime, Times3, Add;
    XTimeLinear(a0, b0);
    Times3Linear(a1, b1);
    Interchange4(XTime(a0), Times3(a1), a2, a3, XTime(b0), Times3(b1), b2, b3);
  }

  lemma InvMixByteLinear(a0: Byte, a1: Byte, a2: Byte, a3: Byte, b0: Byte, b1: Byte, b2: Byte, b3: Byte)
    ensures InvMixByte(Add(a0, b0), Add(a1, b1), Add(a2, b2), Add(a3, b3))
         == Add(InvMixByte(a0, a1, a2, a3), InvMixByte(b0, b1, b2, b3))
  {
    hide Times14, Times11, Times13, Times9, Add;
    Times14Linear(a0, b0);
    Times11Linear(a1, b1);
    Times13Linear(a2, b2);
    Times9Linear(a3, b3);
    Interchange4(Times14(a0), Times11(a1), Times13(a2), Times9(a3), Times14(b0), Times11(b1), Times13(b2), Times9(b3));
  }

  lemma MixThenUnmixLinear(a0: Byte, a1: Byte, a2: Byte, a3: Byte, b0: Byte, b1: Byte, b2: Byte, b3: Byte)
    ensures MixThenUnmix(Add(a0, b0), Add(a1, b1), Add(a2, b2), Add(a3, b3))
         == Add(MixThenUnmix(a0, a1, a2, a3), MixThenUnmix(b0, b1, b2, b3))
  {
    hide MixByte, InvMixByte, Add;
    MixByteLinear(a0, a1, a2, a3, b0, b1, b2, b3);
    MixByteLinear(a1, a2, a3, a0, b1, b2, b3, b0);
    MixByteLinear(a2, a3, a0, a1, b2, b3, b0, b1);
    MixByteLinear(a3, a0, a1, a2, b3, b0, b1, b2);
    InvMixByteLinear(MixByte(a0, a1, a2, a3), MixByte(a1, a2, a3, a0), MixByte(a2, a3, a0, a1), MixByte(a3, a0, a1, a2),
                     MixByte(b0, b1, b2, b3), MixByte(b1, b2, b3, b0), MixByte(b2, b3, b0, b1), MixByte(b3, b0, b1, b2));
  }

  /** The four unit columns: these are the products of the two matrices of
      sections 5.1.3 and 5.3.3, entry by entry. */
  lemma MixThenUnmixUnit0(a: Byte)
    ensures MixThenUnmix(a, 0, 0, 0) == a
  {
  }

  lemma MixThenUnmixUnit1(a: Byte)
    ensures MixThenUnmix(0, a, 0, 0) == 0
  {
  }

  lemma MixThenUnmixUnit2(a: Byte)
    ensures MixThenUnmix(0, 0, a, 0) == 0
  {
  }

  lemma MixThenUnmixUnit3(a: Byte)
    ensures MixThenUnmix(0, 0, 0, a) == 0
  {
  }

  /** InvMixColumns undoes MixColumns on one column: the two matrices are
      inverse (section 5.3.3). By linearity the column splits into its four
      unit columns. */
  lemma MixByteInverse(a0: Byte, a1: Byte, a2: Byte, a3: Byte)
    ensures MixThenUnmix(a0, a1, a2, a3) == a0
  {
    hide MixThenUnmix, Add;
    AddZero(a0); AddZero(a1); AddZero(a2); AddZero(a3); AddZero(0);
    MixThenUnmixLinear(a0, 0, 0, 0, 0, a1, 0, 0);
    MixThenUnmixLinear(a0, a1, 0, 0, 0, 0, a2, 0);
    MixThenUnmixLinear(a0, a1, a2, 0, 0, 0, 0, a3);
    MixThenUnmixUnit0(a0);
    MixThenUnmixUnit1(a1);
    MixThenUnmixUnit2(a2);
    MixThenUnmixUnit3(a3);
  }

  // ---------------------------------------------------------------------------
  // State transformations, sections 5.1 and 5.3
  // ---------------------------------------------------------------------------

  /** The bytes of a, each combined with the byte at the same place in b by XOR. */
  function XorBytes(a: seq<Byte>, b: seq<Byte>): (r: seq<Byte>)
    requires |a| == |b|
    ensures |r| == |a|
  {
    seq(|a|, i requires 0 <= i < |a| => Add(a[i], b[i]))
  }

  /** Byte i of XorBytes(a, b) is the sum of the bytes at i. */
  lemma XorBytesAt(a: seq<Byte>, b: seq<Byte>, i: nat)
    requires |a| == |b| && i < |a|
    ensures XorBytes(a, b)[i] == Add(a[i], b[i])
  {
    hide Add;
  }

  /** SubBytes (section 5.1.1): the S-box applied to every byte of the state. */
  function SubBytes(s: seq<Byte>): (r: seq<Byte>)
    requires |s| == 16
    ensures |r| == 16
  {
    [SBox(s[0]), SBox(s[1]), SBox(s[2]), SBox(s[3]),
     SBox(s[4]), SBox(s[5]), SBox(s[6]), SBox(s[7]),
     SBox(s[8]), SBox(s[9]), SBox(s[10]), SBox(s[11]),
     SBox(s[12]), SBox(s[13]), SBox(s[14]), SBox(s[15])]
  }

  /** InvSubBytes (section 5.3.2): the inverse S-box applied to every byte. */
  function InvSubBytes(s: seq<Byte>): (r: seq<Byte>)
    requires |s| == 16
    ensures |r| == 16
  {
    [InvSBox(s[0]), InvSBox(s[1]), InvSBox(s[2]), InvSBox(s[3]),
     InvSBox(s[4]), InvSBox(s[5]), InvSBox(s[6]), InvSBox(s[7]),
     InvSBox(s[8]), InvSBox(s[9]), InvSBox(s[10]), InvSBox(s[11]),
     InvSBox(s[12]), InvSBox(s[13]), InvSBox(s[14]), InvSBox(s[15])]
  }

  /** ShiftRows (section 5.1.2): row r moves r places to the left. */
  function ShiftRows(s: seq<Byte>): (r: seq<Byte>)
    requires |s| == 16
    ensures |r| == 16
  {
    [s[0], s[5], s[10], s[15],
     s[4], s[9], s[14], s[3],
     s[8], s[13], s[2], s[7],
     s[12], s[1], s[6], s[11]]
  }

  /** InvShiftRows (section 5.3.1): row r moves r places to the right. */
  function InvShiftRows(s: seq<Byte>): (r: seq<Byte>)
    requires |s| == 16
    ensures |r| == 16
  {
    [s[0], s[13], s[10], s[7],
     s[4], s[1], s[14], s[11],
     s[8], s[5], s[2], s[15],
     s[12], s[9], s[6], s[3]]
  }

  /** MixColumns (section 5.1.3): every byte becomes the MixByte of its column,
      read downwards from its own row. */
  function MixColumns(s: seq<Byte>): (r: seq<Byte>)
    requires |s| == 16
    ensures |r| == 16
  {
    [MixByte(s[0], s[1], s[2], s[3]), MixByte(s[1], s[2], s[3], s[0]),
     MixByte(s[2], s[3], s[0], s[1]), MixByte(s[3], s[0], s[1], s[2]),
     MixByte(s[4], s[5], s[6], s[7]), MixByte(s[5], s[6], s[7], s[4]),
     MixByte(s[6], s[7], s[4], s[5]), MixByte(s[7], s[4], s[5], s[6]),
     MixByte(s[8], s[9], s[10], s[11]), MixByte(s[9], s[10], s[11], s[8]),
     MixByte(s[10], s[11], s[8], s[9]), MixByte(s[11], s[8], s[9], s[10]),
     MixByte(s[12], s[13], s[14], s[15]), MixByte(s[13], s[14], s[15], s[12]),
     MixByte(s[14], s[15], s[12], s[13]), MixByte(s[15], s[12], s[13], s[14])]
  }

  /** InvMixColumns (section 5.3.3), with InvMixByte in place of MixByte. */
  function InvMixColumns(s: seq<Byte>): (r: seq<Byte>)
    requires |s| == 16
    ensures |r| == 16
  {
    [InvMixByte(s[0], s[1], s[2], s[3]), InvMixByte(s[1], s[2], s[3], s[0]),
     InvMixByte(s[2], s[3], s[0], s[1]), InvMixByte(s[3], s[0], s[1], s[2]),
     InvMixByte(s[4], s[5], s[6], s[7]), InvMixByte(s[5], s[6], s[7], s[4]),
     InvMixByte(s[6], s[7], s[4], s[5]), InvMixByte(s[7], s[4], s[5], s[6]),
     InvMixByte(s[8], s[9], s[10], s[11]), InvMixByte(s[9], s[10], s[11], s[8]),
     InvMixByte(s[10], s[11], s[8], s[9]), InvMixByte(s[11], s[8], s[9], s[10]),
     InvMixByte(s[12], s[13], s[14], s[15]), InvMixByte(s[13], s[14], s[15], s[12]),
     InvMixByte(s[14], s[15], s[12], s[13]), InvMixByte(s[15], s[12], s[13], s[14])]
  }

  /** XOR with the same bytes twice gives back the original bytes. */
  lemma XorBytesInvolution(a: seq<Byte>, k: seq<Byte>)
    requires |a| == |k|
    ensures XorBytes(XorBytes(a, k), k) == a
  {
  }

  /** XOR of a sequence with itself is all zero bytes. */
  lemma XorBytesSelf(a: seq<Byte>)
    ensures XorBytes(a, a) == seq(|a|, _ => 0)
  {
  }

  /** XOR with the bitwise complement is all 0xff bytes. */
  lemma XorBytesComplement(a: seq<Byte>, b: seq<Byte>)
    requires |a| == |b|
    requires forall i :: 0 <= i < |a| ==> b[i] == !a[i]
    ensures XorBytes(a, b) == seq(|a|, _ => 0xff)
  {
  }

  /** A 16-byte sequence is the display of its bytes. */
  lemma Display16(s: seq<Byte>)
    requires |s| == 16
    ensures s == [s[0], s[1], s[2], s[3], s[4], s[5], s[6], s[7], s[8], s[9], s[10], s[11], s[12], s[13], s[14], s[15]]
  {
  }

  /** InvSubBytes undoes SubBytes, byte by byte. */
  lemma SubBytesInverse(s: seq<Byte>)
    requires |s| == 16
    ensures InvSubBytes(SubBytes(s)) == s
  {
    hide SBox, InvSBox;
    Display16(s);
    SBoxInverse(s[0]);
    SBoxInverse(s[1]);
    SBoxInverse(s[2]);
    SBoxInverse(s[3]);
    SBoxInverse(s[4]);
    SBoxInverse(s[5]);
    SBoxInverse(s[6]);
    SBoxInverse(s[7]);
    SBoxInverse(s[8]);
    SBoxInverse(s[9]);
    SBoxInverse(s[10]);
    SBoxInverse(s[11]);
    SBoxInverse(s[12]);
    SBoxInverse(s[13]);
    SBoxInverse(s[14]);
    SBoxInverse(s[15]);
  }

  /** SubBytes undoes InvSubBytes, byte by byte. */
  lemma InvSubBytesInverse(s: seq<Byte>)
    requires |s| == 16
    ensures SubBytes(InvSubBytes(s)) == s
  {
    hide SBox, InvSBox;
    Display16(s);
    SBoxInverse(s[0]);
    SBoxInverse(s[1]);
    SBoxInverse(s[2]);
    SBoxInverse(s[3]);
    SBoxInverse(s[4]);
    SBoxInverse(s[5]);
    SBoxInverse(s[6]);
    SBoxInverse(s[7]);
    SBoxInverse(s[8]);
    SBoxInverse(s[9]);
    SBoxInverse(s[10]);
    SBoxInverse(s[11]);
    SBoxInverse(s[12]);
    SBoxInverse(s[13]);
    SBoxInverse(s[14]);
    SBoxInverse(s[15]);
  }

  /** InvShiftRows moves every byte back to where ShiftRows took it from. */
  lemma ShiftRowsInverse(s: seq<Byte>)
    requires |s| == 16
    ensures InvShiftRows(ShiftRows(s)) == s
    ensures ShiftRows(InvShiftRows(s)) == s
  {
  }

  /** InvMixColumns undoes MixColumns, column by column. */
  lemma MixColumnsInverse(s: seq<Byte>)
    requires |s| == 16
    ensures InvMixColumns(MixColumns(s)) == s
  {
    hide MixByte, InvMixByte;
    MixByteInverse(s[0], s[1], s[2], s[3]);
    MixByteInverse(s[1], s[2], s[3], s[0]);
    MixByteInverse(s[2], s[3], s[0], s[1]);
    MixByteInverse(s[3], s[0], s[1], s[2]);
    MixByteInverse(s[4], s[5], s[6], s[7]);
    MixByteInverse(s[5], s[6], s[7], s[4]);
    MixByteInverse(s[6], s[7], s[4], s[5]);
    MixByteInverse(s[7], s[4], s[5], s[6]);
    MixByteInverse(s[8], s[9], s[10], s[11]);
    MixByteInverse(s[9], s[10], s[11], s[8]);
    MixByteInverse(s[10], s[11], s[8], s[9]);
    MixByteInverse(s[11], s[8], s[9], s[10]);
    MixByteInverse(s[12], s[13], s[14], s[15]);
    MixByteInverse(s[13], s[14], s[15], s[12]);
    MixByteInverse(s[14], s[15], s[12], s[13]);
    MixByteInverse(s[15], s[12], s[13], s[14]);
  }

  // ---------------------------------------------------------------------------
  // Cipher (section 5.1) and inverse cipher (section 5.3)
  // ---------------------------------------------------------------------------

  /** The round key of round r: words 4r .. 4r + 3 of the key schedule. */
  function RoundKey(w: seq<Byte>, r: nat): (k: seq<Byte>)
    requires 16 * (r + 1) <= |w|
    ensures |k| == 16
  {
    w[16 * r .. 16 * r + 16]
  }

  /** One round of the cipher: SubBytes, ShiftRows, MixColumns, AddRoundKey. */
  function Round(s: seq<Byte>, k: seq<Byte>): (r: seq<Byte>)
    requires |s| == 16 && |k| == 16
    ensures |r| == 16
  {
    XorBytes(MixColumns(ShiftRows(SubBytes(s))), k)
  }

  /** The last round of the cipher leaves out MixColumns. */
  function FinalRound(s: seq<Byte>, k: seq<Byte>): (r: seq<Byte>)
    requires |s| == 16 && |k| == 16
    ensures |r| == 16
  {
    XorBytes(ShiftRows(SubBytes(s)), k)
  }

  /** One round of the inverse cipher: InvShiftRows, InvSubBytes, AddRoundKey,
      InvMixColumns. */
  function InvRound(s: seq<Byte>, k: seq<Byte>): (r: seq<Byte>)
    requires |s| == 16 && |k| == 16
    ensures |r| == 16
  {
    InvMixColumns(XorBytes(InvSubBytes(InvShiftRows(s)), k))
  }

  /** The last round of the inverse cipher leaves out InvMixColumns. */
  function InvFinalRound(s: seq<Byte>, k: seq<Byte>): (r: seq<Byte>)
    requires |s| == 16 && |k| == 16
    ensures |r| == 16
  {
    XorBytes(InvSubBytes(InvShiftRows(s)), k)
  }

  /** Rounds 1 .. n of the cipher, each with its own round key. */
  function CipherRounds(s: seq<Byte>, w: seq<Byte>, n: nat): (r: seq<Byte>)
    requires |s| == 16 && 16 * (n + 1) <= |w|
    ensures |r| == 16
    decreases n
  {
    if n == 0 then s else Round(CipherRounds(s, w, n - 1), RoundKey(w, n))
  }

  /** Rounds n, n - 1, .. 1 of the inverse cipher. */
  function InvCipherRounds(s: seq<Byte>, w: seq<Byte>, n: nat): (r: seq<Byte>)
    requires |s| == 16 && 16 * (n + 1) <= |w|
    ensures |r| == 16
    decreases n
  {
    if n == 0 then s else InvCipherRounds(InvRound(s, RoundKey(w, n)), w, n - 1)
  }

  /** Cipher(in, w) of section 5.1 (Figure 5) with nr rounds. */
  function Encrypt(w: seq<Byte>, nr: nat, block: seq<Byte>): (r: seq<Byte>)
    requires 1 <= nr && 16 * (nr + 1) <= |w| && |block| == 16
    ensures |r| == 16
  {
    FinalRound(CipherRounds(XorBytes(block, RoundKey(w, 0)), w, nr - 1), RoundKey(w, nr))
  }

  /** InvCipher(in, w) of section 5.3 (Figure 12) with nr rounds. */
  function Decrypt(w: seq<Byte>, nr: nat, block: seq<Byte>): (r: seq<Byte>)
    requires 1 <= nr && 16 * (nr + 1) <= |w| && |block| == 16
    ensures |r| == 16
  {
    InvFinalRound(InvCipherRounds(XorBytes(block, RoundKey(w, nr)), w, nr - 1), RoundKey(w, 0))
  }

  /** An inverse round with the round key of a cipher round undoes that round
      and the SubBytes and ShiftRows of the next one, which the inverse cipher
      applies at the head of its own rounds. */
  lemma InvRoundUndoesRound(s: seq<Byte>, k: seq<Byte>)
    requires |s| == 16 && |k| == 16
    ensures InvRound(ShiftRows(SubBytes(Round(s, k))), k) == ShiftRows(SubBytes(s))
  {
    var t := Round(s, k);
    hide *;
    ShiftRowsInverse(SubBytes(t));
    SubBytesInverse(t);
    assert t == XorBytes(MixColumns(ShiftRows(SubBytes(s))), k);
    XorBytesInvolution(MixColumns(ShiftRows(SubBytes(s))), k);
    MixColumnsInverse(ShiftRows(SubBytes(s)));
  }

  /** The inverse rounds n .. 1 undo the cipher rounds 1 .. n. */
  lemma {:induction false} InvCipherRoundsUndo(s: seq<Byte>, w: seq<Byte>, n: nat)
    requires |s| == 16 && 16 * (n + 1) <= |w|
    ensures InvCipherRounds(ShiftRows(SubBytes(CipherRounds(s, w, n))), w, n) == ShiftRows(SubBytes(s))
    decreases n
  {
    hide Round, InvRound, ShiftRows, SubBytes;
    if n > 0 {
      var prev := CipherRounds(s, w, n - 1);
      InvRoundUndoesRound(prev, RoundKey(w, n));
      InvCipherRoundsUndo(s, w, n - 1);
    }
  }

  /** The inverse cipher undoes the cipher under the same key schedule. */
  lemma DecryptEncrypt(w: seq<Byte>, nr: nat, block: seq<Byte>)
    requires 1 <= nr && 16 * (nr + 1) <= |w| && |block| == 16
    ensures Decrypt(w, nr, Encrypt(w, nr, block)) == block
  {
    hide Round, InvRound, ShiftRows, InvShiftRows, SubBytes, InvSubBytes, XorBytes, CipherRounds, InvCipherRounds;
    var s0 := XorBytes(block, RoundKey(w, 0));
    var s := CipherRounds(s0, w, nr - 1);
    var c := Encrypt(w, nr, block);
    assert c == XorBytes(ShiftRows(SubBytes(s)), RoundKey(w, nr));
    XorBytesInvolution(ShiftRows(SubBytes(s)), RoundKey(w, nr));
    InvCipherRoundsUndo(s0, w, nr - 1);
    ShiftRowsInverse(SubBytes(s0));
    SubBytesInverse(s0);
    XorBytesInvolution(block, RoundKey(w, 0));
  }

  // ---------------------------------------------------------------------------
  // Key expansion, section 5.2
  // ---------------------------------------------------------------------------

  /** The number of rounds Nr for a key of keyBytes bytes: 10, 12 or 14 for
      the 16-, 24- and 32-byte keys of section 5 (Figure 4). */
  function NumRounds(keyBytes: nat): nat
  {
    keyBytes / 4 + 6
  }

  /** RotWord: [a0, a1, a2, a3] becomes [a1, a2, a3, a0]. */
  function RotWord(w: seq<Byte>): (r: seq<Byte>)
    requires |w| == 4
    ensures |r| == 4
  {
    [w[1], w[2], w[3], w[0]]
  }

  /** SubWord: the S-box applied to each of the four bytes of a word. */
  function SubWord(w: seq<Byte>): (r: seq<Byte>)
    requires |w| == 4
    ensures |r| == 4
  {
    [SBox(w[0]), SBox(w[1]), SBox(w[2]), SBox(w[3])]
  }

  /** The first byte x^(j-1) of the round constant word Rcon[j]; the other
      three bytes of Rcon[j] are zero. */
  function RconByte(j: nat): Byte
    requires 1 <= j
  {
    if j == 1 then 1 else XTime(RconByte(j - 1))
  }

  /** Word i (nk <= i) of the key schedule from the word nk places back and
      the word just before it, temp: back XOR temp, where temp is first
      transformed by RotWord, SubWord and Rcon at the start of every group of
      nk words, and by SubWord alone four words later when nk > 6 (Figure 11). */
  function ScheduleWord(back: seq<Byte>, temp: seq<Byte>, nk: nat, i: nat): (r: seq<Byte>)
    requires |back| == 4 && |temp| == 4 && 1 <= nk <= i
    ensures |r| == 4
  {
    var t :=
      if i % nk == 0 then
        DivAtLeastOne(i, nk);
        XorBytes(SubWord(RotWord(temp)), [RconByte(i / nk), 0, 0, 0])
      else if nk > 6 && i % nk == 4 then SubWord(temp)
      else temp;
    XorBytes(back, t)
  }

  /** Word i of the key schedule, given the words 0 .. i - 1 in w. */
  function KeyWord(w: seq<Byte>, nk: nat, i: nat): (r: seq<Byte>)
    requires 1 <= nk <= i && |w| == 4 * i
    ensures |r| == 4
  {
    ScheduleWord(w[4 * (i - nk) .. 4 * (i - nk) + 4], w[4 * i - 4 .. 4 * i], nk, i)
  }

  lemma DivAtLeastOne(i: nat, nk: nat)
    requires 1 <= nk <= i
    ensures 1 <= i / nk
  {
  }

  /** The first n words of the key schedule of a key of nk words. */
  function ExpandedKey(key: seq<Byte>, nk: nat, n: nat): (w: seq<Byte>)
    requires 1 <= nk <= n && |key| == 4 * nk
    ensures |w| == 4 * n
    decreases n
  {
    if n == nk then key
    else
      var prev := ExpandedKey(key, nk, n - 1);
      prev + KeyWord(prev, nk, n - 1)
  }

  /** KeyExpansion: the Nb * (Nr + 1) words of the schedule of a 16-, 24- or
      32-byte key. */
  function KeyExpansion(key: seq<Byte>): (w: seq<Byte>)
    requires |key| == 16 || |key| == 24 || |key| == 32
    ensures |w| == 16 * (NumRounds(|key|) + 1)
  {
    ExpandedKey(key, |key| / 4, 4 * (NumRounds(|key|) + 1))
  }

  /** The round constants of section 5.2 for the rounds of AES-128. */
  lemma RconValues()
    ensures [RconByte(1), RconByte(2), RconByte(3), RconByte(4), RconByte(5),
             RconByte(6), RconByte(7), RconByte(8), RconByte(9), RconByte(10)]
         == [0x01, 0x02, 0x04, 0x08, 0x10, 0x20, 0x40, 0x80, 0x1b, 0x36]
  {
  }

  /** A longer schedule extends a shorter one: the words already computed
      never change. */
  lemma {:induction false} ExpandedKeyPrefix(key: seq<Byte>, nk: nat, m: nat, n: nat)
    requires 1 <= nk <= m <= n && |key| == 4 * nk
    ensures ExpandedKey(key, nk, n)[..4 * m] == ExpandedKey(key, nk, m)
    decreases n
  {
    hide KeyWord;
    if m < n {
      ExpandedKeyPrefix(key, nk, m, n - 1);
      var prev := ExpandedKey(key, nk, n - 1);
      assert ExpandedKey(key, nk, n)[..4 * m] == prev[..4 * m];
    }
  }

  /** The schedule starts with the key, and every later word satisfies the
      recurrence of section 5.2 over the words before it. */
  lemma ExpandedKeyWords(key: seq<Byte>, nk: nat, n: nat, i: nat)
    requires 1 <= nk <= n && |key| == 4 * nk && i < n
    ensures ExpandedKey(key, nk, n)[..4 * nk] == key
    ensures nk <= i ==>
      ExpandedKey(key, nk, n)[4 * i .. 4 * i + 4] == KeyWord(ExpandedKey(key, nk, n)[..4 * i], nk, i)
  {
    hide KeyWord;
    ExpandedKeyPrefix(key, nk, nk, n);
    if nk <= i {
      ExpandedKeyPrefix(key, nk, i + 1, n);
      ExpandedKeyPrefix(key, nk, i, n);
      var w := ExpandedKey(key, nk, n);
      assert w[4 * i .. 4 * i + 4] == w[..4 * (i + 1)][4 * i ..];
    }
  }
}
