# vlmcsd support libraries in Dafny

This project models three small libraries of vlmcsd, a KMS emulator, as
their test files pin them down:

- **AES-128 and XorBlock** (`src/test_crypto.c`). The crypto library keeps an
  AES context `AesCtx` that holds a key schedule `Key` and a round count
  `rounds`. `AesInitKey` fills the context, and `AesEncryptBlock` and
  `AesDecryptBlock` transform a 16-byte block in place. `XorBlock` XORs one
  block into another. The model has three layers:
  - module `Aes`: the cipher of FIPS 197 as pure functions. It covers
    GF(2^8) arithmetic, the S-box and its inverse, ShiftRows and
    MixColumns and their inverses, the rounds, the cipher, the inverse
    cipher and the key expansion of section 5.2.
  - module `AesContext`: the context as a class whose methods work on
    arrays in place, each proved against those functions.
  - module `AesVectors`: the FIPS 197 Appendix B example worked through
    round key by round key and round by round.
- **Byte order** (`src/test_endian.c`). This covers:
  - the byte swaps `BS16`, `BS32` and `BS64` on 16-, 32- and 64-bit
    bit-vectors;
  - the host-order conversions `LEn`/`BEn`, with the host's byte order as
    a parameter;
  - the unaligned stores and loads `PUT_UAnLE/BE` and `GET_UAnLE/BE`, as
    methods on a byte array (module `Endian`).
- **Argument helpers** (`src/test_helpers.c`). These are `stringToInt`,
  `hex2bin`, `getArgumentBool`, `parseAddress` and
  `timeSpanString2Seconds` (module `Helpers`):
  - the first three return success and write through an out-parameter or
    into a buffer;
  - `parseAddress` cuts its argument in place with NUL characters and
    returns where the host and the port start.

  Each of them has a pure specification function on `seq<char>`. It is
  proved against its inverse or simpler second reading: decoding a
  numeral, `HexEncode`, splitting `host + ":" + port`, and so on.

Module `Types` holds the byte type (`bv8`) and `Option`.

The implementation files `crypto.c`/`crypto.h`, `endian.h` and
`helpers.c`/`helpers.h` are not part of this model. The behaviour modelled
is what the three test files assert. Where they leave a choice open, the
model takes the reading named under "## Left out".

## Model

| member | source | states |
|---|---|---|
| AesContext.XorBlock | src/test_crypto.c:20-23 | every byte of the destination block becomes its old value XOR the byte of the source at the same place |
| Aes.XorBytesComplement | src/test_crypto.c:12-23 | XOR of a block with its bytewise complement is sixteen 0xFF bytes |
| Aes.XorBytesSelf | src/test_crypto.c:25-29 | XOR of a block with a copy of itself is all zero bytes |
| Aes.XorBytesInvolution | src/test_crypto.c:25-29 | XORing the same source in twice gives back the destination |
| AesContext.XorBlockChecks | src/test_crypto.c:11-29 | the two XorBlock checks on the test blocks give sixteen 0xFF bytes and sixteen zero bytes |
| AesContext.AesCtx.InitKey | src/test_crypto.c:38-44 | rounds becomes 10, 12 or 14 for a 16-, 24- or 32-byte key; the schedule buffer stays in place; with selector 0 the schedule is the FIPS 197 key expansion of the key |
| AesContext.ExpandKeyInto | src/test_crypto.c:38-40 | the buffer is filled with the first n words of the FIPS 197 key expansion |
| AesContext.InitKeyRounds | src/test_crypto.c:37-44 | a 16-byte key gives 10 rounds for selector 0 and for selector 1 |
| AesContext.AesCtx.AddRoundKey | src/test_crypto.c:61 | the block is XORed with round key r of the schedule |
| AesContext.SubBytesInPlace | src/test_crypto.c:61 | each byte of the block is replaced by its S-box value |
| AesContext.InvSubBytesInPlace | src/test_crypto.c:68 | each byte of the block is replaced by its inverse S-box value |
| AesContext.AesCtx.EncryptBlock | src/test_crypto.c:60-61 | the block becomes the FIPS 197 cipher of its old contents under the context's schedule and round count |
| AesContext.AesCtx.DecryptBlock | src/test_crypto.c:67-68 | the block becomes the FIPS 197 inverse cipher of its old contents under the context's schedule and round count |
| Aes.Encrypt | src/test_crypto.c:60-61 | Cipher of section 5.1 of FIPS 197 with nr rounds; its result is a 16-byte block, and DecryptEncrypt and FipsEncrypt fix its meaning |
| Aes.Decrypt | src/test_crypto.c:67-68 | InvCipher of section 5.3 of FIPS 197 with nr rounds; its result is a 16-byte block, and DecryptEncrypt fixes it as the inverse of Encrypt |
| Aes.DecryptEncrypt | src/test_crypto.c:57-71 | for every schedule, round count and block, decrypting the encryption gives the block back |
| Aes.InvCipherRoundsUndo | src/test_crypto.c:57-71 | the inverse middle rounds undo the middle rounds, taken in reverse order |
| Aes.InvRoundUndoesRound | src/test_crypto.c:57-71 | one inverse round undoes one round |
| Aes.SBoxInverse | src/test_crypto.c:57-71 | the inverse S-box undoes the S-box and vice versa |
| Aes.SubBytesInverse | src/test_crypto.c:57-71 | InvSubBytes undoes SubBytes on every 16-byte state |
| Aes.InvSubBytesInverse | src/test_crypto.c:57-71 | SubBytes undoes InvSubBytes on every 16-byte state |
| Aes.ShiftRowsInverse | src/test_crypto.c:57-71 | InvShiftRows and ShiftRows undo each other |
| Aes.MixByteInverse | src/test_crypto.c:57-71 | the inverse column mix undoes the column mix one output byte at a time |
| Aes.MixColumnsInverse | src/test_crypto.c:57-71 | InvMixColumns undoes MixColumns |
| Aes.TimesAgreeWithMul | src/test_crypto.c:61 | the xtime-based multiplications by 2, 3, 9, 11, 13 and 14 agree with GF(2^8) multiplication |
| Aes.KeyExpansion | src/test_crypto.c:38-40 | KeyExpansion of section 5.2 of FIPS 197: 16 * (Nr + 1) bytes for a 16-, 24- or 32-byte key, with the words ExpandedKeyWords states |
| Aes.ExpandedKeyPrefix | src/test_crypto.c:38-40 | a longer key expansion extends a shorter one |
| Aes.ExpandedKeyWords | src/test_crypto.c:38-40 | the key expansion starts with the key and obeys the recurrence of section 5.2 of FIPS 197 |
| Aes.RconValues | src/test_crypto.c:38-40 | the round constants are 01, 02, 04, 08, 10, 20, 40, 80, 1b, 36 |
| AesContext.EncryptDecryptRoundTrip | src/test_crypto.c:47-71 | decrypting the in-place encryption of any block gives it back; for the test key and block the ciphertext compares unequal to the plaintext under memcmp |
| AesContext.MemCmp | src/test_crypto.c:64 | the result is -1, 0 or 1, and it is 0 exactly when the first n bytes agree |
| AesVectors.FipsKeySchedule | src/test_crypto.c:77-85 | the round keys of key 2b7e1516…4f3c are those of FIPS 197 Appendix A.1 |
| AesVectors.FipsCipherRounds | src/test_crypto.c:77-87 | the states after each round are those of FIPS 197 Appendix B |
| AesVectors.FipsEncrypt | src/test_crypto.c:77-89 | the key encrypts plaintext 3243f6a8…0734 to 3925841d…0b32 in 10 rounds |
| AesVectors.FipsDecrypt | src/test_crypto.c:57-71 | that ciphertext differs from the plaintext and decrypts back to it |
| AesContext.EncryptKnownVector | src/test_crypto.c:74-89 | the in-place encryption after AesInitKey with selector 0 gives the expected ciphertext |
| AesContext.BuiltinKeysDiffer | src/test_crypto.c:92-98 | two distinct 16-byte keys compare unequal under memcmp and differ in some byte |
| Endian.ByteSwapExamples | src/test_endian.c:11-28 | BS16(0x1234) is 0x3412, BS32(0x12345678) is 0x78563412, BS64(0x123456789ABCDEF0) is 0xF0DEBC9A78563412 |
| Endian.BS16 | src/test_endian.c:11-16 | the 16-bit byte swap: for every x, the little-endian bytes of the result are the big-endian bytes of x |
| Endian.BS32 | src/test_endian.c:18-22 | the 32-bit byte swap: for every x, the little-endian bytes of the result are the big-endian bytes of x |
| Endian.BS64 | src/test_endian.c:24-28 | the 64-bit byte swap: for every x, the little-endian bytes of the result are the big-endian bytes of x |
| Endian.BS16Involution | src/test_endian.c:13-16 | swapping twice is the identity |
| Endian.BS32Involution | src/test_endian.c:19-22 | swapping twice is the identity |
| Endian.BS64Involution | src/test_endian.c:25-28 | swapping twice is the identity |
| Endian.Be16Reversed | src/test_endian.c:13-16 | the big-endian bytes are the little-endian bytes reversed |
| Endian.Be32Reversed | src/test_endian.c:19-22 | the big-endian bytes are the little-endian bytes reversed |
| Endian.Be64Reversed | src/test_endian.c:25-28 | the big-endian bytes are the little-endian bytes reversed |
| Endian.LE16 | src/test_endian.c:38-40 | host to little-endian conversion: on either host order, the host keeps the result in memory as the little-endian bytes of x |
| Endian.LE32 | src/test_endian.c:43-45 | the same for 32 bits |
| Endian.LE64 | src/test_endian.c:48-50 | the same for 64 bits |
| Endian.BE16 | src/test_endian.c:39-41 | host to big-endian conversion: on either host order, the host keeps the result in memory as the big-endian bytes of x |
| Endian.BE32 | src/test_endian.c:44-46 | the same for 32 bits |
| Endian.BE64 | src/test_endian.c:49-51 | the same for 64 bits |
| Endian.ConversionInvolutions | src/test_endian.c:31-51 | on either host order LEn(LEn(x)) == x and BEn(BEn(x)) == x for n = 16, 32, 64 |
| Endian.ConversionConsistency | src/test_endian.c:92-111 | either LE32 is the identity and BE32 is BS32, or BE32 is the identity and LE32 is BS32; each branch of the test holds |
| Endian.HostOrderDetected | src/test_endian.c:99-104 | LE32(0x12345678) == 0x12345678 exactly on a little-endian host |
| Endian.PutUa16Le | src/test_endian.c:64 | the two bytes at the offset become the little-endian bytes of v, the rest of the buffer is unchanged |
| Endian.GetUa16Le | src/test_endian.c:65 | the result is the value whose little-endian bytes are the two bytes at the offset |
| Endian.PutUa32Le | src/test_endian.c:68 | the four bytes at the offset become the little-endian bytes of v, the rest is unchanged |
| Endian.GetUa32Le | src/test_endian.c:69 | the result is the value whose little-endian bytes are the four bytes at the offset |
| Endian.PutUa64Le | src/test_endian.c:72 | the eight bytes at the offset become the little-endian bytes of v, the rest is unchanged |
| Endian.GetUa64Le | src/test_endian.c:73 | the result is the value whose little-endian bytes are the eight bytes at the offset |
| Endian.PutUa16Be | src/test_endian.c:79 | the two bytes at the offset become the big-endian bytes of v, the rest is unchanged |
| Endian.GetUa16Be | src/test_endian.c:80 | the result is the value whose big-endian bytes are the two bytes at the offset |
| Endian.PutUa32Be | src/test_endian.c:83 | the four bytes at the offset become the big-endian bytes of v, the rest is unchanged |
| Endian.GetUa32Be | src/test_endian.c:84 | the result is the value whose big-endian bytes are the four bytes at the offset |
| Endian.PutUa64Be | src/test_endian.c:87 | the eight bytes at the offset become the big-endian bytes of v, the rest is unchanged |
| Endian.GetUa64Be | src/test_endian.c:88 | the result is the value whose big-endian bytes are the eight bytes at the offset |
| Endian.Le16RoundTrip | src/test_endian.c:64-66 | decoding the little-endian bytes of v gives v, and encoding the decoding of two bytes gives them back |
| Endian.Le32RoundTrip | src/test_endian.c:68-70 | the same for 32 bits |
| Endian.Le64RoundTrip | src/test_endian.c:72-74 | the same for 64 bits |
| Endian.Be16RoundTrip | src/test_endian.c:79-81 | the same for big-endian 16 bits |
| Endian.Be32RoundTrip | src/test_endian.c:83-85 | the same for big-endian 32 bits |
| Endian.Be64RoundTrip | src/test_endian.c:87-89 | the same for big-endian 64 bits |
| Endian.StoreLoad16 | src/test_endian.c:64-66 | two 16-bit values with the same bytes in either order are equal, so a load after a store returns the stored value |
| Endian.StoreLoad32 | src/test_endian.c:68-70 | the same for 32 bits |
| Endian.StoreLoad64 | src/test_endian.c:72-74 | the same for 64 bits |
| Endian.PutGet16Le | src/test_endian.c:63-66 | at any offset, a 16-bit little-endian load after a store returns the stored value, and the buffer holds its bytes there |
| Endian.PutGet32Le | src/test_endian.c:67-70 | the same for 32 bits |
| Endian.PutGet64Le | src/test_endian.c:71-74 | the same for 64 bits |
| Endian.PutGet16Be | src/test_endian.c:78-81 | the same for 16 bits in big-endian order |
| Endian.PutGet32Be | src/test_endian.c:82-85 | the same for 32 bits in big-endian order |
| Endian.PutGet64Be | src/test_endian.c:86-89 | the same for 64 bits in big-endian order |
| Endian.UnalignedLeChecks | src/test_endian.c:54-74 | the little-endian store-then-load sequence of the test on a zeroed 16-byte buffer returns 0x1234, 0x12345678 and 0x123456789ABCDEF0 |
| Endian.UnalignedBeChecks | src/test_endian.c:76-89 | the big-endian sequence of the test returns the same three values |
| Helpers.DecimalValue | src/test_helpers.c:15-17 | reading the decimal numeral of n gives n |
| Helpers.SignedDecimal | src/test_helpers.c:11-43 | the value of the whole string as an optionally signed decimal; an accepted string has digits after its first character and ends in a digit, and a negative value comes only from a leading '-' |
| Helpers.StringToInt | src/test_helpers.c:11-43 | success exactly when the string is a decimal number in [min, max]; then the value is that number, otherwise the previous value is kept |
| Helpers.SignedDecimalOfNumeral | src/test_helpers.c:15-35 | a numeral, with no sign, a '-' or a '+', reads as n, -n or n |
| Helpers.StringToIntAccepted | src/test_helpers.c:15-27 | "123", "0" and "100" read as 123, 0 and 100, inside the test bounds |
| Helpers.StringToIntRejected | src/test_helpers.c:29-43 | "-1" and "101" read as -1 and 101, outside [0, 100]; "abc" is no number; "" reads as 0, below a minimum of 1 |
| Helpers.LowerOfUpper | src/test_helpers.c:96-101 | upper-casing a string does not change its lower-case form |
| Helpers.EqualIgnoringCase | src/test_helpers.c:96-101 | true exactly when the two strings are equal after lower-casing |
| Helpers.BoolLiteral | src/test_helpers.c:66-108 | the truth value a word names in any case; only words of one to five characters are recognised |
| Helpers.GetArgumentBool | src/test_helpers.c:66-108 | success exactly on the eight words 1, yes, true, on, 0, no, false, off in any case; then the result is the truth value of the word, otherwise the previous value is kept |
| Helpers.BoolLiteralExamples | src/test_helpers.c:70-108 | the eight words, TRUE and FALSE are accepted, and "maybe" and "" are rejected |
| Helpers.BoolLiteralIgnoresCase | src/test_helpers.c:96-101 | a word and its upper-case form are read the same |
| Helpers.HexDecode | src/test_helpers.c:46-63 | the bytes an even number of hex digits spell, one byte per digit pair, high nibble first; HexRoundTrip and HexDecodeAppend fix its meaning |
| Helpers.Hex2Bin | src/test_helpers.c:46-63 | the first n bytes of the buffer become the bytes that the first 2n hex digits spell, and the rest of the buffer is unchanged |
| Helpers.HexRoundTrip | src/test_helpers.c:50-63 | decoding the hex encoding of any bytes gives them back |
| Helpers.IsHexConcat | src/test_helpers.c:50 | two hex strings joined are a hex string |
| Helpers.HexDecodeAppend | src/test_helpers.c:50 | one more digit pair decodes to one more byte at the end |
| Helpers.LowerHex | src/test_helpers.c:53-55 | lower-casing hex digits keeps them hex digits of the same value |
| Helpers.HexDecodeIgnoresCase | src/test_helpers.c:53-55 | hex digits decode the same in lower and upper case |
| Helpers.HexDecodeHe | src/test_helpers.c:50-51 | "4865" decodes to He |
| Helpers.HexDecodeHell | src/test_helpers.c:50-51 | "48656C6C" decodes to Hell |
| Helpers.HexDecodeHello | src/test_helpers.c:49-51 | "48656C6C6F" decodes to Hello |
| Helpers.HexDecodeHelloLowerCase | src/test_helpers.c:53-55 | "48656c6c6f" decodes to the same bytes |
| Helpers.HexDecodeSingleBytes | src/test_helpers.c:57-63 | "FF" decodes to 255 and "00" to 0 |
| Helpers.IndexOf | src/test_helpers.c:117 | the result is the first place of the character, or None when the character is absent |
| Helpers.LastIndexOf | src/test_helpers.c:117 | the result is the last place of the character, or None when the character is absent |
| Helpers.IndexOfAfter | src/test_helpers.c:116-125 | with no c in a, the first c of a + [c] + rest is at the end of a |
| Helpers.LastIndexOfBefore | src/test_helpers.c:116-125 | with no c in rest, the last c of a + [c] + rest is at the end of a |
| Helpers.IndexOfIs | src/test_helpers.c:116-137 | a place of c with no c before it is the first place of c; no c at all gives None |
| Helpers.LastIndexOfIs | src/test_helpers.c:116-137 | a place of c with no c after it is the last place of c; no c at all gives None |
| Helpers.IndexOfAtMost | src/test_helpers.c:116-137 | a c at place i puts the first c at i or before |
| Helpers.LastIndexOfAtLeast | src/test_helpers.c:116-137 | a c at place j puts the last c at j or after |
| Helpers.SplitAddress | src/test_helpers.c:111-137 | the host and optional port parseAddress finds; the host is a prefix of the string or of what follows its '[', and a port is a suffix of the string shorter by the separators |
| Helpers.SplitHostPort | src/test_helpers.c:115-125 | host:port with no ':' in host or port splits back into that host and port |
| Helpers.SplitHostOnly | src/test_helpers.c:127-131 | a string with no ':' is a host alone, with the default port |
| Helpers.SplitBracketedHostPort | src/test_helpers.c:133-137 | [host]:port with no ']' in the port splits back into that host and port |
| Helpers.SplitBracketedHost | src/test_helpers.c:133-137 | [host] with nothing after the ']' is that host with the default port |
| Helpers.SplitBareIPv6 | src/test_helpers.c:133-137 | an unbracketed string with two ':' is a host alone with the default port |
| Helpers.SplitAddressHostPortExamples | src/test_helpers.c:115-125 | "192.168.1.1:1688" and "localhost:8080" split into the test's host and port |
| Helpers.SplitAddressOtherExamples | src/test_helpers.c:127-137 | "example.com" is a host with the default port, and "[::1]:1688" splits into "::1" and "1688" |
| Helpers.CString | src/test_helpers.c:116-118 | the C string at a place holds no NUL, stands in the buffer from that place, and is followed by a NUL |
| Helpers.CStringUpTo | src/test_helpers.c:116-118 | with the first NUL after a place at e, the C string there is the characters up to e |
| Helpers.CutBefore | src/test_helpers.c:116-118 | a NUL written inside a C string ends, at that NUL, the C string at any earlier place |
| Helpers.CutAfter | src/test_helpers.c:116-119 | a NUL written inside a C string leaves the C string after it unchanged |
| Helpers.StrLen | src/test_helpers.c:116-117 | the result is the place of the first NUL, and the characters before it are the C string |
| Helpers.FindFirst | src/test_helpers.c:117 | the result is the first place of the character among the first n, or None |
| Helpers.FindLast | src/test_helpers.c:117 | the result is the last place of the character among the first n, or None |
| Helpers.CutBracketed | src/test_helpers.c:133-137 | writing a NUL at the last ']' of a bracketed address leaves the host after the '[' and the port after the ':' that follows the ']', and changes nothing else |
| Helpers.CutColon | src/test_helpers.c:115-125 | writing a NUL at the single ':' of an address leaves host and port on either side of it, and changes nothing else |
| Helpers.CutNothing | src/test_helpers.c:127-131 | any other address is a host alone, left as it is, with the default port |
| Helpers.ParseAddress | src/test_helpers.c:111-137 | the new buffer is the old one with a NUL where the host now ends; the C string at the host place is the host of the split of the old string; the port is the default exactly when the split has none, and otherwise the C string at the port place is the split's port |
| Helpers.TimeSpanSeconds | src/test_helpers.c:140-163 | the seconds a time span names; an accepted span starts with a digit and is digits up to its last character; a span ending in a digit is a whole number of minutes, and one ending in a unit letter is a whole number of that unit |
| Helpers.TimeSpanOfNumeral | src/test_helpers.c:140-163 | a numeral followed by s, m, h, d or w counts 1, 60, 3600, 86400 or 604800 seconds per unit, and a bare numeral counts minutes |
| Helpers.DigitPrefixOfDigits | src/test_helpers.c:140-163 | the leading digits of digits followed by a non-digit are exactly those digits |
| Helpers.TimeSpanShortExamples | src/test_helpers.c:141-151 | "30s" is 30, "5m" is 300 and "2h" is 7200 seconds |
| Helpers.TimeSpanLongExamples | src/test_helpers.c:153-163 | "1d" is 86400, "1w" is 604800 and "60" is 3600 seconds |

## Left out

- `crypto.c` and `crypto.h`, `endian.h`, and `helpers.c` and `helpers.h`
  are not part of this model. Every behaviour the test files do not fix has
  been chosen as the lines below say.
- The test framework (`test_framework.h`, `test_framework.c`) and the runner
  (`test_runner.c`) are not modelled: they count passes and failures and
  print them.
- AesContext.AesCtx.InitKey: for selector 1 the contract states only the
  round count. How the V6 variant changes the schedule is not visible, so
  it is left open and nothing states that it is FIPS 197.
- AesContext.AesCtx.InitKey: a key length outside 16, 24 and 32 is excluded
  by the precondition. The tests never pass one.
- AES-192 and AES-256 follow the same functions but have no known-answer
  lemma.
- AesContext.BuiltinKeysDiffer: the byte values of `AesKeyV5` and
  `AesKeyV6` are not visible. The keys are parameters, and that they are
  distinct is a precondition.
- AesContext.AesCtx.EncryptBlock and AesContext.AesCtx.DecryptBlock:
  - ShiftRows and MixColumns, and their inverses, are computed on a copy
    of the block and stored back (`StoreBlock`), not shuffled in place;
  - the block must not be the schedule buffer, so aliasing between the two
    is not modelled.
- Table-lookup timing and every other side channel are out of scope. So
  is any chaining mode built on XorBlock.
- Endian: the host byte order is a parameter (`HostOrder`), not the machine
  the code would run on. The unaligned-access mechanics behind
  `PUT_UA*`/`GET_UA*` are reduced to byte stores and loads into an array.
- Helpers.StringToInt:
  - integers are unbounded, so the overflow of the C parse is not
    modelled;
  - leading white space is not accepted;
  - the empty string reads as 0, so that it is rejected only when 0 is
    below the minimum, as the test's comment says it may be.
- Helpers.SignedDecimal: a leading '+' and leading zeros are accepted. No test fixes either choice.
- Helpers.StringToInt: on failure the value keeps its previous contents. The tests never look at the value after a failure.
- Helpers.GetArgumentBool: on failure the result keeps its previous contents. The tests never look at it after a failure.
- Helpers.EqualIgnoringCase: only the letters A to Z are folded to lower case; the tests use no other letters.
- Helpers.GetArgumentBool: the tests check acceptance only. The truth
  value (true for 1/yes/true/on, false for 0/no/false/off) is the natural
  reading, not a pinned behaviour. Matching is on the whole word, without
  prefixes.
- Helpers.Hex2Bin: the precondition requires hex digits. What hex2bin does
  with other characters is not modelled.
- Helpers.ParseAddress:
  - the default port is an abstract `DefaultPort`, because its text is not
    visible;
  - the split rules beyond the four test cases are inferred: the last ']'
    closes a bracketed host, and a string with more than one ':' outside
    brackets is a host alone.
- Helpers.TimeSpanSeconds: the C function returns a plain DWORD, so how it reports a malformed span is not visible. The model returns None, and it treats as malformed any input other than one or more digits followed by at most one unit letter.
- Helpers.TimeSpanSeconds: the result is an unbounded `nat`, so the
  overflow of the DWORD result is not modelled. Only the lower-case unit
  letters s, m, h, d and w are recognised.
