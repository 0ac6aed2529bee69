/**
  The command-line argument helpers: stringToInt (a bounded decimal parse),
  hex2bin (decoding of hex digit pairs into a byte buffer), getArgumentBool
  (a boolean-literal recogniser), parseAddress (the split of host:port, with
  a bracketed IPv6 host and a default port) and timeSpanString2Seconds (a
  duration with a unit suffix).

  Strings are sequences of characters; a C string held in a buffer is a
  character array with a NUL after its last character.
*/
module Helpers {

  import opened Types

  // ---------------------------------------------------------------------------
  // Characters and decimal numbers
  // ---------------------------------------------------------------------------

  predicate IsDigit(c: char)
  {
    '0' <= c <= '9'
  }

  function DigitValue(c: char): nat
    requires IsDigit(c)
  {
    (c as int) - ('0' as int)
  }

  function DigitChar(d: nat): (c: char)
    requires d < 10
    ensures IsDigit(c) && DigitValue(c) == d
  {
    (('0' as int) + d) as char
  }

  predicate AllDigits(s: seq<char>)
  {
    forall i :: 0 <= i < |s| ==> IsDigit(s[i])
  }

  /** The number the decimal digits s spell, most significant first. */
  function DigitsValue(s: seq<char>): nat
    requires AllDigits(s)
    decreases |s|
  {
    if s == [] then 0 else 10 * DigitsValue(s[..|s| - 1]) + DigitValue(s[|s| - 1])
  }

  /** The shortest decimal numeral of n. */
  function Decimal(n: nat): (s: seq<char>)
    ensures |s| > 0 && AllDigits(s)
    decreases n
  {
    if n < 10 then [DigitChar(n)] else Decimal(n / 10) + [DigitChar(n % 10)]
  }

  /** Reading a numeral gives back the number it was written from. */
  lemma {:induction false} DecimalValue(n: nat)
    ensures DigitsValue(Decimal(n)) == n
    decreases n
  {
    if n >= 10 {
      var s := Decimal(n);
      DecimalValue(n / 10);
      assert s[..|s| - 1] == Decimal(n / 10);
    }
  }

  // ---------------------------------------------------------------------------
  // stringToInt
  // ---------------------------------------------------------------------------

  /** The value of s read as a signed decimal number that takes up the whole
      string: an optional sign followed by one or more digits. The empty
      string reads as 0, as a parse that converts nothing and stops at the end
      of the string does; a sign alone, or any other character, leaves text
      unread and gives None. */
  function SignedDecimal(s: seq<char>): (r: Option<int>)
    ensures r.Some? ==> forall i :: 1 <= i < |s| ==> IsDigit(s[i])
    ensures r.Some? && s != [] ==> IsDigit(s[|s| - 1])
    ensures r.Some? && r.value < 0 ==> s != [] && s[0] == '-'
  {
    if s == [] then Some(0)
    else if s[0] == '-' || s[0] == '+' then
      var digits := s[1..];
      if digits != [] && AllDigits(digits) then
        var v: int := DigitsValue(digits);
        Some(if s[0] == '-' then -v else v)
      else None
    else if AllDigits(s) then Some(DigitsValue(s))
    else None
  }

  /** stringToInt(s, min, max, &value): succeeds exactly when s is a decimal
      number in [min, max]; then value is that number, otherwise value keeps
      its previous contents. */
  method StringToInt(s: seq<char>, min: nat, max: nat, previous: nat) returns (success: bool, value: nat)
    ensures success <==> SignedDecimal(s).Some? && min <= SignedDecimal(s).value <= max
    ensures success ==> value == SignedDecimal(s).value
    ensures !success ==> value == previous
  {
    var i := 0;
    var negative := false;
    if |s| > 0 && (s[0] == '-' || s[0] == '+') {
      negative := s[0] == '-';
      i := 1;
    }
    var start := i;
    var acc: nat := 0;
    while i < |s| && IsDigit(s[i])
      invariant start <= i <= |s|
      invariant AllDigits(s[start..i])
      invariant acc == DigitsValue(s[start..i])
    {
      assert s[start..i + 1][..i - start] == s[start..i];
      acc := 10 * acc + DigitValue(s[i]);
      i := i + 1;
    }
    var v: int := if negative then -(acc as int) else acc;
    var read := s == [] || (i == |s| && start < i);
    if i < |s| {
      assert !AllDigits(s[start..]) by {
        assert s[start..][i - start] == s[i];
      }
    } else {
      assert s[start..] == s[start..i];
    }
    assert start == 1 ==> s[1..] == s[start..];
    assert start == 0 ==> s == s[start..];
    if read && min <= v <= max {
      success, value := true, acc;
    } else {
      success, value := false, previous;
    }
  }

  /** The accepted stringToInt checks: 123 in [0, 1000], 0 and 100 at the
      bounds of [0, 100]. */
  lemma StringToIntAccepted()
    ensures SignedDecimal("123") == Some(123)
    ensures SignedDecimal("0") == Some(0) && SignedDecimal("100") == Some(100)
  {
    hide SignedDecimal;
    SignedDecimalOfNumeral(123);
    assert Decimal(123) == "123";
    SignedDecimalOfNumeral(0);
    assert Decimal(0) == "0";
    SignedDecimalOfNumeral(100);
    assert Decimal(100) == "100";
  }

  /** The rejected stringToInt checks: -1 and 101 fall outside [0, 100], abc
      is no number, and the empty string reads as 0, below a minimum of 1. */
  lemma StringToIntRejected()
    ensures SignedDecimal("-1") == Some(-1) && SignedDecimal("101") == Some(101)
    ensures SignedDecimal("abc") == None
    ensures SignedDecimal("") == Some(0)
  {
    SignedDecimalOfNumeral(1);
    assert ['-'] + Decimal(1) == "-1";
    SignedDecimalOfNumeral(101);
    assert Decimal(101) == "101";
    assert !IsDigit("abc"[0]);
  }

  /** Every numeral, with or without a sign, reads back as its number. */
  lemma SignedDecimalOfNumeral(n: nat)
    ensures SignedDecimal(Decimal(n)) == Some(n)
    ensures SignedDecimal(['-'] + Decimal(n)) == Some(-(n as int))
    ensures SignedDecimal(['+'] + Decimal(n)) == Some(n)
  {
    DecimalValue(n);
    assert (['-'] + Decimal(n))[1..] == Decimal(n);
    assert (['+'] + Decimal(n))[1..] == Decimal(n);
    assert !IsDigit('-') && !IsDigit('+');
  }

  // ---------------------------------------------------------------------------
  // Case-insensitive comparison
  // ---------------------------------------------------------------------------

  /** ASCII lower case: A..Z become a..z, everything else stays. */
  function ToLower(c: char): char
  {
    if 'A' <= c <= 'Z' then ((c as int) + 32) as char else c
  }

  function ToUpper(c: char): char
  {
    if 'a' <= c <= 'z' then ((c as int) - 32) as char else c
  }

  function Lower(s: seq<char>): (r: seq<char>)
    ensures |r| == |s|
  {
    seq(|s|, i requires 0 <= i < |s| => ToLower(s[i]))
  }

  function Upper(s: seq<char>): (r: seq<char>)
    ensures |r| == |s|
  {
    seq(|s|, i requires 0 <= i < |s| => ToUpper(s[i]))
  }

  /** Changing the case of a string does not change its lower-case form. */
  lemma LowerOfUpper(s: seq<char>)
    ensures Lower(Upper(s)) == Lower(s)
  {
    forall i | 0 <= i < |s|
      ensures Lower(Upper(s))[i] == Lower(s)[i]
    {
      var c := s[i];
      assert ToLower(ToUpper(c)) == ToLower(c);
    }
  }

  /** A case-insensitive string comparison, character by character. */
  method EqualIgnoringCase(a: seq<char>, b: seq<char>) returns (equal: bool)
    ensures equal <==> Lower(a) == Lower(b)
  {
    if |a| != |b| {
      return false;
    }
    var i := 0;
    while i < |a|
      invariant 0 <= i <= |a|
      invariant forall j :: 0 <= j < i ==> ToLower(a[j]) == ToLower(b[j])
    {
      if ToLower(a[i]) != ToLower(b[i]) {
        assert Lower(a)[i] != Lower(b)[i];
        return false;
      }
      i := i + 1;
    }
    assert forall j :: 0 <= j < |a| ==> Lower(a)[j] == Lower(b)[j];
    return true;
  }

  // ---------------------------------------------------------------------------
  // getArgumentBool
  // ---------------------------------------------------------------------------

  /** The truth value a word names, in any mix of upper and lower case:
      1, yes, true and on for true, 0, no, false and off for false. */
  function BoolLiteral(s: seq<char>): (r: Option<bool>)
    ensures r.Some? ==> 1 <= |s| <= 5
  {
    var w := Lower(s);
    if w == "1" || w == "yes" || w == "true" || w == "on" then Some(true)
    else if w == "0" || w == "no" || w == "false" || w == "off" then Some(false)
    else None
  }

  /** getArgumentBool(&result, s): succeeds exactly on the eight words, and
      then stores the truth value the word names; otherwise result keeps its
      previous contents. */
  method GetArgumentBool(s: seq<char>, previous: bool) returns (success: bool, result: bool)
    ensures success <==> BoolLiteral(s).Some?
    ensures success ==> result == BoolLiteral(s).value
    ensures !success ==> result == previous
  {
    var words := ["1", "yes", "true", "on", "0", "no", "false", "off"];
    assert forall k :: 0 <= k < |words| ==> Lower(words[k]) == words[k];
    var k := 0;
    while k < |words|
      invariant 0 <= k <= |words|
      invariant forall j :: 0 <= j < k ==> Lower(s) != words[j]
    {
      var equal := EqualIgnoringCase(s, words[k]);
      if equal {
        return true, k < 4;
      }
      k := k + 1;
    }
    assert Lower(s) != words[0] && Lower(s) != words[1] && Lower(s) != words[2] && Lower(s) != words[3];
    assert Lower(s) != words[4] && Lower(s) != words[5] && Lower(s) != words[6] && Lower(s) != words[7];
    return false, previous;
  }

  /** The getArgumentBool checks: the eight words and TRUE and FALSE are
      accepted, maybe and the empty string are not. */
  lemma BoolLiteralExamples()
    ensures BoolLiteral("1") == Some(true) && BoolLiteral("yes") == Some(true)
    ensures BoolLiteral("true") == Some(true) && BoolLiteral("on") == Some(true)
    ensures BoolLiteral("0") == Some(false) && BoolLiteral("no") == Some(false)
    ensures BoolLiteral("false") == Some(false) && BoolLiteral("off") == Some(false)
    ensures BoolLiteral("TRUE") == Some(true) && BoolLiteral("FALSE") == Some(false)
    ensures BoolLiteral("maybe") == None && BoolLiteral("") == None
  {
    assert Lower("0") == "0" && Lower("no") == "no" && Lower("off") == "off";
    assert Lower("TRUE") == "true";
    assert Lower("FALSE") == "false";
    assert Lower("maybe") == "maybe";
  }

  /** The recogniser ignores case. */
  lemma BoolLiteralIgnoresCase(s: seq<char>)
    ensures BoolLiteral(Upper(s)) == BoolLiteral(s)
  {
    LowerOfUpper(s);
  }

  // ---------------------------------------------------------------------------
  // hex2bin
  // ---------------------------------------------------------------------------

  predicate IsHexDigit(c: char)
  {
    IsDigit(c) || 'a' <= c <= 'f' || 'A' <= c <= 'F'
  }

  function HexDigitValue(c: char): (v: nat)
    requires IsHexDigit(c)
    ensures v < 16
  {
    if IsDigit(c) then DigitValue(c)
    else if 'a' <= c <= 'f' then (c as int) - ('a' as int) + 10
    else (c as int) - ('A' as int) + 10
  }

  function HexDigitChar(v: nat): (c: char)
    requires v < 16
    ensures IsHexDigit(c) && HexDigitValue(c) == v
  {
    if v < 10 then DigitChar(v) else (('A' as int) + v - 10) as char
  }

  predicate IsHex(s: seq<char>)
  {
    forall i :: 0 <= i < |s| ==> IsHexDigit(s[i])
  }

  /** The byte two hex digits spell, the first one the high nibble. */
  function HexPair(hi: char, lo: char): Byte
    requires IsHexDigit(hi) && IsHexDigit(lo)
  {
    (16 * HexDigitValue(hi) + HexDigitValue(lo)) as Byte
  }

  /** The bytes an even number of hex digits spell, two digits per byte. */
  function HexDecode(s: seq<char>): (b: seq<Byte>)
    requires |s| % 2 == 0 && IsHex(s)
    ensures |b| == |s| / 2
    decreases |s|
  {
    if s == [] then [] else [HexPair(s[0], s[1])] + HexDecode(s[2..])
  }

  /** Two upper-case hex digits per byte. */
  function HexEncode(b: seq<Byte>): (s: seq<char>)
    ensures |s| == 2 * |b| && IsHex(s)
  {
    if b == [] then []
    else [HexDigitChar((b[0] as int) / 16), HexDigitChar((b[0] as int) % 16)] + HexEncode(b[1..])
  }

  /** Decoding what was encoded gives back the bytes. */
  lemma {:induction false} HexRoundTrip(b: seq<Byte>)
    ensures HexDecode(HexEncode(b)) == b
  {
    if b != [] {
      var s := HexEncode(b);
      HexRoundTrip(b[1..]);
      assert s[2..] == HexEncode(b[1..]);
      assert HexPair(s[0], s[1]) == b[0];
    }
  }

  /** Hex digits followed by hex digits are hex digits. */
  lemma IsHexConcat(a: seq<char>, b: seq<char>)
    requires IsHex(a) && IsHex(b)
    ensures IsHex(a + b)
  {
    forall i | 0 <= i < |a| + |b|
      ensures IsHexDigit((a + b)[i])
    {
      if i < |a| { assert (a + b)[i] == a[i]; } else { assert (a + b)[i] == b[i - |a|]; }
    }
  }

  /** Decoding one more pair appends one more byte. */
  lemma {:induction false} HexDecodeAppend(s: seq<char>, hi: char, lo: char)
    requires |s| % 2 == 0 && IsHex(s) && IsHexDigit(hi) && IsHexDigit(lo)
    ensures IsHex(s + [hi, lo])
    ensures HexDecode(s + [hi, lo]) == HexDecode(s) + [HexPair(hi, lo)]
    decreases |s|
  {
    IsHexConcat(s, [hi, lo]);
    if s != [] {
      var t := s + [hi, lo];
      assert t[0] == s[0] && t[1] == s[1] && t[2..] == s[2..] + [hi, lo];
      HexDecodeAppend(s[2..], hi, lo);
    }
  }

  /** Lower-casing hex digits keeps them hex digits of the same value. */
  lemma LowerHex(s: seq<char>)
    requires IsHex(s)
    ensures IsHex(Lower(s))
    ensures forall i :: 0 <= i < |s| ==> HexDigitValue(Lower(s)[i]) == HexDigitValue(s[i])
  {
    forall i | 0 <= i < |s|
      ensures IsHexDigit(Lower(s)[i]) && HexDigitValue(Lower(s)[i]) == HexDigitValue(s[i])
    {
      assert IsHexDigit(s[i]);
    }
  }

  /** Hex digits are read the same in either case. */
  lemma {:induction false} HexDecodeIgnoresCase(s: seq<char>)
    requires |s| % 2 == 0 && IsHex(s)
    ensures IsHex(Lower(s)) && HexDecode(Lower(s)) == HexDecode(s)
    decreases |s|
  {
    LowerHex(s);
    if s != [] {
      HexDecodeIgnoresCase(s[2..]);
      assert Lower(s)[2..] == Lower(s[2..]);
    }
  }

  /** hex2bin(buffer, hex, n): bytes 0 .. n - 1 of buffer become the bytes
      the first 2n hex digits spell, the rest of the buffer is unchanged. */
  method Hex2Bin(buffer: array<Byte>, hex: seq<char>, n: nat)
    requires n <= buffer.Length && 2 * n <= |hex| && IsHex(hex[..2 * n])
    modifies buffer
    ensures buffer[..n] == HexDecode(hex[..2 * n])
    ensures buffer[n..] == old(buffer[n..])
  {
    for i := 0 to n
      invariant IsHex(hex[..2 * i])
      invariant buffer[..i] == HexDecode(hex[..2 * i])
      invariant buffer[i..] == old(buffer[i..])
    {
      assert hex[..2 * i + 2] == hex[..2 * i] + [hex[2 * i], hex[2 * i + 1]];
      assert IsHexDigit(hex[..2 * n][2 * i]) && IsHexDigit(hex[..2 * n][2 * i + 1]);
      HexDecodeAppend(hex[..2 * i], hex[2 * i], hex[2 * i + 1]);
      buffer[i] := HexPair(hex[2 * i], hex[2 * i + 1]);
      assert buffer[..i + 1] == buffer[..i] + [buffer[i]];
    }
  }

  /** 4865 spells He. */
  lemma HexDecodeHe()
    ensures IsHex("4865") && HexDecode("4865") == ['H' as Byte, 'e' as Byte]
  {
    hide IsHex, HexDecode;
    HexDecodeAppend("", '4', '8');
    assert "" + ['4', '8'] == "48";
    HexDecodeAppend("48", '6', '5');
    assert "48" + ['6', '5'] == "4865";
  }

  /** 48656C6C spells Hell. */
  lemma HexDecodeHell()
    ensures IsHex("48656C6C") && HexDecode("48656C6C") == ['H' as Byte, 'e' as Byte, 'l' as Byte, 'l' as Byte]
  {
    hide IsHex, HexDecode;
    HexDecodeHe();
    HexDecodeAppend("4865", '6', 'C');
    assert "4865" + ['6', 'C'] == "48656C";
    HexDecodeAppend("48656C", '6', 'C');
    assert "48656C" + ['6', 'C'] == "48656C6C";
  }

  /** The first hex2bin check: 48656C6C6F spells Hello. */
  lemma HexDecodeHello()
    ensures IsHex("48656C6C6F") && HexDecode("48656C6C6F") == ['H' as Byte, 'e' as Byte, 'l' as Byte, 'l' as Byte, 'o' as Byte]
  {
    hide IsHex, HexDecode;
    HexDecodeHell();
    HexDecodeAppend("48656C6C", '6', 'F');
    assert "48656C6C" + ['6', 'F'] == "48656C6C6F";
  }

  /** The second hex2bin check: the same digits in lower case spell the same. */
  lemma HexDecodeHelloLowerCase()
    ensures IsHex("48656c6c6f") && HexDecode("48656c6c6f") == HexDecode("48656C6C6F")
  {
    hide HexDecode;
    HexDecodeHello();
    HexDecodeIgnoresCase("48656C6C6F");
    assert Lower("48656C6C6F") == "48656c6c6f";
  }

  /** The last hex2bin checks: FF is 255 and 00 is 0. */
  lemma HexDecodeSingleBytes()
    ensures IsHex("FF") && HexDecode("FF") == [0xff]
    ensures IsHex("00") && HexDecode("00") == [0x00]
  {
    HexDecodeAppend("", 'F', 'F');
    HexDecodeAppend("", '0', '0');
  }

  // ---------------------------------------------------------------------------
  // parseAddress
  // ---------------------------------------------------------------------------

  /** The place of the first c in s, if any. */
  function IndexOf(s: seq<char>, c: char): (r: Option<nat>)
    ensures r.Some? ==> r.value < |s| && s[r.value] == c && c !in s[..r.value]
    ensures r.None? ==> c !in s
    decreases |s|
  {
    if s == [] then None
    else if s[0] == c then Some(0)
    else
      var r := IndexOf(s[1..], c);
      if r.Some? then
        assert s[..r.value + 1] == [s[0]] + s[1..][..r.value];
        Some(r.value + 1)
      else None
  }

  /** The place of the last c in s, if any. */
  function LastIndexOf(s: seq<char>, c: char): (r: Option<nat>)
    ensures r.Some? ==> r.value < |s| && s[r.value] == c && c !in s[r.value + 1..]
    ensures r.None? ==> c !in s
    decreases |s|
  {
    if s == [] then None
    else if s[|s| - 1] == c then Some(|s| - 1)
    else
      var r := LastIndexOf(s[..|s| - 1], c);
      if r.Some? then
        assert s[r.value + 1..] == s[..|s| - 1][r.value + 1..] + [s[|s| - 1]];
        r
      else
        assert s == s[..|s| - 1] + [s[|s| - 1]];
        None
  }

  /** The first c in a + [c] + rest, with no c in a, is the one after a. */
  lemma {:induction false} IndexOfAfter(a: seq<char>, c: char, rest: seq<char>)
    requires c !in a
    ensures IndexOf(a + [c] + rest, c) == Some(|a|)
    decreases |a|
  {
    if a != [] {
      assert (a + [c] + rest)[1..] == a[1..] + [c] + rest;
      assert a[0] in a;
      IndexOfAfter(a[1..], c, rest);
    }
  }

  /** The last c in a + [c] + rest, with no c in rest, is the one after a. */
  lemma {:induction false} LastIndexOfBefore(a: seq<char>, c: char, rest: seq<char>)
    requires c !in rest
    ensures LastIndexOf(a + [c] + rest, c) == Some(|a|)
    decreases |rest|
  {
    if rest != [] {
      var s := a + [c] + rest;
      assert s[..|s| - 1] == a + [c] + rest[..|rest| - 1];
      assert s[|s| - 1] == rest[|rest| - 1] && rest[|rest| - 1] in rest;
      LastIndexOfBefore(a, c, rest[..|rest| - 1]);
    }
  }

  /** A host and a port, or no port when the default port applies. */
  datatype Address = Address(host: seq<char>, port: Option<seq<char>>)

  /** The split parseAddress makes of s. A string that starts with '[' and
      holds a ']' is a bracketed host: the host is what lies between '[' and
      the last ']', and the port what follows a ':' right after that ']'.
      Otherwise a string with exactly one ':' splits there into host and
      port, and any other string is a host alone. */
  function SplitAddress(s: seq<char>): (r: Address)
    ensures r.host <= s || (|s| > 0 && r.host <= s[1..])
    ensures r.port.Some? ==> |r.host| + |r.port.value| < |s| && r.port.value == s[|s| - |r.port.value|..]
  {
    var close := LastIndexOf(s, ']');
    if |s| > 0 && s[0] == '[' && close.Some? then
      var c := close.value;
      Address(s[1..c], if c + 1 < |s| && s[c + 1] == ':' then Some(s[c + 2..]) else None)
    else
      var first := IndexOf(s, ':');
      if first.Some? && first == LastIndexOf(s, ':') then
        Address(s[..first.value], Some(s[first.value + 1..]))
      else Address(s, None)
  }

  /** host:port, with no ':' in host or port and a host that does not open
      with '[', splits back into host and port. */
  lemma SplitHostPort(host: seq<char>, port: seq<char>)
    requires ':' !in host && ':' !in port && (host == [] || host[0] != '[')
    ensures SplitAddress(host + [':'] + port) == Address(host, Some(port))
  {
    var s := host + [':'] + port;
    IndexOfAfter(host, ':', port);
    LastIndexOfBefore(host, ':', port);
    assert s[0] != '[' by {
      if host == [] { assert s[0] == ':'; } else { assert s[0] == host[0]; }
    }
    assert s[..|host|] == host && s[|host| + 1..] == port;
  }

  /** [host]:port, with no ']' in port, splits back into host and port. */
  lemma SplitBracketedHostPort(host: seq<char>, port: seq<char>)
    requires ']' !in port
    ensures SplitAddress(['['] + host + [']', ':'] + port) == Address(host, Some(port))
  {
    var s := ['['] + host + [']', ':'] + port;
    assert s == (['['] + host) + [']'] + ([':'] + port);
    assert ']' !in [':'] + port;
    LastIndexOfBefore(['['] + host, ']', [':'] + port);
    assert s[1..|host| + 1] == host && s[|host| + 3..] == port;
  }

  /** [host] with nothing after the ']' is a host with the default port. */
  lemma SplitBracketedHost(host: seq<char>)
    ensures SplitAddress(['['] + host + [']']) == Address(host, None)
  {
    var s := ['['] + host + [']'];
    assert s == (['['] + host) + [']'] + [];
    LastIndexOfBefore(['['] + host, ']', []);
    assert s[1..|host| + 1] == host;
  }

  /** A string with no ':' that does not open with '[' is a host alone. */
  lemma SplitHostOnly(host: seq<char>)
    requires ':' !in host && (host == [] || host[0] != '[')
    ensures SplitAddress(host) == Address(host, None)
  {
  }

  /** A c at place i puts the first c at i or before. */
  lemma {:induction false} IndexOfAtMost(s: seq<char>, c: char, i: nat)
    requires i < |s| && s[i] == c
    ensures IndexOf(s, c).Some? && IndexOf(s, c).value <= i
    decreases i
  {
    if s[0] != c {
      assert s[1..][i - 1] == c;
      IndexOfAtMost(s[1..], c, i - 1);
    }
  }

  /** A c at place j puts the last c at j or after. */
  lemma {:induction false} LastIndexOfAtLeast(s: seq<char>, c: char, j: nat)
    requires j < |s| && s[j] == c
    ensures LastIndexOf(s, c).Some? && LastIndexOf(s, c).value >= j
    decreases |s| - j
  {
    if s[|s| - 1] != c {
      assert s[..|s| - 1][j] == c;
      LastIndexOfAtLeast(s[..|s| - 1], c, j);
    }
  }

  /** An unbracketed string with two ':' (a bare IPv6 address) is a host
      alone. */
  lemma SplitBareIPv6(s: seq<char>, i: nat, j: nat)
    requires i < j < |s| && s[i] == ':' && s[j] == ':' && s[0] != '['
    ensures SplitAddress(s) == Address(s, None)
  {
    IndexOfAtMost(s, ':', i);
    LastIndexOfAtLeast(s, ':', j);
  }

  /** The first two parseAddress checks: 192.168.1.1:1688 and localhost:8080. */
  lemma SplitAddressHostPortExamples()
    ensures SplitAddress("192.168.1.1:1688") == Address("192.168.1.1", Some("1688"))
    ensures SplitAddress("localhost:8080") == Address("localhost", Some("8080"))
  {
    hide SplitAddress;
    SplitHostPort("192.168.1.1", "1688");
    assert "192.168.1.1" + [':'] + "1688" == "192.168.1.1:1688";
    SplitHostPort("localhost", "8080");
    assert "localhost" + [':'] + "8080" == "localhost:8080";
  }

  /** The last two parseAddress checks: example.com (a host alone, with the
      default port) and [::1]:1688. */
  lemma SplitAddressOtherExamples()
    ensures SplitAddress("example.com") == Address("example.com", None)
    ensures SplitAddress("[::1]:1688") == Address("::1", Some("1688"))
  {
    hide SplitAddress;
    SplitHostOnly("example.com");
    SplitBracketedHostPort("::1", "1688");
    assert ['['] + "::1" + [']', ':'] + "1688" == "[::1]:1688";
  }

  /** No character of s is NUL. */
  predicate NoNul(s: seq<char>)
  {
    forall k :: 0 <= k < |s| ==> s[k] != '\0'
  }

  /** A C string starts at at: a NUL follows at. */
  predicate HasNul(a: seq<char>, at: nat)
  {
    exists k :: at <= k < |a| && a[k] == '\0'
  }

  /** The C string that starts at at: the characters up to the first NUL. */
  function CString(a: seq<char>, at: nat): (s: seq<char>)
    requires HasNul(a, at)
    ensures NoNul(s) && at + |s| < |a| && a[at + |s|] == '\0'
    ensures a[at .. at + |s|] == s
    decreases |a| - at
  {
    if a[at] == '\0' then [] else [a[at]] + CString(a, at + 1)
  }

  /** With no NUL from at up to e and a NUL at e, the C string at at is a[at..e]. */
  lemma {:induction false} CStringUpTo(a: seq<char>, at: nat, e: nat)
    requires at <= e < |a| && a[e] == '\0'
    requires forall k :: at <= k < e ==> a[k] != '\0'
    ensures HasNul(a, at) && CString(a, at) == a[at..e]
    decreases e - at
  {
    assert at <= e < |a| && a[e] == '\0';
    if at < e {
      CStringUpTo(a, at + 1, e);
      assert a[at..e] == [a[at]] + a[at + 1..e];
    }
  }

  /** A NUL written at place c of the C string at 0 ends the C string at
      h <= c there. */
  lemma CutBefore(a0: seq<char>, c: nat, h: nat)
    requires HasNul(a0, 0) && h <= c < |CString(a0, 0)|
    ensures HasNul(a0[c := '\0'], h) && CString(a0[c := '\0'], h) == CString(a0, 0)[h..c]
  {
    var s := CString(a0, 0);
    var a := a0[c := '\0'];
    forall k | h <= k < c
      ensures a[k] == s[k] && a[k] != '\0'
    {
      assert a0[0..|s|][k] == a0[k];
    }
    CStringUpTo(a, h, c);
  }

  /** It leaves the C string at c < p <= the end untouched. */
  lemma CutAfter(a0: seq<char>, c: nat, p: nat)
    requires HasNul(a0, 0) && c < p <= |CString(a0, 0)|
    ensures HasNul(a0[c := '\0'], p) && CString(a0[c := '\0'], p) == CString(a0, 0)[p..]
  {
    var s := CString(a0, 0);
    var a := a0[c := '\0'];
    forall k | p <= k < |s|
      ensures a[k] == s[k] && a[k] != '\0'
    {
      assert a0[0..|s|][k] == a0[k];
    }
    CStringUpTo(a, p, |s|);
  }

  /** Where the port of a parsed address is: a C string in the buffer, or the
      built-in default port. */
  datatype PortRef = InBuffer(at: nat) | DefaultPort

  /** strlen: the place of the first NUL. */
  method StrLen(a: array<char>) returns (n: nat)
    requires HasNul(a[..], 0)
    ensures n < a.Length && a[..n] == CString(a[..], 0) && a[n] == '\0'
  {
    ghost var s := CString(a[..], 0);
    n := 0;
    while a[n] != '\0'
      invariant n <= |s| && a[..n] == s[..n]
      decreases |s| - n
    {
      assert a[..][n] == a[n];
      n := n + 1;
    }
  }

  /** IndexOf is the first place of c: any place of c with no c before it. */
  lemma IndexOfIs(s: seq<char>, c: char, r: Option<nat>)
    requires r.Some? ==> r.value < |s| && s[r.value] == c && forall k :: 0 <= k < r.value ==> s[k] != c
    requires r.None? ==> forall k :: 0 <= k < |s| ==> s[k] != c
    ensures IndexOf(s, c) == r
  {
    if r.Some? {
      IndexOfAtMost(s, c, r.value);
    }
  }

  /** LastIndexOf is the last place of c: any place of c with no c after it. */
  lemma LastIndexOfIs(s: seq<char>, c: char, r: Option<nat>)
    requires r.Some? ==> r.value < |s| && s[r.value] == c && forall k :: r.value < k < |s| ==> s[k] != c
    requires r.None? ==> forall k :: 0 <= k < |s| ==> s[k] != c
    ensures LastIndexOf(s, c) == r
  {
    if r.Some? {
      LastIndexOfAtLeast(s, c, r.value);
    }
  }

  /** strchr within the first n characters. */
  method FindFirst(a: array<char>, n: nat, c: char) returns (r: Option<nat>)
    requires n <= a.Length
    ensures r == IndexOf(a[..n], c)
  {
    var i := 0;
    while i < n
      invariant 0 <= i <= n
      invariant forall k :: 0 <= k < i ==> a[k] != c
    {
      if a[i] == c {
        IndexOfIs(a[..n], c, Some(i));
        return Some(i);
      }
      i := i + 1;
    }
    IndexOfIs(a[..n], c, None);
    return None;
  }

  /** strrchr within the first n characters. */
  method FindLast(a: array<char>, n: nat, c: char) returns (r: Option<nat>)
    requires n <= a.Length
    ensures r == LastIndexOf(a[..n], c)
  {
    var i := n;
    while i > 0
      invariant 0 <= i <= n
      invariant forall k :: i <= k < n ==> a[k] != c
    {
      if a[i - 1] == c {
        LastIndexOfIs(a[..n], c, Some(i - 1));
        return Some(i - 1);
      }
      i := i - 1;
    }
    LastIndexOfIs(a[..n], c, None);
    return None;
  }

  /** The three cases of SplitAddress, one lemma each. */
  lemma SplitBracketedCase(s: seq<char>, c: nat)
    requires |s| > 0 && s[0] == '[' && LastIndexOf(s, ']') == Some(c)
    ensures c < |s| && SplitAddress(s).host == s[1..c]
    ensures SplitAddress(s).port == if c + 1 < |s| && s[c + 1] == ':' then Some(s[c + 2..]) else None
  {
  }

  lemma SplitColonCase(s: seq<char>, f: nat)
    requires !(|s| > 0 && s[0] == '[' && LastIndexOf(s, ']').Some?)
    requires IndexOf(s, ':') == Some(f) && LastIndexOf(s, ':') == Some(f)
    ensures f < |s| && SplitAddress(s) == Address(s[..f], Some(s[f + 1..]))
  {
  }

  lemma SplitWholeCase(s: seq<char>)
    requires !(|s| > 0 && s[0] == '[' && LastIndexOf(s, ']').Some?)
    requires !(IndexOf(s, ':').Some? && IndexOf(s, ':') == LastIndexOf(s, ':'))
    ensures SplitAddress(s) == Address(s, None)
  {
  }

  /** What parseAddress leaves behind. a0 is the buffer before the call and
      a the buffer after it: a is a0 with a NUL where the host now ends, the
      C string at host is the host of the split of a0's C string, and the
      port is the default exactly when the split has none, and otherwise the
      C string at the port place is the split's port. */
  predicate ParsedAs(a0: seq<char>, a: seq<char>, host: nat, port: PortRef)
    requires HasNul(a0, 0)
  {
    var split := SplitAddress(CString(a0, 0));
    |a| == |a0| && HasNul(a, host) && CString(a, host) == split.host
    && (port.DefaultPort? <==> split.port.None?)
    && (port.InBuffer? ==> HasNul(a, port.at) && CString(a, port.at) == split.port.value)
    && a == a0[host + |CString(a, host)| := '\0']
  }

  /** A bracketed address is cut with a NUL at its last ']': the host follows
      the '[', and the port, if any, follows the ':' after the ']'. */
  lemma CutBracketed(a0: seq<char>, c: nat)
    requires HasNul(a0, 0)
    requires |CString(a0, 0)| > 0 && CString(a0, 0)[0] == '['
    requires LastIndexOf(CString(a0, 0), ']') == Some(c)
    ensures c < |CString(a0, 0)|
    ensures ParsedAs(a0, a0[c := '\0'], 1,
                     if c + 1 < |CString(a0, 0)| && a0[c + 1] == ':' then InBuffer(c + 2) else DefaultPort)
  {
    hide IndexOf, LastIndexOf, SplitAddress;
    var s := CString(a0, 0);
    SplitBracketedCase(s, c);
    assert c + 1 < |s| ==> s[c + 1] == a0[c + 1];
    CutBefore(a0, c, 1);
    if c + 1 < |s| && s[c + 1] == ':' {
      CutAfter(a0, c, c + 2);
    }
  }

  /** An address with a single ':' is cut with a NUL there. */
  lemma CutColon(a0: seq<char>, f: nat)
    requires HasNul(a0, 0)
    requires !(|CString(a0, 0)| > 0 && CString(a0, 0)[0] == '[' && LastIndexOf(CString(a0, 0), ']').Some?)
    requires IndexOf(CString(a0, 0), ':') == Some(f) && LastIndexOf(CString(a0, 0), ':') == Some(f)
    ensures f < |CString(a0, 0)|
    ensures ParsedAs(a0, a0[f := '\0'], 0, InBuffer(f + 1))
  {
    hide IndexOf, LastIndexOf, SplitAddress;
    var s := CString(a0, 0);
    SplitColonCase(s, f);
    CutBefore(a0, f, 0);
    CutAfter(a0, f, f + 1);
  }

  /** Any other address is left as it is, a host alone. */
  lemma CutNothing(a0: seq<char>)
    requires HasNul(a0, 0)
    requires !(|CString(a0, 0)| > 0 && CString(a0, 0)[0] == '[' && LastIndexOf(CString(a0, 0), ']').Some?)
    requires !(IndexOf(CString(a0, 0), ':').Some? && IndexOf(CString(a0, 0), ':') == LastIndexOf(CString(a0, 0), ':'))
    ensures ParsedAs(a0, a0, 0, DefaultPort)
  {
    SplitWholeCase(CString(a0, 0));
    assert a0[|CString(a0, 0)| := '\0'] == a0;
  }

  /** parseAddress(addr, &host, &port) on the C string in addr: cuts the
      string in place with a NUL and returns where the host and the port
      start, as SplitAddress describes; the cut is the only change. */
  method ParseAddress(addr: array<char>) returns (host: nat, port: PortRef)
    requires HasNul(addr[..], 0)
    modifies addr
    ensures ParsedAs(old(addr[..]), addr[..], host, port)
  {
    hide CString, IndexOf, LastIndexOf, SplitAddress, HasNul, ParsedAs;
    var n := StrLen(addr);
    ghost var a0 := addr[..];
    ghost var s := CString(a0, 0);
    assert n > 0 ==> s[0] == addr[0];
    var first := FindFirst(addr, n, ':');
    var last := FindLast(addr, n, ':');
    var close := FindLast(addr, n, ']');
    if n > 0 && addr[0] == '[' && close.Some? {
      var c := close.value;
      CutBracketed(a0, c);
      var colon := c + 1 < n && addr[c + 1] == ':';
      addr[c] := '\0';
      assert addr[..] == a0[c := '\0'];
      host := 1;
      if colon {
        port := InBuffer(c + 2);
      } else {
        port := DefaultPort;
      }
    } else if first.Some? && first == last {
      var f := first.value;
      CutColon(a0, f);
      addr[f] := '\0';
      assert addr[..] == a0[f := '\0'];
      host, port := 0, InBuffer(f + 1);
    } else {
      CutNothing(a0);
      host, port := 0, DefaultPort;
    }
  }

  // ---------------------------------------------------------------------------
  // timeSpanString2Seconds
  // ---------------------------------------------------------------------------

  /** The number of leading digits of s. */
  function DigitPrefix(s: seq<char>): (k: nat)
    ensures k <= |s| && AllDigits(s[..k]) && (k < |s| ==> !IsDigit(s[k]))
    decreases |s|
  {
    if s == [] || !IsDigit(s[0]) then 0
    else
      var k := DigitPrefix(s[1..]) + 1;
      assert s[..k] == [s[0]] + s[1..][..k - 1];
      k
  }

  /** The seconds in one unit: s, m, h, d and w. */
  function UnitSeconds(u: char): Option<nat>
  {
    if u == 's' then Some(1)
    else if u == 'm' then Some(60)
    else if u == 'h' then Some(3600)
    else if u == 'd' then Some(86400)
    else if u == 'w' then Some(604800)
    else None
  }

  /** timeSpanString2Seconds(s): a number followed by at most one unit
      letter, in seconds; a number without a unit counts minutes. */
  function TimeSpanSeconds(s: seq<char>): (r: Option<nat>)
    ensures r.Some? ==> s != [] && IsDigit(s[0]) && AllDigits(s[..|s| - 1])
    ensures r.Some? && IsDigit(s[|s| - 1]) ==> r.value % 60 == 0
    ensures r.Some? && !IsDigit(s[|s| - 1]) ==>
              UnitSeconds(s[|s| - 1]).Some? && r.value % UnitSeconds(s[|s| - 1]).value == 0
  {
    var k := DigitPrefix(s);
    if k == 0 then None
    else
      var n := DigitsValue(s[..k]);
      if k == |s| then Some(60 * n)
      else if k + 1 == |s| && UnitSeconds(s[k]).Some? then Some(n * UnitSeconds(s[k]).value)
      else None
  }

  /** A numeral followed by a unit letter, or by nothing, reads as that many
      units, or minutes. */
  lemma TimeSpanOfNumeral(n: nat, u: char)
    ensures TimeSpanSeconds(Decimal(n)) == Some(60 * n)
    ensures UnitSeconds(u).Some? ==> TimeSpanSeconds(Decimal(n) + [u]) == Some(n * UnitSeconds(u).value)
  {
    var d := Decimal(n);
    DecimalValue(n);
    DigitPrefixOfDigits(d, []);
    assert d + [] == d;
    if UnitSeconds(u).Some? {
      DigitPrefixOfDigits(d, [u]);
      assert (d + [u])[..|d|] == d;
    }
  }

  /** The leading digits of digits followed by a non-digit are those digits. */
  lemma {:induction false} DigitPrefixOfDigits(d: seq<char>, rest: seq<char>)
    requires AllDigits(d) && (rest == [] || !IsDigit(rest[0]))
    ensures DigitPrefix(d + rest) == |d|
    decreases |d|
  {
    if d == [] {
      assert d + rest == rest;
    } else {
      assert (d + rest)[1..] == d[1..] + rest;
      DigitPrefixOfDigits(d[1..], rest);
    }
  }

  /** The timeSpanString2Seconds checks with seconds, minutes and hours. */
  lemma TimeSpanShortExamples()
    ensures TimeSpanSeconds("30s") == Some(30)
    ensures TimeSpanSeconds("5m") == Some(300)
    ensures TimeSpanSeconds("2h") == Some(7200)
  {
    hide TimeSpanSeconds;
    TimeSpanOfNumeral(30, 's');
    assert Decimal(30) + ['s'] == "30s";
    TimeSpanOfNumeral(5, 'm');
    assert Decimal(5) + ['m'] == "5m";
    TimeSpanOfNumeral(2, 'h');
    assert Decimal(2) + ['h'] == "2h";
  }

  /** The timeSpanString2Seconds checks with days, weeks and no unit. */
  lemma TimeSpanLongExamples()
    ensures TimeSpanSeconds("1d") == Some(86400)
    ensures TimeSpanSeconds("1w") == Some(604800)
    ensures TimeSpanSeconds("60") == Some(3600)
  {
    hide TimeSpanSeconds;
    TimeSpanOfNumeral(1, 'd');
    assert Decimal(1) + ['d'] == "1d";
    TimeSpanOfNumeral(1, 'w');
    assert Decimal(1) + ['w'] == "1w";
    TimeSpanOfNumeral(60, 'm');
    assert Decimal(60) == "60";
  }
}
