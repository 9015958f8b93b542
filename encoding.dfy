/**
 * The text and byte encodings the JavaScript runtime performs for the crypto
 * helpers: Node's `'hex'` codec (`digest('hex')`, `toString('hex')`,
 * `Buffer.from(s, 'hex')`), UTF-8 (`Hash.update(string)`, `TextEncoder`) and
 * the decimal rendering of a number inside a template string.
 */
module Encoding {
  import opened Common

  /** The lowercase hexadecimal digit for a value below 16. */
  function HexDigit(d: int): (c: char)
    requires 0 <= d < 16
    ensures IsHexDigit(c)
  {
    if d < 10 then ('0' as int + d) as char else ('a' as int + d - 10) as char
  }

  predicate IsHexDigit(c: char) {
    '0' <= c <= '9' || 'a' <= c <= 'f'
  }

  predicate IsLowerHex(s: string) {
    forall i :: 0 <= i < |s| ==> IsHexDigit(s[i])
  }

  /** Node's `'hex'` encoding: two lowercase digits per byte, high nibble first. */
  function Hex(bytes: seq<Byte>): (s: string)
    ensures |s| == 2 * |bytes|
    ensures IsLowerHex(s)
  {
    if bytes == [] then ""
    else [HexDigit(bytes[0] / 16), HexDigit(bytes[0] % 16)] + Hex(bytes[1..])
  }

  /** The value of a hex digit in either case, as Node's decoder reads it. */
  function HexValue(c: char): Option<int> {
    if '0' <= c <= '9' then Some(c as int - '0' as int)
    else if 'a' <= c <= 'f' then Some(c as int - 'a' as int + 10)
    else if 'A' <= c <= 'F' then Some(c as int - 'A' as int + 10)
    else None
  }

  /**
   * `Buffer.from(s, 'hex')`: decodes character pairs from the start and stops
   * at the first pair that is not two hex digits; a trailing odd character is
   * dropped.
   */
  function HexDecode(s: string): (r: seq<Byte>)
    ensures |r| <= |s| / 2
  {
    if |s| < 2 then []
    else match (HexValue(s[0]), HexValue(s[1]))
      case (Some(hi), Some(lo)) =>
        assert 0 <= hi < 16 && 0 <= lo < 16;
        [hi * 16 + lo] + HexDecode(s[2..])
      case _ => []
  }

  lemma HexDigitValue(d: int)
    requires 0 <= d < 16
    ensures HexValue(HexDigit(d)) == Some(d)
  {
  }

  /** Decoding what Node encoded gives the bytes back. */
  lemma {:induction false} HexRoundTrip(bytes: seq<Byte>)
    ensures HexDecode(Hex(bytes)) == bytes
  {
    if bytes != [] {
      var b := bytes[0];
      HexDigitValue(b / 16);
      HexDigitValue(b % 16);
      var s := Hex(bytes);
      assert s[2..] == Hex(bytes[1..]);
      HexRoundTrip(bytes[1..]);
      assert HexDecode(s) == [b / 16 * 16 + b % 16] + bytes[1..];
    }
  }

  /** A string no longer than one character decodes to no bytes at all (the server's genesis `'0'`). */
  lemma ShortHexDecodesEmpty(s: string)
    requires |s| < 2
    ensures HexDecode(s) == []
  {
  }

  /** The UTF-8 bytes of one Unicode scalar value. */
  function Utf8Char(c: char): (r: seq<Byte>)
    ensures 1 <= |r| <= 4
    ensures c as int < 0x80 ==> r == [c as int]
  {
    var n := c as int;
    if n < 0x80 then [n]
    else if n < 0x800 then [0xC0 + n / 64, 0x80 + n % 64]
    else if n < 0x10000 then [0xE0 + n / 4096, 0x80 + n / 64 % 64, 0x80 + n % 64]
    else [0xF0 + n / 262144, 0x80 + n / 4096 % 64, 0x80 + n / 64 % 64, 0x80 + n % 64]
  }

  /** UTF-8 encoding of a string: what `TextEncoder.encode` and `Hash.update(string)` feed the digest. */
  function Utf8(s: string): seq<Byte> {
    if s == [] then [] else Utf8Char(s[0]) + Utf8(s[1..])
  }

  /** Encoding distributes over concatenation, so hashing `a + b` hashes `Utf8(a) + Utf8(b)`. */
  lemma {:induction false} Utf8Append(a: string, b: string)
    ensures Utf8(a + b) == Utf8(a) + Utf8(b)
  {
    if a == [] {
      assert a + b == b;
    } else {
      assert (a + b)[0] == a[0];
      assert (a + b)[1..] == a[1..] + b;
      Utf8Append(a[1..], b);
    }
  }

  predicate IsAscii(s: string) {
    forall i :: 0 <= i < |s| ==> s[i] as int < 0x80
  }

  /** An ASCII string encodes to one byte per character, the byte being the character code. */
  lemma {:induction false} Utf8Ascii(s: string)
    requires IsAscii(s)
    ensures |Utf8(s)| == |s|
    ensures forall i :: 0 <= i < |s| ==> Utf8(s)[i] == s[i] as int
  {
    if s != [] {
      Utf8Ascii(s[1..]);
    }
  }

  lemma HexIsAscii(s: string)
    requires IsLowerHex(s)
    ensures IsAscii(s)
  {
  }

  function DigitChar(d: int): char
    requires 0 <= d < 10
  {
    ('0' as int + d) as char
  }

  function DecimalNat(n: nat): string {
    if n < 10 then [DigitChar(n)] else DecimalNat(n / 10) + [DigitChar(n % 10)]
  }

  /** A JavaScript integer rendered inside a template string. */
  function Decimal(n: int): string {
    if n < 0 then "-" + DecimalNat(-n) else DecimalNat(n)
  }
}
