/** The two textual encodings the account service produces: the decimal string
    of a one-time code (`Number.prototype.toString()`) and the lowercase
    hexadecimal string of random bytes (`Buffer.prototype.toString("hex")`). */
module Encoding {

  newtype byte = b: int | 0 <= b < 256

  predicate IsDigit(c: char) {
    '0' <= c <= '9'
  }

  predicate IsLowerHex(c: char) {
    IsDigit(c) || 'a' <= c <= 'f'
  }

  /** The character of a hexadecimal digit value: '0'..'9', then 'a'..'f'. */
  function HexDigit(d: nat): (c: char)
    requires d < 16
    ensures IsLowerHex(c) && (d < 10 <==> IsDigit(c))
  {
    if d < 10 then ('0' as int + d) as char else ('a' as int + d - 10) as char
  }

  /** Ten to the power `k`. */
  function Pow10(k: nat): nat {
    if k == 0 then 1 else 10 * Pow10(k - 1)
  }

  /** The decimal rendering of `n`, without leading zeros. */
  function DecimalString(n: nat): (r: string)
    ensures |r| >= 1
    ensures forall k :: 0 <= k < |r| ==> IsDigit(r[k])
    ensures n > 0 ==> r[0] != '0'
    decreases n
  {
    if n < 10 then [HexDigit(n)] else DecimalString(n / 10) + [HexDigit(n % 10)]
  }

  function DigitValue(c: char): (d: nat)
    requires IsDigit(c)
    ensures d < 10 && HexDigit(d) == c
  {
    c as int - '0' as int
  }

  /** The number a string of decimal digits denotes. */
  function ParseDecimal(s: string): nat
    requires forall k :: 0 <= k < |s| ==> IsDigit(s[k])
    decreases |s|
  {
    if s == [] then 0 else 10 * ParseDecimal(s[..|s| - 1]) + DigitValue(s[|s| - 1])
  }

  /** Reading back the decimal string gives the number. */
  lemma {:induction false} ParseDecimalString(n: nat)
    ensures ParseDecimal(DecimalString(n)) == n
    decreases n
  {
    var s := DecimalString(n);
    if n >= 10 {
      ParseDecimalString(n / 10);
      assert s[..|s| - 1] == DecimalString(n / 10);
    }
  }

  /** A number with k digits renders as exactly k characters. */
  lemma {:induction false} DecimalLength(n: nat, k: nat)
    requires 1 <= k && Pow10(k - 1) <= n < Pow10(k)
    ensures |DecimalString(n)| == k
    decreases k
  {
    if k > 1 {
      assert Pow10(k - 1) == 10 * Pow10(k - 2);
      DecimalLength(n / 10, k - 1);
    }
  }

  /** The two lowercase hexadecimal digits of one byte, high nibble first. */
  function HexByte(b: byte): string {
    [HexDigit(b as int / 16), HexDigit(b as int % 16)]
  }

  /** Lowercase hexadecimal encoding, two characters per byte in byte order. */
  function HexEncode(bytes: seq<byte>): (r: string)
    ensures |r| == 2 * |bytes|
    ensures forall k :: 0 <= k < |r| ==> IsLowerHex(r[k])
  {
    if bytes == [] then [] else HexByte(bytes[0]) + HexEncode(bytes[1..])
  }

  function HexValue(c: char): (v: nat)
    requires IsLowerHex(c)
    ensures v < 16 && HexDigit(v) == c
  {
    if IsDigit(c) then c as int - '0' as int else c as int - 'a' as int + 10
  }

  /** Hexadecimal decoding, the inverse of HexEncode on its outputs. */
  function HexDecode(s: string): seq<byte>
    requires |s| % 2 == 0
    requires forall k :: 0 <= k < |s| ==> IsLowerHex(s[k])
  {
    if s == [] then [] else [(16 * HexValue(s[0]) + HexValue(s[1])) as byte] + HexDecode(s[2..])
  }

  lemma {:induction false} HexRoundTrip(bytes: seq<byte>)
    ensures HexDecode(HexEncode(bytes)) == bytes
  {
    if bytes != [] {
      var s := HexEncode(bytes);
      assert s[2..] == HexEncode(bytes[1..]);
      HexRoundTrip(bytes[1..]);
      assert HexValue(s[0]) == bytes[0] as int / 16;
      assert HexValue(s[1]) == bytes[0] as int % 16;
    }
  }
}
