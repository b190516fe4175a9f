/**
 * Bytes and their hexadecimal text: Python's `bytes.hex` / `bytes.fromhex`
 * and Node's `Buffer.from(s, 'hex')`.
 */
module Bytes {
  import opened Wrappers

  type byte = b: int | 0 <= b < 256
  type bytes = seq<byte>

  /** `n` zero bytes (`Buffer.alloc(n)`). */
  function Zeros(n: nat): (r: bytes)
    ensures |r| == n && forall k :: 0 <= k < n ==> r[k] == 0
  {
    if n == 0 then [] else [0] + Zeros(n - 1)
  }

  function HexDigitChar(v: nat): char
    requires v < 16
  {
    if v < 10 then ('0' as int + v) as char else ('a' as int + v - 10) as char
  }

  /** The value of a hexadecimal digit of either case, or -1. */
  function HexValue(c: char): (v: int)
    ensures -1 <= v < 16
  {
    if '0' <= c <= '9' then c as int - '0' as int
    else if 'a' <= c <= 'f' then c as int - 'a' as int + 10
    else if 'A' <= c <= 'F' then c as int - 'A' as int + 10
    else -1
  }

  predicate IsHexDigit(c: char) {
    HexValue(c) >= 0
  }

  /** Python `b.hex()`: two lower-case digits per byte. */
  function ToHex(b: bytes): (r: string)
    ensures |r| == 2 * |b|
  {
    if |b| == 0 then "" else [HexDigitChar(b[0] / 16), HexDigitChar(b[0] % 16)] + ToHex(b[1..])
  }

  /** The white space CPython's `bytes.fromhex` skips between digit pairs. */
  predicate IsAsciiSpace(c: char) {
    c == ' ' || '\t' <= c <= '\r'
  }

  function PairValue(hi: char, lo: char): byte
    requires IsHexDigit(hi) && IsHexDigit(lo)
  {
    HexValue(hi) * 16 + HexValue(lo)
  }

  /**
   * Python `bytes.fromhex(s)`: ASCII white space may separate byte pairs;
   * anything else that is not a complete pair of hex digits raises
   * ValueError (None here).
   */
  function PyFromHex(s: string): (r: Option<bytes>)
    ensures r.Some? ==> |r.value| <= |s| / 2
  {
    if |s| == 0 then Some([])
    else if IsAsciiSpace(s[0]) then PyFromHex(s[1..])
    else if |s| >= 2 && IsHexDigit(s[0]) && IsHexDigit(s[1]) then
      match PyFromHex(s[2..])
      case None => None
      case Some(rest) => Some([PairValue(s[0], s[1])] + rest)
    else None
  }

  /**
   * Node `Buffer.from(s, 'hex')`: decodes digit pairs from the start and
   * stops, without error, at the first pair that is not two hex digits
   * (so an odd trailing digit is dropped).
   */
  function NodeFromHex(s: string): (r: bytes)
    ensures |r| <= |s| / 2
  {
    if |s| >= 2 && IsHexDigit(s[0]) && IsHexDigit(s[1]) then [PairValue(s[0], s[1])] + NodeFromHex(s[2..])
    else []
  }

  lemma HexDigitRoundTrip(b: byte)
    ensures IsHexDigit(HexDigitChar(b / 16)) && IsHexDigit(HexDigitChar(b % 16))
    ensures PairValue(HexDigitChar(b / 16), HexDigitChar(b % 16)) == b
  {
  }

  /** `bytes.fromhex(b.hex()) == b`. */
  lemma {:induction false} PyFromHexOfToHex(b: bytes)
    ensures PyFromHex(ToHex(b)) == Some(b)
  {
    if |b| > 0 {
      var h := ToHex(b);
      HexDigitRoundTrip(b[0]);
      assert h[2..] == ToHex(b[1..]);
      PyFromHexOfToHex(b[1..]);
      assert b == [b[0]] + b[1..];
    }
  }

  /** `Buffer.from(b.hex(), 'hex')` gives back `b`. */
  lemma {:induction false} NodeFromHexOfToHex(b: bytes)
    ensures NodeFromHex(ToHex(b)) == b
  {
    if |b| > 0 {
      var h := ToHex(b);
      HexDigitRoundTrip(b[0]);
      assert h[2..] == ToHex(b[1..]);
      NodeFromHexOfToHex(b[1..]);
      assert b == [b[0]] + b[1..];
    }
  }

  /** The big-endian `width`-byte encoding of `n` (Python `n.to_bytes(width, 'big')`). */
  function BigEndian(n: nat, width: nat): (r: bytes)
    ensures |r| == width
  {
    if width == 0 then [] else BigEndian(n / 256, width - 1) + [n % 256]
  }

  /** The number a big-endian byte string denotes. */
  function BigEndianValue(b: bytes): nat {
    if |b| == 0 then 0 else BigEndianValue(b[..|b| - 1]) * 256 + b[|b| - 1]
  }

  function Pow256(k: nat): nat {
    if k == 0 then 1 else 256 * Pow256(k - 1)
  }

  /** Within range, the encoding is exact: decoding it gives `n` back. */
  lemma {:induction false} BigEndianRoundTrip(n: nat, width: nat)
    requires n < Pow256(width)
    ensures BigEndianValue(BigEndian(n, width)) == n
  {
    if width > 0 {
      var r := BigEndian(n, width);
      assert r[..width - 1] == BigEndian(n / 256, width - 1);
      BigEndianRoundTrip(n / 256, width - 1);
    }
  }
}
