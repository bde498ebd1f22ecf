/** The hash string of a write: the SHA-256 digest of the content, each byte
    written as `b.toString(16).padStart(2, "0")`, all joined with no separator
    (src/index.js, the two `hashArray.map(...).join("")` lines). */
module HexDigest {
  import opened Wrappers

  type Byte = x: int | 0 <= x < 256

  /** A SHA-256 digest is 32 bytes long. */
  type Digest = d: seq<Byte> | |d| == 32 witness seq(32, _ => 0)

  /** The lower-case digit for a value below 16, as `toString(16)` writes it. */
  function HexDigit(d: int): (c: char)
    requires 0 <= d < 16
    ensures IsLowerHex(c)
  {
    if d < 10 then (d + '0' as int) as char else (d - 10 + 'a' as int) as char
  }

  predicate IsLowerHex(c: char) {
    ('0' <= c <= '9') || ('a' <= c <= 'f')
  }

  /** `n.toString(16)` for a non-negative integer: base-16 digits, most
      significant first, lower case, no leading zeros. The contract gives
      only the shape; for a byte, `ByteHex` states the value digit by digit. */
  function ToRadix16(n: nat): (r: string)
    ensures 1 <= |r|
    ensures forall i :: 0 <= i < |r| ==> IsLowerHex(r[i])
    ensures n < 16 <==> |r| == 1
    decreases n
  {
    if n < 16 then [HexDigit(n)] else ToRadix16(n / 16) + [HexDigit(n % 16)]
  }

  /** `s.padStart(width, fill)` with a one-character fill. */
  function PadStart(s: string, width: nat, fill: char): (r: string)
    ensures |r| == if |s| < width then width else |s|
  {
    if |s| < width then seq(width - |s|, _ => fill) + s else s
  }

  /** Padding only prepends fill characters: the original string is the suffix. */
  lemma PadStartKeepsSuffix(s: string, width: nat, fill: char)
    ensures var r := PadStart(s, width, fill);
            r[|r| - |s|..] == s && forall i :: 0 <= i < |r| - |s| ==> r[i] == fill
  {
  }

  /** One byte as the source writes it: its high and its low nibble. */
  function ByteHex(b: Byte): (r: string)
    ensures r == [HexDigit(b / 16), HexDigit(b % 16)]
  {
    var digits := ToRadix16(b);
    assert b >= 16 ==> digits == ToRadix16(b / 16) + [HexDigit(b % 16)];
    PadStart(digits, 2, '0')
  }

  /** `bytes.map(ByteHex).join("")`. */
  function HexEncode(bs: seq<Byte>): (r: string)
    ensures |r| == 2 * |bs|
    ensures forall i :: 0 <= i < |r| ==> IsLowerHex(r[i])
  {
    if bs == [] then []
    else ByteHex(bs[0]) + HexEncode(bs[1..])
  }

  /** The digits at positions 2k and 2k+1 are the nibbles of byte k. */
  lemma {:induction false} HexEncodeAt(bs: seq<Byte>, k: nat)
    requires k < |bs|
    ensures HexEncode(bs)[2 * k] == HexDigit(bs[k] / 16)
    ensures HexEncode(bs)[2 * k + 1] == HexDigit(bs[k] % 16)
  {
    var s := HexEncode(bs);
    var tail := HexEncode(bs[1..]);
    if k == 0 {
      assert s[0] == HexDigit(bs[0] / 16);
      assert s[1] == HexDigit(bs[0] % 16);
    } else {
      var j := k - 1;
      var i := 2 * j;
      HexEncodeAt(bs[1..], j);
      assert bs[1..][j] == bs[k];
      assert tail[i] == HexDigit(bs[k] / 16);
      assert tail[i + 1] == HexDigit(bs[k] % 16);
      assert s[i + 2] == tail[i];
      assert s[i + 3] == tail[i + 1];
    }
  }

  /** The hash string of a SHA-256 digest is 64 lower-case hex digits. */
  lemma DigestHexShape(d: Digest)
    ensures |HexEncode(d)| == 64
    ensures forall i :: 0 <= i < 64 ==> IsLowerHex(HexEncode(d)[i])
  {
  }

  function HexValue(c: char): (v: Option<int>)
    ensures v.Some? <==> IsLowerHex(c)
    ensures v.Some? ==> 0 <= v.value < 16 && HexDigit(v.value) == c
  {
    if '0' <= c <= '9' then Some(c as int - '0' as int)
    else if 'a' <= c <= 'f' then Some(c as int - 'a' as int + 10)
    else None
  }

  /** The inverse of `HexEncode`: pairs of lower-case hex digits back to bytes. */
  function HexDecode(s: string): (r: Option<seq<Byte>>)
    ensures r.Some? ==> 2 * |r.value| == |s|
    decreases |s|
  {
    if s == [] then Some([])
    else if |s| < 2 then None
    else
      match (HexValue(s[0]), HexValue(s[1]), HexDecode(s[2..]))
      case (Some(hi), Some(lo), Some(rest)) => Some([hi * 16 + lo] + rest)
      case _ => None
  }

  lemma HexDigitInjective(d: int, e: int)
    requires 0 <= d < 16 && 0 <= e < 16
    requires HexDigit(d) == HexDigit(e)
    ensures d == e
  {
  }

  /** Decoding the hash string gives back the digest. */
  lemma {:induction false} HexRoundTrip(bs: seq<Byte>)
    ensures HexDecode(HexEncode(bs)) == Some(bs)
  {
    if bs != [] {
      var b := bs[0];
      var s := HexEncode(bs);
      assert s[0] == HexDigit(b / 16) && s[1] == HexDigit(b % 16);
      assert s[2..] == HexEncode(bs[1..]);
      HexRoundTrip(bs[1..]);
      var hi := HexValue(s[0]).value;
      var lo := HexValue(s[1]).value;
      HexDigitInjective(hi, b / 16);
      HexDigitInjective(lo, b % 16);
      assert hi * 16 + lo == b;
      assert [b] + bs[1..] == bs;
    }
  }

  /** Distinct digests give distinct hash strings. */
  lemma HexEncodeInjective(a: seq<Byte>, b: seq<Byte>)
    requires HexEncode(a) == HexEncode(b)
    ensures a == b
  {
    HexRoundTrip(a);
    HexRoundTrip(b);
  }
}
