/**
 * `String.md5`: the MD5 digest of the string's UTF-8 bytes, written as two lowercase hex digits
 * per byte (`String(format: "%02x", byte)`, joined). The digest itself is a parameter.
 */
module MD5Hex {
  import opened Text

  /** MD5 yields 128 bits (section 3.5 of RFC 1321). */
  const DigestLength := 16

  type Digest = d: seq<byte> | |d| == DigestLength
    witness [0, 0, 0, 0, 0, 0, 0, 0, 0, 0, 0, 0, 0, 0, 0, 0]

  predicate IsLowerHex(c: char) { '0' <= c <= '9' || 'a' <= c <= 'f' }

  function HexDigit(v: int): (c: char)
    requires 0 <= v < 16
    ensures IsLowerHex(c)
  {
    if v < 10 then (v + '0' as int) as char else (v - 10 + 'a' as int) as char
  }

  function HexValue(c: char): (v: int)
    requires IsLowerHex(c)
    ensures 0 <= v < 16 && HexDigit(v) == c
  {
    if c <= '9' then c as int - '0' as int else c as int - 'a' as int + 10
  }

  /** `String(format: "%02x", b)`: exactly two digits, zero-padded, high nibble first. */
  function ByteHex(b: byte): (r: string)
    ensures |r| == 2 && IsLowerHex(r[0]) && IsLowerHex(r[1])
    ensures HexValue(r[0]) * 16 + HexValue(r[1]) == b as int
  {
    [HexDigit(b as int / 16), HexDigit(b as int % 16)]
  }

  /** The digest bytes in order, each as its two hex digits. */
  function Hex(bytes: seq<byte>): (r: string)
    ensures |r| == 2 * |bytes|
    ensures forall i :: 0 <= i < |r| ==> IsLowerHex(r[i])
  {
    if bytes == [] then "" else ByteHex(bytes[0]) + Hex(bytes[1..])
  }

  /** The `i`-th pair of digits encodes the `i`-th byte. */
  lemma {:induction false} HexAt(bytes: seq<byte>, i: nat)
    requires i < |bytes|
    ensures Hex(bytes)[2 * i..2 * i + 2] == ByteHex(bytes[i])
  {
    if i > 0 {
      HexAt(bytes[1..], i - 1);
      assert Hex(bytes)[2 * i..2 * i + 2] == Hex(bytes[1..])[2 * (i - 1)..2 * (i - 1) + 2];
    }
  }

  /** Reads hex text back, two digits per byte. */
  function Unhex(s: string): seq<byte>
    requires |s| % 2 == 0 && forall i :: 0 <= i < |s| ==> IsLowerHex(s[i])
  {
    if s == [] then [] else [(HexValue(s[0]) * 16 + HexValue(s[1])) as byte] + Unhex(s[2..])
  }

  /** The encoding is fixed-width, so the digest bytes can be recovered from the text. */
  lemma {:induction false} UnhexHex(bytes: seq<byte>)
    ensures Unhex(Hex(bytes)) == bytes
  {
    if bytes != [] {
      var h := Hex(bytes);
      assert h[2..] == Hex(bytes[1..]);
      UnhexHex(bytes[1..]);
      var b := bytes[0] as int;
      assert HexValue(h[0]) == b / 16 && HexValue(h[1]) == b % 16;
    }
  }

  /**
   * `String.md5` with `md5` standing for the digest of the string's UTF-8 bytes: 32 lowercase hex
   * digits that read back as that digest.
   */
  function Md5String(s: string, md5: string -> Digest): (r: string)
    ensures |r| == 2 * DigestLength
    ensures forall i :: 0 <= i < |r| ==> IsLowerHex(r[i])
    ensures Unhex(r) == md5(s)
  {
    UnhexHex(md5(s));
    Hex(md5(s))
  }
}
