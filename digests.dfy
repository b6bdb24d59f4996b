/** Image digests. SHA-256 itself is an oracle (a function parameter of the pipelines);
    this module fixes what the service does with its output: the 32-byte value, and
    `hexdigest()`, the lower-case hexadecimal text that is stored and compared. */
module Digests {
  import Text

  newtype byte = x: int | 0 <= x < 256

  /** The raw content of an image file. */
  type Bytes = seq<byte>

  /** A SHA-256 digest: 32 bytes. */
  type Digest = d: Bytes | |d| == 32 witness seq(32, _ => 0 as byte)

  predicate IsHexChar(c: char)
  {
    '0' <= c <= '9' || 'a' <= c <= 'f'
  }

  /** The hexadecimal digit for a value below 16. */
  function HexDigit(v: int): (c: char)
    requires 0 <= v < 16
    ensures IsHexChar(c)
    ensures v < 10 <==> c <= '9'
  {
    if v < 10 then ('0' as int + v) as char else ('a' as int + v - 10) as char
  }

  /** Two hexadecimal digits, high nibble first, as `hexdigest` writes each byte. */
  function HexByte(b: byte): (s: string)
    ensures |s| == 2
  {
    [HexDigit(b as int / 16), HexDigit(b as int % 16)]
  }

  /** Python's `hashlib` `hexdigest()` applied to the bytes of a digest. */
  function HexDigest(d: Bytes): (s: string)
    ensures |s| == 2 * |d|
    ensures forall i :: 0 <= i < |s| ==> IsHexChar(s[i])
  {
    if d == [] then [] else HexByte(d[0]) + HexDigest(d[1..])
  }

  /** Different bytes give different hexadecimal pairs. */
  lemma HexByteInjective(a: byte, b: byte)
    requires HexByte(a) == HexByte(b)
    ensures a == b
  {
    var ha, la := a as int / 16, a as int % 16;
    var hb, lb := b as int / 16, b as int % 16;
    assert HexDigit(ha) == HexDigit(hb) && HexDigit(la) == HexDigit(lb);
    assert ha == hb && la == lb;
    assert a as int == 16 * ha + la && b as int == 16 * hb + lb;
  }

  /** `hexdigest` loses nothing: equal hexadecimal texts come from equal digests,
      so comparing the texts is comparing the digests. */
  lemma {:induction false} HexDigestInjective(a: Bytes, b: Bytes)
    ensures HexDigest(a) == HexDigest(b) <==> a == b
  {
    if HexDigest(a) == HexDigest(b) && a != [] {
      var ta, tb := HexDigest(a[1..]), HexDigest(b[1..]);
      assert HexDigest(a) == HexByte(a[0]) + ta;
      assert HexDigest(b) == HexByte(b[0]) + tb;
      assert HexDigest(a)[..2] == HexByte(a[0]) && HexDigest(b)[..2] == HexByte(b[0]);
      assert HexDigest(a)[2..] == ta && HexDigest(b)[2..] == tb;
      HexByteInjective(a[0], b[0]);
      HexDigestInjective(a[1..], b[1..]);
      assert a == [a[0]] + a[1..] && b == [b[0]] + b[1..];
    }
  }

  /** Stripping whitespace from a stored digest text gives the text back. */
  lemma StripHexDigest(d: Bytes)
    ensures Text.Strip(HexDigest(d)) == HexDigest(d)
  {
    Text.StripIdentity(HexDigest(d));
  }
}
