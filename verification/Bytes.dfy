/** Bytes and big-endian numbers, the `htonl`/`htons` byte order of the wire. */
module Bytes {
  type byte = x: int | 0 <= x < 256

  const TWO_16 := 0x1_0000
  const TWO_32 := 0x1_0000_0000

  function U16(n: int): (s: seq<byte>)
    requires 0 <= n < TWO_16
    ensures |s| == 2
  {
    [n / 256, n % 256]
  }

  function FromU16(s: seq<byte>): (n: nat)
    requires |s| == 2
    ensures n < TWO_16
  {
    var hi: int := s[0];
    256 * hi + s[1]
  }

  function U32(n: int): (s: seq<byte>)
    requires 0 <= n < TWO_32
    ensures |s| == 4
  {
    U16(n / TWO_16) + U16(n % TWO_16)
  }

  function FromU32(s: seq<byte>): (n: nat)
    requires |s| == 4
    ensures n < TWO_32
  {
    TWO_16 * FromU16(s[..2]) + FromU16(s[2..])
  }

  /** The first byte counts most. */
  lemma Places(s: seq<byte>)
    ensures |s| == 2 ==> FromU16(s) == (s[0] as int) * 256 + s[1] as int
    ensures |s| == 4 ==>
              FromU32(s) == (s[0] as int) * 0x100_0000 + (s[1] as int) * 0x1_0000 + (s[2] as int) * 0x100 + s[3] as int
  {
  }

  lemma U16RoundTrip(n: int)
    requires 0 <= n < TWO_16
    ensures FromU16(U16(n)) == n
  {
  }

  lemma U32RoundTrip(n: int)
    requires 0 <= n < TWO_32
    ensures FromU32(U32(n)) == n
  {
    assert U32(n)[..2] == U16(n / TWO_16) && U32(n)[2..] == U16(n % TWO_16);
  }

  lemma U16Inverse(s: seq<byte>)
    requires |s| == 2
    ensures U16(FromU16(s)) == s
  {
  }

  lemma U32Inverse(s: seq<byte>)
    requires |s| == 4
    ensures U32(FromU32(s)) == s
  {
    var hi, lo := FromU16(s[..2]), FromU16(s[2..]);
    assert (TWO_16 * hi + lo) / TWO_16 == hi && (TWO_16 * hi + lo) % TWO_16 == lo;
  }
}
