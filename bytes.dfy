/** Byte-level helpers shared by the wire formats of the Hotline client:
  * Go's fixed-width unsigned conversions and the big-endian encodings of
  * encoding/binary's BigEndian.PutUint16/PutUint32 and Uint16/Uint32. */
module Bytes {
  type byte = b: int | 0 <= b < 256

  datatype Option<T> = None | Some(value: T)

  /** A Go (value, error) pair: the value, or the error's message. */
  datatype Result<T> = Ok(value: T) | Err(error: string)

  const TWO16: nat := 0x1_0000
  const TWO32: nat := 0x1_0000_0000

  /** Go's uint16(x): the low 16 bits of x in two's complement. */
  function U16(x: int): (r: nat)
    ensures r < TWO16 && (x - r) % TWO16 == 0
    ensures 0 <= x < TWO16 ==> r == x
  {
    x % TWO16
  }

  /** Go's uint32(x): the low 32 bits of x in two's complement. */
  function U32(x: int): (r: nat)
    ensures r < TWO32 && (x - r) % TWO32 == 0
    ensures 0 <= x < TWO32 ==> r == x
  {
    x % TWO32
  }

  /** BigEndian.PutUint16 into a fresh 2-byte slice. */
  function BE16(v: nat): (r: seq<byte>)
    requires v < TWO16
    ensures |r| == 2
  {
    [v / 256, v % 256]
  }

  /** BigEndian.Uint16 of a 2-byte slice. */
  function ReadBE16(s: seq<byte>): (r: nat)
    requires |s| == 2
    ensures r < TWO16
  {
    s[0] as int * 256 + s[1] as int
  }

  /** BigEndian.PutUint32 into a fresh 4-byte slice. */
  function BE32(v: nat): (r: seq<byte>)
    requires v < TWO32
    ensures |r| == 4
  {
    [v / 0x100_0000, (v / 0x1_0000) % 256, (v / 256) % 256, v % 256]
  }

  /** BigEndian.Uint32 of a 4-byte slice. */
  function ReadBE32(s: seq<byte>): (r: nat)
    requires |s| == 4
    ensures r < TWO32
  {
    ((s[0] as int * 256 + s[1] as int) * 256 + s[2] as int) * 256 + s[3] as int
  }

  lemma BE16RoundTrip(v: nat)
    requires v < TWO16
    ensures ReadBE16(BE16(v)) == v
  {
  }

  lemma ReadBE16RoundTrip(s: seq<byte>)
    requires |s| == 2
    ensures BE16(ReadBE16(s)) == s
  {
  }

  lemma BE32RoundTrip(v: nat)
    requires v < TWO32
    ensures ReadBE32(BE32(v)) == v
  {
    var q1, q2, q3 := v / 256, v / 0x1_0000, v / 0x100_0000;
    assert v == q1 * 256 + v % 256;
    assert q2 == q1 / 256 && q1 == q2 * 256 + q1 % 256;
    assert q3 == q2 / 256 && q2 == q3 * 256 + q2 % 256;
    assert BE32(v) == [q3, q2 % 256, q1 % 256, v % 256];
  }

  lemma ReadBE32RoundTrip(s: seq<byte>)
    requires |s| == 4
    ensures BE32(ReadBE32(s)) == s
  {
    var hi := s[0] as int * 256 + s[1] as int;
    var mid := hi * 256 + s[2] as int;
    var v := mid * 256 + s[3] as int;
    assert v == ReadBE32(s);
    assert v / 256 == mid && v % 256 == s[3];
    assert mid / 256 == hi && mid % 256 == s[2];
    assert v == hi * 0x1_0000 + (s[2] as int * 256 + s[3] as int);
    assert v / 0x1_0000 == hi;
    assert v == s[0] as int * 0x100_0000 + (s[1] as int * 0x1_0000 + s[2] as int * 256 + s[3] as int);
    assert v / 0x100_0000 == s[0];
  }

  /** A string whose characters are all byte values: Go's strings hold
    * bytes, and the model writes each byte as one character. */
  predicate ByteString(s: string)
  {
    forall i :: 0 <= i < |s| ==> s[i] as int < 256
  }

  /** The bytes of a byte string ([]byte(s) in Go). */
  function StringBytes(s: string): (r: seq<byte>)
    requires ByteString(s)
    ensures |r| == |s| && forall i :: 0 <= i < |s| ==> r[i] == s[i] as int
  {
    if s == [] then [] else [s[0] as int as byte] + StringBytes(s[1..])
  }

  function Zeros(n: nat): (r: seq<byte>)
    ensures |r| == n && forall i :: 0 <= i < n ==> r[i] == 0
  {
    if n == 0 then [] else [0] + Zeros(n - 1)
  }
}
