/** Fixed-width integer fields on the wire, as `encoding/binary` writes and reads them. */
module Bytes {

  /** Go's byte. */
  type byte = x: int | 0 <= x < 0x100

  /** Go's uint16. */
  type uint16 = x: int | 0 <= x < 0x1_0000

  /** Go's uint32. */
  type uint32 = x: int | 0 <= x < 0x1_0000_0000

  /** binary.BigEndian.PutUint16: high byte first. */
  function BigEndian16(x: uint16): (r: seq<byte>)
    ensures |r| == 2
  {
    [x / 0x100, x % 0x100]
  }

  /** binary.BigEndian.Uint16. */
  function ReadBigEndian16(s: seq<byte>): (x: uint16)
    requires |s| == 2
  {
    s[0] as int * 0x100 + s[1] as int
  }

  /** binary.LittleEndian.PutUint32: low byte first. */
  function LittleEndian32(x: uint32): (r: seq<byte>)
    ensures |r| == 4
  {
    [x % 0x100, x / 0x100 % 0x100, x / 0x1_0000 % 0x100, x / 0x100_0000]
  }

  /** binary.LittleEndian.Uint32. */
  function ReadLittleEndian32(s: seq<byte>): (x: uint32)
    requires |s| == 4
  {
    s[0] as int + 0x100 * (s[1] as int) + 0x1_0000 * (s[2] as int) + 0x100_0000 * (s[3] as int)
  }

  /** Reading back a written big-endian field gives the value written. */
  lemma ReadWrittenBigEndian16(x: uint16)
    ensures ReadBigEndian16(BigEndian16(x)) == x
  {
  }

  /** Writing back a read big-endian field reproduces the two bytes. */
  lemma WriteReadBigEndian16(s: seq<byte>)
    requires |s| == 2
    ensures BigEndian16(ReadBigEndian16(s)) == s
  {
  }

  /** Reading back a written little-endian field gives the value written. */
  lemma ReadWrittenLittleEndian32(x: uint32)
    ensures ReadLittleEndian32(LittleEndian32(x)) == x
  {
    var y := x / 0x100;
    var z := y / 0x100;
    assert x == x % 0x100 + 0x100 * y;
    assert y == y % 0x100 + 0x100 * z;
    assert z == z % 0x100 + 0x100 * (z / 0x100);
    assert x / 0x1_0000 == z;
    assert x / 0x100_0000 == z / 0x100;
  }

  /** Writing back a read little-endian field reproduces the four bytes. */
  lemma WriteReadLittleEndian32(s: seq<byte>)
    requires |s| == 4
    ensures LittleEndian32(ReadLittleEndian32(s)) == s
  {
    var x := ReadLittleEndian32(s);
    var a, b, c, d := s[0] as int, s[1] as int, s[2] as int, s[3] as int;
    DivMod256(b + 0x100 * c + 0x1_0000 * d, a);
    DivMod256(c + 0x100 * d, b);
    DivMod256(d, c);
    assert x == a + 0x100 * (b + 0x100 * (c + 0x100 * d));
    assert x / 0x1_0000 == (x / 0x100) / 0x100;
    assert x / 0x100_0000 == (x / 0x1_0000) / 0x100;
  }

  lemma DivMod256(h: int, l: int)
    requires 0 <= l < 0x100
    ensures (l + 0x100 * h) / 0x100 == h && (l + 0x100 * h) % 0x100 == l
  {
  }

  /** binary.BigEndian.PutUint16 into b[lo:lo+2]. */
  method PutBigEndian16(b: array<byte>, lo: nat, x: uint16)
    requires lo + 2 <= b.Length
    modifies b
    ensures b[..] == old(b[..lo]) + BigEndian16(x) + old(b[lo + 2..])
  {
    var w := BigEndian16(x);
    b[lo], b[lo + 1] := w[0], w[1];
    assert b[..] == old(b[..lo]) + w + old(b[lo + 2..]);
  }

  /** binary.LittleEndian.PutUint32 into b[lo:lo+4]. */
  method PutLittleEndian32(b: array<byte>, lo: nat, x: uint32)
    requires lo + 4 <= b.Length
    modifies b
    ensures b[..] == old(b[..lo]) + LittleEndian32(x) + old(b[lo + 4..])
  {
    var w := LittleEndian32(x);
    b[lo], b[lo + 1], b[lo + 2], b[lo + 3] := w[0], w[1], w[2], w[3];
    assert b[..] == old(b[..lo]) + w + old(b[lo + 4..]);
  }
}
