/** CRC-32 of IEEE 802.3 clause 3.2.9 (the Ethernet frame check sequence), which is what
    Go's crc32.ChecksumIEEE computes: reflected polynomial 0xEDB88320, register preset to
    all ones, result complemented. Written bit by bit; the frame laws hold for any checksum,
    and the values of the fixed frames are worked out from this definition. */
module Crc32 {
  import opened Bytes

  const Polynomial: bv32 := 0xEDB8_8320

  /** One shift of the reflected register. */
  function Step(c: bv32): (r: bv32) {
    if c & 1 == 1 then (c >> 1) ^ Polynomial else c >> 1
  }

  /** k shifts of the register; a byte is absorbed by eight. */
  function Shifts(c: bv32, k: nat): (r: bv32)
    decreases k
  {
    if k == 0 then c else Shifts(Step(c), k - 1)
  }

  function UpdateByte(c: bv32, x: byte): (r: bv32) {
    Shifts(c ^ ((x as bv8) as bv32), 8)
  }

  /** Feeds `data` into the register `c`, first byte first. */
  function Update(c: bv32, data: seq<byte>): (r: bv32)
    decreases |data|
  {
    if data == [] then c else Update(UpdateByte(c, data[0]), data[1..])
  }

  function Crc(data: seq<byte>): (r: bv32) {
    Update(0xFFFF_FFFF, data) ^ 0xFFFF_FFFF
  }

  /** The register's four bytes, least significant first. */
  function RegisterBytes(c: bv32): (r: seq<byte>)
    ensures |r| == 4
  {
    [((c & 0xFF) as bv8) as int, (((c >> 8) & 0xFF) as bv8) as int,
     (((c >> 16) & 0xFF) as bv8) as int, ((c >> 24) as bv8) as int]
  }

  /** crc32.ChecksumIEEE, as the uint32 Go returns. */
  function ChecksumIEEE(data: seq<byte>): (r: uint32) {
    ReadLittleEndian32(RegisterBytes(Crc(data)))
  }

  /** UpdateByte written out as the eight shifts it performs. */
  lemma UpdateByteShifts(c: bv32, x: byte)
    ensures UpdateByte(c, x) == Step(Step(Step(Step(Step(Step(Step(Step(c ^ ((x as bv8) as bv32)))))))))
  {
  }

  lemma UpdateCons(c: bv32, x: byte, rest: seq<byte>)
    ensures Update(c, [x] + rest) == Update(UpdateByte(c, x), rest)
  {
    assert ([x] + rest)[1..] == rest;
  }

  /** Feeding a + b is feeding a, then b (the streaming form of the checksum). */
  lemma {:induction false} UpdateAppend(c: bv32, a: seq<byte>, b: seq<byte>)
    ensures Update(c, a + b) == Update(Update(c, a), b)
    decreases |a|
  {
    if a == [] {
      assert a + b == b;
    } else {
      assert (a + b)[0] == a[0];
      assert (a + b)[1..] == a[1..] + b;
      UpdateAppend(UpdateByte(c, a[0]), a[1..], b);
    }
  }

  /** The checksum from the register left after feeding the data. */
  lemma ChecksumOfRegister(data: seq<byte>, c: bv32)
    requires Update(0xFFFF_FFFF, data) == c
    ensures ChecksumIEEE(data) == ReadLittleEndian32(RegisterBytes(c ^ 0xFFFF_FFFF))
  {
  }

  /** The check value of four zero bytes, the trailer of the empty packet. */
  lemma ChecksumOfFourZeros()
    ensures ChecksumIEEE([0, 0, 0, 0]) == 0x2144_DF1C
    ensures RegisterBytes(Crc([0, 0, 0, 0])) == [0x1C, 0xDF, 0x44, 0x21]
  {
    assert UpdateByte(0xFFFF_FFFF, 0) == 0x2DFD_1072;
    assert UpdateByte(0x2DFD_1072, 0) == 0xBE26_ED00;
    assert UpdateByte(0xBE26_ED00, 0) == 0x00BE_26ED;
    assert UpdateByte(0x00BE_26ED, 0) == 0xDEBB_20E3;
    UpdateCons(0x00BE_26ED, 0, []);
    UpdateCons(0xBE26_ED00, 0, [0]);
    UpdateCons(0x2DFD_1072, 0, [0, 0]);
    UpdateCons(0xFFFF_FFFF, 0, [0, 0, 0]);
  }
}
