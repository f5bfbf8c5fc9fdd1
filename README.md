# HDHomeRun control packets in Dafny

A model of `packet.go`, the codec for the control packets HDHomeRun tuners exchange with
their clients. It covers both directions:

- The frame: a big-endian 16-bit packet type, and a big-endian 16-bit length of the tag
  section. Then the tags, each a kind byte, a tag length and the payload. Then a
  little-endian CRC-32 of every byte before it.
- The variable-width tag length, of which this version of the code implements only the
  one-byte form.

Modules, one per file:

- `errors.dfy` (`Errors`) has the error kinds the code returns, plus `Result` and `Option`:
  - `Truncated` is `io.ErrUnexpectedEOF`;
  - `InvalidChecksum` is `errInvalidChecksum`;
  - `LengthBuffer` is "must pass exactly two bytes";
  - `LargeTag` is "large tags not implemented".
- `bytes.dfy` (`Bytes`) has Go's `byte`, `uint16` and `uint32`, and the two `encoding/binary`
  field layouts the frame uses. They appear as functions and as in-place writes into an array.
- `crc32.dfy` (`Crc32`) has `crc32.ChecksumIEEE`. This is the CRC-32 of IEEE 802.3 clause
  3.2.9: reflected polynomial 0xEDB88320, register preset to all ones, result
  complemented. It is written bit by bit.
- `taglength.dfy` (`TagLength`) has `readTagLength`, a pure function, and `writeTagLength`, a
  method that writes into a two-byte window of the caller's array.
- `packet.dfy` (`Packets`) has the `Tag` datatype and the `Packet` class with its `Type` and
  `Tags` fields. Beside them are the specification functions:
  - `Marshalled` says what `MarshalBinary` returns.
  - `Unmarshalled` says how `UnmarshalBinary` ends. Its result is one of four outcomes,
    told apart by what has been assigned to the receiver (nothing, only `Type`, `Type`
    with `Tags` untouched, or both).

  The methods keep the source's imperative form and are proved against those functions:
  - `MarshalBinary` sizes the frame, fills one array front to back, then writes the
    checksum.
  - `UnmarshalBinary` assigns `Type` before the length check. It then resets `Tags` and
    appends to it tag by tag, so a failing tag loop leaves the tags read so far.
- `laws.dfy` (`PacketLaws`) holds what marshalling and unmarshalling promise about each other:
  - both round trips;
  - the frame layout;
  - which errors can escape;
  - what happens when the section outgrows the 16-bit length field.
- `vectors.dfy` (`PacketVectors`) works out the fixed frames of `packet_test.go` through the
  model, including their CRC values.

The frame functions take the checksum as a parameter (`Checksum = seq<byte> -> uint32`).
The methods instantiate it with `Crc32.ChecksumIEEE`, so their contracts are about the real
CRC. The laws hold for every checksum function, which is where they get their strength: a
round trip never depends on which checksum is used. The vectors split into two parts: a
layout lemma under a stated value of the checksum, and a lemma computing that value with
the CRC definition.

`packet.go` and its tests disagree about the tag-length codec:

- The tests at `packet_test.go` lines 66-93 and 186-205 expect a two-byte form for lengths
  from 128 up.
- `writeTagLength` and `readTagLength` refuse such lengths with "large tags not
  implemented".

The model follows the code. Packets with a tag of 128 payload bytes or more fail to marshal
with `LargeTag`, and so does the "large tags" test case (`PacketVectors.LargeTagVector`).

## Model

| member | source | states |
|---|---|---|
| Bytes.ReadWrittenLittleEndian32 | packet.go:67-81 | reading back a little-endian 32-bit field gives the value written, so the trailer holds the checksum computed |
| Bytes.WriteReadLittleEndian32 | packet.go:67-81 | writing back the value read from four bytes reproduces those bytes |
| Bytes.PutBigEndian16 | packet.go:50-51 | binary.BigEndian.PutUint16 replaces exactly two bytes of the buffer with the value, high byte first |
| Bytes.PutLittleEndian32 | packet.go:68 | binary.LittleEndian.PutUint32 replaces exactly the four bytes at the given index with the value, low byte first |
| Crc32.UpdateAppend | packet.go:67 | feeding a + b into the CRC register equals feeding a, then b |
| Crc32.ChecksumOfFourZeros | packet.go:67 | the CRC-32 of four zero bytes is 0x2144DF1C, i.e. the trailer 1c df 44 21 of the empty packet |
| TagLength.ReadTagLength | packet.go:151-161 | a successful read comes from a two-byte window, consumed one byte and gives a length below 128 |
| TagLength.WriteTagLength | packet.go:135-146 | returns and leaves in the window what WrittenTagLength says, and changes nothing outside the window |
| TagLength.WindowSizeChecked | packet.go:136-154 | both directions fail with the buffer error on any window that is not two bytes, whatever the length, and write nothing |
| TagLength.ShortFormRoundTrip | packet.go:140-158 | writing a length below 128 sets the first window byte to it, keeps the second, consumes one byte, and reading the window back gives the length and one consumed byte |
| TagLength.ReadThenWrite | packet.go:135-161 | every length that reads successfully is written back to the same window with the same consumed count |
| TagLength.LongFormRejected | packet.go:140-160 | writing a length of 128 or more fails with LargeTag and writes nothing; a read fails with LargeTag exactly when the first window byte has its high bit set |
| Packets.ShortSectionSize | packet.go:37-46 | for tags of at most 127 bytes the size computed by the counting loop equals the length of the encoded tags |
| Packets.Packet.constructor | packet.go:17-23 | the zero Packet: type 0 and no tags |
| Packets.Packet.MarshalBinary | packet.go:35-71 | returns Marshalled with crc32.ChecksumIEEE: LargeTag if some tag is 128 bytes or more, otherwise the header, the tags in order and the checksum trailer; the receiver is not changed |
| Packets.Packet.FillTags | packet.go:53-65 | the tag loop fails with LargeTag exactly when some tag is too long; otherwise it ends at index 4 + section size, having written the tags' encodings one after another after the header |
| Packets.Packet.PutTag | packet.go:55-64 | one pass writes the kind, the length byte and the payload after the given index, or fails with LargeTag for a payload of 128 bytes or more |
| Packets.Packet.UnmarshalBinary | packet.go:74-125 | returns the error Unmarshalled gives with crc32.ChecksumIEEE; Type is kept on a short frame or a bad checksum and assigned otherwise; Tags is assigned when the tag loop runs (including the tags read before an error) and left untouched otherwise |
| Packets.Packet.ReadTags | packet.go:99-122 | the tag loop starts from no tags and ends with the tags and the error WalkTags reads from index 4, appending in order |
| PacketLaws.WalkEncoded | packet.go:100-122 | the tag loop over the encoding of any short tags reads back exactly those tags, in order, without error |
| PacketLaws.WalkDecoded | packet.go:100-122 | whatever the tag loop reads has payloads of at most 127 bytes; it only stops with LargeTag or Truncated, never with the window error; when it ends without error the tags re-encode to exactly the section up to the checksum |
| PacketLaws.WalkHead | packet.go:101-121 | one pass of the tag loop: a high bit in the length byte stops it with LargeTag, a payload running into the checksum stops it with Truncated, otherwise it reads a fresh tag of exactly that many bytes and continues after it |
| PacketLaws.MarshalThenUnmarshal | packet.go:35-125 | for tags of at most 127 bytes whose section fits 16 bits, unmarshalling the marshalled frame succeeds, gives the type back, and with a non-empty section gives the tags back in order |
| PacketLaws.ReplacedTrailerRejected | packet.go:67-84 | a marshalled body followed by any four bytes other than its own checksum trailer is rejected with the checksum error, for every checksum function |
| PacketLaws.OversizedSectionUnreadable | packet.go:51-93 | a section of 65536 bytes or more is marshalled with the length truncated by uint16(count), and unmarshalling that frame fails with ErrUnexpectedEOF after assigning Type |
| PacketLaws.UnmarshalThenMarshal | packet.go:35-125 | every frame unmarshalled without error is exactly what marshalling the decoded packet produces |
| PacketLaws.Reassemble | packet.go:48-68 | a frame of at least eight bytes whose fields are a type, the exact section length, the encoding of some short tags and a matching checksum is the marshalled form of that packet |
| PacketLaws.UnmarshalErrorKinds | packet.go:74-125 | UnmarshalBinary only ever returns nil, ErrUnexpectedEOF, the checksum error or LargeTag, and the tags it assigns are all short |
| PacketLaws.MarshalledLayout | packet.go:48-68 | a marshalled frame is 8 + section size bytes long: type big-endian, section size mod 2^16 big-endian, the tags in order, then the little-endian checksum of every preceding byte |
| PacketVectors.EmptyFrame | packet_test.go:18-26 | the zero packet marshals to 00 00 00 00 followed by the checksum of those four bytes, and unmarshals with no tags |
| PacketVectors.EmptyPacketVector | packet_test.go:18-26 | the zero packet marshals to 00 00 00 00 1c df 44 21, and unmarshalling that frame succeeds without touching Tags |
| PacketVectors.ChecksumOfOneTagBody | packet_test.go:36-40 | the CRC-32 of 00 01 00 03 02 01 ff is 0x7318A997 |
| PacketVectors.OneTagFrame | packet_test.go:27-42 | the one-tag packet marshals to its body and a trailer of the checksum's value, and unmarshals back to the packet |
| PacketVectors.OneTagVector | packet_test.go:27-42 | the one-tag packet marshals to the byte vector of the test and unmarshals back to the packet |
| PacketVectors.ChecksumOfTwoTagBody | packet_test.go:58-63 | the CRC-32 of the two-tag body is 0xF264525D |
| PacketVectors.TwoTagFrame | packet_test.go:43-65 | the two-tag packet marshals to its body and a trailer of the checksum's value, and unmarshals back to the packet |
| PacketVectors.TwoTagVector | packet_test.go:43-65 | the two-tag packet marshals to the byte vector of the test and unmarshals back to the packet with its tags in order |
| PacketVectors.LargeTagVector | packet.go:140-145 | the packet of the "large tags" test case, with a 255-byte payload, does not marshal: LargeTag, whatever the checksum |
| PacketVectors.RejectedVectors | packet_test.go:127-140 | the empty and the 7-byte inputs fail with ErrUnexpectedEOF, and eight zero bytes fail the checksum |

## Left out

- The two-byte tag-length form. The tests at `packet_test.go` lines 66-93 and 186-205 expect
  it, but `packet.go` does not implement it (see its TODO at line 130). The model
  follows the code, and those test cases are modelled as the error the code gives.
- The four fuzz inputs of `packet_test.go` lines 141-160. Which error each gives depends on
  the CRC-32 of those inputs, which is not worked out; `Unmarshalled` covers them, but no
  lemma states their outcome.
- `errTagLengthBuffer`, which `packet_test.go` names but `packet.go` does not define. The
  window error is the `LengthBuffer` kind.
- Go error identity (`errors.New` values compared by pointer) and the error messages. Errors
  are kinds.
- The difference between a nil and an empty slice, which a Dafny sequence cannot express. It
  matters for `Tags`, which the zero-length path leaves as it was. It also matters for
  `Tag.Data`: line 117 of `packet.go` always makes a fresh non-nil slice, so a tag with nil
  `Data` decodes to an empty one.
- The benchmarks and the test harness (`go-cmp`, `reflect.DeepEqual`).
- Overflow of Go's `int` in the size computation, which would need a section of 2^31 or 2^63
  bytes, depending on the width of `int`.
  Sizes are unbounded integers.
- Aliasing between the caller's buffer and the decoded payloads. Payloads are sequence values,
  so each is a copy, as `copy` into a fresh slice makes it in the source.
- The table-driven and hardware-accelerated CRC-32 implementations of Go's `hash/crc32`. The
  checksum is the bitwise definition, and only its values on the test vectors are worked out.
- Detection of corrupted bytes by the CRC itself, such as every single-bit error in the body
  being caught. That depends on the internals of CRC-32, and the frame laws are stated for any
  checksum function. Only the trailer half is proved: `PacketLaws.ReplacedTrailerRejected`
  shows that any trailer other than the frame's own is rejected.
