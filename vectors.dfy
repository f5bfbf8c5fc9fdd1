/** The fixed frames of packet_test.go, worked out through the model. */
module PacketVectors {
  import opened Errors
  import opened Bytes
  import opened Crc32
  import opened TagLength
  import opened Packets
  import opened PacketLaws

  /** The register after the one-tag header 00 01 00 03. */
  lemma OneTagHeaderRegister()
    ensures Update(0xFFFF_FFFF, [0x00, 0x01, 0x00, 0x03]) == 0x4670_1B6E
  {
    UpdateByteShifts(0xFFFF_FFFF, 0x00);
    assert UpdateByte(0xFFFF_FFFF, 0x00) == 0x2DFD_1072;
    UpdateByteShifts(0x2DFD_1072, 0x01);
    assert UpdateByte(0x2DFD_1072, 0x01) == 0xC921_DD96;
    UpdateByteShifts(0xC921_DD96, 0x00);
    assert UpdateByte(0xC921_DD96, 0x00) == 0x19A5_17AC;
    UpdateByteShifts(0x19A5_17AC, 0x03);
    assert UpdateByte(0x19A5_17AC, 0x03) == 0x4670_1B6E;
    UpdateCons(0x19A5_17AC, 0x03, []);
    UpdateCons(0xC921_DD96, 0x00, [0x03]);
    UpdateCons(0x2DFD_1072, 0x01, [0x00, 0x03]);
    UpdateCons(0xFFFF_FFFF, 0x00, [0x01, 0x00, 0x03]);
  }

  /** The register after the one-tag section 02 01 ff. */
  lemma OneTagSectionRegister()
    ensures Update(0x4670_1B6E, [0x02, 0x01, 0xFF]) == 0x8CE7_5668
  {
    UpdateByteShifts(0x4670_1B6E, 0x02);
    assert UpdateByte(0x4670_1B6E, 0x02) == 0x4442_5D68;
    UpdateByteShifts(0x4442_5D68, 0x01);
    assert UpdateByte(0x4442_5D68, 0x01) == 0x342A_9BA1;
    UpdateByteShifts(0x342A_9BA1, 0xFF);
    assert UpdateByte(0x342A_9BA1, 0xFF) == 0x8CE7_5668;
    UpdateCons(0x342A_9BA1, 0xFF, []);
    UpdateCons(0x4442_5D68, 0x01, [0xFF]);
    UpdateCons(0x4670_1B6E, 0x02, [0x01, 0xFF]);
  }

  /** The check value of the one-tag body 00 01 00 03 02 01 ff. */
  lemma ChecksumOfOneTagBody()
    ensures ChecksumIEEE([0x00, 0x01, 0x00, 0x03, 0x02, 0x01, 0xFF]) == 0x7318_A997
  {
    assert [0x00, 0x01, 0x00, 0x03] + [0x02, 0x01, 0xFF] == [0x00, 0x01, 0x00, 0x03, 0x02, 0x01, 0xFF];
    OneTagHeaderRegister();
    OneTagSectionRegister();
    UpdateAppend(0xFFFF_FFFF, [0x00, 0x01, 0x00, 0x03], [0x02, 0x01, 0xFF]);
    assert RegisterBytes(0x7318_A997) == [0x97, 0xA9, 0x18, 0x73];
  }

  /** The register after the two-tag header 00 02 00 08. */
  lemma TwoTagHeaderRegister()
    ensures Update(0xFFFF_FFFF, [0x00, 0x02, 0x00, 0x08]) == 0xD3E4_7CBF
  {
    UpdateByteShifts(0xFFFF_FFFF, 0x00);
    assert UpdateByte(0xFFFF_FFFF, 0x00) == 0x2DFD_1072;
    UpdateByteShifts(0x2DFD_1072, 0x02);
    assert UpdateByte(0x2DFD_1072, 0x02) == 0x5028_8C2C;
    UpdateByteShifts(0x5028_8C2C, 0x00);
    assert UpdateByte(0x5028_8C2C, 0x00) == 0x3288_446F;
    UpdateByteShifts(0x3288_446F, 0x08);
    assert UpdateByte(0x3288_446F, 0x08) == 0xD3E4_7CBF;
    UpdateCons(0x3288_446F, 0x08, []);
    UpdateCons(0x5028_8C2C, 0x00, [0x08]);
    UpdateCons(0x2DFD_1072, 0x02, [0x00, 0x08]);
    UpdateCons(0xFFFF_FFFF, 0x00, [0x02, 0x00, 0x08]);
  }

  /** The register after the first tag and the second kind, 03 01 ff 04. */
  lemma TwoTagFirstRegister()
    ensures Update(0xD3E4_7CBF, [0x03, 0x01, 0xFF, 0x04]) == 0xBA0C_86CC
  {
    UpdateByteShifts(0xD3E4_7CBF, 0x03);
    assert UpdateByte(0xD3E4_7CBF, 0x03) == 0xC204_1BDB;
    UpdateByteShifts(0xC204_1BDB, 0x01);
    assert UpdateByte(0xC204_1BDB, 0x01) == 0x66C4_3FD1;
    UpdateByteShifts(0x66C4_3FD1, 0xFF);
    assert UpdateByte(0x66C4_3FD1, 0xFF) == 0xDCB0_C9F0;
    UpdateByteShifts(0xDCB0_C9F0, 0x04);
    assert UpdateByte(0xDCB0_C9F0, 0x04) == 0xBA0C_86CC;
    UpdateCons(0xDCB0_C9F0, 0x04, []);
    UpdateCons(0x66C4_3FD1, 0xFF, [0x04]);
    UpdateCons(0xC204_1BDB, 0x01, [0xFF, 0x04]);
    UpdateCons(0xD3E4_7CBF, 0x03, [0x01, 0xFF, 0x04]);
  }

  /** The register after the rest of the second tag, 03 aa bb cc. */
  lemma TwoTagRestRegister()
    ensures Update(0xBA0C_86CC, [0x03, 0xAA, 0xBB, 0xCC]) == 0x0D9B_ADA2
  {
    UpdateByteShifts(0xBA0C_86CC, 0x03);
    assert UpdateByte(0xBA0C_86CC, 0x03) == 0x0B61_D3A7;
    UpdateByteShifts(0x0B61_D3A7, 0xAA);
    assert UpdateByte(0x0B61_D3A7, 0xAA) == 0x7EBA_1D6E;
    UpdateByteShifts(0x7EBA_1D6E, 0xBB);
    assert UpdateByte(0x7EBA_1D6E, 0xBB) == 0xF6C7_9C46;
    UpdateByteShifts(0xF6C7_9C46, 0xCC);
    assert UpdateByte(0xF6C7_9C46, 0xCC) == 0x0D9B_ADA2;
    UpdateCons(0xF6C7_9C46, 0xCC, []);
    UpdateCons(0x7EBA_1D6E, 0xBB, [0xCC]);
    UpdateCons(0x0B61_D3A7, 0xAA, [0xBB, 0xCC]);
    UpdateCons(0xBA0C_86CC, 0x03, [0xAA, 0xBB, 0xCC]);
  }

  /** The check value of the two-tag body 00 02 00 08 03 01 ff 04 03 aa bb cc. */
  lemma TwoTagBodyRegister()
    ensures Update(0xFFFF_FFFF, [0x00, 0x02, 0x00, 0x08, 0x03, 0x01, 0xFF, 0x04, 0x03, 0xAA, 0xBB, 0xCC])
      == 0x0D9B_ADA2
  {
    assert [0x00, 0x02, 0x00, 0x08] + [0x03, 0x01, 0xFF, 0x04] == [0x00, 0x02, 0x00, 0x08, 0x03, 0x01, 0xFF, 0x04];
    assert [0x00, 0x02, 0x00, 0x08, 0x03, 0x01, 0xFF, 0x04] + [0x03, 0xAA, 0xBB, 0xCC] == [0x00, 0x02, 0x00, 0x08, 0x03, 0x01, 0xFF, 0x04, 0x03, 0xAA, 0xBB, 0xCC];
    TwoTagHeaderRegister();
    TwoTagFirstRegister();
    TwoTagRestRegister();
    UpdateAppend(0xFFFF_FFFF, [0x00, 0x02, 0x00, 0x08], [0x03, 0x01, 0xFF, 0x04]);
    UpdateAppend(0xFFFF_FFFF, [0x00, 0x02, 0x00, 0x08, 0x03, 0x01, 0xFF, 0x04], [0x03, 0xAA, 0xBB, 0xCC]);
  }

  lemma ChecksumOfTwoTagBody()
    ensures ChecksumIEEE([0x00, 0x02, 0x00, 0x08, 0x03, 0x01, 0xFF, 0x04, 0x03, 0xAA, 0xBB, 0xCC])
      == 0xF264_525D
  {
    TwoTagBodyRegister();
    ChecksumOfRegister([0x00, 0x02, 0x00, 0x08, 0x03, 0x01, 0xFF, 0x04, 0x03, 0xAA, 0xBB, 0xCC], 0x0D9B_ADA2);
    assert RegisterBytes(0xF264_525D) == [0x5D, 0x52, 0x64, 0xF2];
  }

  /** The "empty" case, under any checksum with the value crc32.ChecksumIEEE gives its body. */
  lemma EmptyFrame(sum: Checksum)
    requires sum([0x00, 0x00, 0x00, 0x00]) == 0x2144_DF1C
    ensures Marshalled(0, [], sum) == Ok([0x00, 0x00, 0x00, 0x00, 0x1C, 0xDF, 0x44, 0x21])
    ensures Unmarshalled([0x00, 0x00, 0x00, 0x00, 0x1C, 0xDF, 0x44, 0x21], sum) == NoTags(0)
  {
    var body := [0x00, 0x00, 0x00, 0x00];
    assert Header(0, []) + EncodeTags([]) == body;
    assert LittleEndian32(0x2144_DF1C) == [0x1C, 0xDF, 0x44, 0x21];
    assert body + [0x1C, 0xDF, 0x44, 0x21] == [0x00, 0x00, 0x00, 0x00, 0x1C, 0xDF, 0x44, 0x21];
    MarshalThenUnmarshal(0, [], sum);
  }

  /** The "empty" case: the zero packet is eight bytes and decodes with no tags. */
  lemma EmptyPacketVector()
    ensures Marshalled(0, [], ChecksumIEEE) == Ok([0x00, 0x00, 0x00, 0x00, 0x1C, 0xDF, 0x44, 0x21])
    ensures Unmarshalled([0x00, 0x00, 0x00, 0x00, 0x1C, 0xDF, 0x44, 0x21], ChecksumIEEE) == NoTags(0)
  {
    ChecksumOfFourZeros();
    EmptyFrame(ChecksumIEEE);
  }

  /** The "one tag" case, under any checksum with the value crc32.ChecksumIEEE gives its body. */
  lemma OneTagFrame(sum: Checksum)
    requires sum([0x00, 0x01, 0x00, 0x03, 0x02, 0x01, 0xFF]) == 0x7318_A997
    ensures Marshalled(1, [Tag(2, [0xFF])], sum)
      == Ok([0x00, 0x01, 0x00, 0x03, 0x02, 0x01, 0xFF, 0x97, 0xA9, 0x18, 0x73])
    ensures Unmarshalled([0x00, 0x01, 0x00, 0x03, 0x02, 0x01, 0xFF, 0x97, 0xA9, 0x18, 0x73], sum)
      == Walked(1, [Tag(2, [0xFF])], None)
  {
    var tags := [Tag(2, [0xFF])];
    assert AllShort(tags);
    assert SectionSize(tags) == 3;
    assert EncodeTags(tags) == [0x02, 0x01, 0xFF];
    var body := [0x00, 0x01, 0x00, 0x03, 0x02, 0x01, 0xFF];
    assert Header(1, tags) + EncodeTags(tags) == body;
    assert LittleEndian32(0x7318_A997) == [0x97, 0xA9, 0x18, 0x73];
    assert body + [0x97, 0xA9, 0x18, 0x73] == [0x00, 0x01, 0x00, 0x03, 0x02, 0x01, 0xFF, 0x97, 0xA9, 0x18, 0x73];
    MarshalThenUnmarshal(1, tags, sum);
  }

  /** The "one tag" case. */
  lemma OneTagVector()
    ensures Marshalled(1, [Tag(2, [0xFF])], ChecksumIEEE)
      == Ok([0x00, 0x01, 0x00, 0x03, 0x02, 0x01, 0xFF, 0x97, 0xA9, 0x18, 0x73])
    ensures Unmarshalled([0x00, 0x01, 0x00, 0x03, 0x02, 0x01, 0xFF, 0x97, 0xA9, 0x18, 0x73], ChecksumIEEE)
      == Walked(1, [Tag(2, [0xFF])], None)
  {
    ChecksumOfOneTagBody();
    OneTagFrame(ChecksumIEEE);
  }

  /** The "two tags" case, under any checksum with the value crc32.ChecksumIEEE gives its body. */
  lemma TwoTagFrame(sum: Checksum)
    requires sum([0x00, 0x02, 0x00, 0x08, 0x03, 0x01, 0xFF, 0x04, 0x03, 0xAA, 0xBB, 0xCC]) == 0xF264_525D
    ensures Marshalled(2, [Tag(3, [0xFF]), Tag(4, [0xAA, 0xBB, 0xCC])], sum)
      == Ok([0x00, 0x02, 0x00, 0x08, 0x03, 0x01, 0xFF, 0x04, 0x03, 0xAA, 0xBB, 0xCC, 0x5D, 0x52, 0x64, 0xF2])
    ensures Unmarshalled([0x00, 0x02, 0x00, 0x08, 0x03, 0x01, 0xFF, 0x04, 0x03, 0xAA, 0xBB, 0xCC, 0x5D, 0x52, 0x64, 0xF2], sum)
      == Walked(2, [Tag(3, [0xFF]), Tag(4, [0xAA, 0xBB, 0xCC])], None)
  {
    var tags := [Tag(3, [0xFF]), Tag(4, [0xAA, 0xBB, 0xCC])];
    assert AllShort(tags);
    assert tags[1..] == [Tag(4, [0xAA, 0xBB, 0xCC])] && tags[1..][1..] == [];
    assert SectionSize(tags) == 8;
    assert EncodeTags(tags) == [0x03, 0x01, 0xFF, 0x04, 0x03, 0xAA, 0xBB, 0xCC];
    var body := [0x00, 0x02, 0x00, 0x08, 0x03, 0x01, 0xFF, 0x04, 0x03, 0xAA, 0xBB, 0xCC];
    assert Header(2, tags) + EncodeTags(tags) == body;
    assert LittleEndian32(0xF264_525D) == [0x5D, 0x52, 0x64, 0xF2];
    assert body + [0x5D, 0x52, 0x64, 0xF2]
      == [0x00, 0x02, 0x00, 0x08, 0x03, 0x01, 0xFF, 0x04, 0x03, 0xAA, 0xBB, 0xCC, 0x5D, 0x52, 0x64, 0xF2];
    MarshalThenUnmarshal(2, tags, sum);
  }

  /** The "two tags" case. */
  lemma TwoTagVector()
    ensures Marshalled(2, [Tag(3, [0xFF]), Tag(4, [0xAA, 0xBB, 0xCC])], ChecksumIEEE)
      == Ok([0x00, 0x02, 0x00, 0x08, 0x03, 0x01, 0xFF, 0x04, 0x03, 0xAA, 0xBB, 0xCC, 0x5D, 0x52, 0x64, 0xF2])
    ensures Unmarshalled([0x00, 0x02, 0x00, 0x08, 0x03, 0x01, 0xFF, 0x04, 0x03, 0xAA, 0xBB, 0xCC, 0x5D, 0x52, 0x64, 0xF2], ChecksumIEEE)
      == Walked(2, [Tag(3, [0xFF]), Tag(4, [0xAA, 0xBB, 0xCC])], None)
  {
    ChecksumOfTwoTagBody();
    TwoTagFrame(ChecksumIEEE);
  }

  /** The "large tags" case: this version of writeTagLength refuses a 255-byte payload, so
      the packet the case describes does not marshal, whatever the checksum. */
  lemma LargeTagVector(sum: Checksum)
    ensures Marshalled(3, [Tag(4, seq(255, _ => 0xFF))], sum) == Err(LargeTag)
  {
    var tags := [Tag(4, seq(255, _ => 0xFF))];
    assert |tags[0].data| == 255;
  }

  /** The "empty", "short" and "checksum" error cases. */
  lemma RejectedVectors()
    ensures Unmarshalled([], ChecksumIEEE) == Rejected(Truncated)
    ensures Unmarshalled([0, 0, 0, 0, 0, 0, 0], ChecksumIEEE) == Rejected(Truncated)
    ensures Unmarshalled([0, 0, 0, 0, 0, 0, 0, 0], ChecksumIEEE) == Rejected(InvalidChecksum)
  {
    var b: seq<byte> := [0, 0, 0, 0, 0, 0, 0, 0];
    assert b[..4] == [0, 0, 0, 0] && b[4..] == [0, 0, 0, 0];
    ChecksumOfFourZeros();
  }
}
