/** What the marshalling and unmarshalling functions of Packets promise about each other. */
module PacketLaws {
  import opened Errors
  import opened Bytes
  import opened TagLength
  import opened Packets

  /** The tag loop reads back exactly the tags whose encoding fills the section. */
  lemma {:induction false} WalkEncoded(b: seq<byte>, i: nat, tags: seq<Tag>)
    requires AllShort(tags)
    requires i + |EncodeTags(tags)| + 4 == |b|
    requires b[i..|b| - 4] == EncodeTags(tags)
    ensures WalkTags(b, i) == Walk(tags, None)
    decreases |tags|
  {
    if tags != [] {
      var t, n := tags[0], |tags[0].data|;
      assert AllShort(tags[1..]);
      assert EncodeTags(tags) == EncodeTag(t) + EncodeTags(tags[1..]);
      SplitSection(b, i, t, EncodeTags(tags[1..]));
      var k := i + 2 + n;
      assert Tag(b[i], b[i + 2..k]) == t;
      WalkHead(b, i);
      WalkEncoded(b, k, tags[1..]);
      assert [t] + tags[1..] == tags;
    }
  }

  /** The fields of the first tag of an encoded section. */
  lemma SplitSection(b: seq<byte>, i: nat, t: Tag, rest: seq<byte>)
    requires |t.data| < 128
    requires i + |EncodeTag(t)| + |rest| + 4 == |b|
    requires b[i..|b| - 4] == EncodeTag(t) + rest
    ensures b[i] == t.tagType && b[i + 1] == |t.data|
    ensures b[i + 2..i + 2 + |t.data|] == t.data
    ensures b[i + 2 + |t.data|..|b| - 4] == rest
  {
    var s := b[i..|b| - 4];
    var n := |t.data|;
    assert s[0] == b[i] && s[1] == b[i + 1];
    assert s[2..2 + n] == t.data && s[2 + n..] == rest;
    forall j | 0 <= j < n
      ensures b[i + 2 + j] == t.data[j]
    {
      assert s[2 + j] == t.data[j];
    }
    forall j | 0 <= j < |rest|
      ensures b[i + 2 + n + j] == rest[j]
    {
      assert s[2 + n + j] == rest[j];
    }
  }

  /** Whatever the tag loop reads has one-byte lengths, it never meets a window of the wrong
      size, and when it stops without error the tags it read re-encode to the section. */
  lemma {:induction false} WalkDecoded(b: seq<byte>, i: nat)
    requires i <= |b| - 4
    ensures AllShort(WalkTags(b, i).tags)
    ensures WalkTags(b, i).error in {None, Some(LargeTag), Some(Truncated)}
    ensures WalkTags(b, i).error == None ==> EncodeTags(WalkTags(b, i).tags) == b[i..|b| - 4]
    decreases |b| - i
  {
    if i < |b| - 4 {
      WalkHead(b, i);
      var tlen := b[i + 1];
      var k := i + 2 + tlen;
      if !HighBitSet(tlen) && k <= |b| - 4 {
        WalkDecoded(b, k);
        var t := Tag(b[i], b[i + 2..k]);
        var rest := WalkTags(b, k);
        ConsShort(t, rest.tags);
        assert WalkTags(b, i).tags == [t] + rest.tags;
        if rest.error == None {
          SliceAfterHead(b, i, k);
          assert EncodeTag(t) == [b[i], b[i + 1]] + b[i + 2..k];
        }
      }
    }
  }

  /** One pass of the tag loop at i, by the length byte b[i+1]: a set high bit stops it with
      LargeTag, a payload running into the checksum stops it with Truncated, and otherwise it
      reads one tag and carries on after the payload. */
  lemma WalkHead(b: seq<byte>, i: nat)
    requires i < |b| - 4
    ensures HighBitSet(b[i + 1]) ==> WalkTags(b, i) == Walk([], Some(LargeTag))
    ensures !HighBitSet(b[i + 1]) && i + 2 + b[i + 1] > |b| - 4 ==> WalkTags(b, i) == Walk([], Some(Truncated))
    ensures !HighBitSet(b[i + 1]) && i + 2 + b[i + 1] <= |b| - 4 ==>
      var k := i + 2 + b[i + 1];
      WalkTags(b, i) == Walk([Tag(b[i], b[i + 2..k])] + WalkTags(b, k).tags, WalkTags(b, k).error)
  {
    var w := b[i + 1..i + 3];
    assert w[0] == b[i + 1];
  }

  lemma SliceAfterHead(b: seq<byte>, i: nat, k: nat)
    requires i + 2 <= k <= |b| - 4
    ensures b[i..|b| - 4] == [b[i], b[i + 1]] + b[i + 2..k] + b[k..|b| - 4]
  {
  }

  /** Putting a short tag in front of short tags. */
  lemma ConsShort(t: Tag, rest: seq<Tag>)
    requires |t.data| < 128 && AllShort(rest)
    ensures AllShort([t] + rest)
    ensures EncodeTags([t] + rest) == EncodeTag(t) + EncodeTags(rest)
  {
    var ts := [t] + rest;
    assert AllShort([t]);
    AllShortAppend([t], rest);
    assert ts[0] == t && ts[1..] == rest;
  }

  /** Marshalling then unmarshalling gives the packet back. The type always survives; the tags
      survive as long as the section fits the 16-bit length field. */
  lemma MarshalThenUnmarshal(packetType: uint16, tags: seq<Tag>, sum: Checksum)
    requires AllShort(tags) && SectionSize(tags) < 0x1_0000
    ensures Marshalled(packetType, tags, sum).Ok?
    ensures Unmarshalled(Marshalled(packetType, tags, sum).value, sum)
      == if tags == [] then NoTags(packetType) else Walked(packetType, tags, None)
  {
    var b := Frame(packetType, tags, sum);
    assert Marshalled(packetType, tags, sum).value == b;
    UnmarshalledFrame(b, packetType, sum);
    if tags == [] {
      assert |b| == 8;
    } else {
      WalkEncoded(b, 4, tags);
    }
  }

  /** A frame with the right length field and checksum passes every check before the tag loop. */
  lemma UnmarshalledFrame(b: seq<byte>, packetType: uint16, sum: Checksum)
    requires |b| >= 8 && ReadBigEndian16(b[0..2]) == packetType
    requires ReadBigEndian16(b[2..4]) == |b| - 8
    requires ReadLittleEndian32(b[|b| - 4..]) == sum(b[..|b| - 4])
    ensures Unmarshalled(b, sum)
      == if |b| == 8 then NoTags(packetType) else Walked(packetType, WalkTags(b, 4).tags, WalkTags(b, 4).error)
  {
  }

  /** The other side of uint16(count): a section of 65536 bytes or more is marshalled with a
      wrapped length field, and UnmarshalBinary rejects the result after assigning the type. */
  lemma OversizedSectionUnreadable(packetType: uint16, tags: seq<Tag>, sum: Checksum)
    requires AllShort(tags) && SectionSize(tags) >= 0x1_0000
    ensures Marshalled(packetType, tags, sum).Ok?
    ensures Unmarshalled(Marshalled(packetType, tags, sum).value, sum) == LengthMismatch(packetType)
  {
    var b := Frame(packetType, tags, sum);
    assert ReadBigEndian16(b[2..4]) == SectionSize(tags) % 0x1_0000 < |b| - 8;
  }

  /** The trailer is what protects the frame: a marshalled body followed by any four bytes other
      than its own trailer fails the checksum check, whatever the checksum function. */
  lemma ReplacedTrailerRejected(packetType: uint16, tags: seq<Tag>, sum: Checksum, t: seq<byte>)
    requires AllShort(tags) && |t| == 4
    requires t != LittleEndian32(sum(Header(packetType, tags) + EncodeTags(tags)))
    ensures Unmarshalled(Header(packetType, tags) + EncodeTags(tags) + t, sum) == Rejected(InvalidChecksum)
  {
    var body := Header(packetType, tags) + EncodeTags(tags);
    var b := body + t;
    assert b[..|b| - 4] == body && b[|b| - 4..] == t;
    WriteReadLittleEndian32(t);
  }

  /** Unmarshalling then marshalling gives the bytes back: every frame UnmarshalBinary accepts
      is the one MarshalBinary produces for the packet it decodes (an empty section marshals
      back from no tags). */
  lemma UnmarshalThenMarshal(b: seq<byte>, sum: Checksum)
    requires Unmarshalled(b, sum).Returned() == None
    ensures Unmarshalled(b, sum).NoTags? || Unmarshalled(b, sum).Walked?
    ensures Marshalled(Unmarshalled(b, sum).packetType, if Unmarshalled(b, sum).Walked? then Unmarshalled(b, sum).tags else [], sum)
      == Ok(b)
  {
    var packetType := ReadBigEndian16(b[0..2]);
    var length := ReadBigEndian16(b[2..4]);
    if length != 0 {
      WalkDecoded(b, 4);
      Reassemble(b, packetType, WalkTags(b, 4).tags, sum);
    } else {
      assert b[4..|b| - 4] == [];
      Reassemble(b, packetType, [], sum);
    }
  }

  /** A frame whose fields agree with a packet of short tags is that packet's marshalled form. */
  lemma Reassemble(b: seq<byte>, packetType: uint16, tags: seq<Tag>, sum: Checksum)
    requires |b| >= 8 && AllShort(tags)
    requires ReadBigEndian16(b[0..2]) == packetType
    requires ReadBigEndian16(b[2..4]) == |b| - 8
    requires b[4..|b| - 4] == EncodeTags(tags)
    requires ReadLittleEndian32(b[|b| - 4..]) == sum(b[..|b| - 4])
    ensures Marshalled(packetType, tags, sum) == Ok(b)
  {
    ShortSectionSize(tags);
    WriteReadBigEndian16(b[0..2]);
    WriteReadBigEndian16(b[2..4]);
    WriteReadLittleEndian32(b[|b| - 4..]);
    var body := Header(packetType, tags) + EncodeTags(tags);
    assert body == b[0..2] + b[2..4] + b[4..|b| - 4];
    assert b[..|b| - 4] == b[0..2] + b[2..4] + b[4..|b| - 4];
    assert b == b[..|b| - 4] + b[|b| - 4..];
  }

  /** Every error UnmarshalBinary returns is one of truncation, a bad checksum or an
      unsupported long tag length; the window-size error of readTagLength never escapes. */
  lemma UnmarshalErrorKinds(b: seq<byte>, sum: Checksum)
    ensures Unmarshalled(b, sum).Returned() in {None, Some(Truncated), Some(InvalidChecksum), Some(LargeTag)}
    ensures Unmarshalled(b, sum).Walked? ==> AllShort(Unmarshalled(b, sum).tags)
  {
    if |b| >= 8 {
      WalkDecoded(b, 4);
    }
  }

  /** The layout of a marshalled frame, field by field. */
  lemma MarshalledLayout(packetType: uint16, tags: seq<Tag>, sum: Checksum)
    requires AllShort(tags)
    ensures Marshalled(packetType, tags, sum).Ok?
    ensures var b := Marshalled(packetType, tags, sum).value;
      && |b| == 8 + SectionSize(tags)
      && ReadBigEndian16(b[0..2]) == packetType
      && ReadBigEndian16(b[2..4]) == SectionSize(tags) % 0x1_0000
      && b[4..|b| - 4] == EncodeTags(tags)
      && ReadLittleEndian32(b[|b| - 4..]) == sum(b[..|b| - 4])
  {
    var b := Frame(packetType, tags, sum);
  }

  /** The marshalled frame of short tags, with its fields read back. */
  lemma Frame(packetType: uint16, tags: seq<Tag>, sum: Checksum) returns (b: seq<byte>)
    requires AllShort(tags)
    ensures Marshalled(packetType, tags, sum) == Ok(b)
    ensures |b| == 8 + SectionSize(tags)
    ensures ReadBigEndian16(b[0..2]) == packetType
    ensures ReadBigEndian16(b[2..4]) == SectionSize(tags) % 0x1_0000
    ensures tags != [] ==> |b| > 8
    ensures |EncodeTags(tags)| == SectionSize(tags)
    ensures b[4..|b| - 4] == EncodeTags(tags)
    ensures ReadLittleEndian32(b[|b| - 4..]) == sum(b[..|b| - 4])
  {
    var body := Header(packetType, tags) + EncodeTags(tags);
    var chk := sum(body);
    b := body + LittleEndian32(chk);
    ShortSectionSize(tags);
    assert b[..|b| - 4] == body;
    assert b[|b| - 4..] == LittleEndian32(chk);
    ReadWrittenLittleEndian32(chk);
    assert b[0..2] == BigEndian16(packetType);
    assert b[2..4] == BigEndian16(SectionSize(tags) % 0x1_0000);
    ReadWrittenBigEndian16(packetType);
    ReadWrittenBigEndian16(SectionSize(tags) % 0x1_0000);
  }
}
