/** HDHomeRun control packets: a big-endian 16-bit type, a big-endian 16-bit length of the
    tag section, the tags (kind byte, tag length, payload) and a trailing little-endian CRC-32
    of everything before it. */
module Packets {
  import opened Errors
  import opened Bytes
  import opened Crc32
  import opened TagLength

  /** An attribute carried by a packet: Go's Tag{Type, Data}. */
  datatype Tag = Tag(tagType: byte, data: seq<byte>)

  /** The width MarshalBinary reserves for a tag's length field. */
  function LengthFieldWidth(t: Tag): (w: nat) {
    if |t.data| > 127 then 2 else 1
  }

  function TagSize(t: Tag): (n: nat) {
    1 + LengthFieldWidth(t) + |t.data|
  }

  /** The size MarshalBinary computes for the tag section before allocating. */
  function SectionSize(tags: seq<Tag>): (n: nat)
    decreases |tags|
  {
    if tags == [] then 0 else TagSize(tags[0]) + SectionSize(tags[1..])
  }

  /** Every tag length fits the one-byte form. */
  predicate AllShort(tags: seq<Tag>) {
    forall i :: 0 <= i < |tags| ==> |tags[i].data| < 128
  }

  function EncodeTag(t: Tag): (r: seq<byte>)
    requires |t.data| < 128
  {
    [t.tagType, |t.data|] + t.data
  }

  function EncodeTags(tags: seq<Tag>): (r: seq<byte>)
    requires AllShort(tags)
    decreases |tags|
  {
    if tags == [] then [] else EncodeTag(tags[0]) + EncodeTags(tags[1..])
  }

  /** Type, then the section size truncated to 16 bits as uint16(count) does. */
  function Header(packetType: uint16, tags: seq<Tag>): (r: seq<byte>) {
    BigEndian16(packetType) + BigEndian16(SectionSize(tags) % 0x1_0000)
  }

  /** The checksum a frame carries over the bytes before its trailer. The frame functions
      take it as a parameter; MarshalBinary and UnmarshalBinary use crc32.ChecksumIEEE. */
  type Checksum = seq<byte> -> uint32

  /** The body followed by its checksum, least significant byte first. */
  function Framed(body: seq<byte>, sum: Checksum): (r: seq<byte>) {
    body + LittleEndian32(sum(body))
  }

  /** What MarshalBinary returns for a packet, when the trailer is computed by sum. */
  function Marshalled(packetType: uint16, tags: seq<Tag>, sum: Checksum): (r: Result<seq<byte>>) {
    if !AllShort(tags) then Err(LargeTag)
    else Ok(Framed(Header(packetType, tags) + EncodeTags(tags), sum))
  }

  /** The tags UnmarshalBinary has appended when its loop stops, and the error it stops with. */
  datatype Walk = Walk(tags: seq<Tag>, error: Option<Error>)

  /** UnmarshalBinary's tag loop, from index i up to the checksum. */
  function WalkTags(b: seq<byte>, i: nat): (w: Walk)
    requires i <= |b| - 4
    decreases |b| - i
  {
    if i >= |b| - 4 then Walk([], None)
    else
      match ReadTagLength(b[i + 1..i + 3])
      case Err(e) => Walk([], Some(e))
      case Ok((tlen, consumed)) =>
        var k := i + 1 + consumed;
        if |b| - k - 4 < tlen then Walk([], Some(Truncated))
        else
          var rest := WalkTags(b, k + tlen);
          Walk([Tag(b[i], b[k..k + tlen])] + rest.tags, rest.error)
  }

  /** The four ways UnmarshalBinary can end, by what it has assigned to the receiver. */
  datatype Outcome =
    | Rejected(error: Error)            // nothing assigned
    | LengthMismatch(packetType: uint16) // Type assigned, then io.ErrUnexpectedEOF
    | NoTags(packetType: uint16)         // Type assigned, Tags left as they were, success
    | Walked(packetType: uint16, tags: seq<Tag>, walkError: Option<Error>) // Type and Tags assigned
  {
    /** The error UnmarshalBinary returns (None is Go's nil). */
    function Returned(): (e: Option<Error>) {
      match this
      case Rejected(e) => Some(e)
      case LengthMismatch(_) => Some(Truncated)
      case NoTags(_) => None
      case Walked(_, _, e) => e
    }
  }

  /** How UnmarshalBinary ends on b, when the trailer is checked against sum. */
  function Unmarshalled(b: seq<byte>, sum: Checksum): (o: Outcome) {
    if |b| < 8 then Rejected(Truncated)
    else if ReadLittleEndian32(b[|b| - 4..]) != sum(b[..|b| - 4]) then Rejected(InvalidChecksum)
    else
      var packetType := ReadBigEndian16(b[0..2]);
      var length := ReadBigEndian16(b[2..4]);
      if length != |b| - 8 then LengthMismatch(packetType)
      else if length == 0 then NoTags(packetType)
      else
        var w := WalkTags(b, 4);
        Walked(packetType, w.tags, w.error)
  }

  /** A network packet used to communicate with HDHomeRun devices. */
  class Packet {
    var packetType: uint16
    var tags: seq<Tag>

    /** new(Packet): the zero value. */
    constructor ()
      ensures packetType == 0 && tags == []
    {
      packetType := 0;
      tags := [];
    }

    /** MarshalBinary: sizes the frame, fills one buffer front to back, then appends the checksum. */
    method MarshalBinary() returns (r: Result<seq<byte>>)
      ensures r == Marshalled(packetType, tags, ChecksumIEEE)
    {
      var pt, ts := packetType, tags;
      var count := 0;
      for k := 0 to |ts|
        invariant count == SectionSize(ts[..k])
      {
        var tlen := 1;
        if |ts[k].data| > 127 {
          tlen := 2;
        }
        SectionSizePrefix(ts, k);
        count := count + 1 + tlen + |ts[k].data|;
      }
      assert ts[..|ts|] == ts;

      var b := new byte[2 + 2 + count + 4];
      PutBigEndian16(b, 0, pt);
      PutBigEndian16(b, 2, count % 0x1_0000);
      assert b[..4] == Header(pt, ts);

      var n := FillTags(b, ts);
      if n.Err? {
        return Err(n.error);
      }
      ShortSectionSize(ts);
      assert b[..b.Length - 4] == Header(pt, ts) + EncodeTags(ts);
      ghost var body := b[..b.Length - 4];

      var chk := ChecksumIEEE(b[..b.Length - 4]);
      PutLittleEndian32(b, b.Length - 4, chk);
      assert b[..] == body + LittleEndian32(chk);
      return Ok(b[..]);
    }

    /** MarshalBinary's tag loop: the tags one after another from b[4], stopping at the first
        tag too long for the one-byte length form. */
    static method FillTags(b: array<byte>, ts: seq<Tag>) returns (r: Result<nat>)
      requires b.Length == 8 + SectionSize(ts)
      modifies b
      ensures r.Err? ==> r.error == LargeTag && !AllShort(ts)
      ensures r.Ok? ==> AllShort(ts) && r.value == 4 + SectionSize(ts)
      ensures r.Ok? ==> b[..r.value] == old(b[..4]) + EncodeTags(ts)
    {
      var i := 4;
      for k := 0 to |ts|
        invariant AllShort(ts[..k])
        invariant i == 4 + SectionSize(ts[..k]) <= 4 + SectionSize(ts)
        invariant b[..i] == old(b[..4]) + EncodeTags(ts[..k])
      {
        SectionSizePrefix(ts, k);
        var n := PutTag(b, i, ts[k]);
        if n.Err? {
          assert !AllShort(ts);
          return Err(n.error);
        }
        i := n.value;
        FillStep(old(b[..4]), ts, k);
      }
      assert ts[..|ts|] == ts;
      return Ok(i);
    }

    /** One pass of MarshalBinary's tag loop: the kind at b[i], the length into the
        two-byte window b[i+1..i+3], then the payload (Go's copy). */
    static method PutTag(b: array<byte>, i: nat, t: Tag) returns (r: Result<nat>)
      requires i + 3 <= b.Length
      requires |t.data| < 128 ==> i + 2 + |t.data| <= b.Length
      modifies b
      ensures r.Err? ==> r.error == LargeTag && |t.data| >= 128
      ensures r.Ok? ==> |t.data| < 128 && r.value == i + 2 + |t.data| && b[..r.value] == old(b[..i]) + EncodeTag(t)
    {
      b[i] := t.tagType;
      ghost var kindDone := b[..i + 1];
      assert kindDone == old(b[..i]) + [t.tagType];
      ghost var window := b[i + 1..i + 3];
      var n := WriteTagLength(|t.data|, b, i + 1, i + 3);
      if n.Err? {
        return n;
      }
      var j := i + 1 + n.value;
      assert b[..i + 1] == kindDone;
      assert b[i + 1] == |t.data| % 0x100 == |t.data|;
      assert b[..j] == b[..i + 1] + [b[i + 1]];
      forall m | 0 <= m < |t.data| {
        b[j + m] := t.data[m];
      }
      assert b[..j + |t.data|] == old(b[..i]) + [t.tagType, |t.data|] + t.data;
      return Ok(j + |t.data|);
    }

    /** UnmarshalBinary: the checks in order, then the tag loop, assigning the receiver as it goes. */
    method UnmarshalBinary(b: seq<byte>) returns (err: Option<Error>)
      modifies this
      ensures err == Unmarshalled(b, ChecksumIEEE).Returned()
      ensures packetType == if Unmarshalled(b, ChecksumIEEE).Rejected? then old(packetType) else Unmarshalled(b, ChecksumIEEE).packetType
      ensures tags == if Unmarshalled(b, ChecksumIEEE).Walked? then Unmarshalled(b, ChecksumIEEE).tags else old(tags)
    {
      if |b| < 8 {
        return Some(Truncated);
      }
      var want := ReadLittleEndian32(b[|b| - 4..]);
      var got := ChecksumIEEE(b[..|b| - 4]);
      if want != got {
        return Some(InvalidChecksum);
      }

      packetType := ReadBigEndian16(b[0..2]);
      var length := ReadBigEndian16(b[2..4]);
      if length != |b| - 8 {
        return Some(Truncated);
      }
      if length == 0 {
        return None;
      }

      ghost var w := WalkTags(b, 4);
      assert Unmarshalled(b, ChecksumIEEE) == Walked(packetType, w.tags, w.error);
      err := ReadTags(b);
    }

    /** UnmarshalBinary's tag loop: Tags starts empty and each tag read is appended to it, so
        on an error Tags holds the tags read before it. */
    method ReadTags(b: seq<byte>) returns (err: Option<Error>)
      requires |b| >= 8
      modifies this
      ensures tags == WalkTags(b, 4).tags && err == WalkTags(b, 4).error
      ensures packetType == old(packetType)
    {
      ghost var whole := WalkTags(b, 4);
      tags := [];
      var i := 4;
      while i < |b| - 4
        invariant 4 <= i <= |b| - 4
        invariant packetType == old(packetType)
        invariant whole == Walk(tags + WalkTags(b, i).tags, WalkTags(b, i).error)
        decreases |b| - i
      {
        ghost var start := i;
        var t := Tag(b[i], []);
        i := i + 1;

        var rl := ReadTagLength(b[i..i + 2]);
        if rl.Err? {
          assert WalkTags(b, start) == Walk([], Some(rl.error));
          assert tags + [] == tags;
          return Some(rl.error);
        }
        var tlen, consumed := rl.value.0, rl.value.1;
        i := i + consumed;

        if |b[i..]| - 4 < tlen {
          assert WalkTags(b, start) == Walk([], Some(Truncated));
          assert tags + [] == tags;
          return Some(Truncated);
        }
        t := t.(data := b[i..i + tlen]);
        i := i + tlen;
        assert WalkTags(b, start) == Walk([t] + WalkTags(b, i).tags, WalkTags(b, i).error);
        assert tags + [t] + WalkTags(b, i).tags == tags + ([t] + WalkTags(b, i).tags);
        tags := tags + [t];
      }
      assert tags + [] == tags;
      return None;
    }
  }

  lemma {:induction false} SectionSizeAppend(a: seq<Tag>, b: seq<Tag>)
    ensures SectionSize(a + b) == SectionSize(a) + SectionSize(b)
    decreases |a|
  {
    if a == [] {
      assert a + b == b;
    } else {
      assert (a + b)[0] == a[0];
      assert (a + b)[1..] == a[1..] + b;
      SectionSizeAppend(a[1..], b);
    }
  }

  lemma AllShortAppend(a: seq<Tag>, b: seq<Tag>)
    requires AllShort(a) && AllShort(b)
    ensures AllShort(a + b)
  {
    var c := a + b;
    forall i | 0 <= i < |c|
      ensures |c[i].data| < 128
    {
      if i < |a| { assert c[i] == a[i]; } else { assert c[i] == b[i - |a|]; }
    }
  }

  lemma {:induction false} EncodeTagsAppend(a: seq<Tag>, b: seq<Tag>)
    requires AllShort(a) && AllShort(b)
    ensures AllShort(a + b) && EncodeTags(a + b) == EncodeTags(a) + EncodeTags(b)
    decreases |a|
  {
    AllShortAppend(a, b);
    if a == [] {
      assert a + b == b;
    } else {
      var c := a + b;
      assert c[0] == a[0] && c[1..] == a[1..] + b;
      assert AllShort(a[1..]);
      EncodeTagsAppend(a[1..], b);
      assert EncodeTags(c) == EncodeTag(c[0]) + EncodeTags(c[1..]);
    }
  }

  lemma SectionSizePrefix(tags: seq<Tag>, k: nat)
    requires k < |tags|
    ensures SectionSize(tags[..k + 1]) == SectionSize(tags[..k]) + TagSize(tags[k])
    ensures SectionSize(tags[..k + 1]) <= SectionSize(tags)
  {
    var front, back := tags[..k + 1], tags[k + 1..];
    assert front == tags[..k] + [tags[k]];
    SectionSizeAppend(tags[..k], [tags[k]]);
    assert [tags[k]][1..] == [];
    assert tags == front + back;
    SectionSizeAppend(front, back);
  }

  lemma EncodeTagsPrefix(tags: seq<Tag>, k: nat)
    requires k < |tags| && AllShort(tags[..k]) && |tags[k].data| < 128
    ensures AllShort(tags[..k + 1])
    ensures EncodeTags(tags[..k + 1]) == EncodeTags(tags[..k]) + EncodeTag(tags[k])
    ensures TagSize(tags[k]) == |EncodeTag(tags[k])|
  {
    assert tags[..k + 1] == tags[..k] + [tags[k]];
    EncodeTagsAppend(tags[..k], [tags[k]]);
    assert EncodeTags([tags[k]]) == EncodeTag(tags[k]) + EncodeTags([]);
  }

  /** One more short tag written after the head and the tags before it. */
  lemma FillStep(head: seq<byte>, ts: seq<Tag>, k: nat)
    requires k < |ts| && AllShort(ts[..k]) && |ts[k].data| < 128
    ensures AllShort(ts[..k + 1])
    ensures head + EncodeTags(ts[..k]) + EncodeTag(ts[k]) == head + EncodeTags(ts[..k + 1])
    ensures TagSize(ts[k]) == |EncodeTag(ts[k])|
  {
    EncodeTagsPrefix(ts, k);
  }

  /** For short tags the reserved section size is exactly the size of the encoded tags. */
  lemma {:induction false} ShortSectionSize(tags: seq<Tag>)
    requires AllShort(tags)
    ensures SectionSize(tags) == |EncodeTags(tags)|
    decreases |tags|
  {
    if tags != [] {
      ShortSectionSize(tags[1..]);
    }
  }
}
