/** The variable-width tag length of HDHomeRun control packets. Only the one-byte form
    (a length below 128, high bit clear) is implemented; the two-byte form is refused.
    Both directions insist on a window of exactly two bytes. */
module TagLength {
  import opened Errors
  import opened Bytes

  /** b & 0x80 != 0 for a byte b: its top bit, the continuation marker of the two-byte form. */
  predicate HighBitSet(x: byte) {
    x >= 0x80
  }

  /** readTagLength: the length and the number of window bytes it occupied. */
  function ReadTagLength(w: seq<byte>): (r: Result<(nat, nat)>)
    ensures r.Ok? ==> |w| == 2 && r.value.1 == 1 && r.value.0 < 0x80
  {
    if |w| != 2 then Err(LengthBuffer)
    else if !HighBitSet(w[0]) then Ok((w[0], 1))
    else Err(LargeTag)
  }

  /** What writeTagLength leaves in its window, and what it returns (the bytes consumed). */
  function WrittenTagLength(n: int, w: seq<byte>): (r: (Result<nat>, seq<byte>))
    ensures |r.1| == |w|
  {
    if |w| != 2 then (Err(LengthBuffer), w)
    else if n < 0x80 then (Ok(1), w[0 := n % 0x100])
    else (Err(LargeTag), w)
  }

  /** writeTagLength over the window b[lo..hi] of the caller's buffer. Go's byte(n) keeps the
      low eight bits of n, which for a negative n is n % 256 (Dafny's % is Euclidean). */
  method WriteTagLength(n: int, b: array<byte>, lo: nat, hi: nat) returns (r: Result<nat>)
    requires lo <= hi <= b.Length
    modifies b
    ensures (r, b[lo..hi]) == WrittenTagLength(n, old(b[lo..hi]))
    ensures b[..lo] == old(b[..lo]) && b[hi..] == old(b[hi..])
  {
    if hi - lo != 2 {
      return Err(LengthBuffer);
    }
    if n < 0x80 {
      b[lo] := n % 0x100;
      return Ok(1);
    }
    return Err(LargeTag);
  }

  /** Both directions refuse any window that is not two bytes, whatever the length. */
  lemma WindowSizeChecked(n: int, w: seq<byte>)
    requires |w| != 2
    ensures WrittenTagLength(n, w) == (Err(LengthBuffer), w)
    ensures ReadTagLength(w) == Err(LengthBuffer)
  {
  }

  /** Writing a short length sets only the first window byte, consumes one byte, and
      reading the window back gives that length and one consumed byte. */
  lemma ShortFormRoundTrip(n: nat, w: seq<byte>)
    requires n < 0x80 && |w| == 2
    ensures WrittenTagLength(n, w) == (Ok(1), [n, w[1]])
    ensures ReadTagLength([n, w[1]]) == Ok((n, 1))
  {
    assert w[0 := n] == [n, w[1]];
  }

  /** Every length that reads successfully is written back to the same window. */
  lemma ReadThenWrite(w: seq<byte>)
    requires ReadTagLength(w).Ok?
    ensures WrittenTagLength(ReadTagLength(w).value.0, w) == (Ok(ReadTagLength(w).value.1), w)
  {
    assert w[0 := w[0]] == w;
  }

  /** The two-byte form is refused in both directions. */
  lemma LongFormRejected(n: int, w: seq<byte>)
    requires |w| == 2
    ensures n >= 0x80 ==> WrittenTagLength(n, w) == (Err(LargeTag), w)
    ensures HighBitSet(w[0]) <==> ReadTagLength(w) == Err(LargeTag)
  {
  }
}
