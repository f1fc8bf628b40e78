/** The BOOLEAN_ARRAY payload as the stream loops build it: the writer's
  * packing loop and the reader's unpacking loop, each proved against the
  * codec's functions; the smearing of elements past the eighth, shown on a
  * nine-element array; and the per-byte packing the layout evidently
  * intends, with its round trip. */
module BooleanPacking {
  import opened JavaTypes
  import opened Wire
  import opened NbtEncoding
  import opened NbtDecoding
  import RoundTrip

  /** writePayload's BOOLEAN_ARRAY case: the byte count plus 2, the element
    * count as a short, then one byte per started group of eight. The inner
    * loop runs j to the end of the array on the first byte, so the first
    * byte collects every element and the others stay 0. */
  method WriteBooleanArray(bs: array<bool>) returns (out: seq<Byte>)
    ensures out == PackBooleans(bs[..])
  {
    var n := bs.Length;
    var length := n / 8;
    if n % 8 != 0 {
      length := length + 1;
    }
    var header := WriteInt(length + 2) + WriteShort(n);
    out := header;
    var j := 0;
    var i := 0;
    while i < length
      invariant 0 <= i <= length && length == PackedLength(n)
      invariant i == 0 ==> j == 0
      invariant i > 0 ==> j == n
      invariant out == header + (if i == 0 then [] else [PackedByte(bs[..])] + seq(i - 1, _ => 0))
    {
      var value: bv8 := 0;
      while j < n
        invariant 0 <= j <= n
        invariant i > 0 ==> j == n
        invariant value == if i == 0 then PackedPrefix(bs[..], j) else 0
      {
        var k := j % 8;
        if bs[j] {
          value := value | Bit(k);
        }
        j := j + 1;
      }
      if i == 0 {
        assert value as int == PackedByte(bs[..]);
        out := out + [value as int];
        assert out == header + ([PackedByte(bs[..])] + seq(0, _ => 0));
      } else {
        assert seq(i, _ => 0) == seq(i - 1, _ => 0) + [0];
        out := out + [value as int];
      }
      i := i + 1;
    }
  }

  /** readPayload's BOOLEAN_ARRAY case: the byte count (read as an int, less
    * 2), a boolean[] of the short element count, then the bytes one at a
    * time; the first byte's inner loop fills every element. */
  method ReadBooleanArray(s: seq<Byte>) returns (r: Result<Parsed<seq<bool>>>)
    ensures r == ReadBooleans(s)
  {
    var header := ReadInt(s);
    if header.Thrown? {
      return Thrown(header.ex);
    }
    var bitBytes: int := ToInt32(header.value.value as int - 2);
    var count := ReadShort(header.value.rest);
    if count.Thrown? {
      return Thrown(count.ex);
    }
    if count.value.value < 0 {
      return Thrown(NegativeArraySize);
    }
    var n: nat := count.value.value;
    var booleans := new bool[n](_ => false);
    var start := count.value.rest;
    var rest := start;
    var j := 0;
    var i := 0;
    while i < bitBytes
      invariant 0 <= i <= |start| && (bitBytes > 0 ==> i <= bitBytes) && (bitBytes <= 0 ==> i == 0)
      invariant rest == start[i..]
      invariant i == 0 ==> j == 0 && booleans[..] == seq(n, _ => false)
      invariant i > 0 ==> j == n && booleans[..] == Unpacked(start[0], n)
    {
      if |rest| < 1 {
        return Thrown(IO(EndOfFile));
      }
      var value := rest[0];
      rest := rest[1..];
      while j < n
        invariant 0 <= j <= n
        invariant i > 0 ==> j == n && booleans[..] == Unpacked(start[0], n)
        invariant i == 0 ==> value == start[0]
        invariant i == 0 ==> forall m :: 0 <= m < n ==>
          booleans[m] == (m < j && Unpacked(start[0], n)[m])
      {
        var k := j % 8;
        booleans[j] := (value as bv8) & Bit(k) != 0;
        j := j + 1;
      }
      if i == 0 {
        assert booleans[..] == Unpacked(start[0], n);
      }
      i := i + 1;
    }
    assert header.value.value as int - 2 == ReadInt(s).value.value - 2;
    if bitBytes <= 0 {
      assert i == 0 && rest == start;
      assert booleans[..] == seq(n, _ => false);
      assert ReadBooleans(s) == Ok(Parsed(seq(n, _ => false), start));
    } else {
      assert i == bitBytes && |start| >= bitBytes;
      assert booleans[..] == Unpacked(start[0], n);
      assert ReadBooleans(s) == Ok(Parsed(Unpacked(start[0], n), start[bitBytes..]));
    }
    return Ok(Parsed(booleans[..], rest));
  }

  // ---------------------------------------------------------------------
  // The smear, as written.

  /** Nine elements of which only the last is set: the packer puts element 8
    * at bit 0 of the first byte, and the reader takes both element 0 and
    * element 8 from that bit, so the array reads back with element 0 set. */
  lemma {:induction false} NineBooleansSmear(rest: seq<Byte>)
    ensures var bs := seq(9, j => j == 8);
      ReadBooleans(PackBooleans(bs) + rest) == Ok(Parsed(seq(9, j => j == 0 || j == 8), rest))
      && seq(9, j => j == 0 || j == 8) != bs
  {
    var bs := seq(9, j => j == 8);
    NinePacked(bs);
    var body: seq<Byte> := [1, 0] + rest;
    assert PackBooleans(bs) + rest == WriteInt(4) + (WriteShort(9) + body);
    NineRead(body, rest);
    assert seq(9, j => j == 0 || j == 8)[0] != bs[0];
  }

  /** The packer's bytes for the nine elements: count 2+2, length 9, then
    * element 8 alone in the first byte and an empty second byte. */
  lemma {:induction false} NinePacked(bs: seq<bool>)
    requires bs == seq(9, j => j == 8)
    ensures PackBooleans(bs) == WriteInt(4) + WriteShort(9) + [1, 0]
  {
    assert PackedLength(9) == 2;
    ZeroPrefix(bs, 8);
    assert PackedPrefix(bs, 9) == 1;
    assert seq(1, _ => 0) == [0];
  }

  /** What the reader makes of those bytes. */
  lemma {:induction false} NineRead(body: seq<Byte>, rest: seq<Byte>)
    requires body == [1, 0] + rest
    ensures ReadBooleans(WriteInt(4) + (WriteShort(9) + body)) == Ok(Parsed(seq(9, j => j == 0 || j == 8), rest))
  {
    ReadWriteInt(4, WriteShort(9) + body);
    ReadWriteShort(9, body);
    assert ToInt32(4 - 2) == 2;
    assert body[0] == 1 && body[2..] == rest;
    var read := seq(9, j => j == 0 || j == 8);
    forall j | 0 <= j < 9
      ensures Unpacked(1, 9)[j] == read[j]
    {
      assert (1 as bv8) & Bit(j % 8) != 0 <==> j % 8 == 0;
    }
    assert Unpacked(body[0], 9) == read;
  }

  /** Before element 8, no element of the nine is set. */
  lemma {:induction false} ZeroPrefix(bs: seq<bool>, m: nat)
    requires bs == seq(9, j => j == 8) && m <= 8
    ensures PackedPrefix(bs, m) == 0
  {
    if m > 0 {
      ZeroPrefix(bs, m - 1);
    }
  }

  // ---------------------------------------------------------------------
  // The layout the header describes: byte g holds elements 8g .. 8g+7.

  /** Group g's byte after its first m bits: element 8g+b at bit b. */
  function GroupPrefix(bs: seq<bool>, g: nat, m: nat): bv8
    requires m <= 8
  {
    if m == 0 then 0
    else GroupPrefix(bs, g, m - 1) | (if 8 * g + m - 1 < |bs| && bs[8 * g + m - 1] then Bit(m - 1) else 0)
  }

  /** One byte per started group of eight. */
  function Groups(bs: seq<bool>): (r: seq<Byte>)
    ensures |r| == PackedLength(|bs|)
  {
    seq(PackedLength(|bs|), g requires 0 <= g => GroupPrefix(bs, g, 8) as int)
  }

  /** The packer with the inner loop stopped at the end of each group. */
  function GroupedPackBooleans(bs: seq<bool>): (r: seq<Byte>)
    ensures |r| == 6 + PackedLength(|bs|)
  {
    WriteInt(PackedLength(|bs|) + 2) + WriteShort(|bs|) + Groups(bs)
  }

  /** The reader with element j taken from bit (j mod 8) of byte j / 8. */
  function GroupedUnpacked(bytes: seq<Byte>, n: nat): (r: seq<bool>)
    ensures |r| == n
  {
    seq(n, j requires 0 <= j => j / 8 < |bytes| && (bytes[j / 8] as bv8) & Bit(j % 8) != 0)
  }

  function GroupedReadBooleans(s: seq<Byte>): Result<Parsed<seq<bool>>>
  {
    var header := ReadInt(s);
    if header.Thrown? then Thrown(header.ex)
    else
      var bitBytes := ToInt32(header.value.value - 2);
      var n := ReadShort(header.value.rest);
      if n.Thrown? then Thrown(n.ex)
      else if n.value.value < 0 then Thrown(NegativeArraySize)
      else if bitBytes <= 0 then Ok(Parsed(seq(n.value.value, _ => false), n.value.rest))
      else if |n.value.rest| < bitBytes then Thrown(IO(EndOfFile))
      else Ok(Parsed(GroupedUnpacked(n.value.rest[..bitBytes], n.value.value), n.value.rest[bitBytes..]))
  }

  /** Bit b of group g's byte is element 8g+b. */
  lemma {:induction false} GroupBit(bs: seq<bool>, g: nat, m: nat, b: nat)
    requires m <= 8 && b < 8
    ensures (GroupPrefix(bs, g, m) & Bit(b) != 0) <==> b < m && 8 * g + b < |bs| && bs[8 * g + b]
  {
    if m > 0 {
      GroupBit(bs, g, m - 1, b);
      RoundTrip.StepBit(GroupPrefix(bs, g, m - 1), 8 * g + m - 1 < |bs| && bs[8 * g + m - 1], m - 1, b);
    }
  }

  /** The grouped reader inverts the grouped packer's bytes. */
  lemma {:induction false} UngroupGroups(bs: seq<bool>)
    ensures GroupedUnpacked(Groups(bs), |bs|) == bs
  {
    var bytes := Groups(bs);
    forall j | 0 <= j < |bs|
      ensures GroupedUnpacked(bytes, |bs|)[j] == bs[j]
    {
      var g := j / 8;
      assert g < |bytes|;
      assert (bytes[g] as bv8) == GroupPrefix(bs, g, 8);
      GroupBit(bs, g, 8, j % 8);
    }
  }

  /** The header and the bytes read back, whatever follows. */
  lemma {:induction false} GroupedHeader(bs: seq<bool>, rest: seq<Byte>)
    requires |bs| <= 0x7FFF
    ensures GroupedReadBooleans(GroupedPackBooleans(bs) + rest)
      == if bs == [] then Ok(Parsed(seq(0, _ => false), rest))
         else Ok(Parsed(GroupedUnpacked(Groups(bs), |bs|), rest))
  {
    var length := PackedLength(|bs|);
    var body := Groups(bs) + rest;
    assert GroupedPackBooleans(bs) + rest == WriteInt(length + 2) + (WriteShort(|bs|) + body);
    ReadWriteInt(length + 2, WriteShort(|bs|) + body);
    ReadWriteShort(|bs|, body);
    assert ToInt32(length + 2 - 2) == length;
    assert body[..length] == Groups(bs) && body[length..] == rest;
    assert length == 0 <==> bs == [];
  }

  /** With one byte per group, every boolean array a short can count reads
    * back as written, whatever follows on the stream. */
  lemma {:induction false} GroupedRoundTrip(bs: seq<bool>, rest: seq<Byte>)
    requires |bs| <= 0x7FFF
    ensures GroupedReadBooleans(GroupedPackBooleans(bs) + rest) == Ok(Parsed(bs, rest))
  {
    GroupedHeader(bs, rest);
    if bs == [] {
      assert seq(0, _ => false) == bs;
    } else {
      UngroupGroups(bs);
    }
  }

  /** Within one group the loop as written stops at the end of the array
    * anyway: the grouped packer writes the same bytes up to 8 elements. */
  lemma {:induction false} GroupedAgreesUpToEight(bs: seq<bool>)
    requires |bs| <= 8
    ensures GroupedPackBooleans(bs) == PackBooleans(bs)
  {
    if bs == [] {
      assert Groups(bs) == [];
    } else {
      FirstGroupIsPacked(bs, 8);
      assert Groups(bs) == [PackedByte(bs)];
      assert seq(0, _ => 0) == [];
    }
  }

  lemma {:induction false} FirstGroupIsPacked(bs: seq<bool>, m: nat)
    requires |bs| <= 8 && m <= 8
    ensures GroupPrefix(bs, 0, m) == PackedPrefix(bs, if m <= |bs| then m else |bs|)
  {
    if m > 0 {
      FirstGroupIsPacked(bs, m - 1);
      assert (m - 1) % 8 == m - 1;
    }
  }
}
