/** The string encoding of DataOutputStream.writeUTF and
  * DataInputStream.readUTF: modified UTF-8 (the NUL character and every
  * other code unit outside 1..0x7F take two or three bytes) after an
  * unsigned two-byte length that must not exceed 65535. */
module ModifiedUtf8 {
  import opened JavaTypes
  import opened Wire

  const MAX_UTF_LENGTH: nat := 0xFFFF

  /** The bytes of one code unit. */
  function EncodeUnit(c: CodeUnit): (r: seq<Byte>)
    ensures 1 <= |r| <= 3
    ensures |r| == 1 <==> 1 <= c <= 0x7F
  {
    if 1 <= c <= 0x7F then [c]
    else if c > 0x7FF then [0xE0 + c / 0x1000, 0x80 + c / 0x40 % 0x40, 0x80 + c % 0x40]
    else [0xC0 + c / 0x40, 0x80 + c % 0x40]
  }

  function Encode(s: Text): (r: seq<Byte>)
    ensures |r| >= |s|
  {
    if s == [] then [] else EncodeUnit(s[0]) + Encode(s[1..])
  }

  /** One step of readUTF's decoding loop: a byte whose high nibble is 0..7
    * is a code unit of its own; 0xC and 0xD start a two-byte group and 0xE a
    * three-byte group, whose further bytes must have the form 10xxxxxx;
    * anything else, or a group cut short by the end of the body, is
    * malformed. The result is the unit and the group's width. */
  function DecodeGroup(bs: seq<Byte>): (r: Result<(CodeUnit, nat)>)
    requires bs != []
    ensures r.Ok? ==> 1 <= r.value.1 <= |bs|
    ensures r.Thrown? ==> r.ex == IO(MalformedUtf)
  {
    var c: int := bs[0];
    if c / 0x10 <= 7 then Ok((c, 1))
    else if c / 0x10 == 12 || c / 0x10 == 13 then
      if |bs| < 2 || bs[1] / 0x40 != 2 then Thrown(IO(MalformedUtf))
      else Ok((c % 0x20 * 0x40 + (bs[1] as int) % 0x40, 2))
    else if c / 0x10 == 14 then
      if |bs| < 3 || bs[1] / 0x40 != 2 || bs[2] / 0x40 != 2 then Thrown(IO(MalformedUtf))
      else Ok((c % 0x10 * 0x1000 + (bs[1] as int) % 0x40 * 0x40 + (bs[2] as int) % 0x40, 3))
    else Thrown(IO(MalformedUtf))
  }

  /** readUTF's decoding loop over a whole body. */
  function Decode(bs: seq<Byte>): (r: Result<Text>)
    ensures r.Thrown? ==> r.ex == IO(MalformedUtf)
    ensures r.Ok? ==> |r.value| <= |bs|
  {
    if bs == [] then Ok([])
    else
      var group := DecodeGroup(bs);
      if group.Thrown? then Thrown(group.ex)
      else
        var tail := Decode(bs[group.value.1..]);
        if tail.Thrown? then tail else Ok([group.value.0] + tail.value)
  }

  /** writeUTF: the length, then the body; over 65535 body bytes it throws
    * UTFDataFormatException before writing anything. */
  function WriteUtf(s: Text): (r: Result<seq<Byte>>)
    ensures r.Ok? <==> |Encode(s)| <= MAX_UTF_LENGTH
    ensures r.Ok? ==> |r.value| == 2 + |Encode(s)| && |r.value| >= 2 + |s|
    ensures r.Thrown? ==> r.ex == IO(UtfTooLong)
  {
    var body := Encode(s);
    if |body| > MAX_UTF_LENGTH then Thrown(IO(UtfTooLong))
    else Ok(WriteShort(|body|) + body)
  }

  /** readUTF: an unsigned two-byte length, that many bytes, decoded. */
  function ReadUtf(s: seq<Byte>): (r: Result<Parsed<Text>>)
    ensures r.Ok? ==> |r.value.rest| <= |s| - 2 && r.value.rest == s[|s| - |r.value.rest|..]
  {
    var n := ReadUnsigned(s, 2);
    if n.Thrown? then Thrown(n.ex)
    else if |n.value.rest| < n.value.value then Thrown(IO(EndOfFile))
    else
      var body := n.value.rest[..n.value.value];
      var text := Decode(body);
      if text.Thrown? then Thrown(text.ex)
      else Ok(Parsed(text.value, n.value.rest[n.value.value..]))
  }

  // ---------------------------------------------------------------------

  /** Decoding what one code unit encodes to gives that unit back, and
    * leaves whatever follows untouched. */
  lemma {:induction false} DecodeUnit(c: CodeUnit, more: seq<Byte>)
    ensures Decode(EncodeUnit(c) + more) ==
      (var tail := Decode(more); if tail.Thrown? then tail else Ok([c] + tail.value))
  {
    var bs := EncodeUnit(c) + more;
    assert bs[|EncodeUnit(c)|..] == more;
    GroupOfUnit(c, more);
  }

  lemma {:induction false} GroupOfUnit(c: CodeUnit, more: seq<Byte>)
    ensures DecodeGroup(EncodeUnit(c) + more) == Ok((c, |EncodeUnit(c)|))
  {
    var bs := EncodeUnit(c) + more;
    if 1 <= c <= 0x7F {
      assert bs[0] == c && bs[0] / 0x10 <= 7;
    } else if c > 0x7FF {
      ThreeByteFields(c);
      assert bs[0] == 0xE0 + c / 0x1000 && bs[1] == 0x80 + c / 0x40 % 0x40 && bs[2] == 0x80 + c % 0x40;
    } else {
      TwoByteFields(c);
      assert bs[0] == 0xC0 + c / 0x40 && bs[1] == 0x80 + c % 0x40;
    }
  }

  /** The three bytes of a code unit above 0x7FF carry its top 4, middle 6
    * and low 6 bits under the markers 1110 and 10. */
  lemma ThreeByteFields(c: CodeUnit)
    requires c > 0x7FF
    ensures var b0, b1, b2 := 0xE0 + c / 0x1000, 0x80 + c / 0x40 % 0x40, 0x80 + c % 0x40;
      b0 / 0x10 == 14 && b1 / 0x40 == 2 && b2 / 0x40 == 2 &&
      b0 % 0x10 * 0x1000 + b1 % 0x40 * 0x40 + b2 % 0x40 == c
  {
    var q, m, r := c / 0x1000, c / 0x40 % 0x40, c % 0x40;
    assert c / 0x40 == q * 0x40 + m;
    assert c == q * 0x1000 + m * 0x40 + r;
  }

  /** The two bytes of a code unit outside 1..0x7FF carry its top 5 and low
    * 6 bits under the markers 110 and 10. */
  lemma TwoByteFields(c: CodeUnit)
    requires c <= 0x7FF
    ensures var b0, b1 := 0xC0 + c / 0x40, 0x80 + c % 0x40;
      (b0 / 0x10 == 12 || b0 / 0x10 == 13) && b1 / 0x40 == 2 &&
      b0 % 0x20 * 0x40 + b1 % 0x40 == c
  {
  }

  lemma {:induction false} DecodeEncode(s: Text)
    ensures Decode(Encode(s)) == Ok(s)
  {
    if s != [] {
      DecodeUnit(s[0], Encode(s[1..]));
      DecodeEncode(s[1..]);
      assert [s[0]] + s[1..] == s;
    }
  }

  lemma {:induction false} EncodeAppend(s: Text, t: Text)
    ensures Encode(s + t) == Encode(s) + Encode(t)
  {
    if s != [] {
      assert (s + t)[1..] == s[1..] + t;
      EncodeAppend(s[1..], t);
    } else {
      assert s + t == t;
    }
  }

  /** One code unit is at most three bytes, far below writeUTF's limit. */
  lemma {:induction false} OneUnitFits(c: CodeUnit)
    ensures WriteUtf([c]).Ok? && |WriteUtf([c]).value| <= 5
  {
    assert [c][1..] == [];
    assert Encode([c]) == EncodeUnit(c) + Encode([]);
  }

  /** readUTF inverts writeUTF, whatever follows on the stream. */
  lemma {:induction false} ReadWriteUtf(s: Text, rest: seq<Byte>)
    requires WriteUtf(s).Ok?
    ensures ReadUtf(WriteUtf(s).value + rest) == Ok(Parsed(s, rest))
  {
    var body := Encode(s);
    ReadUnsignedBigEndian(|body|, 2, body + rest);
    Pow256Values();
    assert WriteUtf(s).value + rest == BigEndian(|body|, 2) + (body + rest);
    assert (body + rest)[..|body|] == body;
    assert (body + rest)[|body|..] == rest;
    DecodeEncode(s);
  }
}
