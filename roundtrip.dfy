/** The codec's round trip: for every tag tree the encoder accepts and that
  * avoids the codec's known blind spots, read(write(t)) gives t back and
  * leaves whatever follows untouched, provided the tree is not deeper than
  * the stream's maximumDepth; if it is, read throws the depth error. */
module RoundTrip {
  import opened JavaTypes
  import opened AssocList
  import opened Wire
  import opened ModifiedUtf8
  import opened Tags
  import opened NbtTypes
  import opened Floating
  import opened NbtEncoding
  import opened NbtDecoding
  import ListTags

  function Max(a: int, b: int): int { if a >= b then a else b }

  /** The height of a container whose nested payloads sit `offset` levels
    * deeper and reach height h there; -1 means no nested payload is read,
    * so only the container's own depth is checked. */
  function Below(h: int, offset: nat): nat
  {
    if h < 0 then 0 else h + offset
  }

  // ---------------------------------------------------------------------
  // How deep the decoder descends below a payload's own depth.

  /** The largest depth offset at which the decoder checks a payload nested
    * in t, counting t's own payload as 0: compound children and list
    * elements sit one level deeper, the entries of a compound array's
    * compounds two levels deeper. */
  function Height(t: Tag): (r: nat)
    decreases Size(t), 1
  {
    match t
    case CompoundTag(c) => Below(EntriesHeight(c.entries), 1)
    case ListTag(es) => Below(TagsHeight(es), 1)
    case CompoundArrayTag(cs) => Below(CompoundsHeight(cs), 2)
    case _ => 0
  }

  /** The largest Height among the tags, or -1 when there are none. */
  function TagsHeight(es: seq<Tag>): (r: int)
    ensures r >= -1 && (es == [] <==> r == -1)
    decreases SizeOfTags(es), 2
  {
    if es == [] then -1 else Max(Height(es[0]), TagsHeight(es[1..]))
  }

  /** The largest Height among the entries' values, or -1 when there are none. */
  function EntriesHeight(es: seq<Binding<Text, Tag>>): (r: int)
    ensures r >= -1 && (es == [] <==> r == -1)
    decreases SizeOfEntries(es), 2
  {
    if es == [] then -1 else Max(Height(es[0].value), EntriesHeight(es[1..]))
  }

  /** The largest EntriesHeight among the compounds, or -1 when no compound
    * has an entry. */
  function CompoundsHeight(cs: seq<Option<Compound>>): (r: int)
    ensures r >= -1
    decreases SizeOfCompounds(cs), 3
  {
    if cs == [] then -1
    else Max(if cs[0].Some? then EntriesHeight(cs[0].value.entries) else -1, CompoundsHeight(cs[1..]))
  }

  // ---------------------------------------------------------------------
  // The trees the round trip covers.

  predicate CanonicalFloats(xs: seq<Bits32>)
  {
    forall i :: 0 <= i < |xs| ==> FloatToIntBits(xs[i]) == xs[i]
  }

  predicate CanonicalDoubles(xs: seq<Bits64>)
  {
    forall i :: 0 <= i < |xs| ==> DoubleToLongBits(xs[i]) == xs[i]
  }

  /** A tree the codec reproduces: compound keys are distinct (as in any
    * HashMap) and free of '$'; float and double values are not NaNs other
    * than the canonical ones (writeFloat and writeDouble canonicalise NaN);
    * boolean arrays have at most 8 elements (the packer keeps every element
    * in its first byte); every array and list is shorter than 2^31 (a Java
    * array length). Null elements, map tags and strings over the writeUTF
    * limit are excluded by the encoder itself. */
  predicate Codable(t: Tag)
    decreases Size(t), 1
  {
    match t
    case FloatTag(b) => FloatToIntBits(b) == b
    case DoubleTag(b) => DoubleToLongBits(b) == b
    case ByteArrayTag(xs) => |xs| <= INT32_MAX
    case ShortArrayTag(xs) => |xs| <= INT32_MAX
    case IntArrayTag(xs) => |xs| <= INT32_MAX
    case LongArrayTag(xs) => |xs| <= INT32_MAX
    case FloatArrayTag(xs) => |xs| <= INT32_MAX && CanonicalFloats(xs)
    case DoubleArrayTag(xs) => |xs| <= INT32_MAX && CanonicalDoubles(xs)
    case BooleanArrayTag(bs) => |bs| <= 8
    case StringArrayTag(ss) => |ss| <= INT32_MAX
    case CompoundArrayTag(cs) => |cs| <= INT32_MAX && CodableCompounds(cs)
    case ListTag(es) => |es| <= INT32_MAX && CodableTags(es)
    case CompoundTag(c) => DistinctKeys(c.entries) && CodableEntries(c.entries)
    case _ => true
  }

  predicate CodableTags(es: seq<Tag>)
    decreases SizeOfTags(es), 2
  {
    es == [] || (Codable(es[0]) && CodableTags(es[1..]))
  }

  predicate CodableEntries(es: seq<Binding<Text, Tag>>)
    decreases SizeOfEntries(es), 2
  {
    es == [] || (DOLLAR !in es[0].key && Codable(es[0].value) && CodableEntries(es[1..]))
  }

  predicate CodableCompounds(cs: seq<Option<Compound>>)
    decreases SizeOfCompounds(cs), 3
  {
    cs == []
    || ((cs[0].Some? ==> DistinctKeys(cs[0].value.entries) && CodableEntries(cs[0].value.entries))
        && CodableCompounds(cs[1..]))
  }

  // ---------------------------------------------------------------------
  // Small facts about the wire.

  lemma {:induction false} ReadIdByte(k: NbtType, rest: seq<Byte>)
    ensures ReadByte([Id(k)] + rest) == Ok(Parsed(Id(k), rest))
  {
    assert ([Id(k)] + rest)[1..] == rest;
  }

  lemma {:induction false} Int8Residue(x: Int8)
    ensures ToInt8(x % 0x100) == x
  {
    if x < 0 { assert x % 0x100 == x + 0x100; }
  }

  lemma {:induction false} Int16Residue(x: Int16)
    ensures ToInt16(x % 0x1_0000) == x
  {
    if x < 0 { assert x % 0x1_0000 == x + 0x1_0000; }
  }

  lemma {:induction false} Int32Residue(x: Int32)
    ensures ToInt32(x % 0x1_0000_0000) == x
  {
    if x < 0 { assert x % 0x1_0000_0000 == x + 0x1_0000_0000; }
  }

  lemma {:induction false} Int64Residue(x: Int64)
    ensures ToInt64(x % 0x1_0000_0000_0000_0000) == x
  {
    if x < 0 { assert x % 0x1_0000_0000_0000_0000 == x + 0x1_0000_0000_0000_0000; }
  }

  /** A signed array read back from its residues is the array written. */
  lemma {:induction false} Int8sResidues(xs: seq<Int8>)
    ensures ToInt8s(Residues(xs, 1)) == xs
  {
    Pow256Values();
    forall i | 0 <= i < |xs| ensures ToInt8s(Residues(xs, 1))[i] == xs[i] { Int8Residue(xs[i]); }
  }

  lemma {:induction false} Int16sResidues(xs: seq<Int16>)
    ensures ToInt16s(Residues(xs, 2)) == xs
  {
    Pow256Values();
    forall i | 0 <= i < |xs| ensures ToInt16s(Residues(xs, 2))[i] == xs[i] { Int16Residue(xs[i]); }
  }

  lemma {:induction false} Int32sResidues(xs: seq<Int32>)
    ensures ToInt32s(Residues(xs, 4)) == xs
  {
    Pow256Values();
    forall i | 0 <= i < |xs| ensures ToInt32s(Residues(xs, 4))[i] == xs[i] { Int32Residue(xs[i]); }
  }

  lemma {:induction false} Int64sResidues(xs: seq<Int64>)
    ensures ToInt64s(Residues(xs, 8)) == xs
  {
    Pow256Values();
    forall i | 0 <= i < |xs| ensures ToInt64s(Residues(xs, 8))[i] == xs[i] { Int64Residue(xs[i]); }
  }

  lemma {:induction false} FloatsAreWords(xs: seq<Bits32>)
    requires CanonicalFloats(xs)
    ensures Floats(xs) == Words(xs, 4)
  {
    if xs != [] {
      FloatsAreWords(xs[1..]);
    }
  }

  lemma {:induction false} DoublesAreWords(xs: seq<Bits64>)
    requires CanonicalDoubles(xs)
    ensures Doubles(xs) == Words(xs, 8)
  {
    if xs != [] {
      DoublesAreWords(xs[1..]);
    }
  }

  lemma {:induction false} UnsignedResidues(xs32: seq<Bits32>, xs64: seq<Bits64>)
    ensures Residues(xs32, 4) == xs32 && Residues(xs64, 8) == xs64
  {
    Pow256Values();
  }

  lemma {:induction false} ReadStringsBack(ss: seq<Option<Text>>, rest: seq<Byte>)
    requires EncodeStrings(ss).Ok?
    ensures ReadStrings(EncodeStrings(ss).value + rest, |ss|) == Ok(Parsed(ss, rest))
  {
    if ss != [] {
      var tail := EncodeStrings(ss[1..]).value;
      assert EncodeStrings(ss).value + rest == WriteUtf(ss[0].value).value + (tail + rest);
      ReadWriteUtf(ss[0].value, tail + rest);
      ReadStringsBack(ss[1..], rest);
      assert [Some(ss[0].value)] + ss[1..] == ss;
    } else {
      assert EncodeStrings(ss).value + rest == rest;
    }
  }

  // ---------------------------------------------------------------------
  // Boolean packing.

  lemma {:induction false} BitAnd(k1: nat, k2: nat)
    requires k1 < 8 && k2 < 8
    ensures (Bit(k1) & Bit(k2) != 0) <==> k1 == k2
  {
  }

  /** Bit k of the packer's first byte is set exactly when some element at
    * an index congruent to k mod 8 is true. */
  lemma {:induction false} PackedBit(bs: seq<bool>, n: nat, k: nat)
    requires n <= |bs| && k < 8
    ensures (PackedPrefix(bs, n) & Bit(k) != 0) <==> exists i :: 0 <= i < n && bs[i] && i % 8 == k
  {
    if n > 0 {
      PackedBit(bs, n - 1, k);
      var p := PackedPrefix(bs, n - 1);
      var b: bv8 := if bs[n - 1] then Bit((n - 1) % 8) else 0;
      assert PackedPrefix(bs, n) & Bit(k) == (p & Bit(k)) | (b & Bit(k));
      if bs[n - 1] {
        BitAnd((n - 1) % 8, k);
      }
      if bs[n - 1] && (n - 1) % 8 == k {
        assert 0 <= n - 1 < n && bs[n - 1] && (n - 1) % 8 == k;
      }
    }
  }

  lemma {:induction false} OrAnd(p: bv8, b: bv8, m: bv8)
    ensures ((p | b) & m != 0) <==> (p & m != 0) || (b & m != 0)
  {
  }

  /** One step of the packing loop, seen through bit j. */
  lemma {:induction false} StepBit(p: bv8, on: bool, k: nat, j: nat)
    requires k < 8 && j < 8
    ensures ((p | (if on then Bit(k) else 0)) & Bit(j) != 0) <==> (p & Bit(j) != 0) || (on && k == j)
  {
    var b: bv8 := if on then Bit(k) else 0;
    OrAnd(p, b, Bit(j));
    if on {
      BitAnd(k, j);
    } else {
      assert b & Bit(j) == 0;
    }
  }

  /** Up to 8 elements, bit j of the first byte is element j. */
  lemma {:induction false} PackedBitShort(bs: seq<bool>, n: nat, j: nat)
    requires n <= |bs| && n <= 8 && j < 8
    ensures (PackedPrefix(bs, n) & Bit(j) != 0) <==> j < n && bs[j]
  {
    if n > 0 {
      var k := n - 1;
      PackedBitShort(bs, k, j);
      assert k % 8 == k;
      StepBit(PackedPrefix(bs, k), bs[k], k, j);
    }
  }

  /** Up to 8 elements, the reader's unpacking inverts the packer. */
  lemma {:induction false} UnpackShort(bs: seq<bool>)
    requires |bs| <= 8
    ensures Unpacked(PackedByte(bs), |bs|) == bs
  {
    var p := PackedPrefix(bs, |bs|);
    var u := Unpacked(PackedByte(bs), |bs|);
    forall j | 0 <= j < |bs|
      ensures u[j] == bs[j]
    {
      UnpackedBit(p, |bs|, j);
      PackedBitShort(bs, |bs|, j);
    }
  }

  lemma {:induction false} UnpackedBit(p: bv8, n: nat, j: nat)
    requires j < n && j < 8
    ensures Unpacked(p as int, n)[j] == (p & Bit(j) != 0)
  {
    assert ((p as int) as bv8) == p;
    assert j % 8 == j;
  }

  /** No elements: the header alone, byte count 2 and element count 0. */
  lemma {:induction false} PackedNone(rest: seq<Byte>)
    ensures PackBooleans([]) + rest == WriteInt(2) + (WriteShort(0) + rest)
  {
    assert PackedLength(0) == 0;
    assert PackBooleans([]) == WriteInt(2) + WriteShort(0) + [];
    Regroup(WriteInt(2), WriteShort(0), rest);
  }

  /** One to eight elements: the header, then the single packed byte. */
  lemma {:induction false} PackedOne(bs: seq<bool>, first: Byte, rest: seq<Byte>)
    requires 0 < |bs| <= 8 && first == PackedByte(bs)
    ensures PackBooleans(bs) + rest == WriteInt(3) + (WriteShort(|bs|) + ([first] + rest))
  {
    assert PackedLength(|bs|) == 1;
    var zeros: seq<Byte> := seq(0, _ => 0);
    assert zeros == [];
    assert PackBooleans(bs) == WriteInt(3) + WriteShort(|bs|) + ([first] + zeros);
    RegroupBeforeByte(WriteInt(3), WriteShort(|bs|), first, rest);
  }

  /** An empty boolean array: byte count 0, element count 0. */
  lemma {:induction false} ReadNoBooleans(rest: seq<Byte>)
    ensures ReadBooleans(WriteInt(2) + (WriteShort(0) + rest)) == Ok(Parsed([], rest))
  {
    ReadWriteInt(2, WriteShort(0) + rest);
    ReadWriteShort(0, rest);
    assert seq(0, _ => false) == [];
  }

  /** One to eight elements: byte count 1, then the packed byte. */
  lemma {:induction false} ReadOneBitByte(bs: seq<bool>, first: Byte, rest: seq<Byte>)
    requires 0 < |bs| <= 8 && first == PackedByte(bs)
    ensures ReadBooleans(WriteInt(3) + (WriteShort(|bs|) + ([first] + rest))) == Ok(Parsed(bs, rest))
  {
    var body: seq<Byte> := [first] + rest;
    ReadWriteInt(3, WriteShort(|bs|) + body);
    ReadWriteShort(|bs|, body);
    assert body[1..] == rest;
    UnpackShort(bs);
  }

  lemma {:induction false} ReadPackedBooleans(bs: seq<bool>, rest: seq<Byte>)
    requires |bs| <= 8
    ensures ReadBooleans(PackBooleans(bs) + rest) == Ok(Parsed(bs, rest))
  {
    if bs == [] {
      PackedNone(rest);
      ReadNoBooleans(rest);
    } else {
      PackedOne(bs, PackedByte(bs), rest);
      ReadOneBitByte(bs, PackedByte(bs), rest);
    }
  }

  // ---------------------------------------------------------------------
  // Payloads with no nested entry.

  lemma {:induction false} ByteRoundTrip(v: Int8, rest: seq<Byte>)
    ensures ReadScalar(BYTE, EncodePayload(BYTE, ByteTag(v)).value + rest) == Ok(Parsed(ByteTag(v), rest))
  {
    ReadWriteByte(v, rest);
  }

  lemma {:induction false} ShortRoundTrip(v: Int16, rest: seq<Byte>)
    ensures ReadScalar(SHORT, EncodePayload(SHORT, ShortTag(v)).value + rest) == Ok(Parsed(ShortTag(v), rest))
  {
    ReadWriteShort(v, rest);
  }

  lemma {:induction false} IntRoundTrip(v: Int32, rest: seq<Byte>)
    ensures ReadScalar(INT, EncodePayload(INT, IntTag(v)).value + rest) == Ok(Parsed(IntTag(v), rest))
  {
    ReadWriteInt(v, rest);
  }

  lemma {:induction false} LongRoundTrip(v: Int64, rest: seq<Byte>)
    ensures ReadScalar(LONG, EncodePayload(LONG, LongTag(v)).value + rest) == Ok(Parsed(LongTag(v), rest))
  {
    ReadWriteLong(v, rest);
  }

  lemma {:induction false} FloatRoundTrip(b: Bits32, rest: seq<Byte>)
    requires FloatToIntBits(b) == b
    ensures ReadScalar(FLOAT, EncodePayload(FLOAT, FloatTag(b)).value + rest) == Ok(Parsed(FloatTag(b), rest))
  {
    Pow256Values();
    ReadUnsignedBigEndian(b, 4, rest);
  }

  lemma {:induction false} DoubleRoundTrip(b: Bits64, rest: seq<Byte>)
    requires DoubleToLongBits(b) == b
    ensures ReadScalar(DOUBLE, EncodePayload(DOUBLE, DoubleTag(b)).value + rest) == Ok(Parsed(DoubleTag(b), rest))
  {
    Pow256Values();
    ReadUnsignedBigEndian(b, 8, rest);
  }

  lemma {:induction false} BooleanRoundTrip(b: bool, rest: seq<Byte>)
    ensures ReadScalar(BOOLEAN, EncodePayload(BOOLEAN, BooleanTag(b)).value + rest) == Ok(Parsed(BooleanTag(b), rest))
  {
    ReadWriteBoolean(b, rest);
  }

  lemma {:induction false} StringRoundTrip(x: Text, rest: seq<Byte>)
    requires WriteUtf(x).Ok?
    ensures ReadScalar(STRING, EncodePayload(STRING, StringTag(x)).value + rest) == Ok(Parsed(StringTag(x), rest))
  {
    ReadWriteUtf(x, rest);
  }

  /** A single char always fits writeUTF's limit, so it always round-trips. */
  lemma {:induction false} CharRoundTrip(c: CodeUnit, rest: seq<Byte>)
    ensures EncodePayload(CHAR, CharTag(c)).Ok?
    ensures ReadScalar(CHAR, EncodePayload(CHAR, CharTag(c)).value + rest) == Ok(Parsed(CharTag(c), rest))
  {
    OneUnitFits(c);
    ReadWriteUtf([c], rest);
  }

  lemma {:induction false} CharArrayRoundTrip(cs: Text, rest: seq<Byte>)
    requires WriteUtf(cs).Ok?
    ensures ReadScalar(CHAR_ARRAY, EncodePayload(CHAR_ARRAY, CharArrayTag(cs)).value + rest) == Ok(Parsed(CharArrayTag(cs), rest))
  {
    ReadWriteUtf(cs, rest);
  }

  lemma {:induction false} ScalarRoundTrip(kind: NbtType, t: Tag, rest: seq<Byte>)
    requires IsScalar(kind) && EncodePayload(kind, t).Ok? && Codable(t)
    ensures ReadScalar(kind, EncodePayload(kind, t).value + rest) == Ok(Parsed(t, rest))
  {
    match t
    case ByteTag(v) =>
      assert kind == BYTE;
      ByteRoundTrip(v, rest);
    case ShortTag(v) =>
      assert kind == SHORT;
      ShortRoundTrip(v, rest);
    case IntTag(v) =>
      assert kind == INT;
      IntRoundTrip(v, rest);
    case LongTag(v) =>
      assert kind == LONG;
      LongRoundTrip(v, rest);
    case FloatTag(b) =>
      assert kind == FLOAT;
      FloatRoundTrip(b, rest);
    case DoubleTag(b) =>
      assert kind == DOUBLE;
      DoubleRoundTrip(b, rest);
    case BooleanTag(b) =>
      assert kind == BOOLEAN;
      BooleanRoundTrip(b, rest);
    case StringTag(x) =>
      assert kind == STRING;
      StringRoundTrip(x, rest);
    case CharTag(c) =>
      assert kind == CHAR;
      CharRoundTrip(c, rest);
    case CharArrayTag(cs) =>
      assert kind == CHAR_ARRAY;
      CharArrayRoundTrip(cs, rest);
    case _ =>
  }

  /** The int count of an array and what follows it. */
  lemma {:induction false} ReadCountBack(n: nat, more: seq<Byte>)
    requires n <= INT32_MAX
    ensures ReadCount(WriteInt(n) + more) == Ok(Parsed(n, more))
  {
    ReadWriteInt(n, more);
  }

  /** The element id and count of a list-shaped array. */
  lemma {:induction false} ReadTypedCountBack(k: NbtType, n: nat, more: seq<Byte>)
    requires n <= INT32_MAX && Id(k) != Id(END)
    ensures ReadTypedCount([Id(k)] + (WriteInt(n) + more), k) == Ok(Parsed(Some(n), more))
  {
    ReadIdByte(k, WriteInt(n) + more);
    ReadWriteInt(n, more);
  }

  /** writePayload picks the kind whose class is the tag's own. */
  lemma {:induction false} KindOfPayload(kind: NbtType, t: Tag)
    requires EncodePayload(kind, t).Ok?
    ensures TagClassOf(kind) == Some(ClassOf(t)) && ByClass(ClassOf(t)) == Some(kind)
  {
    ByClassSpec(ClassOf(t), kind);
  }

  lemma {:induction false} ByteArrayRoundTrip(xs: seq<Int8>, rest: seq<Byte>)
    requires |xs| <= INT32_MAX
    ensures ReadByteArray(WriteInt(|xs|) + (Words(xs, 1) + rest)) == Ok(Parsed(ByteArrayTag(xs), rest))
  {
    ReadCountBack(|xs|, Words(xs, 1) + rest);
    ReadWordsWords(xs, 1, rest);
    Int8sResidues(xs);
  }

  lemma {:induction false} IntArrayRoundTrip(xs: seq<Int32>, rest: seq<Byte>)
    requires |xs| <= INT32_MAX
    ensures ReadIntArray(WriteInt(|xs|) + (Words(xs, 4) + rest)) == Ok(Parsed(IntArrayTag(xs), rest))
  {
    ReadCountBack(|xs|, Words(xs, 4) + rest);
    ReadWordsWords(xs, 4, rest);
    Int32sResidues(xs);
  }

  lemma {:induction false} LongArrayRoundTrip(xs: seq<Int64>, rest: seq<Byte>)
    requires |xs| <= INT32_MAX
    ensures ReadLongArray(WriteInt(|xs|) + (Words(xs, 8) + rest)) == Ok(Parsed(LongArrayTag(xs), rest))
  {
    ReadCountBack(|xs|, Words(xs, 8) + rest);
    ReadWordsWords(xs, 8, rest);
    Int64sResidues(xs);
  }

  lemma {:induction false} ShortArrayRoundTrip(xs: seq<Int16>, rest: seq<Byte>)
    requires |xs| <= INT32_MAX
    ensures ReadShortArray([Id(SHORT)] + (WriteInt(|xs|) + (Words(xs, 2) + rest)))
         == Ok(Parsed(ShortArrayTag(xs), rest))
  {
    ReadTypedCountBack(SHORT, |xs|, Words(xs, 2) + rest);
    ReadWordsWords(xs, 2, rest);
    Int16sResidues(xs);
  }

  lemma {:induction false} FloatArrayRoundTrip(xs: seq<Bits32>, rest: seq<Byte>)
    requires |xs| <= INT32_MAX && CanonicalFloats(xs)
    ensures ReadFloatArray([Id(FLOAT)] + (WriteInt(|xs|) + (Floats(xs) + rest)))
         == Ok(Parsed(FloatArrayTag(xs), rest))
  {
    FloatsAreWords(xs);
    ReadTypedCountBack(FLOAT, |xs|, Words(xs, 4) + rest);
    ReadWordsWords(xs, 4, rest);
    UnsignedResidues(xs, []);
  }

  lemma {:induction false} DoubleArrayRoundTrip(xs: seq<Bits64>, rest: seq<Byte>)
    requires |xs| <= INT32_MAX && CanonicalDoubles(xs)
    ensures ReadDoubleArray([Id(DOUBLE)] + (WriteInt(|xs|) + (Doubles(xs) + rest)))
         == Ok(Parsed(DoubleArrayTag(xs), rest))
  {
    DoublesAreWords(xs);
    ReadTypedCountBack(DOUBLE, |xs|, Words(xs, 8) + rest);
    ReadWordsWords(xs, 8, rest);
    UnsignedResidues([], xs);
  }

  /** A STRING_ARRAY payload whose elements read back as ss. */
  lemma {:induction false} ReadStringArrayBack(n: nat, tail: seq<Byte>, ss: seq<Option<Text>>, rest: seq<Byte>)
    requires n <= INT32_MAX && ReadStrings(tail, n) == Ok(Parsed(ss, rest))
    ensures ReadStringArray([Id(STRING)] + (WriteInt(n) + tail)) == Ok(Parsed(StringArrayTag(ss), rest))
  {
    ReadTypedCountBack(STRING, n, tail);
  }

  lemma {:induction false} StringArrayRoundTrip(ss: seq<Option<Text>>, rest: seq<Byte>)
    requires |ss| <= INT32_MAX && EncodeStrings(ss).Ok?
    ensures ReadStringArray([Id(STRING)] + (WriteInt(|ss|) + (EncodeStrings(ss).value + rest)))
         == Ok(Parsed(StringArrayTag(ss), rest))
  {
    ReadStringsBack(ss, rest);
    ReadStringArrayBack(|ss|, EncodeStrings(ss).value + rest, ss, rest);
  }

  /** Concatenation regrouped to the right, as the readers consume it. */
  lemma Regroup(a: seq<Byte>, b: seq<Byte>, rest: seq<Byte>)
    ensures a + b + rest == a + (b + rest)
  {
  }

  lemma RegroupBeforeByte(a: seq<Byte>, b: seq<Byte>, x: Byte, rest: seq<Byte>)
    ensures a + b + [x] + rest == a + (b + ([x] + rest))
  {
  }

  lemma RegroupAfterId(x: Byte, a: seq<Byte>, b: seq<Byte>, rest: seq<Byte>)
    ensures [x] + a + b + rest == [x] + (a + (b + rest))
  {
  }

  /** The bytes writePayload gives a ByteArrayTag, regrouped ahead of what follows. */
  lemma {:induction false} ByteArrayBytes(xs: seq<Int8>, rest: seq<Byte>)
    ensures EncodePayload(BYTE_ARRAY, ByteArrayTag(xs)).value + rest == WriteInt(|xs|) + (Words(xs, 1) + rest)
  {
    assert EncodePayload(BYTE_ARRAY, ByteArrayTag(xs)).value == WriteInt(|xs|) + Words(xs, 1);
    Regroup(WriteInt(|xs|), Words(xs, 1), rest);
  }

  lemma {:induction false} ByteArrayPayload(xs: seq<Int8>, rest: seq<Byte>)
    requires |xs| <= INT32_MAX
    ensures ReadValueArray(BYTE_ARRAY, EncodePayload(BYTE_ARRAY, ByteArrayTag(xs)).value + rest) == Ok(Parsed(ByteArrayTag(xs), rest))
  {
    ByteArrayBytes(xs, rest);
    ByteArrayRoundTrip(xs, rest);
  }

  /** The bytes writePayload gives a IntArrayTag, regrouped ahead of what follows. */
  lemma {:induction false} IntArrayBytes(xs: seq<Int32>, rest: seq<Byte>)
    ensures EncodePayload(INT_ARRAY, IntArrayTag(xs)).value + rest == WriteInt(|xs|) + (Words(xs, 4) + rest)
  {
    assert EncodePayload(INT_ARRAY, IntArrayTag(xs)).value == WriteInt(|xs|) + Words(xs, 4);
    Regroup(WriteInt(|xs|), Words(xs, 4), rest);
  }

  lemma {:induction false} IntArrayPayload(xs: seq<Int32>, rest: seq<Byte>)
    requires |xs| <= INT32_MAX
    ensures ReadValueArray(INT_ARRAY, EncodePayload(INT_ARRAY, IntArrayTag(xs)).value + rest) == Ok(Parsed(IntArrayTag(xs), rest))
  {
    IntArrayBytes(xs, rest);
    IntArrayRoundTrip(xs, rest);
  }

  /** The bytes writePayload gives a LongArrayTag, regrouped ahead of what follows. */
  lemma {:induction false} LongArrayBytes(xs: seq<Int64>, rest: seq<Byte>)
    ensures EncodePayload(LONG_ARRAY, LongArrayTag(xs)).value + rest == WriteInt(|xs|) + (Words(xs, 8) + rest)
  {
    assert EncodePayload(LONG_ARRAY, LongArrayTag(xs)).value == WriteInt(|xs|) + Words(xs, 8);
    Regroup(WriteInt(|xs|), Words(xs, 8), rest);
  }

  lemma {:induction false} LongArrayPayload(xs: seq<Int64>, rest: seq<Byte>)
    requires |xs| <= INT32_MAX
    ensures ReadValueArray(LONG_ARRAY, EncodePayload(LONG_ARRAY, LongArrayTag(xs)).value + rest) == Ok(Parsed(LongArrayTag(xs), rest))
  {
    LongArrayBytes(xs, rest);
    LongArrayRoundTrip(xs, rest);
  }

  /** The bytes writePayload gives a ShortArrayTag, regrouped ahead of what follows. */
  lemma {:induction false} ShortArrayBytes(xs: seq<Int16>, rest: seq<Byte>)
    ensures EncodePayload(SHORT_ARRAY, ShortArrayTag(xs)).value + rest == [Id(SHORT)] + (WriteInt(|xs|) + (Words(xs, 2) + rest))
  {
    assert EncodePayload(SHORT_ARRAY, ShortArrayTag(xs)).value == [Id(SHORT)] + WriteInt(|xs|) + Words(xs, 2);
    RegroupAfterId(Id(SHORT), WriteInt(|xs|), Words(xs, 2), rest);
  }

  lemma {:induction false} ShortArrayPayload(xs: seq<Int16>, rest: seq<Byte>)
    requires |xs| <= INT32_MAX
    ensures ReadValueArray(SHORT_ARRAY, EncodePayload(SHORT_ARRAY, ShortArrayTag(xs)).value + rest) == Ok(Parsed(ShortArrayTag(xs), rest))
  {
    ShortArrayBytes(xs, rest);
    ShortArrayRoundTrip(xs, rest);
  }

  /** The bytes writePayload gives a FloatArrayTag, regrouped ahead of what follows. */
  lemma {:induction false} FloatArrayBytes(xs: seq<Bits32>, rest: seq<Byte>)
    ensures EncodePayload(FLOAT_ARRAY, FloatArrayTag(xs)).value + rest == [Id(FLOAT)] + (WriteInt(|xs|) + (Floats(xs) + rest))
  {
    assert EncodePayload(FLOAT_ARRAY, FloatArrayTag(xs)).value == [Id(FLOAT)] + WriteInt(|xs|) + Floats(xs);
    RegroupAfterId(Id(FLOAT), WriteInt(|xs|), Floats(xs), rest);
  }

  lemma {:induction false} FloatArrayPayload(xs: seq<Bits32>, rest: seq<Byte>)
    requires |xs| <= INT32_MAX && CanonicalFloats(xs)
    ensures ReadValueArray(FLOAT_ARRAY, EncodePayload(FLOAT_ARRAY, FloatArrayTag(xs)).value + rest) == Ok(Parsed(FloatArrayTag(xs), rest))
  {
    FloatArrayBytes(xs, rest);
    FloatArrayRoundTrip(xs, rest);
  }

  /** The bytes writePayload gives a DoubleArrayTag, regrouped ahead of what follows. */
  lemma {:induction false} DoubleArrayBytes(xs: seq<Bits64>, rest: seq<Byte>)
    ensures EncodePayload(DOUBLE_ARRAY, DoubleArrayTag(xs)).value + rest == [Id(DOUBLE)] + (WriteInt(|xs|) + (Doubles(xs) + rest))
  {
    assert EncodePayload(DOUBLE_ARRAY, DoubleArrayTag(xs)).value == [Id(DOUBLE)] + WriteInt(|xs|) + Doubles(xs);
    RegroupAfterId(Id(DOUBLE), WriteInt(|xs|), Doubles(xs), rest);
  }

  lemma {:induction false} DoubleArrayPayload(xs: seq<Bits64>, rest: seq<Byte>)
    requires |xs| <= INT32_MAX && CanonicalDoubles(xs)
    ensures ReadValueArray(DOUBLE_ARRAY, EncodePayload(DOUBLE_ARRAY, DoubleArrayTag(xs)).value + rest) == Ok(Parsed(DoubleArrayTag(xs), rest))
  {
    DoubleArrayBytes(xs, rest);
    DoubleArrayRoundTrip(xs, rest);
  }

  /** The bytes writePayload gives a StringArrayTag, regrouped ahead of what follows. */
  lemma {:induction false} StringArrayBytes(ss: seq<Option<Text>>, rest: seq<Byte>)
    requires EncodeStrings(ss).Ok?
    ensures EncodePayload(STRING_ARRAY, StringArrayTag(ss)).value + rest == [Id(STRING)] + (WriteInt(|ss|) + (EncodeStrings(ss).value + rest))
  {
    assert EncodePayload(STRING_ARRAY, StringArrayTag(ss)).value == [Id(STRING)] + WriteInt(|ss|) + EncodeStrings(ss).value;
    RegroupAfterId(Id(STRING), WriteInt(|ss|), EncodeStrings(ss).value, rest);
  }

  lemma {:induction false} StringArrayPayload(ss: seq<Option<Text>>, rest: seq<Byte>)
    requires |ss| <= INT32_MAX && EncodeStrings(ss).Ok?
    ensures ReadValueArray(STRING_ARRAY, EncodePayload(STRING_ARRAY, StringArrayTag(ss)).value + rest) == Ok(Parsed(StringArrayTag(ss), rest))
  {
    StringArrayBytes(ss, rest);
    StringArrayRoundTrip(ss, rest);
  }

  lemma {:induction false} BooleanArrayPayload(bs: seq<bool>, rest: seq<Byte>)
    requires |bs| <= 8
    ensures ReadValueArray(BOOLEAN_ARRAY, EncodePayload(BOOLEAN_ARRAY, BooleanArrayTag(bs)).value + rest) == Ok(Parsed(BooleanArrayTag(bs), rest))
  {
    ReadPackedBooleans(bs, rest);
  }

  lemma {:induction false} ValueArrayRoundTrip(kind: NbtType, t: Tag, rest: seq<Byte>)
    requires IsValueArray(kind) && EncodePayload(kind, t).Ok? && Codable(t)
    ensures ReadValueArray(kind, EncodePayload(kind, t).value + rest) == Ok(Parsed(t, rest))
  {
    KindOfPayload(kind, t);
    match t
    case ByteArrayTag(xs) =>
      assert kind == BYTE_ARRAY;
      ByteArrayPayload(xs, rest);
    case IntArrayTag(xs) =>
      assert kind == INT_ARRAY;
      IntArrayPayload(xs, rest);
    case LongArrayTag(xs) =>
      assert kind == LONG_ARRAY;
      LongArrayPayload(xs, rest);
    case ShortArrayTag(xs) =>
      assert kind == SHORT_ARRAY;
      ShortArrayPayload(xs, rest);
    case FloatArrayTag(xs) =>
      assert kind == FLOAT_ARRAY;
      FloatArrayPayload(xs, rest);
    case DoubleArrayTag(xs) =>
      assert kind == DOUBLE_ARRAY;
      DoubleArrayPayload(xs, rest);
    case StringArrayTag(ss) =>
      assert kind == STRING_ARRAY;
      StringArrayPayload(ss, rest);
    case BooleanArrayTag(bs) =>
      assert kind == BOOLEAN_ARRAY;
      BooleanArrayPayload(bs, rest);
    case _ =>
  }
}
