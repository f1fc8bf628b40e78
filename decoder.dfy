/** NbtTagInputStream as functions from the remaining input to a value and
  * the input after it, or the exception the stream throws. */
module NbtDecoding {
  import opened JavaTypes
  import opened AssocList
  import opened Wire
  import opened ModifiedUtf8
  import opened Tags
  import opened NbtTypes
  import ListTags
  import NbtEncoding

  /** What readEntry returns for a non-END entry. */
  datatype EntryHeader = EntryHeader(name: Text, kind: NbtType, listKind: Option<NbtType>)

  /** "List" */
  const LIST_WORD: Text := Lit("List")

  /** String.lastIndexOf(c): the last position of c, or -1. */
  function LastIndexOf(s: Text, c: CodeUnit): (r: int)
    ensures -1 <= r < |s|
    ensures r >= 0 ==> s[r] == c && c !in s[r + 1..]
    ensures r == -1 <==> c !in s
  {
    if s == [] then -1
    else if s[|s| - 1] == c then |s| - 1
    else
      var r := LastIndexOf(s[..|s| - 1], c);
      assert s == s[..|s| - 1] + [s[|s| - 1]];
      r
  }

  /** readEntry's treatment of the name once the id byte gave the wire kind:
    * the text after the last '$' is looked up as a suffix and always cut
    * off; a registered suffix replaces the kind, unless the wire kind is
    * LIST and the segment before it is exactly "List", in which case that
    * segment is cut too and the suffix names the element kind. */
  function SplitName(name: Text, wireKind: NbtType): EntryHeader
  {
    var index := LastIndexOf(name, NbtEncoding.DOLLAR);
    if index == -1 then EntryHeader(name, wireKind, None)
    else
      var base := name[..index];
      var suffixKind := BySuffix(name[index + 1..]);
      if suffixKind.None? then EntryHeader(base, wireKind, None)
      else
        var index2 := LastIndexOf(base, NbtEncoding.DOLLAR);
        if wireKind == LIST && index2 != -1 && base[index2 + 1..] == LIST_WORD then
          EntryHeader(base[..index2], LIST, suffixKind)
        else EntryHeader(base, suffixKind.value, None)
  }

  /** readEntry: the id byte (END gives null), the name, then the check that
    * the id is registered, then the name split. */
  function ReadEntry(s: seq<Byte>): (r: Result<Parsed<Option<EntryHeader>>>)
    ensures r.Ok? ==> |r.value.rest| < |s|
  {
    var id := ReadByte(s);
    if id.Thrown? then Thrown(id.ex)
    else if id.value.value == Id(END) then Ok(Parsed(None, id.value.rest))
    else
      var name := ReadUtf(id.value.rest);
      if name.Thrown? then Thrown(name.ex)
      else
        var wireKind := ByIndex(id.value.value);
        if wireKind.None? then Thrown(IO(UnknownType(id.value.value)))
        else Ok(Parsed(Some(SplitName(name.value.value, wireKind.value)), name.value.rest))
  }

  /** read(): one entry; its name is dropped and its payload read at depth 0. */
  function Read(s: seq<Byte>, maximumDepth: Int32): (r: Result<Parsed<Tag>>)
    ensures s == [] ==> r == Thrown(IO(EndOfFile))
    ensures r.Ok? ==> |r.value.rest| < |s| - 1
  {
    var entry := ReadEntry(s);
    if entry.Thrown? then Thrown(entry.ex)
    else if entry.value.value.None? then Thrown(IO(NoMoreData))
    else
      var h := entry.value.value.value;
      ReadPayload(h.kind, h.listKind, entry.value.rest, 0, maximumDepth)
  }

  function ToInt8s(ws: seq<nat>): (r: seq<Int8>)
    ensures |r| == |ws| && forall i :: 0 <= i < |ws| ==> r[i] == ToInt8(ws[i])
  {
    if ws == [] then [] else [ToInt8(ws[0])] + ToInt8s(ws[1..])
  }

  function ToInt16s(ws: seq<nat>): (r: seq<Int16>)
    ensures |r| == |ws| && forall i :: 0 <= i < |ws| ==> r[i] == ToInt16(ws[i])
  {
    if ws == [] then [] else [ToInt16(ws[0])] + ToInt16s(ws[1..])
  }

  function ToInt32s(ws: seq<nat>): (r: seq<Int32>)
    ensures |r| == |ws| && forall i :: 0 <= i < |ws| ==> r[i] == ToInt32(ws[i])
  {
    if ws == [] then [] else [ToInt32(ws[0])] + ToInt32s(ws[1..])
  }

  function ToInt64s(ws: seq<nat>): (r: seq<Int64>)
    ensures |r| == |ws| && forall i :: 0 <= i < |ws| ==> r[i] == ToInt64(ws[i])
  {
    if ws == [] then [] else [ToInt64(ws[0])] + ToInt64s(ws[1..])
  }

  function Bits32s(ws: seq<nat>): (r: seq<Bits32>)
    requires forall i :: 0 <= i < |ws| ==> ws[i] < 0x1_0000_0000
    ensures r == ws
  {
    if ws == [] then [] else [ws[0] as Bits32] + Bits32s(ws[1..])
  }

  function Bits64s(ws: seq<nat>): (r: seq<Bits64>)
    requires forall i :: 0 <= i < |ws| ==> ws[i] < 0x1_0000_0000_0000_0000
    ensures r == ws
  {
    if ws == [] then [] else [ws[0] as Bits64] + Bits64s(ws[1..])
  }

  /** The header of a list-shaped array: the element id and the count. */
  function ReadArrayHeader(s: seq<Byte>): (r: Result<Parsed<(Int8, Int32)>>)
    ensures r.Ok? ==> |s| >= 5 && |r.value.rest| == |s| - 5
  {
    var t := ReadByte(s);
    if t.Thrown? then Thrown(t.ex)
    else
      var n := ReadInt(t.value.rest);
      if n.Thrown? then Thrown(n.ex)
      else Ok(Parsed((t.value.value, n.value.value), n.value.rest))
  }

  /** The elements of a BOOLEAN_ARRAY as read: element j is bit (j mod 8) of
    * the first byte. */
  function Unpacked(first: Byte, n: nat): (r: seq<bool>)
    ensures |r| == n
    ensures forall j :: 0 <= j < n ==> r[j] == ((first as bv8) & NbtEncoding.Bit(j % 8) != 0)
  {
    seq(n, j requires 0 <= j < n => (first as bv8) & NbtEncoding.Bit(j % 8) != 0)
  }

  /** The BOOLEAN_ARRAY payload: an int holding the byte count plus 2, a
    * signed short element count, then the bytes; the elements all come from
    * the first byte, and are all false when no byte is read. */
  function ReadBooleans(s: seq<Byte>): (r: Result<Parsed<seq<bool>>>)
    ensures r.Ok? ==> |r.value.rest| < |s|
  {
    var header := ReadInt(s);
    if header.Thrown? then Thrown(header.ex)
    else
      var bitBytes := ToInt32(header.value.value - 2);
      var n := ReadShort(header.value.rest);
      if n.Thrown? then Thrown(n.ex)
      else if n.value.value < 0 then Thrown(NegativeArraySize)
      else if bitBytes <= 0 then Ok(Parsed(seq(n.value.value, _ => false), n.value.rest))
      else if |n.value.rest| < bitBytes then Thrown(IO(EndOfFile))
      else Ok(Parsed(Unpacked(n.value.rest[0], n.value.value), n.value.rest[bitBytes..]))
  }

  /** n strings, read with readUTF in order. */
  function ReadStrings(s: seq<Byte>, n: nat): (r: Result<Parsed<seq<Option<Text>>>>)
    ensures r.Ok? ==> |r.value.rest| <= |s|
    ensures r.Ok? ==> |r.value.value| == n
  {
    if n == 0 then Ok(Parsed([], s))
    else
      var head := ReadUtf(s);
      if head.Thrown? then Thrown(head.ex)
      else
        var tail := ReadStrings(head.value.rest, n - 1);
        if tail.Thrown? then tail
        else Ok(Parsed([Some(head.value.value)] + tail.value.value, tail.value.rest))
  }

  /** The payloads that hold one value and read no nested entry. */
  predicate IsScalar(kind: NbtType)
  {
    kind in {BYTE, SHORT, CHAR, CHAR_ARRAY, INT, LONG, FLOAT, DOUBLE, STRING, BOOLEAN}
  }

  /** readPayload's cases for single values (CHAR_ARRAY is one string). */
  function ReadScalar(kind: NbtType, s: seq<Byte>): (r: Result<Parsed<Tag>>)
    requires IsScalar(kind)
    ensures r.Ok? ==> |r.value.rest| < |s|
  {
    match kind
    case BYTE =>
      var v := ReadByte(s);
      if v.Thrown? then Thrown(v.ex) else Ok(Parsed(ByteTag(v.value.value), v.value.rest))
    case SHORT =>
      var v := ReadShort(s);
      if v.Thrown? then Thrown(v.ex) else Ok(Parsed(ShortTag(v.value.value), v.value.rest))
    case CHAR =>
      var text := ReadUtf(s);
      if text.Thrown? then Thrown(text.ex)
      else if |text.value.value| != 1 then Thrown(IO(CharLength))
      else Ok(Parsed(CharTag(text.value.value[0]), text.value.rest))
    case CHAR_ARRAY =>
      var text := ReadUtf(s);
      if text.Thrown? then Thrown(text.ex) else Ok(Parsed(CharArrayTag(text.value.value), text.value.rest))
    case INT =>
      var v := ReadInt(s);
      if v.Thrown? then Thrown(v.ex) else Ok(Parsed(IntTag(v.value.value), v.value.rest))
    case LONG =>
      var v := ReadLong(s);
      if v.Thrown? then Thrown(v.ex) else Ok(Parsed(LongTag(v.value.value), v.value.rest))
    case FLOAT =>
      var v := ReadUnsigned(s, 4);
      if v.Thrown? then Thrown(v.ex) else Ok(Parsed(FloatTag(v.value.value), v.value.rest))
    case DOUBLE =>
      var v := ReadUnsigned(s, 8);
      if v.Thrown? then Thrown(v.ex) else Ok(Parsed(DoubleTag(v.value.value), v.value.rest))
    case STRING =>
      var text := ReadUtf(s);
      if text.Thrown? then Thrown(text.ex) else Ok(Parsed(StringTag(text.value.value), text.value.rest))
    case BOOLEAN =>
      var v := ReadBoolean(s);
      if v.Thrown? then Thrown(v.ex) else Ok(Parsed(BooleanTag(v.value.value), v.value.rest))
  }

  /** The count of an int-prefixed array (BYTE_ARRAY, INT_ARRAY, LONG_ARRAY):
    * a negative count is refused by the array allocation. */
  function ReadCount(s: seq<Byte>): (r: Result<Parsed<nat>>)
    ensures r.Ok? ==> |s| >= 4 && |r.value.rest| == |s| - 4
  {
    var n := ReadInt(s);
    if n.Thrown? then Thrown(n.ex)
    else if n.value.value < 0 then Thrown(NegativeArraySize)
    else Ok(Parsed(n.value.value, n.value.rest))
  }

  /** The header of a list-shaped array whose elements must have the given
    * id: None when the element id is END (the empty array), else the count. */
  function ReadTypedCount(s: seq<Byte>, expected: NbtType): (r: Result<Parsed<Option<nat>>>)
    ensures r.Ok? ==> |s| >= 5 && |r.value.rest| == |s| - 5
  {
    var h := ReadArrayHeader(s);
    if h.Thrown? then Thrown(h.ex)
    else if h.value.value.0 == Id(END) then Ok(Parsed(None, h.value.rest))
    else if h.value.value.0 != Id(expected) then Thrown(IO(ElementType(Id(expected), h.value.value.0)))
    else if h.value.value.1 < 0 then Thrown(NegativeArraySize)
    else Ok(Parsed(Some(h.value.value.1), h.value.rest))
  }

  /** The payloads that are arrays of values and read no nested entry. */
  predicate IsValueArray(kind: NbtType)
  {
    kind in {BYTE_ARRAY, SHORT_ARRAY, INT_ARRAY, LONG_ARRAY, FLOAT_ARRAY, DOUBLE_ARRAY, STRING_ARRAY, BOOLEAN_ARRAY}
  }

  /** The BYTE_ARRAY payload: a count, then that many bytes. */
  function ReadByteArray(s: seq<Byte>): (r: Result<Parsed<Tag>>)
    ensures r.Ok? ==> |r.value.rest| < |s|
  {
    var n := ReadCount(s);
    if n.Thrown? then Thrown(n.ex)
    else
      var ws := ReadWords(n.value.rest, n.value.value, 1);
      if ws.Thrown? then Thrown(ws.ex)
      else Ok(Parsed(ByteArrayTag(ToInt8s(ws.value.value)), ws.value.rest))
  }

  /** The INT_ARRAY payload: a count, then that many ints. */
  function ReadIntArray(s: seq<Byte>): (r: Result<Parsed<Tag>>)
    ensures r.Ok? ==> |r.value.rest| < |s|
  {
    var n := ReadCount(s);
    if n.Thrown? then Thrown(n.ex)
    else
      var ws := ReadWords(n.value.rest, n.value.value, 4);
      if ws.Thrown? then Thrown(ws.ex)
      else Ok(Parsed(IntArrayTag(ToInt32s(ws.value.value)), ws.value.rest))
  }

  /** The LONG_ARRAY payload: a count, then that many longs. */
  function ReadLongArray(s: seq<Byte>): (r: Result<Parsed<Tag>>)
    ensures r.Ok? ==> |r.value.rest| < |s|
  {
    var n := ReadCount(s);
    if n.Thrown? then Thrown(n.ex)
    else
      var ws := ReadWords(n.value.rest, n.value.value, 8);
      if ws.Thrown? then Thrown(ws.ex)
      else Ok(Parsed(LongArrayTag(ToInt64s(ws.value.value)), ws.value.rest))
  }

  /** The SHORT_ARRAY payload: element id SHORT, a count, then the shorts. */
  function ReadShortArray(s: seq<Byte>): (r: Result<Parsed<Tag>>)
    ensures r.Ok? ==> |r.value.rest| < |s|
  {
    var n := ReadTypedCount(s, SHORT);
    if n.Thrown? then Thrown(n.ex)
    else if n.value.value.None? then Ok(Parsed(ShortArrayTag([]), n.value.rest))
    else
      var ws := ReadWords(n.value.rest, n.value.value.value, 2);
      if ws.Thrown? then Thrown(ws.ex)
      else Ok(Parsed(ShortArrayTag(ToInt16s(ws.value.value)), ws.value.rest))
  }

  /** The FLOAT_ARRAY payload: element id FLOAT, a count, then the bit patterns. */
  function ReadFloatArray(s: seq<Byte>): (r: Result<Parsed<Tag>>)
    ensures r.Ok? ==> |r.value.rest| < |s|
  {
    var n := ReadTypedCount(s, FLOAT);
    if n.Thrown? then Thrown(n.ex)
    else if n.value.value.None? then Ok(Parsed(FloatArrayTag([]), n.value.rest))
    else
      var ws := ReadWords(n.value.rest, n.value.value.value, 4);
      if ws.Thrown? then Thrown(ws.ex)
      else
        Pow256Values();
        Ok(Parsed(FloatArrayTag(Bits32s(ws.value.value)), ws.value.rest))
  }

  /** The DOUBLE_ARRAY payload: element id DOUBLE, a count, then the bit patterns. */
  function ReadDoubleArray(s: seq<Byte>): (r: Result<Parsed<Tag>>)
    ensures r.Ok? ==> |r.value.rest| < |s|
  {
    var n := ReadTypedCount(s, DOUBLE);
    if n.Thrown? then Thrown(n.ex)
    else if n.value.value.None? then Ok(Parsed(DoubleArrayTag([]), n.value.rest))
    else
      var ws := ReadWords(n.value.rest, n.value.value.value, 8);
      if ws.Thrown? then Thrown(ws.ex)
      else
        Pow256Values();
        Ok(Parsed(DoubleArrayTag(Bits64s(ws.value.value)), ws.value.rest))
  }

  /** The STRING_ARRAY payload: element id STRING, a count, then the strings. */
  function ReadStringArray(s: seq<Byte>): (r: Result<Parsed<Tag>>)
    ensures r.Ok? ==> |r.value.rest| < |s|
  {
    var n := ReadTypedCount(s, STRING);
    if n.Thrown? then Thrown(n.ex)
    else if n.value.value.None? then Ok(Parsed(StringArrayTag([]), n.value.rest))
    else
      var ss := ReadStrings(n.value.rest, n.value.value.value);
      if ss.Thrown? then Thrown(ss.ex) else Ok(Parsed(StringArrayTag(ss.value.value), ss.value.rest))
  }

  /** readPayload's cases for arrays of values. */
  function ReadValueArray(kind: NbtType, s: seq<Byte>): (r: Result<Parsed<Tag>>)
    requires IsValueArray(kind)
    ensures r.Ok? ==> |r.value.rest| < |s|
  {
    match kind
    case BYTE_ARRAY => ReadByteArray(s)
    case INT_ARRAY => ReadIntArray(s)
    case LONG_ARRAY => ReadLongArray(s)
    case SHORT_ARRAY => ReadShortArray(s)
    case FLOAT_ARRAY => ReadFloatArray(s)
    case DOUBLE_ARRAY => ReadDoubleArray(s)
    case STRING_ARRAY => ReadStringArray(s)
    case BOOLEAN_ARRAY =>
      var bs := ReadBooleans(s);
      if bs.Thrown? then Thrown(bs.ex) else Ok(Parsed(BooleanArrayTag(bs.value.value), bs.value.rest))
  }

  /** readPayload: the depth check, then one reader per kind. */
  function ReadPayload(kind: NbtType, listKind: Option<NbtType>, s: seq<Byte>, depth: int, maximumDepth: Int32)
    : (r: Result<Parsed<Tag>>)
    ensures r.Ok? ==> |r.value.rest| < |s|
    decreases |s|, 3
  {
    if depth > maximumDepth then Thrown(IO(DepthExceeded))
    else if IsScalar(kind) then ReadScalar(kind, s)
    else if IsValueArray(kind) then ReadValueArray(kind, s)
    else if kind == LIST then ReadList(listKind, s, depth, maximumDepth)
    else if kind == COMPOUND then
      var c := ReadCompound(s, depth, maximumDepth, []);
      if c.Thrown? then Thrown(c.ex) else Ok(Parsed(CompoundTag(c.value.value), c.value.rest))
    else if kind == COMPOUND_ARRAY then ReadCompoundArray(s, depth, maximumDepth)
    else Thrown(IO(UnsupportedKind))
  }

  /** The LIST payload: the element id byte is always read, but an element
    * kind carried by the entry name wins over it; a zero count or END
    * elements give an empty list; elements are read one level deeper. */
  function ReadList(listKind: Option<NbtType>, s: seq<Byte>, depth: int, maximumDepth: Int32)
    : (r: Result<Parsed<Tag>>)
    ensures r.Ok? ==> |r.value.rest| < |s|
    decreases |s|, 2
  {
    var t := ReadByte(s);
    if t.Thrown? then Thrown(t.ex)
    else
      var elementKind := if listKind.Some? then listKind else ByIndex(t.value.value);
      if elementKind.None? then Thrown(IO(UnknownType(t.value.value)))
      else
        var size := ReadInt(t.value.rest);
        if size.Thrown? then Thrown(size.ex)
        else if size.value.value == 0 || elementKind.value == END then
          Ok(Parsed(ListTag([]), size.value.rest))
        else
          var es := ReadElements(elementKind.value, size.value.rest, size.value.value, depth + 1,
                                 maximumDepth, ListTags.EMPTY);
          if es.Thrown? then Thrown(es.ex)
          else Ok(Parsed(ListTag(es.value.value.elements), es.value.rest))
  }

  /** The COMPOUND_ARRAY payload: an END element id gives an empty
    * FloatArrayTag; the compounds' entries sit two levels deeper. */
  function ReadCompoundArray(s: seq<Byte>, depth: int, maximumDepth: Int32): (r: Result<Parsed<Tag>>)
    ensures r.Ok? ==> |r.value.rest| < |s|
    decreases |s|, 2
  {
    var n := ReadTypedCount(s, COMPOUND);
    if n.Thrown? then Thrown(n.ex)
    else if n.value.value.None? then Ok(Parsed(FloatArrayTag([]), n.value.rest))
    else
      var cs := ReadCompounds(n.value.rest, n.value.value.value, depth + 1, maximumDepth, []);
      if cs.Thrown? then Thrown(cs.ex) else Ok(Parsed(CompoundArrayTag(cs.value.value), cs.value.rest))
  }

  /** readCompound: entries until END, each payload one level deeper, each
    * put into the compound in turn (a repeated name keeps the last value). */
  function ReadCompound(s: seq<Byte>, depth: int, maximumDepth: Int32, acc: seq<Binding<Text, Tag>>)
    : (r: Result<Parsed<Compound>>)
    ensures r.Ok? ==> |r.value.rest| < |s|
    decreases |s|, 1
  {
    var entry := ReadEntry(s);
    if entry.Thrown? then Thrown(entry.ex)
    else if entry.value.value.None? then Ok(Parsed(Compound(acc), entry.value.rest))
    else
      var h := entry.value.value.value;
      var v := ReadPayload(h.kind, h.listKind, entry.value.rest, depth + 1, maximumDepth);
      if v.Thrown? then Thrown(v.ex)
      else
        var r := ReadCompound(v.value.rest, depth, maximumDepth, Put(acc, h.name, v.value.value));
        r
  }

  /** The element loop of a list: count payloads of one kind, each added to
    * a fresh ListTag, whose add refuses a class other than the first one's. */
  function ReadElements(kind: NbtType, s: seq<Byte>, count: int, depth: int, maximumDepth: Int32,
                        acc: ListTags.ListValue)
    : (r: Result<Parsed<ListTags.ListValue>>)
    ensures r.Ok? ==> |r.value.rest| <= |s|
    decreases |s|, 4
  {
    if count <= 0 then Ok(Parsed(acc, s))
    else
      var e := ReadPayload(kind, None, s, depth, maximumDepth);
      if e.Thrown? then Thrown(e.ex)
      else
        var added := ListTags.AddOutcome(acc, Some(e.value.value));
        if added.result.Thrown? then Thrown(added.result.ex)
        else ReadElements(kind, e.value.rest, count - 1, depth, maximumDepth, added.state)
  }

  /** The element loop of a compound array: count compounds at the given depth. */
  function ReadCompounds(s: seq<Byte>, count: int, depth: int, maximumDepth: Int32, acc: seq<Option<Compound>>)
    : (r: Result<Parsed<seq<Option<Compound>>>>)
    ensures r.Ok? ==> |r.value.rest| <= |s|
    decreases |s|, 2
  {
    if count <= 0 then Ok(Parsed(acc, s))
    else
      var c := ReadCompound(s, depth, maximumDepth, []);
      if c.Thrown? then Thrown(c.ex)
      else
        ReadCompounds(c.value.rest, count - 1, depth, maximumDepth, acc + [Some(c.value.value)])
  }
}
