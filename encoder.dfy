/** NbtTagOutputStream as a function from tags to bytes: what write(tag)
  * appends to the stream, or the exception it throws. */
module NbtEncoding {
  import opened JavaTypes
  import opened AssocList
  import opened Wire
  import opened ModifiedUtf8
  import opened Tags
  import opened NbtTypes
  import Floating

  const DOLLAR: CodeUnit := '$' as int

  /** "$List$" */
  const LIST_MARK: Text := Lit("$List$")

  /** Two writes in sequence: the first exception wins. */
  function Then(a: Result<seq<Byte>>, b: Result<seq<Byte>>): (r: Result<seq<Byte>>)
    ensures r.Ok? <==> a.Ok? && b.Ok?
    ensures r.Ok? ==> r.value == a.value + b.value
    ensures a.Thrown? ==> r == a
    ensures a.Ok? && b.Thrown? ==> r == b
  {
    if a.Thrown? then a else if b.Thrown? then b else Ok(a.value + b.value)
  }

  /** The name of a non-list entry: the key, then '$' and the kind's suffix
    * when the kind has one. */
  function SuffixedKey(key: Text, k: NbtType): Text
  {
    if Suffix(k).Some? then key + [DOLLAR] + Suffix(k).value else key
  }

  /** The name of a list entry: the key, then "$List$" and the element
    * kind's suffix when it has one. */
  function ListKey(key: Text, elementKind: NbtType): Text
  {
    if Suffix(elementKind).Some? then key + LIST_MARK + Suffix(elementKind).value else key
  }

  /** write(tag): one entry with the empty name. */
  function Write(t: Tag): (r: Result<seq<Byte>>)
    ensures ByClass(ClassOf(t)).None? ==> r == Thrown(NullPointer)
    ensures r.Ok? ==> ByClass(ClassOf(t)).Some? && |r.value| >= 3 && r.value[0] == Id(ByClass(ClassOf(t)).value)
  {
    EntryHeader([], t);
    EncodeEntry([], t)
  }

  /** An entry starts with the id byte of its class's kind, and the two
    * bytes of the name's length follow. */
  lemma {:induction false} EntryHeader(key: Text, t: Tag)
    ensures EncodeEntry(key, t).Ok? ==>
      ByClass(ClassOf(t)).Some? && |EncodeEntry(key, t).value| >= 3 &&
      EncodeEntry(key, t).value[0] == Id(ByClass(ClassOf(t)).value)
  {
    if t.ListTag? {
      ByClassSpec(ClassOf(t), LIST);
    }
  }

  /** writeEntry: the kind's id byte, the (suffixed) name, the payload. A
    * class with no registered kind fails on the null kind; a failing
    * non-list payload is rethrown naming the key. */
  function EncodeEntry(key: Text, t: Tag): Result<seq<Byte>>
    decreases Size(t), 3
  {
    var kind := ByClass(ClassOf(t));
    if kind.None? then Thrown(NullPointer)
    else if t.ListTag? then EncodeListEntry(key, t.elements)
    else EncodeNamedPayload(key, kind.value, t)
  }

  /** The list branch of writeEntry: LIST's id, the key marked with the
    * element kind (END for an empty list, the first element's kind
    * otherwise), then the list. */
  function EncodeListEntry(key: Text, es: seq<Tag>): Result<seq<Byte>>
    decreases SizeOfTags(es), 4
  {
    var elementKind := if es == [] then Some(END) else ByClass(ClassOf(es[0]));
    if elementKind.None? then Thrown(NullPointer)
    else
      Then(Ok([Id(LIST)]),
        Then(WriteUtf(ListKey(key, elementKind.value)), EncodeList(elementKind.value, es)))
  }

  /** The other branch: the kind's id, the suffixed name, the payload; a
    * failing payload is rethrown naming the key. */
  function EncodeNamedPayload(key: Text, kind: NbtType, t: Tag): Result<seq<Byte>>
    decreases Size(t), 2
  {
    var name := SuffixedKey(key, kind);
    var header := Then(Ok([Id(kind)]), WriteUtf(name));
    if header.Thrown? then header
    else
      var payload := EncodePayload(kind, t);
      if payload.Thrown? then Thrown(IO(Serializing(name, payload.ex)))
      else Ok(header.value + payload.value)
  }

  /** writeList: element id, count, then every element as a payload of the
    * given kind. */
  function EncodeList(kind: NbtType, es: seq<Tag>): Result<seq<Byte>>
    decreases SizeOfTags(es), 3
  {
    Then(Ok([Id(kind)] + WriteInt(|es|)), EncodePayloads(kind, es))
  }

  function EncodePayloads(kind: NbtType, es: seq<Tag>): Result<seq<Byte>>
    decreases SizeOfTags(es), 2
  {
    if es == [] then Ok([])
    else Then(EncodePayload(kind, es[0]), EncodePayloads(kind, es[1..]))
  }

  /** writeCompound: every entry, then an END byte. */
  function EncodeCompound(c: Compound): Result<seq<Byte>>
    decreases SizeOfCompound(c), 5
  {
    Then(EncodeEntries(c.entries), Ok([Id(END)]))
  }

  function EncodeEntries(es: seq<Binding<Text, Tag>>): Result<seq<Byte>>
    decreases SizeOfEntries(es), 4
  {
    if es == [] then Ok([])
    else Then(EncodeEntry(es[0].key, es[0].value), EncodeEntries(es[1..]))
  }

  /** The elements of a CompoundTag[]; a null element fails. */
  function EncodeCompounds(cs: seq<Option<Compound>>): Result<seq<Byte>>
    decreases SizeOfCompounds(cs), 6
  {
    if cs == [] then Ok([])
    else if cs[0].None? then Thrown(NullPointer)
    else Then(EncodeCompound(cs[0].value), EncodeCompounds(cs[1..]))
  }

  /** The elements of a String[]; a null element fails. */
  function EncodeStrings(ss: seq<Option<Text>>): Result<seq<Byte>>
  {
    if ss == [] then Ok([])
    else if ss[0].None? then Thrown(NullPointer)
    else Then(WriteUtf(ss[0].value), EncodeStrings(ss[1..]))
  }

  function WriteFloat(bits: Bits32): seq<Byte> { BigEndian(Floating.FloatToIntBits(bits), 4) }
  function WriteDouble(bits: Bits64): seq<Byte> { BigEndian(Floating.DoubleToLongBits(bits), 8) }

  function Floats(xs: seq<Bits32>): seq<Byte>
  {
    if xs == [] then [] else WriteFloat(xs[0]) + Floats(xs[1..])
  }

  function Doubles(xs: seq<Bits64>): seq<Byte>
  {
    if xs == [] then [] else WriteDouble(xs[0]) + Doubles(xs[1..])
  }

  // ---------------------------------------------------------------------
  // Boolean arrays.

  function Bit(k: nat): bv8
    requires k < 8
  {
    (1 as bv8) << k
  }

  /** The accumulator of the packing loop once it has consumed the first n
    * elements: the inner while loop never stops at a byte boundary, so
    * every element lands in the first byte, at bit (index mod 8). */
  function PackedPrefix(bs: seq<bool>, n: nat): bv8
    requires n <= |bs|
  {
    if n == 0 then 0 else PackedPrefix(bs, n - 1) | (if bs[n - 1] then Bit((n - 1) % 8) else 0)
  }

  /** The first byte the packing loop writes, as the stream sees it. */
  function PackedByte(bs: seq<bool>): Byte
  {
    PackedPrefix(bs, |bs|) as int
  }

  /** ceil(n / 8): the number of bytes the packing loop writes. */
  function PackedLength(n: nat): nat
  {
    n / 8 + (if n % 8 != 0 then 1 else 0)
  }

  /** The BOOLEAN_ARRAY payload as written: the int ceil(n/8)+2, the short n,
    * then ceil(n/8) bytes of which the first holds every element. */
  function PackBooleans(bs: seq<bool>): seq<Byte>
  {
    var length := PackedLength(|bs|);
    WriteInt(length + 2) + WriteShort(|bs|)
      + (if length == 0 then [] else [PackedByte(bs)] + seq(length - 1, _ => 0))
  }

  // ---------------------------------------------------------------------

  /** writePayload: the tag must be an instance of the kind's class, or the
    * cast fails; END and UNKNOWN have no payload. */
  function EncodePayload(kind: NbtType, t: Tag): Result<seq<Byte>>
    decreases Size(t), 1
  {
    if kind == END || kind == UNKNOWN then Thrown(IO(UnsupportedKind))
    else if TagClassOf(kind) != Some(ClassOf(t)) then Thrown(ClassCast)
    else
      match t
      case ByteTag(v) => Ok(WriteByte(v))
      case ShortTag(v) => Ok(WriteShort(v))
      case IntTag(v) => Ok(WriteInt(v))
      case LongTag(v) => Ok(WriteLong(v))
      case FloatTag(b) => Ok(WriteFloat(b))
      case DoubleTag(b) => Ok(WriteDouble(b))
      case StringTag(s) => WriteUtf(s)
      case BooleanTag(b) => Ok(WriteBoolean(b))
      case CharTag(c) => WriteUtf([c])
      case ByteArrayTag(xs) => Ok(WriteInt(|xs|) + Words(xs, 1))
      case ShortArrayTag(xs) => Ok([Id(SHORT)] + WriteInt(|xs|) + Words(xs, 2))
      case IntArrayTag(xs) => Ok(WriteInt(|xs|) + Words(xs, 4))
      case LongArrayTag(xs) => Ok(WriteInt(|xs|) + Words(xs, 8))
      case FloatArrayTag(xs) => Ok([Id(FLOAT)] + WriteInt(|xs|) + Floats(xs))
      case DoubleArrayTag(xs) => Ok([Id(DOUBLE)] + WriteInt(|xs|) + Doubles(xs))
      case BooleanArrayTag(bs) => Ok(PackBooleans(bs))
      case CharArrayTag(cs) => WriteUtf(cs)
      case StringArrayTag(ss) => Then(Ok([Id(STRING)] + WriteInt(|ss|)), EncodeStrings(ss))
      case CompoundArrayTag(cs) => Then(Ok([Id(COMPOUND)] + WriteInt(|cs|)), EncodeCompounds(cs))
      case ListTag(es) => EncodeList(kind, es)
      case CompoundTag(c) => EncodeCompound(c)
      case MapTag(_) => Thrown(ClassCast)      // no kind has the class MapTag
      case MapArrayTag(_) => Thrown(ClassCast)
  }
}
