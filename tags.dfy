/** The tag tree: one datatype constructor per concrete Tag class of the
  * library, holding the tag's value. Containers hold their children by
  * value; the mutable views of ListTag, CompoundTag, MapTag, the scalar
  * tags and the array tags are the classes in the other modules. */
module Tags {
  import opened JavaTypes
  import opened AssocList
  import Floating

  datatype Tag =
    | ByteTag(byteValue: Int8)
    | ShortTag(shortValue: Int16)
    | IntTag(intValue: Int32)
    | LongTag(longValue: Int64)
    | FloatTag(floatBits: Bits32)
    | DoubleTag(doubleBits: Bits64)
    | StringTag(text: Text)
    | BooleanTag(booleanValue: bool)
    | CharTag(charValue: CodeUnit)
    | ByteArrayTag(bytes: seq<Int8>)
    | ShortArrayTag(shorts: seq<Int16>)
    | IntArrayTag(ints: seq<Int32>)
    | LongArrayTag(longs: seq<Int64>)
    | FloatArrayTag(floats: seq<Bits32>)
    | DoubleArrayTag(doubles: seq<Bits64>)
    | BooleanArrayTag(booleans: seq<bool>)
    | CharArrayTag(chars: Text)
    | StringArrayTag(strings: seq<Option<Text>>)        // String[] elements may be null
    | CompoundArrayTag(compounds: seq<Option<Compound>>) // CompoundTag[] elements may be null
    | ListTag(elements: seq<Tag>)
    | CompoundTag(compound: Compound)
    | MapTag(tagMap: TagMap)
    | MapArrayTag(maps: seq<Option<TagMap>>)

  /** A CompoundTag's HashMap<String, Tag>. */
  datatype Compound = Compound(entries: seq<Binding<Text, Tag>>)

  /** A MapTag's HashMap<Tag, Tag>. */
  datatype TagMap = TagMap(pairs: seq<Binding<Tag, Tag>>)

  /** The runtime classes of the tags: what getClass() and instanceof see. */
  datatype TagClass =
    | ByteTagClass | ShortTagClass | IntTagClass | LongTagClass
    | FloatTagClass | DoubleTagClass | StringTagClass | BooleanTagClass | CharTagClass
    | ByteArrayTagClass | ShortArrayTagClass | IntArrayTagClass | LongArrayTagClass
    | FloatArrayTagClass | DoubleArrayTagClass | BooleanArrayTagClass | CharArrayTagClass
    | StringArrayTagClass | CompoundArrayTagClass
    | ListTagClass | CompoundTagClass | MapTagClass | MapArrayTagClass

  function ClassOf(t: Tag): TagClass
  {
    match t
    case ByteTag(_) => ByteTagClass
    case ShortTag(_) => ShortTagClass
    case IntTag(_) => IntTagClass
    case LongTag(_) => LongTagClass
    case FloatTag(_) => FloatTagClass
    case DoubleTag(_) => DoubleTagClass
    case StringTag(_) => StringTagClass
    case BooleanTag(_) => BooleanTagClass
    case CharTag(_) => CharTagClass
    case ByteArrayTag(_) => ByteArrayTagClass
    case ShortArrayTag(_) => ShortArrayTagClass
    case IntArrayTag(_) => IntArrayTagClass
    case LongArrayTag(_) => LongArrayTagClass
    case FloatArrayTag(_) => FloatArrayTagClass
    case DoubleArrayTag(_) => DoubleArrayTagClass
    case BooleanArrayTag(_) => BooleanArrayTagClass
    case CharArrayTag(_) => CharArrayTagClass
    case StringArrayTag(_) => StringArrayTagClass
    case CompoundArrayTag(_) => CompoundArrayTagClass
    case ListTag(_) => ListTagClass
    case CompoundTag(_) => CompoundTagClass
    case MapTag(_) => MapTagClass
    case MapArrayTag(_) => MapArrayTagClass
  }

  // ---------------------------------------------------------------------
  // Size: a measure for recursion over the tree.

  function Size(t: Tag): (r: nat)
    ensures r >= 1
    decreases t
  {
    match t
    case ListTag(es) => 1 + SizeOfTags(es)
    case CompoundTag(c) => 1 + SizeOfCompound(c)
    case CompoundArrayTag(cs) => 1 + SizeOfCompounds(cs)
    case MapTag(m) => 1 + SizeOfMap(m)
    case MapArrayTag(ms) => 1 + SizeOfMaps(ms)
    case _ => 1
  }

  function SizeOfTags(ts: seq<Tag>): nat
    decreases ts
  {
    if ts == [] then 0 else Size(ts[0]) + SizeOfTags(ts[1..])
  }

  function SizeOfCompound(c: Compound): (r: nat)
    ensures r == SizeOfEntries(c.entries)
    decreases c
  {
    SizeOfEntries(c.entries)
  }

  function SizeOfEntries(es: seq<Binding<Text, Tag>>): nat
    decreases es
  {
    if es == [] then 0 else SizeOfEntry(es[0]) + SizeOfEntries(es[1..])
  }

  function SizeOfEntry(e: Binding<Text, Tag>): (r: nat)
    ensures r == Size(e.value)
    decreases e
  {
    Size(e.value)
  }

  function SizeOfCompounds(cs: seq<Option<Compound>>): nat
    decreases cs
  {
    if cs == [] then 0 else SizeOfOptCompound(cs[0]) + SizeOfCompounds(cs[1..])
  }

  function SizeOfOptCompound(o: Option<Compound>): (r: nat)
    ensures o.Some? ==> r == 1 + SizeOfCompound(o.value)
    ensures r >= 1
    decreases o
  {
    if o.None? then 1 else 1 + SizeOfCompound(o.value)
  }

  function SizeOfMap(m: TagMap): nat
    decreases m
  {
    SizeOfPairs(m.pairs)
  }

  function SizeOfPairs(ps: seq<Binding<Tag, Tag>>): nat
    decreases ps
  {
    if ps == [] then 0 else SizeOfPair(ps[0]) + SizeOfPairs(ps[1..])
  }

  function SizeOfPair(p: Binding<Tag, Tag>): nat
    decreases p
  {
    Size(p.key) + Size(p.value)
  }

  function SizeOfMaps(ms: seq<Option<TagMap>>): nat
    decreases ms
  {
    if ms == [] then 0 else SizeOfOptMap(ms[0]) + SizeOfMaps(ms[1..])
  }

  function SizeOfOptMap(o: Option<TagMap>): nat
    decreases o
  {
    if o.None? then 1 else 1 + SizeOfMap(o.value)
  }

  // ---------------------------------------------------------------------
  // NumberTag: the numeric tags and java.lang.Number's conversions.

  /** The tags that extend NumberTag. BooleanTag and CharTag are not among
    * them: CharTag implements only Tag<Character>. */
  predicate IsNumberTag(t: Tag)
  {
    t.ByteTag? || t.ShortTag? || t.IntTag? || t.LongTag? || t.FloatTag? || t.DoubleTag?
  }

  predicate IsIntegralTag(t: Tag)
  {
    t.ByteTag? || t.ShortTag? || t.IntTag? || t.LongTag?
  }

  function IntegralValue(t: Tag): Int64
    requires IsIntegralTag(t)
  {
    match t
    case ByteTag(v) => v
    case ShortTag(v) => v
    case IntTag(v) => v
    case LongTag(v) => v
  }

  /** longValue(): sign-extending widening, or (long) of a float or double. */
  function LongValue(t: Tag): (r: Int64)
    requires IsNumberTag(t)
    ensures IsIntegralTag(t) ==> r == IntegralValue(t)
  {
    match t
    case FloatTag(b) => Floating.FloatToLong(b)
    case DoubleTag(b) => Floating.DoubleToLong(b)
    case _ => IntegralValue(t)
  }

  /** intValue(): the value itself for byte, short and int; the low 32 bits
    * of a long; (int) of a float or double. */
  function IntValue(t: Tag): (r: Int32)
    requires IsNumberTag(t)
    ensures IsIntegralTag(t) ==> (IntegralValue(t) - r) % 0x1_0000_0000 == 0
    ensures t.ByteTag? || t.ShortTag? || t.IntTag? ==> r == IntegralValue(t)
  {
    match t
    case FloatTag(b) => Floating.FloatToInt(b)
    case DoubleTag(b) => Floating.DoubleToInt(b)
    case _ => ToInt32(IntegralValue(t))
  }

  /** shortValue(): Number's default (short) intValue(). */
  function ShortValue(t: Tag): (r: Int16)
    requires IsNumberTag(t)
    ensures t.ByteTag? || t.ShortTag? ==> r == IntegralValue(t)
    ensures (IntValue(t) - r) % 0x1_0000 == 0
  {
    ToInt16(IntValue(t))
  }

  /** byteValue(): Number's default (byte) intValue(). */
  function ByteValue(t: Tag): (r: Int8)
    requires IsNumberTag(t)
    ensures t.ByteTag? ==> r == t.byteValue
    ensures (IntValue(t) - r) % 0x100 == 0
  {
    ToInt8(IntValue(t))
  }
}
