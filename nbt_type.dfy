/** The registry of wire kinds (the NbtType enum): each kind's one-byte id,
  * its optional name suffix and its tag class, and the three lookup tables
  * the enum's static initialiser fills. */
module NbtTypes {
  import opened JavaTypes
  import opened Tags

  datatype NbtType =
    | END | BYTE | SHORT | INT | LONG | FLOAT | DOUBLE | BYTE_ARRAY | STRING
    | LIST | COMPOUND | INT_ARRAY | LONG_ARRAY
    | BOOLEAN | BOOLEAN_ARRAY | SHORT_ARRAY | FLOAT_ARRAY | DOUBLE_ARRAY
    | STRING_ARRAY | CHAR | CHAR_ARRAY | COMPOUND_ARRAY
    | UNKNOWN

  /** values(), in declaration order. */
  const Values: seq<NbtType> := [
    END, BYTE, SHORT, INT, LONG, FLOAT, DOUBLE, BYTE_ARRAY, STRING,
    LIST, COMPOUND, INT_ARRAY, LONG_ARRAY,
    BOOLEAN, BOOLEAN_ARRAY, SHORT_ARRAY, FLOAT_ARRAY, DOUBLE_ARRAY,
    STRING_ARRAY, CHAR, CHAR_ARRAY, COMPOUND_ARRAY,
    UNKNOWN]

  /** The `type` field: the id byte written on the wire. */
  function Id(k: NbtType): nat
  {
    match k
    case END => 0
    case BYTE => 1
    case SHORT => 2
    case INT => 3
    case LONG => 4
    case FLOAT => 5
    case DOUBLE => 6
    case BYTE_ARRAY => 7
    case STRING => 8
    case LIST => 9
    case COMPOUND => 10
    case INT_ARRAY => 11
    case LONG_ARRAY => 12
    case BOOLEAN => 1
    case BOOLEAN_ARRAY => 7
    case SHORT_ARRAY => 9
    case FLOAT_ARRAY => 9
    case DOUBLE_ARRAY => 9
    case STRING_ARRAY => 9
    case CHAR => 8
    case CHAR_ARRAY => 8
    case COMPOUND_ARRAY => 8
    case UNKNOWN => 13
  }

  /** The `suffix` field: null for the classic kinds. */
  function Suffix(k: NbtType): Option<Text>
  {
    match k
    case BOOLEAN => Some(Lit("Boolean"))
    case BOOLEAN_ARRAY => Some(Lit("boolean[]"))
    case SHORT_ARRAY => Some(Lit("short[]"))
    case FLOAT_ARRAY => Some(Lit("float[]"))
    case DOUBLE_ARRAY => Some(Lit("double[]"))
    case STRING_ARRAY => Some(Lit("string[]"))
    case CHAR => Some(Lit("char"))
    case CHAR_ARRAY => Some(Lit("char[]"))
    case COMPOUND_ARRAY => Some(Lit("compound[]"))
    case _ => None
  }

  /** The `tagClass` field: null for END and UNKNOWN. */
  function TagClassOf(k: NbtType): Option<TagClass>
  {
    match k
    case END => None
    case BYTE => Some(ByteTagClass)
    case SHORT => Some(ShortTagClass)
    case INT => Some(IntTagClass)
    case LONG => Some(LongTagClass)
    case FLOAT => Some(FloatTagClass)
    case DOUBLE => Some(DoubleTagClass)
    case BYTE_ARRAY => Some(ByteArrayTagClass)
    case STRING => Some(StringTagClass)
    case LIST => Some(ListTagClass)
    case COMPOUND => Some(CompoundTagClass)
    case INT_ARRAY => Some(IntArrayTagClass)
    case LONG_ARRAY => Some(LongArrayTagClass)
    case BOOLEAN => Some(BooleanTagClass)
    case BOOLEAN_ARRAY => Some(BooleanArrayTagClass)
    case SHORT_ARRAY => Some(ShortArrayTagClass)
    case FLOAT_ARRAY => Some(FloatArrayTagClass)
    case DOUBLE_ARRAY => Some(DoubleArrayTagClass)
    case STRING_ARRAY => Some(StringArrayTagClass)
    case CHAR => Some(CharTagClass)
    case CHAR_ARRAY => Some(CharArrayTagClass)
    case COMPOUND_ARRAY => Some(CompoundArrayTagClass)
    case UNKNOWN => None
  }

  const BY_INDEX_LENGTH: nat := Id(UNKNOWN) + 1

  // The static initialiser walks values() in order and puts each kind into
  // the tables; a later put replaces an earlier one. Each table lookup is
  // therefore the last kind, in declaration order, that the loop put there.

  /** byIndex[id] after the loop over vs: the last suffix-less kind with that id. */
  function ByIndexAfter(vs: seq<NbtType>, id: int): Option<NbtType>
  {
    if vs == [] then None
    else
      var k := vs[|vs| - 1];
      if Suffix(k).None? && Id(k) == id then Some(k) else ByIndexAfter(vs[..|vs| - 1], id)
  }

  /** bySuffix.get(s) after the loop over vs. */
  function BySuffixAfter(vs: seq<NbtType>, s: Text): Option<NbtType>
  {
    if vs == [] then None
    else
      var k := vs[|vs| - 1];
      if Suffix(k) == Some(s) then Some(k) else BySuffixAfter(vs[..|vs| - 1], s)
  }

  /** byClass.get(c) after the loop over vs. */
  function ByClassAfter(vs: seq<NbtType>, c: TagClass): Option<NbtType>
  {
    if vs == [] then None
    else
      var k := vs[|vs| - 1];
      if TagClassOf(k) == Some(c) then Some(k) else ByClassAfter(vs[..|vs| - 1], c)
  }

  /** The three tables as the rest of the library reads them. An id outside
    * the array is the null that readEntry and readPayload test for. */
  function ByIndex(id: int): Option<NbtType>
  {
    if 0 <= id < BY_INDEX_LENGTH then ByIndexAfter(Values, id) else None
  }

  function BySuffix(s: Text): Option<NbtType> { BySuffixAfter(Values, s) }

  function ByClass(c: TagClass): Option<NbtType> { ByClassAfter(Values, c) }

  // ---------------------------------------------------------------------
  // What the tables contain.

  /** The suffix-less kind with a given id: the classic kinds END..LONG_ARRAY
    * in declaration order, then UNKNOWN. */
  function ClassicKind(id: nat): (k: NbtType)
    requires id < 14
    ensures Id(k) == id && Suffix(k).None?
  {
    match id
    case 0 => END
    case 1 => BYTE
    case 2 => SHORT
    case 3 => INT
    case 4 => LONG
    case 5 => FLOAT
    case 6 => DOUBLE
    case 7 => BYTE_ARRAY
    case 8 => STRING
    case 9 => LIST
    case 10 => COMPOUND
    case 11 => INT_ARRAY
    case 12 => LONG_ARRAY
    case _ => UNKNOWN
  }

  /** The classic kinds come first in declaration order, each at its own id;
    * UNKNOWN is last; the extension kinds reuse classic ids. */
  lemma {:induction false} RegistryIds()
    ensures forall i :: 0 <= i < 13 ==> Values[i] == ClassicKind(i)
    ensures Values[|Values| - 1] == ClassicKind(13) && BY_INDEX_LENGTH == 14
    ensures Id(BOOLEAN) == Id(BYTE) && Id(BOOLEAN_ARRAY) == Id(BYTE_ARRAY)
    ensures Id(SHORT_ARRAY) == Id(FLOAT_ARRAY) == Id(DOUBLE_ARRAY) == Id(STRING_ARRAY) == Id(LIST)
    ensures Id(CHAR) == Id(CHAR_ARRAY) == Id(COMPOUND_ARRAY) == Id(STRING)
  {
  }

  lemma {:induction false} EveryKindIsAValue(k: NbtType)
    ensures k in Values
  {
  }

  /** The length and first letter of a suffix, which already tell the
    * suffixes apart. */
  function SuffixShape(k: NbtType): (int, int)
  {
    match k
    case BOOLEAN => (7, 'B' as int)
    case BOOLEAN_ARRAY => (9, 'b' as int)
    case SHORT_ARRAY => (7, 's' as int)
    case FLOAT_ARRAY => (7, 'f' as int)
    case DOUBLE_ARRAY => (8, 'd' as int)
    case STRING_ARRAY => (8, 's' as int)
    case CHAR => (4, 'c' as int)
    case CHAR_ARRAY => (6, 'c' as int)
    case COMPOUND_ARRAY => (10, 'c' as int)
    case _ => (0, 0)
  }

  lemma {:induction false} SuffixHasShape(k: NbtType)
    ensures Suffix(k).Some? ==> |Suffix(k).value| >= 1 && (|Suffix(k).value|, Suffix(k).value[0]) == SuffixShape(k)
  {
  }

  /** Two kinds that share a suffix are one kind. */
  lemma {:induction false} SuffixInjective(k1: NbtType, k2: NbtType)
    requires Suffix(k1).Some? && Suffix(k1) == Suffix(k2)
    ensures k1 == k2
  {
    SuffixHasShape(k1);
    SuffixHasShape(k2);
  }

  /** Two kinds that share a tag class are one kind. */
  lemma {:induction false} ClassInjective(k1: NbtType, k2: NbtType)
    requires TagClassOf(k1).Some? && TagClassOf(k1) == TagClassOf(k2)
    ensures k1 == k2
  {
  }

  /** Two suffix-less kinds that share an id are one kind. */
  lemma {:induction false} IdInjective(k1: NbtType, k2: NbtType)
    requires Suffix(k1).None? && Suffix(k2).None? && Id(k1) == Id(k2)
    ensures k1 == k2
  {
  }

  lemma {:induction false} ByIndexAfterSpec(vs: seq<NbtType>, id: int)
    ensures ByIndexAfter(vs, id).Some? ==>
      ByIndexAfter(vs, id).value in vs && Suffix(ByIndexAfter(vs, id).value).None? && Id(ByIndexAfter(vs, id).value) == id
    ensures ByIndexAfter(vs, id).None? ==> forall k :: k in vs ==> !(Suffix(k).None? && Id(k) == id)
  {
    if vs != [] {
      ByIndexAfterSpec(vs[..|vs| - 1], id);
      assert vs == vs[..|vs| - 1] + [vs[|vs| - 1]];
    }
  }

  lemma {:induction false} BySuffixAfterSpec(vs: seq<NbtType>, s: Text)
    ensures BySuffixAfter(vs, s).Some? ==>
      BySuffixAfter(vs, s).value in vs && Suffix(BySuffixAfter(vs, s).value) == Some(s)
    ensures BySuffixAfter(vs, s).None? ==> forall k :: k in vs ==> Suffix(k) != Some(s)
  {
    if vs != [] {
      BySuffixAfterSpec(vs[..|vs| - 1], s);
      assert vs == vs[..|vs| - 1] + [vs[|vs| - 1]];
    }
  }

  lemma {:induction false} ByClassAfterSpec(vs: seq<NbtType>, c: TagClass)
    ensures ByClassAfter(vs, c).Some? ==>
      ByClassAfter(vs, c).value in vs && TagClassOf(ByClassAfter(vs, c).value) == Some(c)
    ensures ByClassAfter(vs, c).None? ==> forall k :: k in vs ==> TagClassOf(k) != Some(c)
  {
    if vs != [] {
      ByClassAfterSpec(vs[..|vs| - 1], c);
      assert vs == vs[..|vs| - 1] + [vs[|vs| - 1]];
    }
  }

  /** byIndex holds exactly the suffix-less kinds, each at its own id. */
  lemma {:induction false} ByIndexSpec(id: int, k: NbtType)
    ensures ByIndex(id) == Some(k) <==> Suffix(k).None? && Id(k) == id
  {
    if 0 <= id < BY_INDEX_LENGTH {
      ByIndexAfterSpec(Values, id);
      EveryKindIsAValue(k);
      if ByIndex(id).Some? && Suffix(k).None? && Id(k) == id {
        IdInjective(k, ByIndex(id).value);
      }
    }
  }

  /** byIndex is filled at every index below its length 14, and only there. */
  lemma {:induction false} ByIndexFilled(id: int)
    ensures ByIndex(id).Some? <==> 0 <= id < BY_INDEX_LENGTH
  {
    if 0 <= id < BY_INDEX_LENGTH {
      ByIndexAfterSpec(Values, id);
      EveryKindIsAValue(ClassicKind(id));
    }
  }

  /** bySuffix maps every suffix back to its own kind, and nothing else. */
  lemma {:induction false} BySuffixSpec(s: Text, k: NbtType)
    ensures BySuffix(s) == Some(k) <==> Suffix(k) == Some(s)
  {
    BySuffixAfterSpec(Values, s);
    EveryKindIsAValue(k);
    if BySuffix(s).Some? && Suffix(k) == Some(s) {
      SuffixInjective(k, BySuffix(s).value);
    }
  }

  /** byClass maps every class a kind declares back to that kind. */
  lemma {:induction false} ByClassSpec(c: TagClass, k: NbtType)
    ensures ByClass(c) == Some(k) <==> TagClassOf(k) == Some(c)
  {
    ByClassAfterSpec(Values, c);
    EveryKindIsAValue(k);
    if ByClass(c).Some? && TagClassOf(k) == Some(c) {
      ClassInjective(k, ByClass(c).value);
    }
  }

  /** No kind is declared for MapTag or MapArrayTag; every other tag class
    * has one. */
  lemma {:induction false} ByClassMissing(c: TagClass)
    ensures ByClass(c).None? <==> c == MapTagClass || c == MapArrayTagClass
  {
    if ByClass(c).Some? {
      ByClassSpec(c, ByClass(c).value);
    }
    var k := match c
      case ByteTagClass => BYTE
      case ShortTagClass => SHORT
      case IntTagClass => INT
      case LongTagClass => LONG
      case FloatTagClass => FLOAT
      case DoubleTagClass => DOUBLE
      case StringTagClass => STRING
      case BooleanTagClass => BOOLEAN
      case CharTagClass => CHAR
      case ByteArrayTagClass => BYTE_ARRAY
      case ShortArrayTagClass => SHORT_ARRAY
      case IntArrayTagClass => INT_ARRAY
      case LongArrayTagClass => LONG_ARRAY
      case FloatArrayTagClass => FLOAT_ARRAY
      case DoubleArrayTagClass => DOUBLE_ARRAY
      case BooleanArrayTagClass => BOOLEAN_ARRAY
      case CharArrayTagClass => CHAR_ARRAY
      case StringArrayTagClass => STRING_ARRAY
      case CompoundArrayTagClass => COMPOUND_ARRAY
      case ListTagClass => LIST
      case CompoundTagClass => COMPOUND
      case MapTagClass => END
      case MapArrayTagClass => END;
    ByClassSpec(c, k);
  }
}
