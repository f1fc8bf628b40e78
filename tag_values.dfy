/** Tag's static helpers: defaultTagValue, the value a fresh tag of each
  * class holds, and fromObject, which wraps a plain Java value in the tag
  * for its type. */
module TagValues {
  import opened JavaTypes
  import opened AssocList
  import opened Tags
  import ListTags
  import ArrayTags

  // ---------------------------------------------------------------------
  // defaultTagValue

  /** The zero of each tag kind: 0, false, '\0', "", an empty array or an
    * empty container. */
  predicate IsZero(t: Tag)
  {
    match t
    case ByteTag(v) => v == 0
    case ShortTag(v) => v == 0
    case IntTag(v) => v == 0
    case LongTag(v) => v == 0
    case FloatTag(b) => b == 0
    case DoubleTag(b) => b == 0
    case StringTag(s) => s == []
    case BooleanTag(b) => !b
    case CharTag(c) => c == 0
    case ByteArrayTag(a) => a == []
    case ShortArrayTag(a) => a == []
    case IntArrayTag(a) => a == []
    case LongArrayTag(a) => a == []
    case FloatArrayTag(a) => a == []
    case DoubleArrayTag(a) => a == []
    case BooleanArrayTag(a) => a == []
    case CharArrayTag(a) => a == []
    case StringArrayTag(a) => a == []
    case CompoundArrayTag(a) => a == []
    case ListTag(es) => es == []
    case CompoundTag(c) => c.entries == []
    case MapTag(m) => m.pairs == []
    case MapArrayTag(a) => a == []
  }

  /** Two zero tags of one class are the same tag. */
  lemma {:induction false} ZeroIsUnique(t1: Tag, t2: Tag)
    requires IsZero(t1) && IsZero(t2) && ClassOf(t1) == ClassOf(t2)
    ensures t1 == t2
  {
    match t1
    case CompoundTag(c) => assert c == Compound([]);
    case MapTag(m) => assert m == TagMap([]);
    case _ =>
  }

  /** defaultTagValue(tagType), as the tag holding the returned value. The
    * argument is None for null or any class outside the table, which throws. */
  function DefaultTagValue(tagType: Option<TagClass>): (r: Result<Tag>)
    ensures r.Ok? <==> tagType.Some?
    ensures r.Ok? ==> ClassOf(r.value) == tagType.value && IsZero(r.value)
    ensures r.Thrown? ==> r.ex == IllegalState
  {
    if tagType.None? then Thrown(IllegalState)
    else
      match tagType.value
      case IntTagClass => Ok(IntTag(0))
      case ShortTagClass => Ok(ShortTag(0))
      case ByteTagClass => Ok(ByteTag(0))
      case DoubleTagClass => Ok(DoubleTag(0))
      case FloatTagClass => Ok(FloatTag(0))
      case LongTagClass => Ok(LongTag(0))
      case StringTagClass => Ok(StringTag([]))
      case BooleanTagClass => Ok(BooleanTag(false))
      case CharTagClass => Ok(CharTag(0))
      case CompoundTagClass => Ok(CompoundTag(Compound([])))
      case ListTagClass => Ok(ListTag([]))
      case IntArrayTagClass => Ok(IntArrayTag([]))
      case ShortArrayTagClass => Ok(ShortArrayTag([]))
      case ByteArrayTagClass => Ok(ByteArrayTag([]))
      case DoubleArrayTagClass => Ok(DoubleArrayTag([]))
      case FloatArrayTagClass => Ok(FloatArrayTag([]))
      case LongArrayTagClass => Ok(LongArrayTag([]))
      case StringArrayTagClass => Ok(StringArrayTag([]))
      case BooleanArrayTagClass => Ok(BooleanArrayTag([]))
      case CharArrayTagClass => Ok(CharArrayTag([]))
      case CompoundArrayTagClass => Ok(CompoundArrayTag([]))
      case MapTagClass => Ok(MapTag(TagMap([])))
      case MapArrayTagClass => Ok(MapArrayTag([]))
  }

  // ---------------------------------------------------------------------
  // fromObject

  /** The Java values fromObject distinguishes. A Tag of any class (a
    * CompoundTag and a MapTag included) is TagValue; JavaMap, MapArray and
    * JavaList are maps, Map[] arrays and lists that are not tags;
    * Unsupported is any other class. */
  datatype JavaObject =
    | TagValue(tag: Tag)
    | BoxedBoolean(booleanValue: bool)
    | BoxedByte(byteValue: Int8)
    | BoxedChar(charValue: CodeUnit)
    | BoxedDouble(doubleBits: Bits64)
    | BoxedFloat(floatBits: Bits32)
    | BoxedInt(intValue: Int32)
    | BoxedLong(longValue: Int64)
    | BoxedShort(shortValue: Int16)
    | JavaString(text: Text)
    | BooleanArray(booleans: seq<bool>)
    | BoxedBooleanArray(boxedBooleans: seq<Option<bool>>)
    | ByteArray(bytes: seq<Int8>)
    | BoxedByteArray(boxedBytes: seq<Option<Int8>>)
    | CharArray(chars: Text)
    | BoxedCharArray(boxedChars: seq<Option<CodeUnit>>)
    | DoubleArray(doubles: seq<Bits64>)
    | BoxedDoubleArray(boxedDoubles: seq<Option<Bits64>>)
    | FloatArray(floats: seq<Bits32>)
    | BoxedFloatArray(boxedFloats: seq<Option<Bits32>>)
    | IntArray(ints: seq<Int32>)
    | BoxedIntArray(boxedInts: seq<Option<Int32>>)
    | LongArray(longs: seq<Int64>)
    | BoxedLongArray(boxedLongs: seq<Option<Int64>>)
    | ShortArray(shorts: seq<Int16>)
    | BoxedShortArray(boxedShorts: seq<Option<Int16>>)
    | StringArray(strings: seq<Option<Text>>)
    | CompoundTagArray(compounds: seq<Option<Compound>>)
    | MapTagArray(tagMaps: seq<Option<TagMap>>)
    | JavaMap(entries: seq<Binding<Option<JavaObject>, Option<JavaObject>>>)
    | MapArray(maps: seq<Option<JavaObject>>)
    | JavaList(items: seq<Option<JavaObject>>)
    | Unsupported

  /** The tag class fromObject produces for each kind of value, the tag's
    * own class for a tag, and none for an unsupported class. */
  function TargetClass(o: JavaObject): Option<TagClass>
  {
    match o
    case TagValue(t) => Some(ClassOf(t))
    case BoxedBoolean(_) => Some(BooleanTagClass)
    case BoxedByte(_) => Some(ByteTagClass)
    case BoxedChar(_) => Some(CharTagClass)
    case BoxedDouble(_) => Some(DoubleTagClass)
    case BoxedFloat(_) => Some(FloatTagClass)
    case BoxedInt(_) => Some(IntTagClass)
    case BoxedLong(_) => Some(LongTagClass)
    case BoxedShort(_) => Some(ShortTagClass)
    case JavaString(_) => Some(StringTagClass)
    case BooleanArray(_) => Some(BooleanArrayTagClass)
    case BoxedBooleanArray(_) => Some(BooleanArrayTagClass)
    case ByteArray(_) => Some(ByteArrayTagClass)
    case BoxedByteArray(_) => Some(ByteArrayTagClass)
    case CharArray(_) => Some(CharArrayTagClass)
    case BoxedCharArray(_) => Some(CharArrayTagClass)
    case DoubleArray(_) => Some(DoubleArrayTagClass)
    case BoxedDoubleArray(_) => Some(DoubleArrayTagClass)
    case FloatArray(_) => Some(FloatArrayTagClass)
    case BoxedFloatArray(_) => Some(FloatArrayTagClass)
    case IntArray(_) => Some(IntArrayTagClass)
    case BoxedIntArray(_) => Some(IntArrayTagClass)
    case LongArray(_) => Some(LongArrayTagClass)
    case BoxedLongArray(_) => Some(LongArrayTagClass)
    case ShortArray(_) => Some(ShortArrayTagClass)
    case BoxedShortArray(_) => Some(ShortArrayTagClass)
    case StringArray(_) => Some(StringArrayTagClass)
    case CompoundTagArray(_) => Some(CompoundArrayTagClass)
    case MapTagArray(_) => Some(MapArrayTagClass)
    case JavaMap(_) => Some(MapTagClass)
    case MapArray(_) => Some(MapArrayTagClass)
    case JavaList(_) => Some(ListTagClass)
    case Unsupported => None
  }

  /** The exceptions fromObject can throw: null values and keys, an
    * unsupported class, a list that mixes classes, a Map[] element that is
    * not a MapTag. */
  predicate ConversionFailure(e: Exception)
  {
    e == NullPointer || e == IllegalState || e == IllegalArgument || e == ClassCast
  }

  /** fromObject(value). null fails at value.getClass() in the final throw. */
  function FromObject(v: Option<JavaObject>): (r: Result<Tag>)
    ensures r.Thrown? ==> ConversionFailure(r.ex)
    decreases v
  {
    if v.None? then Thrown(NullPointer)
    else
      match v.value
      case TagValue(t) => Ok(t)
      case CompoundTagArray(cs) => Ok(CompoundArrayTag(cs))
      case BoxedBoolean(b) => Ok(BooleanTag(b))
      case BooleanArray(a) => Ok(BooleanArrayTag(a))
      case BoxedBooleanArray(a) => Ok(BooleanArrayTag(ArrayTags.Unboxed(a, false)))
      case BoxedByte(x) => Ok(ByteTag(x))
      case ByteArray(a) => Ok(ByteArrayTag(a))
      case BoxedByteArray(a) => Ok(ByteArrayTag(ArrayTags.Unboxed(a, 0)))
      case BoxedChar(c) => Ok(CharTag(c))
      case CharArray(a) => Ok(CharArrayTag(a))
      case BoxedCharArray(a) => Ok(CharArrayTag(ArrayTags.Unboxed(a, 0)))
      case BoxedDouble(b) => Ok(DoubleTag(b))
      case DoubleArray(a) => Ok(DoubleArrayTag(a))
      case BoxedDoubleArray(a) => Ok(DoubleArrayTag(ArrayTags.Unboxed(a, 0)))
      case BoxedFloat(b) => Ok(FloatTag(b))
      case FloatArray(a) => Ok(FloatArrayTag(a))
      case BoxedFloatArray(a) => Ok(FloatArrayTag(ArrayTags.Unboxed(a, 0)))
      case BoxedInt(x) => Ok(IntTag(x))
      case IntArray(a) => Ok(IntArrayTag(a))
      case BoxedIntArray(a) => Ok(IntArrayTag(ArrayTags.Unboxed(a, 0)))
      case BoxedLong(x) => Ok(LongTag(x))
      case LongArray(a) => Ok(LongArrayTag(a))
      case BoxedLongArray(a) => Ok(LongArrayTag(ArrayTags.Unboxed(a, 0)))
      case BoxedShort(x) => Ok(ShortTag(x))
      case ShortArray(a) => Ok(ShortArrayTag(a))
      case BoxedShortArray(a) => Ok(ShortArrayTag(ArrayTags.Unboxed(a, 0)))
      case JavaString(s) => Ok(StringTag(s))
      case StringArray(a) => Ok(StringArrayTag(a))
      case JavaMap(es) =>
        var m := FromEntries(es, []);
        if m.Thrown? then Thrown(m.ex) else Ok(MapTag(TagMap(m.value)))
      case MapTagArray(ms) => Ok(MapArrayTag(ms))
      case MapArray(ms) =>
        var a := FromMaps(ms, []);
        if a.Thrown? then Thrown(a.ex) else Ok(MapArrayTag(a.value))
      case JavaList(os) =>
        var l := FromItems(os, ListTags.EMPTY);
        if l.Thrown? then Thrown(l.ex) else Ok(ListTag(l.value.elements))
      case Unsupported => Thrown(IllegalState)
  }

  /** The Map branch from entry i on: each converted entry is put into the
    * MapTag built so far. */
  function FromEntries(es: seq<Binding<Option<JavaObject>, Option<JavaObject>>>, acc: seq<Binding<Tag, Tag>>)
    : (r: Result<seq<Binding<Tag, Tag>>>)
    ensures r.Thrown? ==> ConversionFailure(r.ex)
    decreases es
  {
    if es == [] then Ok(acc)
    else
      var p := FromEntry(es[0]);
      if p.Thrown? then Thrown(p.ex)
      else FromEntries(es[1..], Put(acc, p.value.key, p.value.value))
  }

  /** One entry of the Map branch: the key is converted, then the value. */
  function FromEntry(e: Binding<Option<JavaObject>, Option<JavaObject>>): (r: Result<Binding<Tag, Tag>>)
    ensures r.Thrown? ==> ConversionFailure(r.ex)
    decreases e
  {
    var k := FromObject(e.key);
    if k.Thrown? then Thrown(k.ex)
    else
      var v := FromObject(e.value);
      if v.Thrown? then Thrown(v.ex) else Ok(Binding(k.value, v.value))
  }

  /** The Map[] branch from element i on: each converted element is cast to
    * MapTag, so a map that is a CompoundTag fails the cast. */
  function FromMaps(ms: seq<Option<JavaObject>>, acc: seq<Option<TagMap>>): (r: Result<seq<Option<TagMap>>>)
    ensures r.Thrown? ==> ConversionFailure(r.ex)
    decreases ms
  {
    if ms == [] then Ok(acc)
    else
      var t := FromObject(ms[0]);
      if t.Thrown? then Thrown(t.ex)
      else if !t.value.MapTag? then Thrown(ClassCast)
      else FromMaps(ms[1..], acc + [Some(t.value.tagMap)])
  }

  /** The List branch from item i on: each converted item goes through
    * ListTag.add, so the list lock applies. */
  function FromItems(os: seq<Option<JavaObject>>, acc: ListTags.ListValue): (r: Result<ListTags.ListValue>)
    ensures r.Thrown? ==> ConversionFailure(r.ex)
    decreases os
  {
    if os == [] then Ok(acc)
    else
      var t := FromObject(os[0]);
      if t.Thrown? then Thrown(t.ex)
      else
        var added := ListTags.AddOutcome(acc, Some(t.value));
        if added.result.Thrown? then Thrown(added.result.ex)
        else FromItems(os[1..], added.state)
  }

  // ---------------------------------------------------------------------
  // What fromObject promises.

  /** A converted value has the class the dispatch table gives its type; an
    * unsupported class and null throw. */
  lemma {:induction false} FromObjectClass(o: Option<JavaObject>)
    ensures FromObject(o).Ok? ==> o.Some? && TargetClass(o.value) == Some(ClassOf(FromObject(o).value))
    ensures o.None? ==> FromObject(o) == Thrown(NullPointer)
    ensures o.Some? && o.value.Unsupported? ==> FromObject(o) == Thrown(IllegalState)
  {
    if o.Some? {
      match o.value
      case JavaMap(_) =>
      case MapArray(_) =>
      case JavaList(_) =>
      case _ =>
    }
  }

  /** Every value that is not a container always converts: a tag is
    * returned unchanged, and a scalar or array is wrapped as it is, with
    * the nulls of a boxed primitive array replaced by the type's zero. */
  lemma {:induction false} FromObjectScalars(o: JavaObject)
    requires !o.JavaMap? && !o.MapArray? && !o.JavaList? && !o.Unsupported?
    ensures FromObject(Some(o)).Ok?
    ensures o.TagValue? ==> FromObject(Some(o)).value == o.tag
    ensures o.BoxedIntArray? ==> FromObject(Some(o)).value.ints == ArrayTags.Unboxed(o.boxedInts, 0)
    ensures o.BoxedBooleanArray? ==> FromObject(Some(o)).value.booleans == ArrayTags.Unboxed(o.boxedBooleans, false)
  {
  }

  /** The items a List converts to, when it converts. */
  predicate SameClass(es: seq<Tag>, c: TagClass)
  {
    forall i :: 0 <= i < |es| ==> ClassOf(es[i]) == c
  }

  /** The List branch keeps every element of the class of the first: add
    * sets the lock on the first item and nothing removes or clears it. */
  lemma {:induction false} FromItemsHomogeneous(os: seq<Option<JavaObject>>, acc: ListTags.ListValue)
    requires FromItems(os, acc).Ok?
    requires (acc.elements == []) == acc.lock.None? && (acc.lock.Some? ==> SameClass(acc.elements, acc.lock.value))
    ensures var l := FromItems(os, acc).value;
      (l.elements == []) == l.lock.None? && (l.lock.Some? ==> SameClass(l.elements, l.lock.value))
    ensures acc.lock.Some? ==> FromItems(os, acc).value.lock == acc.lock
    decreases os
  {
    if os != [] {
      var t := FromObject(os[0]).value;
      var added := ListTags.AddOutcome(acc, Some(t));
      assert added.state.lock.Some? ==> SameClass(added.state.elements, added.state.lock.value) by {
        if acc.elements != [] {
          assert added.state.elements == acc.elements + [t];
        }
      }
      FromItemsHomogeneous(os[1..], added.state);
    }
  }

  /** A List converts only to a list whose elements share one class. */
  lemma {:induction false} FromListHomogeneous(os: seq<Option<JavaObject>>)
    requires FromObject(Some(JavaList(os))).Ok?
    ensures forall i, j :: 0 <= i < j < |FromObject(Some(JavaList(os))).value.elements| ==>
      ClassOf(FromObject(Some(JavaList(os))).value.elements[i]) ==
      ClassOf(FromObject(Some(JavaList(os))).value.elements[j])
  {
    FromItemsHomogeneous(os, ListTags.EMPTY);
  }

  /** An int followed by a string is refused by the List branch. */
  lemma {:induction false} FromListRefusesMixed(x: Int32, s: Text)
    ensures FromObject(Some(JavaList([Some(BoxedInt(x)), Some(JavaString(s))]))) == Thrown(IllegalArgument)
  {
    var os := [Some(BoxedInt(x)), Some(JavaString(s))];
    var one := ListTags.AddOutcome(ListTags.EMPTY, Some(IntTag(x))).state;
    assert os[1..] == [Some(JavaString(s))];
    assert FromItems(os[1..], one) == Thrown(IllegalArgument);
    assert FromItems(os, ListTags.EMPTY) == FromItems(os[1..], one);
  }

  /** The Map branch yields distinct keys, as a HashMap has. */
  lemma {:induction false} FromEntriesDistinct(es: seq<Binding<Option<JavaObject>, Option<JavaObject>>>, acc: seq<Binding<Tag, Tag>>)
    requires DistinctKeys(acc) && FromEntries(es, acc).Ok?
    ensures DistinctKeys(FromEntries(es, acc).value)
    decreases es
  {
    if es != [] {
      var p := FromEntry(es[0]).value;
      PutDistinct(acc, p.key, p.value);
      FromEntriesDistinct(es[1..], Put(acc, p.key, p.value));
    }
  }

  /** A Map[] holding a CompoundTag (which is a Map) fails the MapTag cast,
    * and a null element fails in fromObject. */
  lemma {:induction false} FromMapsRefuses(c: Compound)
    ensures FromObject(Some(MapArray([Some(TagValue(CompoundTag(c)))]))) == Thrown(ClassCast)
    ensures FromObject(Some(MapArray([None]))) == Thrown(NullPointer)
  {
    assert FromMaps([Some(TagValue(CompoundTag(c)))], []) == Thrown(ClassCast);
  }

  // ---------------------------------------------------------------------
  // fromObject as the source runs it: loops fill the fresh containers.

  /** fromObject with the Map, Map[] and List branches as loops; the List
    * branch fills a ListTag object through its add. */
  method Convert(v: Option<JavaObject>) returns (r: Result<Tag>)
    ensures r == FromObject(v)
    decreases v
  {
    if v.None? {
      return Thrown(NullPointer);
    }
    match v.value {
      case JavaMap(es) =>
        var pairs: seq<Binding<Tag, Tag>> := [];
        var i := 0;
        while i < |es|
          invariant 0 <= i <= |es|
          invariant FromEntries(es[i..], pairs) == FromEntries(es, [])
        {
          assert es[i] in es;
          var p := ConvertEntry(es[i]);
          if p.Thrown? {
            return Thrown(p.ex);
          }
          assert es[i..][1..] == es[i + 1..];
          pairs := Put(pairs, p.value.key, p.value.value);
          i := i + 1;
        }
        return Ok(MapTag(TagMap(pairs)));
      case MapArray(ms) =>
        var tagMaps: seq<Option<TagMap>> := [];
        var i := 0;
        while i < |ms|
          invariant 0 <= i <= |ms|
          invariant FromMaps(ms[i..], tagMaps) == FromMaps(ms, [])
        {
          assert ms[i] in ms;
          var t := Convert(ms[i]);
          if t.Thrown? {
            return Thrown(t.ex);
          }
          if !t.value.MapTag? {
            return Thrown(ClassCast);
          }
          assert ms[i..][1..] == ms[i + 1..];
          tagMaps := tagMaps + [Some(t.value.tagMap)];
          i := i + 1;
        }
        return Ok(MapArrayTag(tagMaps));
      case JavaList(os) =>
        var listTag := new ListTags.ListTagObject();
        var i := 0;
        while i < |os|
          invariant 0 <= i <= |os|
          invariant FromItems(os[i..], listTag.Value()) == FromItems(os, ListTags.EMPTY)
        {
          assert os[i] in os;
          var t := Convert(os[i]);
          if t.Thrown? {
            return Thrown(t.ex);
          }
          var added := listTag.Add(Some(t.value));
          if added.Thrown? {
            return Thrown(added.ex);
          }
          assert os[i..][1..] == os[i + 1..];
          i := i + 1;
        }
        return Ok(ListTag(listTag.elements));
      case _ =>
        return FromObject(v);
    }
  }

  /** One entry of the Map branch's loop. */
  method ConvertEntry(e: Binding<Option<JavaObject>, Option<JavaObject>>) returns (r: Result<Binding<Tag, Tag>>)
    ensures r == FromEntry(e)
    decreases e
  {
    var k := Convert(e.key);
    if k.Thrown? {
      return Thrown(k.ex);
    }
    var v := Convert(e.value);
    if v.Thrown? {
      return Thrown(v.ex);
    }
    return Ok(Binding(k.value, v.value));
  }
}
