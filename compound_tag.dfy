/** CompoundTag: a HashMap from names to tags whose put refuses null, with
  * typed put helpers and getters that fall back to a default. The map's
  * contents are an association list (AssocList); a key argument that may be
  * null is an Option. */
module CompoundTags {
  import opened JavaTypes
  import opened AssocList
  import Tags
  import TagValues

  type Entries = seq<Binding<Text, Tags.Tag>>

  /** HashMap.get(key): null finds nothing, since put never stores a null key. */
  function Find(es: Entries, key: Option<Text>): (r: Option<Tags.Tag>)
    ensures key.Some? ==> r == Lookup(es, key.value)
  {
    if key.None? then None else Lookup(es, key.value)
  }

  // ---------------------------------------------------------------------
  // The typed getters. Each getNullableX is null exactly where getX falls
  // back to its default.

  /** getNullableBoolean(key): only a BooleanTag counts. */
  function GetNullableBoolean(es: Entries, key: Option<Text>): (r: Option<bool>)
    ensures r.Some? <==> Find(es, key).Some? && Find(es, key).value.BooleanTag?
    ensures r.Some? ==> r.value == Find(es, key).value.booleanValue
  {
    var t := Find(es, key);
    if t.None? || !t.value.BooleanTag? then None else Some(t.value.booleanValue)
  }

  function GetBoolean(es: Entries, key: Option<Text>, default: bool): (r: bool)
    ensures r == if GetNullableBoolean(es, key).Some? then GetNullableBoolean(es, key).value else default
    ensures Find(es, key).Some? && Find(es, key).value.BooleanTag? ==> r == Find(es, key).value.booleanValue
    ensures !(Find(es, key).Some? && Find(es, key).value.BooleanTag?) ==> r == default
  {
    var t := Find(es, key);
    if t.None? || !t.value.BooleanTag? then default else t.value.booleanValue
  }

  /** getNullableChar(key): only a CharTag counts. */
  function GetNullableChar(es: Entries, key: Option<Text>): (r: Option<CodeUnit>)
    ensures r.Some? <==> Find(es, key).Some? && Find(es, key).value.CharTag?
    ensures r.Some? ==> r.value == Find(es, key).value.charValue
  {
    var t := Find(es, key);
    if t.None? || !t.value.CharTag? then None else Some(t.value.charValue)
  }

  function GetChar(es: Entries, key: Option<Text>, default: CodeUnit): (r: CodeUnit)
    ensures r == if GetNullableChar(es, key).Some? then GetNullableChar(es, key).value else default
    ensures Find(es, key).Some? && Find(es, key).value.CharTag? ==> r == Find(es, key).value.charValue
    ensures !(Find(es, key).Some? && Find(es, key).value.CharTag?) ==> r == default
  {
    var t := Find(es, key);
    if t.None? || !t.value.CharTag? then default else t.value.charValue
  }

  /** getNullableByte(key): any NumberTag, narrowed by byteValue(). */
  function GetNullableByte(es: Entries, key: Option<Text>): (r: Option<Int8>)
    ensures r.Some? <==> Find(es, key).Some? && Tags.IsNumberTag(Find(es, key).value)
    ensures r.Some? ==> r.value == Tags.ByteValue(Find(es, key).value)
  {
    var t := Find(es, key);
    if t.None? || !Tags.IsNumberTag(t.value) then None else Some(Tags.ByteValue(t.value))
  }

  function GetByte(es: Entries, key: Option<Text>, default: Int8): (r: Int8)
    ensures r == if GetNullableByte(es, key).Some? then GetNullableByte(es, key).value else default
    ensures Find(es, key).Some? && Tags.IsNumberTag(Find(es, key).value) ==> r == Tags.ByteValue(Find(es, key).value)
    ensures !(Find(es, key).Some? && Tags.IsNumberTag(Find(es, key).value)) ==> r == default
  {
    var t := Find(es, key);
    if t.None? || !Tags.IsNumberTag(t.value) then default else Tags.ByteValue(t.value)
  }

  function GetNullableShort(es: Entries, key: Option<Text>): (r: Option<Int16>)
    ensures r.Some? <==> Find(es, key).Some? && Tags.IsNumberTag(Find(es, key).value)
    ensures r.Some? ==> r.value == Tags.ShortValue(Find(es, key).value)
  {
    var t := Find(es, key);
    if t.None? || !Tags.IsNumberTag(t.value) then None else Some(Tags.ShortValue(t.value))
  }

  function GetShort(es: Entries, key: Option<Text>, default: Int16): (r: Int16)
    ensures r == if GetNullableShort(es, key).Some? then GetNullableShort(es, key).value else default
    ensures Find(es, key).Some? && Tags.IsNumberTag(Find(es, key).value) ==> r == Tags.ShortValue(Find(es, key).value)
    ensures !(Find(es, key).Some? && Tags.IsNumberTag(Find(es, key).value)) ==> r == default
  {
    var t := Find(es, key);
    if t.None? || !Tags.IsNumberTag(t.value) then default else Tags.ShortValue(t.value)
  }

  function GetNullableInt(es: Entries, key: Option<Text>): (r: Option<Int32>)
    ensures r.Some? <==> Find(es, key).Some? && Tags.IsNumberTag(Find(es, key).value)
    ensures r.Some? ==> r.value == Tags.IntValue(Find(es, key).value)
  {
    var t := Find(es, key);
    if t.None? || !Tags.IsNumberTag(t.value) then None else Some(Tags.IntValue(t.value))
  }

  function GetInt(es: Entries, key: Option<Text>, default: Int32): (r: Int32)
    ensures r == if GetNullableInt(es, key).Some? then GetNullableInt(es, key).value else default
    ensures Find(es, key).Some? && Tags.IsNumberTag(Find(es, key).value) ==> r == Tags.IntValue(Find(es, key).value)
    ensures !(Find(es, key).Some? && Tags.IsNumberTag(Find(es, key).value)) ==> r == default
  {
    var t := Find(es, key);
    if t.None? || !Tags.IsNumberTag(t.value) then default else Tags.IntValue(t.value)
  }

  function GetNullableLong(es: Entries, key: Option<Text>): (r: Option<Int64>)
    ensures r.Some? <==> Find(es, key).Some? && Tags.IsNumberTag(Find(es, key).value)
    ensures r.Some? ==> r.value == Tags.LongValue(Find(es, key).value)
  {
    var t := Find(es, key);
    if t.None? || !Tags.IsNumberTag(t.value) then None else Some(Tags.LongValue(t.value))
  }

  function GetLong(es: Entries, key: Option<Text>, default: Int64): (r: Int64)
    ensures r == if GetNullableLong(es, key).Some? then GetNullableLong(es, key).value else default
    ensures Find(es, key).Some? && Tags.IsNumberTag(Find(es, key).value) ==> r == Tags.LongValue(Find(es, key).value)
    ensures !(Find(es, key).Some? && Tags.IsNumberTag(Find(es, key).value)) ==> r == default
  {
    var t := Find(es, key);
    if t.None? || !Tags.IsNumberTag(t.value) then default else Tags.LongValue(t.value)
  }

  /** getValue(key): the tag's value, here the tag that holds it, or null. */
  function GetValue(es: Entries, key: Option<Text>): (r: Option<Tags.Tag>)
    ensures r.Some? <==> key.Some? && key.value in Keys(es)
    ensures r.Some? ==> Binding(key.value, r.value) in es
  {
    Find(es, key)
  }

  /** getValue(key, valueType): the value only when valueType.isInstance
    * holds of it. The test on the value held by a tag is the parameter
    * holdsInstance, since a Java class may be a supertype (Number, Object). */
  function GetValueOfType(es: Entries, key: Option<Text>, holdsInstance: Tags.Tag -> bool): (r: Option<Tags.Tag>)
    ensures r.Some? <==> key.Some? && key.value in Keys(es) && holdsInstance(Lookup(es, key.value).value)
    ensures r.Some? ==> Binding(key.value, r.value) in es && r == GetValue(es, key)
  {
    var t := Find(es, key);
    if t.None? then None
    else if holdsInstance(t.value) then t else None
  }

  /** getValueByTag(key, tagType): the value only when the tag is of tagType. */
  function GetValueByTag(es: Entries, key: Option<Text>, tagType: Tags.TagClass): (r: Option<Tags.Tag>)
    ensures r.Some? <==> key.Some? && key.value in Keys(es) && Tags.ClassOf(Lookup(es, key.value).value) == tagType
    ensures r.Some? ==> Binding(key.value, r.value) in es
  {
    var t := Find(es, key);
    if t.Some? && Tags.ClassOf(t.value) == tagType then t else None
  }

  // ---------------------------------------------------------------------
  // put followed by get.

  /** putInt(k, v) then getInt(k, d) gives v back; every other key reads as before. */
  lemma {:induction false} PutIntGetInt(es: Entries, k: Text, v: Int32, key: Option<Text>, d: Int32)
    ensures GetInt(Put(es, k, Tags.IntTag(v)), key, d) == if key == Some(k) then v else GetInt(es, key, d)
  {
    if key.Some? {
      LookupPut(es, k, Tags.IntTag(v), key.value);
    }
  }

  lemma {:induction false} PutLongGetLong(es: Entries, k: Text, v: Int64, key: Option<Text>, d: Int64)
    ensures GetLong(Put(es, k, Tags.LongTag(v)), key, d) == if key == Some(k) then v else GetLong(es, key, d)
  {
    if key.Some? {
      LookupPut(es, k, Tags.LongTag(v), key.value);
    }
  }

  lemma {:induction false} PutShortGetShort(es: Entries, k: Text, v: Int16, key: Option<Text>, d: Int16)
    ensures GetShort(Put(es, k, Tags.ShortTag(v)), key, d) == if key == Some(k) then v else GetShort(es, key, d)
  {
    if key.Some? {
      LookupPut(es, k, Tags.ShortTag(v), key.value);
    }
  }

  lemma {:induction false} PutByteGetByte(es: Entries, k: Text, v: Int8, key: Option<Text>, d: Int8)
    ensures GetByte(Put(es, k, Tags.ByteTag(v)), key, d) == if key == Some(k) then v else GetByte(es, key, d)
  {
    if key.Some? {
      LookupPut(es, k, Tags.ByteTag(v), key.value);
    }
  }

  lemma {:induction false} PutBooleanGetBoolean(es: Entries, k: Text, v: bool, key: Option<Text>, d: bool)
    ensures GetBoolean(Put(es, k, Tags.BooleanTag(v)), key, d) == if key == Some(k) then v else GetBoolean(es, key, d)
  {
    if key.Some? {
      LookupPut(es, k, Tags.BooleanTag(v), key.value);
    }
  }

  lemma {:induction false} PutCharGetChar(es: Entries, k: Text, v: CodeUnit, key: Option<Text>, d: CodeUnit)
    ensures GetChar(Put(es, k, Tags.CharTag(v)), key, d) == if key == Some(k) then v else GetChar(es, key, d)
  {
    if key.Some? {
      LookupPut(es, k, Tags.CharTag(v), key.value);
    }
  }

  /** A char is not a number and a number is not a boolean: getInt of a
    * CharTag and getBoolean of an IntTag give the default. */
  lemma {:induction false} GettersRefuseOtherKinds(es: Entries, k: Text, c: CodeUnit, x: Int32, d: Int32, b: bool)
    ensures GetInt(Put(es, k, Tags.CharTag(c)), Some(k), d) == d
    ensures GetBoolean(Put(es, k, Tags.IntTag(x)), Some(k), b) == b
  {
    LookupPut(es, k, Tags.CharTag(c), k);
    LookupPut(es, k, Tags.IntTag(x), k);
  }

  /** getByte of an IntTag keeps the int's low 8 bits. */
  lemma {:induction false} GetByteNarrows(es: Entries, k: Text, x: Int32, d: Int8)
    ensures GetByte(Put(es, k, Tags.IntTag(x)), Some(k), d) == ToInt8(x)
  {
    LookupPut(es, k, Tags.IntTag(x), k);
    assert Tags.IntValue(Tags.IntTag(x)) == x;
  }

  /** getInt of a LongTag keeps the long's low 32 bits, and getLong of an
    * IntTag widens it. */
  lemma {:induction false} GetIntOfLong(es: Entries, k: Text, x: Int64, y: Int32, d: Int32, e: Int64)
    ensures GetInt(Put(es, k, Tags.LongTag(x)), Some(k), d) == ToInt32(x)
    ensures GetLong(Put(es, k, Tags.IntTag(y)), Some(k), e) == y
  {
    LookupPut(es, k, Tags.LongTag(x), k);
    LookupPut(es, k, Tags.IntTag(y), k);
  }

  // ---------------------------------------------------------------------
  // The mutable compound.

  class CompoundTag {
    var entries: Entries

    /** The compound's current contents as a tree node. */
    function Value(): Tags.Compound
      reads this
    {
      Tags.Compound(entries)
    }

    constructor ()
      ensures entries == []
    {
      entries := [];
    }

    /** CompoundTag.of(map): HashMap's copy constructor. */
    static method Of(m: Entries) returns (c: CompoundTag)
      requires DistinctKeys(m)
      ensures fresh(c) && c.entries == m
    {
      c := new CompoundTag();
      c.entries := PutAll([], m);
      PutAllCopies([], m);
    }

    /** get(): the compound itself. */
    method Get() returns (es: Entries)
      ensures es == entries
    {
      es := entries;
    }

    /** set(map): clear(), then putAll(map), so the contents become the map's. */
    method Set(m: Entries)
      requires DistinctKeys(m)
      modifies this
      ensures entries == m
    {
      entries := [];
      entries := PutAll(entries, m);
      PutAllCopies([], m);
    }

    /** put(key, value): null key or value throws; otherwise the previous
      * value (or null) is returned and the key is rebound. An empty key is
      * a key like any other. */
    method Put(key: Option<Text>, value: Option<Tags.Tag>) returns (r: Result<Option<Tags.Tag>>)
      modifies this
      ensures r.Ok? <==> key.Some? && value.Some?
      ensures r.Ok? ==> r.value == Lookup(old(entries), key.value) && entries == AssocList.Put(old(entries), key.value, value.value)
      ensures r.Thrown? ==> r.ex == NullPointer && entries == old(entries)
      ensures DistinctKeys(old(entries)) ==> DistinctKeys(entries)
    {
      if key.None? || value.None? {
        return Thrown(NullPointer);
      }
      r := Ok(Lookup(entries, key.value));
      if DistinctKeys(entries) {
        PutDistinct(entries, key.value, value.value);
      }
      entries := AssocList.Put(entries, key.value, value.value);
    }

    /** putValue(key, value): put(key, Tag.fromObject(value)); the
      * conversion runs, and may throw, before put checks the key. */
    method PutValue(key: Option<Text>, value: Option<TagValues.JavaObject>) returns (r: Result<()>)
      modifies this
      ensures var t := TagValues.FromObject(value);
        if t.Thrown? then r == Thrown(t.ex) && entries == old(entries)
        else if key.None? then r == Thrown(NullPointer) && entries == old(entries)
        else r == Ok(()) && entries == AssocList.Put(old(entries), key.value, t.value)
    {
      var t := TagValues.Convert(value);
      if t.Thrown? {
        return Thrown(t.ex);
      }
      var put := Put(key, Some(t.value));
      r := if put.Thrown? then Thrown(put.ex) else Ok(());
    }

    method PutBoolean(key: Option<Text>, v: bool) returns (r: Result<()>)
      modifies this
      ensures r.Ok? <==> key.Some?
      ensures entries == if key.Some? then AssocList.Put(old(entries), key.value, Tags.BooleanTag(v)) else old(entries)
    {
      var put := Put(key, Some(Tags.BooleanTag(v)));
      r := if put.Thrown? then Thrown(put.ex) else Ok(());
    }

    method PutChar(key: Option<Text>, v: CodeUnit) returns (r: Result<()>)
      modifies this
      ensures r.Ok? <==> key.Some?
      ensures entries == if key.Some? then AssocList.Put(old(entries), key.value, Tags.CharTag(v)) else old(entries)
    {
      var put := Put(key, Some(Tags.CharTag(v)));
      r := if put.Thrown? then Thrown(put.ex) else Ok(());
    }

    method PutByte(key: Option<Text>, v: Int8) returns (r: Result<()>)
      modifies this
      ensures r.Ok? <==> key.Some?
      ensures entries == if key.Some? then AssocList.Put(old(entries), key.value, Tags.ByteTag(v)) else old(entries)
    {
      var put := Put(key, Some(Tags.ByteTag(v)));
      r := if put.Thrown? then Thrown(put.ex) else Ok(());
    }

    method PutShort(key: Option<Text>, v: Int16) returns (r: Result<()>)
      modifies this
      ensures r.Ok? <==> key.Some?
      ensures entries == if key.Some? then AssocList.Put(old(entries), key.value, Tags.ShortTag(v)) else old(entries)
    {
      var put := Put(key, Some(Tags.ShortTag(v)));
      r := if put.Thrown? then Thrown(put.ex) else Ok(());
    }

    method PutInt(key: Option<Text>, v: Int32) returns (r: Result<()>)
      modifies this
      ensures r.Ok? <==> key.Some?
      ensures entries == if key.Some? then AssocList.Put(old(entries), key.value, Tags.IntTag(v)) else old(entries)
    {
      var put := Put(key, Some(Tags.IntTag(v)));
      r := if put.Thrown? then Thrown(put.ex) else Ok(());
    }

    method PutLong(key: Option<Text>, v: Int64) returns (r: Result<()>)
      modifies this
      ensures r.Ok? <==> key.Some?
      ensures entries == if key.Some? then AssocList.Put(old(entries), key.value, Tags.LongTag(v)) else old(entries)
    {
      var put := Put(key, Some(Tags.LongTag(v)));
      r := if put.Thrown? then Thrown(put.ex) else Ok(());
    }

    method PutFloat(key: Option<Text>, bits: Bits32) returns (r: Result<()>)
      modifies this
      ensures r.Ok? <==> key.Some?
      ensures entries == if key.Some? then AssocList.Put(old(entries), key.value, Tags.FloatTag(bits)) else old(entries)
    {
      var put := Put(key, Some(Tags.FloatTag(bits)));
      r := if put.Thrown? then Thrown(put.ex) else Ok(());
    }

    method PutDouble(key: Option<Text>, bits: Bits64) returns (r: Result<()>)
      modifies this
      ensures r.Ok? <==> key.Some?
      ensures entries == if key.Some? then AssocList.Put(old(entries), key.value, Tags.DoubleTag(bits)) else old(entries)
    {
      var put := Put(key, Some(Tags.DoubleTag(bits)));
      r := if put.Thrown? then Thrown(put.ex) else Ok(());
    }
  }
}
