/** Where the codec departs from what its layout suggests: names with '$'
  * in them, the END-typed compound array, a list nested in a list, and map
  * tags, which no kind covers. */
module CodecQuirks {
  import opened JavaTypes
  import opened AssocList
  import opened Wire
  import opened Tags
  import opened NbtTypes
  import opened NbtEncoding
  import opened NbtDecoding
  import opened RoundTrip
  import opened EntryNames
  import opened TreeRoundTrip

  /** An unregistered suffix is no error: the text from the last '$' on is
    * cut from the name and the wire kind stays. */
  lemma {:induction false} UnregisteredSuffixDropped(key: Text, sfx: Text, wire: NbtType)
    requires DOLLAR !in sfx && BySuffix(sfx).None?
    ensures SplitName(key + [DOLLAR] + sfx, wire) == EntryHeader(key, wire, None)
  {
    var name := key + [DOLLAR] + sfx;
    assert name[|key| + 1..] == sfx;
    LastIndexAt(name, DOLLAR, |key|);
    assert name[..|key|] == key;
  }

  /** A non-list entry whose key holds a '$' does not read back under its
    * key: the part after the last '$' is cut off, and when that part is a
    * registered suffix the entry is read as the suffix's kind, whatever the
    * id byte said, so the payload is then read as another kind. */
  lemma {:induction false} EntryWithDollarKey(key: Text, sfx: Text, t: Tag, tail: seq<Byte>)
    requires !t.ListTag? && DOLLAR !in sfx
    requires EncodeEntry(key + [DOLLAR] + sfx, t).Ok?
    ensures ByClass(ClassOf(t)).Some? && EncodePayload(ByClass(ClassOf(t)).value, t).Ok?
    ensures var k := ByClass(ClassOf(t)).value;
      var read := ReadEntry(EncodeEntry(key + [DOLLAR] + sfx, t).value + tail);
      var payload := EncodePayload(k, t).value + tail;
      Suffix(k).None? ==>
        (BySuffix(sfx).None? ==> read == Ok(Parsed(Some(EntryHeader(key, k, None)), payload)))
        && (BySuffix(sfx).Some? && DOLLAR !in key ==>
              read == Ok(Parsed(Some(EntryHeader(key, BySuffix(sfx).value, None)), payload))
              && BySuffix(sfx).value != k)
  {
    var name := key + [DOLLAR] + sfx;
    NonListEntryBytes(name, t, tail);
    var k := ByClass(ClassOf(t)).value;
    if Suffix(k).None? {
      ByClassSpec(ClassOf(t), k);
      ByIndexSpec(Id(k), k);
      assert k != END;
      ReadEntryBack(k, name, k, EncodePayload(k, t).value + tail);
      if BySuffix(sfx).None? {
        UnregisteredSuffixDropped(key, sfx, k);
      } else if DOLLAR !in key {
        var k2 := BySuffix(sfx).value;
        BySuffixSpec(sfx, k2);
        SplitAtSuffix(key, sfx, k, k2);
      }
    }
  }

  /** A COMPOUND_ARRAY payload whose element id is END is read as an empty
    * FloatArrayTag, without reading any element, whatever the count says. */
  lemma {:induction false} EndCompoundArrayIsFloatArray(count: Int32, rest: seq<Byte>, d: int, maximumDepth: Int32)
    requires d <= maximumDepth
    ensures ReadPayload(COMPOUND_ARRAY, None, [Id(END)] + (WriteInt(count) + rest), d, maximumDepth)
      == Ok(Parsed(FloatArrayTag([]), rest))
  {
    PayloadAsCompoundArray([Id(END)] + (WriteInt(count) + rest), d, maximumDepth);
    ReadIdByte(END, WriteInt(count) + rest);
    ReadWriteInt(count, rest);
  }

  /** A list that is an element of a list is written with writeList(LIST, ..):
    * its element id byte is 9 whatever its elements are, and each of its
    * elements is written as a LIST payload, so an inner list of any other
    * kind fails with a ClassCastException; an inner empty list is the id 9
    * and the count 0. */
  lemma {:induction false} NestedListWrittenAsList(inner: seq<Tag>)
    ensures Id(LIST) == 9
    ensures inner == [] ==>
      EncodePayload(LIST, ListTag([ListTag([])])) == Ok([Id(LIST)] + WriteInt(1) + ([Id(LIST)] + WriteInt(0)))
    ensures inner != [] && !inner[0].ListTag? ==>
      EncodePayload(LIST, ListTag([ListTag(inner)])) == Thrown(ClassCast)
  {
    ListKind();
    ByClassSpec(ListTagClass, LIST);
    if inner == [] {
      assert TagClassOf(LIST) == Some(ListTagClass);
      assert EncodePayloads(LIST, []) == Ok([]);
      assert ([Id(LIST)] + WriteInt(0)) + [] == [Id(LIST)] + WriteInt(0);
      assert EncodeList(LIST, []) == Ok([Id(LIST)] + WriteInt(0));
      assert EncodePayload(LIST, ListTag([])) == Ok([Id(LIST)] + WriteInt(0));
      assert EncodePayloads(LIST, [ListTag([])]) == Ok([Id(LIST)] + WriteInt(0));
    } else if !inner[0].ListTag? {
      assert ClassOf(inner[0]) != ListTagClass;
      assert EncodePayload(LIST, inner[0]) == Thrown(ClassCast);
      assert EncodePayloads(LIST, inner) == Thrown(ClassCast);
      assert EncodeList(LIST, inner) == Thrown(ClassCast);
      assert EncodePayloads(LIST, [ListTag(inner)]) == Thrown(ClassCast);
    }
  }

  /** No kind is registered for MapTag or MapArrayTag, so writeEntry fails
    * on the null kind: write(map) throws, and so does writing any compound
    * that holds a map. */
  lemma {:induction false} MapsAreNotWritable(key: Text, m: TagMap, ms: seq<Option<TagMap>>, more: seq<Binding<Text, Tag>>)
    ensures Write(MapTag(m)) == Thrown(NullPointer)
    ensures Write(MapArrayTag(ms)) == Thrown(NullPointer)
    ensures EncodeCompound(Compound([Binding(key, MapTag(m))] + more)) == Thrown(NullPointer)
  {
    ByClassMissing(MapTagClass);
    ByClassMissing(MapArrayTagClass);
    var es := [Binding(key, MapTag(m))] + more;
    assert es[0].key == key && es[0].value == MapTag(m);
    assert EncodeEntries(es) == Thrown(NullPointer);
  }
}
