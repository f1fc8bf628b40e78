# LanternNBT in Dafny

A model of the core of LanternNBT, a Java library for NBT, the tag-tree
format Minecraft uses. The model covers:

- **the tag tree** (`Tags`): one datatype constructor per concrete tag
  class, with compounds and map tags as association lists and `Option`
  standing for a Java null inside object arrays;
- **the type registry** (`NbtTypes`): the `NbtType` enum with its id
  byte, name suffix and tag class, and the three lookup tables that its
  static block fills;
- **the binary codec** (`NbtEncoding`, `NbtDecoding`): what
  `NbtTagOutputStream` writes and what `NbtTagInputStream` reads. Both are
  functions over byte sequences, with Java's exceptions as a `Result`.
  They are built on the big-endian `DataOutputStream` primitives
  (`Wire`) and modified UTF-8 (`ModifiedUtf8`);
- **the round trip** (`RoundTrip`, `EntryNames`, `TreeRoundTrip`):
  `read(write(t))` gives `t` back, or the depth error when `t` is
  deeper than the reader's bound;
- **where the codec departs from its layout** (`CodecQuirks`,
  `BooleanPacking`);
- **the mutable tag classes**: `ListTag` with its element-class lock
  (`ListTags`), `CompoundTag` and its typed getters (`CompoundTags`),
  `MapTag` (`MapTags`), `ValueTag`, `IntTag`, `ShortTag`, `CharTag`
  (`ScalarTags`), and the array tags (`ArrayTags`). These are classes
  whose methods change their fields in place;
- **`Tag.fromObject` and `Tag.defaultTagValue`** (`TagValues`);
- **the editor's integer and char converters** (`Converters`): parsing,
  printing and the text filter's decision.

Java's fixed-width integers are subset types of `int` (`Int8` … `Int64`),
and narrowing is written out (`ToInt8` … `ToInt64`). A `char` is a
UTF-16 code unit and a `String` a sequence of them. `float` and `double`
values are their IEEE bit patterns.

Module layout: `java_types.dfy` (Option, Result, exceptions, integer
widths), `assoc_list.dfy`, `tags.dfy`, `nbt_type.dfy`, `wire.dfy`,
`mutf8.dfy`, `floating.dfy`, `encoder.dfy`, `decoder.dfy`,
`entry_names.dfy`, `roundtrip.dfy`, `tree_roundtrip.dfy`,
`codec_quirks.dfy`, `boolean_packing.dfy`, `list_tag.dfy`,
`compound_tag.dfy`, `map_tag.dfy`, `scalar_tags.dfy`, `array_tag.dfy`,
`tag_values.dfy`, `converters.dfy`.

## Model

| member | source | states |
|---|---|---|
| NbtTypes.ClassicKind | nbt/src/main/java/org/lanternpowered/nbt/io/NbtType.java:55-67 | for every id 0..13 there is a suffix-less kind with that id |
| NbtTypes.RegistryIds | nbt/src/main/java/org/lanternpowered/nbt/io/NbtType.java:55-79 | the classic kinds come first, END..LONG_ARRAY at ids 0..12 and UNKNOWN at 13, so byIndex has length 14; BOOLEAN shares id 1, BOOLEAN_ARRAY id 7, SHORT/FLOAT/DOUBLE/STRING_ARRAY share 9 with LIST, CHAR/CHAR_ARRAY/COMPOUND_ARRAY share 8 with STRING |
| NbtTypes.EveryKindIsAValue | nbt/src/main/java/org/lanternpowered/nbt/io/NbtType.java:53-82 | values() lists every kind, so the static loop visits each |
| NbtTypes.SuffixInjective | nbt/src/main/java/org/lanternpowered/nbt/io/NbtType.java:71-79 | no two kinds share a suffix |
| NbtTypes.ClassInjective | nbt/src/main/java/org/lanternpowered/nbt/io/NbtType.java:53-82 | no two kinds share a tag class |
| NbtTypes.IdInjective | nbt/src/main/java/org/lanternpowered/nbt/io/NbtType.java:55-67 | two suffix-less kinds with one id are one kind |
| NbtTypes.ByIndexAfterSpec | nbt/src/main/java/org/lanternpowered/nbt/io/NbtType.java:102-111 | after the loop over a prefix of values(), byIndex[id] is a suffix-less kind with that id from the prefix, and empty only if the prefix has none |
| NbtTypes.BySuffixAfterSpec | nbt/src/main/java/org/lanternpowered/nbt/io/NbtType.java:102-111 | after the loop over a prefix, bySuffix maps a text to a kind of the prefix with that suffix, and to nothing if none has it |
| NbtTypes.ByClassAfterSpec | nbt/src/main/java/org/lanternpowered/nbt/io/NbtType.java:102-111 | after the loop over a prefix, byClass maps a class to a kind of the prefix declaring it, and to nothing if none does |
| NbtTypes.ByIndexSpec | nbt/src/main/java/org/lanternpowered/nbt/io/NbtType.java:103-111 | byIndex[id] is k exactly when k is suffix-less with id `id`: it inverts the id on the classic kinds |
| NbtTypes.ByIndexFilled | nbt/src/main/java/org/lanternpowered/nbt/io/NbtType.java:103-111 | byIndex is filled at every index 0..13 and nowhere else |
| NbtTypes.BySuffixSpec | nbt/src/main/java/org/lanternpowered/nbt/io/NbtType.java:105 | bySuffix.get(s) is k exactly when s is k's suffix |
| NbtTypes.ByClassSpec | nbt/src/main/java/org/lanternpowered/nbt/io/NbtType.java:106-108 | byClass.get(c) is k exactly when k declares class c |
| NbtTypes.ByClassMissing | nbt/src/main/java/org/lanternpowered/nbt/io/NbtType.java:53-82 | byClass has no entry exactly for MapTag and MapArrayTag |
| Wire.ReadWriteByte | nbt/src/main/java/org/lanternpowered/nbt/io/NbtTagOutputStream.java:104-106 | readByte gives back the byte writeByte wrote and leaves what follows |
| Wire.ReadWriteShort | nbt/src/main/java/org/lanternpowered/nbt/io/NbtTagOutputStream.java:112-114 | readShort gives back the big-endian short writeShort wrote |
| Wire.ReadWriteInt | nbt/src/main/java/org/lanternpowered/nbt/io/NbtTagOutputStream.java:129-131 | readInt gives back the big-endian int writeInt wrote |
| Wire.ReadWriteLong | nbt/src/main/java/org/lanternpowered/nbt/io/NbtTagOutputStream.java:139-141 | readLong gives back the big-endian long writeLong wrote |
| Wire.ReadWriteBoolean | nbt/src/main/java/org/lanternpowered/nbt/io/NbtTagOutputStream.java:182-184 | readBoolean gives back the boolean writeBoolean wrote |
| Wire.ReadWords | nbt/src/main/java/org/lanternpowered/nbt/io/NbtTagInputStream.java:211-223 | reading n fixed-width words succeeds exactly when n times the width bytes remain, yields n words and consumes exactly those bytes, else end of file |
| Wire.ReadWordsWords | nbt/src/main/java/org/lanternpowered/nbt/io/NbtTagInputStream.java:211-223 | a run of written words reads back as the values modulo the word width |
| ModifiedUtf8.WriteUtf | nbt/src/main/java/org/lanternpowered/nbt/io/NbtTagOutputStream.java:171-173 | writeUTF fails exactly when the encoding exceeds 65535 bytes; otherwise it is a 2-byte length then the encoding |
| ModifiedUtf8.DecodeEncode | nbt/src/main/java/org/lanternpowered/nbt/io/NbtTagInputStream.java:255-256 | decoding the modified UTF-8 of a text gives the text back |
| ModifiedUtf8.ReadWriteUtf | nbt/src/main/java/org/lanternpowered/nbt/io/NbtTagInputStream.java:255-256 | readUTF gives back every text writeUTF accepted, leaving what follows |
| ModifiedUtf8.OneUnitFits | nbt/src/main/java/org/lanternpowered/nbt/io/NbtTagOutputStream.java:123-125 | a one-character text always fits writeUTF, in at most 5 bytes |
| Floating.FloatToIntBits | nbt/src/main/java/org/lanternpowered/nbt/io/NbtTagOutputStream.java:149-151 | writeFloat writes every NaN as the canonical NaN and any other float as its own bits |
| Floating.DoubleToLongBits | nbt/src/main/java/org/lanternpowered/nbt/io/NbtTagOutputStream.java:160-162 | writeDouble writes every NaN as the canonical NaN and any other double as its own bits |
| Floating.Narrow | nbt/src/main/java/org/lanternpowered/nbt/DoubleTag.java:66-73 | a float or double cast to int or long is within range, 0 for NaN, the nearer bound for an infinity; NarrowValue states finite inputs |
| NbtEncoding.Then | nbt/src/main/java/org/lanternpowered/nbt/io/NbtTagOutputStream.java:260-286 | two writes in sequence succeed only when both do, give the concatenation, and the first exception wins |
| TreeRoundTrip.WriteReadRoundTrip | nbt/src/main/java/org/lanternpowered/nbt/io/NbtTagOutputStream.java:97-99 | read(write(t)) gives t back and leaves what follows on the stream when t's height is within maximumDepth, and throws the depth error otherwise |
| TreeRoundTrip.EntryRoundTrip | nbt/src/main/java/org/lanternpowered/nbt/io/NbtTagOutputStream.java:260-286 | an entry written by writeEntry reads back by readEntry and readPayload as its key and tag, for a key without '$' |
| TreeRoundTrip.ListEntryRoundTrip | nbt/src/main/java/org/lanternpowered/nbt/io/NbtTagOutputStream.java:263-274 | a list entry (id 9, key marked with "$List$" and the element suffix, the list) reads back as its key and list |
| TreeRoundTrip.PayloadRoundTrip | nbt/src/main/java/org/lanternpowered/nbt/io/NbtTagInputStream.java:174-321 | every payload writePayload produces reads back as the tag written when it fits under the depth bound, and as the depth error when it does not |
| TreeRoundTrip.ListRoundTrip | nbt/src/main/java/org/lanternpowered/nbt/io/NbtTagInputStream.java:284-301 | a written list (element id, count, payloads) reads back as the same list, its elements one level deeper |
| TreeRoundTrip.ElementsRoundTrip | nbt/src/main/java/org/lanternpowered/nbt/io/NbtTagInputStream.java:292-300 | the element loop reads back every written payload in order into the ListTag, the lock agreeing with the element kind |
| TreeRoundTrip.EntriesRoundTrip | nbt/src/main/java/org/lanternpowered/nbt/io/NbtTagInputStream.java:163-171 | readCompound reads every entry writeCompound wrote, up to the END byte, under distinct keys |
| TreeRoundTrip.CompoundsRoundTrip | nbt/src/main/java/org/lanternpowered/nbt/io/NbtTagInputStream.java:304-316 | a compound array's compounds read back in order, each two levels deeper |
| TreeRoundTrip.ListKind | nbt/src/main/java/org/lanternpowered/nbt/io/NbtType.java:53-82 | LIST is suffix-less, has id 9 and the class ListTag |
| TreeRoundTrip.PayloadTooDeep | nbt/src/main/java/org/lanternpowered/nbt/io/NbtTagInputStream.java:175-178 | any payload read at a depth beyond maximumDepth throws before reading a byte |
| TreeRoundTrip.ReadIsReadNamed | nbt/src/main/java/org/lanternpowered/nbt/io/NbtTagInputStream.java:116-126 | read() is readEntry, the END check, then the payload at depth 0 with the name dropped |
| TreeRoundTrip.ReadListEmpty | nbt/src/main/java/org/lanternpowered/nbt/io/NbtTagInputStream.java:284-291 | a list whose element kind is END or whose count is 0 reads as an empty ListTag without reading elements |
| RoundTrip.ScalarRoundTrip | nbt/src/main/java/org/lanternpowered/nbt/io/NbtTagInputStream.java:180-270 | every single-value payload (byte, short, int, long, float, double, string, boolean, char, char array) reads back as the tag written |
| RoundTrip.ValueArrayRoundTrip | nbt/src/main/java/org/lanternpowered/nbt/io/NbtTagInputStream.java:182-283 | every array-of-values payload reads back as the tag written |
| RoundTrip.CharRoundTrip | nbt/src/main/java/org/lanternpowered/nbt/io/NbtTagInputStream.java:201-206 | a char is written as a one-character UTF string and read back as that char |
| RoundTrip.ByteArrayRoundTrip | nbt/src/main/java/org/lanternpowered/nbt/io/NbtTagInputStream.java:182-185 | a byte array is a count then the raw bytes, and reads back unchanged |
| RoundTrip.ShortArrayRoundTrip | nbt/src/main/java/org/lanternpowered/nbt/io/NbtTagInputStream.java:188-200 | a short array is SHORT's id, a count, the shorts, and reads back unchanged |
| RoundTrip.StringArrayRoundTrip | nbt/src/main/java/org/lanternpowered/nbt/io/NbtTagInputStream.java:257-268 | a string array is STRING's id, a count, the strings, and reads back unchanged |
| RoundTrip.ReadTypedCountBack | nbt/src/main/java/org/lanternpowered/nbt/io/NbtTagInputStream.java:188-200 | a list-shaped array header with the expected element id reads back as its count |
| RoundTrip.ReadPackedBooleans | nbt/src/main/java/org/lanternpowered/nbt/io/NbtTagInputStream.java:272-283 | a boolean array of at most 8 elements reads back exactly |
| NbtDecoding.LastIndexOf | nbt/src/main/java/org/lanternpowered/nbt/io/NbtTagInputStream.java:140-141 | lastIndexOf gives the last position of the character, or -1 exactly when it does not occur |
| NbtDecoding.ReadEntry | nbt/src/main/java/org/lanternpowered/nbt/io/NbtTagInputStream.java:128-161 | a successful readEntry consumes at least one byte |
| NbtDecoding.ReadPayload | nbt/src/main/java/org/lanternpowered/nbt/io/NbtTagInputStream.java:174-321 | a successful readPayload consumes at least one byte |
| NbtDecoding.Unpacked | nbt/src/main/java/org/lanternpowered/nbt/io/NbtTagInputStream.java:272-283 | the booleans read are n long and element j is bit (j mod 8) of the first byte |
| EntryNames.SplitSuffixedKey | nbt/src/main/java/org/lanternpowered/nbt/io/NbtTagInputStream.java:140-158 | the name splitter undoes the '$' suffix the writer appends, giving back the key and the kind |
| EntryNames.SplitListKeySuffixed | nbt/src/main/java/org/lanternpowered/nbt/io/NbtTagInputStream.java:145-153 | a list name marked "$List$" and a suffix splits back into the key and the element kind |
| EntryNames.SplitListKeyPlain | nbt/src/main/java/org/lanternpowered/nbt/io/NbtTagInputStream.java:140-158 | a list name of a classic element kind is the key itself, with no list kind |
| EntryNames.SplitAtSuffix | nbt/src/main/java/org/lanternpowered/nbt/io/NbtTagInputStream.java:140-144 | a registered suffix after the last '$' replaces the wire kind |
| CodecQuirks.UnregisteredSuffixDropped | nbt/src/main/java/org/lanternpowered/nbt/io/NbtTagInputStream.java:140-144 | an unregistered suffix is cut from the name and the wire kind kept, with no error |
| CodecQuirks.EntryWithDollarKey | nbt/src/main/java/org/lanternpowered/nbt/io/NbtTagInputStream.java:140-158 | a non-list entry whose key holds '$' reads back under the shortened key, and as another kind when the text after '$' is a registered suffix |
| CodecQuirks.EndCompoundArrayIsFloatArray | nbt/src/main/java/org/lanternpowered/nbt/io/NbtTagInputStream.java:305-311 | a compound array with element id END reads as an empty FloatArrayTag whatever its count |
| CodecQuirks.NestedListWrittenAsList | nbt/src/main/java/org/lanternpowered/nbt/io/NbtTagOutputStream.java:205-207 | a list inside a list is written with element id 9; an inner list of any other kind fails with ClassCastException |
| CodecQuirks.MapsAreNotWritable | nbt/src/main/java/org/lanternpowered/nbt/io/NbtTagOutputStream.java:260-262 | writing a MapTag, a MapArrayTag or a compound holding a map throws NullPointerException on the missing kind |
| BooleanPacking.WriteBooleanArray | nbt/src/main/java/org/lanternpowered/nbt/io/NbtTagOutputStream.java:185-204 | the packing loop writes the int ceil(n/8)+2, the short n, then its bytes, as PackBooleans states: byte 0 ORs bit (j mod 8) of every element and the later bytes are 0 |
| BooleanPacking.ReadBooleanArray | nbt/src/main/java/org/lanternpowered/nbt/io/NbtTagInputStream.java:272-283 | the reading loop returns exactly ReadBooleans: every element from bit (j mod 8) of byte 0 |
| BooleanPacking.NineBooleansSmear | nbt/src/main/java/org/lanternpowered/nbt/io/NbtTagOutputStream.java:185-204 | nine booleans with only the last set read back with the first set too |
| BooleanPacking.GroupedRoundTrip | nbt/src/main/java/org/lanternpowered/nbt/io/NbtTagOutputStream.java:185-204 | with one byte per group of eight, every boolean array of up to 32767 elements reads back exactly |
| BooleanPacking.GroupedAgreesUpToEight | nbt/src/main/java/org/lanternpowered/nbt/io/NbtTagOutputStream.java:185-204 | for at most 8 booleans the grouped packer writes what the packer as written writes |
| BooleanPacking.UngroupGroups | nbt/src/main/java/org/lanternpowered/nbt/io/NbtTagInputStream.java:272-283 | unpacking the grouped bytes gives every boolean back |
| ListTags.AddOutcome | nbt/src/main/java/org/lanternpowered/nbt/ListTag.java:80-93 | add(e) appends e and takes the lock only while unset; it throws on null and on a class other than the lock's in a non-empty list, changing nothing |
| ListTags.AddAtOutcome | nbt/src/main/java/org/lanternpowered/nbt/ListTag.java:95-104 | add(index, e) inserts at index under the same checks, the class check before the range check |
| ListTags.SetAtOutcome | nbt/src/main/java/org/lanternpowered/nbt/ListTag.java:71-78 | set(index, e) replaces element index and returns the old one; it checks the lock even on an empty list |
| ListTags.RemoveAtOutcome | nbt/src/main/java/org/lanternpowered/nbt/ListTag.java:34 | remove(index) takes out element index and returns it; the lock stays |
| ListTags.Cleared | nbt/src/main/java/org/lanternpowered/nbt/ListTag.java:34 | clear() empties the list and keeps the lock |
| ListTags.ValidateFromAccepts | nbt/src/main/java/org/lanternpowered/nbt/ListTag.java:106-121 | validate accepts only an empty collection or one non-null element with no lock seen, so a second element always fails |
| ListTags.AddAllAccepts | nbt/src/main/java/org/lanternpowered/nbt/ListTag.java:124-134 | addAll succeeds exactly on an empty collection, or one non-null element into an empty or unlocked list; a failure changes nothing |
| ListTags.AddAllRefusesTwo | nbt/src/main/java/org/lanternpowered/nbt/ListTag.java:106-121 | two elements are refused even by an empty, unlocked list |
| ListTags.AddAllKeepsLock | nbt/src/main/java/org/lanternpowered/nbt/ListTag.java:124-134 | addAll(c) keeps "elements imply a lock" and never changes a lock once set |
| ListTags.StaleLockMixesClasses | nbt/src/main/java/org/lanternpowered/nbt/ListTag.java:86-88 | a list of ints emptied by remove(0) keeps its IntTag lock; add skips the class check on an empty list, so it takes a string, then refuses a second string but takes an int, ending with a string and an int under an IntTag lock |
| ListTags.SetListReplaces | nbt/src/main/java/org/lanternpowered/nbt/ListTag.java:65-68 | set(list) succeeds exactly on an empty or one-element non-null list and then holds exactly that list |
| ListTags.ListTagObject.Add | nbt/src/main/java/org/lanternpowered/nbt/ListTag.java:80-93 | the object's elements and lock become AddOutcome's |
| ListTags.ListTagObject.AddAt | nbt/src/main/java/org/lanternpowered/nbt/ListTag.java:95-104 | the object's state becomes AddAtOutcome's |
| ListTags.ListTagObject.SetAt | nbt/src/main/java/org/lanternpowered/nbt/ListTag.java:71-78 | the object's state becomes SetAtOutcome's |
| ListTags.ListTagObject.Validate | nbt/src/main/java/org/lanternpowered/nbt/ListTag.java:106-121 | the validation loop returns exactly what ValidateFrom defines, starting from the lock (or unset on an empty list) |
| ListTags.ListTagObject.AddAll | nbt/src/main/java/org/lanternpowered/nbt/ListTag.java:124-134 | the object's state becomes AddAllOutcome's |
| ListTags.ListTagObject.AddAllAt | nbt/src/main/java/org/lanternpowered/nbt/ListTag.java:136-146 | the object's state and result become AddAllAtOutcome's, which AddAllAtAccepts, AddAllAtKeepsLock and AddAllAtEnd characterise |
| ListTags.ListTagObject.RemoveAt | nbt/src/main/java/org/lanternpowered/nbt/ListTag.java:34 | the object's state becomes RemoveAtOutcome's |
| ListTags.ListTagObject.Clear | nbt/src/main/java/org/lanternpowered/nbt/ListTag.java:34 | the object's state becomes Cleared's |
| ListTags.ListTagObject.SetList | nbt/src/main/java/org/lanternpowered/nbt/ListTag.java:65-68 | the object's state becomes SetListOutcome's |
| ListTags.ListTagObject.Of | nbt/src/main/java/org/lanternpowered/nbt/ListTag.java:43-50 | of(list) succeeds exactly when addAll on an empty list does, and holds its result |
| ListTags.ListTagObject.Get | nbt/src/main/java/org/lanternpowered/nbt/ListTag.java:59-62 | get() returns the elements themselves |
| CompoundTags.Find | nbt/src/main/java/org/lanternpowered/nbt/CompoundTag.java:91-93 | get(key) finds the tag bound to the key; a null key finds nothing |
| CompoundTags.GetNullableBoolean | nbt/src/main/java/org/lanternpowered/nbt/CompoundTag.java:176-182 | non-null exactly when the key holds a BooleanTag, and then its value |
| CompoundTags.GetBoolean | nbt/src/main/java/org/lanternpowered/nbt/CompoundTag.java:160-166 | the BooleanTag's value when the key holds a BooleanTag, the default otherwise, which is exactly where getNullableBoolean is null |
| CompoundTags.GetNullableChar | nbt/src/main/java/org/lanternpowered/nbt/CompoundTag.java:230-236 | non-null exactly when the key holds a CharTag, and then its value |
| CompoundTags.GetChar | nbt/src/main/java/org/lanternpowered/nbt/CompoundTag.java:214-220 | the CharTag's value when the key holds a CharTag, the default otherwise, which is exactly where getNullableChar is null |
| CompoundTags.GetNullableByte | nbt/src/main/java/org/lanternpowered/nbt/CompoundTag.java:284-290 | non-null exactly when the key holds a NumberTag, and then that tag's byteValue (Tags.ByteValue: narrowed as Java narrows) |
| CompoundTags.GetByte | nbt/src/main/java/org/lanternpowered/nbt/CompoundTag.java:268-274 | the tag's byteValue when the key holds a NumberTag (a float or double included), the default otherwise, which is exactly where getNullableByte is null |
| CompoundTags.GetNullableShort | nbt/src/main/java/org/lanternpowered/nbt/CompoundTag.java:338-344 | non-null exactly when the key holds a NumberTag, and then that tag's shortValue (Tags.ShortValue: narrowed as Java narrows) |
| CompoundTags.GetShort | nbt/src/main/java/org/lanternpowered/nbt/CompoundTag.java:322-328 | the tag's shortValue when the key holds a NumberTag (a float or double included), the default otherwise, which is exactly where getNullableShort is null |
| CompoundTags.GetNullableInt | nbt/src/main/java/org/lanternpowered/nbt/CompoundTag.java:392-398 | non-null exactly when the key holds a NumberTag, and then that tag's intValue (Tags.IntValue: narrowed as Java narrows) |
| CompoundTags.GetInt | nbt/src/main/java/org/lanternpowered/nbt/CompoundTag.java:376-382 | the tag's intValue when the key holds a NumberTag (a float or double included), the default otherwise, which is exactly where getNullableInt is null |
| CompoundTags.GetNullableLong | nbt/src/main/java/org/lanternpowered/nbt/CompoundTag.java:446-452 | non-null exactly when the key holds a NumberTag, and then that tag's longValue (Tags.LongValue: narrowed as Java narrows) |
| CompoundTags.GetLong | nbt/src/main/java/org/lanternpowered/nbt/CompoundTag.java:430-436 | the tag's longValue when the key holds a NumberTag (a float or double included), the default otherwise, which is exactly where getNullableLong is null |
| CompoundTags.GetValue | nbt/src/main/java/org/lanternpowered/nbt/CompoundTag.java:125-128 | non-null exactly when the key is present, and then the bound tag |
| CompoundTags.GetValueOfType | nbt/src/main/java/org/lanternpowered/nbt/CompoundTag.java:91-98 | non-null exactly when the key is present and its value is an instance of the type, and then what getValue(key) gives |
| CompoundTags.GetValueByTag | nbt/src/main/java/org/lanternpowered/nbt/CompoundTag.java:110-116 | non-null exactly when the key holds a tag of the given class |
| CompoundTags.PutIntGetInt | nbt/src/main/java/org/lanternpowered/nbt/CompoundTag.java:352-354 | after putInt(k, v), getInt(k, d) is v and every other key reads as before |
| CompoundTags.PutLongGetLong | nbt/src/main/java/org/lanternpowered/nbt/CompoundTag.java:406-408 | after putLong(k, v), getLong(k, d) is v and every other key reads as before |
| CompoundTags.PutShortGetShort | nbt/src/main/java/org/lanternpowered/nbt/CompoundTag.java:298-300 | after putShort(k, v), getShort(k, d) is v and every other key reads as before |
| CompoundTags.PutByteGetByte | nbt/src/main/java/org/lanternpowered/nbt/CompoundTag.java:244-246 | after putByte(k, v), getByte(k, d) is v and every other key reads as before |
| CompoundTags.PutBooleanGetBoolean | nbt/src/main/java/org/lanternpowered/nbt/CompoundTag.java:136-138 | after putBoolean(k, v), getBoolean(k, d) is v and every other key reads as before |
| CompoundTags.PutCharGetChar | nbt/src/main/java/org/lanternpowered/nbt/CompoundTag.java:190-192 | after putChar(k, v), getChar(k, d) is v and every other key reads as before |
| CompoundTags.GettersRefuseOtherKinds | nbt/src/main/java/org/lanternpowered/nbt/CharTag.java:27 | a CharTag is no NumberTag, so getInt gives the default; an IntTag is no BooleanTag, so getBoolean gives the default |
| CompoundTags.GetByteNarrows | nbt/src/main/java/org/lanternpowered/nbt/CompoundTag.java:268-274 | getByte of an IntTag is the int's low 8 bits, sign included |
| CompoundTags.CompoundTag.Put | nbt/src/main/java/org/lanternpowered/nbt/CompoundTag.java:71-75 | put throws NullPointerException on a null key or value and changes nothing; otherwise it binds the key, returns the previous tag and keeps the keys distinct |
| CompoundTags.CompoundTag.Set | nbt/src/main/java/org/lanternpowered/nbt/CompoundTag.java:64-67 | set(map) makes the contents exactly the map's |
| CompoundTags.CompoundTag.Of | nbt/src/main/java/org/lanternpowered/nbt/CompoundTag.java:44-46 | of(map) is a fresh compound holding exactly the map |
| CompoundTags.CompoundTag.Get | nbt/src/main/java/org/lanternpowered/nbt/CompoundTag.java:59-61 | get() returns the contents themselves |
| CompoundTags.CompoundTag.PutValue | nbt/src/main/java/org/lanternpowered/nbt/CompoundTag.java:77-79 | putValue(k, v) is put(k, Tag.fromObject(v)): fromObject's exception first, then put's |
| CompoundTags.CompoundTag.PutBoolean | nbt/src/main/java/org/lanternpowered/nbt/CompoundTag.java:136-138 | binds the key to a BooleanTag, or throws on a null key and changes nothing |
| CompoundTags.CompoundTag.PutChar | nbt/src/main/java/org/lanternpowered/nbt/CompoundTag.java:190-192 | binds the key to a CharTag, or throws on a null key and changes nothing |
| CompoundTags.CompoundTag.PutByte | nbt/src/main/java/org/lanternpowered/nbt/CompoundTag.java:244-246 | binds the key to a ByteTag, or throws on a null key and changes nothing |
| CompoundTags.CompoundTag.PutShort | nbt/src/main/java/org/lanternpowered/nbt/CompoundTag.java:298-300 | binds the key to a ShortTag, or throws on a null key and changes nothing |
| CompoundTags.CompoundTag.PutInt | nbt/src/main/java/org/lanternpowered/nbt/CompoundTag.java:352-354 | binds the key to an IntTag, or throws on a null key and changes nothing |
| CompoundTags.CompoundTag.PutLong | nbt/src/main/java/org/lanternpowered/nbt/CompoundTag.java:406-408 | binds the key to a LongTag, or throws on a null key and changes nothing |
| CompoundTags.CompoundTag.PutFloat | nbt/src/main/java/org/lanternpowered/nbt/CompoundTag.java:460-462 | binds the key to a FloatTag of the given bits, or throws on a null key |
| CompoundTags.CompoundTag.PutDouble | nbt/src/main/java/org/lanternpowered/nbt/CompoundTag.java:514-516 | binds the key to a DoubleTag of the given bits, or throws on a null key |
| AssocList.LookupPut | nbt/src/main/java/org/lanternpowered/nbt/CompoundTag.java:71-75 | after put(k, v), get(k) is v and every other key is unchanged |
| AssocList.PutDistinct | nbt/src/main/java/org/lanternpowered/nbt/CompoundTag.java:71-75 | put keeps keys distinct and adds the key only when new |
| AssocList.PutAllCopies | nbt/src/main/java/org/lanternpowered/nbt/CompoundTag.java:64-67 | putAll of distinct new keys into a map appends them all |
| MapTags.MapTag.Put | nbt/src/main/java/org/lanternpowered/nbt/MapTag.java:73-76 | put throws NullPointerException on a null key or value and changes nothing; otherwise it binds the key and returns the old value |
| MapTags.MapTag.Set | nbt/src/main/java/org/lanternpowered/nbt/MapTag.java:66-70 | set(map) makes the contents exactly the map's |
| MapTags.MapTag.Of | nbt/src/main/java/org/lanternpowered/nbt/MapTag.java:50-52 | of(map) is a fresh MapTag holding every entry of the map |
| MapTags.MapTag.Get | nbt/src/main/java/org/lanternpowered/nbt/MapTag.java:62-64 | get() returns the contents themselves |
| MapTags.PutOverwrites | nbt/src/main/java/org/lanternpowered/nbt/MapTag.java:73-76 | putting an existing key again keeps the size and the keys, and rebinds the key |
| ScalarTags.ValueTag.New | nbt/src/main/java/org/lanternpowered/nbt/ValueTag.java:33-36 | the constructor refuses null and otherwise holds the value |
| ScalarTags.ValueTag.Set | nbt/src/main/java/org/lanternpowered/nbt/ValueTag.java:44-46 | set refuses null, keeping the old value, and otherwise stores the value |
| ScalarTags.ValueTag.Get | nbt/src/main/java/org/lanternpowered/nbt/ValueTag.java:49-51 | get returns the stored value |
| ScalarTags.IntTag.Set | nbt/src/main/java/org/lanternpowered/nbt/IntTag.java:56-58 | set(int) stores the value |
| ScalarTags.IntTag.SetBoxed | nbt/src/main/java/org/lanternpowered/nbt/IntTag.java:47-49 | set(Integer) throws on null, keeping the old value |
| ScalarTags.IntTag.Get | nbt/src/main/java/org/lanternpowered/nbt/IntTag.java:61-63 | get returns the stored value |
| ScalarTags.IntTag.IntValue | nbt/src/main/java/org/lanternpowered/nbt/IntTag.java:66-68 | intValue is the value, and agrees with NumberTag's conversion |
| ScalarTags.IntTag.LongValue | nbt/src/main/java/org/lanternpowered/nbt/IntTag.java:71-73 | longValue is the value widened with its sign |
| ScalarTags.IntTag.HashCode | nbt/src/main/java/org/lanternpowered/nbt/IntTag.java:85-88 | hashCode is the value itself |
| ScalarTags.IntTag.Equals | nbt/src/main/java/org/lanternpowered/nbt/IntTag.java:90-93 | equal exactly to another IntTag with the same value; never to null |
| ScalarTags.ShortTag.Set | nbt/src/main/java/org/lanternpowered/nbt/ShortTag.java:56-58 | set(short) stores the value |
| ScalarTags.ShortTag.SetBoxed | nbt/src/main/java/org/lanternpowered/nbt/ShortTag.java:47-49 | set(Short) throws on null, keeping the old value |
| ScalarTags.ShortTag.Get | nbt/src/main/java/org/lanternpowered/nbt/ShortTag.java:61-63 | get returns the stored value |
| ScalarTags.ShortTag.ShortValue | nbt/src/main/java/org/lanternpowered/nbt/ShortTag.java:86-88 | shortValue is the value |
| ScalarTags.ShortTag.IntValue | nbt/src/main/java/org/lanternpowered/nbt/ShortTag.java:66-68 | intValue is the value sign-extended |
| ScalarTags.ShortTag.LongValue | nbt/src/main/java/org/lanternpowered/nbt/ShortTag.java:71-73 | longValue is the value sign-extended |
| ScalarTags.ShortTag.HashCode | nbt/src/main/java/org/lanternpowered/nbt/ShortTag.java:90-93 | hashCode is the value as an int |
| ScalarTags.ShortTag.Equals | nbt/src/main/java/org/lanternpowered/nbt/ShortTag.java:95-98 | equal exactly to another ShortTag with the same value |
| ScalarTags.CharTag.AsTag | nbt/src/main/java/org/lanternpowered/nbt/CharTag.java:27 | a CharTag is not a NumberTag |
| ScalarTags.CharTag.Set | nbt/src/main/java/org/lanternpowered/nbt/CharTag.java:56-58 | set(char) stores the value |
| ScalarTags.CharTag.SetBoxed | nbt/src/main/java/org/lanternpowered/nbt/CharTag.java:47-49 | set(Character) throws on null, keeping the old value |
| ScalarTags.CharTag.Get | nbt/src/main/java/org/lanternpowered/nbt/CharTag.java:61-63 | get returns the stored char |
| ScalarTags.CharTag.CharValue | nbt/src/main/java/org/lanternpowered/nbt/CharTag.java:70-72 | charValue returns the stored char |
| ScalarTags.CharTag.HashCode | nbt/src/main/java/org/lanternpowered/nbt/CharTag.java:79-82 | hashCode is the code unit as an int |
| ScalarTags.CharTag.Equals | nbt/src/main/java/org/lanternpowered/nbt/CharTag.java:84-87 | equal exactly to another CharTag with the same char |
| Tags.LongValue | nbt/src/main/java/org/lanternpowered/nbt/IntTag.java:71-73 | longValue of an integral tag is its value |
| Tags.IntValue | nbt/src/main/java/org/lanternpowered/nbt/IntTag.java:66-68 | intValue is the value for byte, short and int tags, and the low 32 bits of a long |
| Tags.ShortValue | nbt/src/main/java/org/lanternpowered/nbt/ShortTag.java:86-88 | shortValue is the value for byte and short tags, and the low 16 bits of intValue otherwise |
| Tags.ByteValue | nbt/src/main/java/org/lanternpowered/nbt/CompoundTag.java:268-274 | byteValue is the value of a byte tag, and the low 8 bits of intValue otherwise |
| ArrayTags.RemoveUndoesInsert | nbt/src/main/java/org/lanternpowered/nbt/IntArrayTag.java:98-118 | removeAt(i) undoes insertAt(i, v), and insertAt(i, a[i]) undoes removeAt(i) |
| ArrayTags.InsertedShifts | nbt/src/main/java/org/lanternpowered/nbt/IntArrayTag.java:98-107 | after insertAt(i, v) the array is one longer, v is at i, elements before i stay and the rest move up by one |
| ArrayTags.RemovedShifts | nbt/src/main/java/org/lanternpowered/nbt/IntArrayTag.java:110-118 | after removeAt(i) the array is one shorter, elements before i stay and the rest move down by one |
| ArrayTags.BoxingRoundTrip | nbt/src/main/java/org/lanternpowered/nbt/IntArrayTag.java:64-70 | converting a boxed array gives back any array, whatever the default; boxing a converted array gives it back exactly when it held no null |
| ArrayTags.RemoveSucceedsInRange | nbt/src/main/java/org/lanternpowered/nbt/IntArrayTag.java:110-118 | both removeAt variants succeed exactly on indexes 0..length-1; an empty array throws NegativeArraySizeException, any other bad index IndexOutOfBoundsException |
| ArrayTags.ArrayCopy | nbt/src/main/java/org/lanternpowered/nbt/IntArrayTag.java:98-107 | System.arraycopy copies the range when it lies within both arrays, and otherwise throws and copies nothing |
| ArrayTags.PrimitiveArrayTag.FromArray | nbt/src/main/java/org/lanternpowered/nbt/IntArrayTag.java:37-39 | the constructor refuses a null array and otherwise keeps the array given |
| ArrayTags.PrimitiveArrayTag.Convert | nbt/src/main/java/org/lanternpowered/nbt/IntArrayTag.java:64-70 | convert gives a fresh array of the same length, each null replaced by the default; a null array throws |
| ArrayTags.PrimitiveArrayTag.FromBoxed | nbt/src/main/java/org/lanternpowered/nbt/IntArrayTag.java:48-62 | the boxed constructors hold the converted array |
| ArrayTags.PrimitiveArrayTag.Length | nbt/src/main/java/org/lanternpowered/nbt/IntArrayTag.java:73-75 | length() is the array's length |
| ArrayTags.PrimitiveArrayTag.Get | nbt/src/main/java/org/lanternpowered/nbt/ValueTag.java:49-51 | get() is the backing array itself |
| ArrayTags.PrimitiveArrayTag.SetValue | nbt/src/main/java/org/lanternpowered/nbt/ValueTag.java:44-46 | set(array) refuses null and otherwise replaces the array |
| ArrayTags.PrimitiveArrayTag.SetBoxed | nbt/src/main/java/org/lanternpowered/nbt/IntArrayTag.java:127-134 | set(boxed, default) replaces the array by the converted copy |
| ArrayTags.PrimitiveArrayTag.SetAt | nbt/src/main/java/org/lanternpowered/nbt/IntArrayTag.java:78-80 | setAt changes only index i; a null value throws before the range check |
| ArrayTags.PrimitiveArrayTag.GetAt | nbt/src/main/java/org/lanternpowered/nbt/IntArrayTag.java:83-85 | getAt returns element i, or throws outside the array |
| ArrayTags.PrimitiveArrayTag.InsertValueAt | nbt/src/main/java/org/lanternpowered/nbt/IntArrayTag.java:98-107 | insertAt(i, v) for 0 <= i <= length gives a[..i] + [v] + a[i..] in a fresh array; otherwise it throws and leaves the array |
| ArrayTags.PrimitiveArrayTag.InsertAt | nbt/src/main/java/org/lanternpowered/nbt/IntArrayTag.java:88-90 | insertAt of a boxed value throws on null, then inserts |
| ArrayTags.PrimitiveArrayTag.Add | nbt/src/main/java/org/lanternpowered/nbt/ArrayTag.java:62-64 | add(v) appends v |
| ArrayTags.PrimitiveArrayTag.AddFirst | nbt/src/main/java/org/lanternpowered/nbt/ArrayTag.java:71-73 | addFirst(v) prepends v |
| ArrayTags.PrimitiveArrayTag.RemoveAt | nbt/src/main/java/org/lanternpowered/nbt/IntArrayTag.java:110-118 | removeAt(i) fails as PrimitiveRemoveOutcome says and otherwise gives a[..i] + a[i+1..] in a fresh array |
| ArrayTags.PrimitiveArrayTag.BoxedArray | nbt/src/main/java/org/lanternpowered/nbt/IntArrayTag.java:137-143 | boxedArray is a fresh array with every element boxed |
| ArrayTags.PrimitiveArrayTag.ArrayEquals | nbt/src/main/java/org/lanternpowered/nbt/IntArrayTag.java:146-148 | arrayEquals holds exactly for a non-null array with the same elements |
| ArrayTags.PrimitiveArrayTag.Equals | nbt/src/main/java/org/lanternpowered/nbt/ArrayTag.java:106-110 | equal exactly to another tag of the class with the same elements; never to null |
| ArrayTags.ObjectArrayTag.FromArray | nbt/src/main/java/org/lanternpowered/nbt/ValueTag.java:33-36 | the constructor refuses a null array and otherwise keeps it |
| ArrayTags.ObjectArrayTag.Length | nbt/src/main/java/org/lanternpowered/nbt/ObjectArrayTag.java:39-42 | length() is the array's length |
| ArrayTags.ObjectArrayTag.Get | nbt/src/main/java/org/lanternpowered/nbt/ValueTag.java:49-51 | get() is the backing array itself |
| ArrayTags.ObjectArrayTag.SetValue | nbt/src/main/java/org/lanternpowered/nbt/ObjectArrayTag.java:74 | set(array) refuses a null array but not null elements |
| ArrayTags.ObjectArrayTag.SetAt | nbt/src/main/java/org/lanternpowered/nbt/ObjectArrayTag.java:44-47 | setAt changes only index i and accepts null |
| ArrayTags.ObjectArrayTag.GetAt | nbt/src/main/java/org/lanternpowered/nbt/ObjectArrayTag.java:50-52 | getAt returns element i, or throws outside the array |
| ArrayTags.ObjectArrayTag.InsertAt | nbt/src/main/java/org/lanternpowered/nbt/ObjectArrayTag.java:54-62 | insertAt refuses null, then gives a[..i] + [v] + a[i..] for 0 <= i <= length; the copies reject any other index |
| ArrayTags.ObjectArrayTag.Add | nbt/src/main/java/org/lanternpowered/nbt/ArrayTag.java:62-64 | add(v) appends v |
| ArrayTags.ObjectArrayTag.AddFirst | nbt/src/main/java/org/lanternpowered/nbt/ArrayTag.java:71-73 | addFirst(v) prepends v |
| ArrayTags.ObjectArrayTag.RemoveAt | nbt/src/main/java/org/lanternpowered/nbt/ObjectArrayTag.java:64-71 | removeAt(i) fails as ObjectRemoveOutcome says (no range guard) and otherwise gives a[..i] + a[i+1..] |
| ArrayTags.ObjectArrayTag.BoxedArray | nbt/src/main/java/org/lanternpowered/nbt/ObjectArrayTag.java:78-81 | boxedArray is a fresh copy with the same elements |
| ArrayTags.ObjectArrayTag.ArrayEquals | nbt/src/main/java/org/lanternpowered/nbt/ObjectArrayTag.java:83-86 | arrayEquals holds exactly for a non-null array with the same elements |
| ArrayTags.ObjectArrayTag.Equals | nbt/src/main/java/org/lanternpowered/nbt/ArrayTag.java:106-110 | equal exactly to another tag with the same elements; never to null |
| TagValues.DefaultTagValue | nbt/src/main/java/org/lanternpowered/nbt/Tag.java:56-106 | a known class gives a tag of that class holding its zero (0, false, '\0', "", an empty array or container); null throws IllegalStateException |
| TagValues.ZeroIsUnique | nbt/src/main/java/org/lanternpowered/nbt/Tag.java:56-106 | each class has exactly one zero tag |
| TagValues.FromObjectClass | nbt/src/main/java/org/lanternpowered/nbt/Tag.java:114-193 | a converted value has the class the dispatch gives its type; null throws NullPointerException, an unsupported type IllegalStateException |
| TagValues.FromObjectScalars | nbt/src/main/java/org/lanternpowered/nbt/Tag.java:115-170 | every tag, boxed value and array converts; a tag comes back unchanged, a boxed array unboxed with the default for null |
| TagValues.FromItemsHomogeneous | nbt/src/main/java/org/lanternpowered/nbt/Tag.java:186-191 | the List branch adds items one by one and keeps every element of the lock's class |
| TagValues.FromListHomogeneous | nbt/src/main/java/org/lanternpowered/nbt/Tag.java:186-191 | a List converts only to a ListTag whose elements share one class |
| TagValues.FromListRefusesMixed | nbt/src/main/java/org/lanternpowered/nbt/Tag.java:186-191 | a List of an Integer then a String throws IllegalArgumentException |
| TagValues.FromEntriesDistinct | nbt/src/main/java/org/lanternpowered/nbt/Tag.java:171-176 | the Map branch yields a MapTag with distinct keys |
| TagValues.FromMapsRefuses | nbt/src/main/java/org/lanternpowered/nbt/Tag.java:179-185 | a Map[] holding a CompoundTag fails the MapTag cast, and one holding null throws NullPointerException |
| TagValues.Convert | nbt/src/main/java/org/lanternpowered/nbt/Tag.java:114-193 | fromObject with the Map, Map[] and List loops gives exactly FromObject's result |
| TagValues.ConvertEntry | nbt/src/main/java/org/lanternpowered/nbt/Tag.java:171-176 | one entry of the Map loop: the key converted, then the value |
| Converters.ParseLong | editor/src/main/java/org/lanternpowered/nbt/editor/converter/NumberConverter.java:65-66 | Long.parseLong gives the number the text denotes exactly when it fits a long, and otherwise throws NumberFormatException |
| Converters.FromStringMeaning | editor/src/main/java/org/lanternpowered/nbt/editor/converter/NumberConverter.java:53-101 | fromString is non-null exactly for complete-pattern text denoting a number in the converter's range, and then is that number |
| Converters.Accepts | editor/src/main/java/org/lanternpowered/nbt/editor/converter/NumberConverter.java:103-124 | the filter keeps empty text and every text fromString accepts; any other text it keeps exactly when it matches the filling pattern but not the complete one |
| Converters.LoneSign | editor/src/main/java/org/lanternpowered/nbt/editor/converter/NumberConverter.java:118-122 | a lone sign is kept by the filter and is no number |
| Converters.LeadingZeroIgnored | editor/src/main/java/org/lanternpowered/nbt/editor/converter/NumberConverter.java:37 | a leading zero does not change the number a digit run denotes |
| Converters.DigitsDenote | editor/src/main/java/org/lanternpowered/nbt/editor/converter/NumberConverter.java:86-89 | the decimal form of n is a non-empty digit run denoting n |
| Converters.RoundTrip | editor/src/main/java/org/lanternpowered/nbt/editor/converter/NumberConverter.java:86-101 | fromString(toString(x)) is x for every x in the converter's range |
| Converters.CharFromString | editor/src/main/java/org/lanternpowered/nbt/editor/converter/CharConverter.java:43-46 | non-null exactly for a one-character text, and then its character |
| Converters.CharToString | editor/src/main/java/org/lanternpowered/nbt/editor/converter/CharConverter.java:38-41 | null prints as "", and fromString gives back every printed char |
| Converters.CharAccepts | editor/src/main/java/org/lanternpowered/nbt/editor/converter/CharConverter.java:48-54 | the filter keeps exactly the empty text and the texts fromString accepts |
| RoundTrip.ByteRoundTrip | nbt/src/main/java/org/lanternpowered/nbt/io/NbtTagInputStream.java:180-181 | a byte payload reads back as the byte written, leaving what follows |
| RoundTrip.ShortRoundTrip | nbt/src/main/java/org/lanternpowered/nbt/io/NbtTagInputStream.java:186-187 | a short payload reads back as the short written |
| RoundTrip.IntRoundTrip | nbt/src/main/java/org/lanternpowered/nbt/io/NbtTagInputStream.java:209-210 | an int payload reads back as the int written |
| RoundTrip.LongRoundTrip | nbt/src/main/java/org/lanternpowered/nbt/io/NbtTagInputStream.java:217-218 | a long payload reads back as the long written |
| RoundTrip.FloatRoundTrip | nbt/src/main/java/org/lanternpowered/nbt/io/NbtTagInputStream.java:225-226 | a float payload reads back as the same bits for every bit pattern writeFloat leaves unchanged |
| RoundTrip.DoubleRoundTrip | nbt/src/main/java/org/lanternpowered/nbt/io/NbtTagInputStream.java:240-241 | a double payload reads back as the same bits for every bit pattern writeDouble leaves unchanged |
| RoundTrip.BooleanRoundTrip | nbt/src/main/java/org/lanternpowered/nbt/io/NbtTagInputStream.java:270-271 | a boolean payload reads back as the boolean written |
| RoundTrip.StringRoundTrip | nbt/src/main/java/org/lanternpowered/nbt/io/NbtTagInputStream.java:255-256 | a string payload writeUTF accepts reads back as the string written |
| RoundTrip.CharArrayRoundTrip | nbt/src/main/java/org/lanternpowered/nbt/io/NbtTagInputStream.java:207-208 | a char array is written as one UTF string and reads back as the same chars |
| RoundTrip.IntArrayRoundTrip | nbt/src/main/java/org/lanternpowered/nbt/io/NbtTagInputStream.java:211-216 | an int array is a count then the ints, and reads back unchanged |
| RoundTrip.LongArrayRoundTrip | nbt/src/main/java/org/lanternpowered/nbt/io/NbtTagInputStream.java:219-224 | a long array is a count then the longs, and reads back unchanged |
| RoundTrip.FloatArrayRoundTrip | nbt/src/main/java/org/lanternpowered/nbt/io/NbtTagInputStream.java:227-239 | a float array of canonical bit patterns is FLOAT's id, a count and the floats, and reads back unchanged |
| RoundTrip.DoubleArrayRoundTrip | nbt/src/main/java/org/lanternpowered/nbt/io/NbtTagInputStream.java:242-254 | a double array of canonical bit patterns is DOUBLE's id, a count and the doubles, and reads back unchanged |
| RoundTrip.ReadCountBack | nbt/src/main/java/org/lanternpowered/nbt/io/NbtTagInputStream.java:182-185 | a written count up to 2^31-1 reads back as that count |
| RoundTrip.KindOfPayload | nbt/src/main/java/org/lanternpowered/nbt/io/NbtTagOutputStream.java:102-233 | a payload writePayload accepts has the tag class its kind declares, and byClass maps that class back to the kind |
| RoundTrip.BooleanArrayPayload | nbt/src/main/java/org/lanternpowered/nbt/io/NbtTagOutputStream.java:185-204 | a boolean array of at most 8 elements is written as PackBooleans gives and reads back unchanged |
| BooleanPacking.NinePacked | nbt/src/main/java/org/lanternpowered/nbt/io/NbtTagOutputStream.java:185-204 | nine booleans with only the last set pack to the header, then bytes 1 and 0 |
| BooleanPacking.NineRead | nbt/src/main/java/org/lanternpowered/nbt/io/NbtTagInputStream.java:272-283 | those bytes read back as nine booleans with the first and last set |
| BooleanPacking.GroupBit | nbt/src/main/java/org/lanternpowered/nbt/io/NbtTagOutputStream.java:185-204 | in the corrected packer, bit b of byte g is set exactly when element 8g+b exists and is true |
| BooleanPacking.GroupedHeader | nbt/src/main/java/org/lanternpowered/nbt/io/NbtTagOutputStream.java:185-204 | the corrected packer writes the same header as the original: the int ceil(n/8)+2 and the short n |
| BooleanPacking.FirstGroupIsPacked | nbt/src/main/java/org/lanternpowered/nbt/io/NbtTagOutputStream.java:185-204 | for at most 8 booleans the first group is the byte the packer as written computes |
| EntryNames.LastIndexAt | nbt/src/main/java/org/lanternpowered/nbt/io/NbtTagInputStream.java:140-141 | lastIndexOf gives p whenever s[p] is the character and it does not occur after p |
| EntryNames.SplitAtListSuffix | nbt/src/main/java/org/lanternpowered/nbt/io/NbtTagInputStream.java:145-153 | a list name marked "$List$" splits into the key and the element kind the suffix names |
| ModifiedUtf8.EncodeAppend | nbt/src/main/java/org/lanternpowered/nbt/io/NbtTagOutputStream.java:171-173 | the encoding of a concatenation is the concatenation of the encodings |
| Floating.FloatIsNaNFields | nbt/src/main/java/org/lanternpowered/nbt/io/NbtTagOutputStream.java:149-151 | a float bit pattern is NaN exactly when its exponent is all ones and its fraction non-zero |
| Floating.DoubleIsNaNFields | nbt/src/main/java/org/lanternpowered/nbt/io/NbtTagOutputStream.java:160-162 | a double bit pattern is NaN exactly when its exponent is all ones and its fraction non-zero |
| Wire.UnsignedBigEndian | nbt/src/main/java/org/lanternpowered/nbt/io/NbtTagOutputStream.java:129-131 | n big-endian bytes of a value read back as the value modulo 256^n |
| NbtTypes.SuffixHasShape | nbt/src/main/java/org/lanternpowered/nbt/io/NbtType.java:71-79 | every suffix has the length and first letter its declaration gives ("Boolean", "BooleanArray", …) |
| ListTags.LockAfterInsert | nbt/src/main/java/org/lanternpowered/nbt/ListTag.java:80-93 | after an accepted insertion the list is locked, and an existing lock is never changed |
| ListTags.ValidatedElementsPresent | nbt/src/main/java/org/lanternpowered/nbt/ListTag.java:106-121 | a collection validate accepts holds no null |
| ArrayTags.PrimitiveArrayTag.constructor | nbt/src/main/java/org/lanternpowered/nbt/IntArrayTag.java:37-39 | a tag holding the given array |
| ArrayTags.ObjectArrayTag.constructor | nbt/src/main/java/org/lanternpowered/nbt/ObjectArrayTag.java:35-37 | a tag holding the given array |
| CompoundTags.CompoundTag.constructor | nbt/src/main/java/org/lanternpowered/nbt/CompoundTag.java:51-53 | an empty compound |
| MapTags.MapTag.constructor | nbt/src/main/java/org/lanternpowered/nbt/MapTag.java:54-56 | an empty map tag |
| ListTags.ListTagObject.constructor | nbt/src/main/java/org/lanternpowered/nbt/ListTag.java:52-54 | an empty list with no lock |
| ScalarTags.IntTag.constructor | nbt/src/main/java/org/lanternpowered/nbt/IntTag.java:37-39 | a tag holding the given int |
| ScalarTags.ShortTag.constructor | nbt/src/main/java/org/lanternpowered/nbt/ShortTag.java:37-39 | a tag holding the given short |
| ScalarTags.CharTag.constructor | nbt/src/main/java/org/lanternpowered/nbt/CharTag.java:37-39 | a tag holding the given char |
| NbtEncoding.Write | nbt/src/main/java/org/lanternpowered/nbt/io/NbtTagOutputStream.java:97-99 | write(tag) throws NullPointerException for a class with no kind; otherwise its bytes start with the kind's id and a name length; TreeRoundTrip.WriteReadRoundTrip states what read makes of them |
| NbtEncoding.EntryHeader | nbt/src/main/java/org/lanternpowered/nbt/io/NbtTagOutputStream.java:260-286 | writeEntry starts with the id byte of the tag class's kind, then at least two bytes of name length |
| NbtDecoding.Read | nbt/src/main/java/org/lanternpowered/nbt/io/NbtTagInputStream.java:116-126 | read() of an empty stream is end of file, and a successful read consumes at least the id and a payload byte; TreeRoundTrip.WriteReadRoundTrip states what it reads |
| TagValues.FromObject | nbt/src/main/java/org/lanternpowered/nbt/Tag.java:114-193 | fromObject throws only NullPointerException, IllegalStateException, IllegalArgumentException or ClassCastException; FromObjectClass, FromObjectScalars and FromListHomogeneous state its results |
| Converters.FromString | editor/src/main/java/org/lanternpowered/nbt/editor/converter/NumberConverter.java:91-101 | fromString is non-null only for complete-pattern text; FromStringMeaning and RoundTrip state its value |
| Converters.ToString | editor/src/main/java/org/lanternpowered/nbt/editor/converter/NumberConverter.java:86-89 | toString is empty exactly for null, and starts with '-' for a negative number; DigitsDenote and RoundTrip state its meaning |
| ListTags.AddAllOutcome | nbt/src/main/java/org/lanternpowered/nbt/ListTag.java:124-134 | a failing addAll changes nothing; a succeeding one keeps the old elements as a prefix, adds |c| elements and returns true exactly when c is non-empty; AddAllAccepts says when it succeeds |
| ListTags.SetListOutcome | nbt/src/main/java/org/lanternpowered/nbt/ListTag.java:65-68 | a failing set(list) leaves the list cleared with its lock; a succeeding one holds |list| elements; SetListReplaces says when it succeeds |
| ListTags.AddAllAtAccepts | nbt/src/main/java/org/lanternpowered/nbt/ListTag.java:136-146 | addAll(index, c) succeeds exactly for 0 <= index <= size and an empty collection or one non-null element into an empty or unlocked list; the range check throws even for an empty collection; a failure changes nothing; the element lands at index |
| ListTags.AddAllAtKeepsLock | nbt/src/main/java/org/lanternpowered/nbt/ListTag.java:136-146 | addAll(index, c) keeps "elements imply a lock" and never changes a lock once set |
| ListTags.AddAllAtEnd | nbt/src/main/java/org/lanternpowered/nbt/ListTag.java:124-146 | addAll(size(), c) is addAll(c) |
| Floating.NarrowValue | nbt/src/main/java/org/lanternpowered/nbt/DoubleTag.java:66-73 | for a finite float or double with real value v, the cast rounds toward zero when v lies in the target range, and gives the lower or upper bound when v lies below or above it |
| Floating.TruncatedIsFloor | nbt/src/main/java/org/lanternpowered/nbt/DoubleTag.java:66-73 | the integer magnitude taken from the bit fields is the floor of the real magnitude they denote |
| CompoundTags.GetIntOfLong | nbt/src/main/java/org/lanternpowered/nbt/CompoundTag.java:376-382 | getInt of a LongTag is the long's low 32 bits, sign included; getLong of an IntTag is the int |

## Left out

- The two streams are modelled as functions from tags to byte sequences
  and from byte sequences to a value and the unread rest, not as objects
  appending to or consuming a `Data*Stream` field. Only the boolean-array
  packing and unpacking loops are kept as methods over arrays
  (`BooleanPacking`). The order of writes is the order of concatenation.
- Stream construction, `close` and `flush` are not modelled: they are
  plumbing around the wrapped stream.
- HashMap iteration order is not modelled: a compound or map tag is an
  association list whose order stands for the enumeration order. Equality
  of compounds is therefore order-sensitive, where `HashMap.equals` is not.
- `CompoundTag.of`, `CompoundTag.set`, `MapTag.of` and `MapTag.set` are
  modelled on maps with distinct, non-null keys and non-null values: a
  Java `Map` holding a null key or value is not modelled. `HashMap`'s
  constructor and `putAll` copy such entries without going through the
  overridden `put` and its null checks (CompoundTag.java:51-57,
  MapTag.java:57-59, 66-70), so the real classes can end up holding them.
- CompoundTags.CompoundTag.Of: a map holding null keys or values is not modelled (see above).
- CompoundTags.CompoundTag.Set: a map holding null keys or values is not modelled (see above).
- MapTags.MapTag.Of: a map holding null keys or values is not modelled (see above).
- MapTags.MapTag.Set: a map holding null keys or values is not modelled (see above).
- The one-argument getters (`getInt(key)` and the others) are not
  modelled separately: each is the two-argument form with the type's zero
  as default.
- `getFloat`, `getDouble` and their nullable forms, and the FLOAT and
  DOUBLE editor converters, are not modelled: they rely on floating-point
  arithmetic and parsing. Float and double tags hold IEEE bit patterns;
  `putFloat` and `putDouble` store given bit patterns.
- `Arrays.equals` on float and double arrays compares `floatToIntBits`
  values, so two NaN patterns compare equal. `PrimitiveArrayTag.ArrayEquals`
  compares bit patterns exactly.
- ShortArrayTag, CharArrayTag and BooleanArrayTag do not implement
  `arrayEquals`; the generic `PrimitiveArrayTag.ArrayEquals` is only
  meaningful for the other five.
- `toString` and `valueToString` of every tag are not modelled: they are
  display text.
- Map encoding (`writeMap`, the MAP and MAP_ARRAY cases) is not modelled:
  it names kinds the registry does not declare, and every map tag fails
  earlier on the missing kind (`CodecQuirks.MapsAreNotWritable`).
- `fromObject` shares the arrays it is given with the tags it builds; the
  model holds arrays as values, so aliasing between the argument and the
  tag is not modelled.
- Java's modified UTF-8 is modelled byte for byte, but `readUTF` is
  modelled as accepting only what `Decode` accepts; the exact exception
  message is not.
- The editor UI, `Compression` and `StringConverter` are not part of this
  model.
- NbtDecoding.ReadEntry: its contract only bounds what it consumes; what it
  reads is stated by the round-trip and name-splitting lemmas.
- NbtDecoding.ReadPayload: its contract only bounds what it consumes; what it
  reads is stated by `TreeRoundTrip.PayloadRoundTrip` and the quirk lemmas.
- TreeRoundTrip.WriteReadRoundTrip: stated for trees whose keys hold no '$'
  (see `CodecQuirks.EntryWithDollarKey` for the others), whose floats and
  doubles are canonical (NaN patterns are rewritten), whose arrays have at
  most 2^31-1 elements, and whose boolean arrays have at most 8 elements
  (see Findings).
- Converters.ParseLong: modelled on texts of the complete pattern only,
  the only texts `fromString` and the filter pass to the parsers.

## Findings

| source | as written | input that shows it | evidently intended | confidence | as-written member | corrected member |
|---|---|---|---|---|---|---|
| nbt/src/main/java/org/lanternpowered/nbt/io/NbtTagOutputStream.java:185-204 | the inner packing loop runs over all remaining elements, so byte 0 collects bit (j mod 8) of every element and the later bytes are 0; the reader takes every element from byte 0 as well | a boolean array of 9 elements with only the last true reads back with elements 0 and 8 true | byte g packs elements 8g..8g+7, and the reader takes element j from byte j/8, so every array round-trips | not executed | BooleanPacking.NineBooleansSmear | BooleanPacking.GroupedRoundTrip |

The codec itself (`NbtEncoding.PackBooleans`, `NbtDecoding.ReadBooleans`)
keeps the packing as written; `BooleanPacking.GroupedAgreesUpToEight`
shows that the corrected packer writes the same bytes for up to eight
booleans, which is where the codec's round trip holds.
