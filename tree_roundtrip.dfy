/** The round trip through nested payloads: compounds, lists and compound
  * arrays, proved by one mutual induction that follows the encoder's own
  * recursion, and the theorem about write and read that closes it. */
module TreeRoundTrip {
  import opened JavaTypes
  import opened AssocList
  import opened Wire
  import opened ModifiedUtf8
  import opened Tags
  import opened NbtTypes
  import opened NbtEncoding
  import opened NbtDecoding
  import opened RoundTrip
  import opened EntryNames
  import ListTags

  /** What a reader of nested payloads gives when the deepest of them has
    * height h at depth d: v and the rest when every depth check passes (or
    * none is made, h < 0), the depth error otherwise. */
  function Nested<T>(h: int, v: T, rest: seq<Byte>, d: int, maximumDepth: int): Result<Parsed<T>>
  {
    if h < 0 || d + h <= maximumDepth then Ok(Parsed(v, rest)) else Thrown(IO(DepthExceeded))
  }

  /** One named entry, as readCompound and read consume it: the header, then
    * the payload at depth d. */
  function ReadNamed(s: seq<Byte>, d: int, maximumDepth: Int32): Result<Parsed<Binding<Text, Tag>>>
  {
    var entry := ReadEntry(s);
    if entry.Thrown? then Thrown(entry.ex)
    else if entry.value.value.None? then Thrown(IO(NoMoreData))
    else
      var h := entry.value.value.value;
      var v := ReadPayload(h.kind, h.listKind, entry.value.rest, d, maximumDepth);
      if v.Thrown? then Thrown(v.ex) else Ok(Parsed(Binding(h.name, v.value.value), v.value.rest))
  }

  /** s holds an entry header other than END, and the named entry it starts
    * reads back as the binding of key to t, then tail. */
  predicate NamedReadsBack(s: seq<Byte>, key: Text, t: Tag, tail: seq<Byte>, d: int, maximumDepth: Int32)
  {
    ReadEntry(s).Ok? && ReadEntry(s).value.value.Some? &&
    ReadNamed(s, d, maximumDepth) == Nested(Height(t), Binding(key, t), tail, d, maximumDepth)
  }

  /** The element kind writeEntry picks for a list. */
  function ElementKind(es: seq<Tag>): Option<NbtType>
  {
    if es == [] then Some(END) else ByClass(ClassOf(es[0]))
  }

  // ---------------------------------------------------------------------
  // The bytes the encoder produces, regrouped as the reader consumes them.

  lemma {:induction false} NonListEntryBytes(key: Text, t: Tag, tail: seq<Byte>)
    requires EncodeEntry(key, t).Ok? && !t.ListTag?
    ensures ByClass(ClassOf(t)).Some?
    ensures var k := ByClass(ClassOf(t)).value;
      WriteUtf(SuffixedKey(key, k)).Ok? && EncodePayload(k, t).Ok? &&
      EncodeEntry(key, t).value + tail
        == [Id(k)] + (WriteUtf(SuffixedKey(key, k)).value + (EncodePayload(k, t).value + tail))
  {
    var k := ByClass(ClassOf(t)).value;
    var name := WriteUtf(SuffixedKey(key, k)).value;
    assert EncodeEntry(key, t).value == [Id(k)] + name + EncodePayload(k, t).value;
    RegroupAfterId(Id(k), name, EncodePayload(k, t).value, tail);
  }

  lemma {:induction false} ListEntryBytes(key: Text, es: seq<Tag>, tail: seq<Byte>)
    requires EncodeEntry(key, ListTag(es)).Ok?
    ensures ByClass(ListTagClass) == Some(LIST) && ElementKind(es).Some?
    ensures var ek := ElementKind(es).value;
      WriteUtf(ListKey(key, ek)).Ok? && EncodeList(ek, es).Ok? &&
      EncodeEntry(key, ListTag(es)).value + tail
        == [Id(LIST)] + (WriteUtf(ListKey(key, ek)).value + (EncodeList(ek, es).value + tail))
  {
    ListKind();
    ListEntryValue(key, es);
    var ek := ElementKind(es).value;
    RegroupAfterId(Id(LIST), WriteUtf(ListKey(key, ek)).value, EncodeList(ek, es).value, tail);
  }

  lemma {:induction false} ListEntryValue(key: Text, es: seq<Tag>)
    requires EncodeEntry(key, ListTag(es)).Ok?
    ensures ElementKind(es).Some?
    ensures var ek := ElementKind(es).value;
      WriteUtf(ListKey(key, ek)).Ok? && EncodeList(ek, es).Ok? &&
      EncodeEntry(key, ListTag(es)).value == [Id(LIST)] + WriteUtf(ListKey(key, ek)).value + EncodeList(ek, es).value
  {
    ListKind();
    var ek := ElementKind(es);
    var inner := Then(WriteUtf(ListKey(key, ek.value)), EncodeList(ek.value, es));
    assert EncodeEntry(key, ListTag(es)) == Then(Ok([Id(LIST)]), inner);
  }

  /** ListTag's kind is LIST, whose id 9 reads back as LIST. */
  lemma {:induction false} ListKind()
    ensures ByClass(ListTagClass) == Some(LIST) && ByIndex(Id(LIST)) == Some(LIST)
  {
    ByClassSpec(ListTagClass, LIST);
    ByIndexSpec(Id(LIST), LIST);
  }

  lemma {:induction false} ListBytes(ek: NbtType, es: seq<Tag>, rest: seq<Byte>)
    requires EncodeList(ek, es).Ok?
    ensures EncodePayloads(ek, es).Ok?
    ensures EncodeList(ek, es).value + rest == [Id(ek)] + (WriteInt(|es|) + (EncodePayloads(ek, es).value + rest))
  {
    RegroupAfterId(Id(ek), WriteInt(|es|), EncodePayloads(ek, es).value, rest);
  }

  /** The bytes of two writes in sequence, grouped to the right. */
  lemma {:induction false} ThenBytes(a: Result<seq<Byte>>, b: Result<seq<Byte>>, more: seq<Byte>)
    requires Then(a, b).Ok?
    ensures a.Ok? && b.Ok? && Then(a, b).value + more == a.value + (b.value + more)
  {
    Regroup(a.value, b.value, more);
  }

  lemma {:induction false} PayloadsBytes(ek: NbtType, es: seq<Tag>, rest: seq<Byte>)
    requires es != [] && EncodePayloads(ek, es).Ok?
    ensures EncodePayload(ek, es[0]).Ok? && EncodePayloads(ek, es[1..]).Ok?
    ensures EncodePayloads(ek, es).value + rest
         == EncodePayload(ek, es[0]).value + (EncodePayloads(ek, es[1..]).value + rest)
  {
    ThenBytes(EncodePayload(ek, es[0]), EncodePayloads(ek, es[1..]), rest);
  }

  lemma {:induction false} CompoundBytes(c: Compound, rest: seq<Byte>)
    requires EncodeCompound(c).Ok?
    ensures EncodeEntries(c.entries).Ok?
    ensures EncodeCompound(c).value + rest == EncodeEntries(c.entries).value + ([Id(END)] + rest)
  {
    ThenBytes(EncodeEntries(c.entries), Ok([Id(END)]), rest);
  }

  lemma {:induction false} EntriesBytes(es: seq<Binding<Text, Tag>>, more: seq<Byte>)
    requires es != [] && EncodeEntries(es).Ok?
    ensures EncodeEntry(es[0].key, es[0].value).Ok? && EncodeEntries(es[1..]).Ok?
    ensures EncodeEntries(es).value + more
         == EncodeEntry(es[0].key, es[0].value).value + (EncodeEntries(es[1..]).value + more)
  {
    ThenBytes(EncodeEntry(es[0].key, es[0].value), EncodeEntries(es[1..]), more);
  }

  lemma {:induction false} CompoundsBytes(cs: seq<Option<Compound>>, rest: seq<Byte>)
    requires cs != [] && EncodeCompounds(cs).Ok?
    ensures cs[0].Some? && EncodeCompound(cs[0].value).Ok? && EncodeCompounds(cs[1..]).Ok?
    ensures EncodeCompounds(cs).value + rest
         == EncodeCompound(cs[0].value).value + (EncodeCompounds(cs[1..]).value + rest)
  {
    ThenBytes(EncodeCompound(cs[0].value), EncodeCompounds(cs[1..]), rest);
  }

  lemma {:induction false} CompoundArrayBytes(cs: seq<Option<Compound>>, rest: seq<Byte>)
    requires EncodePayload(COMPOUND_ARRAY, CompoundArrayTag(cs)).Ok?
    ensures EncodeCompounds(cs).Ok?
    ensures EncodePayload(COMPOUND_ARRAY, CompoundArrayTag(cs)).value + rest
         == [Id(COMPOUND)] + (WriteInt(|cs|) + (EncodeCompounds(cs).value + rest))
  {
    assert EncodePayload(COMPOUND_ARRAY, CompoundArrayTag(cs)).value
        == [Id(COMPOUND)] + WriteInt(|cs|) + EncodeCompounds(cs).value;
    RegroupAfterId(Id(COMPOUND), WriteInt(|cs|), EncodeCompounds(cs).value, rest);
  }

  // ---------------------------------------------------------------------
  // One step of each reader, on the bytes above.

  /** readEntry on an id byte and a name: the name split under the id's kind. */
  lemma {:induction false} ReadEntryBack(k: NbtType, name: Text, wire: NbtType, more: seq<Byte>)
    requires k != END && WriteUtf(name).Ok? && ByIndex(Id(k)) == Some(wire)
    ensures ReadEntry([Id(k)] + (WriteUtf(name).value + more))
         == Ok(Parsed(Some(SplitName(name, wire)), more))
  {
    ReadIdByte(k, WriteUtf(name).value + more);
    ReadWriteUtf(name, more);
  }

  /** An END byte ends a compound. */
  lemma {:induction false} ReadCompoundEnd(rest: seq<Byte>, d: int, maximumDepth: Int32, acc: seq<Binding<Text, Tag>>)
    ensures ReadCompound([Id(END)] + rest, d, maximumDepth, acc) == Ok(Parsed(Compound(acc), rest))
  {
    ReadIdByte(END, rest);
  }

  /** readCompound after one entry header: the named payload one level
    * deeper, put into the accumulated map, then the rest of the compound. */
  lemma {:induction false} ReadCompoundStep(s: seq<Byte>, d: int, maximumDepth: Int32, acc: seq<Binding<Text, Tag>>)
    requires ReadEntry(s).Ok? && ReadEntry(s).value.value.Some?
    ensures ReadCompound(s, d, maximumDepth, acc) ==
      var n := ReadNamed(s, d + 1, maximumDepth);
      if n.Thrown? then Thrown(n.ex)
      else ReadCompound(n.value.rest, d, maximumDepth, Put(acc, n.value.value.key, n.value.value.value))
  {
  }

  /** readList on an element id and a count of zero. */
  lemma {:induction false} ReadListEmpty(listKind: Option<NbtType>, ek: NbtType, more: seq<Byte>, d: int, maximumDepth: Int32)
    requires listKind == Some(ek) || (listKind.None? && ByIndex(Id(ek)) == Some(ek))
    ensures ReadList(listKind, [Id(ek)] + (WriteInt(0) + more), d, maximumDepth) == Ok(Parsed(ListTag([]), more))
  {
    ReadIdByte(ek, WriteInt(0) + more);
    ReadWriteInt(0, more);
  }

  /** readList on an element id and a positive count: the element loop one
    * level deeper, starting from a fresh ListTag. */
  lemma {:induction false} ReadListStep(listKind: Option<NbtType>, ek: NbtType, n: nat, more: seq<Byte>, d: int, maximumDepth: Int32)
    requires listKind == Some(ek) || (listKind.None? && ByIndex(Id(ek)) == Some(ek))
    requires 0 < n <= INT32_MAX && ek != END
    ensures ReadList(listKind, [Id(ek)] + (WriteInt(n) + more), d, maximumDepth) ==
      var es := ReadElements(ek, more, n, d + 1, maximumDepth, ListTags.EMPTY);
      if es.Thrown? then Thrown(es.ex) else Ok(Parsed(ListTag(es.value.value.elements), es.value.rest))
  {
    ReadIdByte(ek, WriteInt(n) + more);
    ReadWriteInt(n, more);
  }

  /** The COMPOUND_ARRAY payload after its header: the compound loop one level deeper. */
  lemma {:induction false} ReadCompoundArrayStep(n: nat, more: seq<Byte>, d: int, maximumDepth: Int32)
    requires n <= INT32_MAX
    ensures ReadCompoundArray([Id(COMPOUND)] + (WriteInt(n) + more), d, maximumDepth) ==
      var cs := ReadCompounds(more, n, d + 1, maximumDepth, []);
      if cs.Thrown? then Thrown(cs.ex) else Ok(Parsed(CompoundArrayTag(cs.value.value), cs.value.rest))
  {
    ReadTypedCountBack(COMPOUND, n, more);
  }

  /** read() is one named entry at depth 0 with the name dropped. */
  lemma {:induction false} ReadIsReadNamed(s: seq<Byte>, maximumDepth: Int32)
    requires ReadEntry(s).Ok? && ReadEntry(s).value.value.Some?
    ensures Read(s, maximumDepth) ==
      var n := ReadNamed(s, 0, maximumDepth);
      if n.Thrown? then Thrown(n.ex) else Ok(Parsed(n.value.value.value, n.value.rest))
  {
  }

  /** A key not yet in a map whose keys with it stay distinct is appended by put. */
  lemma {:induction false} PutFresh(acc: seq<Binding<Text, Tag>>, es: seq<Binding<Text, Tag>>)
    requires es != [] && DistinctKeys(acc + es)
    ensures Put(acc, es[0].key, es[0].value) == acc + [es[0]]
    ensures DistinctKeys((acc + [es[0]]) + es[1..]) && (acc + [es[0]]) + es[1..] == acc + es
  {
    var all := acc + es;
    assert es[0].key !in Keys(acc) by {
      forall i | 0 <= i < |acc|
        ensures Keys(acc)[i] != es[0].key
      {
        assert all[i] == acc[i] && all[|acc|] == es[0];
      }
    }
    assert (acc + [es[0]]) + es[1..] == all;
  }

  /** The tags a scalar or value-array kind accepts have no nested payload. */
  lemma {:induction false} FlatHeight(kind: NbtType, t: Tag)
    requires IsScalar(kind) || IsValueArray(kind)
    requires TagClassOf(kind) == Some(ClassOf(t))
    ensures Height(t) == 0
  {
  }

  /** The element kind readEntry hands to readList: the one the name
    * carries, or none when it has no suffix and the id byte decides. */
  function ListKindOf(ek: NbtType): Option<NbtType>
  {
    if Suffix(ek).Some? then Some(ek) else None
  }

  lemma {:induction false} ListKindReads(ek: NbtType)
    ensures ListKindOf(ek) == Some(ek) || (ListKindOf(ek).None? && ByIndex(Id(ek)) == Some(ek))
  {
    if Suffix(ek).None? {
      ByIndexSpec(Id(ek), ek);
    }
  }

  /** A payload the encoder accepted has the kind's class, so the kind is
    * neither END nor UNKNOWN. */
  lemma {:induction false} EncodedClass(kind: NbtType, t: Tag)
    requires EncodePayload(kind, t).Ok?
    ensures TagClassOf(kind) == Some(ClassOf(t)) && kind != END
  {
  }

  /** The kinds that are neither scalars nor arrays of values are the three
    * containers. */
  lemma {:induction false} ContainerKind(kind: NbtType, t: Tag)
    requires TagClassOf(kind) == Some(ClassOf(t)) && !IsScalar(kind) && !IsValueArray(kind)
    ensures (kind == LIST && t.ListTag?) || (kind == COMPOUND && t.CompoundTag?)
         || (kind == COMPOUND_ARRAY && t.CompoundArrayTag?)
  {
  }

  /** add(e) on a list that is empty and unlocked, or locked to e's class. */
  lemma {:induction false} AddElement(acc: ListTags.ListValue, ek: NbtType, e: Tag)
    requires (acc.elements == [] && acc.lock.None?) || acc.lock == TagClassOf(ek)
    requires TagClassOf(ek) == Some(ClassOf(e))
    ensures ListTags.AddOutcome(acc, Some(e)) == ListTags.Outcome(ListTags.ListValue(acc.elements + [e], TagClassOf(ek)), Ok(true))
  {
  }

  // ---------------------------------------------------------------------
  // How each reader's result follows from the results of the readers it
  // calls. Each takes the nested results as hypotheses, so that the
  // induction below only has to supply them.

  /** A result at depth d + offset, seen from the container at depth d that
    * wraps its value: the container's height is Below(h, offset). */
  lemma {:induction false} NestedBelow<A, B>(r: Result<Parsed<A>>, h: int, v: A, w: B, rest: seq<Byte>, d: int, offset: nat, maximumDepth: int)
    requires r == Nested(h, v, rest, d + offset, maximumDepth) && d <= maximumDepth
    ensures r.Ok? ==> r.value == Parsed(v, rest) && Nested(Below(h, offset), w, rest, d, maximumDepth) == Ok(Parsed(w, rest))
    ensures r.Thrown? ==> r.ex == IO(DepthExceeded) && Nested(Below(h, offset), w, rest, d, maximumDepth) == Thrown(r.ex)
  {
  }

  /** Two results in sequence at the same depth: the second decides unless
    * the first already exceeded the limit. */
  lemma {:induction false} NestedThen<A, B>(r: Result<Parsed<A>>, h1: int, v: A, mid: seq<Byte>, h2: int, w: B, rest: seq<Byte>, d: int, maximumDepth: int)
    requires r == Nested(h1, v, mid, d, maximumDepth) && h2 >= -1
    ensures r.Ok? ==> r.value == Parsed(v, mid) && Nested(Max(h1, h2), w, rest, d, maximumDepth) == Nested(h2, w, rest, d, maximumDepth)
    ensures r.Thrown? ==> r.ex == IO(DepthExceeded) && Nested(Max(h1, h2), w, rest, d, maximumDepth) == Thrown(IO(DepthExceeded))
  {
  }

  /** readPayload's dispatch for the three containers, within the depth limit. */
  lemma {:induction false} PayloadAsList(listKind: Option<NbtType>, s: seq<Byte>, d: int, maximumDepth: Int32)
    requires d <= maximumDepth
    ensures ReadPayload(LIST, listKind, s, d, maximumDepth) == ReadList(listKind, s, d, maximumDepth)
  {
  }

  /** Past the depth limit readPayload throws before reading. */
  lemma {:induction false} PayloadTooDeep(kind: NbtType, listKind: Option<NbtType>, s: seq<Byte>, d: int, maximumDepth: Int32)
    requires d > maximumDepth
    ensures ReadPayload(kind, listKind, s, d, maximumDepth) == Thrown(IO(DepthExceeded))
  {
  }

  /** A named entry after its header: the payload under the header's kinds. */
  lemma {:induction false} ReadNamedStep(k: NbtType, name: Text, wire: NbtType, more: seq<Byte>, d: int, maximumDepth: Int32)
    requires k != END && WriteUtf(name).Ok? && ByIndex(Id(k)) == Some(wire)
    ensures ReadEntry([Id(k)] + (WriteUtf(name).value + more)).Ok?
    ensures ReadEntry([Id(k)] + (WriteUtf(name).value + more)).value.value.Some?
    ensures ReadNamed([Id(k)] + (WriteUtf(name).value + more), d, maximumDepth) ==
      var h := SplitName(name, wire);
      var v := ReadPayload(h.kind, h.listKind, more, d, maximumDepth);
      if v.Thrown? then Thrown(v.ex) else Ok(Parsed(Binding(h.name, v.value.value), v.value.rest))
  {
    ReadEntryBack(k, name, wire, more);
  }

  lemma {:induction false} PayloadAsCompound(s: seq<Byte>, d: int, maximumDepth: Int32)
    requires d <= maximumDepth
    ensures ReadPayload(COMPOUND, None, s, d, maximumDepth) ==
      var c := ReadCompound(s, d, maximumDepth, []);
      if c.Thrown? then Thrown(c.ex) else Ok(Parsed(CompoundTag(c.value.value), c.value.rest))
  {
  }

  lemma {:induction false} PayloadAsCompoundArray(s: seq<Byte>, d: int, maximumDepth: Int32)
    requires d <= maximumDepth
    ensures ReadPayload(COMPOUND_ARRAY, None, s, d, maximumDepth) == ReadCompoundArray(s, d, maximumDepth)
  {
  }

  /** One step of the element loop: a payload, then add, then the rest. */
  lemma {:induction false} ReadElementsStep(ek: NbtType, s: seq<Byte>, n: int, d: int, maximumDepth: Int32, acc: ListTags.ListValue)
    requires n > 0
    ensures ReadElements(ek, s, n, d, maximumDepth, acc) ==
      var e := ReadPayload(ek, None, s, d, maximumDepth);
      if e.Thrown? then Thrown(e.ex)
      else
        var added := ListTags.AddOutcome(acc, Some(e.value.value));
        if added.result.Thrown? then Thrown(added.result.ex)
        else ReadElements(ek, e.value.rest, n - 1, d, maximumDepth, added.state)
  {
  }

  /** One step of the compound loop. */
  lemma {:induction false} ReadCompoundsStep(s: seq<Byte>, n: int, d: int, maximumDepth: Int32, acc: seq<Option<Compound>>)
    requires n > 0
    ensures ReadCompounds(s, n, d, maximumDepth, acc) ==
      var c := ReadCompound(s, d, maximumDepth, []);
      if c.Thrown? then Thrown(c.ex)
      else ReadCompounds(c.value.rest, n - 1, d, maximumDepth, acc + [Some(c.value.value)])
  {
  }

  // ---------------------------------------------------------------------
  // How each reader's result follows from the results of the readers it
  // calls. Each takes the nested results as hypotheses, so that the
  // induction below only has to supply them.

  lemma {:induction false} FlatPayload(kind: NbtType, t: Tag, rest: seq<Byte>, d: int, maximumDepth: Int32)
    requires (IsScalar(kind) || IsValueArray(kind)) && EncodePayload(kind, t).Ok? && Codable(t)
    requires d <= maximumDepth
    ensures ReadPayload(kind, None, EncodePayload(kind, t).value + rest, d, maximumDepth)
         == Nested(Height(t), t, rest, d, maximumDepth)
  {
    EncodedClass(kind, t);
    FlatHeight(kind, t);
    if IsScalar(kind) {
      ScalarRoundTrip(kind, t, rest);
    } else {
      ValueArrayRoundTrip(kind, t, rest);
    }
  }

  lemma {:induction false} CompoundPayloadFrom(c: Compound, s: seq<Byte>, rest: seq<Byte>, d: int, maximumDepth: Int32)
    requires d <= maximumDepth
    requires ReadCompound(s, d, maximumDepth, []) == Nested(EntriesHeight(c.entries), c, rest, d + 1, maximumDepth)
    ensures ReadPayload(COMPOUND, None, s, d, maximumDepth)
         == Nested(Height(CompoundTag(c)), CompoundTag(c), rest, d, maximumDepth)
  {
    PayloadAsCompound(s, d, maximumDepth);
    NestedBelow(ReadCompound(s, d, maximumDepth, []), EntriesHeight(c.entries), c, CompoundTag(c), rest, d, 1, maximumDepth);
  }

  lemma {:induction false} CompoundArrayFrom(cs: seq<Option<Compound>>, more: seq<Byte>, rest: seq<Byte>, d: int, maximumDepth: Int32)
    requires |cs| <= INT32_MAX && d <= maximumDepth
    requires ReadCompounds(more, |cs|, d + 1, maximumDepth, []) == Nested(CompoundsHeight(cs), cs, rest, d + 2, maximumDepth)
    ensures ReadCompoundArray([Id(COMPOUND)] + (WriteInt(|cs|) + more), d, maximumDepth)
         == Nested(Height(CompoundArrayTag(cs)), CompoundArrayTag(cs), rest, d, maximumDepth)
  {
    ReadCompoundArrayStep(|cs|, more, d, maximumDepth);
    NestedBelow(ReadCompounds(more, |cs|, d + 1, maximumDepth, []), CompoundsHeight(cs), cs, CompoundArrayTag(cs), rest, d, 2, maximumDepth);
  }

  lemma {:induction false} ListEmptyBack(ek: NbtType, listKind: Option<NbtType>, rest: seq<Byte>, d: int, maximumDepth: Int32)
    requires listKind == Some(ek) || (listKind.None? && ByIndex(Id(ek)) == Some(ek))
    requires d <= maximumDepth
    ensures ReadList(listKind, [Id(ek)] + (WriteInt(0) + rest), d, maximumDepth)
         == Nested(Height(ListTag([])), ListTag([]), rest, d, maximumDepth)
  {
    ReadListEmpty(listKind, ek, rest, d, maximumDepth);
  }

  lemma {:induction false} ListFrom(ek: NbtType, es: seq<Tag>, listKind: Option<NbtType>, more: seq<Byte>, rest: seq<Byte>, d: int, maximumDepth: Int32)
    requires listKind == Some(ek) || (listKind.None? && ByIndex(Id(ek)) == Some(ek))
    requires es != [] && ek != END && |es| <= INT32_MAX && d <= maximumDepth
    requires ReadElements(ek, more, |es|, d + 1, maximumDepth, ListTags.EMPTY)
          == Nested(TagsHeight(es), ListTags.ListValue(es, TagClassOf(ek)), rest, d + 1, maximumDepth)
    ensures ReadList(listKind, [Id(ek)] + (WriteInt(|es|) + more), d, maximumDepth)
         == Nested(Height(ListTag(es)), ListTag(es), rest, d, maximumDepth)
  {
    ReadListStep(listKind, ek, |es|, more, d, maximumDepth);
    NestedBelow(ReadElements(ek, more, |es|, d + 1, maximumDepth, ListTags.EMPTY), TagsHeight(es),
                ListTags.ListValue(es, TagClassOf(ek)), ListTag(es), rest, d, 1, maximumDepth);
  }

  lemma {:induction false} ElementsFrom(ek: NbtType, e: Tag, n: int, acc: ListTags.ListValue, all: seq<Tag>, h: int,
                                        s: seq<Byte>, mid: seq<Byte>, rest: seq<Byte>, d: int, maximumDepth: Int32)
    requires n > 0 && h >= -1
    requires (acc.elements == [] && acc.lock.None?) || acc.lock == TagClassOf(ek)
    requires TagClassOf(ek) == Some(ClassOf(e))
    requires ReadPayload(ek, None, s, d, maximumDepth) == Nested(Height(e), e, mid, d, maximumDepth)
    requires ReadElements(ek, mid, n - 1, d, maximumDepth, ListTags.ListValue(acc.elements + [e], TagClassOf(ek)))
          == Nested(h, ListTags.ListValue(all, TagClassOf(ek)), rest, d, maximumDepth)
    ensures ReadElements(ek, s, n, d, maximumDepth, acc)
         == Nested(Max(Height(e), h), ListTags.ListValue(all, TagClassOf(ek)), rest, d, maximumDepth)
  {
    AddElement(acc, ek, e);
    ReadElementsStep(ek, s, n, d, maximumDepth, acc);
    NestedThen(ReadPayload(ek, None, s, d, maximumDepth), Height(e), e, mid,
               h, ListTags.ListValue(all, TagClassOf(ek)), rest, d, maximumDepth);
  }

  lemma {:induction false} EntriesFrom(b: Binding<Text, Tag>, acc: seq<Binding<Text, Tag>>, all: seq<Binding<Text, Tag>>, h: int,
                                       s: seq<Byte>, mid: seq<Byte>, rest: seq<Byte>, d: int, maximumDepth: Int32)
    requires h >= -1 && Put(acc, b.key, b.value) == acc + [b]
    requires NamedReadsBack(s, b.key, b.value, mid, d + 1, maximumDepth)
    requires ReadCompound(mid, d, maximumDepth, acc + [b]) == Nested(h, Compound(all), rest, d + 1, maximumDepth)
    ensures ReadCompound(s, d, maximumDepth, acc) == Nested(Max(Height(b.value), h), Compound(all), rest, d + 1, maximumDepth)
  {
    ReadCompoundStep(s, d, maximumDepth, acc);
    NestedThen(ReadNamed(s, d + 1, maximumDepth), Height(b.value), b, mid, h, Compound(all), rest, d + 1, maximumDepth);
  }

  lemma {:induction false} CompoundsFrom(c: Compound, n: int, acc: seq<Option<Compound>>, all: seq<Option<Compound>>, h: int,
                                         s: seq<Byte>, mid: seq<Byte>, rest: seq<Byte>, d: int, maximumDepth: Int32)
    requires n > 0 && h >= -1
    requires ReadCompound(s, d, maximumDepth, []) == Nested(EntriesHeight(c.entries), c, mid, d + 1, maximumDepth)
    requires ReadCompounds(mid, n - 1, d, maximumDepth, acc + [Some(c)]) == Nested(h, all, rest, d + 1, maximumDepth)
    ensures ReadCompounds(s, n, d, maximumDepth, acc) == Nested(Max(EntriesHeight(c.entries), h), all, rest, d + 1, maximumDepth)
  {
    ReadCompoundsStep(s, n, d, maximumDepth, acc);
    NestedThen(ReadCompound(s, d, maximumDepth, []), EntriesHeight(c.entries), c, mid, h, all, rest, d + 1, maximumDepth);
  }

  /** A named entry whose header splits into h and whose payload reads back
    * as t gives the binding of h's name to t. */
  lemma {:induction false} NamedFrom(k: NbtType, name: Text, hd: seq<Byte>, wire: NbtType, h: EntryHeader, t: Tag,
                                     more: seq<Byte>, tail: seq<Byte>, d: int, maximumDepth: Int32)
    requires k != END && WriteUtf(name) == Ok(hd) && ByIndex(Id(k)) == Some(wire) && SplitName(name, wire) == h
    requires ReadPayload(h.kind, h.listKind, more, d, maximumDepth) == Nested(Height(t), t, tail, d, maximumDepth)
    ensures NamedReadsBack([Id(k)] + (hd + more), h.name, t, tail, d, maximumDepth)
  {
    ReadNamedStep(k, name, wire, more, d, maximumDepth);
  }

  lemma {:induction false} NonListEntryFrom(key: Text, t: Tag, k: NbtType, hd: seq<Byte>, more: seq<Byte>, tail: seq<Byte>, d: int, maximumDepth: Int32)
    requires DOLLAR !in key && k != END && WriteUtf(SuffixedKey(key, k)) == Ok(hd)
    requires ReadPayload(k, None, more, d, maximumDepth) == Nested(Height(t), t, tail, d, maximumDepth)
    ensures NamedReadsBack([Id(k)] + (hd + more), key, t, tail, d, maximumDepth)
  {
    ByIndexFilled(Id(k));
    SplitSuffixedKey(key, k);
    NamedFrom(k, SuffixedKey(key, k), hd, ByIndex(Id(k)).value, EntryHeader(key, k, None), t, more, tail, d, maximumDepth);
  }

  lemma {:induction false} ListEntryFrom(key: Text, es: seq<Tag>, ek: NbtType, hd: seq<Byte>, more: seq<Byte>, tail: seq<Byte>, d: int, maximumDepth: Int32)
    requires DOLLAR !in key && WriteUtf(ListKey(key, ek)) == Ok(hd)
    requires d <= maximumDepth ==>
      ReadList(ListKindOf(ek), more, d, maximumDepth) == Nested(Height(ListTag(es)), ListTag(es), tail, d, maximumDepth)
    ensures NamedReadsBack([Id(LIST)] + (hd + more), key, ListTag(es), tail, d, maximumDepth)
  {
    ListKind();
    if Suffix(ek).Some? {
      SplitListKeySuffixed(key, ek);
    } else {
      SplitListKeyPlain(key, ek);
    }
    var h := EntryHeader(key, LIST, ListKindOf(ek));
    assert SplitName(ListKey(key, ek), LIST) == h;
    if d <= maximumDepth {
      PayloadAsList(ListKindOf(ek), more, d, maximumDepth);
    } else {
      PayloadTooDeep(LIST, ListKindOf(ek), more, d, maximumDepth);
    }
    NamedFrom(LIST, ListKey(key, ek), hd, LIST, h, ListTag(es), more, tail, d, maximumDepth);
  }

  // ---------------------------------------------------------------------
  // The induction, along the encoder's recursion.

  /** A payload reads back as the tag written, at any depth: unchanged when
    * the tree fits under maximumDepth, the depth error when it does not. */
  lemma {:induction false} PayloadRoundTrip(kind: NbtType, t: Tag, rest: seq<Byte>, d: int, maximumDepth: Int32)
    requires EncodePayload(kind, t).Ok? && Codable(t)
    ensures ReadPayload(kind, None, EncodePayload(kind, t).value + rest, d, maximumDepth)
         == Nested(Height(t), t, rest, d, maximumDepth)
    decreases Size(t), 0
  {
    if d > maximumDepth {
    } else if IsScalar(kind) || IsValueArray(kind) {
      FlatPayload(kind, t, rest, d, maximumDepth);
    } else {
      EncodedClass(kind, t);
      ContainerKind(kind, t);
      if t.ListTag? {
        var es := t.elements;
        assert EncodePayload(LIST, ListTag(es)) == EncodeList(LIST, es);
        ListKind();
        ListRoundTrip(LIST, es, None, rest, d, maximumDepth);
        PayloadAsList(None, EncodeList(LIST, es).value + rest, d, maximumDepth);
      } else if t.CompoundTag? {
        var c := t.compound;
        assert EncodePayload(COMPOUND, CompoundTag(c)) == EncodeCompound(c);
        CompoundBytes(c, rest);
        EntriesRoundTrip(c.entries, [], rest, d, maximumDepth);
        assert [] + c.entries == c.entries;
        CompoundPayloadFrom(c, EncodeCompound(c).value + rest, rest, d, maximumDepth);
      } else {
        var cs := t.compounds;
        CompoundArrayBytes(cs, rest);
        CompoundsRoundTrip(cs, [], rest, d + 1, maximumDepth);
        assert [] + cs == cs;
        CompoundArrayFrom(cs, EncodeCompounds(cs).value + rest, rest, d, maximumDepth);
        PayloadAsCompoundArray(EncodePayload(COMPOUND_ARRAY, CompoundArrayTag(cs)).value + rest, d, maximumDepth);
      }
    }
  }

  /** A named entry reads back as its key and tag, the name split undoing
    * the suffixes the encoder added. */
  lemma {:induction false} EntryRoundTrip(key: Text, t: Tag, tail: seq<Byte>, d: int, maximumDepth: Int32)
    requires EncodeEntry(key, t).Ok? && DOLLAR !in key && Codable(t)
    ensures NamedReadsBack(EncodeEntry(key, t).value + tail, key, t, tail, d, maximumDepth)
    decreases Size(t), 2
  {
    if t.ListTag? {
      var es := t.elements;
      ListEntryBytes(key, es, tail);
      ListEntryRoundTrip(key, es, ElementKind(es).value, tail, d, maximumDepth);
    } else {
      NonListEntryBytes(key, t, tail);
      var k := ByClass(ClassOf(t)).value;
      EncodedClass(k, t);
      PayloadRoundTrip(k, t, tail, d, maximumDepth);
      NonListEntryFrom(key, t, k, WriteUtf(SuffixedKey(key, k)).value, EncodePayload(k, t).value + tail, tail, d, maximumDepth);
    }
  }

  /** A list entry: LIST's id byte, the key with the element kind's marks, the list. */
  lemma {:induction false} ListEntryRoundTrip(key: Text, es: seq<Tag>, ek: NbtType, tail: seq<Byte>, d: int, maximumDepth: Int32)
    requires DOLLAR !in key && Codable(ListTag(es))
    requires WriteUtf(ListKey(key, ek)).Ok? && EncodeList(ek, es).Ok?
    ensures NamedReadsBack([Id(LIST)] + (WriteUtf(ListKey(key, ek)).value + (EncodeList(ek, es).value + tail)),
                           key, ListTag(es), tail, d, maximumDepth)
    decreases Size(ListTag(es)), 1
  {
    if d <= maximumDepth {
      ListKindReads(ek);
      ListRoundTrip(ek, es, ListKindOf(ek), tail, d, maximumDepth);
    }
    ListEntryFrom(key, es, ek, WriteUtf(ListKey(key, ek)).value, EncodeList(ek, es).value + tail, tail, d, maximumDepth);
  }

  /** A list payload: element id, count, then the elements one level deeper. */
  lemma {:induction false} ListRoundTrip(ek: NbtType, es: seq<Tag>, listKind: Option<NbtType>, rest: seq<Byte>, d: int, maximumDepth: Int32)
    requires EncodeList(ek, es).Ok? && |es| <= INT32_MAX && CodableTags(es) && d <= maximumDepth
    requires listKind == Some(ek) || (listKind.None? && ByIndex(Id(ek)) == Some(ek))
    ensures ReadList(listKind, EncodeList(ek, es).value + rest, d, maximumDepth)
         == Nested(Height(ListTag(es)), ListTag(es), rest, d, maximumDepth)
    decreases SizeOfTags(es), 3
  {
    ListBytes(ek, es, rest);
    if es == [] {
      assert EncodePayloads(ek, es).value + rest == rest;
      ListEmptyBack(ek, listKind, rest, d, maximumDepth);
    } else {
      PayloadsBytes(ek, es, rest);
      EncodedClass(ek, es[0]);
      ElementsRoundTrip(ek, es, ListTags.EMPTY, rest, d + 1, maximumDepth);
      assert ListTags.EMPTY.elements + es == es;
      ListFrom(ek, es, listKind, EncodePayloads(ek, es).value + rest, rest, d, maximumDepth);
    }
  }

  /** The element loop: every payload read back in order into the ListTag,
    * whose lock they all satisfy. */
  lemma {:induction false} ElementsRoundTrip(ek: NbtType, es: seq<Tag>, acc: ListTags.ListValue, rest: seq<Byte>, d: int, maximumDepth: Int32)
    requires EncodePayloads(ek, es).Ok? && CodableTags(es)
    requires (acc.elements == [] && acc.lock.None?) || acc.lock == TagClassOf(ek)
    ensures ReadElements(ek, EncodePayloads(ek, es).value + rest, |es|, d, maximumDepth, acc)
         == Nested(TagsHeight(es), ListTags.ListValue(acc.elements + es, if es == [] then acc.lock else TagClassOf(ek)),
                   rest, d, maximumDepth)
    decreases SizeOfTags(es), 2
  {
    if es == [] {
      assert EncodePayloads(ek, es).value + rest == rest;
      assert acc.elements + es == acc.elements;
    } else {
      PayloadsBytes(ek, es, rest);
      var tail := EncodePayloads(ek, es[1..]).value + rest;
      ElementsRoundTrip(ek, es[1..], ListTags.ListValue(acc.elements + [es[0]], TagClassOf(ek)), rest, d, maximumDepth);
      HeadRoundTrip(ek, es, tail, d, maximumDepth);
      ElementsCons(ek, es, acc, rest, d, maximumDepth);
    }
  }

  /** One step of the element loop: the first payload, then the rest. */
  lemma {:induction false} ElementsCons(ek: NbtType, es: seq<Tag>, acc: ListTags.ListValue, rest: seq<Byte>, d: int, maximumDepth: Int32)
    requires es != [] && EncodePayloads(ek, es).Ok?
    requires (acc.elements == [] && acc.lock.None?) || acc.lock == TagClassOf(ek)
    requires EncodePayload(ek, es[0]).Ok? && EncodePayloads(ek, es[1..]).Ok?
    requires ReadPayload(ek, None, EncodePayload(ek, es[0]).value + (EncodePayloads(ek, es[1..]).value + rest), d, maximumDepth)
          == Nested(Height(es[0]), es[0], EncodePayloads(ek, es[1..]).value + rest, d, maximumDepth)
    requires ReadElements(ek, EncodePayloads(ek, es[1..]).value + rest, |es[1..]|, d, maximumDepth,
                          ListTags.ListValue(acc.elements + [es[0]], TagClassOf(ek)))
          == Nested(TagsHeight(es[1..]), ListTags.ListValue(acc.elements + [es[0]] + es[1..], TagClassOf(ek)),
                    rest, d, maximumDepth)
    ensures ReadElements(ek, EncodePayloads(ek, es).value + rest, |es|, d, maximumDepth, acc)
         == Nested(TagsHeight(es), ListTags.ListValue(acc.elements + es, TagClassOf(ek)), rest, d, maximumDepth)
  {
    PayloadsBytes(ek, es, rest);
    EncodedClass(ek, es[0]);
    var tail := EncodePayloads(ek, es[1..]).value + rest;
    assert acc.elements + [es[0]] + es[1..] == acc.elements + es;
    ElementsFrom(ek, es[0], |es|, acc, acc.elements + es, TagsHeight(es[1..]),
                 EncodePayload(ek, es[0]).value + tail, tail, rest, d, maximumDepth);
  }

  /** The first element of a list, read back on its own. */
  lemma {:induction false} HeadRoundTrip(ek: NbtType, es: seq<Tag>, tail: seq<Byte>, d: int, maximumDepth: Int32)
    requires es != [] && CodableTags(es) && EncodePayload(ek, es[0]).Ok?
    ensures ReadPayload(ek, None, EncodePayload(ek, es[0]).value + tail, d, maximumDepth)
         == Nested(Height(es[0]), es[0], tail, d, maximumDepth)
    decreases SizeOfTags(es), 1
  {
    PayloadRoundTrip(ek, es[0], tail, d, maximumDepth);
  }

  /** The entries of a compound, up to its END byte: each read back under
    * its key, one level deeper, and put into the map in order. */
  lemma {:induction false} EntriesRoundTrip(es: seq<Binding<Text, Tag>>, acc: seq<Binding<Text, Tag>>, rest: seq<Byte>, d: int, maximumDepth: Int32)
    requires EncodeEntries(es).Ok? && CodableEntries(es) && DistinctKeys(acc + es)
    ensures ReadCompound(EncodeEntries(es).value + ([Id(END)] + rest), d, maximumDepth, acc)
         == Nested(EntriesHeight(es), Compound(acc + es), rest, d + 1, maximumDepth)
    decreases SizeOfEntries(es), 3
  {
    if es == [] {
      assert EncodeEntries(es).value + ([Id(END)] + rest) == [Id(END)] + rest;
      assert acc + es == acc;
      ReadCompoundEnd(rest, d, maximumDepth, acc);
    } else {
      EntriesBytes(es, [Id(END)] + rest);
      var tail := EncodeEntries(es[1..]).value + ([Id(END)] + rest);
      EntryRoundTrip(es[0].key, es[0].value, tail, d + 1, maximumDepth);
      PutFresh(acc, es);
      EntriesRoundTrip(es[1..], acc + [es[0]], rest, d, maximumDepth);
      EntriesFrom(es[0], acc, acc + es, EntriesHeight(es[1..]),
                  EncodeEntry(es[0].key, es[0].value).value + tail, tail, rest, d, maximumDepth);
    }
  }

  /** The compounds of a compound array, each ended by its END byte. */
  lemma {:induction false} CompoundsRoundTrip(cs: seq<Option<Compound>>, acc: seq<Option<Compound>>, rest: seq<Byte>, d: int, maximumDepth: Int32)
    requires EncodeCompounds(cs).Ok? && CodableCompounds(cs)
    ensures ReadCompounds(EncodeCompounds(cs).value + rest, |cs|, d, maximumDepth, acc)
         == Nested(CompoundsHeight(cs), acc + cs, rest, d + 1, maximumDepth)
    decreases SizeOfCompounds(cs), 5
  {
    if cs == [] {
      assert EncodeCompounds(cs).value + rest == rest;
      assert acc + cs == acc;
    } else {
      CompoundsBytes(cs, rest);
      var c := cs[0].value;
      var tail := EncodeCompounds(cs[1..]).value + rest;
      CompoundBytes(c, tail);
      assert [] + c.entries == c.entries;
      EntriesRoundTrip(c.entries, [], tail, d, maximumDepth);
      CompoundsRoundTrip(cs[1..], acc + [cs[0]], rest, d, maximumDepth);
      assert (acc + [cs[0]]) + cs[1..] == acc + cs;
      CompoundsFrom(c, |cs|, acc, acc + cs, CompoundsHeight(cs[1..]),
                    EncodeCompound(c).value + tail, tail, rest, d, maximumDepth);
    }
  }

  // ---------------------------------------------------------------------

  /** The codec's round trip: read(write(t)) gives t back, leaving whatever
    * follows on the stream, when t is no higher than maximumDepth; a deeper
    * tree makes read throw the depth error instead. */
  lemma {:induction false} WriteReadRoundTrip(t: Tag, rest: seq<Byte>, maximumDepth: Int32)
    requires Write(t).Ok? && Codable(t)
    ensures Read(Write(t).value + rest, maximumDepth)
         == if Height(t) <= maximumDepth then Ok(Parsed(t, rest)) else Thrown(IO(DepthExceeded))
  {
    EntryRoundTrip([], t, rest, 0, maximumDepth);
    ReadIsReadNamed(Write(t).value + rest, maximumDepth);
  }
}
