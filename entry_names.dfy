/** The entry names the encoder writes and how readEntry splits them again:
  * for a key without '$', the split recovers the key, the kind and, for a
  * list, the element kind; a key with '$' or an unregistered suffix is
  * where the scheme loses information. */
module EntryNames {
  import opened JavaTypes
  import opened Tags
  import opened NbtTypes
  import opened NbtEncoding
  import opened NbtDecoding

  /** A literal without the character c has no code unit c. */
  lemma {:induction false} LitAvoids(s: string, c: char)
    requires forall i :: 0 <= i < |s| ==> s[i] as int < 0x1_0000
    requires c !in s
    ensures c as int !in Lit(s)
  {
  }

  /** No suffix contains '$'. */
  lemma {:induction false} SuffixWithoutDollar(k: NbtType)
    requires Suffix(k).Some?
    ensures DOLLAR !in Suffix(k).value
  {
    match k
    case BOOLEAN => LitAvoids("Boolean", '$');
    case BOOLEAN_ARRAY => LitAvoids("boolean[]", '$');
    case SHORT_ARRAY => LitAvoids("short[]", '$');
    case FLOAT_ARRAY => LitAvoids("float[]", '$');
    case DOUBLE_ARRAY => LitAvoids("double[]", '$');
    case STRING_ARRAY => LitAvoids("string[]", '$');
    case CHAR => LitAvoids("char", '$');
    case CHAR_ARRAY => LitAvoids("char[]", '$');
    case COMPOUND_ARRAY => LitAvoids("compound[]", '$');
  }

  /** lastIndexOf finds the position p when p holds c and nothing after it does. */
  lemma {:induction false} LastIndexAt(s: Text, c: CodeUnit, p: nat)
    requires p < |s| && s[p] == c && c !in s[p + 1..]
    ensures LastIndexOf(s, c) == p
  {
    var r := LastIndexOf(s, c);
    assert c in s by { assert s[p] == c; }
    if r < p {
      assert false;
    } else if r > p {
      assert false;
    }
  }

  /** A name key + "$" + sfx, for a registered suffix sfx and a key and
    * suffix without '$', splits into the key and the suffix's kind, whatever
    * the wire kind, when the key is not "...$List" under a LIST id. */
  lemma {:induction false} SplitAtSuffix(key: Text, sfx: Text, wire: NbtType, k: NbtType)
    requires DOLLAR !in key && DOLLAR !in sfx && BySuffix(sfx) == Some(k)
    ensures SplitName(key + [DOLLAR] + sfx, wire) == EntryHeader(key, k, None)
  {
    var name := key + [DOLLAR] + sfx;
    assert name[|key| + 1..] == sfx;
    LastIndexAt(name, DOLLAR, |key|);
    assert name[..|key|] == key;
  }

  /** The name of a non-list entry, split with the wire kind its id byte
    * gives, yields the key and the kind back. */
  lemma {:induction false} SplitSuffixedKey(key: Text, k: NbtType)
    requires DOLLAR !in key
    requires ByIndex(Id(k)).Some?
    ensures SplitName(SuffixedKey(key, k), ByIndex(Id(k)).value) == EntryHeader(key, k, None)
  {
    var wire := ByIndex(Id(k)).value;
    if Suffix(k).None? {
      ByIndexSpec(Id(k), wire);
      IdInjective(wire, k);
    } else {
      SuffixWithoutDollar(k);
      BySuffixSpec(Suffix(k).value, k);
      SplitAtSuffix(key, Suffix(k).value, wire, k);
    }
  }

  /** key + "$List$" + sfx under the LIST id, for a registered suffix sfx:
    * both '$'-segments are cut and the suffix names the element kind. */
  lemma {:induction false} SplitAtListSuffix(key: Text, sfx: Text, k: NbtType)
    requires DOLLAR !in key && DOLLAR !in sfx && BySuffix(sfx) == Some(k)
    ensures SplitName(key + LIST_MARK + sfx, LIST) == EntryHeader(key, LIST, Some(k))
  {
    var base := key + [DOLLAR] + LIST_WORD;
    var name := base + [DOLLAR] + sfx;
    assert key + LIST_MARK + sfx == name by { ListMarkSplits(key, sfx); }
    assert name[|base| + 1..] == sfx;
    LastIndexAt(name, DOLLAR, |base|);
    assert name[..|base|] == base;
    ListSegment(key);
  }

  /** "$List$" is '$', "List", '$'. */
  lemma {:induction false} ListMarkSplits(key: Text, sfx: Text)
    ensures key + LIST_MARK + sfx == key + [DOLLAR] + LIST_WORD + [DOLLAR] + sfx
  {
    assert LIST_MARK == [DOLLAR] + LIST_WORD + [DOLLAR];
  }

  /** In key + "$List" the last '$' is the one after the key. */
  lemma {:induction false} ListSegment(key: Text)
    requires DOLLAR !in key
    ensures var base := key + [DOLLAR] + LIST_WORD;
      LastIndexOf(base, DOLLAR) == |key| && base[|key| + 1..] == LIST_WORD && base[..|key|] == key
  {
    var base := key + [DOLLAR] + LIST_WORD;
    assert base[|key| + 1..] == LIST_WORD;
    LitAvoids("List", '$');
    LastIndexAt(base, DOLLAR, |key|);
    assert base[..|key|] == key;
  }

  /** The name of a list entry whose element kind has a suffix: the text
    * after the last '$' names the element kind and "$List" before it is cut
    * off too. */
  lemma {:induction false} SplitListKeySuffixed(key: Text, elementKind: NbtType)
    requires DOLLAR !in key && Suffix(elementKind).Some?
    ensures SplitName(ListKey(key, elementKind), LIST) == EntryHeader(key, LIST, Some(elementKind))
  {
    SuffixWithoutDollar(elementKind);
    BySuffixSpec(Suffix(elementKind).value, elementKind);
    SplitAtListSuffix(key, Suffix(elementKind).value, elementKind);
  }

  /** The name of a list entry whose element kind has no suffix is the bare
    * key, and the wire kind LIST stays. */
  lemma {:induction false} SplitListKeyPlain(key: Text, elementKind: NbtType)
    requires DOLLAR !in key && Suffix(elementKind).None?
    ensures SplitName(ListKey(key, elementKind), LIST) == EntryHeader(key, LIST, None)
  {
  }
}
