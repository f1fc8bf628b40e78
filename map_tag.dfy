/** MapTag: a HashMap from tags to tags whose put refuses a null key and a
  * null value. The map's contents are an association list (AssocList). */
module MapTags {
  import opened JavaTypes
  import opened AssocList
  import Tags

  type Pairs = seq<Binding<Tags.Tag, Tags.Tag>>

  class MapTag {
    var pairs: Pairs

    /** The map's current contents as a tree node. */
    function Value(): Tags.TagMap
      reads this
    {
      Tags.TagMap(pairs)
    }

    constructor ()
      ensures pairs == []
    {
      pairs := [];
    }

    /** MapTag.of(map): a new MapTag filled by putAll, which copies every entry. */
    static method Of(m: Pairs) returns (t: MapTag)
      requires DistinctKeys(m)
      ensures fresh(t) && t.pairs == m
    {
      t := new MapTag();
      t.pairs := PutAll(t.pairs, m);
      PutAllCopies([], m);
    }

    /** get(): the map itself. */
    method Get() returns (ps: Pairs)
      ensures ps == pairs
    {
      ps := pairs;
    }

    /** set(map): clear(), then putAll(map). */
    method Set(m: Pairs)
      requires DistinctKeys(m)
      modifies this
      ensures pairs == m
    {
      pairs := [];
      pairs := PutAll(pairs, m);
      PutAllCopies([], m);
    }

    /** put(key, value): null key, then null value, throw; an existing key
      * is overwritten and its old value returned. */
    method Put(key: Option<Tags.Tag>, value: Option<Tags.Tag>) returns (r: Result<Option<Tags.Tag>>)
      modifies this
      ensures r.Ok? <==> key.Some? && value.Some?
      ensures r.Ok? ==> r.value == Lookup(old(pairs), key.value) && pairs == AssocList.Put(old(pairs), key.value, value.value)
      ensures r.Thrown? ==> r.ex == NullPointer && pairs == old(pairs)
      ensures DistinctKeys(old(pairs)) ==> DistinctKeys(pairs)
    {
      if key.None? || value.None? {
        return Thrown(NullPointer);
      }
      r := Ok(Lookup(pairs, key.value));
      if DistinctKeys(pairs) {
        PutDistinct(pairs, key.value, value.value);
      }
      pairs := AssocList.Put(pairs, key.value, value.value);
    }
  }

  /** Putting an existing key again keeps the size and rebinds the key:
    * after put(k, v) and put(k, w), get(k) is w. */
  lemma {:induction false} PutOverwrites(ps: Pairs, k: Tags.Tag, v: Tags.Tag, w: Tags.Tag)
    requires DistinctKeys(ps)
    ensures |Put(Put(ps, k, v), k, w)| == |Put(ps, k, v)|
    ensures Lookup(Put(Put(ps, k, v), k, w), k) == Some(w)
    ensures Keys(Put(Put(ps, k, v), k, w)) == Keys(Put(ps, k, v))
  {
    PutDistinct(ps, k, v);
    PutDistinct(Put(ps, k, v), k, w);
    LookupPut(Put(ps, k, v), k, w, k);
  }
}
