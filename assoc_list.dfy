/** A Java HashMap as the model sees it: an association list whose order
  * stands for the map's iteration order. */
module AssocList {
  import opened JavaTypes

  datatype Binding<K, V> = Binding(key: K, value: V)

  function Keys<K, V>(bs: seq<Binding<K, V>>): (ks: seq<K>)
    ensures |ks| == |bs|
    ensures forall i :: 0 <= i < |bs| ==> ks[i] == bs[i].key
  {
    if bs == [] then [] else [bs[0].key] + Keys(bs[1..])
  }

  /** No key occurs twice, as in any Java Map. */
  predicate DistinctKeys<K(==), V>(bs: seq<Binding<K, V>>)
  {
    forall i, j :: 0 <= i < j < |bs| ==> bs[i].key != bs[j].key
  }

  /** Map.get: the value bound to k, or null. */
  function Lookup<K(==), V>(bs: seq<Binding<K, V>>, k: K): (r: Option<V>)
    ensures r.None? <==> k !in Keys(bs)
    ensures r.Some? ==> Binding(k, r.value) in bs
  {
    if bs == [] then None
    else if bs[0].key == k then Some(bs[0].value)
    else Lookup(bs[1..], k)
  }

  /** Map.put: rebinds k where it already is, or appends a new binding. */
  function Put<K(==), V>(bs: seq<Binding<K, V>>, k: K, v: V): (r: seq<Binding<K, V>>)
    ensures k in Keys(bs) ==> |r| == |bs|
    ensures k !in Keys(bs) ==> r == bs + [Binding(k, v)]
  {
    if bs == [] then [Binding(k, v)]
    else if bs[0].key == k then [Binding(k, v)] + bs[1..]
    else [bs[0]] + Put(bs[1..], k, v)
  }

  /** After put(k, v), get(k) is v and every other key is unaffected. */
  lemma {:induction false} LookupPut<K, V>(bs: seq<Binding<K, V>>, k: K, v: V, k2: K)
    ensures Lookup(Put(bs, k, v), k2) == if k2 == k then Some(v) else Lookup(bs, k2)
  {
    if bs != [] && bs[0].key != k {
      LookupPut(bs[1..], k, v, k2);
    }
  }

  /** Put keeps the keys of a map distinct. */
  lemma {:induction false} PutDistinct<K, V>(bs: seq<Binding<K, V>>, k: K, v: V)
    requires DistinctKeys(bs)
    ensures DistinctKeys(Put(bs, k, v))
    ensures Keys(Put(bs, k, v)) == if k in Keys(bs) then Keys(bs) else Keys(bs) + [k]
  {
    if bs != [] && bs[0].key != k {
      PutDistinct(bs[1..], k, v);
      assert Keys(Put(bs, k, v)) == [bs[0].key] + Keys(Put(bs[1..], k, v));
      assert Keys(bs) == [bs[0].key] + Keys(bs[1..]);
    } else if bs != [] {
      assert Keys(Put(bs, k, v)) == [k] + Keys(bs[1..]);
      assert Keys(bs) == [k] + Keys(bs[1..]);
    }
  }

  /** putAll of a list of bindings, in order. */
  function PutAll<K(==), V>(bs: seq<Binding<K, V>>, more: seq<Binding<K, V>>): (r: seq<Binding<K, V>>)
    decreases |more|
  {
    if more == [] then bs else PutAll(Put(bs, more[0].key, more[0].value), more[1..])
  }

  /** Copying a map whose keys are distinct into an empty map reproduces it. */
  lemma {:induction false} PutAllCopies<K, V>(bs: seq<Binding<K, V>>, more: seq<Binding<K, V>>)
    requires DistinctKeys(bs + more)
    ensures PutAll(bs, more) == bs + more
    decreases |more|
  {
    if more != [] {
      var k := more[0].key;
      assert k !in Keys(bs) by {
        assert forall i :: 0 <= i < |bs| ==> (bs + more)[i] == bs[i];
        assert (bs + more)[|bs|] == more[0];
      }
      assert Put(bs, k, more[0].value) == bs + [more[0]];
      assert bs + more == (bs + [more[0]]) + more[1..];
      PutAllCopies(bs + [more[0]], more[1..]);
    }
  }
}
