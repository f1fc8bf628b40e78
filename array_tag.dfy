/** ArrayTag and its subclasses: a tag holding a Java array that insertAt
  * and removeAt replace by a reallocated copy and setAt writes in place.
  * The eight primitive array tags (byte, short, int, long, float, double,
  * boolean, char) share one body of code and are the generic class
  * PrimitiveArrayTag; ObjectArrayTag holds an array of references that may
  * be null. */
module ArrayTags {
  import opened JavaTypes

  // ---------------------------------------------------------------------
  // The sequences the array operations produce.

  /** The array after inserting v at index i. */
  function Inserted<T>(s: seq<T>, i: int, v: T): seq<T>
    requires 0 <= i <= |s|
  {
    s[..i] + [v] + s[i..]
  }

  /** The array after removing index i. */
  function Removed<T>(s: seq<T>, i: int): seq<T>
    requires 0 <= i < |s|
  {
    s[..i] + s[i + 1..]
  }

  /** Index shifting for insert: the elements before i stay, v is at i, and
    * the elements from i on move up by one. */
  lemma {:induction false} InsertedShifts<T>(s: seq<T>, i: int, v: T)
    requires 0 <= i <= |s|
    ensures |Inserted(s, i, v)| == |s| + 1 && Inserted(s, i, v)[i] == v
    ensures forall j :: 0 <= j < i ==> Inserted(s, i, v)[j] == s[j]
    ensures forall j :: i < j <= |s| ==> Inserted(s, i, v)[j] == s[j - 1]
  {
  }

  /** Index shifting for remove: the elements before i stay and the elements
    * after i move down by one. */
  lemma {:induction false} RemovedShifts<T>(s: seq<T>, i: int)
    requires 0 <= i < |s|
    ensures |Removed(s, i)| == |s| - 1
    ensures forall j :: 0 <= j < i ==> Removed(s, i)[j] == s[j]
    ensures forall j :: i <= j < |s| - 1 ==> Removed(s, i)[j] == s[j + 1]
  {
  }

  /** Removing what was just inserted gives the array back, and inserting
    * what was just removed does too. */
  lemma {:induction false} RemoveUndoesInsert<T>(s: seq<T>, i: int, v: T)
    requires 0 <= i <= |s|
    ensures Removed(Inserted(s, i, v), i) == s
    ensures i < |s| ==> Inserted(Removed(s, i), i, s[i]) == s
  {
    assert Inserted(s, i, v)[..i] == s[..i];
    assert Inserted(s, i, v)[i + 1..] == s[i..];
    assert s[..i] + s[i..] == s;
    if i < |s| {
      assert Removed(s, i)[..i] == s[..i];
      assert Removed(s, i)[i..] == s[i + 1..];
      assert [s[i]] + s[i + 1..] == s[i..];
    }
  }

  /** A boxed array: every element wrapped, none null. */
  function Boxed<T>(s: seq<T>): (r: seq<Option<T>>)
    ensures |r| == |s|
  {
    seq(|s|, j requires 0 <= j < |s| => Some(s[j]))
  }

  /** The conversion of a boxed array: each null replaced by the default. */
  function Unboxed<T>(bs: seq<Option<T>>, default: T): (r: seq<T>)
    ensures |r| == |bs|
  {
    seq(|bs|, j requires 0 <= j < |bs| => if bs[j].None? then default else bs[j].value)
  }

  /** Unboxing a boxed array gives it back, whatever the default; boxing an
    * unboxed array gives it back exactly when it held no null. */
  lemma {:induction false} BoxingRoundTrip<T>(s: seq<T>, bs: seq<Option<T>>, default: T)
    ensures Unboxed(Boxed(s), default) == s
    ensures Boxed(Unboxed(bs, default)) == bs <==> forall j :: 0 <= j < |bs| ==> bs[j].Some?
  {
    assert forall j :: 0 <= j < |s| ==> Unboxed(Boxed(s), default)[j] == s[j];
    if forall j :: 0 <= j < |bs| ==> bs[j].Some? {
      assert forall j :: 0 <= j < |bs| ==> Boxed(Unboxed(bs, default))[j] == bs[j];
    } else {
      var j :| 0 <= j < |bs| && bs[j].None?;
      assert Boxed(Unboxed(bs, default))[j] != bs[j];
    }
  }

  /** The outcome of a primitive removeAt: the guard rejects index < 0 and
    * index > length only, so an empty array fails allocating length - 1,
    * and index == length fails in the first array copy. */
  function PrimitiveRemoveOutcome(length: nat, index: int): Result<()>
  {
    if index < 0 || index > length then Thrown(IndexOutOfBounds)
    else if length == 0 then Thrown(NegativeArraySize)
    else if index == length then Thrown(IndexOutOfBounds)
    else Ok(())
  }

  /** The outcome of ObjectArrayTag.removeAt, which has no range guard: the
    * allocation fails first on an empty array, then the copy on a bad index. */
  function ObjectRemoveOutcome(length: nat, index: int): Result<()>
  {
    if length == 0 then Thrown(NegativeArraySize)
    else if index < 0 || index >= length then Thrown(IndexOutOfBounds)
    else Ok(())
  }

  /** Both removeAt variants succeed exactly on the indexes of the array; on
    * an empty array they throw NegativeArraySizeException rather than an
    * index exception. */
  lemma {:induction false} RemoveSucceedsInRange(length: nat, index: int)
    ensures PrimitiveRemoveOutcome(length, index).Ok? <==> 0 <= index < length
    ensures ObjectRemoveOutcome(length, index).Ok? <==> 0 <= index < length
    ensures length == 0 && index == 0 ==>
      PrimitiveRemoveOutcome(length, index) == ObjectRemoveOutcome(length, index) == Thrown(NegativeArraySize)
    ensures length > 0 && !(0 <= index < length) ==>
      PrimitiveRemoveOutcome(length, index) == ObjectRemoveOutcome(length, index) == Thrown(IndexOutOfBounds)
  {
  }

  /** System.arraycopy between distinct arrays: a range outside either array
    * throws and copies nothing; otherwise the length elements from srcPos
    * replace those from dstPos. */
  method ArrayCopy<T>(src: array<T>, srcPos: int, dst: array<T>, dstPos: int, length: int) returns (r: Result<()>)
    requires src != dst
    modifies dst
    ensures r.Ok? <==>
      0 <= srcPos && 0 <= dstPos && 0 <= length && srcPos + length <= src.Length && dstPos + length <= dst.Length
    ensures r.Ok? ==> forall k :: 0 <= k < dst.Length ==>
      dst[k] == if dstPos <= k < dstPos + length then src[srcPos + k - dstPos] else old(dst[k])
    ensures r.Thrown? ==> r.ex == IndexOutOfBounds && dst[..] == old(dst[..])
  {
    if srcPos < 0 || dstPos < 0 || length < 0 || srcPos + length > src.Length || dstPos + length > dst.Length {
      return Thrown(IndexOutOfBounds);
    }
    forall k | 0 <= k < length {
      dst[dstPos + k] := src[srcPos + k];
    }
    return Ok(());
  }

  /** An array that agrees with Inserted(s, i, v) index by index holds it. */
  lemma InsertedElements<T>(a: array<T>, s: seq<T>, i: int, v: T)
    requires 0 <= i <= |s| && a.Length == |s| + 1 && a[i] == v
    requires forall k :: 0 <= k < i ==> a[k] == s[k]
    requires forall k :: i < k < a.Length ==> a[k] == s[k - 1]
    ensures a[..] == Inserted(s, i, v)
  {
    InsertedShifts(s, i, v);
  }

  /** An array that agrees with Removed(s, i) index by index holds it. */
  lemma RemovedElements<T>(a: array<T>, s: seq<T>, i: int)
    requires 0 <= i < |s| && a.Length == |s| - 1
    requires forall k :: 0 <= k < i ==> a[k] == s[k]
    requires forall k :: i <= k < a.Length ==> a[k] == s[k + 1]
    ensures a[..] == Removed(s, i)
  {
    RemovedShifts(s, i);
  }

  // ---------------------------------------------------------------------
  // The primitive array tags.

  /** ByteArrayTag, ShortArrayTag, IntArrayTag, LongArrayTag, FloatArrayTag,
    * DoubleArrayTag, BooleanArrayTag and CharArrayTag, for T the element
    * type. A boxed element (Integer, Short, ...) is an Option<T>. */
  class PrimitiveArrayTag<T(0,==)> {
    var value: array<T>

    /** new IntArrayTag(int...): the tag keeps the array it is given. */
    constructor (a: array<T>)
      ensures value == a
    {
      value := a;
    }

    /** The same constructor, with ValueTag's null check. */
    static method FromArray(a: array?<T>) returns (r: Result<PrimitiveArrayTag<T>>)
      ensures r.Ok? <==> a != null
      ensures r.Ok? ==> fresh(r.value) && r.value.value == a
      ensures r.Thrown? ==> r.ex == NullPointer
    {
      if a == null {
        return Thrown(NullPointer);
      }
      var t := new PrimitiveArrayTag(a);
      return Ok(t);
    }

    /** convert(boxedArray, defaultValue): a fresh array with each null
      * replaced by the default. */
    static method Convert(boxed: array?<Option<T>>, default: T) returns (r: Result<array<T>>)
      ensures r.Ok? <==> boxed != null
      ensures r.Ok? ==> fresh(r.value) && r.value[..] == Unboxed(boxed[..], default)
      ensures r.Thrown? ==> r.ex == NullPointer
    {
      if boxed == null {
        return Thrown(NullPointer);
      }
      var a := new T[boxed.Length];
      var i := 0;
      while i < a.Length
        invariant 0 <= i <= a.Length
        invariant forall j :: 0 <= j < i ==> a[j] == Unboxed(boxed[..], default)[j]
      {
        a[i] := if boxed[i].None? then default else boxed[i].value;
        i := i + 1;
      }
      assert a[..] == Unboxed(boxed[..], default);
      return Ok(a);
    }

    /** new IntArrayTag(Integer[], defaultValue) */
    static method FromBoxed(boxed: array?<Option<T>>, default: T) returns (r: Result<PrimitiveArrayTag<T>>)
      ensures r.Ok? <==> boxed != null
      ensures r.Ok? ==> fresh(r.value) && fresh(r.value.value) && r.value.value[..] == Unboxed(boxed[..], default)
      ensures r.Thrown? ==> r.ex == NullPointer
    {
      var a := Convert(boxed, default);
      if a.Thrown? {
        return Thrown(a.ex);
      }
      var t := new PrimitiveArrayTag(a.value);
      return Ok(t);
    }

    method Length() returns (n: int)
      ensures n == value.Length
    {
      n := value.Length;
    }

    /** get(): the backing array itself. */
    method Get() returns (a: array<T>)
      ensures a == value
    {
      a := value;
    }

    /** set(array), inherited from ValueTag: a null array is refused. */
    method SetValue(a: array?<T>) returns (r: Result<()>)
      modifies this
      ensures r.Ok? <==> a != null
      ensures r.Ok? ==> value == a
      ensures r.Thrown? ==> r.ex == NullPointer && value == old(value)
    {
      if a == null {
        return Thrown(NullPointer);
      }
      value := a;
      return Ok(());
    }

    /** set(Integer[] value, defaultValue): the converted copy replaces the array. */
    method SetBoxed(boxed: array?<Option<T>>, default: T) returns (r: Result<()>)
      modifies this
      ensures r.Ok? <==> boxed != null
      ensures r.Ok? ==> fresh(value) && value[..] == Unboxed(boxed[..], default)
      ensures r.Thrown? ==> r.ex == NullPointer && value == old(value)
    {
      var a := Convert(boxed, default);
      if a.Thrown? {
        return Thrown(a.ex);
      }
      value := a.value;
      return Ok(());
    }

    /** setAt(index, Integer): the boxed value is unboxed before the store,
      * so null fails before the range check. */
    method SetAt(index: int, v: Option<T>) returns (r: Result<()>)
      modifies value
      ensures r.Ok? <==> v.Some? && 0 <= index < value.Length
      ensures r.Ok? ==> value[..] == old(value[..])[index := v.value]
      ensures r.Thrown? ==> r.ex == (if v.None? then NullPointer else IndexOutOfBounds) && value[..] == old(value[..])
    {
      if v.None? {
        return Thrown(NullPointer);
      }
      if !(0 <= index < value.Length) {
        return Thrown(IndexOutOfBounds);
      }
      value[index] := v.value;
      return Ok(());
    }

    method GetAt(index: int) returns (r: Result<T>)
      ensures r.Ok? <==> 0 <= index < value.Length
      ensures r.Ok? ==> r.value == value[index]
      ensures r.Thrown? ==> r.ex == IndexOutOfBounds
    {
      if !(0 <= index < value.Length) {
        return Thrown(IndexOutOfBounds);
      }
      return Ok(value[index]);
    }

    /** insertAt(index, int): range check, then a one-longer copy with v at index. */
    method InsertValueAt(index: int, v: T) returns (r: Result<()>)
      modifies this
      ensures r.Ok? <==> 0 <= index <= old(value.Length)
      ensures r.Ok? ==> fresh(value) && value[..] == Inserted(old(value[..]), index, v)
      ensures r.Thrown? ==> r.ex == IndexOutOfBounds && value == old(value)
    {
      if index < 0 || index > value.Length {
        return Thrown(IndexOutOfBounds);
      }
      var newArray := new T[value.Length + 1];
      var _ := ArrayCopy(value, 0, newArray, 0, index);
      var _ := ArrayCopy(value, index, newArray, index + 1, value.Length - index);
      newArray[index] := v;
      InsertedElements(newArray, value[..], index, v);
      value := newArray;
      return Ok(());
    }

    /** insertAt(index, Integer): unboxes, then inserts. */
    method InsertAt(index: int, v: Option<T>) returns (r: Result<()>)
      modifies this
      ensures r.Ok? <==> v.Some? && 0 <= index <= old(value.Length)
      ensures r.Ok? ==> fresh(value) && value[..] == Inserted(old(value[..]), index, v.value)
      ensures r.Thrown? ==> r.ex == (if v.None? then NullPointer else IndexOutOfBounds) && value == old(value)
    {
      if v.None? {
        return Thrown(NullPointer);
      }
      r := InsertValueAt(index, v.value);
    }

    /** add(v), from ArrayTag: insertAt(length(), v). */
    method Add(v: Option<T>) returns (r: Result<()>)
      modifies this
      ensures r.Ok? <==> v.Some?
      ensures r.Ok? ==> fresh(value) && value[..] == old(value[..]) + [v.value]
      ensures r.Thrown? ==> r.ex == NullPointer && value == old(value)
    {
      var n := Length();
      r := InsertAt(n, v);
      assert r.Ok? ==> old(value[..])[n..] == [];
    }

    /** addFirst(v), from ArrayTag: insertAt(0, v). */
    method AddFirst(v: Option<T>) returns (r: Result<()>)
      modifies this
      ensures r.Ok? <==> v.Some?
      ensures r.Ok? ==> fresh(value) && value[..] == [v.value] + old(value[..])
      ensures r.Thrown? ==> r.ex == NullPointer && value == old(value)
    {
      r := InsertAt(0, v);
      assert r.Ok? ==> old(value[..])[..0] == [];
    }

    /** removeAt(index), as written: see PrimitiveRemoveOutcome. */
    method RemoveAt(index: int) returns (r: Result<()>)
      modifies this
      ensures r == PrimitiveRemoveOutcome(old(value.Length), index)
      ensures r.Ok? ==> fresh(value) && value[..] == Removed(old(value[..]), index)
      ensures r.Thrown? ==> value == old(value)
    {
      if index < 0 || index > value.Length {
        return Thrown(IndexOutOfBounds);
      }
      if value.Length - 1 < 0 {
        return Thrown(NegativeArraySize);
      }
      var newArray := new T[value.Length - 1];
      var first := ArrayCopy(value, 0, newArray, 0, index);
      if first.Thrown? {
        return first;
      }
      var _ := ArrayCopy(value, index + 1, newArray, index, newArray.Length - index);
      RemovedElements(newArray, value[..], index);
      value := newArray;
      return Ok(());
    }

    /** boxedArray(): a fresh boxed copy. */
    method BoxedArray() returns (r: array<Option<T>>)
      ensures fresh(r) && r[..] == Boxed(value[..])
    {
      r := new Option<T>[value.Length];
      var i := 0;
      while i < r.Length
        invariant 0 <= i <= r.Length
        invariant forall j :: 0 <= j < i ==> r[j] == Some(value[j])
      {
        r[i] := Some(value[i]);
        i := i + 1;
      }
      assert r[..] == Boxed(value[..]);
    }

    /** arrayEquals(that), Arrays.equals: same length and the same element
      * at every index; a null array equals nothing. */
    method ArrayEquals(that: array?<T>) returns (b: bool)
      ensures b <==> that != null && that[..] == value[..]
    {
      if that == null {
        return false;
      }
      if that == value {
        return true;
      }
      if that.Length != value.Length {
        return false;
      }
      var i := 0;
      while i < value.Length
        invariant 0 <= i <= value.Length
        invariant that[..i] == value[..i]
      {
        if that[i] != value[i] {
          assert that[..][i] != value[..][i];
          return false;
        }
        i := i + 1;
      }
      assert that[..] == that[..i] && value[..] == value[..i];
      return true;
    }

    /** equals(obj), from ArrayTag: another tag of the same class whose
      * array is arrayEquals to this one; null is never equal. */
    method Equals(other: PrimitiveArrayTag?<T>) returns (b: bool)
      ensures b <==> other != null && other.value[..] == value[..]
    {
      if other == null {
        return false;
      }
      b := ArrayEquals(other.value);
    }
  }

  // ---------------------------------------------------------------------
  // ObjectArrayTag: StringArrayTag, CompoundArrayTag and MapArrayTag.

  /** An array tag over references; None is a null element. */
  class ObjectArrayTag<V(==)> {
    var value: array<Option<V>>

    constructor (a: array<Option<V>>)
      ensures value == a
    {
      value := a;
    }

    /** The constructor, with ValueTag's null check. */
    static method FromArray(a: array?<Option<V>>) returns (r: Result<ObjectArrayTag<V>>)
      ensures r.Ok? <==> a != null
      ensures r.Ok? ==> fresh(r.value) && r.value.value == a
      ensures r.Thrown? ==> r.ex == NullPointer
    {
      if a == null {
        return Thrown(NullPointer);
      }
      var t := new ObjectArrayTag(a);
      return Ok(t);
    }

    method Length() returns (n: int)
      ensures n == value.Length
    {
      n := value.Length;
    }

    method Get() returns (a: array<Option<V>>)
      ensures a == value
    {
      a := value;
    }

    /** set(array): ValueTag's null check on the array, none on its elements. */
    method SetValue(a: array?<Option<V>>) returns (r: Result<()>)
      modifies this
      ensures r.Ok? <==> a != null
      ensures r.Ok? ==> value == a
      ensures r.Thrown? ==> r.ex == NullPointer && value == old(value)
    {
      if a == null {
        return Thrown(NullPointer);
      }
      value := a;
      return Ok(());
    }

    /** setAt(index, v): no null check, so a null element can be stored. */
    method SetAt(index: int, v: Option<V>) returns (r: Result<()>)
      modifies value
      ensures r.Ok? <==> 0 <= index < value.Length
      ensures r.Ok? ==> value[..] == old(value[..])[index := v]
      ensures r.Thrown? ==> r.ex == IndexOutOfBounds && value[..] == old(value[..])
    {
      if !(0 <= index < value.Length) {
        return Thrown(IndexOutOfBounds);
      }
      value[index] := v;
      return Ok(());
    }

    method GetAt(index: int) returns (r: Result<Option<V>>)
      ensures r.Ok? <==> 0 <= index < value.Length
      ensures r.Ok? ==> r.value == value[index]
      ensures r.Thrown? ==> r.ex == IndexOutOfBounds
    {
      if !(0 <= index < value.Length) {
        return Thrown(IndexOutOfBounds);
      }
      return Ok(value[index]);
    }

    /** insertAt(index, v): null check, then the copies, which are what
      * reject a bad index. */
    method InsertAt(index: int, v: Option<V>) returns (r: Result<()>)
      modifies this
      ensures r.Ok? <==> v.Some? && 0 <= index <= old(value.Length)
      ensures r.Ok? ==> fresh(value) && value[..] == Inserted(old(value[..]), index, v)
      ensures r.Thrown? ==> r.ex == (if v.None? then NullPointer else IndexOutOfBounds) && value == old(value)
    {
      if v.None? {
        return Thrown(NullPointer);
      }
      var newArray := new Option<V>[value.Length + 1];
      var first := ArrayCopy(value, 0, newArray, 0, index);
      if first.Thrown? {
        return first;
      }
      var second := ArrayCopy(value, index, newArray, index + 1, value.Length - index);
      if second.Thrown? {
        return second;
      }
      newArray[index] := v;
      InsertedElements(newArray, value[..], index, v);
      value := newArray;
      return Ok(());
    }

    method Add(v: Option<V>) returns (r: Result<()>)
      modifies this
      ensures r.Ok? <==> v.Some?
      ensures r.Ok? ==> fresh(value) && value[..] == old(value[..]) + [v]
      ensures r.Thrown? ==> r.ex == NullPointer && value == old(value)
    {
      var n := Length();
      r := InsertAt(n, v);
      assert r.Ok? ==> old(value[..])[n..] == [];
    }

    method AddFirst(v: Option<V>) returns (r: Result<()>)
      modifies this
      ensures r.Ok? <==> v.Some?
      ensures r.Ok? ==> fresh(value) && value[..] == [v] + old(value[..])
      ensures r.Thrown? ==> r.ex == NullPointer && value == old(value)
    {
      r := InsertAt(0, v);
      assert r.Ok? ==> old(value[..])[..0] == [];
    }

    /** removeAt(index): its null check tests the array field, which is
      * never null; see ObjectRemoveOutcome. */
    method RemoveAt(index: int) returns (r: Result<()>)
      modifies this
      ensures r == ObjectRemoveOutcome(old(value.Length), index)
      ensures r.Ok? ==> fresh(value) && value[..] == Removed(old(value[..]), index)
      ensures r.Thrown? ==> value == old(value)
    {
      if value.Length - 1 < 0 {
        return Thrown(NegativeArraySize);
      }
      var newArray := new Option<V>[value.Length - 1];
      var first := ArrayCopy(value, 0, newArray, 0, index);
      if first.Thrown? {
        return first;
      }
      var _ := ArrayCopy(value, index + 1, newArray, index, newArray.Length - index);
      RemovedElements(newArray, value[..], index);
      value := newArray;
      return Ok(());
    }

    /** boxedArray(): a clone of the array. */
    method BoxedArray() returns (r: array<Option<V>>)
      ensures fresh(r) && r[..] == value[..]
    {
      var a := value;
      r := new Option<V>[a.Length](j requires 0 <= j < a.Length reads a => a[j]);
    }

    /** arrayEquals(that), Arrays.equals over the elements' equals. */
    method ArrayEquals(that: array?<Option<V>>) returns (b: bool)
      ensures b <==> that != null && that[..] == value[..]
    {
      if that == null {
        return false;
      }
      if that.Length != value.Length {
        return false;
      }
      var i := 0;
      while i < value.Length
        invariant 0 <= i <= value.Length
        invariant that[..i] == value[..i]
      {
        if that[i] != value[i] {
          assert that[..][i] != value[..][i];
          return false;
        }
        i := i + 1;
      }
      assert that[..] == that[..i] && value[..] == value[..i];
      return true;
    }

    method Equals(other: ObjectArrayTag?<V>) returns (b: bool)
      ensures b <==> other != null && other.value[..] == value[..]
    {
      if other == null {
        return false;
      }
      b := ArrayEquals(other.value);
    }
  }
}
