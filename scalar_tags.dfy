/** The mutable scalar tags: ValueTag, the base of the tags that hold an
  * object, and IntTag, ShortTag and CharTag, which hold a primitive. A boxed
  * argument (Integer, Short, Character) is an Option: None is null, which
  * the unboxing in set rejects. */
module ScalarTags {
  import opened JavaTypes
  import Tags

  /** ValueTag<T>: a value field that the constructor and set keep non-null. */
  class ValueTag<T> {
    var value: T

    constructor (v: T)
      ensures value == v
    {
      value := v;
    }

    /** The constructor with its null check. */
    static method New(v: Option<T>) returns (r: Result<ValueTag<T>>)
      ensures r.Ok? <==> v.Some?
      ensures r.Ok? ==> fresh(r.value) && r.value.value == v.value
      ensures r.Thrown? ==> r.ex == NullPointer
    {
      if v.None? {
        return Thrown(NullPointer);
      }
      var t := new ValueTag(v.value);
      return Ok(t);
    }

    /** set(value): null is refused and leaves the old value. */
    method Set(v: Option<T>) returns (r: Result<()>)
      modifies this
      ensures r.Ok? <==> v.Some?
      ensures value == if v.Some? then v.value else old(value)
      ensures r.Thrown? ==> r.ex == NullPointer
    {
      if v.None? {
        return Thrown(NullPointer);
      }
      value := v.value;
      return Ok(());
    }

    method Get() returns (v: T)
      ensures v == value
    {
      v := value;
    }
  }

  /** IntTag: a mutable int. */
  class IntTag {
    var value: Int32

    /** The tag's current value as a tree node. */
    function AsTag(): Tags.Tag
      reads this
    {
      Tags.IntTag(value)
    }

    constructor (v: Int32)
      ensures value == v
    {
      value := v;
    }

    method Set(v: Int32)
      modifies this
      ensures value == v
    {
      value := v;
    }

    /** set(Integer): the unboxing throws on null. */
    method SetBoxed(v: Option<Int32>) returns (r: Result<()>)
      modifies this
      ensures r.Ok? <==> v.Some?
      ensures value == if v.Some? then v.value else old(value)
      ensures r.Thrown? ==> r.ex == NullPointer
    {
      if v.None? {
        return Thrown(NullPointer);
      }
      value := v.value;
      return Ok(());
    }

    method Get() returns (v: Int32)
      ensures v == value
    {
      v := value;
    }

    /** intValue(), as NumberTag's conversion of this tag. */
    method IntValue() returns (r: Int32)
      ensures r == Tags.IntValue(AsTag()) && r == value
    {
      r := value;
    }

    /** longValue(): the sign-preserving widening. */
    method LongValue() returns (r: Int64)
      ensures r == Tags.LongValue(AsTag()) && r == value
    {
      r := value;
    }

    /** hashCode(): Integer.hashCode, the value itself, so equal tags hash alike. */
    method HashCode() returns (h: Int32)
      ensures h == value
    {
      h := value;
    }

    /** equals(obj): another IntTag holding the same int. */
    method Equals(other: IntTag?) returns (b: bool)
      ensures b <==> other != null && other.AsTag() == AsTag()
    {
      b := other != null && other.value == value;
    }
  }

  /** ShortTag: a mutable short. */
  class ShortTag {
    var value: Int16

    function AsTag(): Tags.Tag
      reads this
    {
      Tags.ShortTag(value)
    }

    constructor (v: Int16)
      ensures value == v
    {
      value := v;
    }

    method Set(v: Int16)
      modifies this
      ensures value == v
    {
      value := v;
    }

    /** set(Short): the unboxing throws on null. */
    method SetBoxed(v: Option<Int16>) returns (r: Result<()>)
      modifies this
      ensures r.Ok? <==> v.Some?
      ensures value == if v.Some? then v.value else old(value)
      ensures r.Thrown? ==> r.ex == NullPointer
    {
      if v.None? {
        return Thrown(NullPointer);
      }
      value := v.value;
      return Ok(());
    }

    method Get() returns (v: Int16)
      ensures v == value
    {
      v := value;
    }

    method ShortValue() returns (r: Int16)
      ensures r == Tags.ShortValue(AsTag()) && r == value
    {
      r := value;
    }

    /** intValue(): sign extension keeps the number. */
    method IntValue() returns (r: Int32)
      ensures r == Tags.IntValue(AsTag()) && r == value
    {
      r := value;
    }

    method LongValue() returns (r: Int64)
      ensures r == Tags.LongValue(AsTag()) && r == value
    {
      r := value;
    }

    /** hashCode(): Short.hashCode, the value as an int. */
    method HashCode() returns (h: Int32)
      ensures h == value
    {
      h := value;
    }

    method Equals(other: ShortTag?) returns (b: bool)
      ensures b <==> other != null && other.AsTag() == AsTag()
    {
      b := other != null && other.value == value;
    }
  }

  /** CharTag: a mutable char; it is a Tag but not a NumberTag. */
  class CharTag {
    var value: CodeUnit

    function AsTag(): Tags.Tag
      reads this
      ensures !Tags.IsNumberTag(AsTag())
    {
      Tags.CharTag(value)
    }

    constructor (v: CodeUnit)
      ensures value == v
    {
      value := v;
    }

    method Set(v: CodeUnit)
      modifies this
      ensures value == v
    {
      value := v;
    }

    /** set(Character): the unboxing throws on null. */
    method SetBoxed(v: Option<CodeUnit>) returns (r: Result<()>)
      modifies this
      ensures r.Ok? <==> v.Some?
      ensures value == if v.Some? then v.value else old(value)
      ensures r.Thrown? ==> r.ex == NullPointer
    {
      if v.None? {
        return Thrown(NullPointer);
      }
      value := v.value;
      return Ok(());
    }

    method Get() returns (v: CodeUnit)
      ensures v == value
    {
      v := value;
    }

    method CharValue() returns (c: CodeUnit)
      ensures c == AsTag().charValue
    {
      c := value;
    }

    /** hashCode(): Character.hashCode, the code unit as an int. */
    method HashCode() returns (h: Int32)
      ensures h == value
    {
      h := value;
    }

    method Equals(other: CharTag?) returns (b: bool)
      ensures b <==> other != null && other.AsTag() == AsTag()
    {
      b := other != null && other.value == value;
    }
  }
}
