/** ListTag: an ArrayList of tags guarded by a lock on the element class.
  * The lock is taken by the first successful insert and is never released,
  * not even when the list becomes empty again. */
module ListTags {
  import opened JavaTypes
  import opened Tags

  /** The state of a ListTag: its elements and its tagType lock. */
  datatype ListValue = ListValue(elements: seq<Tag>, lock: Option<TagClass>)

  /** The state after an operation, and what the operation returned or threw. */
  datatype Outcome<+T> = Outcome(state: ListValue, result: Result<T>)

  const EMPTY: ListValue := ListValue([], None)

  /** tagType.isInstance(e): the tag classes have no subclasses. */
  predicate IsInstance(lock: TagClass, e: Tag)
  {
    ClassOf(e) == lock
  }

  /** What every operation keeps: a list with elements has a lock. */
  predicate Locked(l: ListValue)
  {
    l.elements != [] ==> l.lock.Some?
  }

  /** The check of add and add(index): a non-empty list with a lock only
    * takes instances of the locked class. */
  predicate Rejects(l: ListValue, e: Tag)
  {
    l.elements != [] && l.lock.Some? && !IsInstance(l.lock.value, e)
  }

  /** The lock after a successful insert of e: taken only while it is unset. */
  function LockAfterInsert(l: ListValue, e: Tag): (r: Option<TagClass>)
    ensures r.Some? && (l.lock.Some? ==> r == l.lock)
  {
    if l.lock.None? then Some(ClassOf(e)) else l.lock
  }

  /** add(e) */
  function AddOutcome(l: ListValue, e: Option<Tag>): (o: Outcome<bool>)
    ensures o.result.Ok? <==> e.Some? && !Rejects(l, e.value)
    ensures o.result.Ok? ==> o.result.value && o.state.elements == l.elements + [e.value]
    ensures o.result.Ok? ==> o.state.lock == (if l.lock.Some? then l.lock else Some(ClassOf(e.value)))
    ensures o.result.Thrown? ==> o.state == l
    ensures Locked(o.state) <== Locked(l)
  {
    if e.None? then Outcome(l, Thrown(NullPointer))
    else if Rejects(l, e.value) then Outcome(l, Thrown(IllegalArgument))
    else Outcome(ListValue(l.elements + [e.value], LockAfterInsert(l, e.value)), Ok(true))
  }

  /** add(index, e): the class check comes before ArrayList's range check. */
  function AddAtOutcome(l: ListValue, index: int, e: Option<Tag>): (o: Outcome<()>)
    ensures o.result.Ok? <==> e.Some? && !Rejects(l, e.value) && 0 <= index <= |l.elements|
    ensures o.result.Ok? ==>
      o.state.elements == l.elements[..index] + [e.value] + l.elements[index..]
    ensures o.result.Ok? ==> o.state.lock == (if l.lock.Some? then l.lock else Some(ClassOf(e.value)))
    ensures o.result.Thrown? ==> o.state == l
    ensures Locked(o.state) <== Locked(l)
  {
    if e.None? then Outcome(l, Thrown(NullPointer))
    else if Rejects(l, e.value) then Outcome(l, Thrown(IllegalArgument))
    else if !(0 <= index <= |l.elements|) then Outcome(l, Thrown(IndexOutOfBounds))
    else Outcome(ListValue(l.elements[..index] + [e.value] + l.elements[index..], LockAfterInsert(l, e.value)), Ok(()))
  }

  /** set(index, e): checks the lock even when the list is empty; returns
    * the replaced element. */
  function SetAtOutcome(l: ListValue, index: int, e: Option<Tag>): (o: Outcome<Tag>)
    ensures o.result.Ok? <==>
      e.Some? && (l.lock.None? || IsInstance(l.lock.value, e.value)) && 0 <= index < |l.elements|
    ensures o.result.Ok? ==>
      o.result.value == l.elements[index] && o.state == ListValue(l.elements[index := e.value], l.lock)
    ensures o.result.Thrown? ==> o.state == l
    ensures Locked(o.state) <== Locked(l)
  {
    if e.None? then Outcome(l, Thrown(NullPointer))
    else if l.lock.Some? && !IsInstance(l.lock.value, e.value) then Outcome(l, Thrown(IllegalArgument))
    else if !(0 <= index < |l.elements|) then Outcome(l, Thrown(IndexOutOfBounds))
    else Outcome(ListValue(l.elements[index := e.value], l.lock), Ok(l.elements[index]))
  }

  /** The loop of validate from element i on, with the local tagType seen so
    * far: every element must be non-null, and once the local tagType is
    * set any further element is refused. */
  function ValidateFrom(c: seq<Option<Tag>>, local: Option<TagClass>): (r: Result<Option<TagClass>>)
  {
    if c == [] then Ok(local)
    else if c[0].None? then Thrown(NullPointer)
    else if local.Some? then Thrown(IllegalArgument)
    else ValidateFrom(c[1..], Some(ClassOf(c[0].value)))
  }

  /** validate(c): the local tagType starts as the lock, or unset when the
    * list is empty. */
  function Validation(l: ListValue, c: seq<Option<Tag>>): Result<Option<TagClass>>
  {
    ValidateFrom(c, if l.elements == [] then None else l.lock)
  }

  /** The elements of a collection that validate accepted. */
  function Present(c: seq<Option<Tag>>): (r: seq<Tag>)
    requires forall i :: 0 <= i < |c| ==> c[i].Some?
    ensures |r| == |c| && forall i :: 0 <= i < |c| ==> r[i] == c[i].value
  {
    if c == [] then [] else [c[0].value] + Present(c[1..])
  }

  /** addAll(c): validate, then append; an empty collection changes nothing
    * and returns false. */
  function AddAllOutcome(l: ListValue, c: seq<Option<Tag>>): (o: Outcome<bool>)
    ensures o.result.Thrown? ==> o.state == l
    ensures o.result.Ok? ==> |o.state.elements| == |l.elements| + |c| && o.state.elements[..|l.elements|] == l.elements
    ensures o.result == Ok(true) <==> o.result.Ok? && c != []
  {
    var v := Validation(l, c);
    if v.Thrown? then Outcome(l, Thrown(v.ex))
    else if c == [] then Outcome(l, Ok(false))
    else
      ValidatedElementsPresent(c, if l.elements == [] then None else l.lock);
      Outcome(ListValue(l.elements + Present(c), if l.lock.None? then v.value else l.lock), Ok(true))
  }

  /** addAll(index, c): validate, then ArrayList's range check, then insert. */
  function AddAllAtOutcome(l: ListValue, index: int, c: seq<Option<Tag>>): (o: Outcome<bool>)
  {
    var v := Validation(l, c);
    if v.Thrown? then Outcome(l, Thrown(v.ex))
    else if !(0 <= index <= |l.elements|) then Outcome(l, Thrown(IndexOutOfBounds))
    else if c == [] then Outcome(l, Ok(false))
    else
      ValidatedElementsPresent(c, if l.elements == [] then None else l.lock);
      Outcome(ListValue(l.elements[..index] + Present(c) + l.elements[index..],
                        if l.lock.None? then v.value else l.lock), Ok(true))
  }

  /** remove(index), inherited from ArrayList: the lock stays. */
  function RemoveAtOutcome(l: ListValue, index: int): (o: Outcome<Tag>)
    ensures o.result.Ok? <==> 0 <= index < |l.elements|
    ensures o.result.Ok? ==> o.result.value == l.elements[index]
    ensures o.result.Ok? ==> o.state == ListValue(l.elements[..index] + l.elements[index + 1..], l.lock)
    ensures o.result.Thrown? ==> o.state == l
    ensures Locked(o.state) <== Locked(l)
  {
    if !(0 <= index < |l.elements|) then Outcome(l, Thrown(IndexOutOfBounds))
    else Outcome(ListValue(l.elements[..index] + l.elements[index + 1..], l.lock), Ok(l.elements[index]))
  }

  /** clear(), inherited from ArrayList: the lock stays. */
  function Cleared(l: ListValue): (r: ListValue)
    ensures r.elements == [] && r.lock == l.lock && Locked(r)
  {
    ListValue([], l.lock)
  }

  /** set(list): clear(), then addAll(list); a failing addAll leaves the
    * list cleared. */
  function SetListOutcome(l: ListValue, c: seq<Option<Tag>>): (o: Outcome<()>)
    ensures o.result.Thrown? ==> o.state.elements == [] && o.state.lock == l.lock
    ensures o.result.Ok? ==> |o.state.elements| == |c|
  {
    var added := AddAllOutcome(Cleared(l), c);
    Outcome(added.state, if added.result.Thrown? then Thrown(added.result.ex) else Ok(()))
  }

  // ---------------------------------------------------------------------
  // What validate lets through, and the stale lock.

  /** validate accepts nothing but an empty collection, or one non-null
    * element while the local tagType is unset: a second element always
    * finds the local tagType set. */
  lemma {:induction false} ValidateFromAccepts(c: seq<Option<Tag>>, local: Option<TagClass>)
    ensures ValidateFrom(c, local).Ok? <==> c == [] || (|c| == 1 && c[0].Some? && local.None?)
    ensures ValidateFrom(c, local).Ok? && c != [] ==> ValidateFrom(c, local).value == Some(ClassOf(c[0].value))
  {
    if c != [] && c[0].Some? && local.None? && |c| > 1 {
      assert c[1..] != [];
    }
  }

  lemma {:induction false} ValidatedElementsPresent(c: seq<Option<Tag>>, local: Option<TagClass>)
    requires ValidateFrom(c, local).Ok?
    ensures forall i :: 0 <= i < |c| ==> c[i].Some?
  {
    ValidateFromAccepts(c, local);
  }

  /** addAll succeeds only on an empty collection, or on a single non-null
    * element added to an empty list (or to one with no lock, which no
    * reachable state has); the element is appended and the lock, if unset,
    * becomes its class. */
  lemma {:induction false} AddAllAccepts(l: ListValue, c: seq<Option<Tag>>)
    ensures AddAllOutcome(l, c).result.Ok? <==>
      c == [] || (|c| == 1 && c[0].Some? && (l.elements == [] || l.lock.None?))
    ensures c == [] ==> AddAllOutcome(l, c) == Outcome(l, Ok(false))
    ensures |c| == 1 && c[0].Some? && (l.elements == [] || l.lock.None?) ==>
      AddAllOutcome(l, c) ==
      Outcome(ListValue(l.elements + [c[0].value], if l.lock.None? then Some(ClassOf(c[0].value)) else l.lock), Ok(true))
    ensures AddAllOutcome(l, c).result.Thrown? ==> AddAllOutcome(l, c).state == l
  {
    var local := if l.elements == [] then None else l.lock;
    ValidateFromAccepts(c, local);
    if |c| == 1 && c[0].Some? && local.None? {
      assert Present(c) == [c[0].value];
    }
  }

  /** A two-element collection is refused even by an empty, unlocked list. */
  lemma {:induction false} AddAllRefusesTwo(a: Tag, b: Tag)
    ensures AddAllOutcome(EMPTY, [Some(a), Some(b)]) == Outcome(EMPTY, Thrown(IllegalArgument))
  {
    ValidateFromAccepts([Some(a), Some(b)], None);
  }

  /** addAll keeps the invariant, and a lock once set. */
  lemma {:induction false} AddAllKeepsLock(l: ListValue, c: seq<Option<Tag>>)
    requires Locked(l)
    ensures Locked(AddAllOutcome(l, c).state)
    ensures l.lock.Some? ==> AddAllOutcome(l, c).state.lock == l.lock
  {
    AddAllAccepts(l, c);
  }

  /** addAll(index, c) accepts what addAll(c) accepts, and only at an index
    * from 0 to the size: ArrayList's range check comes after validate but
    * before the emptiness test, so an empty collection at a bad index
    * throws too. The element lands at index; a failure changes nothing. */
  lemma {:induction false} AddAllAtAccepts(l: ListValue, index: int, c: seq<Option<Tag>>)
    ensures AddAllAtOutcome(l, index, c).result.Ok? <==>
      0 <= index <= |l.elements| && (c == [] || (|c| == 1 && c[0].Some? && (l.elements == [] || l.lock.None?)))
    ensures AddAllAtOutcome(l, index, c).result.Thrown? ==> AddAllAtOutcome(l, index, c).state == l
    ensures AddAllAtOutcome(l, index, c).result == Thrown(IndexOutOfBounds) <==>
      Validation(l, c).Ok? && !(0 <= index <= |l.elements|)
    ensures 0 <= index <= |l.elements| && c == [] ==> AddAllAtOutcome(l, index, c) == Outcome(l, Ok(false))
    ensures 0 <= index <= |l.elements| && |c| == 1 && c[0].Some? && (l.elements == [] || l.lock.None?) ==>
      AddAllAtOutcome(l, index, c) ==
      Outcome(ListValue(l.elements[..index] + [c[0].value] + l.elements[index..],
                        if l.lock.None? then Some(ClassOf(c[0].value)) else l.lock), Ok(true))
  {
    var local := if l.elements == [] then None else l.lock;
    ValidateFromAccepts(c, local);
    if |c| == 1 && c[0].Some? && local.None? {
      assert Present(c) == [c[0].value];
    }
  }

  /** addAll(index, c) keeps the invariant, and a lock once set. */
  lemma {:induction false} AddAllAtKeepsLock(l: ListValue, index: int, c: seq<Option<Tag>>)
    requires Locked(l)
    ensures Locked(AddAllAtOutcome(l, index, c).state)
    ensures l.lock.Some? ==> AddAllAtOutcome(l, index, c).state.lock == l.lock
  {
    AddAllAtAccepts(l, index, c);
  }

  /** addAll(index, c) at the end of the list is addAll(c). */
  lemma {:induction false} AddAllAtEnd(l: ListValue, c: seq<Option<Tag>>)
    ensures AddAllAtOutcome(l, |l.elements|, c) == AddAllOutcome(l, c)
  {
    AddAllAtAccepts(l, |l.elements|, c);
    AddAllAccepts(l, c);
    assert l.elements[|l.elements|..] == [];
    assert l.elements[..|l.elements|] == l.elements;
  }

  /** The lock outlives the elements: a list of ints emptied by remove(0)
    * takes a string (the emptiness test skips the check), then takes an
    * int again but refuses a second string, so it ends up holding a string
    * and an int. */
  lemma {:induction false} StaleLockMixesClasses(s: Text, x: Int32, y: Int32)
    ensures var start := ListValue([IntTag(x)], Some(IntTagClass));
      var emptied := RemoveAtOutcome(start, 0).state;
      var one := AddOutcome(emptied, Some(StringTag(s)));
      var refused := AddOutcome(one.state, Some(StringTag(s)));
      var two := AddOutcome(one.state, Some(IntTag(y)));
      emptied == ListValue([], Some(IntTagClass)) &&
      one == Outcome(ListValue([StringTag(s)], Some(IntTagClass)), Ok(true)) &&
      refused == Outcome(one.state, Thrown(IllegalArgument)) &&
      two == Outcome(ListValue([StringTag(s), IntTag(y)], Some(IntTagClass)), Ok(true))
  {
    var start := ListValue([IntTag(x)], Some(IntTagClass));
    assert start.elements[..0] + start.elements[1..] == [];
  }

  /** set(list) empties the list before addAll, so it takes any single
    * element; a longer list leaves it empty and throws. */
  lemma {:induction false} SetListReplaces(l: ListValue, c: seq<Option<Tag>>)
    ensures SetListOutcome(l, c).result.Ok? <==> c == [] || (|c| == 1 && c[0].Some?)
    ensures SetListOutcome(l, c).state.elements ==
      if |c| == 1 && c[0].Some? then [c[0].value] else []
    ensures SetListOutcome(l, c).state.lock ==
      if l.lock.None? && |c| == 1 && c[0].Some? then Some(ClassOf(c[0].value)) else l.lock
  {
    AddAllAccepts(Cleared(l), c);
  }

  // ---------------------------------------------------------------------
  // The mutable ListTag.

  /** A ListTag object: the ArrayList storage and the tagType field. */
  class ListTagObject {
    var elements: seq<Tag>
    var lock: Option<TagClass>

    function Value(): ListValue
      reads this
    {
      ListValue(elements, lock)
    }

    /** new ListTag() */
    constructor ()
      ensures Value() == EMPTY
    {
      elements := [];
      lock := None;
    }

    /** ListTag.of(list): a new ListTag filled by addAll, whose exception
      * escapes the constructor. */
    static method Of(c: seq<Option<Tag>>) returns (r: Result<ListTagObject>)
      ensures r.Ok? <==> AddAllOutcome(EMPTY, c).result.Ok?
      ensures r.Ok? ==> fresh(r.value) && r.value.Value() == AddAllOutcome(EMPTY, c).state
      ensures r.Thrown? ==> r.ex == AddAllOutcome(EMPTY, c).result.ex
    {
      var l := new ListTagObject();
      var added := l.AddAll(c);
      if added.Thrown? {
        return Thrown(added.ex);
      }
      return Ok(l);
    }

    /** get(): the list itself. */
    method Get() returns (r: seq<Tag>)
      ensures r == elements
    {
      r := elements;
    }

    method Add(e: Option<Tag>) returns (r: Result<bool>)
      modifies this
      ensures Value() == AddOutcome(old(Value()), e).state && r == AddOutcome(old(Value()), e).result
    {
      if e.None? {
        return Thrown(NullPointer);
      }
      if elements != [] && lock.Some? && !IsInstance(lock.value, e.value) {
        return Thrown(IllegalArgument);
      }
      elements := elements + [e.value];
      if lock.None? {
        lock := Some(ClassOf(e.value));
      }
      return Ok(true);
    }

    method AddAt(index: int, e: Option<Tag>) returns (r: Result<()>)
      modifies this
      ensures Value() == AddAtOutcome(old(Value()), index, e).state && r == AddAtOutcome(old(Value()), index, e).result
    {
      if e.None? {
        return Thrown(NullPointer);
      }
      if elements != [] && lock.Some? && !IsInstance(lock.value, e.value) {
        return Thrown(IllegalArgument);
      }
      if !(0 <= index <= |elements|) {
        return Thrown(IndexOutOfBounds);
      }
      elements := elements[..index] + [e.value] + elements[index..];
      if lock.None? {
        lock := Some(ClassOf(e.value));
      }
      return Ok(());
    }

    method SetAt(index: int, e: Option<Tag>) returns (r: Result<Tag>)
      modifies this
      ensures Value() == SetAtOutcome(old(Value()), index, e).state && r == SetAtOutcome(old(Value()), index, e).result
    {
      if e.None? {
        return Thrown(NullPointer);
      }
      if lock.Some? && !IsInstance(lock.value, e.value) {
        return Thrown(IllegalArgument);
      }
      if !(0 <= index < |elements|) {
        return Thrown(IndexOutOfBounds);
      }
      r := Ok(elements[index]);
      elements := elements[index := e.value];
    }

    /** validate(c): the loop over the collection with a local tagType. */
    method Validate(c: seq<Option<Tag>>) returns (r: Result<Option<TagClass>>)
      ensures r == Validation(Value(), c)
    {
      var local := if elements == [] then None else lock;
      var i := 0;
      while i < |c|
        invariant 0 <= i <= |c|
        invariant ValidateFrom(c[i..], local) == Validation(Value(), c)
      {
        assert c[i..][1..] == c[i + 1..];
        if c[i].None? {
          return Thrown(NullPointer);
        }
        if local.Some? {
          return Thrown(IllegalArgument);
        }
        local := Some(ClassOf(c[i].value));
        i := i + 1;
      }
      return Ok(local);
    }

    method AddAll(c: seq<Option<Tag>>) returns (r: Result<bool>)
      modifies this
      ensures Value() == AddAllOutcome(old(Value()), c).state && r == AddAllOutcome(old(Value()), c).result
    {
      var v := Validate(c);
      if v.Thrown? {
        return Thrown(v.ex);
      }
      if c == [] {
        return Ok(false);
      }
      ValidatedElementsPresent(c, if elements == [] then None else lock);
      elements := elements + Present(c);
      if lock.None? {
        lock := v.value;
      }
      return Ok(true);
    }

    method AddAllAt(index: int, c: seq<Option<Tag>>) returns (r: Result<bool>)
      modifies this
      ensures Value() == AddAllAtOutcome(old(Value()), index, c).state && r == AddAllAtOutcome(old(Value()), index, c).result
    {
      var v := Validate(c);
      if v.Thrown? {
        return Thrown(v.ex);
      }
      if !(0 <= index <= |elements|) {
        return Thrown(IndexOutOfBounds);
      }
      if c == [] {
        return Ok(false);
      }
      ValidatedElementsPresent(c, if elements == [] then None else lock);
      elements := elements[..index] + Present(c) + elements[index..];
      if lock.None? {
        lock := v.value;
      }
      return Ok(true);
    }

    method RemoveAt(index: int) returns (r: Result<Tag>)
      modifies this
      ensures Value() == RemoveAtOutcome(old(Value()), index).state && r == RemoveAtOutcome(old(Value()), index).result
    {
      if !(0 <= index < |elements|) {
        return Thrown(IndexOutOfBounds);
      }
      r := Ok(elements[index]);
      elements := elements[..index] + elements[index + 1..];
    }

    method Clear()
      modifies this
      ensures Value() == Cleared(old(Value()))
    {
      elements := [];
    }

    /** set(list): clear(), then addAll(list). */
    method SetList(c: seq<Option<Tag>>) returns (r: Result<()>)
      modifies this
      ensures Value() == SetListOutcome(old(Value()), c).state && r == SetListOutcome(old(Value()), c).result
    {
      Clear();
      var added := AddAll(c);
      r := if added.Thrown? then Thrown(added.ex) else Ok(());
    }
  }
}
