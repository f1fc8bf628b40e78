/** The editor's text converters for the integral tags and CharTag: how the
  * text in a field becomes a value (fromString), how a value becomes text
  * (toString), and which edits the field's filter lets through. A text is a
  * sequence of UTF-16 code units; a null String is None. The parsers throw
  * NumberFormatException where Long.parseLong does, and the converter
  * catches it. */
module Converters {
  import opened JavaTypes

  const MINUS: CodeUnit := 45
  const PLUS: CodeUnit := 43
  const ZERO: CodeUnit := 48

  /** The character class [0-9]: ASCII digits only. */
  predicate IsDigit(c: CodeUnit)
  {
    ZERO <= c <= ZERO + 9
  }

  predicate AllDigits(d: Text)
  {
    forall i :: 0 <= i < |d| ==> IsDigit(d[i])
  }

  /** The text after the optional leading sign [-+]?. */
  function Unsigned(s: Text): (d: Text)
    ensures |d| <= |s| && d == s[|s| - |d|..]
    ensures s != [] && (s[0] == MINUS || s[0] == PLUS) ==> |d| == |s| - 1
  {
    if s != [] && (s[0] == MINUS || s[0] == PLUS) then s[1..] else s
  }

  /** FILLING_INT_PATTERN, ^[-+]?[0-9]*$, matched against the whole text. */
  predicate Filling(s: Text)
  {
    AllDigits(Unsigned(s))
  }

  /** COMPLETE_INT_PATTERN, ^[-+]?[0-9]+$, matched against the whole text. */
  predicate Complete(s: Text)
  {
    Unsigned(s) != [] && AllDigits(Unsigned(s))
  }

  /** The number that a run of decimal digits denotes. */
  function DigitsValue(d: Text): (n: nat)
    requires AllDigits(d)
  {
    if d == [] then 0 else DigitsValue(d[..|d| - 1]) * 10 + (d[|d| - 1] - ZERO)
  }

  /** The integer that a complete text denotes, sign included. */
  function Denoted(s: Text): int
    requires Complete(s)
  {
    var n: int := DigitsValue(Unsigned(s));
    if s[0] == MINUS then -n else n
  }

  predicate InLongRange(x: int)
  {
    -0x8000_0000_0000_0000 <= x < 0x8000_0000_0000_0000
  }

  /** Long.parseLong on a text of the complete pattern: the denoted number, or
    * NumberFormatException when it does not fit a long. */
  function ParseLong(s: Text): (r: Result<Int64>)
    requires Complete(s)
    ensures r.Ok? <==> InLongRange(Denoted(s))
    ensures r.Ok? ==> r.value == Denoted(s)
    ensures r.Thrown? ==> r.ex == NumberFormat
  {
    var x := Denoted(s);
    if InLongRange(x) then Ok(x) else Thrown(NumberFormat)
  }

  /** The four integral converters. */
  datatype Kind = INT | SHORT | BYTE | LONG

  /** The range of the converter's boxed type. */
  predicate InRange(kind: Kind, x: int)
  {
    match kind
    case INT => -0x8000_0000 <= x < 0x8000_0000
    case SHORT => -0x8000 <= x < 0x8000
    case BYTE => -0x80 <= x < 0x80
    case LONG => InLongRange(x)
  }

  /** The parser of each converter: parseLong, then, for INT, SHORT and BYTE,
    * the range check that returns null instead of a narrowed value. */
  function Parse(kind: Kind, s: Text): (r: Result<Option<int>>)
    requires Complete(s)
  {
    match ParseLong(s)
    case Thrown(ex) => Thrown(ex)
    case Ok(v) =>
      if kind == LONG || InRange(kind, v) then Ok(Some(v)) else Ok(None)
  }

  /** fromString(value): null when the text is null or not complete, or when
    * the parser throws or returns null. */
  function FromString(kind: Kind, s: Option<Text>): (r: Option<int>)
    ensures r.Some? ==> s.Some? && Complete(s.value)
  {
    if s.None? || !Complete(s.value) then None
    else match Parse(kind, s.value)
      case Thrown(_) => None
      case Ok(v) => v
  }

  /** The filter's decision on the control's new text: true when the change
    * is kept, false when the filter returns null. It keeps an empty field and
    * every text that fromString accepts; any other text is kept exactly when
    * it may still grow into a number (a lone sign), so digits past the range
    * are refused. */
  function Accepts(kind: Kind, newText: Text): (b: bool)
    ensures newText == [] ==> b
    ensures FromString(kind, Some(newText)).Some? ==> b
    ensures newText != [] && FromString(kind, Some(newText)).None? ==>
      (b <==> Filling(newText) && !Complete(newText))
  {
    if newText == [] then true
    else if Complete(newText) then
      match Parse(kind, newText)
      case Thrown(_) => false
      case Ok(number) => number.Some?
    else Filling(newText)
  }

  /** The decimal digits of n, without leading zeros: Long.toString and its
    * kin for a non-negative number. */
  function Digits(n: nat): Text
    decreases n
  {
    if n < 10 then [ZERO + n] else Digits(n / 10) + [ZERO + n % 10]
  }

  /** toString(object): "" for null, otherwise the decimal form with a '-'
    * in front of a negative number. */
  function ToString(x: Option<int>): (r: Text)
    ensures r == [] <==> x.None?
    ensures x.Some? && x.value < 0 ==> r[0] == MINUS
  {
    if x.None? then []
    else if x.value < 0 then [MINUS] + Digits(-x.value)
    else Digits(x.value)
  }

  /** fromString accepts exactly the complete texts that denote a number in
    * the converter's range, and returns that number. */
  lemma {:induction false} FromStringMeaning(kind: Kind, s: Option<Text>)
    ensures FromString(kind, s).Some? <==>
      s.Some? && Complete(s.value) && InRange(kind, Denoted(s.value))
    ensures FromString(kind, s).Some? ==> FromString(kind, s).value == Denoted(s.value)
  {
    if s.Some? && Complete(s.value) && kind != LONG && InRange(kind, Denoted(s.value)) {
      assert InLongRange(Denoted(s.value));
    }
  }

  /** A lone sign is kept by the filter but is not a number. */
  lemma {:induction false} LoneSign(kind: Kind, sign: CodeUnit)
    requires sign == MINUS || sign == PLUS
    ensures Accepts(kind, [sign]) && FromString(kind, Some([sign])).None?
  {
    assert Unsigned([sign]) == [];
  }

  /** A leading zero does not change the number a run of digits denotes, so
    * "007" reads back as 7. */
  lemma {:induction false} LeadingZeroIgnored(d: Text)
    requires AllDigits(d)
    ensures AllDigits([ZERO] + d) && DigitsValue([ZERO] + d) == DigitsValue(d)
    decreases |d|
  {
    var z := [ZERO] + d;
    assert forall i :: 0 <= i < |d| ==> z[i + 1] == d[i];
    if d != [] {
      var init := d[..|d| - 1];
      assert z[..|z| - 1] == [ZERO] + init;
      LeadingZeroIgnored(init);
    }
  }

  /** Appending one digit: the value of the longer run. */
  lemma {:induction false} DigitsValueSnoc(d: Text, c: CodeUnit)
    requires AllDigits(d) && IsDigit(c)
    ensures AllDigits(d + [c]) && DigitsValue(d + [c]) == DigitsValue(d) * 10 + (c - ZERO)
  {
    assert (d + [c])[..|d + [c]| - 1] == d;
  }

  /** The decimal form of n is a non-empty run of digits that denotes n. */
  lemma {:induction false} DigitsDenote(n: nat)
    ensures Digits(n) != [] && AllDigits(Digits(n)) && DigitsValue(Digits(n)) == n
    decreases n
  {
    if n < 10 {
      assert DigitsValue(Digits(n)) == DigitsValue([]) * 10 + n;
    } else {
      DigitsDenote(n / 10);
      DigitsValueSnoc(Digits(n / 10), ZERO + n % 10);
    }
  }

  /** toString, then fromString, gives back every value of the converter's
    * type. */
  lemma {:induction false} RoundTrip(kind: Kind, x: int)
    requires InRange(kind, x)
    ensures Complete(ToString(Some(x)))
    ensures FromString(kind, Some(ToString(Some(x)))) == Some(x)
  {
    var t := ToString(Some(x));
    if x < 0 {
      DigitsDenote(-x);
      assert Unsigned(t) == Digits(-x);
    } else {
      DigitsDenote(x);
      assert Unsigned(t) == Digits(x);
    }
    assert Denoted(t) == x;
    FromStringMeaning(kind, Some(t));
  }

  /** CharConverter.fromString: the single character of a one-character text,
    * null for anything else. */
  function CharFromString(s: Option<Text>): (c: Option<CodeUnit>)
    ensures c.Some? <==> s.Some? && |s.value| == 1
    ensures c.Some? ==> s.value == [c.value]
  {
    if s.None? || |s.value| != 1 then None else Some(s.value[0])
  }

  /** CharConverter.toString: "" for null, else the one-character text. */
  function CharToString(c: Option<CodeUnit>): (t: Text)
    ensures c.None? ==> t == []
    ensures c.Some? ==> CharFromString(Some(t)) == c
  {
    if c.None? then [] else [c.value]
  }

  /** CharConverter's filter: it keeps exactly the empty text and the texts
    * that fromString accepts. */
  function CharAccepts(newText: Text): (b: bool)
    ensures b <==> newText == [] || CharFromString(Some(newText)).Some?
  {
    newText == [] || |newText| == 1
  }
}
