/** Java's primitive types and exceptions, as the rest of the model sees them.
  * Integers are mathematical integers restricted to the Java ranges; the
  * narrowing casts that Java performs silently are written out as ToInt8..ToInt64. */
module JavaTypes {

  /** A Java reference that may be null: None is null. */
  datatype Option<+T> = None | Some(value: T)

  /** The Java exceptions the modelled code raises. */
  datatype Exception =
    | NullPointer
    | IndexOutOfBounds
    | NegativeArraySize
    | IllegalArgument
    | IllegalState
    | ClassCast
    | NumberFormat
    | IO(failure: IoFailure)

  /** The IOExceptions of the binary codec, one per distinct cause. */
  datatype IoFailure =
    | EndOfFile                            // the stream ended inside a value
    | MalformedUtf                         // readUTF met an invalid modified UTF-8 body
    | UtfTooLong                           // writeUTF met a string over 65535 encoded bytes
    | NoMoreData                           // read() met an END entry
    | UnknownType(id: int)                 // an id byte outside the registry
    | DepthExceeded                        // a payload deeper than maximumDepth
    | CharLength                           // a char payload that is not one character
    | ElementType(expected: int, found: int) // a list-shaped array with the wrong element id
    | UnsupportedKind                      // readPayload's default branch
    | Serializing(key: Text, cause: Exception) // writeEntry's wrapper naming the key

  /** The outcome of a Java call: a value, or the exception it throws. */
  datatype Result<+T> = Ok(value: T) | Thrown(ex: Exception)

  type Int8 = x: int | -0x80 <= x < 0x80
  type Int16 = x: int | -0x8000 <= x < 0x8000
  type Int32 = x: int | -0x8000_0000 <= x < 0x8000_0000
  type Int64 = x: int | -0x8000_0000_0000_0000 <= x < 0x8000_0000_0000_0000

  /** A Java char: one UTF-16 code unit. */
  type CodeUnit = x: int | 0 <= x < 0x1_0000

  /** A Java String: a sequence of UTF-16 code units. */
  type Text = seq<CodeUnit>

  /** The IEEE 754 bit patterns of a float and of a double, kept opaque. */
  type Bits32 = x: int | 0 <= x < 0x1_0000_0000
  type Bits64 = x: int | 0 <= x < 0x1_0000_0000_0000_0000

  /** A Java string literal as code units (every literal here is ASCII). */
  function Lit(s: string): (t: Text)
    requires forall i :: 0 <= i < |s| ==> s[i] as int < 0x1_0000
    ensures |t| == |s| && forall i :: 0 <= i < |s| ==> t[i] == s[i] as int
  {
    seq(|s|, i requires 0 <= i < |s| => s[i] as int)
  }

  const INT32_MIN: int := -0x8000_0000
  const INT32_MAX: int := 0x7FFF_FFFF
  const INT64_MIN: int := -0x8000_0000_0000_0000
  const INT64_MAX: int := 0x7FFF_FFFF_FFFF_FFFF

  function Pow2(n: nat): (r: nat)
    ensures r >= 1
  {
    if n == 0 then 1 else 2 * Pow2(n - 1)
  }

  /** Java's (byte), (short), (int) and (long) casts: the two's complement
    * value of the low 8, 16, 32 or 64 bits. A value that already fits is
    * left unchanged. */
  function ToInt8(x: int): (r: Int8)
    ensures (x - r) % 0x100 == 0
    ensures -0x80 <= x < 0x80 ==> r == x
  {
    var m := x % 0x100;
    if m >= 0x80 then m - 0x100 else m
  }

  function ToInt16(x: int): (r: Int16)
    ensures (x - r) % 0x1_0000 == 0
    ensures -0x8000 <= x < 0x8000 ==> r == x
  {
    var m := x % 0x1_0000;
    if m >= 0x8000 then m - 0x1_0000 else m
  }

  function ToInt32(x: int): (r: Int32)
    ensures (x - r) % 0x1_0000_0000 == 0
    ensures INT32_MIN <= x <= INT32_MAX ==> r == x
  {
    var m := x % 0x1_0000_0000;
    if m >= 0x8000_0000 then m - 0x1_0000_0000 else m
  }

  function ToInt64(x: int): (r: Int64)
    ensures (x - r) % 0x1_0000_0000_0000_0000 == 0
    ensures INT64_MIN <= x <= INT64_MAX ==> r == x
  {
    var m := x % 0x1_0000_0000_0000_0000;
    if m >= 0x8000_0000_0000_0000 then m - 0x1_0000_0000_0000_0000 else m
  }
}
